/** What a volume does when it is told that another one is lost. */
module Synchronizing {
  import opened Types
  import opened ReplicaQueue
  import opened VolumeSpec
  import opened VolumeInvariant
  import opened VolumeRuns
  import opened Agreement
  import opened Untouched

  ghost predicate AllStored(t: Tables, sigs: seq<Signature>) {
    forall s | s in sigs :: s in t.files
  }

  /** The signatures whose file the volume heads once `vid` is gone, in the order of the index. */
  function Headed(t: Tables, id: VolumeID, vid: VolumeID, sigs: seq<Signature>): (r: seq<Signature>)
    ensures forall s :: s in r <==> s in sigs && s in t.files && Heads(t.files[s], id, vid)
    decreases |sigs|
  {
    if sigs == [] then []
    else
      var n := |sigs| - 1;
      assert forall s :: s in sigs <==> s in sigs[..n] || s == sigs[n];
      var before := Headed(t, id, vid, sigs[..n]);
      if sigs[n] in t.files && Heads(t.files[sigs[n]], id, vid) then before + [sigs[n]] else before
  }

  lemma {:induction false} HeadedOnce(t: Tables, id: VolumeID, vid: VolumeID, sigs: seq<Signature>)
    requires NoDup(sigs)
    ensures NoDup(Headed(t, id, vid, sigs))
    decreases |sigs|
  {
    if sigs != [] {
      var n := |sigs| - 1;
      HeadedOnce(t, id, vid, sigs[..n]);
      assert sigs[n] !in sigs[..n];
    }
  }

  /**
   * The entry that restores the copies of one file, field by field: it goes by the first key of the record, however many
   * there are, lists the record's volumes without the lost one, and counts what is missing from the wanted number. It has
   * neither a lifetime nor a time of creation.
   */
  ghost predicate Repairs(e: Replica, t: Tables, id: VolumeID, vid: VolumeID, s: Signature) {
    && s in t.files && t.files[s].keys != []
    && var f := t.files[s];
       && e.key == f.keys[0] && e.signature == s && e.volumeID == id && e.volumeIDs == Without(f.volumeIDs, vid)
       && e.originalCount == f.replica && e.count == f.replica - |Without(f.volumeIDs, vid)|
       && e.ttl == NO_TTL && e.createdAt == ZERO_TIME
  }

  /** The entries `es` are the repairs of the signatures `sigs`, one for one. */
  ghost predicate AllRepairs(es: seq<Replica>, t: Tables, id: VolumeID, vid: VolumeID, sigs: seq<Signature>) {
    |es| == |sigs| && forall i | 0 <= i < |es| :: Repairs(es[i], t, id, vid, sigs[i])
  }

  lemma {:induction false} SyncLoopExactly(t: Tables, id: VolumeID, vid: VolumeID, sigs: seq<Signature>, q: Queue,
                                           uuids: seq<string>, ticks: seq<int>)
    requires Ordered(q.entries, q.lastKey) && GoodRecords(t)
    ensures var (q', ok) := SyncLoop(t, id, vid, sigs, q, uuids, ticks);
            && (ok <==> AllStored(t, sigs))
            && (ok ==> q.entries <= q'.entries &&
                       AllRepairs(q'.entries[|q.entries|..], t, id, vid, Headed(t, id, vid, sigs)))
    decreases |sigs|
  {
    hide Ordered, Enqueue, GoodRecords, Repairs, RepairEntry;
    if sigs != [] {
      var n := |sigs| - 1;
      var s := sigs[n];
      SyncLoopExactly(t, id, vid, sigs[..n], q, uuids, ticks);
      SyncLoopOrdered(t, id, vid, sigs[..n], q, uuids, ticks);
      assert forall x :: x in sigs <==> x in sigs[..n] || x == s;
      var (q1, ok1) := SyncLoop(t, id, vid, sigs[..n], q, uuids, ticks);
      var (q', ok) := SyncLoop(t, id, vid, sigs, q, uuids, ticks);
      if ok && Heads(t.files[s], id, vid) {
        var rp := RepairEntry(t.files[s], id, Without(t.files[s].volumeIDs, vid), At(uuids, n, ""));
        EnqueueOrdered(q1.entries, q1.lastKey, NextKey(q1.lastKey, At(ticks, n, 0)), rp);
        var e := q'.entries[|q1.entries|];
        assert q'.entries[|q.entries|..] == q1.entries[|q.entries|..] + [e];
        EntryRepairs(t, id, vid, s, At(uuids, n, ""), e.volumeReplicaID);
      }
    }
  }

  lemma EntryRepairs(t: Tables, id: VolumeID, vid: VolumeID, s: Signature, uuid: string, k: nat)
    requires GoodRecords(t) && s in t.files && t.files[s].keys != []
    ensures Repairs(RepairEntry(t.files[s], id, Without(t.files[s].volumeIDs, vid), uuid).(volumeReplicaID := k), t, id, vid, s)
  {
    RecordOf(t, s);
  }

  /**
   * A volume that is told that `vid` is gone succeeds exactly when every signature that it indexes for `vid` has a
   * record. It then queues one repair, and only one, for every such file that it now heads.
   */
  lemma SynchronizeExactly(v: Vol, vid: VolumeID, uuids: seq<string>, ticks: seq<int>)
    requires Inv(v) && Ordered(v.tables.replicas, v.lastKey)
    ensures var (v', r) := SynchronizeReplicas(v, vid, uuids, ticks);
            && (r.Ok? <==> vid in v.tables.idxvolumes && AllStored(v.tables, v.tables.idxvolumes[vid]))
            && v'.tables == v.tables.(replicas := v'.tables.replicas)
            && (r.Err? ==> v'.tables == v.tables)
            && (r.Ok? ==>
                  var heads := Headed(v.tables, v.id, vid, v.tables.idxvolumes[vid]);
                  && NoDup(heads) && v.tables.replicas <= v'.tables.replicas
                  && AllRepairs(v'.tables.replicas[|v.tables.replicas|..], v.tables, v.id, vid, heads)
                  && forall e | e in v'.tables.replicas[|v.tables.replicas|..] ::
                       e.key in v.tables.idxkeys && v.tables.idxkeys[e.key] == e.signature)
  {
    if vid in v.tables.idxvolumes {
      SyncLoopExactly(v.tables, v.id, vid, v.tables.idxvolumes[vid], QueueOf(v), uuids, ticks);
      var heads := Headed(v.tables, v.id, vid, v.tables.idxvolumes[vid]);
      HeadedOnce(v.tables, v.id, vid, v.tables.idxvolumes[vid]);
      var v' := SynchronizeReplicas(v, vid, uuids, ticks).0;
      if SynchronizeReplicas(v, vid, uuids, ticks).1.Ok? {
        RepairsBound(v'.tables.replicas[|v.tables.replicas|..], v.tables, v.id, vid, heads);
      }
    }
  }

  /** The key of a repair is bound to its content. */
  lemma RepairsBound(es: seq<Replica>, t: Tables, id: VolumeID, vid: VolumeID, sigs: seq<Signature>)
    requires TwoWay(t) && AllRepairs(es, t, id, vid, sigs)
    ensures forall e | e in es :: e.key in t.idxkeys && t.idxkeys[e.key] == e.signature
  {
    forall e | e in es
      ensures e.key in t.idxkeys && t.idxkeys[e.key] == e.signature
    {
      var i :| 0 <= i < |es| && es[i] == e;
      assert Repairs(es[i], t, id, vid, sigs[i]);
      assert e.key in t.files[sigs[i]].keys;
    }
  }

  // ---------------------------------------------------------------- The new entries

  /** Repairs of different signatures: the one for `s` is there once or not at all. */
  lemma {:induction false} CountRepairs(es: seq<Replica>, t: Tables, id: VolumeID, vid: VolumeID, sigs: seq<Signature>,
                                        s: Signature)
    requires AllRepairs(es, t, id, vid, sigs) && NoDup(sigs)
    ensures |EntriesFor(es, s)| == if s in sigs then 1 else 0
    ensures forall e | e in EntriesFor(es, s) :: Repairs(e, t, id, vid, s)
    decreases |es|
  {
    if es != [] {
      var n := |es| - 1;
      assert Repairs(es[n], t, id, vid, sigs[n]);
      hide Repairs;
      CountRepairs(es[..n], t, id, vid, sigs[..n], s);
      assert s in sigs <==> s in sigs[..n] || s == sigs[n];
    }
  }

  /** What a survivor newly queued when it was told that `d` is gone. */
  function NewEntries(v: Vol, d: VolumeID, uuids: seq<string>, ticks: seq<int>): seq<Replica> {
    var q, q' := v.tables.replicas, SynchronizeReplicas(v, d, uuids, ticks).0.tables.replicas;
    if |q| <= |q'| then q'[|q|..] else []
  }

  /** Every signature that the volume indexes for `d` has a record. */
  ghost predicate Indexes(v: Vol, d: VolumeID) {
    AllStored(v.tables, SignaturesFor(v.tables.idxvolumes, d))
  }

  /** The loss of `d` makes the volume queue a repair for `s`. */
  ghost predicate TurnedOn(v: Vol, s: Signature, d: VolumeID) {
    Indexes(v, d) && s in SignaturesFor(v.tables.idxvolumes, d) && Heads(v.tables.files[s], v.id, d)
  }

  /**
   * A volume newly queues exactly one repair for every file that lists the lost volume and that it now heads, unless its
   * index for the lost volume names a file that it no longer has: then it queues none at all.
   */
  lemma SurvivorQueues(v: Vol, d: VolumeID, uuids: seq<string>, ticks: seq<int>, s: Signature)
    requires Inv(v) && Ordered(v.tables.replicas, v.lastKey)
    ensures var q, q' := v.tables.replicas, SynchronizeReplicas(v, d, uuids, ticks).0.tables.replicas;
            q' == q + NewEntries(v, d, uuids, ticks)
    ensures |EntriesFor(NewEntries(v, d, uuids, ticks), s)| == if TurnedOn(v, s, d) then 1 else 0
    ensures forall e | e in EntriesFor(NewEntries(v, d, uuids, ticks), s) ::
              Repairs(e, v.tables, v.id, d, s) && e.key in v.tables.idxkeys && v.tables.idxkeys[e.key] == s
  {
    hide SynchronizeReplicas, Ordered, EntriesFor, Repairs, Heads, Inv;
    NewAreHeaded(v, d, uuids, ticks);
    if d in v.tables.idxvolumes && Indexes(v, d) {
      CountRepairs(NewEntries(v, d, uuids, ticks), v.tables, v.id, d,
                   Headed(v.tables, v.id, d, v.tables.idxvolumes[d]), s);
    } else {
      assert NewEntries(v, d, uuids, ticks) == [];
      NoEntries(s);
    }
  }

  /** The new entries are the repairs of the headed files, or there are none. */
  lemma NewAreHeaded(v: Vol, d: VolumeID, uuids: seq<string>, ticks: seq<int>)
    requires Inv(v) && Ordered(v.tables.replicas, v.lastKey)
    ensures var q, q' := v.tables.replicas, SynchronizeReplicas(v, d, uuids, ticks).0.tables.replicas;
            && q' == q + NewEntries(v, d, uuids, ticks)
            && if d in v.tables.idxvolumes && Indexes(v, d) then
                 var heads := Headed(v.tables, v.id, d, v.tables.idxvolumes[d]);
                 && NoDup(heads) && AllRepairs(NewEntries(v, d, uuids, ticks), v.tables, v.id, d, heads)
                 && forall e | e in NewEntries(v, d, uuids, ticks) ::
                      e.key in v.tables.idxkeys && v.tables.idxkeys[e.key] == e.signature
               else NewEntries(v, d, uuids, ticks) == []
  {
    hide SynchronizeReplicas, Ordered, Repairs, Heads, Headed, Inv, AllRepairs;
    SynchronizeExactly(v, d, uuids, ticks);
  }

  /** Nothing but the queue differs. */
  ghost predicate OnlyQueue(v: Vol, v': Vol) {
    && v'.id == v.id && v'.tables == v.tables.(replicas := v'.tables.replicas) && v'.blobs == v.blobs
    && v.tables.replicas <= v'.tables.replicas
  }

  lemma SyncFrame(v: Vol, d: VolumeID, uuids: seq<string>, ticks: seq<int>)
    ensures var v' := SynchronizeReplicas(v, d, uuids, ticks).0; v'.id == v.id && v'.blobs == v.blobs
  {
  }

  lemma SyncOrdered(v: Vol, d: VolumeID, uuids: seq<string>, ticks: seq<int>)
    requires Inv(v) && Ordered(v.tables.replicas, v.lastKey)
    ensures var v' := SynchronizeReplicas(v, d, uuids, ticks).0; Ordered(v'.tables.replicas, v'.lastKey)
  {
    hide Inv, SynchronizeReplicas, Ordered;
    StepOrdered(v, Synchronize(d, uuids, ticks));
  }

  lemma SyncTables(v: Vol, d: VolumeID, uuids: seq<string>, ticks: seq<int>)
    requires Inv(v) && Ordered(v.tables.replicas, v.lastKey)
    ensures var t' := SynchronizeReplicas(v, d, uuids, ticks).0.tables; t' == v.tables.(replicas := t'.replicas)
  {
    hide Inv, SynchronizeReplicas, Ordered, AllRepairs;
    SynchronizeExactly(v, d, uuids, ticks);
  }

  // ---------------------------------------------------------------- What the call leaves alone

  /** The new entries are for other records, each with the first key of its record. */
  lemma {:induction false} SyncLoopKeys(t: Tables, id: VolumeID, vid: VolumeID, sigs: seq<Signature>, q: Queue,
                                        uuids: seq<string>, ticks: seq<int>)
    requires GoodRecords(t)
    ensures forall e | e in SyncLoop(t, id, vid, sigs, q, uuids, ticks).0.entries ::
              e in q.entries || (e.signature in t.files && e.signature in sigs && e.key in t.files[e.signature].keys)
    decreases |sigs|
  {
    hide Enqueue, GoodRecord;
    if sigs != [] {
      var n := |sigs| - 1;
      SyncLoopKeys(t, id, vid, sigs[..n], q, uuids, ticks);
      if sigs[n] in t.files {
        RecordOf(t, sigs[n]);
      }
      assert sigs[n] in sigs && forall x | x in sigs[..n] :: x in sigs;
    }
  }

  /** Each new entry has the identifier that was drawn for its signature, and a key that is not below the clock reading. */
  lemma {:induction false} SyncLoopDraws(t: Tables, id: VolumeID, vid: VolumeID, sigs: seq<Signature>, q: Queue,
                                         uuids: seq<string>, ticks: seq<int>)
    requires GoodRecords(t)
    ensures forall e | e in SyncLoop(t, id, vid, sigs, q, uuids, ticks).0.entries && e !in q.entries ::
              exists k :: 0 <= k < |sigs| && DrawnFor(e, sigs[k], At(uuids, k, ""), At(ticks, k, 0))
    decreases |sigs|
  {
    hide Enqueue, GoodRecord, Without, DrawnFor;
    if sigs != [] {
      var n := |sigs| - 1;
      var q1 := SyncLoop(t, id, vid, sigs[..n], q, uuids, ticks).0;
      SyncLoopDraws(t, id, vid, sigs[..n], q, uuids, ticks);
      forall e | e in SyncLoop(t, id, vid, sigs, q, uuids, ticks).0.entries && e !in q.entries
        ensures exists k :: 0 <= k < |sigs| && DrawnFor(e, sigs[k], At(uuids, k, ""), At(ticks, k, 0))
      {
        if e in q1.entries {
          var k :| 0 <= k < n && DrawnFor(e, sigs[..n][k], At(uuids, k, ""), At(ticks, k, 0));
          assert DrawnFor(e, sigs[k], At(uuids, k, ""), At(ticks, k, 0));
        } else {
          EntryDrawn(t, id, vid, sigs[n], q1, At(uuids, n, ""), At(ticks, n, 0), e);
        }
      }
    }
  }

  ghost predicate DrawnFor(e: Replica, s: Signature, uuid: string, tick: int) {
    e.signature == s && e.id == uuid && e.volumeReplicaID >= tick
  }

  lemma EntryDrawn(t: Tables, id: VolumeID, vid: VolumeID, s: Signature, q: Queue, uuid: string, tick: int, e: Replica)
    requires GoodRecords(t) && s in t.files && t.files[s].keys != []
    requires e in Queued(q, RepairEntry(t.files[s], id, Without(t.files[s].volumeIDs, vid), uuid), tick).entries
    requires e !in q.entries
    ensures DrawnFor(e, s, uuid, tick)
  {
    RecordOf(t, s);
  }

  lemma SyncKeyAt(v: Vol, vid: VolumeID, uuids: seq<string>, ticks: seq<int>, k: Key, s: Signature)
    requires Inv(v) && KeyAt(v, k, s)
    ensures KeyAt(SynchronizeReplicas(v, vid, uuids, ticks).0, k, s)
  {
    hide EntriesFor, SyncLoop, GoodRecords, Blobs, ReverseIndexed, Quota;
    if vid in v.tables.idxvolumes {
      SyncLoopKeys(v.tables, v.id, vid, v.tables.idxvolumes[vid], QueueOf(v), uuids, ticks);
    }
  }

  /** A call that does not turn the volume to `s` leaves alone what the volume knows of it. */
  lemma SyncApart(v: Vol, vid: VolumeID, uuids: seq<string>, ticks: seq<int>, s: Signature)
    requires Inv(v) && Ordered(v.tables.replicas, v.lastKey) && !TurnedOn(v, s, vid)
    ensures SameNode(v, SynchronizeReplicas(v, vid, uuids, ticks).0, s)
  {
    hide SynchronizeReplicas, NewEntries, TurnedOn, Inv, Ordered, EntriesFor;
    SurvivorQueues(v, vid, uuids, ticks, s);
    SyncFrame(v, vid, uuids, ticks);
    SyncTables(v, vid, uuids, ticks);
    EntriesConcat(v.tables.replicas, NewEntries(v, vid, uuids, ticks), s);
  }

  // ---------------------------------------------------------------- Calls that answer with an error

  lemma {:induction false} SyncSucceedsExactly(t: Tables, id: VolumeID, vid: VolumeID, sigs: seq<Signature>, q: Queue,
                                               uuids: seq<string>, ticks: seq<int>)
    ensures SyncLoop(t, id, vid, sigs, q, uuids, ticks).1 <==> AllStored(t, sigs)
    decreases |sigs|
  {
    if sigs != [] {
      var n := |sigs| - 1;
      SyncSucceedsExactly(t, id, vid, sigs[..n], q, uuids, ticks);
      assert forall x :: x in sigs <==> x in sigs[..n] || x == sigs[n];
    }
  }
}
