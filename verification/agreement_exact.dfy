/** Exactly which creates, deletes and sweeps keep the agreement of a cluster. */
module AgreementExactly {
  import opened Types
  import opened ReplicaQueue
  import opened VolumeSpec
  import opened VolumeInvariant
  import opened VolumeRuns
  import opened Cluster
  import opened Agreement
  import opened Untouched
  import opened Synchronizing
  import opened Sparing
  import opened AgreementRuns
  import TtlSweep

  /** No other node is listed for the content, and no copy of it is still pending. */
  ghost predicate LocalOnly(c: Nodes, n: VolumeID, s: Signature)
    requires Holds(c, n, s)
  {
    c[n].tables.files[s].volumeIDs == [n] && EntriesFor(c[n].tables.replicas, s) == []
  }

  // ---------------------------------------------------------------- Dropping one record

  /** The node loses its record of `s`; the queue and the index keep what they have of it. */
  ghost predicate Dropped(v: Vol, v': Vol, s: Signature) {
    && v'.id == v.id && s in v.tables.files && s !in v'.tables.files
    && EntriesFor(v'.tables.replicas, s) == EntriesFor(v.tables.replicas, s)
    && (forall w :: s in SignaturesFor(v'.tables.idxvolumes, w) <==> s in SignaturesFor(v.tables.idxvolumes, w))
  }

  lemma OtherHolder(vids: seq<VolumeID>, n: VolumeID) returns (w: VolumeID)
    requires NoDup(vids) && n in vids && vids != [n]
    ensures w in vids && w != n
  {
    assert |vids| == 1 ==> vids == [n];
    w := if vids[0] == n then vids[1] else vids[0];
  }

  /** A node may drop its record of a content exactly when the content is local to it. */
  lemma DropExactly(c: Nodes, accepts: set<VolumeID>, n: VolumeID, v: Vol, s: Signature)
    requires AgreedOn(c, accepts, s) && Holds(c, n, s) && Dropped(c[n], v, s)
    ensures AgreedOn(c[n := v], accepts, s) <==> LocalOnly(c, n, s)
  {
    var c' := c[n := v];
    assert GoodList(c, accepts, n, s) && QueueOn(c, n, s) && IndexOn(c, n, s);
    if LocalOnly(c, n, s) {
      LocalDrop(c, accepts, n, v, s);
    } else if AgreedOn(c', accepts, s) {
      if c[n].tables.files[s].volumeIDs != [n] {
        var w := OtherHolder(c[n].tables.files[s].volumeIDs, n);
        OtherStillLists(c, c', accepts, n, w, s);
      } else {
        var es := EntriesFor(c[n].tables.replicas, s);
        EntryWithoutRecord(c', accepts, n, s, es[0]);
      }
      assert false;
    }
  }

  lemma LocalDrop(c: Nodes, accepts: set<VolumeID>, n: VolumeID, v: Vol, s: Signature)
    requires AgreedOn(c, accepts, s) && Holds(c, n, s) && Dropped(c[n], v, s) && LocalOnly(c, n, s)
    ensures AgreedOn(c[n := v], accepts, s)
  {
    hide EntriesFor, KeyMeans;
    assert GoodList(c, accepts, n, s) && IndexOn(c, n, s);
    var c' := c[n := v];
    assert forall w :: Holds(c, w, s) <==> w == n;
    assert forall w :: !Holds(c', w, s);
    forall w | w in c'
      ensures QueueOn(c', w, s) && IndexOn(c', w, s)
    {
      assert QueueOn(c, w, s) && IndexOn(c, w, s);
      if w != n {
        NothingQueued(c, w, s);
      }
    }
  }

  lemma NothingQueued(c: Nodes, w: VolumeID, s: Signature)
    requires w in c && QueueOn(c, w, s) && !Holds(c, w, s)
    ensures EntriesFor(c[w].tables.replicas, s) == []
  {
    var es := EntriesFor(c[w].tables.replicas, s);
    assert es != [] ==> es[0] in es && GoodEntry(c, w, es[0]);
  }

  /** A holder that still lists the node is not agreed with. */
  lemma OtherStillLists(c: Nodes, c': Nodes, accepts: set<VolumeID>, n: VolumeID, w: VolumeID, s: Signature)
    requires AgreedOn(c, accepts, s) && Holds(c, n, s) && w in c[n].tables.files[s].volumeIDs && w != n
    requires n in c' && c' == c[n := c'[n]] && s !in c'[n].tables.files
    ensures !AgreedOn(c', accepts, s)
  {
    hide QueueOn, IndexOn, KeyMeans;
    assert GoodList(c, accepts, n, s);
    assert Holds(c, w, s) && GoodList(c, accepts, w, s);
    assert n in c'[w].tables.files[s].volumeIDs && !Holds(c', n, s);
    assert Holds(c', w, s) && !GoodList(c', accepts, w, s);
  }

  lemma EntryWithoutRecord(c: Nodes, accepts: set<VolumeID>, n: VolumeID, s: Signature, e: Replica)
    requires n in c && s !in c[n].tables.files && e in EntriesFor(c[n].tables.replicas, s)
    ensures !AgreedOn(c, accepts, s)
  {
    assert !GoodEntry(c, n, e) && !QueueOn(c, n, s);
  }

  // ---------------------------------------------------------------- Deletes

  /** Under agreement a record has one key, so deleting a bound key drops the record. */
  lemma DeleteDrops(v: Vol, key: Key, s: Signature)
    requires Inv(v) && key in v.tables.idxkeys && v.tables.idxkeys[key] == s && |v.tables.files[s].keys| == 1
    ensures Dropped(v, DeleteFile(v, key).0, s)
  {
    SizesOfBlobs(v);
    DeleteQuota(v.tables, key);
    DeleteShape(v.tables, key);
    assert key in v.tables.files[s].keys && v.tables.files[s].keys == [key];
    FreedShape(v.tables, key);
    hide EntriesFor;
  }

  /** A delete keeps the agreement exactly when the key is not bound there, or its content is local to the node. */
  lemma DeleteAgreedExactly(sha: Bytes -> string, contents: set<Bytes>, c: Nodes, accepts: set<VolumeID>, n: VolumeID,
                            key: Key)
    requires Good(sha, contents, c) && Ahead(c) && Agreed(c, accepts) && n in c
    ensures Agreed(c[n := DeleteFile(c[n], key).0], accepts) <==>
            (key in c[n].tables.idxkeys ==> Holds(c, n, c[n].tables.idxkeys[key]) && LocalOnly(c, n, c[n].tables.idxkeys[key]))
  {
    hide DeleteFile, Honest, AgreedOn, LocalOnly, EntriesFor, Blobs, ReverseIndexed, Quota;
    var v, v' := c[n], DeleteFile(c[n], key).0;
    var c' := c[n := v'];
    forall s
      ensures (key in v.tables.idxkeys ==> v.tables.idxkeys[key] != s) ==> AgreedOn(c', accepts, s)
    {
      if key in v.tables.idxkeys ==> v.tables.idxkeys[key] != s {
        OnNodeSpared(sha, contents, c, accepts, n, Delete(key), s);
      }
    }
    if key in v.tables.idxkeys {
      var s := v.tables.idxkeys[key];
      OneKey(c, accepts, n, s);
      DeleteDrops(v, key, s);
      DropExactly(c, accepts, n, v', s);
    }
  }

  lemma OneKey(c: Nodes, accepts: set<VolumeID>, n: VolumeID, s: Signature)
    requires AgreedOn(c, accepts, s) && Holds(c, n, s)
    ensures |c[n].tables.files[s].keys| == 1
  {
    assert GoodList(c, accepts, n, s);
  }

  // ---------------------------------------------------------------- Sweeps

  lemma SweepDrops(v: Vol, rows: seq<seq<Signature>>, spare: bool, s: Signature)
    requires Inv(v) && s in v.tables.files && s in Flat(rows)
    ensures Dropped(v, Sweep(v, rows, spare), s)
  {
    SizesOfBlobs(v);
    TtlSweep.SweepTablesExactly(v.tables, Flat(rows));
    hide EntriesFor;
  }

  /** A sweep keeps the agreement exactly when every record that it drops is local to the node. */
  lemma SweepAgreedExactly(sha: Bytes -> string, contents: set<Bytes>, c: Nodes, accepts: set<VolumeID>, n: VolumeID,
                           rows: seq<seq<Signature>>, spare: bool)
    requires Good(sha, contents, c) && Ahead(c) && Agreed(c, accepts) && n in c
    ensures Agreed(c[n := Sweep(c[n], rows, spare)], accepts) <==>
            forall s | Holds(c, n, s) && s in Flat(rows) :: LocalOnly(c, n, s)
  {
    hide Sweep, Good, Ahead, AgreedOn, LocalOnly, EntriesFor, Flat, Dropped;
    var c' := c[n := Sweep(c[n], rows, spare)];
    assert Inv(c[n]) by { GoodNode(sha, contents, c, n); }
    forall s
      ensures AgreedOn(c', accepts, s) <==> (Holds(c, n, s) && s in Flat(rows) ==> LocalOnly(c, n, s))
    {
      if Holds(c, n, s) && s in Flat(rows) {
        SweepDrops(c[n], rows, spare, s);
        DropExactly(c, accepts, n, Sweep(c[n], rows, spare), s);
      } else {
        OnNodeSpared(sha, contents, c, accepts, n, Expire(rows, spare), s);
      }
    }
  }

  lemma GoodNode(sha: Bytes -> string, contents: set<Bytes>, c: Nodes, n: VolumeID)
    requires Good(sha, contents, c) && n in c
    ensures Inv(c[n]) && c[n].id == n
  {
  }

  // ---------------------------------------------------------------- Repairs

  /** A call for a lost volume keeps the agreement exactly when it makes the volume queue nothing. */
  lemma SyncAgreedExactly(sha: Bytes -> string, contents: set<Bytes>, c: Nodes, accepts: set<VolumeID>, n: VolumeID,
                          vid: VolumeID, uuids: seq<string>, ticks: seq<int>)
    requires Good(sha, contents, c) && Ahead(c) && Agreed(c, accepts) && n in c
    ensures Agreed(c[n := SynchronizeReplicas(c[n], vid, uuids, ticks).0], accepts) <==>
            forall s :: !TurnedOn(c[n], s, vid)
  {
    hide SynchronizeReplicas, Good, Ahead, AgreedOn, TurnedOn;
    var c' := c[n := SynchronizeReplicas(c[n], vid, uuids, ticks).0];
    forall s
      ensures AgreedOn(c', accepts, s) <==> !TurnedOn(c[n], s, vid)
    {
      if TurnedOn(c[n], s, vid) {
        RepairDisagrees(sha, contents, c, accepts, n, vid, uuids, ticks, s);
      } else {
        OnNodeSpared(sha, contents, c, accepts, n, Synchronize(vid, uuids, ticks), s);
      }
    }
  }

  /** A repair names fewer holders than the record of its content. */
  lemma RepairDisagrees(sha: Bytes -> string, contents: set<Bytes>, c: Nodes, accepts: set<VolumeID>, n: VolumeID,
                        vid: VolumeID, uuids: seq<string>, ticks: seq<int>, s: Signature)
    requires Good(sha, contents, c) && Ahead(c) && AgreedOn(c, accepts, s) && n in c && TurnedOn(c[n], s, vid)
    ensures !AgreedOn(c[n := SynchronizeReplicas(c[n], vid, uuids, ticks).0], accepts, s)
  {
    hide SynchronizeReplicas, NewEntries, Inv, Honest, Ordered, EntriesFor, RecordsOn;
    assert IndexOn(c, n, s);
    var v := c[n];
    SurvivorQueues(v, vid, uuids, ticks, s);
    SyncTables(v, vid, uuids, ticks);
    var more := NewEntries(v, vid, uuids, ticks);
    EntriesConcat(v.tables.replicas, more, s);
    var e := EntriesFor(more, s)[0];
    assert e in EntriesFor(more, s) && Repairs(e, v.tables, v.id, vid, s);
    var c' := c[n := SynchronizeReplicas(v, vid, uuids, ticks).0];
    assert e in EntriesFor(c'[n].tables.replicas, s) && vid in v.tables.files[s].volumeIDs;
    assert !GoodEntry(c', n, e) && !QueueOn(c', n, s);
  }

  // ---------------------------------------------------------------- Creates

  /** The request changes no table, or its content and key are new to the cluster but for a local content it overwrites. */
  ghost predicate Harmless(c: Nodes, n: VolumeID, a: Request)
    requires n in c
  {
    !Stores(c[n], a) ||
    (&& (forall w | w in c :: a.sig !in c[w].tables.files)
     && (forall w | w in c && w != n :: a.key !in c[w].tables.idxkeys)
     && (a.key in c[n].tables.idxkeys ==>
           Holds(c, n, c[n].tables.idxkeys[a.key]) && LocalOnly(c, n, c[n].tables.idxkeys[a.key])))
  }

  lemma CreateDrops(v: Vol, a: Request, s: Signature)
    requires Inv(v) && Ordered(v.tables.replicas, v.lastKey) && Stores(v, a)
    requires a.key in v.tables.idxkeys && v.tables.idxkeys[a.key] == s && |v.tables.files[s].keys| == 1
    ensures s != a.sig && Dropped(v, CreateFile(v, a).0, s)
  {
    hide EntriesFor, CreateFile, CreateTables, Freed, Ordered, Stores, Blobs, ReverseIndexed, Quota, LastKeyOf, WithRecord;
    assert !Known(v.tables, a) by { StoresNew(v, a); }
    CreateShape(v.tables, v.id, v.lastKey, a);
    StoredOutcome(v, a);
    CreateQueueFor(v, a, s);
    assert a.key in v.tables.files[s].keys && v.tables.files[s].keys == [a.key];
    FreedShape(v.tables, a.key);
  }

  lemma StoresNew(v: Vol, a: Request)
    requires Stores(v, a)
    ensures !Known(v.tables, a)
  {
  }

  /** What every content but the one that is created sees of a request that changes the tables. */
  lemma OthersAfterCreate(sha: Bytes -> string, contents: set<Bytes>, c: Nodes, accepts: set<VolumeID>, n: VolumeID,
                          a: Request, s: Signature)
    requires Good(sha, contents, c) && Ahead(c) && Agreed(c, accepts) && n in c && Stores(c[n], a) && s != a.sig
    requires forall w | w in c && w != n :: a.key !in c[w].tables.idxkeys
    ensures AgreedOn(c[n := CreateFile(c[n], a).0], accepts, s) <==>
            (a.key in c[n].tables.idxkeys && c[n].tables.idxkeys[a.key] == s ==> Holds(c, n, s) && LocalOnly(c, n, s))
  {
    hide CreateFile, Honest, AgreedOn, LocalOnly, EntriesFor, Blobs, ReverseIndexed, Quota, Stores, Ordered;
    var v := c[n];
    if a.key in v.tables.idxkeys && v.tables.idxkeys[a.key] == s {
      OneKey(c, accepts, n, s);
      CreateDrops(v, a, s);
      DropExactly(c, accepts, n, CreateFile(v, a).0, s);
    } else {
      forall w | w in c
        ensures KeyClear(c[w], a.key, s)
      {
        assert Inv(c[w]);
      }
      OnNodeSpared(sha, contents, c, accepts, n, Create(a), s);
    }
  }

  /** A harmless create makes its own content agreed on. */
  lemma HarmlessServed(sha: Bytes -> string, contents: set<Bytes>, c: Nodes, accepts: set<VolumeID>, n: VolumeID, a: Request)
    requires Good(sha, contents, c) && Ahead(c) && Agreed(c, accepts) && n in c && Stores(c[n], a) && Harmless(c, n, a)
    ensures AgreedOn(c[n := CreateFile(c[n], a).0], accepts, a.sig)
  {
    hide CreateFile, Honest, AgreedOn, EntriesFor, Inv, Ordered, FreshNode, LocalOnly, Nobody;
    NobodyHolds(c, accepts, a.sig);
    HarmlessKey(sha, contents, c, accepts, n, a);
    StoresSucceeds(c[n], a);
    FreshShape(c[n], a);
    FreshOn(c, accepts, n, CreateFile(c[n], a).0, a);
  }

  lemma StoresSucceeds(v: Vol, a: Request)
    requires Stores(v, a)
    ensures CreateFile(v, a).1.Ok?
  {
  }

  /** No entry of an agreed cluster has a key that a harmless create binds anew. */
  lemma HarmlessKey(sha: Bytes -> string, contents: set<Bytes>, c: Nodes, accepts: set<VolumeID>, n: VolumeID, a: Request)
    requires Good(sha, contents, c) && Agreed(c, accepts) && n in c && Stores(c[n], a) && Harmless(c, n, a)
    ensures forall w, e | w in c && e in c[w].tables.replicas :: e.key != a.key
  {
    hide Honest, EntriesFor, Stores, Blobs, ReverseIndexed, Quota, GoodRecords, AgreedOn;
    forall w, e | w in c && e in c[w].tables.replicas
      ensures e.key != a.key
    {
      EntryBound(c, accepts, w, e);
      assert e.key in c[w].tables.files[e.signature].keys;
      assert e in EntriesFor(c[w].tables.replicas, e.signature);
    }
  }

  lemma EntryBound(c: Nodes, accepts: set<VolumeID>, w: VolumeID, e: Replica)
    requires AgreedOn(c, accepts, e.signature) && w in c && e in c[w].tables.replicas
    ensures Holds(c, w, e.signature) && c[w].tables.files[e.signature].keys == [e.key]
  {
    assert e in EntriesFor(c[w].tables.replicas, e.signature) && QueueOn(c, w, e.signature);
  }

  /** What a create does to the record of its own content. */
  lemma OwnRow(v: Vol, a: Request)
    requires Inv(v) && Stores(v, a)
    ensures var v' := CreateFile(v, a).0;
            && v'.id == v.id && a.sig in v'.tables.files
            && v'.tables.files[a.sig].keys == KeysOf(v.tables, a.sig) + [a.key]
            && (a.sig !in v.tables.files ==> v'.tables.files[a.sig].volumeIDs == [v.id])
  {
    CreateShape(v.tables, v.id, v.lastKey, a);
    StoredOutcome(v, a);
  }

  /** A content that some node holds already is not agreed on after another create of it. */
  lemma KnownContentHarms(sha: Bytes -> string, contents: set<Bytes>, c: Nodes, accepts: set<VolumeID>, n: VolumeID,
                          a: Request, w: VolumeID)
    requires Good(sha, contents, c) && AgreedOn(c, accepts, a.sig) && n in c && Stores(c[n], a) && Holds(c, w, a.sig)
    ensures !AgreedOn(c[n := CreateFile(c[n], a).0], accepts, a.sig)
  {
    hide Good, QueueOn, IndexOn, KeyMeans, CreateFile, Stores;
    var c' := c[n := CreateFile(c[n], a).0];
    assert GoodList(c, accepts, w, a.sig);
    GoodNode(sha, contents, c, n);
    OwnRow(c[n], a);
    if Holds(c, n, a.sig) {
      OneKey(c, accepts, n, a.sig);
      assert Holds(c', n, a.sig) && !GoodList(c', accepts, n, a.sig);
    } else {
      assert Holds(c', w, a.sig) && Holds(c', n, a.sig) && n !in c'[w].tables.files[a.sig].volumeIDs;
      assert !GoodList(c', accepts, w, a.sig);
    }
  }

  /** A key that another node binds otherwise cannot be the key of a content that is agreed on. */
  lemma KnownKeyHarms(sha: Bytes -> string, contents: set<Bytes>, c: Nodes, accepts: set<VolumeID>, n: VolumeID,
                      a: Request, w: VolumeID)
    requires Good(sha, contents, c) && n in c && Stores(c[n], a) && forall u | u in c :: a.sig !in c[u].tables.files
    requires w in c && w != n && a.key in c[w].tables.idxkeys
    ensures !AgreedOn(c[n := CreateFile(c[n], a).0], accepts, a.sig)
  {
    hide QueueOn, IndexOn, GoodList, CreateFile, Stores, Honest, GoodRecords, Blobs, ReverseIndexed, Quota;
    var c' := c[n := CreateFile(c[n], a).0];
    OwnRow(c[n], a);
    assert c[w].tables.idxkeys[a.key] != a.sig;
    assert !KeyAt(c'[w], a.key, a.sig) && !KeyMeans(c', a.key, a.sig);
    assert Holds(c', n, a.sig) && c'[n].tables.files[a.sig].keys[0] == a.key;
  }

  /**
   * A create keeps the agreement exactly when it changes no table, or content and key are new to the cluster; the key may
   * be bound on the node itself, to a content that is local to it.
   */
  lemma CreateAgreedExactly(sha: Bytes -> string, contents: set<Bytes>, c: Nodes, accepts: set<VolumeID>, n: VolumeID,
                            a: Request)
    requires Good(sha, contents, c) && Ahead(c) && Agreed(c, accepts) && n in c
    ensures Agreed(c[n := CreateFile(c[n], a).0], accepts) <==> Harmless(c, n, a)
  {
    hide CreateFile, Good, Ahead, AgreedOn, LocalOnly, Stores;
    var c' := c[n := CreateFile(c[n], a).0];
    if !Stores(c[n], a) {
      NotStored(c[n], a);
      OneNodeSame(c, n, CreateFile(c[n], a).0);
      SameTablesAgree(c, c', accepts);
    } else if w :| w in c && a.sig in c[w].tables.files {
      KnownContentHarms(sha, contents, c, accepts, n, a, w);
    } else if w :| w in c && w != n && a.key in c[w].tables.idxkeys {
      KnownKeyHarms(sha, contents, c, accepts, n, a, w);
    } else {
      forall s | s != a.sig
        ensures AgreedOn(c', accepts, s) <==>
                (a.key in c[n].tables.idxkeys && c[n].tables.idxkeys[a.key] == s ==> Holds(c, n, s) && LocalOnly(c, n, s))
      {
        OthersAfterCreate(sha, contents, c, accepts, n, a, s);
      }
      if Harmless(c, n, a) {
        HarmlessServed(sha, contents, c, accepts, n, a);
      } else {
        KeyNotOwn(sha, contents, c, n, a);
        assert !AgreedOn(c', accepts, c[n].tables.idxkeys[a.key]);
      }
    }
  }

  lemma KeyNotOwn(sha: Bytes -> string, contents: set<Bytes>, c: Nodes, n: VolumeID, a: Request)
    requires Good(sha, contents, c) && n in c && a.sig !in c[n].tables.files
    ensures a.key in c[n].tables.idxkeys ==> c[n].tables.idxkeys[a.key] != a.sig
  {
    assert Inv(c[n]);
  }
}
