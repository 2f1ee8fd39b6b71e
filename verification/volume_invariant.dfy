/** What holds between the tables and the contents of a volume, and how each call keeps it. */
module VolumeInvariant {
  import opened Types
  import opened Paths
  import opened Records
  import opened ReplicaQueue
  import opened VolumeSpec

  // ---------------------------------------------------------------- Sizes of the stored records

  ghost function Sizes(m: map<Signature, FileRow>): int
    decreases |m|
  {
    if m == map[] then 0
    else
      var s :| s in m;
      m[s].size + Sizes(m - {s})
  }

  lemma {:induction false} SizesTake(m: map<Signature, FileRow>, s: Signature)
    requires s in m
    ensures Sizes(m) == m[s].size + Sizes(m - {s})
    decreases |m|
  {
    var p :| p in m && Sizes(m) == m[p].size + Sizes(m - {p});
    if p != s {
      SizesTake(m - {p}, s);
      SizesTake(m - {s}, p);
      assert m - {p} - {s} == m - {s} - {p};
    }
  }

  lemma SizesPut(m: map<Signature, FileRow>, s: Signature, f: FileRow)
    ensures Sizes(m[s := f]) == Sizes(m) + f.size - (if s in m then m[s].size else 0)
  {
    SizesTake(m[s := f], s);
    assert m[s := f] - {s} == m - {s};
    if s in m {
      SizesTake(m, s);
    } else {
      assert m - {s} == m;
    }
  }

  lemma {:induction false} SizesNonNegative(m: map<Signature, FileRow>)
    requires forall s | s in m :: m[s].size >= 0
    ensures Sizes(m) >= 0
    ensures forall s | s in m :: m[s].size <= Sizes(m)
    decreases |m|
  {
    if m != map[] {
      var p :| p in m && Sizes(m) == m[p].size + Sizes(m - {p});
      SizesNonNegative(m - {p});
      forall s | s in m
        ensures m[s].size <= Sizes(m)
      {
        if s != p {
          assert s in m - {p} && (m - {p})[s] == m[s];
        }
      }
    }
  }

  // ---------------------------------------------------------------- The invariant

  /** A key is bound to a signature exactly when the record of that signature lists the key. */
  ghost predicate TwoWay(t: Tables) {
    && (forall k | k in t.idxkeys :: t.idxkeys[k] in t.files && k in t.files[t.idxkeys[k]].keys)
    && (forall s, k | s in t.files && k in t.files[s].keys :: k in t.idxkeys && t.idxkeys[k] == s)
  }

  ghost predicate GoodRecord(s: Signature, f: FileRow) {
    IsSignature(s) && f.signature == s && f.keys != [] && NoDup(f.keys)
  }

  ghost predicate GoodRecords(t: Tables) {
    forall s | s in t.files :: GoodRecord(s, t.files[s])
  }

  /** Every record has its content on disk. */
  ghost predicate Blobs(v: Vol) {
    forall s | s in v.tables.files :: s in v.blobs && v.tables.files[s].size >= 0
  }

  /** Every record lists the own volume, and every other volume that it lists has the signature in its index. */
  ghost predicate ReverseIndexed(v: Vol) {
    && (forall s | s in v.tables.files :: v.id in v.tables.files[s].volumeIDs)
    && (forall s, w | s in v.tables.files && w in v.tables.files[s].volumeIDs && w != v.id ::
          s in SignaturesFor(v.tables.idxvolumes, w))
    && (forall w | w in v.tables.idxvolumes :: NoDup(v.tables.idxvolumes[w]))
  }

  ghost predicate Quota(t: Tables) {
    0 <= Sizes(t.files) <= t.state.volumeUsed && UsedSize(t.state) <= TotalSize(t.state)
  }

  ghost predicate Inv(v: Vol) {
    && TwoWay(v.tables) && GoodRecords(v.tables) && Blobs(v)
    && ReverseIndexed(v) && Quota(v.tables) && Sorted(v.tables.replicas)
  }

  /** What the used size counts beyond the records: the sizes of records that were dropped without being returned. */
  ghost function Slack(t: Tables): int {
    t.state.volumeUsed - Sizes(t.files)
  }

  /** The contents that clients see. */
  function Abs(v: Vol): map<Key, Bytes> {
    map k | k in v.tables.idxkeys && v.tables.idxkeys[k] in v.blobs :: v.blobs[v.tables.idxkeys[k]]
  }

  lemma AbsIsGet(v: Vol)
    requires Inv(v)
    ensures Abs(v).Keys == v.tables.idxkeys.Keys
    ensures forall k :: GetFile(v, k) == if k in Abs(v) then Some(Abs(v)[k]) else None
    ensures forall k :: HasFile(v, k).1 <==> k in Abs(v)
  {
  }

  /** The content under a known signature is the content that is written again: the digest did not collide. */
  predicate NoClash(v: Vol, a: Request) {
    a.sig in v.tables.files && a.sig in v.blobs ==> v.blobs[a.sig] == a.content
  }

  predicate GoodRequest(v: Vol, a: Request) {
    IsSignature(a.sig) && NoClash(v, a)
  }

  // ---------------------------------------------------------------- Taking a key away, and giving one

  /** Taking a listed key away empties a duplicate-free list exactly when it was alone. */
  lemma OnlyKey(keys: seq<Key>, k: Key)
    requires NoDup(keys) && k in keys
    ensures Without(keys, k) == [] <==> keys == [k]
    ensures NoDup(Without(keys, k))
  {
    WithoutNoDup(keys, k);
    if keys == [k] {
      assert |Without(keys, k)| == 0;
    }
  }

  /** The tables without the binding of `key`. */
  function Freed(t: Tables, key: Key): Tables {
    Unlisted(t, key).(idxkeys := t.idxkeys - {key})
  }

  lemma FreedShape(t: Tables, key: Key)
    requires TwoWay(t) && GoodRecords(t)
    ensures key !in t.idxkeys ==> Freed(t, key).files == t.files && Freed(t, key).idxkeys == t.idxkeys
    ensures key in t.idxkeys ==>
              var s := t.idxkeys[key];
              && (LastKeyOf(t, key) <==> t.files[s].keys == [key])
              && (LastKeyOf(t, key) ==> Freed(t, key).files == t.files - {s})
              && (!LastKeyOf(t, key) ==>
                    Freed(t, key).files == t.files[s := t.files[s].(keys := Without(t.files[s].keys, key))])
  {
    if key in t.idxkeys {
      OnlyKey(t.files[t.idxkeys[key]].keys, key);
    }
  }

  lemma FreedBindings(t: Tables, key: Key)
    ensures Freed(t, key).idxkeys == t.idxkeys - {key}
  {
  }

  lemma FreedRecord(t: Tables, key: Key, s: Signature)
    requires TwoWay(t) && GoodRecords(t)
    ensures s in Freed(t, key).files <==> s in t.files && !(key in t.idxkeys && t.idxkeys[key] == s && LastKeyOf(t, key))
    ensures s in Freed(t, key).files ==>
              && GoodRecord(s, Freed(t, key).files[s])
              && forall k :: k in Freed(t, key).files[s].keys <==> k in t.files[s].keys && k != key
  {
    hide IsSignature, LastKeyOf, Freed;
    FreedShape(t, key);
    if s in t.files {
      assert GoodRecord(s, t.files[s]);
      if key in t.files[s].keys {
        OnlyKey(t.files[s].keys, key);
      }
    }
  }

  lemma FreedKeepsIndex(t: Tables, key: Key)
    requires TwoWay(t) && GoodRecords(t)
    ensures TwoWay(Freed(t, key)) && GoodRecords(Freed(t, key))
  {
    hide Freed, LastKeyOf, GoodRecord;
    FreedBindings(t, key);
    FreedShape(t, key);
    forall s
      ensures s in Freed(t, key).files <==> s in t.files && !(key in t.idxkeys && t.idxkeys[key] == s && LastKeyOf(t, key))
      ensures s in Freed(t, key).files ==>
                && GoodRecord(s, Freed(t, key).files[s])
                && forall k :: k in Freed(t, key).files[s].keys <==> k in t.files[s].keys && k != key
    {
      FreedRecord(t, key, s);
    }
  }

  /** Binding a free key to a record that gets it as a new last key. */
  lemma BoundKeepsIndex(t: Tables, t': Tables, key: Key, f: FileRow)
    requires TwoWay(t) && GoodRecords(t) && key !in t.idxkeys
    requires IsSignature(f.signature) && f.keys == KeysOf(t, f.signature) + [key]
    requires t'.files == t.files[f.signature := f] && t'.idxkeys == t.idxkeys[key := f.signature]
    ensures TwoWay(t') && GoodRecords(t')
  {
    var sig := f.signature;
    assert NoDup(f.keys) by {
      if sig in t.files {
        assert GoodRecord(sig, t.files[sig]);
        NoDupSnoc(t.files[sig].keys, key);
      }
    }
    assert forall k :: k in f.keys <==> k in KeysOf(t, sig) || k == key;
    forall s | s in t'.files
      ensures GoodRecord(s, t'.files[s])
    {
      assert s != sig ==> GoodRecord(s, t.files[s]);
    }
  }

  /** Freeing a key touches no other record's list of volumes. */
  lemma FreedRows(t: Tables, key: Key, s: Signature)
    requires TwoWay(t) && GoodRecords(t) && s in Freed(t, key).files
    ensures s in t.files && Freed(t, key).files[s].(keys := t.files[s].keys) == t.files[s]
    ensures !(key in t.idxkeys && t.idxkeys[key] == s) ==> Freed(t, key).files[s] == t.files[s]
  {
    FreedShape(t, key);
  }

  // ---------------------------------------------------------------- CreateFile

  /** The request changes the tables. */
  predicate Stores(v: Vol, a: Request) {
    !Known(v.tables, a) && Fits(v.tables, a)
  }

  /** A storing request frees its key and then binds it; the record that loses the key is never the one that gets it. */
  lemma CreateShape(t: Tables, id: VolumeID, lastKey: nat, a: Request)
    requires TwoWay(t) && GoodRecords(t) && !Known(t, a)
    ensures var t' := CreateTables(t, id, lastKey, a).0;
            && t'.files == Freed(t, a.key).files[a.sig := StoredFile(t, id, a)]
            && t'.idxkeys == Freed(t, a.key).idxkeys[a.key := a.sig]
            && t'.idxvolumes == t.idxvolumes
            && t'.state == if a.sig in t.files then t.state else Used(t.state, |a.content|)
    ensures a.key in t.idxkeys ==> t.idxkeys[a.key] != a.sig
    ensures LastKeyOf(WithRecord(t, id, a), a.key) <==> LastKeyOf(t, a.key)
    ensures KeysOf(Freed(t, a.key), a.sig) == KeysOf(t, a.sig)
    ensures StoredFile(t, id, a).signature == a.sig && StoredFile(t, id, a).keys == KeysOf(t, a.sig) + [a.key]
  {
    var t1 := WithRecord(t, id, a);
    assert a.sig in t.files ==> GoodRecord(a.sig, t.files[a.sig]);
    if a.key in t.idxkeys {
      var prior := t.idxkeys[a.key];
      assert prior != a.sig && KeysOf(t1, prior) == KeysOf(t, prior);
    }
    UnlistedShape(t, id, a);
    CreateFields(t, id, lastKey, a);
  }

  lemma UnlistedShape(t: Tables, id: VolumeID, a: Request)
    requires a.key in t.idxkeys ==> t.idxkeys[a.key] != a.sig && t.idxkeys[a.key] in t.files
    ensures Unlisted(WithRecord(t, id, a), a.key).files == Freed(t, a.key).files[a.sig := StoredFile(t, id, a)]
    ensures Unlisted(WithRecord(t, id, a), a.key).idxkeys[a.key := a.sig] == Freed(t, a.key).idxkeys[a.key := a.sig]
    ensures KeysOf(Freed(t, a.key), a.sig) == KeysOf(t, a.sig)
  {
    if LastKeyOf(t, a.key) {
      var s := t.idxkeys[a.key];
      assert (t.files - {s})[a.sig := StoredFile(t, id, a)] == t.files[a.sig := StoredFile(t, id, a)] - {s};
    }
  }

  lemma CreateFields(t: Tables, id: VolumeID, lastKey: nat, a: Request)
    requires StoredFile(t, id, a).signature == a.sig
    ensures var t', t2 := CreateTables(t, id, lastKey, a).0, Unlisted(WithRecord(t, id, a), a.key);
            && t'.files == t2.files && t'.idxkeys == t2.idxkeys[a.key := a.sig] && t'.idxvolumes == t.idxvolumes
            && t'.state == if a.sig in t.files then t.state else Used(t.state, |a.content|)
  {
  }

  lemma CreateKeepsIndex(t: Tables, id: VolumeID, lastKey: nat, a: Request)
    requires TwoWay(t) && GoodRecords(t) && !Known(t, a) && IsSignature(a.sig)
    ensures TwoWay(CreateTables(t, id, lastKey, a).0) && GoodRecords(CreateTables(t, id, lastKey, a).0)
  {
    CreateShape(t, id, lastKey, a);
    FreedKeepsIndex(t, a.key);
    BoundKeepsIndex(Freed(t, a.key), CreateTables(t, id, lastKey, a).0, a.key, StoredFile(t, id, a));
  }

  /** The size of the record that a request drops because it takes its last key. */
  function DroppedSize(t: Tables, key: Key): int {
    if key in t.idxkeys && KeysOf(t, t.idxkeys[key]) == [key] then SizeOf(t, t.idxkeys[key]) else 0
  }

  lemma FreedSizes(t: Tables, key: Key)
    requires TwoWay(t) && GoodRecords(t)
    ensures Sizes(Freed(t, key).files) == Sizes(t.files) - DroppedSize(t, key)
  {
    FreedShape(t, key);
    if key in t.idxkeys {
      var s := t.idxkeys[key];
      if LastKeyOf(t, key) {
        SizesTake(t.files, s);
      } else {
        SizesPut(t.files, s, t.files[s].(keys := Without(t.files[s].keys, key)));
      }
    }
  }

  /** A stored request never returns the size of the record it drops: exactly that much is lost from the quota. */
  lemma CreateSlack(v: Vol, a: Request)
    requires TwoWay(v.tables) && GoodRecords(v.tables) && Stores(v, a)
    ensures Slack(CreateFile(v, a).0.tables) == Slack(v.tables) + DroppedSize(v.tables, a.key)
  {
    var t := v.tables;
    CreateShape(t, v.id, v.lastKey, a);
    FreedSizes(t, a.key);
    SizesPut(Freed(t, a.key).files, a.sig, StoredFile(t, v.id, a));
    if a.sig in t.files {
      UnlistedShape(t, v.id, a);
      FreedShape(t, a.key);
    } else {
      assert a.sig !in Freed(t, a.key).files by {
        FreedShape(t, a.key);
      }
    }
  }

  lemma SizesOfBlobs(v: Vol)
    requires Blobs(v)
    ensures forall s | s in v.tables.files :: v.tables.files[s].size >= 0
    ensures Sizes(v.tables.files) >= 0
  {
    forall s | s in v.tables.files
      ensures v.tables.files[s].size >= 0
    {
      assert s in v.blobs;
    }
    SizesNonNegative(v.tables.files);
  }

  lemma CreateKeepsQuota(v: Vol, a: Request)
    requires Inv(v) && Stores(v, a) && Blobs(CreateFile(v, a).0)
    ensures Quota(CreateFile(v, a).0.tables)
  {
    CreateSlack(v, a);
    CreateShape(v.tables, v.id, v.lastKey, a);
    SizesOfBlobs(v);
    SizesOfBlobs(CreateFile(v, a).0);
    assert DroppedSize(v.tables, a.key) >= 0;
  }

  lemma CreateKeepsBlobs(v: Vol, a: Request)
    requires Inv(v)
    ensures Blobs(CreateFile(v, a).0)
  {
    var v' := CreateFile(v, a).0;
    if Stores(v, a) {
      CreateShape(v.tables, v.id, v.lastKey, a);
      FreedShape(v.tables, a.key);
      forall s | s in v'.tables.files
        ensures s in v'.blobs && v'.tables.files[s].size >= 0
      {
        if s != a.sig {
          FreedRows(v.tables, a.key, s);
        }
      }
    }
  }

  lemma CreateKeepsReverse(v: Vol, a: Request)
    requires Inv(v)
    ensures ReverseIndexed(CreateFile(v, a).0)
  {
    var v' := CreateFile(v, a).0;
    if Stores(v, a) {
      CreateShape(v.tables, v.id, v.lastKey, a);
      forall s | s in v'.tables.files
        ensures v.id in v'.tables.files[s].volumeIDs
        ensures forall w | w in v'.tables.files[s].volumeIDs :: w == v.id || (s in v.tables.files && w in v.tables.files[s].volumeIDs)
      {
        if s != a.sig {
          FreedRows(v.tables, a.key, s);
        }
      }
    }
  }

  lemma CreateKeepsInv(v: Vol, a: Request)
    requires Inv(v) && IsSignature(a.sig)
    ensures Inv(CreateFile(v, a).0)
  {
    CreateKeepsBlobs(v, a);
    CreateKeepsReverse(v, a);
    if Stores(v, a) {
      CreateKeepsIndex(v.tables, v.id, v.lastKey, a);
      CreateKeepsQuota(v, a);
    } else {
      assert CreateFile(v, a).0.tables == v.tables;
    }
    CreateKeepsOrder(v, a);
  }

  /** The queue after a request: one more entry when it changed the tables and copies are missing. */
  lemma CreateQueue(v: Vol, a: Request)
    ensures var k, rp := NextKey(v.lastKey, a.tick), PendingReplica(v.id, a, StoredFile(v.tables, v.id, a).signature);
            QueueOf(CreateFile(v, a).0) ==
            if Stores(v, a) && a.replica >= 2 then Queue(Enqueue(v.tables.replicas, k, rp), k) else QueueOf(v)
  {
    hide Enqueue, Without, KeysOf;
  }

  lemma CreateKeepsOrder(v: Vol, a: Request)
    requires Sorted(v.tables.replicas)
    ensures Sorted(CreateFile(v, a).0.tables.replicas)
    ensures Ordered(v.tables.replicas, v.lastKey) ==>
              Ordered(CreateFile(v, a).0.tables.replicas, CreateFile(v, a).0.lastKey)
  {
    var k, rp := NextKey(v.lastKey, a.tick), PendingReplica(v.id, a, StoredFile(v.tables, v.id, a).signature);
    hide CreateFile, Enqueue;
    CreateQueue(v, a);
    EnqueueSorted(v.tables.replicas, k, rp);
    if Ordered(v.tables.replicas, v.lastKey) {
      EnqueueOrdered(v.tables.replicas, v.lastKey, k, rp);
    }
  }

  /** Another key under the same signature has other bytes than the ones that are written now. */
  predicate OverwritesOther(v: Vol, a: Request) {
    exists k :: k in Abs(v) && k != a.key && v.tables.idxkeys[k] == a.sig && Abs(v)[k] != a.content
  }

  lemma StoredOutcome(v: Vol, a: Request)
    requires Stores(v, a)
    ensures CreateFile(v, a).0.id == v.id && CreateFile(v, a).0.tables == CreateTables(v.tables, v.id, v.lastKey, a).0
    ensures CreateFile(v, a).0.blobs ==
            if LastKeyOf(WithRecord(v.tables, v.id, a), a.key) then v.blobs[a.sig := a.content] - {v.tables.idxkeys[a.key]}
            else v.blobs[a.sig := a.content]
  {
  }

  /** The key index and the contents after an accepted request. */
  lemma CreateView(v: Vol, a: Request)
    requires Inv(v) && CreateFile(v, a).1.Ok?
    ensures CreateFile(v, a).0.tables.idxkeys == v.tables.idxkeys[a.key := a.sig]
    ensures CreateFile(v, a).0.blobs ==
            if Stores(v, a) && LastKeyOf(v.tables, a.key) then v.blobs[a.sig := a.content] - {v.tables.idxkeys[a.key]}
            else v.blobs[a.sig := a.content]
    ensures Stores(v, a) && LastKeyOf(v.tables, a.key) ==> v.tables.idxkeys[a.key] != a.sig
  {
    hide GoodRecords, Blobs, ReverseIndexed, Quota, Sorted, CreateTables, Freed, WithRecord;
    if Stores(v, a) {
      hide CreateFile;
      StoredOutcome(v, a);
      CreateShape(v.tables, v.id, v.lastKey, a);
      FreedBindings(v.tables, a.key);
    } else {
      assert v.tables.idxkeys[a.key] == a.sig;
      assert v.tables.idxkeys[a.key := a.sig] == v.tables.idxkeys;
    }
  }

  /** A key bound to a record is not the only key of another one. */
  lemma OtherKeyStays(v: Vol, key: Key, k: Key)
    requires Inv(v) && k in v.tables.idxkeys && k != key && LastKeyOf(v.tables, key)
    ensures v.tables.idxkeys[k] != v.tables.idxkeys[key]
  {
    FreedShape(v.tables, key);
    assert k in v.tables.files[v.tables.idxkeys[k]].keys;
  }

  lemma ReadsAfter(v: Vol, v': Vol, key: Key, sig: Signature, content: Bytes, gone: set<Signature>, k: Key)
    requires v'.tables.idxkeys == v.tables.idxkeys[key := sig] && v'.blobs == v.blobs[sig := content] - gone
    requires sig !in gone && (k in v.tables.idxkeys && k != key ==> v.tables.idxkeys[k] !in gone)
    ensures GetFile(v', k) ==
            if k == key || (k in v.tables.idxkeys && v.tables.idxkeys[k] == sig) then Some(content) else GetFile(v, k)
  {
  }

  /** What every key reads after an accepted request. */
  lemma CreateReads(v: Vol, a: Request, k: Key)
    requires Inv(v) && CreateFile(v, a).1.Ok?
    ensures GetFile(CreateFile(v, a).0, k) ==
            if k == a.key || (k in v.tables.idxkeys && v.tables.idxkeys[k] == a.sig) then Some(a.content)
            else GetFile(v, k)
  {
    CreateView(v, a);
    hide CreateFile, Inv, Known, Fits, GetFile, LastKeyOf;
    var drops := Stores(v, a) && LastKeyOf(v.tables, a.key);
    var gone := if drops then {v.tables.idxkeys[a.key]} else {};
    if k in v.tables.idxkeys && k != a.key && drops {
      OtherKeyStays(v, a.key, k);
    }
    assert v.blobs[a.sig := a.content] - {} == v.blobs[a.sig := a.content];
    ReadsAfter(v, CreateFile(v, a).0, a.key, a.sig, a.content, gone, k);
  }

  lemma AbsByReads(v: Vol, m: map<Key, Bytes>)
    requires forall k :: GetFile(v, k) == if k in m then Some(m[k]) else None
    ensures Abs(v) == m
  {
    forall k
      ensures k in Abs(v) <==> k in m
      ensures k in m ==> Abs(v)[k] == m[k]
    {
      assert GetFile(v, k) == if k in Abs(v) then Some(Abs(v)[k]) else None;
    }
  }

  /** An accepted request acts as one map update exactly when its digest meets no other key's different content. */
  lemma CreateRefinesExactly(v: Vol, a: Request)
    requires Inv(v) && CreateFile(v, a).1.Ok?
    ensures Abs(CreateFile(v, a).0) == Abs(v)[a.key := a.content] <==> !OverwritesOther(v, a)
  {
    if OverwritesOther(v, a) {
      var k :| k in Abs(v) && k != a.key && v.tables.idxkeys[k] == a.sig && Abs(v)[k] != a.content;
      CreateReads(v, a, k);
      assert Abs(CreateFile(v, a).0)[k] == a.content;
    } else {
      var m := Abs(v)[a.key := a.content];
      AbsIsGet(v);
      forall k
        ensures GetFile(CreateFile(v, a).0, k) == if k in m then Some(m[k]) else None
      {
        CreateReads(v, a, k);
      }
      AbsByReads(CreateFile(v, a).0, m);
    }
  }

  lemma NoClashOverwritesNothing(v: Vol, a: Request)
    requires Inv(v) && GoodRequest(v, a)
    ensures !OverwritesOther(v, a)
  {
  }

  lemma RefusedChangesNothing(v: Vol, a: Request)
    requires Inv(v) && CreateFile(v, a).1.Err?
    ensures CreateFile(v, a).0.tables == v.tables && Abs(CreateFile(v, a).0) == Abs(v)
  {
    forall k | k in v.tables.idxkeys
      ensures v.tables.idxkeys[k] != a.sig
    {
      assert v.tables.idxkeys[k] in v.tables.files;
    }
  }

  /**
   * A call on the volume is a call on the map of contents. A request fails exactly when its content is new and does
   * not fit, and then leaves that map as it was.
   */
  lemma CreateRefines(v: Vol, a: Request)
    requires Inv(v) && GoodRequest(v, a)
    ensures Inv(CreateFile(v, a).0)
    ensures CreateFile(v, a).1 == if Fits(v.tables, a) then Ok else Err(TooLarge)
    ensures Abs(CreateFile(v, a).0) == if CreateFile(v, a).1.Ok? then Abs(v)[a.key := a.content] else Abs(v)
  {
    CreateKeepsInv(v, a);
    if CreateFile(v, a).1.Ok? {
      CreateRefinesExactly(v, a);
      NoClashOverwritesNothing(v, a);
    } else {
      RefusedChangesNothing(v, a);
    }
  }

  /** The expiry rows after a stored request: only the row that it ends up in differs. */
  lemma ExpiryRow(t: Tables, id: VolumeID, lastKey: nat, a: Request)
    requires a.ttl != NO_TTL
    ensures var f := StoredFile(t, id, a);
            var at := Second(f.createdAt + f.ttl);
            var row := if at in t.idxttls then Second(ZERO_TIME) else at;
            CreateTables(t, id, lastKey, a).0.idxttls ==
            t.idxttls[row := Union(if at in t.idxttls then t.idxttls[at] else [], [f.signature])]
  {
    hide StoredFile, Union, Second, Enqueue, Without, KeysOf;
  }

  // ---------------------------------------------------------------- DeleteFile

  lemma DeleteShape(t: Tables, key: Key)
    requires key in t.idxkeys && DeleteTables(t, key).1.Ok?
    ensures DeleteTables(t, key).0 == Freed(t, key).(
              state := if LastKeyOf(t, key) then Used(t.state, -SizeOf(t, t.idxkeys[key])) else t.state)
  {
  }

  lemma DeleteTablesKeepIndex(t: Tables, key: Key)
    requires TwoWay(t) && GoodRecords(t)
    ensures TwoWay(DeleteTables(t, key).0) && GoodRecords(DeleteTables(t, key).0)
  {
    if DeleteTables(t, key).1.Ok? {
      DeleteShape(t, key);
      FreedKeepsIndex(t, key);
      var t', u := DeleteTables(t, key).0, Freed(t, key);
      assert t'.files == u.files && t'.idxkeys == u.idxkeys;
      hide DeleteTables, Freed, GoodRecord;
    }
  }

  ghost predicate SizesKnown(t: Tables) {
    forall s | s in t.files :: t.files[s].size >= 0
  }

  /** Deleting never fails its size check, returns exactly what the record took, and loses nothing. */
  lemma DeleteQuota(t: Tables, key: Key)
    requires TwoWay(t) && GoodRecords(t) && Quota(t) && SizesKnown(t)
    ensures DeleteTables(t, key).1 == if key in t.idxkeys then Ok else Err(NotFound)
    ensures Slack(DeleteTables(t, key).0) == Slack(t)
    ensures Quota(DeleteTables(t, key).0) && SizesKnown(DeleteTables(t, key).0)
  {
    if key in t.idxkeys {
      var s := t.idxkeys[key];
      assert t.files[s].size >= 0;
      FreedShape(t, key);
      DeleteShape(t, key);
      FreedSizes(t, key);
      forall x | x in Freed(t, key).files
        ensures Freed(t, key).files[x].size >= 0
      {
        FreedRows(t, key, x);
      }
      SizesNonNegative(Freed(t, key).files);
    }
  }

  lemma DeleteKeepsRows(v: Vol, key: Key)
    requires Inv(v)
    ensures Blobs(DeleteFile(v, key).0) && ReverseIndexed(DeleteFile(v, key).0)
  {
    var v' := DeleteFile(v, key).0;
    if DeleteTables(v.tables, key).1.Ok? {
      DeleteShape(v.tables, key);
      FreedShape(v.tables, key);
      forall s | s in v'.tables.files
        ensures s in v.tables.files && v'.tables.files[s].volumeIDs == v.tables.files[s].volumeIDs
        ensures s in v'.blobs && v'.tables.files[s].size >= 0
      {
        FreedRows(v.tables, key, s);
      }
    }
  }

  lemma DeleteReads(v: Vol, key: Key, k: Key)
    requires Inv(v) && key in v.tables.idxkeys && DeleteTables(v.tables, key).1.Ok?
    ensures GetFile(DeleteFile(v, key).0, k) == if k == key then None else GetFile(v, k)
  {
    DeleteShape(v.tables, key);
    if k in v.tables.idxkeys && k != key && LastKeyOf(v.tables, key) {
      OtherKeyStays(v, key, k);
    }
  }

  /** A delete succeeds exactly on the bound keys, and removes that binding and no other. */
  lemma DeleteRefines(v: Vol, key: Key)
    requires Inv(v)
    ensures Inv(DeleteFile(v, key).0)
    ensures DeleteFile(v, key).1 == if key in Abs(v) then Ok else Err(NotFound)
    ensures Abs(DeleteFile(v, key).0) == Abs(v) - {key}
    ensures Slack(DeleteFile(v, key).0.tables) == Slack(v.tables)
  {
    AbsIsGet(v);
    SizesOfBlobs(v);
    DeleteQuota(v.tables, key);
    DeleteTablesKeepIndex(v.tables, key);
    DeleteKeepsRows(v, key);
    if key in v.tables.idxkeys {
      DeleteShape(v.tables, key);
      forall k
        ensures GetFile(DeleteFile(v, key).0, k) == if k in Abs(v) - {key} then Some(Abs(v)[k]) else None
      {
        DeleteReads(v, key, k);
      }
      AbsByReads(DeleteFile(v, key).0, Abs(v) - {key});
    } else {
      assert Abs(v) - {key} == Abs(v);
    }
  }

  // ---------------------------------------------------------------- Replicas

  lemma {:induction false} IndexedAllShape(idx: map<VolumeID, seq<Signature>>, vids: seq<VolumeID>, own: VolumeID,
                                           sig: Signature)
    ensures forall w, s :: s in SignaturesFor(IndexedAll(idx, vids, own, sig), w) <==>
                           s in SignaturesFor(idx, w) || (s == sig && w in vids && w != own)
    ensures forall w :: w in IndexedAll(idx, vids, own, sig) <==> w in idx || (w in vids && w != own)
    ensures (forall w | w in idx :: NoDup(idx[w])) ==>
            forall w | w in IndexedAll(idx, vids, own, sig) :: NoDup(IndexedAll(idx, vids, own, sig)[w])
    decreases |vids|
  {
    if vids != [] {
      var n := |vids| - 1;
      IndexedAllShape(idx, vids[..n], own, sig);
      assert forall w :: w in vids <==> w in vids[..n] || w == vids[n];
      var idx1 := IndexedAll(idx, vids[..n], own, sig);
      if vids[n] != own {
        IndexedShape(idx1, vids[n], sig);
      }
    }
  }

  lemma IndexedShape(idx: map<VolumeID, seq<Signature>>, vid: VolumeID, sig: Signature)
    ensures forall w, s :: s in SignaturesFor(Indexed(idx, vid, sig), w) <==>
                           s in SignaturesFor(idx, w) || (s == sig && w == vid)
    ensures forall w :: w in Indexed(idx, vid, sig) <==> w in idx || w == vid
    ensures (forall w | w in idx :: NoDup(idx[w])) ==>
            forall w | w in Indexed(idx, vid, sig) :: NoDup(Indexed(idx, vid, sig)[w])
  {
    if sig !in SignaturesFor(idx, vid) && (forall w | w in idx :: NoDup(idx[w])) {
      NoDupSnoc(SignaturesFor(idx, vid), sig);
    }
  }

  /** What a call leaves alone when it only rewrites the replica fields of records, the index and the queue. */
  ghost predicate SameContents(v: Vol, v': Vol) {
    && v'.id == v.id && v'.blobs == v.blobs
    && v'.tables.idxkeys == v.tables.idxkeys && v'.tables.state == v.tables.state
    && v'.tables.files.Keys == v.tables.files.Keys
    && forall s | s in v.tables.files ::
         v'.tables.files[s].(volumeIDs := v.tables.files[s].volumeIDs, replica := v.tables.files[s].replica) ==
         v.tables.files[s]
  }

  lemma SameContentsKeeps(v: Vol, v': Vol)
    requires Inv(v) && SameContents(v, v') && ReverseIndexed(v') && Sorted(v'.tables.replicas)
    requires Sizes(v'.tables.files) == Sizes(v.tables.files)
    ensures Inv(v') && Abs(v') == Abs(v) && Slack(v'.tables) == Slack(v.tables)
  {
    forall s | s in v'.tables.files
      ensures v'.tables.files[s].keys == v.tables.files[s].keys && v'.tables.files[s].size == v.tables.files[s].size
      ensures GoodRecord(s, v'.tables.files[s])
    {
      assert GoodRecord(s, v.tables.files[s]);
    }
  }

  lemma RelistedReverse(v: Vol, v': Vol, s: Signature, f: FileRow)
    requires ReverseIndexed(v) && s in v.tables.files && v.id in f.volumeIDs && v'.id == v.id
    requires v'.tables.files == v.tables.files[s := f]
    requires forall w, x :: x in SignaturesFor(v.tables.idxvolumes, w) ==> x in SignaturesFor(v'.tables.idxvolumes, w)
    requires forall w | w in f.volumeIDs && w != v.id :: s in SignaturesFor(v'.tables.idxvolumes, w)
    requires forall w | w in v'.tables.idxvolumes :: NoDup(v'.tables.idxvolumes[w])
    ensures ReverseIndexed(v')
  {
  }

  lemma UpdateReplicaReverse(v: Vol, rp: Replica, vid: VolumeID, tick: int)
    requires Inv(v)
    ensures ReverseIndexed(UpdateReplica(v, rp, vid, tick).0)
  {
    var (v', r) := UpdateReplica(v, rp, vid, tick);
    if r.Ok? {
      var f := v.tables.files[rp.signature];
      assert GoodRecord(rp.signature, f);
      var f' := f.(volumeIDs := f.volumeIDs + [vid], replica := rp.originalCount);
      IndexedShape(v.tables.idxvolumes, vid, f.signature);
      assert forall w :: w in f'.volumeIDs <==> w in f.volumeIDs || w == vid;
      RelistedReverse(v, v', rp.signature, f');
    }
  }

  lemma RelistedSame(v: Vol, v': Vol, s: Signature, f: FileRow)
    requires s in v.tables.files && v'.tables.files == v.tables.files[s := f]
    requires f.(volumeIDs := v.tables.files[s].volumeIDs, replica := v.tables.files[s].replica) == v.tables.files[s]
    requires v'.id == v.id && v'.blobs == v.blobs
    requires v'.tables.idxkeys == v.tables.idxkeys && v'.tables.state == v.tables.state
    ensures SameContents(v, v') && Sizes(v'.tables.files) == Sizes(v.tables.files)
  {
    SizesPut(v.tables.files, s, f);
  }

  lemma UpdateReplicaSame(v: Vol, rp: Replica, vid: VolumeID, tick: int)
    requires Inv(v)
    ensures SameContents(v, UpdateReplica(v, rp, vid, tick).0)
    ensures Sizes(UpdateReplica(v, rp, vid, tick).0.tables.files) == Sizes(v.tables.files)
  {
    hide Turned, Indexed;
    var (v', r) := UpdateReplica(v, rp, vid, tick);
    if r.Ok? {
      assert GoodRecord(rp.signature, v.tables.files[rp.signature]);
      hide Inv;
      RelistedSame(v, v', rp.signature, v'.tables.files[rp.signature]);
    }
  }

  /** Noting a new replica keeps the invariant and touches no content. */
  lemma UpdateReplicaKeeps(v: Vol, rp: Replica, vid: VolumeID, tick: int)
    requires Inv(v)
    ensures Inv(UpdateReplica(v, rp, vid, tick).0)
    ensures Abs(UpdateReplica(v, rp, vid, tick).0) == Abs(v)
    ensures Slack(UpdateReplica(v, rp, vid, tick).0.tables) == Slack(v.tables)
  {
    UpdateReplicaReverse(v, rp, vid, tick);
    UpdateReplicaSame(v, rp, vid, tick);
    TurnedSorted(QueueOf(v), rp, tick);
    SameContentsKeeps(v, UpdateReplica(v, rp, vid, tick).0);
  }

  lemma UpdateFileReplicaReverse(v: Vol, key: Key, vids: seq<VolumeID>, replica: int)
    requires Inv(v)
    ensures ReverseIndexed(UpdateFileReplica(v, key, vids, replica).0)
  {
    var (v', r) := UpdateFileReplica(v, key, vids, replica);
    if r.Ok? {
      var s := v.tables.idxkeys[key];
      assert GoodRecord(s, v.tables.files[s]);
      IndexedAllShape(v.tables.idxvolumes, vids, v.id, s);
      RelistedReverse(v, v', s, v.tables.files[s].(volumeIDs := vids, replica := replica));
    }
  }

  lemma UpdateFileReplicaSame(v: Vol, key: Key, vids: seq<VolumeID>, replica: int)
    requires Inv(v)
    ensures SameContents(v, UpdateFileReplica(v, key, vids, replica).0)
    ensures Sizes(UpdateFileReplica(v, key, vids, replica).0.tables.files) == Sizes(v.tables.files)
  {
    hide IndexedAll;
    var (v', r) := UpdateFileReplica(v, key, vids, replica);
    if r.Ok? {
      var s := v.tables.idxkeys[key];
      assert GoodRecord(s, v.tables.files[s]);
      RelistedSame(v, v', s, v'.tables.files[s]);
    }
  }

  lemma UpdateFileReplicaKeeps(v: Vol, key: Key, vids: seq<VolumeID>, replica: int)
    requires Inv(v)
    ensures Inv(UpdateFileReplica(v, key, vids, replica).0)
    ensures Abs(UpdateFileReplica(v, key, vids, replica).0) == Abs(v)
    ensures Slack(UpdateFileReplica(v, key, vids, replica).0.tables) == Slack(v.tables)
  {
    UpdateFileReplicaReverse(v, key, vids, replica);
    UpdateFileReplicaSame(v, key, vids, replica);
    SameContentsKeeps(v, UpdateFileReplica(v, key, vids, replica).0);
  }

  lemma {:induction false} SyncLoopSorted(t: Tables, id: VolumeID, vid: VolumeID, sigs: seq<Signature>, q: Queue,
                                          uuids: seq<string>, ticks: seq<int>)
    requires Sorted(q.entries)
    ensures Sorted(SyncLoop(t, id, vid, sigs, q, uuids, ticks).0.entries)
    decreases |sigs|
  {
    if sigs != [] {
      var n := |sigs| - 1;
      SyncLoopSorted(t, id, vid, sigs[..n], q, uuids, ticks);
      var q1 := SyncLoop(t, id, vid, sigs[..n], q, uuids, ticks).0;
      if sigs[n] in t.files && Heads(t.files[sigs[n]], id, vid) {
        var f := t.files[sigs[n]];
        EnqueueSorted(q1.entries, NextKey(q1.lastKey, At(ticks, n, 0)),
                      RepairEntry(f, id, Without(f.volumeIDs, vid), At(uuids, n, "")));
      }
    }
  }

  lemma {:induction false} SyncLoopOrdered(t: Tables, id: VolumeID, vid: VolumeID, sigs: seq<Signature>, q: Queue,
                                           uuids: seq<string>, ticks: seq<int>)
    requires Ordered(q.entries, q.lastKey)
    ensures var q' := SyncLoop(t, id, vid, sigs, q, uuids, ticks).0;
            Ordered(q'.entries, q'.lastKey) && q.entries <= q'.entries && q.lastKey <= q'.lastKey
    decreases |sigs|
  {
    if sigs != [] {
      var n := |sigs| - 1;
      SyncLoopOrdered(t, id, vid, sigs[..n], q, uuids, ticks);
      var q1 := SyncLoop(t, id, vid, sigs[..n], q, uuids, ticks).0;
      if sigs[n] in t.files && Heads(t.files[sigs[n]], id, vid) {
        var f := t.files[sigs[n]];
        EnqueueOrdered(q1.entries, q1.lastKey, NextKey(q1.lastKey, At(ticks, n, 0)),
                       RepairEntry(f, id, Without(f.volumeIDs, vid), At(uuids, n, "")));
      }
    }
  }

  lemma SynchronizeKeeps(v: Vol, vid: VolumeID, uuids: seq<string>, ticks: seq<int>)
    requires Inv(v)
    ensures Inv(SynchronizeReplicas(v, vid, uuids, ticks).0)
    ensures Abs(SynchronizeReplicas(v, vid, uuids, ticks).0) == Abs(v)
    ensures Slack(SynchronizeReplicas(v, vid, uuids, ticks).0.tables) == Slack(v.tables)
  {
    var v' := SynchronizeReplicas(v, vid, uuids, ticks).0;
    if vid in v.tables.idxvolumes {
      SyncLoopSorted(v.tables, v.id, vid, v.tables.idxvolumes[vid], QueueOf(v), uuids, ticks);
    }
    assert ReverseIndexed(v');
    SameContentsKeeps(v, v');
  }
}
