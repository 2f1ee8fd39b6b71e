/** The sweep of expired signatures: nested loops of deletes, all in one unit of work. */
module TtlSweep {
  import opened Types
  import opened VolumeSpec
  import opened VolumeInvariant

  ghost predicate Sound(t: Tables) {
    TwoWay(t) && GoodRecords(t) && Quota(t) && SizesKnown(t)
  }

  /** The key index without the keys that are bound to one of the signatures. */
  function Unbound(idx: map<Key, Signature>, sigs: seq<Signature>): map<Key, Signature> {
    map k | k in idx && idx[k] !in sigs :: idx[k]
  }

  function UnboundFrom(idx: map<Key, Signature>, s: Signature): map<Key, Signature> {
    map k | k in idx && idx[k] != s :: idx[k]
  }

  function Undone(files: map<Signature, FileRow>, sigs: seq<Signature>): map<Signature, FileRow> {
    map s | s in files && s !in sigs :: files[s]
  }

  /** Nothing but records, bindings and sizes differ. */
  ghost predicate SameRest(t: Tables, t': Tables) {
    t'.idxttls == t.idxttls && t'.idxvolumes == t.idxvolumes && t'.replicas == t.replicas
  }

  /** The record of `s` and its bindings are gone, and its size is given back. */
  ghost predicate Drops(t: Tables, t': Tables, s: Signature) {
    && Sound(t') && Slack(t') == Slack(t) && SameRest(t, t')
    && t'.files == t.files - {s} && t'.idxkeys == UnboundFrom(t.idxkeys, s)
  }

  lemma DeleteOne(t: Tables, key: Key)
    requires Sound(t) && key in t.idxkeys
    ensures DeleteTables(t, key).1.Ok? && Sound(DeleteTables(t, key).0)
    ensures Slack(DeleteTables(t, key).0) == Slack(t) && SameRest(t, DeleteTables(t, key).0)
    ensures DeleteTables(t, key).0.files == Freed(t, key).files
    ensures DeleteTables(t, key).0.idxkeys == t.idxkeys - {key}
  {
    DeleteQuota(t, key);
    DeleteTablesKeepIndex(t, key);
    DeleteShape(t, key);
  }

  lemma WithoutFirst(keys: seq<Key>)
    requires NoDup(keys) && keys != []
    ensures Without(keys, keys[0]) == keys[1..]
  {
  }

  /** Deleting all keys that a record lists drops the record, its bindings and nothing else. */
  lemma {:induction false} DeleteListedKeys(t: Tables, s: Signature, keys: seq<Key>)
    requires Sound(t) && s in t.files && t.files[s].keys == keys
    ensures Drops(t, DeleteKeys(t, keys), s)
    decreases |keys|
  {
    assert GoodRecord(s, t.files[s]);
    hide GoodRecord, Sound, Slack, DeleteTables, Drops, UnboundFrom;
    if |keys| == 1 {
      assert keys == [keys[0]] && keys[1..] == [];
      DeleteLastKey(t, s, keys[0]);
    } else {
      DeleteInnerKey(t, s);
      var t1 := DeleteTables(t, keys[0]).0;
      DeleteListedKeys(t1, s, keys[1..]);
      DropsAfter(t, t1, DeleteKeys(t1, keys[1..]), s);
    }
  }

  lemma DropsAfter(t: Tables, t1: Tables, t': Tables, s: Signature)
    requires Drops(t1, t', s) && Slack(t1) == Slack(t) && SameRest(t, t1) && s in t.files
    requires s in t1.files && t1.files == t.files[s := t1.files[s]] && UnboundFrom(t1.idxkeys, s) == UnboundFrom(t.idxkeys, s)
    ensures Drops(t, t', s)
  {
    hide Sound, Slack, UnboundFrom;
    assert t1.files - {s} == t.files - {s};
  }

  lemma DeleteLastKey(t: Tables, s: Signature, k: Key)
    requires Sound(t) && s in t.files && t.files[s].keys == [k]
    ensures Drops(t, DeleteTables(t, k).0, s)
  {
    assert k in t.files[s].keys && t.idxkeys[k] == s;
    DeleteOne(t, k);
    FreedShape(t, k);
    LastListed(t, s, k);
  }

  lemma DeleteInnerKey(t: Tables, s: Signature)
    requires Sound(t) && s in t.files && |t.files[s].keys| > 1
    ensures var t1, keys := DeleteTables(t, t.files[s].keys[0]).0, t.files[s].keys;
            && Sound(t1) && Slack(t1) == Slack(t) && SameRest(t, t1)
            && t1.files == t.files[s := t.files[s].(keys := keys[1..])]
            && UnboundFrom(t1.idxkeys, s) == UnboundFrom(t.idxkeys, s)
  {
    var keys := t.files[s].keys;
    assert GoodRecord(s, t.files[s]);
    assert keys[0] in keys && t.idxkeys[keys[0]] == s;
    DeleteOne(t, keys[0]);
    FreedShape(t, keys[0]);
    WithoutFirst(keys);
  }

  lemma LastListed(t: Tables, s: Signature, k: Key)
    requires TwoWay(t) && s in t.files && t.files[s].keys == [k]
    ensures t.idxkeys - {k} == UnboundFrom(t.idxkeys, s)
  {
    assert k in t.files[s].keys;
    assert forall x | x in t.idxkeys && t.idxkeys[x] == s :: x in t.files[s].keys;
  }

  /** A signature without a record is passed over. */
  lemma SweepOne(t: Tables, s: Signature)
    requires Sound(t)
    ensures Drops(t, DeleteKeys(t, KeysOf(t, s)), s)
  {
    if s in t.files {
      DeleteListedKeys(t, s, t.files[s].keys);
    } else {
      assert forall k | k in t.idxkeys :: t.idxkeys[k] in t.files;
      assert t.files - {s} == t.files && UnboundFrom(t.idxkeys, s) == t.idxkeys;
    }
  }

  lemma UnboundTwice(files: map<Signature, FileRow>, idx: map<Key, Signature>, sigs: seq<Signature>)
    requires sigs != []
    ensures Undone(files - {sigs[0]}, sigs[1..]) == Undone(files, sigs)
    ensures Unbound(UnboundFrom(idx, sigs[0]), sigs[1..]) == Unbound(idx, sigs)
  {
    assert forall s :: s in sigs <==> s == sigs[0] || s in sigs[1..];
  }

  /** The tables after a whole sweep, whatever the list repeats or names in vain. */
  lemma {:induction false} SweepTablesExactly(t: Tables, sigs: seq<Signature>)
    requires Sound(t)
    ensures var t' := SweepTables(t, sigs);
            && Sound(t') && Slack(t') == Slack(t) && SameRest(t, t')
            && t'.files == Undone(t.files, sigs) && t'.idxkeys == Unbound(t.idxkeys, sigs)
    decreases |sigs|
  {
    hide Sound, Slack;
    if sigs == [] {
      assert Undone(t.files, sigs) == t.files && Unbound(t.idxkeys, sigs) == t.idxkeys;
    } else {
      var t1 := DeleteKeys(t, KeysOf(t, sigs[0]));
      SweepOne(t, sigs[0]);
      SweepTablesExactly(t1, sigs[1..]);
      UnboundTwice(t.files, t.idxkeys, sigs);
    }
  }

  /** The records that a sweep drops are those that the list names, each once. */
  lemma {:induction false} SweptExactly(t: Tables, sigs: seq<Signature>)
    requires Sound(t)
    ensures NoDup(Swept(t, sigs)) && forall s :: s in Swept(t, sigs) <==> s in t.files && s in sigs
    decreases |sigs|
  {
    hide Sound, Slack, SameRest, UnboundFrom;
    if sigs != [] {
      var t1 := DeleteKeys(t, KeysOf(t, sigs[0]));
      SweepOne(t, sigs[0]);
      SweptExactly(t1, sigs[1..]);
      assert forall s :: s in sigs <==> s == sigs[0] || s in sigs[1..];
      var rest := Swept(t1, sigs[1..]);
      assert sigs[0] !in rest;
      assert Swept(t, sigs) == (if sigs[0] in t.files then [sigs[0]] else []) + rest;
    }
  }

  lemma SweptFirstly(t: Tables, sigs: seq<Signature>)
    requires Sound(t) && Swept(t, sigs) != []
    ensures sigs != []
    ensures var t1 := DeleteKeys(t, KeysOf(t, sigs[0]));
            && Sound(t1) && sigs[0] !in Swept(t1, sigs[1..])
            && Swept(t, sigs) == (if sigs[0] in t.files then [sigs[0]] else []) + Swept(t1, sigs[1..])
  {
    hide Sound, Slack, SameRest, UnboundFrom;
    SweepOne(t, sigs[0]);
    SweptExactly(DeleteKeys(t, KeysOf(t, sigs[0])), sigs[1..]);
  }

  /** `a` occurs in the list before any `b` does. */
  ghost predicate NamedBefore(sigs: seq<Signature>, a: Signature, b: Signature) {
    exists p :: 0 <= p < |sigs| && sigs[p] == a && b !in sigs[..p + 1]
  }

  lemma NamedBeforeCons(s: Signature, sigs: seq<Signature>, a: Signature, b: Signature)
    requires b != s && (a == s || NamedBefore(sigs, a, b))
    ensures NamedBefore([s] + sigs, a, b)
  {
    var all := [s] + sigs;
    if a == s {
      assert all[0] == a && all[..1] == [s];
    } else {
      var p :| 0 <= p < |sigs| && sigs[p] == a && b !in sigs[..p + 1];
      assert all[p + 1] == a && all[..p + 2] == [s] + sigs[..p + 1];
    }
  }

  /** The records are dropped in the order in which the list first names them. */
  lemma {:induction false} SweptInOrder(t: Tables, sigs: seq<Signature>, i: nat, j: nat)
    requires Sound(t) && i < j < |Swept(t, sigs)|
    ensures NamedBefore(sigs, Swept(t, sigs)[i], Swept(t, sigs)[j])
    decreases |sigs|
  {
    hide Sound, Swept, DeleteKeys, NamedBefore, KeysOf;
    SweptFirstly(t, sigs);
    var t1 := DeleteKeys(t, KeysOf(t, sigs[0]));
    var first, rest := if sigs[0] in t.files then [sigs[0]] else [], Swept(t1, sigs[1..]);
    assert rest[j - |first|] in rest;
    if i >= |first| {
      SweptInOrder(t1, sigs[1..], i - |first|, j - |first|);
    }
    NamedBeforeCons(sigs[0], sigs[1..], Swept(t, sigs)[i], Swept(t, sigs)[j]);
    assert [sigs[0]] + sigs[1..] == sigs;
  }

  /** The rows are gone through one after the other. */
  lemma {:induction false} FlatInOrder(rows: seq<seq<Signature>>, more: seq<seq<Signature>>)
    ensures Flat(rows + more) == Flat(rows) + Flat(more) && Flat([]) == []
    ensures forall row :: Flat([row]) == row
  {
    forall row
      ensures Flat([row]) == row
    {
      assert [row][1..] == [];
    }
    if rows == [] {
      assert rows + more == more;
    } else {
      FlatInOrder(rows[1..], more);
      assert (rows + more)[1..] == rows[1..] + more;
    }
  }

  function Remaining(m: map<Key, Bytes>, idx: map<Key, Signature>, sigs: seq<Signature>): map<Key, Bytes> {
    map k | k in m && k in idx && idx[k] !in sigs :: m[k]
  }

  /**
   * For any list of expired rows the sweep removes exactly the records and keys of the listed signatures, leaves what
   * every other key reads alone, returns the sizes of the records it drops, and keeps the invariant.
   */
  lemma SweepRefines(v: Vol, rows: seq<seq<Signature>>, spare: bool)
    requires Inv(v)
    ensures var v', sigs := Sweep(v, rows, spare), Flat(rows);
            && Inv(v')
            && Slack(v'.tables) == Slack(v.tables)
            && v'.tables.files == Undone(v.tables.files, sigs)
            && v'.tables.idxkeys == Unbound(v.tables.idxkeys, sigs)
            && Abs(v') == Remaining(Abs(v), v.tables.idxkeys, sigs)
  {
    var v', sigs := Sweep(v, rows, spare), Flat(rows);
    SizesOfBlobs(v);
    SweepTablesExactly(v.tables, sigs);
    SweptExactly(v.tables, sigs);
    var dropped := Swept(v.tables, sigs);
    if dropped != [] {
      assert dropped[|dropped| - 1] in dropped;
    }
    forall s | s in v'.tables.files
      ensures s in v.tables.files && v'.tables.files[s] == v.tables.files[s] && s in v'.blobs && v'.blobs[s] == v.blobs[s]
    {
    }
    assert Blobs(v') && ReverseIndexed(v');
    SweepReads(v, rows, spare);
  }

  lemma SweepReads(v: Vol, rows: seq<seq<Signature>>, spare: bool)
    requires Inv(v)
    ensures Abs(Sweep(v, rows, spare)) == Remaining(Abs(v), v.tables.idxkeys, Flat(rows))
  {
    var v', sigs := Sweep(v, rows, spare), Flat(rows);
    SizesOfBlobs(v);
    SweepTablesExactly(v.tables, sigs);
    SweptExactly(v.tables, sigs);
    var dropped := Swept(v.tables, sigs);
    if dropped != [] {
      assert dropped[|dropped| - 1] in dropped;
    }
    var m := Remaining(Abs(v), v.tables.idxkeys, sigs);
    forall k
      ensures GetFile(v', k) == if k in m then Some(m[k]) else None
    {
      assert k in v.tables.idxkeys ==> v.tables.idxkeys[k] in v.tables.files;
    }
    AbsByReads(v', m);
  }

  /**
   * A sweep that drops records deletes the file of at most one of them, the last: every other swept content stays on
   * disk without a record.
   */
  lemma SweepLeavesFiles(v: Vol, rows: seq<seq<Signature>>, spare: bool)
    requires Inv(v)
    ensures var v', dropped := Sweep(v, rows, spare), Swept(v.tables, Flat(rows));
            && (forall i | 0 <= i < |dropped| - 1 :: dropped[i] in v'.blobs && dropped[i] !in v'.tables.files)
            && (dropped != [] ==>
                  (dropped[|dropped| - 1] !in v'.blobs <==> |dropped| == 1 || !spare))
  {
    DroppedStored(v, rows);
    hide Inv, SweepTables, Swept, Flat;
    var dropped := Swept(v.tables, Flat(rows));
    assert forall i | 0 <= i < |dropped| :: dropped[i] in dropped;
  }

  /** The dropped records are different ones that had their file, and none of them is left. */
  lemma DroppedStored(v: Vol, rows: seq<seq<Signature>>)
    requires Inv(v)
    ensures var dropped := Swept(v.tables, Flat(rows));
            && NoDup(dropped)
            && forall s | s in dropped :: s in v.blobs && s !in SweepTables(v.tables, Flat(rows)).files
  {
    SizesOfBlobs(v);
    SweepTablesExactly(v.tables, Flat(rows));
    SweptExactly(v.tables, Flat(rows));
    hide Swept, SweepTables, Flat;
  }
}
