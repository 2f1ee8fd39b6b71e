/** The local volume: its calls as they work on the database, the file tree and the key generator, step by step. */
module LocalVolume {
  import opened Types
  import opened Paths
  import opened Records
  import opened ReplicaQueue
  import opened FsUnit
  import opened BlobTree
  import opened VolumeSpec
  import opened VolumeInvariant
  import TtlSweep

  /**
   * One unit of work: the transaction's view of the tables and the tracker of the file tree. Where the database
   * `mayFail`, any of its calls can fail and then changes nothing.
   */
  class UnitOfWork {
    const mayFail: bool
    const generator: KeyGenerator
    const fs: UowTracker
    var t: Tables

    constructor (t: Tables, generator: KeyGenerator, disk: Disk, mayFail: bool)
      ensures this.t == t && this.generator == generator && this.mayFail == mayFail
      ensures fresh(fs) && fs.fs == disk && fs.View() == Logs([], [])
    {
      this.t, this.generator, this.mayFail := t, generator, mayFail;
      fs := new UowTracker(disk);
    }

    method Works() returns (ok: bool)
      ensures ok || mayFail
    {
      ok := *;
      ok := ok || !mayFail;
    }

    method FindFile(sig: Signature) returns (ok: bool, f: File?)
      ensures ok || mayFail
      ensures ok ==> (f != null <==> sig in t.files)
      ensures f != null ==> fresh(f) && sig in t.files && f.Row() == t.files[sig]
    {
      f := null;
      ok := Works();
      if ok && sig in t.files {
        f := new File(t.files[sig]);
      }
    }

    method PutFile(f: FileRow) returns (ok: bool)
      modifies this
      ensures ok || mayFail
      ensures t == if ok then old(t).(files := old(t.files)[f.signature := f]) else old(t)
    {
      ok := Works();
      if ok {
        t := t.(files := t.files[f.signature := f]);
      }
    }

    method DeleteFileBySignature(sig: Signature) returns (ok: bool)
      modifies this
      ensures ok || mayFail
      ensures t == if ok then old(t).(files := old(t.files) - {sig}) else old(t)
    {
      ok := Works();
      if ok {
        t := t.(files := t.files - {sig});
      }
    }

    method FindKey(key: Key) returns (ok: bool, sig: Option<Signature>)
      ensures ok || mayFail
      ensures ok ==> sig == if key in t.idxkeys then Some(t.idxkeys[key]) else None
    {
      ok := Works();
      sig := if key in t.idxkeys then Some(t.idxkeys[key]) else None;
    }

    method PutKey(key: Key, sig: Signature) returns (ok: bool)
      modifies this
      ensures ok || mayFail
      ensures t == if ok then old(t).(idxkeys := old(t.idxkeys)[key := sig]) else old(t)
    {
      ok := Works();
      if ok {
        t := t.(idxkeys := t.idxkeys[key := sig]);
      }
    }

    method DeleteKey(key: Key) returns (ok: bool)
      modifies this
      ensures ok || mayFail
      ensures t == if ok then old(t).(idxkeys := old(t.idxkeys) - {key}) else old(t)
    {
      ok := Works();
      if ok {
        t := t.(idxkeys := t.idxkeys - {key});
      }
    }

    method FindState() returns (ok: bool, st: State)
      ensures ok || mayFail
      ensures fresh(st) && st.Row() == t.state
    {
      ok := Works();
      st := new State(t.state);
    }

    method PutState(row: StateRow) returns (ok: bool)
      modifies this
      ensures ok || mayFail
      ensures t == if ok then old(t).(state := row) else old(t)
    {
      ok := Works();
      if ok {
        t := t.(state := row);
      }
    }

    /** A row comes back from the table without its time. */
    method FindTTL(at: int) returns (ok: bool, row: IDXTTL?)
      ensures ok || mayFail
      ensures ok ==> (row != null <==> Second(at) in t.idxttls)
      ensures row != null ==> fresh(row) && Second(at) in t.idxttls
      ensures row != null ==> row.signatures == t.idxttls[Second(at)] && row.expiresAt == ZERO_TIME
    {
      row := null;
      ok := Works();
      if ok && Second(at) in t.idxttls {
        row := new IDXTTL(ZERO_TIME, t.idxttls[Second(at)]);
      }
    }

    method PutTTL(row: IDXTTL) returns (ok: bool)
      modifies this
      ensures ok || mayFail
      ensures t == if ok then old(t).(idxttls := old(t.idxttls)[Second(row.expiresAt) := row.signatures]) else old(t)
    {
      ok := Works();
      if ok {
        t := t.(idxttls := t.idxttls[Second(row.expiresAt) := row.signatures]);
      }
    }

    method FindVolume(vid: VolumeID) returns (ok: bool, row: IDXVolume?)
      ensures ok || mayFail
      ensures ok ==> (row != null <==> vid in t.idxvolumes)
      ensures row != null ==> fresh(row) && vid in t.idxvolumes
      ensures row != null ==> row.volumeID == vid && row.signatures == t.idxvolumes[vid]
    {
      row := null;
      ok := Works();
      if ok && vid in t.idxvolumes {
        row := new IDXVolume(vid, t.idxvolumes[vid]);
      }
    }

    method PutVolume(row: IDXVolume) returns (ok: bool)
      modifies this
      ensures ok || mayFail
      ensures t == if ok then old(t).(idxvolumes := old(t.idxvolumes)[row.volumeID := row.signatures]) else old(t)
    {
      ok := Works();
      if ok {
        t := t.(idxvolumes := t.idxvolumes[row.volumeID := row.signatures]);
      }
    }

    /** The key is drawn before the row is stored, so it stays drawn when storing fails. */
    method CreateReplica(rp: Replica, now: int) returns (ok: bool)
      modifies this, generator
      ensures ok || mayFail
      ensures generator.lastKey == NextKey(old(generator.lastKey), now)
      ensures t == if ok then old(t).(replicas := Enqueue(old(t.replicas), generator.lastKey, rp)) else old(t)
    {
      var _ := generator.New(now);
      ok := Works();
      if ok {
        t := t.(replicas := Enqueue(t.replicas, generator.lastKey, rp));
      }
    }

    method DeleteReplica(rp: Replica) returns (ok: bool)
      modifies this
      ensures ok || mayFail
      ensures t == if ok then old(t).(replicas := Omit(old(t.replicas), rp.volumeReplicaID)) else old(t)
    {
      ok := Works();
      if ok {
        t := t.(replicas := Omit(t.replicas, rp.volumeReplicaID));
      }
    }
  }

  /** The list without `key`, allocated with one place less than the old one. */
  method NewKeys(keys: seq<Key>, key: Key) returns (newKeys: seq<Key>)
    requires keys != []
    ensures newKeys == Without(keys, key)
  {
    var capacity: nat := |keys| - 1;
    newKeys := [];
    for i := 0 to |keys|
      invariant newKeys == Without(keys[..i], key)
    {
      WithoutSnoc(keys[..i], keys[i], key);
      assert keys[..i + 1] == keys[..i] + [keys[i]];
      if keys[i] == key {
        continue;
      }
      newKeys := newKeys + [keys[i]];
    }
    assert keys[..|keys|] == keys;
  }

  /** The record that a key names is there, with its file. */
  ghost predicate Named(t: Tables, tree: Tree, dir: Path, key: Key) {
    key in t.idxkeys ==>
      var s := t.idxkeys[key];
      && IsSignature(s) && s in t.files && key in t.files[s].keys && t.files[s].signature == s
      && BlobPath(dir, s) in tree
  }

  const NO_LOGS: Logs := Logs([], [])

  /** What a call did to the files: nothing, or one tracked removal. */
  ghost predicate RemovedAtMost(logs0: Logs, tree0: Tree, logs: Logs, tree: Tree, p: Path, removed: bool) {
    if removed then
      && p in tree0 && tree == Moved(tree0, p, Tmp(p))
      && (logs == Track(logs0, Action.Remove(p), false) || logs == Track(logs0, Action.Remove(p), true))
    else tree == tree0 && logs == logs0
  }

  /** The logs of a unit that removed at most one file run to their end. */
  lemma LogsRun(tree0: Tree, logs: Logs, tree: Tree, p: Path, removed: bool)
    requires RemovedAtMost(NO_LOGS, tree0, logs, tree, p, removed) && (removed ==> Tmp(p) !in tree0)
    ensures RunLog(tree, logs.rollback) == (tree0, true)
    ensures RunLog(tree, logs.commit) == (if removed then tree0 - {p} else tree0, true)
  {
    if removed {
      RemovedOnce(tree0, p);
      assert logs == Logs([Move(Tmp(p), p)], [Delete(Tmp(p))]);
    }
  }

  lemma InvNamed(v: Vol, tree: Tree, dir: Path, key: Key)
    requires Inv(v) && v.blobs.Keys <= ContentsOf(tree, dir).Keys
    ensures Named(v.tables, tree, dir, key)
  {
    if key in v.tables.idxkeys {
      var s := v.tables.idxkeys[key];
      assert GoodRecord(s, v.tables.files[s]) && s in v.blobs;
      ContentsAre(tree, dir);
    }
  }

  /** The file of the record that a key names is not waiting, and its removal takes just that content. */
  lemma FormerContent(v: Vol, tree: Tree, dir: Path, key: Key)
    requires NothingWaits(tree, dir) && key in v.tables.idxkeys && IsSignature(v.tables.idxkeys[key])
    ensures var s := v.tables.idxkeys[key];
            && Tmp(BlobPath(dir, s)) !in tree
            && ContentsOf(tree - {BlobPath(dir, s)}, dir) == ContentsOf(tree, dir) - {s}
            && NothingWaits(tree - {BlobPath(dir, s)}, dir)
  {
    hide BlobPath, ContentsOf;
    Discarded(tree, dir, v.tables.idxkeys[key]);
  }

  /** What the body of a create request leaves in the unit: tables `t'`, next key, logs and tree. */
  ghost predicate CreateBodyDone(t: Tables, id: VolumeID, lastKey: nat, a: Request, dir: Path, tree: Tree,
                                 e: Result, t': Tables, lastKey': nat, logs: Logs, tree': Tree) {
    var former := if a.key in t.idxkeys then BlobPath(dir, t.idxkeys[a.key]) else [];
    && lastKey <= lastKey'
    && (e.Ok? ==> Fits(t, a))
    && (e.Ok? && Known(t, a) ==> t' == t && lastKey' == lastKey && RemovedAtMost(NO_LOGS, tree, logs, tree', former, false))
    && (e.Ok? && !Known(t, a) ==>
          && (t', lastKey') == CreateTables(t, id, lastKey, a)
          && RemovedAtMost(NO_LOGS, tree, logs, tree', former, LastKeyOf(WithRecord(t, id, a), a.key)))
    && (e == Err(TooLarge) ==> !Fits(t, a) && lastKey' == lastKey)
    && (e.Err? ==> RemovedAtMost(NO_LOGS, tree, logs, tree', former, false) ||
                   (a.key in t.idxkeys && RemovedAtMost(NO_LOGS, tree, logs, tree', former, true)))
  }

  /** Either log ends the unit as specified: all of the request, or none of it. */
  lemma CreateEnds(v: Vol, a: Request, dir: Path, tree: Tree,
                   e: Result, t': Tables, lastKey': nat, logs: Logs, tree': Tree)
    requires CreateBodyDone(v.tables, v.id, v.lastKey, a, dir, tree, e, t', lastKey', logs, tree')
    requires Named(v.tables, tree, dir, a.key)
    requires NothingWaits(tree, dir) && ContentsOf(tree, dir) == v.blobs[a.sig := a.content]
    ensures RunLog(tree', logs.rollback) == (tree, true)
    ensures e.Ok? ==> var end := RunLog(tree', logs.commit);
                      && end.1 && NothingWaits(end.0, dir)
                      && (Vol(v.id, t', ContentsOf(end.0, dir), lastKey'), Ok) == VolumeSpec.CreateFile(v, a)
    ensures e == Err(TooLarge) ==>
              (Vol(v.id, v.tables, ContentsOf(tree, dir), lastKey'), e) == VolumeSpec.CreateFile(v, a)
  {
    hide BlobPath, ContentsOf;
    var former := if a.key in v.tables.idxkeys then BlobPath(dir, v.tables.idxkeys[a.key]) else [];
    if RemovedAtMost(NO_LOGS, tree, logs, tree', former, true) && a.key in v.tables.idxkeys {
      FormerContent(v, tree, dir, a.key);
      LogsRun(tree, logs, tree', former, true);
    } else {
      LogsRun(tree, logs, tree', former, false);
    }
  }

  /** What the body of a delete leaves in the unit. */
  ghost predicate DeleteBodyDone(t: Tables, key: Key, dir: Path, logs: Logs, tree: Tree,
                                 e: Result, t': Tables, logs': Logs, tree': Tree) {
    var p := if key in t.idxkeys then BlobPath(dir, t.idxkeys[key]) else [];
    && (e != Err(Fault) ==> e == DeleteTables(t, key).1)
    && (e.Ok? ==> t' == DeleteTables(t, key).0 && RemovedAtMost(logs, tree, logs', tree', p, LastKeyOf(t, key)))
    && (e == Err(NotFound) ==> t' == t && RemovedAtMost(logs, tree, logs', tree', p, false))
    && (e.Err? ==> RemovedAtMost(logs, tree, logs', tree', p, false) ||
                   (key in t.idxkeys && RemovedAtMost(logs, tree, logs', tree', p, true)))
  }

  /** The same for a delete request. */
  lemma DeleteEnds(v: Vol, dir: Path, tree: Tree, key: Key, e: Result, t': Tables, logs: Logs, tree': Tree)
    requires Named(v.tables, tree, dir, key) && NothingWaits(tree, dir) && v.blobs == ContentsOf(tree, dir)
    requires DeleteBodyDone(v.tables, key, dir, NO_LOGS, tree, e, t', logs, tree')
    ensures RunLog(tree', logs.rollback) == (tree, true)
    ensures e.Ok? ==> var end := RunLog(tree', logs.commit);
                      && end.1 && NothingWaits(end.0, dir)
                      && (Vol(v.id, t', ContentsOf(end.0, dir), v.lastKey), Ok) == VolumeSpec.DeleteFile(v, key)
    ensures e == Err(NotFound) ==> VolumeSpec.DeleteFile(v, key) == (v, e)
  {
    hide BlobPath, ContentsOf;
    DeleteLogs(v, dir, tree, key, e, t', logs, tree');
    if e.Ok? {
      assert DeleteTables(v.tables, key) == (t', Ok);
    }
  }

  lemma DeleteLogs(v: Vol, dir: Path, tree: Tree, key: Key, e: Result, t': Tables, logs: Logs, tree': Tree)
    requires Named(v.tables, tree, dir, key) && NothingWaits(tree, dir) && v.blobs == ContentsOf(tree, dir)
    requires DeleteBodyDone(v.tables, key, dir, NO_LOGS, tree, e, t', logs, tree')
    ensures RunLog(tree', logs.rollback) == (tree, true)
    ensures e.Ok? ==> var end := RunLog(tree', logs.commit);
                      && end.1 && NothingWaits(end.0, dir) && key in v.tables.idxkeys
                      && ContentsOf(end.0, dir) ==
                         if LastKeyOf(v.tables, key) then v.blobs - {v.tables.idxkeys[key]} else v.blobs
  {
    hide BlobPath, ContentsOf;
    var p := if key in v.tables.idxkeys then BlobPath(dir, v.tables.idxkeys[key]) else [];
    if RemovedAtMost(NO_LOGS, tree, logs, tree', p, true) && key in v.tables.idxkeys {
      FormerContent(v, tree, dir, key);
      LogsRun(tree, logs, tree', p, true);
    } else {
      LogsRun(tree, logs, tree', p, false);
    }
  }

  /** A content that is put in its place, with nothing else done, does no harm. */
  lemma PlacedKeepsInv(v: Vol, a: Request, lastKey: nat)
    requires Inv(v)
    ensures Inv(v.(blobs := v.blobs[a.sig := a.content], lastKey := lastKey))
  {
    var v' := v.(blobs := v.blobs[a.sig := a.content], lastKey := lastKey);
    assert ReverseIndexed(v') && Blobs(v');
  }

  /** Drawing keys that are not used does no harm. */
  lemma DrawnKeysKeep(v: Vol, lastKey: nat)
    requires Inv(v)
    ensures Inv(v.(lastKey := lastKey))
  {
    assert ReverseIndexed(v.(lastKey := lastKey)) && Blobs(v.(lastKey := lastKey));
  }

  /** Once the loop over the signatures has failed, the remaining ones are not looked at. */
  lemma {:induction false} SyncStops(t: Tables, id: VolumeID, vid: VolumeID, sigs: seq<Signature>, k: nat, q: Queue,
                                     uuids: seq<string>, ticks: seq<int>)
    requires k <= |sigs| && !SyncLoop(t, id, vid, sigs[..k], q, uuids, ticks).1
    ensures SyncLoop(t, id, vid, sigs, q, uuids, ticks) == SyncLoop(t, id, vid, sigs[..k], q, uuids, ticks)
    decreases |sigs|
  {
    if k == |sigs| {
      assert sigs[..k] == sigs;
    } else {
      var n := |sigs| - 1;
      assert sigs[..n][..k] == sigs[..k];
      SyncStops(t, id, vid, sigs[..n], k, q, uuids, ticks);
    }
  }

  // ---------------------------------------------------------------- Bookkeeping of a sweep

  /** The logs and the tree after the tracked removals of `dropped`, and of nothing else. */
  ghost predicate Filed(tree0: Tree, dir: Path, dropped: seq<Signature>, logs: Logs, tree: Tree) {
    && NoDup(dropped) && (forall i | 0 <= i < |dropped| :: IsSignature(dropped[i]) && BlobPath(dir, dropped[i]) in tree0)
    && DoAll(tree0, Removals(dir, dropped)) == Some(tree)
    && logs.rollback == Log(Removals(dir, dropped))
    && (dropped == [] ==> logs.commit == [])
    && (dropped != [] ==>
          var n := |dropped| - 1;
          var p := BlobPath(dir, dropped[n]);
          logs.commit == Log(Removals(dir, dropped[..n])) + [Delete(Tmp(p))] ||
          (n > 0 && logs.commit == Log(Removals(dir, dropped[..n])) + [Move(Tmp(p), p)]))
  }

  lemma FiledOneMore(tree0: Tree, dir: Path, dropped: seq<Signature>, logs: Logs, tree: Tree,
                     sig: Signature, logs': Logs, tree': Tree)
    requires NothingWaits(tree0, dir) && Filed(tree0, dir, dropped, logs, tree)
    requires sig !in dropped && IsSignature(sig) && BlobPath(dir, sig) in tree0
    requires RemovedAtMost(logs, tree, logs', tree', BlobPath(dir, sig), true)
    ensures Filed(tree0, dir, dropped + [sig], logs', tree')
  {
    hide BlobPath, Tmp, IsSignature, ContentsOf, NothingWaits, Do;
    var acts, a := Removals(dir, dropped), Action.Remove(BlobPath(dir, sig));
    assert Removals(dir, dropped + [sig]) == acts + [a] && (dropped + [sig])[..|dropped|] == dropped;
    NoDupSnoc(dropped, sig);
    LogSnoc(acts, a);
    RemovedOneMore(tree0, dir, dropped, tree, sig, tree');
    hide Log, DoAll, Removals;
    assert logs'.rollback == logs.rollback + [UndoOf(a)];
    assert dropped == [] ==> logs.rollback == [] by { NothingLogged(dir, dropped, logs); }
  }

  lemma NothingLogged(dir: Path, dropped: seq<Signature>, logs: Logs)
    requires logs.rollback == Log(Removals(dir, dropped))
    ensures dropped == [] ==> logs.rollback == []
  {
  }

  lemma RemovedOneMore(tree0: Tree, dir: Path, dropped: seq<Signature>, tree: Tree, sig: Signature, tree': Tree)
    requires NothingWaits(tree0, dir) && NoDup(dropped)
    requires forall i | 0 <= i < |dropped| :: IsSignature(dropped[i]) && BlobPath(dir, dropped[i]) in tree0
    requires DoAll(tree0, Removals(dir, dropped)) == Some(tree)
    requires sig !in dropped && IsSignature(sig) && BlobPath(dir, sig) in tree0
    requires BlobPath(dir, sig) in tree && tree' == Moved(tree, BlobPath(dir, sig), Tmp(BlobPath(dir, sig)))
    ensures DoAll(tree0, Removals(dir, dropped) + [Action.Remove(BlobPath(dir, sig))]) == Some(tree')
  {
    hide BlobPath, Tmp, IsSignature;
    AfterRemovals(tree0, dir, dropped);
    CleanRunSnoc(tree0, Removals(dir, dropped), Action.Remove(BlobPath(dir, sig)));
  }

  lemma FiledStill(tree0: Tree, dir: Path, dropped: seq<Signature>, logs: Logs, tree: Tree, s: Signature)
    requires NothingWaits(tree0, dir) && Filed(tree0, dir, dropped, logs, tree)
    requires s !in dropped && IsSignature(s) && BlobPath(dir, s) in tree0
    ensures BlobPath(dir, s) in tree
  {
    AfterRemovals(tree0, dir, dropped);
  }

  /** How the commit of a sweep ends. */
  lemma FiledEnds(tree0: Tree, dir: Path, dropped: seq<Signature>, logs: Logs, tree: Tree)
    requires NothingWaits(tree0, dir) && Filed(tree0, dir, dropped, logs, tree)
    ensures RunLog(tree, logs.rollback).1
    ensures var end := RunLog(tree, logs.commit);
            && end.1
            && (dropped == [] ==> end.0 == tree0)
            && (dropped != [] ==> end.0 == tree0 - {BlobPath(dir, dropped[|dropped| - 1])} ||
                                  (|dropped| > 1 && end.0 == tree0))
  {
    AfterRemovals(tree0, dir, dropped);
    RemovalsDisjoint(dir, dropped);
    RollbackRestores(tree0, Removals(dir, dropped));
    if dropped != [] {
      CommitRemovals(tree0, dir, dropped, logs.commit[|logs.commit| - 1]);
    }
  }

  /** What lies between two deletes of a sweep that began with `t0` and `tree0`. */
  ghost predicate Sweeping(t0: Tables, tree0: Tree, dir: Path, t: Tables, logs: Logs, tree: Tree, dropped: seq<Signature>) {
    && TtlSweep.Sound(t) && t.files.Keys <= t0.files.Keys
    && (forall i | 0 <= i < |dropped| :: dropped[i] in t0.files && dropped[i] !in t.files)
    && Filed(tree0, dir, dropped, logs, tree)
  }

  /** The two possible ends of the files are the two possible outcomes of the sweep. */
  lemma SweepEnds(v: Vol, rows: seq<seq<Signature>>, dir: Path, tree: Tree, tree': Tree)
    requires Inv(v) && NothingWaits(tree, dir) && v.blobs == ContentsOf(tree, dir)
    requires var dropped := Swept(v.tables, Flat(rows));
             && (dropped == [] ==> tree' == tree)
             && (dropped != [] ==> tree' == tree - {BlobPath(dir, dropped[|dropped| - 1])} ||
                                   (|dropped| > 1 && tree' == tree))
    ensures NothingWaits(tree', dir)
    ensures var t' := SweepTables(v.tables, Flat(rows));
            Vol(v.id, t', ContentsOf(tree', dir), v.lastKey) == Sweep(v, rows, false) ||
            Vol(v.id, t', ContentsOf(tree', dir), v.lastKey) == Sweep(v, rows, true)
  {
    hide BlobPath, ContentsOf, IsSignature, SweepTables, Swept, Flat;
    var dropped := Swept(v.tables, Flat(rows));
    SizesOfBlobs(v);
    TtlSweep.SweepTablesExactly(v.tables, Flat(rows));
    TtlSweep.SweptExactly(v.tables, Flat(rows));
    if dropped != [] {
      var last := dropped[|dropped| - 1];
      assert last in dropped && GoodRecord(last, v.tables.files[last]);
      Discarded(tree, dir, last);
    }
  }

  lemma InvStarts(v: Vol, tree: Tree, dir: Path)
    requires Inv(v) && NothingWaits(tree, dir) && v.blobs == ContentsOf(tree, dir)
    ensures SweepStart(v.tables, tree, dir) && TtlSweep.Sound(v.tables)
  {
    SizesOfBlobs(v);
    ContentsAre(tree, dir);
    forall s | s in v.tables.files
      ensures IsSignature(s) && BlobPath(dir, s) in tree
    {
      assert GoodRecord(s, v.tables.files[s]) && s in v.blobs;
    }
  }

  lemma SweepBegins(t0: Tables, tree0: Tree, dir: Path)
    requires TtlSweep.Sound(t0)
    ensures Sweeping(t0, tree0, dir, t0, NO_LOGS, tree0, [])
  {
    assert Removals(dir, []) == [];
  }

  lemma SweptNone()
    ensures forall t: Tables :: SweepTables(t, []) == t && Swept(t, []) == []
  {
  }

  lemma SweptFirst(t: Tables, sigs: seq<Signature>)
    requires sigs != []
    ensures var t1 := DeleteKeys(t, KeysOf(t, sigs[0]));
            && SweepTables(t, sigs) == SweepTables(t1, sigs[1..])
            && Swept(t, sigs) == (if sigs[0] in t.files then [sigs[0]] else []) + Swept(t1, sigs[1..])
  {
  }

  ghost predicate SweepStart(t0: Tables, tree0: Tree, dir: Path) {
    && NothingWaits(tree0, dir)
    && forall s | s in t0.files :: IsSignature(s) && BlobPath(dir, s) in tree0
  }

  class Volume {
    const id: VolumeID
    const fileDir: Path
    const tempDir: Path
    const disk: Disk
    const generator: KeyGenerator
    var tables: Tables

    /**
     * Opens the volume that lies under `root`, with the tables that its database holds. The generator of a new process
     * knows none of the keys in these tables.
     */
    constructor (id: VolumeID, root: Path, disk: Disk, generator: KeyGenerator, tables: Tables)
      requires Inv(Vol(id, tables, ContentsOf(disk.tree, root + ["file"]), generator.lastKey))
      requires BlobTree.NothingWaits(disk.tree, root + ["file"])
      ensures Valid() && this.id == id && this.disk == disk && this.generator == generator && this.tables == tables
      ensures fileDir == root + ["file"] && tempDir == root + ["tmps"]
    {
      this.id, this.disk, this.generator, this.tables := id, disk, generator, tables;
      fileDir, tempDir := root + ["file"], root + ["tmps"];
    }

    ghost function View(): Vol
      reads this, disk, generator
    {
      Vol(id, tables, ContentsOf(disk.tree, fileDir), generator.lastKey)
    }

    ghost predicate Valid()
      reads this, disk, generator
    {
      Inv(View()) && NothingWaits(disk.tree, fileDir)
    }

    /** The deferred end of a unit: commit or roll back the tables, then run the matching log of the tracker. */
    method End(uw: UnitOfWork, e: Result) returns (r: Result)
      requires uw.fs.fs == disk
      requires RunLog(disk.tree, uw.fs.rollbackActions).1
      requires e.Ok? ==> RunLog(disk.tree, uw.fs.commitActions).1
      modifies this, disk
      ensures r == e || (e.Ok? && r == Err(Fault) && uw.mayFail)
      ensures r.Ok? ==> tables == uw.t && disk.tree == RunLog(old(disk.tree), uw.fs.commitActions).0
      ensures r.Err? ==> tables == old(tables) && disk.tree == RunLog(old(disk.tree), uw.fs.rollbackActions).0
    {
      r := e;
      if r.Ok? {
        var committed := uw.Works();
        if committed {
          tables := uw.t;
        } else {
          r := Err(Fault);
        }
      }
      var done := uw.fs.Finish(r.Err?);
    }

    // -------------------------------------------------------------- CreateFile

    /** The record of the content, found or made, with the key and the own volume added; the size is charged once. */
    method StoreRecord(uw: UnitOfWork, a: Request) returns (e: Result, known: bool, row: FileRow)
      modifies uw
      ensures e.Ok? || (e == Err(Fault) && uw.mayFail) || (e == Err(TooLarge) && !Fits(old(uw.t), a))
      ensures e.Ok? ==> (known <==> Known(old(uw.t), a)) && Fits(old(uw.t), a)
      ensures e.Ok? && known ==> uw.t == old(uw.t)
      ensures e.Ok? && !known ==>
                row == StoredFile(old(uw.t), id, a) &&
                uw.t == old(uw.t).(files := old(uw.t.files)[row.signature := row],
                                   state := if a.sig in old(uw.t.files) then old(uw.t.state)
                                            else Used(old(uw.t.state), |a.content|))
    {
      e, known := Err(Fault), false;
      row := FileRow([a.key], a.sig, a.replica, [], |a.content|, a.ttl, a.CreatedAt());
      var ok, dbf := uw.FindFile(a.sig);
      if !ok { return; }
      if dbf != null {
        known := Holds(dbf.keys, a.key);
        if known {
          e := Ok;
          return;
        }
        dbf.keys := dbf.keys + [a.key];
        row := dbf.Row();
      } else {
        var found, st := uw.FindState();
        if !found { return; }
        var fits := st.Use(row.size);
        if !fits {
          e := Err(TooLarge);
          return;
        }
        ok := uw.PutState(st.Row());
        if !ok { return; }
      }
      row := row.(volumeIDs := row.volumeIDs + [id]);
      ok := uw.PutFile(row);
      if !ok { return; }
      e := Ok;
    }

    method Holds(keys: seq<Key>, key: Key) returns (ok: bool)
      ensures ok <==> key in keys
    {
      ok := false;
      for i := 0 to |keys|
        invariant ok <==> key in keys[..i]
      {
        if keys[i] == key {
          ok := true;
        }
      }
      assert keys[..|keys|] == keys;
    }

    /** A key that was bound before is taken from its former record; a record left without keys is dropped. */
    method TakeKey(uw: UnitOfWork, key: Key) returns (ok: bool)
      requires uw.fs.fs == disk
      requires Named(uw.t, disk.tree, fileDir, key)
      modifies uw, uw.fs, disk
      ensures ok || uw.mayFail
      ensures ok ==> uw.t == Unlisted(old(uw.t), key)
      ensures ok ==> RemovedAtMost(old(uw.fs.View()), old(disk.tree), uw.fs.View(), disk.tree,
                       if key in old(uw.t.idxkeys) then BlobPath(fileDir, old(uw.t.idxkeys)[key]) else [],
                       LastKeyOf(old(uw.t), key))
      ensures !ok ==> RemovedAtMost(old(uw.fs.View()), old(disk.tree), uw.fs.View(), disk.tree, [], false) ||
                      (key in old(uw.t.idxkeys) &&
                       RemovedAtMost(old(uw.fs.View()), old(disk.tree), uw.fs.View(), disk.tree,
                                     BlobPath(fileDir, old(uw.t.idxkeys)[key]), true))
    {
      var ik;
      ok, ik := uw.FindKey(key);
      if !ok || ik.None? { return; }
      var dbf;
      ok, dbf := uw.FindFile(ik.value);
      if !ok { return; }
      var newKeys := NewKeys(dbf.keys, key);
      if |newKeys| == 0 {
        ok := uw.DeleteFileBySignature(ik.value);
        if !ok { return; }
        var p := ComputePath(fileDir, ik.value);
        ok := uw.fs.Remove(p);
        if !ok { return; }
        ok := uw.DeleteKey(key);
      } else {
        dbf.keys := newKeys;
        ok := uw.PutFile(dbf.Row());
      }
    }

    /** The signature joins the row of the second in which its record expires. */
    method Schedule(uw: UnitOfWork, f: FileRow, ttl: int) returns (ok: bool)
      modifies uw
      ensures ok || uw.mayFail
      ensures ok ==> uw.t == Expiring(old(uw.t), f, ttl)
    {
      ok := true;
      if ttl != NO_TTL {
        var at := f.createdAt + f.ttl;
        var row;
        ok, row := uw.FindTTL(at);
        if !ok { return; }
        if row == null {
          row := new IDXTTL(at, []);
        }
        row.AddSignatures([f.signature]);
        ok := uw.PutTTL(row);
      }
    }

    method Enlist(uw: UnitOfWork, a: Request, sig: Signature) returns (ok: bool)
      requires uw.generator == generator
      modifies uw, generator
      ensures ok || uw.mayFail
      ensures ok ==> (uw.t, generator.lastKey) == Enlisted(old(uw.t), id, old(generator.lastKey), a, sig)
      ensures ok && a.replica >= 2 ==>
                exists e :: e in uw.t.replicas && e.volumeReplicaID == generator.lastKey && e.key == a.key &&
                            e.signature == sig && e.count == a.replica - 1 && e.originalCount == a.replica &&
                            e.volumeIDs == [id] && e.ttl == a.ttl &&
                            e.createdAt == if a.createdAt == ZERO_TIME then a.now else a.createdAt
      ensures generator.lastKey >= old(generator.lastKey)
    {
      ok := true;
      var rep := a.replica - 1;
      if rep >= 1 {
        var rp := Replica(a.uuid, rep + 1, rep, a.key, sig, id, [id], 0, a.ttl, a.CreatedAt());
        ok := uw.CreateReplica(rp, a.tick);
      }
    }

    /** The function that `CreateFile` gives to its unit of work. */
    method CreateBody(uw: UnitOfWork, a: Request) returns (e: Result)
      requires uw.fs.fs == disk && uw.fs.View() == NO_LOGS && uw.generator == generator
      requires Named(uw.t, disk.tree, fileDir, a.key)
      requires a.sig in uw.t.files ==> uw.t.files[a.sig].signature == a.sig
      modifies uw, uw.fs, disk, generator
      ensures e.Ok? || e == Err(TooLarge) || (e == Err(Fault) && uw.mayFail)
      ensures CreateBodyDone(old(uw.t), id, old(generator.lastKey), a, fileDir, old(disk.tree),
                             e, uw.t, generator.lastKey, uw.fs.View(), disk.tree)
    {
      hide BlobPath, IsSignature, Without, Enqueue;
      ghost var t := uw.t;
      var known, f;
      e, known, f := StoreRecord(uw, a);
      if e.Err? || known { return; }
      assert f.signature == a.sig && uw.t == WithRecord(t, id, a);
      if a.key in uw.t.idxkeys {
        assert uw.t.idxkeys[a.key] in t.files && uw.t.idxkeys[a.key] != a.sig;
      }
      hide WithRecord, StoredFile;
      e := Err(Fault);
      var ok := TakeKey(uw, a.key);
      if !ok { return; }
      ok := uw.PutKey(a.key, f.signature);
      if !ok { return; }
      assert uw.t == Rebound(t, id, a);
      ok := Plan(uw, a, f);
      if !ok { return; }
      e := Ok;
    }

    /** The last steps of a create: when the content expires, and which copies are missing. */
    method Plan(uw: UnitOfWork, a: Request, f: FileRow) returns (ok: bool)
      requires uw.generator == generator
      modifies uw, generator
      ensures ok || uw.mayFail
      ensures ok ==> (uw.t, generator.lastKey) ==
                     Enlisted(Expiring(old(uw.t), f, a.ttl), id, old(generator.lastKey), a, f.signature)
      ensures generator.lastKey >= old(generator.lastKey)
    {
      ok := Schedule(uw, f, a.ttl);
      if !ok { return; }
      ok := Enlist(uw, a, f.signature);
    }

    /** The bytes are written to a temporary file, which is then renamed to the path of their signature. */
    method Place(a: Request, name: string)
      requires IsSignature(a.sig) && tempDir + [name] !in disk.tree
      modifies disk
      ensures disk.tree == old(disk.tree)[BlobPath(fileDir, a.sig) := a.content]
      ensures ContentsOf(disk.tree, fileDir) == ContentsOf(old(disk.tree), fileDir)[a.sig := a.content]
      ensures BlobTree.NothingWaits(old(disk.tree), fileDir) ==> BlobTree.NothingWaits(disk.tree, fileDir)
    {
      var tmp := tempDir + [name];
      disk.Create(tmp, a.content);
      var p := ComputePath(fileDir, a.sig);
      var placed := disk.Rename(tmp, p);
      assert disk.tree == old(disk.tree)[p := a.content];
      Installed(old(disk.tree), fileDir, a.sig, a.content);
      if BlobTree.NothingWaits(old(disk.tree), fileDir) {
        InstalledWaits(old(disk.tree), fileDir, a.sig, a.content);
      }
    }

    /** The unit of work of a request whose content is in its place; `v` is the volume as the call found it. */
    method CreateUnit(ghost v: Vol, a: Request, mayFail: bool) returns (r: Result)
      requires v.id == id && v.tables == tables && v.lastKey == generator.lastKey
      requires Named(tables, disk.tree, fileDir, a.key)
      requires a.sig in tables.files ==> tables.files[a.sig].signature == a.sig
      requires ContentsOf(disk.tree, fileDir) == v.blobs[a.sig := a.content]
      requires BlobTree.NothingWaits(disk.tree, fileDir)
      modifies this, disk, generator
      ensures r == Err(Fault) ==> mayFail && tables == v.tables && disk.tree == old(disk.tree)
      ensures r != Err(Fault) ==> (View(), r) == VolumeSpec.CreateFile(v, a)
      ensures BlobTree.NothingWaits(disk.tree, fileDir) && generator.lastKey >= v.lastKey
    {
      hide BlobPath, ContentsOf;
      ghost var tree := disk.tree;
      var uw := new UnitOfWork(tables, generator, disk, mayFail);
      var e := CreateBody(uw, a);
      CreateEnds(v, a, fileDir, tree, e, uw.t, generator.lastKey, uw.fs.View(), disk.tree);
      r := End(uw, e);
    }

    /**
     * Storing a content under a key. The content is put in its place first; then tables and files change together or
     * not at all, wherever the database fails. Without such a fault the outcome is exactly the specified one.
     */
    method CreateFile(a: Request, name: string, mayFail: bool) returns (r: Result)
      requires Valid() && IsSignature(a.sig)
      requires tempDir + [name] !in disk.tree
      modifies this, disk, generator
      ensures Valid()
      ensures r == Err(Fault) ==> mayFail && generator.lastKey >= old(generator.lastKey)
      ensures r == Err(Fault) ==>
                View() == old(View()).(blobs := old(View()).blobs[a.sig := a.content], lastKey := generator.lastKey)
      ensures r != Err(Fault) ==> (View(), r) == VolumeSpec.CreateFile(old(View()), a)
    {
      hide BlobPath, ContentsOf;
      ghost var v := View();
      Place(a, name);
      InvNamed(v, disk.tree, fileDir, a.key);
      assert a.sig in tables.files ==> GoodRecord(a.sig, tables.files[a.sig]);
      r := CreateUnit(v, a, mayFail);
      if r == Err(Fault) {
        PlacedKeepsInv(v, a, generator.lastKey);
      } else {
        CreateKeepsInv(v, a);
      }
    }

    // -------------------------------------------------------------- GetFile, HasFile, DeleteFile

    /** A bound key reads its content; the only other answer is that the key is not there. */
    method GetFile(key: Key, mayFail: bool) returns (r: Result, content: Bytes)
      requires Valid()
      ensures r.Ok? ==> VolumeSpec.GetFile(View(), key) == Some(content)
      ensures r == Err(NotFound) ==> VolumeSpec.GetFile(View(), key) == None
      ensures r.Ok? || r == Err(NotFound) || (r == Err(Fault) && mayFail)
    {
      r, content := Err(Fault), [];
      var uw := new UnitOfWork(tables, generator, disk, mayFail);
      var ok, idk := uw.FindKey(key);
      if !ok { return; }
      if idk.None? {
        return Err(NotFound), [];
      }
      assert idk.value in View().tables.files && idk.value in View().blobs;
      ContentsAre(disk.tree, fileDir);
      var p := ComputePath(fileDir, idk.value);
      r, content := Ok, disk.tree[p];
    }

    method HasFile(key: Key, mayFail: bool) returns (r: Result, vid: VolumeID, has: bool)
      ensures r.Ok? ==> (vid, has) == VolumeSpec.HasFile(View(), key)
      ensures r.Ok? || (r == Err(Fault) && mayFail && !has)
    {
      r, vid, has := Err(Fault), "", false;
      var uw := new UnitOfWork(tables, generator, disk, mayFail);
      var ok, idk := uw.FindKey(key);
      if !ok { return; }
      r := Ok;
      if idk.Some? {
        vid, has := id, true;
      }
    }

    /** A record without keys goes, with its file, and gives its size back. */
    method DropRecord(uw: UnitOfWork, sig: Signature, size: int) returns (e: Result)
      requires uw.fs.fs == disk && BlobPath(fileDir, sig) in disk.tree
      modifies uw, uw.fs, disk
      ensures e.Ok? || (e == Err(Fault) && uw.mayFail) || (e == Err(TooLarge) && !CanStore(old(uw.t.state), -size))
      ensures e.Ok? ==> CanStore(old(uw.t.state), -size) &&
                        uw.t == old(uw.t).(files := old(uw.t.files) - {sig}, state := Used(old(uw.t.state), -size))
      ensures RemovedAtMost(old(uw.fs.View()), old(disk.tree), uw.fs.View(), disk.tree, BlobPath(fileDir, sig), true) ||
              (e.Err? && RemovedAtMost(old(uw.fs.View()), old(disk.tree), uw.fs.View(), disk.tree, [], false))
    {
      e := Err(Fault);
      var ok := uw.DeleteFileBySignature(sig);
      if !ok { return; }
      var p := ComputePath(fileDir, sig);
      ok := uw.fs.Remove(p);
      if !ok { return; }
      var st;
      ok, st := uw.FindState();
      if !ok { return; }
      var fits := st.Use(-size);
      if !fits {
        return Err(TooLarge);
      }
      ok := uw.PutState(st.Row());
      if !ok { return; }
      e := Ok;
    }

    /** The function that deletes one key inside a unit of work, for a delete request and for every swept key. */
    method DeleteBody(uw: UnitOfWork, key: Key) returns (e: Result)
      requires uw.fs.fs == disk
      requires Named(uw.t, disk.tree, fileDir, key)
      modifies uw, uw.fs, disk
      ensures e == Err(Fault) ==> uw.mayFail
      ensures DeleteBodyDone(old(uw.t), key, fileDir, old(uw.fs.View()), old(disk.tree),
                             e, uw.t, uw.fs.View(), disk.tree)
    {
      e := Err(Fault);
      var ok, ik := uw.FindKey(key);
      if !ok { return; }
      if ik.None? {
        return Err(NotFound);
      }
      var dbf;
      ok, dbf := uw.FindFile(ik.value);
      if !ok { return; }
      var newKeys := NewKeys(dbf.keys, key);
      if |newKeys| == 0 {
        e := DropRecord(uw, ik.value, dbf.size);
        if e.Err? { return; }
        e := Err(Fault);
      } else {
        dbf.keys := newKeys;
        ok := uw.PutFile(dbf.Row());
        if !ok { return; }
      }
      ok := uw.DeleteKey(key);
      if !ok { return; }
      e := Ok;
    }

    /** Deleting a key: tables and file change together or not at all, wherever the database fails. */
    method DeleteFile(key: Key, mayFail: bool) returns (r: Result)
      requires Valid()
      modifies this, disk
      ensures Valid()
      ensures r == Err(Fault) ==> mayFail && View() == old(View()) && disk.tree == old(disk.tree)
      ensures r != Err(Fault) ==> (View(), r) == VolumeSpec.DeleteFile(old(View()), key)
    {
      hide BlobPath, ContentsOf;
      ghost var v := View();
      InvNamed(v, disk.tree, fileDir, key);
      DeleteRefines(v, key);
      r := DeleteUnit(v, key, mayFail);
    }

    method DeleteUnit(ghost v: Vol, key: Key, mayFail: bool) returns (r: Result)
      requires v.id == id && v.tables == tables && v.lastKey == generator.lastKey
      requires v.blobs == ContentsOf(disk.tree, fileDir)
      requires Named(tables, disk.tree, fileDir, key)
      requires BlobTree.NothingWaits(disk.tree, fileDir)
      requires DeleteTables(tables, key).1 != Err(TooLarge)
      modifies this, disk
      ensures BlobTree.NothingWaits(disk.tree, fileDir)
      ensures r == Err(Fault) ==> mayFail && tables == v.tables && disk.tree == old(disk.tree)
      ensures r != Err(Fault) ==> (View(), r) == VolumeSpec.DeleteFile(v, key)
    {
      hide BlobPath, ContentsOf;
      ghost var tree := disk.tree;
      var uw := new UnitOfWork(tables, generator, disk, mayFail);
      var e := DeleteBody(uw, key);
      DeleteEnds(v, fileDir, tree, key, e, uw.t, uw.fs.View(), disk.tree);
      r := End(uw, e);
    }

    // -------------------------------------------------------------- Replicas

    /** The deferred end of a unit without a file tree. */
    method EndTables(uw: UnitOfWork, e: Result) returns (r: Result)
      modifies this
      ensures r == e || (e.Ok? && r == Err(Fault) && uw.mayFail)
      ensures tables == if r.Ok? then uw.t else old(tables)
    {
      r := e;
      if r.Ok? {
        var committed := uw.Works();
        if committed {
          tables := uw.t;
        } else {
          r := Err(Fault);
        }
      }
    }

    method NextReplica(mayFail: bool) returns (r: Result, rp: Option<Replica>)
      ensures r.Ok? ==> rp.Some? && rp == VolumeSpec.NextReplica(View())
      ensures r == Err(NotFound) ==> VolumeSpec.NextReplica(View()) == None
      ensures r.Ok? || r == Err(NotFound) || (r == Err(Fault) && mayFail)
    {
      r, rp := Err(Fault), None;
      var uw := new UnitOfWork(tables, generator, disk, mayFail);
      var ok := uw.Works();
      if !ok { return; }
      if uw.t.replicas == [] {
        return Err(NotFound), None;
      }
      r, rp := Ok, Some(uw.t.replicas[0]);
    }

    /** The signature joins the index row of the volume, which is made when it is missing. */
    method AddToIndex(uw: UnitOfWork, vid: VolumeID, sig: Signature) returns (ok: bool)
      modifies uw
      ensures ok || uw.mayFail
      ensures ok ==> uw.t == old(uw.t).(idxvolumes := Indexed(old(uw.t.idxvolumes), vid, sig))
    {
      var idxv;
      ok, idxv := uw.FindVolume(vid);
      if !ok { return; }
      if idxv == null {
        idxv := new IDXVolume(vid, []);
      }
      idxv.AddSignature(sig);
      ok := uw.PutVolume(idxv);
    }

    method UpdateReplicaBody(uw: UnitOfWork, rp: Replica, vid: VolumeID, tick: int) returns (e: Result)
      requires uw.generator == generator && rp.signature != "" && rp.originalCount != 0
      modifies uw, generator
      ensures e.Ok? || (e == Err(Fault) && uw.mayFail) || e == Err(NotFound)
      ensures e == Err(NotFound) ==> rp.signature !in old(uw.t.files) && generator.lastKey == old(generator.lastKey)
      ensures generator.lastKey >= old(generator.lastKey)
      ensures e.Ok? ==> var v := Vol(id, old(uw.t), map[], old(generator.lastKey));
                        VolumeSpec.UpdateReplica(v, rp, vid, tick) == (Vol(id, uw.t, map[], generator.lastKey), Ok)
    {
      e := Err(Fault);
      var ok, f := uw.FindFile(rp.signature);
      if !ok { return; }
      if f == null {
        return Err(NotFound);
      }
      f.volumeIDs := f.volumeIDs + [vid];
      f.replica := rp.originalCount;
      ok := AddToIndex(uw, vid, f.signature);
      if !ok { return; }
      ok := uw.PutFile(f.Row());
      if !ok { return; }
      ok := uw.DeleteReplica(rp);
      if !ok { return; }
      var next := rp.(count := rp.count - 1);
      if next.count > 0 {
        ok := uw.CreateReplica(next, tick);
        if !ok { return; }
      }
      e := Ok;
    }

    /** Noting that `vid` holds a new copy; the entry is put back while more copies are missing. */
    method UpdateReplica(rp: Replica, vid: VolumeID, tick: int, mayFail: bool) returns (r: Result)
      requires Valid()
      modifies this, generator
      ensures Valid()
      ensures r == Err(Fault) ==> mayFail && tables == old(tables) && generator.lastKey >= old(generator.lastKey)
      ensures r != Err(Fault) ==> (View(), r) == VolumeSpec.UpdateReplica(old(View()), rp, vid, tick)
      ensures r == Err(SignatureRequired) <==> rp.signature == ""
      ensures r == Err(OriginalCountRequired) <==> rp.signature != "" && rp.originalCount == 0
      ensures r == Err(NotFound) ==> rp.signature !in old(tables.files)
      ensures r.Err? ==> tables == old(tables)
    {
      hide BlobPath, ContentsOf;
      if rp.signature == "" {
        return Err(SignatureRequired);
      }
      if rp.originalCount == 0 {
        return Err(OriginalCountRequired);
      }
      ghost var v := View();
      var uw := new UnitOfWork(tables, generator, disk, mayFail);
      var e := UpdateReplicaBody(uw, rp, vid, tick);
      r := EndTables(uw, e);
      if r.Err? {
        DrawnKeysKeep(v, generator.lastKey);
      } else {
        UpdateReplicaKeeps(v, rp, vid, tick);
      }
    }

    method UpdateFileReplicaBody(uw: UnitOfWork, key: Key, vids: seq<VolumeID>, replica: int) returns (e: Result)
      modifies uw
      ensures e == Err(Fault) ==> uw.mayFail
      ensures e == Err(OwnIDMissing) <==> id !in vids
      ensures e != Err(Fault) ==>
                var r := VolumeSpec.UpdateFileReplica(Vol(id, old(uw.t), map[], 0), key, vids, replica);
                e == r.1 && uw.t == r.0.tables
    {
      e := Err(Fault);
      var found := Holds(vids, id);
      if !found {
        return Err(OwnIDMissing);
      }
      var ok, ik := uw.FindKey(key);
      if !ok { return; }
      if ik.None? {
        return Err(NotFound);
      }
      var f;
      ok, f := uw.FindFile(ik.value);
      if !ok { return; }
      if f == null {
        return Err(NotFound);
      }
      ghost var t := uw.t;
      for i := 0 to |vids|
        invariant uw.t == t.(idxvolumes := IndexedAll(t.idxvolumes, vids[..i], id, f.signature))
        invariant fresh(f) && f.Row() == t.files[ik.value]
      {
        assert vids[..i + 1][..i] == vids[..i];
        if vids[i] == id {
          continue;
        }
        ok := AddToIndex(uw, vids[i], f.signature);
        if !ok { return; }
      }
      assert vids[..|vids|] == vids;
      f.volumeIDs, f.replica := vids, replica;
      ok := uw.PutFile(f.Row());
      if !ok { return; }
      e := Ok;
    }

    /** The list of volumes of a file is replaced, and the signature indexed under each of them. */
    method UpdateFileReplica(key: Key, vids: seq<VolumeID>, replica: int, mayFail: bool) returns (r: Result)
      requires Valid()
      modifies this
      ensures Valid()
      ensures r == Err(Fault) ==> mayFail && tables == old(tables)
      ensures r != Err(Fault) ==> (View(), r) == VolumeSpec.UpdateFileReplica(old(View()), key, vids, replica)
      ensures r == Err(OwnIDMissing) <==> id !in vids
      ensures r == Err(NotFound) ==> key !in old(tables.idxkeys)
      ensures r.Err? ==> tables == old(tables)
    {
      hide BlobPath, ContentsOf;
      ghost var v := View();
      assert key in v.tables.idxkeys ==> v.tables.idxkeys[key] in v.tables.files;
      var uw := new UnitOfWork(tables, generator, disk, mayFail);
      var e := UpdateFileReplicaBody(uw, key, vids, replica);
      r := EndTables(uw, e);
      if r.Ok? {
        UpdateFileReplicaKeeps(v, key, vids, replica);
      }
    }

    /** One signature of a lost volume: the first of the remaining volumes queues the missing copies. */
    method SynchronizeOne(uw: UnitOfWork, vid: VolumeID, sig: Signature, uuid: string, tick: int) returns (e: Result)
      requires uw.generator == generator
      requires sig in uw.t.files ==> Without(uw.t.files[sig].volumeIDs, vid) != [] && uw.t.files[sig].keys != []
      modifies uw, generator
      ensures e.Ok? || (e == Err(Fault) && uw.mayFail) || (e == Err(NotFound) && sig !in old(uw.t.files))
      ensures generator.lastKey >= old(generator.lastKey)
      ensures e == Err(NotFound) ==> generator.lastKey == old(generator.lastKey)
      ensures e.Ok? ==>
                var t, q := old(uw.t), Queue(old(uw.t.replicas), old(generator.lastKey));
                && sig in t.files
                && uw.t == t.(replicas := uw.t.replicas)
                && Queue(uw.t.replicas, generator.lastKey) ==
                   if Heads(t.files[sig], id, vid)
                   then Queued(q, RepairEntry(t.files[sig], id, Without(t.files[sig].volumeIDs, vid), uuid), tick)
                   else q
    {
      e := Err(Fault);
      var ok, f := uw.FindFile(sig);
      if !ok { return; }
      if f == null {
        return Err(NotFound);
      }
      f.DeleteVolumeID(vid);
      if f.volumeIDs[0] == id {
        var numOfReplicasMissing := f.replica - |f.volumeIDs|;
        var rp := Replica(uuid, f.replica, numOfReplicasMissing, f.keys[0], f.signature, id, f.volumeIDs, 0, 0, ZERO_TIME);
        ok := uw.CreateReplica(rp, tick);
        if !ok { return; }
      }
      e := Ok;
    }

    method SynchronizeBody(uw: UnitOfWork, vid: VolumeID, uuids: seq<string>, ticks: seq<int>) returns (e: Result)
      requires uw.generator == generator
      requires forall s | s in SignaturesFor(uw.t.idxvolumes, vid) && s in uw.t.files ::
                 Without(uw.t.files[s].volumeIDs, vid) != [] && uw.t.files[s].keys != []
      modifies uw, generator
      ensures e.Ok? || e == Err(NotFound) || (e == Err(Fault) && uw.mayFail)
      ensures generator.lastKey >= old(generator.lastKey)
      ensures e != Err(Fault) ==>
                var r := VolumeSpec.SynchronizeReplicas(Vol(id, old(uw.t), map[], old(generator.lastKey)), vid, uuids, ticks);
                && e == r.1 && generator.lastKey == r.0.lastKey
                && (e.Ok? ==> uw.t == r.0.tables)
    {
      e := Err(Fault);
      var ok, idxvol := uw.FindVolume(vid);
      if !ok { return; }
      if idxvol == null {
        return Err(NotFound);
      }
      var sigs := idxvol.signatures;
      ghost var t, q := uw.t, Queue(uw.t.replicas, generator.lastKey);
      for i := 0 to |sigs|
        invariant uw.t == t.(replicas := uw.t.replicas)
        invariant generator.lastKey >= q.lastKey
        invariant SyncLoop(t, id, vid, sigs[..i], q, uuids, ticks) == (Queue(uw.t.replicas, generator.lastKey), true)
      {
        ghost var before := Queue(uw.t.replicas, generator.lastKey);
        e := SynchronizeOne(uw, vid, sigs[i], At(uuids, i, ""), At(ticks, i, 0));
        assert sigs[..i + 1][..i] == sigs[..i];
        if e.Err? {
          if e == Err(NotFound) {
            assert SyncLoop(t, id, vid, sigs[..i + 1], q, uuids, ticks) == (before, false);
            SyncStops(t, id, vid, sigs, i + 1, q, uuids, ticks);
          }
          return;
        }
      }
      assert sigs[..|sigs|] == sigs;
      e := Ok;
    }

    /**
     * What the volume does when the volume `vid` is gone. A list that only names a volume that is told of its own loss
     * would be read past its end; no list of a foreign volume is ever found empty. A signature without a record takes
     * back the whole call.
     */
    method SynchronizeReplicas(vid: VolumeID, uuids: seq<string>, ticks: seq<int>, mayFail: bool) returns (r: Result)
      requires Valid()
      requires vid == id ==> forall s | s in SignaturesFor(tables.idxvolumes, id) && s in tables.files ::
                               exists w :: w in tables.files[s].volumeIDs && w != id
      modifies this, generator
      ensures Valid()
      ensures r == Err(Fault) ==> mayFail && tables == old(tables) && generator.lastKey >= old(generator.lastKey)
      ensures r != Err(Fault) ==> (View(), r) == VolumeSpec.SynchronizeReplicas(old(View()), vid, uuids, ticks)
    {
      hide BlobPath, ContentsOf;
      ghost var v := View();
      forall s | s in SignaturesFor(tables.idxvolumes, vid) && s in tables.files
        ensures Without(tables.files[s].volumeIDs, vid) != [] && tables.files[s].keys != []
      {
        assert GoodRecord(s, tables.files[s]);
        var w :| w in tables.files[s].volumeIDs && w != vid;
        assert w in Without(tables.files[s].volumeIDs, vid);
      }
      var uw := new UnitOfWork(tables, generator, disk, mayFail);
      var e := SynchronizeBody(uw, vid, uuids, ticks);
      r := EndTables(uw, e);
      if r.Ok? {
        SynchronizeKeeps(v, vid, uuids, ticks);
      } else {
        DrawnKeysKeep(v, generator.lastKey);
      }
    }

    // -------------------------------------------------------------- The sweep of expired signatures

    /** The keys that a record listed when it was read are deleted one after the other; the last delete drops it. */
    method SweepKeys(uw: UnitOfWork, sig: Signature, keys: seq<Key>,
                     ghost t0: Tables, ghost tree0: Tree, ghost dropped: seq<Signature>)
      requires uw.fs.fs == disk && !uw.mayFail && SweepStart(t0, tree0, fileDir)
      requires Sweeping(t0, tree0, fileDir, uw.t, uw.fs.View(), disk.tree, dropped)
      requires sig in uw.t.files && keys == uw.t.files[sig].keys
      modifies uw, uw.fs, disk
      ensures uw.t == DeleteKeys(old(uw.t), keys) && sig !in uw.t.files
      ensures Sweeping(t0, tree0, fileDir, uw.t, uw.fs.View(), disk.tree, dropped + [sig])
    {
      hide BlobPath, ContentsOf, DeleteTables;
      ghost var t := uw.t;
      TtlSweep.DeleteListedKeys(t, sig, keys);
      for i := 0 to |keys|
        invariant DeleteKeys(uw.t, keys[i..]) == DeleteKeys(t, keys)
        invariant i < |keys| ==> sig in uw.t.files && uw.t.files[sig].keys == keys[i..] && sig !in dropped
        invariant i < |keys| ==> Sweeping(t0, tree0, fileDir, uw.t, uw.fs.View(), disk.tree, dropped)
        invariant i == |keys| ==> Sweeping(t0, tree0, fileDir, uw.t, uw.fs.View(), disk.tree, dropped + [sig])
      {
        SweepKey(uw, sig, t0, tree0, dropped);
        assert keys[i..][0] == keys[i] && keys[i..][1..] == keys[i + 1..];
      }
      assert keys[|keys|..] == [];
    }

    /** Deletes the first key that the record of `sig` still lists. */
    method SweepKey(uw: UnitOfWork, sig: Signature,
                    ghost t0: Tables, ghost tree0: Tree, ghost dropped: seq<Signature>)
      requires uw.fs.fs == disk && !uw.mayFail && SweepStart(t0, tree0, fileDir)
      requires Sweeping(t0, tree0, fileDir, uw.t, uw.fs.View(), disk.tree, dropped)
      requires sig in uw.t.files && uw.t.files[sig].keys != []
      modifies uw, uw.fs, disk
      ensures uw.t == DeleteTables(old(uw.t), old(uw.t.files)[sig].keys[0]).0
      ensures |old(uw.t.files)[sig].keys| > 1 ==>
                && sig in uw.t.files && uw.t.files[sig].keys == old(uw.t.files)[sig].keys[1..]
                && Sweeping(t0, tree0, fileDir, uw.t, uw.fs.View(), disk.tree, dropped)
      ensures |old(uw.t.files)[sig].keys| == 1 ==>
                Sweeping(t0, tree0, fileDir, uw.t, uw.fs.View(), disk.tree, dropped + [sig])
    {
      hide BlobPath, ContentsOf, Filed, Slack, Quota, Freed;
      ghost var t, logs, tree := uw.t, uw.fs.View(), disk.tree;
      var k := uw.t.files[sig].keys[0];
      assert k in t.files[sig].keys && GoodRecord(sig, t.files[sig]);
      TtlSweep.DeleteOne(t, k);
      FreedShape(t, k);
      TtlSweep.WithoutFirst(t.files[sig].keys);
      FiledStill(tree0, fileDir, dropped, logs, tree, sig);
      var e := DeleteBody(uw, k);
      if |t.files[sig].keys| == 1 {
        assert t.files[sig].keys == [k];
        FiledOneMore(tree0, fileDir, dropped, logs, tree, sig, uw.fs.View(), disk.tree);
      }
    }

    /** One listed signature; one without a record is passed over. */
    method SweepSignature(uw: UnitOfWork, sig: Signature,
                          ghost t0: Tables, ghost tree0: Tree, ghost dropped: seq<Signature>)
      requires uw.fs.fs == disk && !uw.mayFail && SweepStart(t0, tree0, fileDir)
      requires Sweeping(t0, tree0, fileDir, uw.t, uw.fs.View(), disk.tree, dropped)
      modifies uw, uw.fs, disk
      ensures uw.t == DeleteKeys(old(uw.t), KeysOf(old(uw.t), sig))
      ensures Sweeping(t0, tree0, fileDir, uw.t, uw.fs.View(), disk.tree,
                       dropped + if sig in old(uw.t.files) then [sig] else [])
    {
      var ok, dbf := uw.FindFile(sig);
      if dbf == null {
        assert dropped + [] == dropped;
        return;
      }
      SweepKeys(uw, sig, dbf.keys, t0, tree0, dropped);
    }

    /** The body of one tick: every signature of every expired row, all in one unit of work, on a working database. */
    method SweepExpired(ttls: seq<IDXTTL>, ghost rows: seq<seq<Signature>>)
      requires Valid()
      requires |rows| == |ttls| && forall i | 0 <= i < |ttls| :: ttls[i].signatures == rows[i]
      modifies this, disk
      ensures Valid()
      ensures View() == Sweep(old(View()), rows, false) || View() == Sweep(old(View()), rows, true)
    {
      hide BlobPath, ContentsOf;
      ghost var v, tree := View(), disk.tree;
      InvStarts(v, tree, fileDir);
      var uw := new UnitOfWork(tables, generator, disk, false);
      ghost var dropped := SweepRows(uw, ttls, rows, tables, tree);
      FiledEnds(tree, fileDir, dropped, uw.fs.View(), disk.tree);
      var r := End(uw, Ok);
      SweepEnds(v, rows, fileDir, tree, disk.tree);
      TtlSweep.SweepRefines(v, rows, false);
      TtlSweep.SweepRefines(v, rows, true);
    }

    method SweepRows(uw: UnitOfWork, ttls: seq<IDXTTL>, ghost rows: seq<seq<Signature>>,
                     ghost t0: Tables, ghost tree0: Tree)
      returns (ghost dropped: seq<Signature>)
      requires uw.fs.fs == disk && !uw.mayFail && uw.fs.View() == NO_LOGS && uw.t == t0 && disk.tree == tree0
      requires SweepStart(t0, tree0, fileDir) && TtlSweep.Sound(t0)
      requires |rows| == |ttls| && forall i | 0 <= i < |ttls| :: ttls[i].signatures == rows[i]
      modifies uw, uw.fs, disk
      ensures uw.t == SweepTables(t0, Flat(rows)) && dropped == Swept(t0, Flat(rows))
      ensures Sweeping(t0, tree0, fileDir, uw.t, uw.fs.View(), disk.tree, dropped)
    {
      hide BlobPath, ContentsOf, Sweeping, SweepStart, TtlSweep.Sound, SweepTables, Swept;
      SweptNone();
      dropped := [];
      SweepBegins(t0, tree0, fileDir);
      assert rows[0..] == rows;
      for i := 0 to |ttls|
        invariant Sweeping(t0, tree0, fileDir, uw.t, uw.fs.View(), disk.tree, dropped)
        invariant SweepTables(uw.t, Flat(rows[i..])) == SweepTables(t0, Flat(rows))
        invariant dropped + Swept(uw.t, Flat(rows[i..])) == Swept(t0, Flat(rows))
      {
        assert rows[i..][1..] == rows[i + 1..];
        ghost var before := dropped;
        ghost var more := SweepRow(uw, ttls[i].signatures, Flat(rows[i + 1..]), t0, tree0, dropped);
        dropped := dropped + more;
        assert before + (more + Swept(uw.t, Flat(rows[i + 1..]))) == dropped + Swept(uw.t, Flat(rows[i + 1..]));
      }
      assert rows[|rows|..] == [];
    }

    /** The signatures of one row; `after` are those of the rows that follow. */
    method SweepRow(uw: UnitOfWork, sigs: seq<Signature>, ghost after: seq<Signature>,
                    ghost t0: Tables, ghost tree0: Tree, ghost dropped: seq<Signature>)
      returns (ghost more: seq<Signature>)
      requires uw.fs.fs == disk && !uw.mayFail && SweepStart(t0, tree0, fileDir)
      requires Sweeping(t0, tree0, fileDir, uw.t, uw.fs.View(), disk.tree, dropped)
      modifies uw, uw.fs, disk
      ensures Sweeping(t0, tree0, fileDir, uw.t, uw.fs.View(), disk.tree, dropped + more)
      ensures SweepTables(uw.t, after) == SweepTables(old(uw.t), sigs + after)
      ensures more + Swept(uw.t, after) == Swept(old(uw.t), sigs + after)
    {
      hide BlobPath, ContentsOf, Sweeping;
      more := [];
      assert dropped + [] == dropped;
      ghost var t := uw.t;
      for j := 0 to |sigs|
        invariant Sweeping(t0, tree0, fileDir, uw.t, uw.fs.View(), disk.tree, dropped + more)
        invariant SweepTables(uw.t, sigs[j..] + after) == SweepTables(t, sigs + after)
        invariant more + Swept(uw.t, sigs[j..] + after) == Swept(t, sigs + after)
      {
        SweptFirst(uw.t, sigs[j..] + after);
        assert (sigs[j..] + after)[0] == sigs[j] && (sigs[j..] + after)[1..] == sigs[j + 1..] + after;
        ghost var one := if sigs[j] in uw.t.files then [sigs[j]] else [];
        SweepSignature(uw, sigs[j], t0, tree0, dropped + more);
        assert (dropped + more) + one == dropped + (more + one);
        assert more + (one + Swept(uw.t, sigs[j + 1..] + after)) == (more + one) + Swept(uw.t, sigs[j + 1..] + after);
        more := more + one;
      }
      assert sigs[|sigs|..] + after == after;
    }
  }
}
