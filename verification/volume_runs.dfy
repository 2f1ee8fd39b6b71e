/** Whole runs of calls on one volume, seen from the outside. */
module VolumeRuns {
  import opened Types
  import opened Paths
  import opened Records
  import opened ReplicaQueue
  import opened VolumeSpec
  import opened VolumeInvariant
  import opened TtlSweep

  datatype Op =
    | Create(a: Request)
    | Delete(key: Key)
    | NoteReplica(rp: Replica, vid: VolumeID, tick: int)
    | Relist(key: Key, vids: seq<VolumeID>, replica: int)
    | Synchronize(vid: VolumeID, uuids: seq<string>, ticks: seq<int>)
    | Expire(rows: seq<seq<Signature>>, spare: bool)
    | Restart

  function Perform(v: Vol, op: Op): (Vol, Result) {
    match op
    case Create(a) => CreateFile(v, a)
    case Delete(key) => DeleteFile(v, key)
    case NoteReplica(rp, vid, tick) => UpdateReplica(v, rp, vid, tick)
    case Relist(key, vids, replica) => UpdateFileReplica(v, key, vids, replica)
    case Synchronize(vid, uuids, ticks) => SynchronizeReplicas(v, vid, uuids, ticks)
    case Expire(rows, spare) => (Sweep(v, rows, spare), Ok)
    case Restart => (Reopened(v), Ok)
  }

  /** The volume in a new process: the disk is as it was, the key generator begins anew. */
  function Reopened(v: Vol): Vol {
    v.(lastKey := 0)
  }

  function Run(v: Vol, ops: seq<Op>): Vol
    decreases |ops|
  {
    if ops == [] then v else Perform(Run(v, ops[..|ops| - 1]), ops[|ops| - 1]).0
  }

  function Initial(id: VolumeID, state: StateRow): Vol {
    Vol(id, Tables(map[], map[], map[], map[], [], state), map[], 0)
  }

  // ---------------------------------------------------------------- Digests

  /** No two of these contents have the same digest. */
  ghost predicate CollisionFree(sha: Bytes -> string, contents: set<Bytes>) {
    && (forall c | c in contents :: IsSignature(sha(c)))
    && (forall c, d | c in contents && d in contents && sha(c) == sha(d) :: c == d)
  }

  /** A request carries the digest of its content. */
  ghost predicate Digested(sha: Bytes -> string, contents: set<Bytes>, op: Op) {
    op.Create? ==> op.a.content in contents && op.a.sig == sha(op.a.content)
  }

  ghost predicate AllDigested(sha: Bytes -> string, contents: set<Bytes>, ops: seq<Op>) {
    forall i | 0 <= i < |ops| :: Digested(sha, contents, ops[i])
  }

  /** Every content on disk lies under its own digest, and every record tells the size of its content. */
  ghost predicate Honest(sha: Bytes -> string, contents: set<Bytes>, v: Vol) {
    && (forall s | s in v.blobs :: v.blobs[s] in contents && sha(v.blobs[s]) == s)
    && Sized(v)
  }

  ghost predicate Sized(v: Vol) {
    forall s | s in v.tables.files && s in v.blobs :: v.tables.files[s].size == |v.blobs[s]|
  }

  lemma HonestNoClash(sha: Bytes -> string, contents: set<Bytes>, v: Vol, a: Request)
    requires CollisionFree(sha, contents) && Honest(sha, contents, v) && Digested(sha, contents, Create(a))
    ensures GoodRequest(v, a)
  {
  }

  lemma CreateSized(v: Vol, a: Request)
    requires Inv(v) && NoClash(v, a) && Sized(v)
    ensures Sized(CreateFile(v, a).0)
  {
    if Stores(v, a) {
      CreateShape(v.tables, v.id, v.lastKey, a);
      StoredOutcome(v, a);
      var v' := CreateFile(v, a).0;
      hide CreateFile, CreateTables, Freed, WithRecord, LastKeyOf;
      forall s | s in v'.tables.files && s in v'.blobs
        ensures v'.tables.files[s].size == |v'.blobs[s]|
      {
        if s != a.sig {
          FreedRows(v.tables, a.key, s);
        }
      }
    }
  }

  lemma StepSized(v: Vol, op: Op)
    requires Inv(v) && Sized(v) && (op.Create? ==> NoClash(v, op.a))
    ensures Sized(Perform(v, op).0)
  {
    hide CreateFile, UpdateReplica, UpdateFileReplica, Sweep;
    match op
    case Create(a) => CreateSized(v, a);
    case Delete(key) =>
      if DeleteTables(v.tables, key).1.Ok? {
        DeleteShape(v.tables, key);
        forall s | s in Freed(v.tables, key).files
          ensures s in v.tables.files && Freed(v.tables, key).files[s].size == v.tables.files[s].size
        {
          FreedRows(v.tables, key, s);
        }
      }
    case NoteReplica(rp, vid, tick) => UpdateReplicaSame(v, rp, vid, tick);
    case Relist(key, vids, replica) => UpdateFileReplicaSame(v, key, vids, replica);
    case Synchronize(vid, uuids, ticks) =>
    case Expire(rows, spare) => SweepRefines(v, rows, spare); SweepBlobs(v, rows, spare);
    case Restart =>
  }

  lemma SweepBlobs(v: Vol, rows: seq<seq<Signature>>, spare: bool)
    ensures forall s | s in Sweep(v, rows, spare).blobs :: s in v.blobs && Sweep(v, rows, spare).blobs[s] == v.blobs[s]
  {
  }

  lemma StepDigests(sha: Bytes -> string, contents: set<Bytes>, v: Vol, op: Op)
    requires Digested(sha, contents, op) && forall s | s in v.blobs :: v.blobs[s] in contents && sha(v.blobs[s]) == s
    ensures Perform(v, op).0.id == v.id
    ensures var v' := Perform(v, op).0; forall s | s in v'.blobs :: v'.blobs[s] in contents && sha(v'.blobs[s]) == s
  {
  }

  lemma StepHonest(sha: Bytes -> string, contents: set<Bytes>, v: Vol, op: Op)
    requires CollisionFree(sha, contents) && Digested(sha, contents, op) && Inv(v) && Honest(sha, contents, v)
    ensures Perform(v, op).0.id == v.id && Honest(sha, contents, Perform(v, op).0)
  {
    hide Inv, Perform, Sized;
    StepDigests(sha, contents, v, op);
    if op.Create? {
      HonestNoClash(sha, contents, v, op.a);
    }
    StepSized(v, op);
  }

  /** Within a process no call ever draws a key that is not above all keys of the queue. */
  lemma StepOrdered(v: Vol, op: Op)
    requires Inv(v) && Ordered(v.tables.replicas, v.lastKey) && !op.Restart?
    ensures Ordered(Perform(v, op).0.tables.replicas, Perform(v, op).0.lastKey)
  {
    hide CreateFile, Ordered, Turned;
    match op
    case Create(a) => CreateKeepsOrder(v, a);
    case Delete(key) =>
    case NoteReplica(rp, vid, tick) => TurnedOrdered(QueueOf(v), rp, tick);
    case Relist(key, vids, replica) =>
    case Synchronize(vid, uuids, ticks) =>
      if vid in v.tables.idxvolumes {
        SyncLoopOrdered(v.tables, v.id, vid, v.tables.idxvolumes[vid], QueueOf(v), uuids, ticks);
      }
      SyncErrOrdered(v, vid, uuids, ticks);
    case Expire(rows, spare) =>
      SizesOfBlobs(v);
      SweepTablesExactly(v.tables, Flat(rows));
  }

  lemma SyncErrOrdered(v: Vol, vid: VolumeID, uuids: seq<string>, ticks: seq<int>)
    requires Ordered(v.tables.replicas, v.lastKey)
    ensures SynchronizeReplicas(v, vid, uuids, ticks).1.Err? ==>
              Ordered(v.tables.replicas, SynchronizeReplicas(v, vid, uuids, ticks).0.lastKey)
  {
    if vid in v.tables.idxvolumes {
      SyncLoopOrdered(v.tables, v.id, vid, v.tables.idxvolumes[vid], QueueOf(v), uuids, ticks);
    }
  }

  lemma StepKeeps(sha: Bytes -> string, contents: set<Bytes>, v: Vol, op: Op)
    requires CollisionFree(sha, contents) && Digested(sha, contents, op)
    requires Inv(v) && Honest(sha, contents, v)
    ensures Inv(Perform(v, op).0) && Perform(v, op).0.id == v.id
    ensures Honest(sha, contents, Perform(v, op).0)
  {
    StepHonest(sha, contents, v, op);
    hide Honest;
    match op
    case Create(a) => CreateKeepsInv(v, a);
    case Delete(key) => DeleteRefines(v, key);
    case NoteReplica(rp, vid, tick) => UpdateReplicaKeeps(v, rp, vid, tick);
    case Relist(key, vids, replica) => UpdateFileReplicaKeeps(v, key, vids, replica);
    case Synchronize(vid, uuids, ticks) => SynchronizeKeeps(v, vid, uuids, ticks);
    case Expire(rows, spare) => SweepRefines(v, rows, spare);
    case Restart => ReopenedKeeps(v);
  }

  lemma ReopenedKeeps(v: Vol)
    requires Inv(v)
    ensures Inv(Reopened(v)) && Abs(Reopened(v)) == Abs(v) && Slack(Reopened(v).tables) == Slack(v.tables)
  {
    assert ReverseIndexed(Reopened(v)) && Blobs(Reopened(v));
  }

  /** The invariant holds after every run, over all interleavings of the calls. */
  lemma {:induction false} RunKeeps(sha: Bytes -> string, contents: set<Bytes>, v: Vol, ops: seq<Op>)
    requires CollisionFree(sha, contents) && AllDigested(sha, contents, ops)
    requires Inv(v) && Honest(sha, contents, v)
    ensures Inv(Run(v, ops)) && Run(v, ops).id == v.id && Honest(sha, contents, Run(v, ops))
    decreases |ops|
  {
    if ops != [] {
      var n := |ops| - 1;
      assert AllDigested(sha, contents, ops[..n]);
      RunKeeps(sha, contents, v, ops[..n]);
      StepKeeps(sha, contents, Run(v, ops[..n]), ops[n]);
    }
  }

  lemma InitialInv(id: VolumeID, state: StateRow)
    requires 0 <= state.volumeUsed && UsedSize(state) <= TotalSize(state)
    ensures Inv(Initial(id, state)) && Slack(Initial(id, state).tables) == state.volumeUsed
    ensures forall sha, contents :: Honest(sha, contents, Initial(id, state))
  {
    assert Sizes(map[]) == 0;
  }

  // ---------------------------------------------------------------- The map that clients see

  /** A call together with what its caller was told. */
  datatype Event = Event(op: Op, ok: bool)

  function Observed(v: Vol, ops: seq<Op>): seq<Event>
    decreases |ops|
  {
    if ops == [] then []
    else
      var n := |ops| - 1;
      Observed(v, ops[..n]) + [Event(ops[n], Perform(Run(v, ops[..n]), ops[n]).1.Ok?)]
  }

  /** What one answered call says about a key. */
  function Says(sha: Bytes -> string, e: Event, k: Key, before: Option<Bytes>): Option<Bytes> {
    match e.op
    case Create(a) => if e.ok && a.key == k then Some(a.content) else before
    case Delete(key) => if e.ok && key == k then None else before
    case Expire(rows, _) => if before.Some? && sha(before.value) in Flat(rows) then None else before
    case _ => before
  }

  /**
   * What a history says about a key: the bytes of the last create that was accepted for it, unless an accepted delete
   * followed, or an expiry that names the digest of those bytes.
   */
  function LastWrite(sha: Bytes -> string, h: seq<Event>, k: Key): Option<Bytes>
    decreases |h|
  {
    if h == [] then None else Says(sha, h[|h| - 1], k, LastWrite(sha, h[..|h| - 1], k))
  }

  lemma SameAbsSameReads(v: Vol, v': Vol)
    requires Inv(v) && Inv(v') && Abs(v') == Abs(v)
    ensures forall k :: GetFile(v', k) == GetFile(v, k)
  {
    AbsIsGet(v);
    AbsIsGet(v');
  }

  lemma CreateStepReads(v: Vol, a: Request, k: Key)
    requires Inv(v) && GoodRequest(v, a)
    ensures GetFile(CreateFile(v, a).0, k) ==
            if CreateFile(v, a).1.Ok? && a.key == k then Some(a.content) else GetFile(v, k)
  {
    CreateRefines(v, a);
    AbsIsGet(v);
    AbsIsGet(CreateFile(v, a).0);
  }

  lemma SweepStepReads(sha: Bytes -> string, contents: set<Bytes>, v: Vol, rows: seq<seq<Signature>>, spare: bool, k: Key)
    requires Inv(v) && Honest(sha, contents, v)
    ensures GetFile(Sweep(v, rows, spare), k) ==
            if GetFile(v, k).Some? && sha(GetFile(v, k).value) in Flat(rows) then None else GetFile(v, k)
  {
    SweepRefines(v, rows, spare);
    AbsIsGet(v);
    AbsIsGet(Sweep(v, rows, spare));
  }

  lemma StepReads(sha: Bytes -> string, contents: set<Bytes>, v: Vol, op: Op, k: Key)
    requires CollisionFree(sha, contents) && Digested(sha, contents, op)
    requires Inv(v) && Honest(sha, contents, v)
    ensures GetFile(Perform(v, op).0, k) == Says(sha, Event(op, Perform(v, op).1.Ok?), k, GetFile(v, k))
  {
    hide Inv, Honest, GetFile, CreateFile, DeleteFile, UpdateReplica, UpdateFileReplica, SynchronizeReplicas, Sweep;
    match op
    case Create(a) => HonestNoClash(sha, contents, v, a); CreateStepReads(v, a, k);
    case Delete(key) =>
      DeleteRefines(v, key);
      AbsIsGet(v);
      AbsIsGet(DeleteFile(v, key).0);
    case NoteReplica(rp, vid, tick) => UpdateReplicaKeeps(v, rp, vid, tick); SameAbsSameReads(v, Perform(v, op).0);
    case Relist(key, vids, replica) => UpdateFileReplicaKeeps(v, key, vids, replica); SameAbsSameReads(v, Perform(v, op).0);
    case Synchronize(vid, uuids, ticks) => SynchronizeKeeps(v, vid, uuids, ticks); SameAbsSameReads(v, Perform(v, op).0);
    case Expire(rows, spare) => SweepStepReads(sha, contents, v, rows, spare, k);
    case Restart => ReopenedKeeps(v); SameAbsSameReads(v, Reopened(v));
  }

  /** Over every run a volume reads as the map that its history describes. */
  lemma {:induction false} ReadsLastWrite(sha: Bytes -> string, contents: set<Bytes>, id: VolumeID, state: StateRow,
                                          ops: seq<Op>, k: Key)
    requires CollisionFree(sha, contents) && AllDigested(sha, contents, ops)
    requires 0 <= state.volumeUsed && UsedSize(state) <= TotalSize(state)
    ensures GetFile(Run(Initial(id, state), ops), k) == LastWrite(sha, Observed(Initial(id, state), ops), k)
    ensures HasFile(Run(Initial(id, state), ops), k) ==
            if LastWrite(sha, Observed(Initial(id, state), ops), k).Some? then (id, true) else ("", false)
    decreases |ops|
  {
    var v0 := Initial(id, state);
    InitialInv(id, state);
    RunKeeps(sha, contents, v0, ops);
    AbsIsGet(Run(v0, ops));
    assert GetFile(Run(v0, ops), k).Some? <==> k in Run(v0, ops).tables.idxkeys;
    if ops != [] {
      var n := |ops| - 1;
      assert AllDigested(sha, contents, ops[..n]);
      ReadsLastWrite(sha, contents, id, state, ops[..n], k);
      RunKeeps(sha, contents, v0, ops[..n]);
      StepReads(sha, contents, Run(v0, ops[..n]), ops[n], k);
      var h := Observed(v0, ops);
      assert h[..|h| - 1] == Observed(v0, ops[..n]);
    }
  }

  // ---------------------------------------------------------------- The quota over a run

  /** The sizes of the records that overwriting requests dropped along the run. */
  function Leaked(v: Vol, ops: seq<Op>): int
    decreases |ops|
  {
    if ops == [] then 0
    else
      var n := |ops| - 1;
      var before := Run(v, ops[..n]);
      Leaked(v, ops[..n]) +
      if ops[n].Create? && Stores(before, ops[n].a) then DroppedSize(before.tables, ops[n].a.key) else 0
  }

  lemma StepSlack(sha: Bytes -> string, contents: set<Bytes>, v: Vol, op: Op)
    requires CollisionFree(sha, contents) && Digested(sha, contents, op)
    requires Inv(v) && Honest(sha, contents, v)
    ensures Slack(Perform(v, op).0.tables) == Slack(v.tables) +
            if op.Create? && Stores(v, op.a) then DroppedSize(v.tables, op.a.key) else 0
    ensures op.Create? ==> DroppedSize(v.tables, op.a.key) >= 0
  {
    SizesOfBlobs(v);
    hide Honest, CreateFile, DeleteFile, UpdateReplica, UpdateFileReplica, SynchronizeReplicas, Sweep, Slack, GoodRecord;
    match op
    case Create(a) =>
      if Stores(v, a) {
        CreateSlack(v, a);
      }
    case Delete(key) => DeleteRefines(v, key);
    case NoteReplica(rp, vid, tick) => UpdateReplicaKeeps(v, rp, vid, tick);
    case Relist(key, vids, replica) => UpdateFileReplicaKeeps(v, key, vids, replica);
    case Synchronize(vid, uuids, ticks) => SynchronizeKeeps(v, vid, uuids, ticks);
    case Expire(rows, spare) => SweepRefines(v, rows, spare);
    case Restart =>
  }

  /** The sizes of volume and disk are as they were, and both used sizes have moved by the same amount. */
  ghost predicate Charged(s: StateRow, s': StateRow) {
    && s'.systemTotal == s.systemTotal && s'.volumeTotal == s.volumeTotal
    && s'.systemUsed - s.systemUsed == s'.volumeUsed - s.volumeUsed
  }

  lemma {:induction false} DeletesCharge(t: Tables, keys: seq<Key>)
    ensures Charged(t.state, DeleteKeys(t, keys).state)
    decreases |keys|
  {
    if keys != [] {
      DeletesCharge(DeleteTables(t, keys[0]).0, keys[1..]);
    }
  }

  lemma {:induction false} SweepCharges(t: Tables, sigs: seq<Signature>)
    ensures Charged(t.state, SweepTables(t, sigs).state)
    decreases |sigs|
  {
    hide DeleteKeys;
    if sigs != [] {
      DeletesCharge(t, KeysOf(t, sigs[0]));
      SweepCharges(DeleteKeys(t, KeysOf(t, sigs[0])), sigs[1..]);
    }
  }

  lemma StepCharges(v: Vol, op: Op)
    requires Inv(v)
    ensures Charged(v.tables.state, Perform(v, op).0.tables.state)
  {
    hide CreateTables, SweepTables, Swept, SyncLoop, Turned, Indexed, IndexedAll, Without;
    match op
    case Create(a) =>
      if Stores(v, a) {
        CreateShape(v.tables, v.id, v.lastKey, a);
      }
    case Delete(key) =>
    case NoteReplica(_, _, _) =>
    case Relist(_, _, _) =>
    case Synchronize(_, _, _) =>
    case Expire(rows, _) => SweepCharges(v.tables, Flat(rows));
    case Restart =>
  }

  /** What is used counts `size` more, and is within the size that applies: the volume's own, or else that of the disk. */
  ghost predicate WithinQuota(state: StateRow, size: int) {
    if state.volumeTotal == -1 then state.systemUsed + size <= state.systemTotal else size <= state.volumeTotal
  }

  /** The sizes that the volume keeps after a run. */
  lemma {:induction false} MovedOverRuns(sha: Bytes -> string, contents: set<Bytes>, id: VolumeID, state: StateRow,
                                         ops: seq<Op>)
    requires CollisionFree(sha, contents) && AllDigested(sha, contents, ops)
    requires state.volumeUsed == 0 && WithinQuota(state, 0)
    ensures var v := Run(Initial(id, state), ops);
            var moved := Sizes(v.tables.files) + Leaked(Initial(id, state), ops);
            && Inv(v) && 0 <= Sizes(v.tables.files) && 0 <= Leaked(Initial(id, state), ops)
            && v.tables.state == StateRow(state.systemTotal, state.systemUsed + moved, state.volumeTotal, moved)
    decreases |ops|
  {
    hide Inv, Honest, Perform, Stores, DroppedSize;
    var v0 := Initial(id, state);
    InitialInv(id, state);
    RunKeeps(sha, contents, v0, ops);
    SizesOfRecords(Run(v0, ops));
    if ops != [] {
      var n := |ops| - 1;
      assert AllDigested(sha, contents, ops[..n]);
      MovedOverRuns(sha, contents, id, state, ops[..n]);
      RunKeeps(sha, contents, v0, ops[..n]);
      StepSlack(sha, contents, Run(v0, ops[..n]), ops[n]);
      StepCharges(Run(v0, ops[..n]), ops[n]);
    }
  }

  lemma SizesOfRecords(v: Vol)
    requires Inv(v)
    ensures 0 <= Sizes(v.tables.files)
  {
  }

  /**
   * Both used sizes have at every moment moved by the stored sizes plus what overwriting lost. That is within the quota,
   * a content is accepted exactly when it is known or stays within it, and no delete ever fails its size check.
   */
  lemma QuotaOverRuns(sha: Bytes -> string, contents: set<Bytes>, id: VolumeID, state: StateRow, ops: seq<Op>)
    requires CollisionFree(sha, contents) && AllDigested(sha, contents, ops)
    requires state.volumeUsed == 0 && WithinQuota(state, 0)
    ensures var t := Run(Initial(id, state), ops).tables;
            var moved := Sizes(t.files) + Leaked(Initial(id, state), ops);
            && t.state == StateRow(state.systemTotal, state.systemUsed + moved, state.volumeTotal, moved)
            && 0 <= Sizes(t.files) && 0 <= Leaked(Initial(id, state), ops) && WithinQuota(state, moved)
            && forall a :: CreateFile(Run(Initial(id, state), ops), a).1.Ok? <==>
                           a.sig in t.files || WithinQuota(state, moved + |a.content|)
    ensures forall key :: DeleteFile(Run(Initial(id, state), ops), key).1 != Err(TooLarge)
  {
    hide Inv, Run, CreateFile, DeleteFile, WithinQuota;
    var v := Run(Initial(id, state), ops);
    MovedOverRuns(sha, contents, id, state, ops);
    forall key
      ensures DeleteFile(v, key).1 != Err(TooLarge)
    {
      DeleteRefines(v, key);
    }
    QuotaBinds(v, state, Sizes(v.tables.files) + Leaked(Initial(id, state), ops));
  }

  lemma QuotaBinds(v: Vol, state: StateRow, moved: int)
    requires Inv(v)
    requires v.tables.state == StateRow(state.systemTotal, state.systemUsed + moved, state.volumeTotal, moved)
    ensures WithinQuota(state, moved)
    ensures forall a :: CreateFile(v, a).1.Ok? <==> a.sig in v.tables.files || WithinQuota(state, moved + |a.content|)
  {
    hide CreateTables;
    forall a
      ensures CreateFile(v, a).1.Ok? <==> a.sig in v.tables.files || WithinQuota(state, moved + |a.content|)
    {
      assert Known(v.tables, a) ==> a.sig in v.tables.files;
    }
  }
}
