/** What a delete leaves behind in the queue and in the reverse index, over whole runs. */
module AfterDeletes {
  import opened Types
  import opened ReplicaQueue
  import opened VolumeSpec
  import opened VolumeInvariant
  import opened VolumeRuns
  import opened Cluster
  import opened ClusterRuns
  import opened RoundCalls
  import opened Synchronizing
  import TtlSweep

  // ---------------------------------------------------------------- An entry whose key was deleted

  /** The next entry of `m` is `e`, and its key is not bound there. */
  ghost predicate Blocked(c: Nodes, m: VolumeID, e: Replica) {
    && m in c && NextReplica(c[m]) == Some(e) && e.key !in c[m].tables.idxkeys
    && Ordered(c[m].tables.replicas, c[m].lastKey)
  }

  lemma BlockedRound(c: Nodes, env: Env, m: VolumeID, targets: seq<VolumeID>, e: Replica)
    requires Blocked(c, m, e) && forall i | 0 <= i < |targets| :: targets[i] in c
    ensures Round(c, env, m, targets) == (c, None)
  {
    hide Try;
    NothingToCopy(c, env, m, e, targets);
  }

  /** Only a turn or a new process takes the head of a queue from its place. */
  lemma HeadStays(v: Vol, o: Op)
    requires Inv(v) && Ordered(v.tables.replicas, v.lastKey) && NextReplica(v).Some? && !o.NoteReplica? && !o.Restart?
    ensures NextReplica(Perform(v, o).0) == NextReplica(v)
    ensures Ordered(Perform(v, o).0.tables.replicas, Perform(v, o).0.lastKey)
  {
    hide CreateFile, SynchronizeReplicas, Enqueue, NewEntries, Ordered;
    StepOrdered(v, o);
    match o
    case Create(a) =>
      CreateQueue(v, a);
      EnqueueOrdered(v.tables.replicas, v.lastKey, NextKey(v.lastKey, a.tick),
                     PendingReplica(v.id, a, StoredFile(v.tables, v.id, a).signature));
    case Delete(key) =>
    case NoteReplica(_, _, _) =>
    case Relist(_, _, _) =>
    case Synchronize(vid, uuids, ticks) => SurvivorQueues(v, vid, uuids, ticks, "");
    case Expire(rows, spare) =>
      SizesOfBlobs(v);
      TtlSweep.SweepTablesExactly(v.tables, Flat(rows));
    case Restart =>
  }

  lemma BlockedStep(sha: Bytes -> string, contents: set<Bytes>, c: Nodes, op: ClusterOp, m: VolumeID, e: Replica)
    requires Good(sha, contents, c) && Blocked(c, m, e) && !Restarts(op, m)
    requires e.key !in ClusterStep(c, op)[m].tables.idxkeys
    ensures Blocked(ClusterStep(c, op), m, e)
  {
    hide Inv, Honest, Perform, Try, Ordered, UpdateReplica;
    if Enabled(c, op) {
      match op
      case OnNode(n, o) =>
        if n == m {
          HeadStays(c[m], o);
        }
      case Replicate(env, n, targets) =>
        if n == m {
          BlockedRound(c, env, m, targets, e);
        } else {
          TryMaster(c, env, n, NextReplica(c[n]).value, targets);
          assert QueueOf(ClusterStep(c, op)[m]) == QueueOf(c[m]);
        }
    }
  }

  ghost predicate Restarts(op: ClusterOp, m: VolumeID) {
    op.OnNode? && op.n == m && op.op.Restart?
  }

  /** `m` is never started anew, and in no state of the run is the key bound on it. */
  ghost predicate NeverBound(c: Nodes, ops: seq<ClusterOp>, m: VolumeID, key: Key)
    requires m in c
  {
    && (forall i | 0 <= i < |ops| :: !Restarts(ops[i], m))
    && (forall i | 0 <= i <= |ops| :: key !in ClusterRun(c, ops[..i])[m].tables.idxkeys)
  }

  lemma {:induction false} BlockedOverRuns(sha: Bytes -> string, contents: set<Bytes>, c: Nodes, ops: seq<ClusterOp>,
                                           m: VolumeID, e: Replica)
    requires CollisionFree(sha, contents) && OpsDigested(sha, contents, ops) && Good(sha, contents, c)
    requires m in c && Blocked(c, m, e) && NeverBound(c, ops, m, e.key)
    ensures Good(sha, contents, ClusterRun(c, ops)) && Blocked(ClusterRun(c, ops), m, e)
    decreases |ops|
  {
    hide Good, Blocked, ClusterStep, Restarts;
    assert ops[..|ops|] == ops;
    if ops != [] {
      var k := |ops| - 1;
      assert OpsDigested(sha, contents, ops[..k]);
      assert forall i | 0 <= i <= k :: ops[..k][..i] == ops[..i];
      BlockedOverRuns(sha, contents, c, ops[..k], m, e);
      ClusterStepGood(sha, contents, ClusterRun(c, ops[..k]), ops[k]);
      BlockedStep(sha, contents, ClusterRun(c, ops[..k]), ops[k], m, e);
    }
  }

  /**
   * Deleting the key of the head entry leaves the entry. Over every run that follows, as long as neither a client nor a
   * copy binds the key there again, it stays the next entry of its node, and no round of the node does anything.
   */
  lemma DeletedHeadBlocks(sha: Bytes -> string, contents: set<Bytes>, c: Nodes, m: VolumeID, ops: seq<ClusterOp>,
                          env: Env, targets: seq<VolumeID>)
    requires CollisionFree(sha, contents) && OpsDigested(sha, contents, ops) && Good(sha, contents, c)
    requires m in c && Ordered(c[m].tables.replicas, c[m].lastKey)
    requires NextReplica(c[m]).Some? && NextReplica(c[m]).value.key in c[m].tables.idxkeys
    requires NeverBound(c[m := DeleteFile(c[m], NextReplica(c[m]).value.key).0], ops, m, NextReplica(c[m]).value.key)
    requires forall i | 0 <= i < |targets| :: targets[i] in c
    ensures var c' := ClusterRun(c[m := DeleteFile(c[m], NextReplica(c[m]).value.key).0], ops);
            NextReplica(c'[m]) == NextReplica(c[m]) && Round(c', env, m, targets) == (c', None)
  {
    var e := NextReplica(c[m]).value;
    var c1 := c[m := DeleteFile(c[m], e.key).0];
    DeleteBlocks(sha, contents, c, m, e);
    hide Good, DeleteFile, NeverBound, Round;
    BlockedOverRuns(sha, contents, c1, ops, m, e);
    BlockedRound(ClusterRun(c1, ops), env, m, targets, e);
  }

  lemma DeleteBlocks(sha: Bytes -> string, contents: set<Bytes>, c: Nodes, m: VolumeID, e: Replica)
    requires Good(sha, contents, c) && m in c && Ordered(c[m].tables.replicas, c[m].lastKey)
    requires NextReplica(c[m]) == Some(e) && e.key in c[m].tables.idxkeys
    ensures var c1 := c[m := DeleteFile(c[m], e.key).0]; Good(sha, contents, c1) && Blocked(c1, m, e)
  {
    hide Ordered, Inv, Sized;
    DeleteRefines(c[m], e.key);
    AbsIsGet(c[m]);
    AbsIsGet(DeleteFile(c[m], e.key).0);
    StepDigests(sha, contents, c[m], Delete(e.key));
    StepSized(c[m], Delete(e.key));
  }

  // ---------------------------------------------------------------- An index that names a deleted content

  /** Whatever the volume had in its reverse index is still in it. */
  ghost predicate IndexGrows(v: Vol, v': Vol) {
    forall d, s :: s in SignaturesFor(v.tables.idxvolumes, d) ==> s in SignaturesFor(v'.tables.idxvolumes, d)
  }

  lemma CallKeepsIndex(v: Vol, o: Op)
    requires o.Expire? ==> Inv(v)
    ensures IndexGrows(v, Perform(v, o).0)
  {
    match o
    case Create(a) => CreateIndex(v, a);
    case Delete(key) =>
    case NoteReplica(rp, vid, tick) =>
      if UpdateReplica(v, rp, vid, tick).1.Ok? {
        IndexedShape(v.tables.idxvolumes, vid, v.tables.files[rp.signature].signature);
      }
    case Relist(key, vids, replica) =>
      if UpdateFileReplica(v, key, vids, replica).1.Ok? {
        IndexedAllShape(v.tables.idxvolumes, vids, v.id, v.tables.files[v.tables.idxkeys[key]].signature);
      }
    case Synchronize(vid, uuids, ticks) =>
    case Expire(rows, spare) =>
      SizesOfBlobs(v);
      TtlSweep.SweepTablesExactly(v.tables, Flat(rows));
    case Restart =>
  }

  lemma CreateIndex(v: Vol, a: Request)
    ensures CreateFile(v, a).0.tables.idxvolumes == v.tables.idxvolumes
  {
    hide Enqueue, Without, KeysOf;
  }

  lemma {:induction false} CallsKeepIndex(v: Vol, ops: seq<Op>)
    requires forall i | 0 <= i < |ops| :: !ops[i].Expire?
    ensures IndexGrows(v, Run(v, ops))
    decreases |ops|
  {
    hide Perform;
    if ops != [] {
      var n := |ops| - 1;
      CallsKeepIndex(v, ops[..n]);
      CallKeepsIndex(Run(v, ops[..n]), ops[n]);
    }
  }

  lemma StepKeepsIndex(sha: Bytes -> string, contents: set<Bytes>, c: Nodes, op: ClusterOp, w: VolumeID)
    requires Good(sha, contents, c) && w in c
    ensures IndexGrows(c[w], ClusterStep(c, op)[w])
  {
    hide Inv, Honest, Perform, Round, IndexGrows, Run;
    if !Enabled(c, op) || (op.OnNode? && op.n != w) {
      SameIndex(c[w]);
    } else {
      match op
      case OnNode(n, o) => CallKeepsIndex(c[w], o);
      case Replicate(env, m, targets) =>
        var e := NextReplica(c[m]).value;
        var ops := RoundIsCalls(c, env, m, targets, w);
        forall i | 0 <= i < |ops|
          ensures !ops[i].Expire?
        {
          assert RoundCall(Run(c[w], ops[..i]), ops[i], env, e, GetFile(c[m], e.key));
        }
        CallsKeepIndex(c[w], ops);
    }
  }

  lemma SameIndex(v: Vol)
    ensures IndexGrows(v, v)
  {
  }

  /** Nothing ever leaves the reverse index of a node, over any run and any restart. */
  lemma {:induction false} IndexNeverForgets(sha: Bytes -> string, contents: set<Bytes>, c: Nodes, ops: seq<ClusterOp>,
                                             w: VolumeID)
    requires CollisionFree(sha, contents) && OpsDigested(sha, contents, ops) && Good(sha, contents, c) && w in c
    ensures Good(sha, contents, ClusterRun(c, ops)) && IndexGrows(c[w], ClusterRun(c, ops)[w])
    decreases |ops|
  {
    hide Good, ClusterStep;
    if ops != [] {
      var k := |ops| - 1;
      assert OpsDigested(sha, contents, ops[..k]);
      IndexNeverForgets(sha, contents, c, ops[..k], w);
      ClusterStepGood(sha, contents, ClusterRun(c, ops[..k]), ops[k]);
      StepKeepsIndex(sha, contents, ClusterRun(c, ops[..k]), ops[k], w);
    }
  }

  /**
   * Deleting the last key of a content that is shared with `d` leaves the content in the index for `d`. In every state
   * that any run reaches from there, in which the content is not stored on the node, the loss of `d` is answered with an
   * error, and nothing at all is repaired.
   */
  lemma DeleteStopsRepairs(sha: Bytes -> string, contents: set<Bytes>, c: Nodes, n: VolumeID, key: Key, d: VolumeID,
                           ops: seq<ClusterOp>, uuids: seq<string>, ticks: seq<int>)
    requires CollisionFree(sha, contents) && OpsDigested(sha, contents, ops) && Good(sha, contents, c) && n in c
    requires LastKeyOf(c[n].tables, key) && c[n].tables.idxkeys[key] in SignaturesFor(c[n].tables.idxvolumes, d)
    ensures var s, c1 := c[n].tables.idxkeys[key], c[n := DeleteFile(c[n], key).0];
            var v := ClusterRun(c1, ops)[n];
            && s !in c1[n].tables.files
            && (s !in v.tables.files ==>
                  && !Indexes(v, d) && SynchronizeReplicas(v, d, uuids, ticks).1 == Err(NotFound)
                  && SynchronizeReplicas(v, d, uuids, ticks).0.tables == v.tables && NewEntries(v, d, uuids, ticks) == [])
  {
    var s, c1 := c[n].tables.idxkeys[key], c[n := DeleteFile(c[n], key).0];
    DeleteLeavesIndex(sha, contents, c, n, key);
    hide Good, DeleteFile;
    IndexNeverForgets(sha, contents, c1, ops, n);
    var v := ClusterRun(c1, ops)[n];
    if s !in v.tables.files {
      StaleIndex(v, d, uuids, ticks, s);
    }
  }

  lemma DeleteLeavesIndex(sha: Bytes -> string, contents: set<Bytes>, c: Nodes, n: VolumeID, key: Key)
    requires Good(sha, contents, c) && n in c && LastKeyOf(c[n].tables, key)
    ensures var v' := DeleteFile(c[n], key).0;
            && Good(sha, contents, c[n := v']) && c[n].tables.idxkeys[key] !in v'.tables.files
            && v'.tables.idxvolumes == c[n].tables.idxvolumes
  {
    var v := c[n];
    DeleteRefines(v, key);
    assert key in Abs(v) by { AbsIsGet(v); }
    DeleteShape(v.tables, key);
    FreedShape(v.tables, key);
    StepDigests(sha, contents, v, Delete(key));
    StepSized(v, Delete(key));
    hide Inv, DeleteFile;
  }

  lemma StaleIndex(v: Vol, d: VolumeID, uuids: seq<string>, ticks: seq<int>, s: Signature)
    requires s in SignaturesFor(v.tables.idxvolumes, d) && s !in v.tables.files
    ensures !Indexes(v, d) && SynchronizeReplicas(v, d, uuids, ticks).1 == Err(NotFound)
    ensures SynchronizeReplicas(v, d, uuids, ticks).0.tables == v.tables && NewEntries(v, d, uuids, ticks) == []
  {
    SyncSucceedsExactly(v.tables, v.id, d, v.tables.idxvolumes[d], QueueOf(v), uuids, ticks);
  }
}
