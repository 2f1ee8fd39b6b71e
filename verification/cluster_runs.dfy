/** Whole runs of a cluster: client calls, sweeps, repairs and replication rounds, in any order. */
module ClusterRuns {
  import opened Types
  import opened ReplicaQueue
  import opened VolumeSpec
  import opened VolumeInvariant
  import opened VolumeRuns
  import opened Cluster
  import TtlSweep

  /** A call on one volume that does not come from a replication round, or a round. */
  datatype ClusterOp = OnNode(n: VolumeID, op: Op) | Replicate(env: Env, m: VolumeID, targets: seq<VolumeID>)

  ghost predicate Enabled(c: Nodes, op: ClusterOp) {
    match op
    case OnNode(n, o) => n in c && !o.NoteReplica? && !o.Relist?
    case Replicate(env, m, targets) =>
      m in c && NextReplica(c[m]).Some? && Targets(c, m, NextReplica(c[m]).value.volumeIDs, targets)
  }

  /** A step of the cluster; one that is not enabled does nothing. */
  ghost function ClusterStep(c: Nodes, op: ClusterOp): (r: Nodes)
    ensures r.Keys == c.Keys
  {
    if !Enabled(c, op) then c
    else
      match op
      case OnNode(n, o) => c[n := Perform(c[n], o).0]
      case Replicate(env, m, targets) => Round(c, env, m, targets).0
  }

  ghost function ClusterRun(c: Nodes, ops: seq<ClusterOp>): (r: Nodes)
    ensures r.Keys == c.Keys
    decreases |ops|
  {
    if ops == [] then c else ClusterStep(ClusterRun(c, ops[..|ops| - 1]), ops[|ops| - 1])
  }

  ghost predicate OpDigested(sha: Bytes -> string, contents: set<Bytes>, op: ClusterOp) {
    match op
    case OnNode(_, o) => Digested(sha, contents, o)
    case Replicate(env, _, _) => env.sha == sha
  }

  ghost predicate OpsDigested(sha: Bytes -> string, contents: set<Bytes>, ops: seq<ClusterOp>) {
    forall i | 0 <= i < |ops| :: OpDigested(sha, contents, ops[i])
  }

  // ---------------------------------------------------------------- Where contents come from

  /** Some client of the cluster wrote `content` under `key` in one of these calls. */
  ghost predicate Written(ops: seq<ClusterOp>, key: Key, content: Bytes) {
    exists i :: 0 <= i < |ops| && ops[i].OnNode? && ops[i].op.Create? &&
                ops[i].op.a.key == key && ops[i].op.a.content == content
  }

  lemma WrittenEarlier(ops: seq<ClusterOp>, key: Key, content: Bytes)
    requires ops != [] && Written(ops[..|ops| - 1], key, content)
    ensures Written(ops, key, content)
  {
    var i :| 0 <= i < |ops| - 1 && ops[..|ops| - 1][i].OnNode? && ops[..|ops| - 1][i].op.Create? &&
             ops[..|ops| - 1][i].op.a.key == key && ops[..|ops| - 1][i].op.a.content == content;
    assert ops[i] == ops[..|ops| - 1][i];
  }

  lemma ClusterStepGood(sha: Bytes -> string, contents: set<Bytes>, c: Nodes, op: ClusterOp)
    requires CollisionFree(sha, contents) && OpDigested(sha, contents, op) && Good(sha, contents, c)
    ensures Good(sha, contents, ClusterStep(c, op))
  {
    hide Inv, Honest, Round;
    if Enabled(c, op) {
      match op
      case OnNode(n, o) =>
        StepKeeps(sha, contents, c[n], o);
      case Replicate(env, m, targets) =>
        RoundOnlyAdds(contents, c, env, m, targets, m, "");
    }
  }

  /** In every reachable state what a node reads under a key was written to that key by a client. */
  lemma {:induction false} ContentsWereWritten(sha: Bytes -> string, contents: set<Bytes>, c: Nodes, ops: seq<ClusterOp>,
                                               n: VolumeID, key: Key)
    requires CollisionFree(sha, contents) && OpsDigested(sha, contents, ops) && Good(sha, contents, c)
    requires forall w | w in c :: c[w].tables.idxkeys == map[]
    requires n in c
    ensures Good(sha, contents, ClusterRun(c, ops))
    ensures GetFile(ClusterRun(c, ops)[n], key).Some? ==>
              Written(ops, key, GetFile(ClusterRun(c, ops)[n], key).value)
    decreases |ops|
  {
    hide Inv, Honest, ClusterStep;
    if ops != [] {
      var k := |ops| - 1;
      var before, op := ClusterRun(c, ops[..k]), ops[k];
      assert OpsDigested(sha, contents, ops[..k]);
      ContentsWereWritten(sha, contents, c, ops[..k], n, key);
      ClusterStepGood(sha, contents, before, op);
      var now := GetFile(ClusterStep(before, op)[n], key);
      if now.Some? {
        if GetFile(before[n], key) == now {
          WrittenEarlier(ops, key, now.value);
        } else {
          StepSource(sha, contents, before, op, n, key);
          if op.Replicate? {
            ContentsWereWritten(sha, contents, c, ops[..k], op.m, key);
            WrittenEarlier(ops, key, now.value);
          }
        }
      }
    }
  }

  /** A step brings a new reading only by a client's create or by a copy of what the master reads. */
  lemma StepSource(sha: Bytes -> string, contents: set<Bytes>, c: Nodes, op: ClusterOp, n: VolumeID, key: Key)
    requires CollisionFree(sha, contents) && OpDigested(sha, contents, op) && Good(sha, contents, c) && n in c
    requires GetFile(ClusterStep(c, op)[n], key).Some? && GetFile(ClusterStep(c, op)[n], key) != GetFile(c[n], key)
    ensures match op
            case OnNode(_, o) => o.Create? && o.a.key == key && Some(o.a.content) == GetFile(ClusterStep(c, op)[n], key)
            case Replicate(_, m, _) => m in c && GetFile(c[m], key) == GetFile(ClusterStep(c, op)[n], key)
  {
    hide Inv, Honest, Round, GetFile, Perform;
    match op
    case OnNode(w, o) =>
      if w == n {
        StepReads(sha, contents, c[n], o, key);
      }
    case Replicate(env, m, targets) =>
      RoundOnlyAdds(contents, c, env, m, targets, n, key);
  }

  // ---------------------------------------------------------------- Conservation in the queues

  /** The copies that exist and the copies that are missing add up to the copies that were asked for. */
  predicate Conserved(rp: Replica) {
    rp.count + |rp.volumeIDs| == rp.originalCount
  }

  /** An entry that began with a create: something is missing, and its copies lie on different nodes, the own first. */
  ghost predicate Fresh(id: VolumeID, rp: Replica) {
    rp.count >= 1 && NoDup(rp.volumeIDs) && rp.volumeIDs != [] && rp.volumeIDs[0] == id
  }

  /** Every entry is conserved; an entry of a create, which alone has a time of creation, is fresh as well. */
  ghost predicate Accounted(v: Vol) {
    forall rp | rp in v.tables.replicas :: Conserved(rp) && (rp.createdAt != ZERO_TIME ==> Fresh(v.id, rp))
  }

  lemma {:induction false} SyncConserves(t: Tables, id: VolumeID, vid: VolumeID, sigs: seq<Signature>, q: Queue,
                                         uuids: seq<string>, ticks: seq<int>)
    ensures var q' := SyncLoop(t, id, vid, sigs, q, uuids, ticks).0;
            forall rp | rp in q'.entries :: rp in q.entries || (Conserved(rp) && rp.createdAt == ZERO_TIME)
    decreases |sigs|
  {
    if sigs != [] {
      SyncConserves(t, id, vid, sigs[..|sigs| - 1], q, uuids, ticks);
    }
  }

  lemma StepConserves(v: Vol, o: Op)
    requires Accounted(v) && Inv(v) && !o.NoteReplica? && !o.Relist?
    ensures Perform(v, o).0.id == v.id && Accounted(Perform(v, o).0)
  {
    hide CreateFile, Conserved;
    match o
    case Synchronize(vid, uuids, ticks) =>
      if vid in v.tables.idxvolumes {
        SyncConserves(v.tables, v.id, vid, v.tables.idxvolumes[vid], QueueOf(v), uuids, ticks);
      }
    case Expire(rows, spare) =>
      SizesOfBlobs(v);
      TtlSweep.SweepTablesExactly(v.tables, Flat(rows));
    case Create(a) => CreateConserves(v, a);
    case Delete(key) =>
    case NoteReplica(_, _, _) =>
    case Relist(_, _, _) =>
    case Restart =>
  }

  lemma CreateConserves(v: Vol, a: Request)
    requires Accounted(v)
    ensures CreateFile(v, a).0.id == v.id && Accounted(CreateFile(v, a).0)
  {
    hide Enqueue;
    CreateQueue(v, a);
    var rp := PendingReplica(v.id, a, StoredFile(v.tables, v.id, a).signature);
    assert a.replica - 1 >= 1 ==> Conserved(rp) && Fresh(v.id, rp);
  }

  /** A successful turn moves one copy from the missing ones to the existing ones. */
  lemma TurnConserves(v: Vol, rp: Replica, n: VolumeID, tick: int)
    requires Accounted(v) && v.tables.replicas != [] && v.tables.replicas[0] == rp && n !in rp.volumeIDs
    requires UpdateReplica(v, rp.(volumeIDs := rp.volumeIDs + [n]), n, tick).1.Ok?
    ensures Accounted(UpdateReplica(v, rp.(volumeIDs := rp.volumeIDs + [n]), n, tick).0)
  {
    hide Enqueue, Omit;
    var rp' := rp.(volumeIDs := rp.volumeIDs + [n]);
    NotedQueue(v, rp', n, tick);
    assert Conserved(rp) && (rp.createdAt != ZERO_TIME ==> Fresh(v.id, rp));
  }

  lemma RoundConserves(c: Nodes, env: Env, m: VolumeID, rp: Replica, targets: seq<VolumeID>)
    requires m in c && Targets(c, m, rp.volumeIDs, targets) && NextReplica(c[m]) == Some(rp)
    requires forall n | n in c :: Accounted(c[n])
    requires forall n | n in c :: Try(c, env, m, rp, targets).0[n].id == c[n].id
    ensures forall n | n in c :: Accounted(Try(c, env, m, rp, targets).0[n])
  {
    hide Try, UpdateReplica;
    TryMaster(c, env, m, rp, targets);
    var (c', n) := Try(c, env, m, rp, targets);
    if n.Some? {
      TurnConserves(c[m], rp, n.value, env.tick);
    }
    forall w | w in c && w != m
      ensures Accounted(c'[w])
    {
      assert QueueOf(c'[w]) == QueueOf(c[w]) && Accounted(c[w]);
    }
  }

  lemma ClusterStepConserves(sha: Bytes -> string, contents: set<Bytes>, c: Nodes, op: ClusterOp)
    requires Good(sha, contents, c) && Good(sha, contents, ClusterStep(c, op))
    requires forall n | n in c :: Accounted(c[n])
    ensures forall n | n in c :: Accounted(ClusterStep(c, op)[n])
  {
    hide Honest, TwoWay, GoodRecords, Blobs, ReverseIndexed, Quota, Try, Perform, Accounted;
    if Enabled(c, op) {
      match op
      case OnNode(n, o) => StepConserves(c[n], o);
      case Replicate(env, m, targets) =>
        RoundConserves(c, env, m, NextReplica(c[m]).value, targets);
    }
  }

  /**
   * Over every run, repairs and restarts included, each pending entry of each node conserves its copies. The entry of a
   * create also misses at least one copy and lists pairwise different nodes, its own first.
   */
  lemma {:induction false} QueuesConserve(sha: Bytes -> string, contents: set<Bytes>, c: Nodes, ops: seq<ClusterOp>)
    requires CollisionFree(sha, contents) && OpsDigested(sha, contents, ops) && Good(sha, contents, c)
    requires forall n | n in c :: c[n].tables.replicas == []
    ensures Good(sha, contents, ClusterRun(c, ops))
    ensures forall n | n in c :: Accounted(ClusterRun(c, ops)[n])
    decreases |ops|
  {
    hide Good, ClusterStep;
    if ops != [] {
      var k := |ops| - 1;
      assert OpsDigested(sha, contents, ops[..k]);
      QueuesConserve(sha, contents, c, ops[..k]);
      ClusterStepGood(sha, contents, ClusterRun(c, ops[..k]), ops[k]);
      ClusterStepConserves(sha, contents, ClusterRun(c, ops[..k]), ops[k]);
    }
  }

  // ---------------------------------------------------------------- Keys that no restart has put behind the queue

  /** A round keeps the keys of every queue behind its generator. */
  lemma RoundAhead(c: Nodes, env: Env, m: VolumeID, targets: seq<VolumeID>)
    requires Ahead(c) && m in c && forall i | 0 <= i < |targets| :: targets[i] in c && targets[i] != m
    ensures Ahead(Round(c, env, m, targets).0)
  {
    if NextReplica(c[m]).Some? {
      hide Try, UpdateReplica, Ordered;
      var rp := NextReplica(c[m]).value;
      TryMaster(c, env, m, rp, targets);
      var (c', n) := Try(c, env, m, rp, targets);
      if n.Some? {
        var rp' := rp.(volumeIDs := rp.volumeIDs + [n.value]);
        NotedQueue(c[m], rp', n.value, env.tick);
        TurnedOrdered(QueueOf(c[m]), rp', env.tick);
      }
      forall w | w in c && w != m
        ensures Ordered(c'[w].tables.replicas, c'[w].lastKey)
      {
        assert QueueOf(c'[w]) == QueueOf(c[w]);
      }
    }
  }

  lemma ClusterStepAhead(sha: Bytes -> string, contents: set<Bytes>, c: Nodes, op: ClusterOp)
    requires Good(sha, contents, c) && Ahead(c) && !(op.OnNode? && op.op.Restart?)
    ensures Ahead(ClusterStep(c, op))
  {
    hide Inv, Honest, Round, Perform, Ordered;
    if Enabled(c, op) {
      match op
      case OnNode(n, o) => StepOrdered(c[n], o);
      case Replicate(env, m, targets) => RoundAhead(c, env, m, targets);
    }
  }

  // ---------------------------------------------------------------- Replication alone comes to an end

  ghost function Successes(c: Nodes, ops: seq<ClusterOp>): nat
    decreases |ops|
  {
    if ops == [] then 0
    else
      var k := |ops| - 1;
      Successes(c, ops[..k]) + if Succeeds(ClusterRun(c, ops[..k]), ops[k]) then 1 else 0
  }

  ghost predicate Succeeds(c: Nodes, op: ClusterOp) {
    Enabled(c, op) && op.Replicate? && Round(c, op.env, op.m, op.targets).1.Some?
  }

  lemma SuccessUsesWork(sha: Bytes -> string, contents: set<Bytes>, c: Nodes, op: ClusterOp)
    requires Good(sha, contents, c) && op.Replicate?
    ensures Total(ClusterStep(c, op)) <= Total(c) - if Succeeds(c, op) then 1 else 0
    ensures Ahead(c) ==> Total(ClusterStep(c, op)) == Total(c) - if Succeeds(c, op) then 1 else 0
  {
    hide Round, Honest, Displaced, Ordered, TwoWay, GoodRecords, Blobs, ReverseIndexed, Quota;
    if Enabled(c, op) {
      RoundWork(c, op.env, op.m, op.targets);
    }
  }

  /**
   * With rounds alone, every success uses up at least one unit of the pending work, so there are never more than at the
   * start; exactly one where no node was started anew over pending entries.
   */
  lemma {:induction false} RoundsEnd(sha: Bytes -> string, contents: set<Bytes>, c: Nodes, ops: seq<ClusterOp>)
    requires CollisionFree(sha, contents) && OpsDigested(sha, contents, ops) && Good(sha, contents, c)
    requires forall i | 0 <= i < |ops| :: ops[i].Replicate?
    ensures Good(sha, contents, ClusterRun(c, ops))
    ensures Successes(c, ops) <= Total(c) - Total(ClusterRun(c, ops))
    ensures Ahead(c) ==> Ahead(ClusterRun(c, ops)) && Successes(c, ops) == Total(c) - Total(ClusterRun(c, ops))
    decreases |ops|
  {
    hide Inv, Honest, ClusterStep, Good, Succeeds, Ahead;
    if ops != [] {
      var k := |ops| - 1;
      var before := ClusterRun(c, ops[..k]);
      assert OpsDigested(sha, contents, ops[..k]);
      RoundsEnd(sha, contents, c, ops[..k]);
      ClusterStepGood(sha, contents, before, ops[k]);
      SuccessUsesWork(sha, contents, before, ops[k]);
      if Ahead(before) {
        ClusterStepAhead(sha, contents, before, ops[k]);
      }
    }
  }
}
