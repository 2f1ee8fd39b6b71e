/** A cluster of nodes with one volume each, and the replication rounds that its nodes run. */
module Cluster {
  import opened Types
  import opened ReplicaQueue
  import opened VolumeSpec
  import opened VolumeInvariant
  import opened VolumeRuns

  /** The nodes of the cluster, named by their volume. */
  type Nodes = map<VolumeID, Vol>

  /**
   * What a round meets: the nodes whose configuration takes replicas, the nodes that do not answer, the digest of
   * contents, and the readings that the calls take.
   */
  datatype Env = Env(accepts: set<VolumeID>, down: set<VolumeID>, sha: Bytes -> string, now: int, tick: int, uuid: string)

  /** A copy asks for no further replicas. */
  const NO_REPLICA := 1

  function CopyRequest(env: Env, rp: Replica, content: Bytes): Request {
    Request(rp.key, content, env.sha(content), NO_REPLICA, rp.ttl, rp.createdAt, env.now, env.tick, env.uuid)
  }

  /** Every listed node but the master is told the new list; one that is gone or does not answer is passed over. */
  function NotifyAll(c: Nodes, env: Env, m: VolumeID, rp: Replica, todo: seq<VolumeID>): (r: Nodes)
    ensures r.Keys == c.Keys
    decreases |todo|
  {
    if todo == [] then c
    else
      var w := todo[0];
      var c1 := if w == m || w !in c || w in env.down || w !in env.accepts then c
                else c[w := UpdateFileReplica(c[w], rp.key, rp.volumeIDs, rp.originalCount).0];
      NotifyAll(c1, env, m, rp, todo[1..])
  }

  /** One target: the nodes afterwards, the entry as the round now holds it, and whether the round is done. */
  function Attempt(c: Nodes, env: Env, m: VolumeID, rp: Replica, n: VolumeID): (r: (Nodes, Replica, bool))
    requires m in c && n in c
    ensures r.0.Keys == c.Keys
  {
    if n in env.down || HasFile(c[n], rp.key).1 || GetFile(c[m], rp.key).None? || n !in env.accepts then (c, rp, false)
    else
      var (vn, made) := CreateFile(c[n], CopyRequest(env, rp, GetFile(c[m], rp.key).value));
      var c1 := c[n := vn];
      if made.Err? then (c1, rp, false)
      else
        var rp1 := rp.(volumeIDs := rp.volumeIDs + [n]);
        var c2 := NotifyAll(c1, env, m, rp1, rp1.volumeIDs);
        var (vm, noted) := UpdateReplica(c2[m], rp1, n, env.tick);
        (c2[m := vm], rp1, noted.Ok?)
  }

  /** The targets in turn, until one of them took the copy. */
  function Try(c: Nodes, env: Env, m: VolumeID, rp: Replica, targets: seq<VolumeID>): (r: (Nodes, Option<VolumeID>))
    requires m in c && forall i | 0 <= i < |targets| :: targets[i] in c
    ensures r.0.Keys == c.Keys
    decreases |targets|
  {
    if targets == [] then (c, None)
    else
      var (c1, rp1, done) := Attempt(c, env, m, rp, targets[0]);
      if done then (c1, Some(targets[0])) else Try(c1, env, m, rp1, targets[1..])
  }

  /** The members of `m` that hold none of the listed volumes, in the order in which they come up. */
  ghost predicate Targets(c: Nodes, m: VolumeID, vids: seq<VolumeID>, targets: seq<VolumeID>) {
    && NoDup(targets)
    && (forall n :: n in targets <==> n in c && n != m && n !in vids)
    && (forall i | 0 <= i < |targets| :: targets[i] in c && targets[i] != m && targets[i] !in vids)
  }

  /** One pass of the replication loop of node `m`: the nodes afterwards, and the node that took a copy. */
  function Round(c: Nodes, env: Env, m: VolumeID, targets: seq<VolumeID>): (r: (Nodes, Option<VolumeID>))
    requires m in c && forall i | 0 <= i < |targets| :: targets[i] in c
    ensures r.0.Keys == c.Keys
  {
    if NextReplica(c[m]).None? then (c, None) else Try(c, env, m, NextReplica(c[m]).value, targets)
  }

  /** The volume is told of each lost volume in turn; a call that fails is passed over. */
  function RepairAll(v: Vol, lost: seq<VolumeID>, uuids: seq<seq<string>>, ticks: seq<seq<int>>): Vol
    decreases |lost|
  {
    if lost == [] then v
    else
      var n := |lost| - 1;
      SynchronizeReplicas(RepairAll(v, lost[..n], uuids, ticks), lost[n], At(uuids, n, []), At(ticks, n, [])).0
  }

  // ---------------------------------------------------------------- The loops themselves

  class Service {
    var nodes: Nodes

    constructor (nodes: Nodes)
      ensures this.nodes == nodes
    {
      this.nodes := nodes;
    }

    method Notify(env: Env, m: VolumeID, rp: Replica)
      modifies this
      ensures nodes == NotifyAll(old(nodes), env, m, rp, rp.volumeIDs)
    {
      for i := 0 to |rp.volumeIDs|
        invariant NotifyAll(nodes, env, m, rp, rp.volumeIDs[i..]) == NotifyAll(old(nodes), env, m, rp, rp.volumeIDs)
      {
        var vid := rp.volumeIDs[i];
        assert rp.volumeIDs[i..][1..] == rp.volumeIDs[i + 1..];
        if vid == m {
          continue;
        }
        if vid !in nodes || vid in env.down || vid !in env.accepts {
          continue;
        }
        var (v, _) := UpdateFileReplica(nodes[vid], rp.key, rp.volumeIDs, rp.originalCount);
        nodes := nodes[vid := v];
      }
    }

    /** One pass of the loop over the pending replicas of the volume of node `m`. */
    method ReplicateOnce(env: Env, m: VolumeID, targets: seq<VolumeID>) returns (replicated: Option<VolumeID>)
      requires m in nodes && forall i | 0 <= i < |targets| :: targets[i] in nodes
      modifies this
      ensures (nodes, replicated) == Round(old(nodes), env, m, targets)
    {
      replicated := None;
      var next := NextReplica(nodes[m]);
      if next.None? {
        return;
      }
      var rp := next.value;
      for i := 0 to |targets|
        invariant nodes.Keys == old(nodes).Keys && replicated == None
        invariant Try(nodes, env, m, rp, targets[i..]) == Try(old(nodes), env, m, next.value, targets)
      {
        var n := targets[i];
        assert targets[i..][1..] == targets[i + 1..];
        if n in env.down { continue; }
        var (_, has) := HasFile(nodes[n], rp.key);
        if has { continue; }
        var content := GetFile(nodes[m], rp.key);
        if content.None? { continue; }
        if n !in env.accepts { continue; }
        var (vn, made) := CreateFile(nodes[n], CopyRequest(env, rp, content.value));
        nodes := nodes[n := vn];
        if made.Err? { continue; }
        rp := rp.(volumeIDs := rp.volumeIDs + [n]);
        Notify(env, m, rp);
        var (vm, noted) := UpdateReplica(nodes[m], rp, n, env.tick);
        nodes := nodes[m := vm];
        if noted.Err? { continue; }
        replicated := Some(n);
        return;
      }
    }

    /** One pass of the loop over the volumes that were reported as removed. */
    method RepairLost(m: VolumeID, lost: seq<VolumeID>, uuids: seq<seq<string>>, ticks: seq<seq<int>>)
      requires m in nodes
      modifies this
      ensures nodes == old(nodes)[m := RepairAll(old(nodes)[m], lost, uuids, ticks)]
    {
      for i := 0 to |lost|
        invariant nodes == old(nodes)[m := RepairAll(old(nodes)[m], lost[..i], uuids, ticks)]
      {
        assert lost[..i + 1][..i] == lost[..i];
        var (v, r) := SynchronizeReplicas(nodes[m], lost[i], At(uuids, i, []), At(ticks, i, []));
        nodes := nodes[m := v];
        if r.Err? { continue; }
      }
      assert lost[..|lost|] == lost;
    }
  }

  // ---------------------------------------------------------------- Rounds only add

  ghost predicate Good(sha: Bytes -> string, contents: set<Bytes>, c: Nodes) {
    forall n | n in c :: c[n].id == n && Inv(c[n]) && Honest(sha, contents, c[n])
  }

  /** No node has been started anew over entries whose keys its generator does not know. */
  ghost predicate Ahead(c: Nodes) {
    forall n | n in c :: Ordered(c[n].tables.replicas, c[n].lastKey)
  }

  /** Nothing that a node read has changed, and the only new thing that some node reads is `content` under `key`. */
  ghost predicate Grows(c: Nodes, c': Nodes, key: Key, content: Bytes) {
    && c'.Keys == c.Keys
    && forall n, k | n in c ::
         GetFile(c'[n], k) == GetFile(c[n], k) || (k == key && GetFile(c[n], k) == None && GetFile(c'[n], k) == Some(content))
  }

  lemma GrowsChain(c0: Nodes, c1: Nodes, c2: Nodes, key: Key, content: Bytes)
    requires Grows(c0, c1, key, content) && Grows(c1, c2, key, content)
    ensures Grows(c0, c2, key, content)
  {
    forall n, k | n in c0
      ensures GetFile(c2[n], k) == GetFile(c0[n], k) ||
              (k == key && GetFile(c0[n], k) == None && GetFile(c2[n], k) == Some(content))
    {
      assert n in c1 && n in c2;
    }
  }

  lemma RelistedNode(sha: Bytes -> string, contents: set<Bytes>, c: Nodes, w: VolumeID, key: Key, vids: seq<VolumeID>,
                     replica: int, any: Bytes)
    requires Good(sha, contents, c) && w in c
    ensures var c' := c[w := UpdateFileReplica(c[w], key, vids, replica).0];
            Good(sha, contents, c') && Grows(c, c', key, any)
  {
    hide Inv, GetFile, UpdateFileReplica, Sized;
    UpdateFileReplicaKeeps(c[w], key, vids, replica);
    UpdateFileReplicaSame(c[w], key, vids, replica);
    StepSized(c[w], Relist(key, vids, replica));
    SameAbsSameReads(c[w], UpdateFileReplica(c[w], key, vids, replica).0);
  }

  lemma {:induction false} NotifyGrows(sha: Bytes -> string, contents: set<Bytes>, c: Nodes, env: Env, m: VolumeID,
                                       rp: Replica, todo: seq<VolumeID>, any: Bytes)
    requires Good(sha, contents, c)
    ensures Good(sha, contents, NotifyAll(c, env, m, rp, todo))
    ensures Grows(c, NotifyAll(c, env, m, rp, todo), rp.key, any)
    decreases |todo|
  {
    if todo != [] {
      var w := todo[0];
      var c1 := if w == m || w !in c || w in env.down || w !in env.accepts then c
                else c[w := UpdateFileReplica(c[w], rp.key, rp.volumeIDs, rp.originalCount).0];
      if c1 != c {
        RelistedNode(sha, contents, c, w, rp.key, rp.volumeIDs, rp.originalCount, any);
      }
      NotifyGrows(sha, contents, c1, env, m, rp, todo[1..], any);
      GrowsChain(c, c1, NotifyAll(c, env, m, rp, todo), rp.key, any);
    }
  }

  lemma CopyGrows(contents: set<Bytes>, c: Nodes, env: Env, m: VolumeID, rp: Replica, n: VolumeID, content: Bytes)
    requires CollisionFree(env.sha, contents) && Good(env.sha, contents, c) && m in c && n in c
    requires GetFile(c[m], rp.key) == Some(content) && !HasFile(c[n], rp.key).1
    ensures var c' := c[n := CreateFile(c[n], CopyRequest(env, rp, content)).0];
            Good(env.sha, contents, c') && Grows(c, c', rp.key, content)
  {
    hide Inv, CreateFile;
    var a := CopyRequest(env, rp, content);
    assert content in contents;
    StepKeeps(env.sha, contents, c[n], Create(a));
    HonestNoClash(env.sha, contents, c[n], a);
    forall k
      ensures GetFile(CreateFile(c[n], a).0, k) == GetFile(c[n], k) ||
              (k == rp.key && GetFile(c[n], k) == None && GetFile(CreateFile(c[n], a).0, k) == Some(content))
    {
      CreateStepReads(c[n], a, k);
    }
  }

  lemma NoteGrows(sha: Bytes -> string, contents: set<Bytes>, c: Nodes, m: VolumeID, rp: Replica, n: VolumeID, tick: int,
                  key: Key, any: Bytes)
    requires Good(sha, contents, c) && m in c
    ensures var c' := c[m := UpdateReplica(c[m], rp, n, tick).0];
            Good(sha, contents, c') && Grows(c, c', key, any)
  {
    hide Inv, GetFile, UpdateReplica, Sized;
    UpdateReplicaKeeps(c[m], rp, n, tick);
    UpdateReplicaSame(c[m], rp, n, tick);
    StepSized(c[m], NoteReplica(rp, n, tick));
    SameAbsSameReads(c[m], UpdateReplica(c[m], rp, n, tick).0);
  }

  lemma AttemptGrows(contents: set<Bytes>, c: Nodes, env: Env, m: VolumeID, rp: Replica, n: VolumeID, content: Bytes)
    requires CollisionFree(env.sha, contents) && Good(env.sha, contents, c) && m in c && n in c
    requires GetFile(c[m], rp.key).Some? ==> GetFile(c[m], rp.key).value == content
    ensures Good(env.sha, contents, Attempt(c, env, m, rp, n).0)
    ensures Grows(c, Attempt(c, env, m, rp, n).0, rp.key, content)
    ensures Attempt(c, env, m, rp, n).1.key == rp.key
  {
    hide Inv, Honest, CreateFile, UpdateReplica, GetFile;
    if n in env.down || HasFile(c[n], rp.key).1 || GetFile(c[m], rp.key).None? || n !in env.accepts {
    } else {
      CopyGrows(contents, c, env, m, rp, n, content);
      var (vn, made) := CreateFile(c[n], CopyRequest(env, rp, content));
      var c1 := c[n := vn];
      if made.Ok? {
        var rp1 := rp.(volumeIDs := rp.volumeIDs + [n]);
        var c2 := NotifyAll(c1, env, m, rp1, rp1.volumeIDs);
        NotifyGrows(env.sha, contents, c1, env, m, rp1, rp1.volumeIDs, content);
        NoteGrows(env.sha, contents, c2, m, rp1, n, env.tick, rp.key, content);
        GrowsChain(c, c1, c2, rp.key, content);
        GrowsChain(c, c2, c2[m := UpdateReplica(c2[m], rp1, n, env.tick).0], rp.key, content);
      }
    }
  }

  lemma {:induction false} TryGrows(contents: set<Bytes>, c: Nodes, env: Env, m: VolumeID, rp: Replica,
                                    targets: seq<VolumeID>, content: Bytes)
    requires CollisionFree(env.sha, contents) && Good(env.sha, contents, c) && m in c
    requires forall i | 0 <= i < |targets| :: targets[i] in c
    requires GetFile(c[m], rp.key).Some? ==> GetFile(c[m], rp.key).value == content
    ensures Good(env.sha, contents, Try(c, env, m, rp, targets).0)
    ensures Grows(c, Try(c, env, m, rp, targets).0, rp.key, content)
    decreases |targets|
  {
    hide Inv, Honest, GetFile, Attempt;
    if targets != [] {
      var (c1, rp1, done) := Attempt(c, env, m, rp, targets[0]);
      AttemptGrows(contents, c, env, m, rp, targets[0], content);
      if !done {
        TryGrows(contents, c1, env, m, rp1, targets[1..], content);
        GrowsChain(c, c1, Try(c1, env, m, rp1, targets[1..]).0, rp.key, content);
      }
    }
  }

  /** A round changes no binding on any node; all it can add is the master's content, under the same key. */
  lemma RoundOnlyAdds(contents: set<Bytes>, c: Nodes, env: Env, m: VolumeID, targets: seq<VolumeID>, n: VolumeID, k: Key)
    requires CollisionFree(env.sha, contents) && Good(env.sha, contents, c) && m in c && n in c
    requires forall i | 0 <= i < |targets| :: targets[i] in c
    ensures Good(env.sha, contents, Round(c, env, m, targets).0)
    ensures var before, after := GetFile(c[n], k), GetFile(Round(c, env, m, targets).0[n], k);
            after == before || (before == None && after.Some? && after == GetFile(c[m], k))
  {
    if NextReplica(c[m]).Some? {
      var rp := NextReplica(c[m]).value;
      var content := if GetFile(c[m], rp.key).Some? then GetFile(c[m], rp.key).value else [];
      TryGrows(contents, c, env, m, rp, targets, content);
      if GetFile(c[m], rp.key).None? {
        NothingToCopy(c, env, m, rp, targets);
      }
    }
  }

  lemma {:induction false} NothingToCopy(c: Nodes, env: Env, m: VolumeID, rp: Replica, targets: seq<VolumeID>)
    requires m in c && GetFile(c[m], rp.key).None? && forall i | 0 <= i < |targets| :: targets[i] in c
    ensures Try(c, env, m, rp, targets) == (c, None)
    decreases |targets|
  {
    if targets != [] {
      assert Attempt(c, env, m, rp, targets[0]) == (c, rp, false);
      NothingToCopy(c, env, m, rp, targets[1..]);
    }
  }

  // ---------------------------------------------------------------- Queues of a round

  lemma {:induction false} NotifyQueues(c: Nodes, env: Env, m: VolumeID, rp: Replica, todo: seq<VolumeID>)
    ensures forall w | w in c :: QueueOf(NotifyAll(c, env, m, rp, todo)[w]) == QueueOf(c[w])
    ensures m in c ==> NotifyAll(c, env, m, rp, todo)[m] == c[m]
    decreases |todo|
  {
    if todo != [] {
      var w := todo[0];
      var c1 := if w == m || w !in c || w in env.down || w !in env.accepts then c
                else c[w := UpdateFileReplica(c[w], rp.key, rp.volumeIDs, rp.originalCount).0];
      NotifyQueues(c1, env, m, rp, todo[1..]);
    }
  }

  /** A copy is stored without asking for replicas, so it puts nothing in any queue. */
  lemma CopyQueuesNothing(v: Vol, a: Request)
    requires a.replica == NO_REPLICA
    ensures QueueOf(CreateFile(v, a).0) == QueueOf(v)
  {
  }

  /** The master takes note of the copies that were made: only then does its volume change. */
  ghost predicate MasterAfter(c: Nodes, c': Nodes, m: VolumeID, rp: Replica, n: VolumeID, tick: int, done: bool) {
    && m in c && c'.Keys == c.Keys
    && (forall w | w in c && w != m :: QueueOf(c'[w]) == QueueOf(c[w]))
    && if done then
         var rp' := rp.(volumeIDs := rp.volumeIDs + [n]);
         UpdateReplica(c[m], rp', n, tick) == (c'[m], Ok)
       else c'[m] == c[m]
  }

  /** Whether the master can take note of the entry; without faults this does not change from target to target. */
  predicate Notable(v: Vol, rp: Replica) {
    rp.signature != "" && rp.originalCount != 0 && rp.signature in v.tables.files
  }

  lemma NotableExactly(v: Vol, rp: Replica, n: VolumeID, tick: int)
    ensures UpdateReplica(v, rp, n, tick).1.Ok? <==> Notable(v, rp)
    ensures UpdateReplica(v, rp, n, tick).1.Err? ==> UpdateReplica(v, rp, n, tick).0 == v
  {
  }

  lemma AttemptMaster(c: Nodes, env: Env, m: VolumeID, rp: Replica, n: VolumeID)
    requires m in c && n in c && n != m
    ensures var (c', rp', done) := Attempt(c, env, m, rp, n);
            && MasterAfter(c, c', m, rp, n, env.tick, done)
            && rp' == rp.(volumeIDs := rp'.volumeIDs)
            && (done ==> Notable(c[m], rp))
            && (!done && Notable(c[m], rp) ==> rp' == rp)
  {
    hide CreateFile, GetFile, HasFile, UpdateReplica, NotifyAll;
    if n in env.down || HasFile(c[n], rp.key).1 || GetFile(c[m], rp.key).None? || n !in env.accepts {
    } else {
      var a := CopyRequest(env, rp, GetFile(c[m], rp.key).value);
      CopyQueuesNothing(c[n], a);
      var c1 := c[n := CreateFile(c[n], a).0];
      var rp1 := rp.(volumeIDs := rp.volumeIDs + [n]);
      NotifyQueues(c1, env, m, rp1, rp1.volumeIDs);
      NotableExactly(c[m], rp1, n, env.tick);
    }
  }

  /**
   * A round either makes its master note one new copy of the entry that it began with, or leaves the master as it was;
   * no other queue of the cluster changes.
   */
  lemma {:induction false} TryMaster(c: Nodes, env: Env, m: VolumeID, rp: Replica, targets: seq<VolumeID>)
    requires m in c && forall i | 0 <= i < |targets| :: targets[i] in c && targets[i] != m
    ensures var (c', n) := Try(c, env, m, rp, targets);
            && MasterAfter(c, c', m, rp, if n.Some? then n.value else "", env.tick, n.Some?)
            && (n.Some? ==> n.value in targets && Notable(c[m], rp))
    decreases |targets|
  {
    hide Attempt, UpdateReplica;
    if targets != [] {
      var (c1, rp1, done) := Attempt(c, env, m, rp, targets[0]);
      AttemptMaster(c, env, m, rp, targets[0]);
      if !done {
        TryMaster(c1, env, m, rp1, targets[1..]);
      }
    }
  }

  lemma NotedQueue(v: Vol, rp: Replica, n: VolumeID, tick: int)
    requires UpdateReplica(v, rp, n, tick).1.Ok?
    ensures QueueOf(UpdateReplica(v, rp, n, tick).0) == Turned(QueueOf(v), rp, tick)
  {
  }

  // ---------------------------------------------------------------- Rounds come to an end

  /** The successful turns that an entry can still get: one for each missing copy, and at least one. */
  function Pending(rp: Replica): nat {
    if rp.count >= 1 then rp.count else 1
  }

  function Weight(q: seq<Replica>): nat {
    if q == [] then 0 else Pending(q[0]) + Weight(q[1..])
  }

  /** The turns of the entry that is stored under the key `k`, if there is one. */
  function WeightAt(q: seq<Replica>, k: nat): nat {
    if q == [] then 0 else if q[0].volumeReplicaID == k then Pending(q[0]) else WeightAt(q[1..], k)
  }

  lemma {:induction false} NothingAt(q: seq<Replica>, k: nat)
    requires forall i | 0 <= i < |q| :: q[i].volumeReplicaID != k
    ensures WeightAt(q, k) == 0
  {
    if q != [] {
      NothingAt(q[1..], k);
    }
  }

  /** A stored entry adds its turns to the queue, and takes those of the entry that had its key. */
  lemma {:induction false} EnqueueWeight(q: seq<Replica>, k: nat, rp: Replica)
    requires Sorted(q)
    ensures Weight(Enqueue(q, k, rp)) + WeightAt(q, k) == Weight(q) + Pending(rp)
  {
    var e := rp.(volumeReplicaID := k);
    if q == [] || k < q[0].volumeReplicaID {
      assert ([e] + q)[1..] == q;
      NothingAt(q, k);
    } else if k == q[0].volumeReplicaID {
      assert ([e] + q[1..])[1..] == q[1..];
    } else {
      EnqueueWeight(q[1..], k, rp);
      var tail := Enqueue(q[1..], k, rp);
      assert ([q[0]] + tail)[1..] == tail;
    }
  }

  /** What a turn of the head loses: the turns of the entry whose key is drawn anew for the head. */
  function Displaced(q: Queue, tick: int): nat
    requires q.entries != []
  {
    if q.entries[0].count > 1 then WeightAt(q.entries[1..], NextKey(q.lastKey, tick)) else 0
  }

  lemma TurnWeight(q: Queue, rp: Replica, tick: int)
    requires Sorted(q.entries) && q.entries != [] && rp == q.entries[0].(volumeIDs := rp.volumeIDs)
    ensures Weight(Turned(q, rp, tick).entries) == Weight(q.entries) - 1 - Displaced(q, tick)
    ensures Ordered(q.entries, q.lastKey) ==> Displaced(q, tick) == 0
  {
    RemoveHead(q.entries);
    assert Sorted(q.entries[1..]);
    hide Sorted, Omit, Enqueue;
    if rp.count > 1 {
      EnqueueWeight(q.entries[1..], NextKey(q.lastKey, tick), rp.(count := rp.count - 1));
      if Ordered(q.entries, q.lastKey) {
        NothingAt(q.entries[1..], NextKey(q.lastKey, tick));
      }
    }
  }

  /** The turns that all queues of the cluster can still get. */
  ghost function Total(c: Nodes): nat
    decreases |c|
  {
    if c == map[] then 0
    else
      var w :| w in c;
      Weight(c[w].tables.replicas) + Total(c - {w})
  }

  lemma {:induction false} TotalTake(c: Nodes, w: VolumeID)
    requires w in c
    ensures Total(c) == Weight(c[w].tables.replicas) + Total(c - {w})
    decreases |c|
  {
    var p :| p in c && Total(c) == Weight(c[p].tables.replicas) + Total(c - {p});
    if p != w {
      TotalTake(c - {p}, w);
      TotalTake(c - {w}, p);
      assert c - {p} - {w} == c - {w} - {p};
    }
  }

  lemma {:induction false} TotalSame(c: Nodes, c': Nodes)
    requires c'.Keys == c.Keys && forall w | w in c :: c'[w].tables.replicas == c[w].tables.replicas
    ensures Total(c') == Total(c)
    decreases |c|
  {
    if c != map[] {
      var w :| w in c;
      TotalTake(c, w);
      TotalTake(c', w);
      TotalSame(c - {w}, c' - {w});
    } else {
      assert c' == map[];
    }
  }

  /**
   * Every successful round uses up one turn, and what the key that is drawn for its entry displaces; any other round
   * uses up nothing. Within one process no key displaces anything.
   */
  lemma RoundWork(c: Nodes, env: Env, m: VolumeID, targets: seq<VolumeID>)
    requires m in c && Sorted(c[m].tables.replicas)
    requires forall i | 0 <= i < |targets| :: targets[i] in c && targets[i] != m
    ensures var (c', n) := Round(c, env, m, targets);
            && (n.Some? ==> c[m].tables.replicas != [])
            && Total(c') == Total(c) - (if n.Some? then 1 + Displaced(QueueOf(c[m]), env.tick) else 0)
            && (n.Some? && Ordered(c[m].tables.replicas, c[m].lastKey) ==> Displaced(QueueOf(c[m]), env.tick) == 0)
  {
    hide Try, UpdateReplica, Turned, Weight, Ordered, Displaced, Sorted;
    if NextReplica(c[m]).Some? {
      var rp := NextReplica(c[m]).value;
      var (c', n) := Try(c, env, m, rp, targets);
      TryMaster(c, env, m, rp, targets);
      TotalTake(c, m);
      TotalTake(c', m);
      assert forall w | w in c - {m} :: QueueOf(c'[w]) == QueueOf(c[w]);
      TotalSame(c - {m}, c' - {m});
      if n.Some? {
        var rp' := rp.(volumeIDs := rp.volumeIDs + [n.value]);
        NotedQueue(c[m], rp', n.value, env.tick);
        TurnWeight(QueueOf(c[m]), rp', env.tick);
      }
    }
  }
}
