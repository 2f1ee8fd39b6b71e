/** A replication round, seen from each single node: a run of calls on its volume. */
module RoundCalls {
  import opened Types
  import opened VolumeSpec
  import opened VolumeInvariant
  import opened VolumeRuns
  import opened Cluster

  /**
   * A call that a round for the entry `rp` makes on the volume `v`: the copy of what the master reads, under a key that
   * is not bound there, a new list under that key, or the note of a copy.
   */
  ghost predicate RoundCall(v: Vol, o: Op, env: Env, rp: Replica, read: Option<Bytes>) {
    match o
    case Create(a) => rp.key !in v.tables.idxkeys && read.Some? && a == CopyRequest(env, rp, read.value)
    case Relist(key, _, replica) => key == rp.key && replica == rp.originalCount
    case NoteReplica(e, _, tick) => e == rp.(volumeIDs := e.volumeIDs) && tick == env.tick
    case _ => false
  }

  ghost predicate AllRoundCalls(v: Vol, ops: seq<Op>, env: Env, rp: Replica, read: Option<Bytes>) {
    forall i | 0 <= i < |ops| :: RoundCall(Run(v, ops[..i]), ops[i], env, rp, read)
  }

  lemma {:induction false} RunConcat(v: Vol, p: seq<Op>, q: seq<Op>)
    ensures Run(v, p + q) == Run(Run(v, p), q)
    decreases |q|
  {
    hide Perform;
    if q == [] {
      assert p + q == p;
    } else {
      var n := |q| - 1;
      RunConcat(v, p, q[..n]);
      assert (p + q)[..|p + q| - 1] == p + q[..n];
    }
  }

  lemma CallsConcat(v: Vol, p: seq<Op>, q: seq<Op>, env: Env, rp: Replica, read: Option<Bytes>)
    requires AllRoundCalls(v, p, env, rp, read) && AllRoundCalls(Run(v, p), q, env, rp, read)
    ensures AllRoundCalls(v, p + q, env, rp, read) && Run(v, p + q) == Run(Run(v, p), q)
  {
    hide RoundCall, Run;
    RunConcat(v, p, q);
    forall i | 0 <= i < |p + q|
      ensures RoundCall(Run(v, (p + q)[..i]), (p + q)[i], env, rp, read)
    {
      if i < |p| {
        assert (p + q)[..i] == p[..i];
      } else {
        assert (p + q)[..i] == p + q[..i - |p|];
        RunConcat(v, p, q[..i - |p|]);
      }
    }
  }

  lemma OneCall(v: Vol, o: Op, env: Env, rp: Replica, read: Option<Bytes>)
    requires RoundCall(v, o, env, rp, read)
    ensures AllRoundCalls(v, [o], env, rp, read) && Run(v, [o]) == Perform(v, o).0
  {
    hide RoundCall, Perform;
    assert [o][..0] == [];
  }

  lemma NoCall(v: Vol, env: Env, rp: Replica, read: Option<Bytes>)
    ensures AllRoundCalls(v, [], env, rp, read) && Run(v, []) == v
  {
  }

  lemma {:induction false} NotifyCalls(c: Nodes, env: Env, m: VolumeID, rp: Replica, todo: seq<VolumeID>, w: VolumeID,
                                       read: Option<Bytes>)
    returns (ops: seq<Op>)
    requires w in c
    ensures NotifyAll(c, env, m, rp, todo)[w] == Run(c[w], ops) && AllRoundCalls(c[w], ops, env, rp, read)
    decreases |todo|
  {
    hide UpdateFileReplica, AllRoundCalls, Run;
    if todo == [] {
      ops := [];
      NoCall(c[w], env, rp, read);
    } else {
      var u := todo[0];
      var c1 := if u == m || u !in c || u in env.down || u !in env.accepts then c
                else c[u := UpdateFileReplica(c[u], rp.key, rp.volumeIDs, rp.originalCount).0];
      var rest := NotifyCalls(c1, env, m, rp, todo[1..], w, read);
      if c1[w] == c[w] {
        ops := rest;
      } else {
        var o := Relist(rp.key, rp.volumeIDs, rp.originalCount);
        OneCall(c[w], o, env, rp, read);
        CallsConcat(c[w], [o], rest, env, rp, read);
        ops := [o] + rest;
      }
    }
  }

  /** The list that the round holds does not matter. */
  lemma SameEntryCalls(v: Vol, ops: seq<Op>, env: Env, rp: Replica, rp1: Replica, read: Option<Bytes>)
    requires AllRoundCalls(v, ops, env, rp1, read) && rp1 == rp.(volumeIDs := rp1.volumeIDs)
    ensures AllRoundCalls(v, ops, env, rp, read)
  {
    hide Run;
    forall i | 0 <= i < |ops|
      ensures RoundCall(Run(v, ops[..i]), ops[i], env, rp, read)
    {
      assert RoundCall(Run(v, ops[..i]), ops[i], env, rp1, read);
    }
  }

  lemma AttemptCalls(c: Nodes, env: Env, m: VolumeID, rp: Replica, n: VolumeID, w: VolumeID) returns (ops: seq<Op>)
    requires m in c && n in c && n != m && w in c
    ensures Attempt(c, env, m, rp, n).0[w] == Run(c[w], ops)
    ensures AllRoundCalls(c[w], ops, env, rp, GetFile(c[m], rp.key))
  {
    hide CreateFile, UpdateReplica, GetFile, AllRoundCalls, Run, NotifyAll;
    var read := GetFile(c[m], rp.key);
    ops := [];
    NoCall(c[w], env, rp, read);
    if !(n in env.down || HasFile(c[n], rp.key).1 || read.None? || n !in env.accepts) {
      var a := CopyRequest(env, rp, read.value);
      var (vn, made) := CreateFile(c[n], a);
      var c1 := c[n := vn];
      if w == n {
        OneCall(c[n], Create(a), env, rp, read);
        ops := [Create(a)];
      }
      if made.Ok? {
        var rp1 := rp.(volumeIDs := rp.volumeIDs + [n]);
        var c2 := NotifyAll(c1, env, m, rp1, rp1.volumeIDs);
        var more := NotifyCalls(c1, env, m, rp1, rp1.volumeIDs, w, read);
        SameEntryCalls(c1[w], more, env, rp, rp1, read);
        CallsConcat(c[w], ops, more, env, rp, read);
        ops := ops + more;
        if w == m {
          var o := NoteReplica(rp1, n, env.tick);
          OneCall(c2[m], o, env, rp, read);
          CallsConcat(c[w], ops, [o], env, rp, read);
          ops := ops + [o];
        }
      }
    }
  }

  lemma {:induction false} TryCalls(c: Nodes, env: Env, m: VolumeID, rp: Replica, targets: seq<VolumeID>, w: VolumeID)
    returns (ops: seq<Op>)
    requires m in c && w in c && forall i | 0 <= i < |targets| :: targets[i] in c && targets[i] != m
    ensures Try(c, env, m, rp, targets).0[w] == Run(c[w], ops)
    ensures AllRoundCalls(c[w], ops, env, rp, GetFile(c[m], rp.key))
    decreases |targets|
  {
    hide Attempt, AllRoundCalls, Run, GetFile, UpdateReplica, Notable;
    var read := GetFile(c[m], rp.key);
    if targets == [] {
      ops := [];
      NoCall(c[w], env, rp, read);
    } else {
      var (c1, rp1, done) := Attempt(c, env, m, rp, targets[0]);
      ops := AttemptCalls(c, env, m, rp, targets[0], w);
      if !done {
        AttemptMaster(c, env, m, rp, targets[0]);
        var more := TryCalls(c1, env, m, rp1, targets[1..], w);
        SameEntryCalls(c1[w], more, env, rp, rp1, read);
        CallsConcat(c[w], ops, more, env, rp, read);
        ops := ops + more;
      }
    }
  }

  /**
   * What a round does to a node, whatever its entry is worth: copies of what the master reads under the entry's key,
   * each to a node that has not bound the key, new lists under that key, and notes of copies. It deletes nothing.
   */
  lemma RoundIsCalls(c: Nodes, env: Env, m: VolumeID, targets: seq<VolumeID>, w: VolumeID) returns (ops: seq<Op>)
    requires m in c && w in c && forall i | 0 <= i < |targets| :: targets[i] in c && targets[i] != m
    ensures Round(c, env, m, targets).0[w] == Run(c[w], ops)
    ensures NextReplica(c[m]).None? ==> ops == []
    ensures NextReplica(c[m]).Some? ==>
              AllRoundCalls(c[w], ops, env, NextReplica(c[m]).value, GetFile(c[m], NextReplica(c[m]).value.key))
  {
    hide Try, AllRoundCalls;
    if NextReplica(c[m]).Some? {
      ops := TryCalls(c, env, m, NextReplica(c[m]).value, targets, w);
    } else {
      ops := [];
    }
  }

  /** The calls of a round keep the invariant of the volume. */
  lemma RoundCallsKeep(contents: set<Bytes>, v: Vol, ops: seq<Op>, env: Env, rp: Replica, read: Option<Bytes>)
    requires CollisionFree(env.sha, contents) && Inv(v) && Honest(env.sha, contents, v)
    requires AllRoundCalls(v, ops, env, rp, read) && (read.Some? ==> read.value in contents)
    ensures Inv(Run(v, ops))
  {
    hide Inv, Honest, Run;
    forall i | 0 <= i < |ops|
      ensures Digested(env.sha, contents, ops[i])
    {
      assert RoundCall(Run(v, ops[..i]), ops[i], env, rp, read);
    }
    RunKeeps(env.sha, contents, v, ops);
  }
}
