/** When a replication round succeeds, and what becomes of rounds whose entry is out of date. */
module Rounds {
  import opened Types
  import opened ReplicaQueue
  import opened VolumeSpec
  import opened VolumeInvariant
  import opened VolumeRuns
  import opened Cluster
  import opened Agreement

  /** The target answers, has not got the key, takes replicas and has room for what the master reads under the key. */
  ghost predicate Takes(c: Nodes, env: Env, m: VolumeID, rp: Replica, n: VolumeID) {
    && m in c && n in c && n !in env.down && n in env.accepts && rp.key !in c[n].tables.idxkeys
    && GetFile(c[m], rp.key).Some?
    && Fits(c[n].tables, CopyRequest(env, rp, GetFile(c[m], rp.key).value))
  }

  lemma AttemptSucceedsExactly(c: Nodes, env: Env, m: VolumeID, rp: Replica, n: VolumeID)
    requires m in c && n in c && n != m
    ensures Attempt(c, env, m, rp, n).2 <==> Takes(c, env, m, rp, n) && Notable(c[m], rp)
  {
    hide UpdateReplica, NotifyAll, GetFile;
    if n in env.down || HasFile(c[n], rp.key).1 || GetFile(c[m], rp.key).None? || n !in env.accepts {
    } else {
      var a := CopyRequest(env, rp, GetFile(c[m], rp.key).value);
      FitsExactly(c[n], a);
      hide CreateFile, Fits;
      var c1 := c[n := CreateFile(c[n], a).0];
      var rp1 := rp.(volumeIDs := rp.volumeIDs + [n]);
      NotifyQueues(c1, env, m, rp1, rp1.volumeIDs);
      NotableExactly(c[m], rp1, n, env.tick);
    }
  }

  lemma FitsExactly(v: Vol, a: Request)
    ensures CreateFile(v, a).1.Ok? <==> Fits(v.tables, a)
  {
  }

  /** A failed attempt of an entry that can be noted takes no target away. */
  lemma TakesStays(c: Nodes, c': Nodes, env: Env, m: VolumeID, rp: Replica, n: VolumeID)
    requires SameTables(c, c') && m in c && c'[m] == c[m]
    ensures Takes(c', env, m, rp, n) <==> Takes(c, env, m, rp, n)
  {
    hide GetFile;
  }

  /** The target at `i` takes the copy, and none before it does. */
  ghost predicate FirstTaker(c: Nodes, env: Env, m: VolumeID, rp: Replica, targets: seq<VolumeID>, i: int) {
    0 <= i < |targets| && Takes(c, env, m, rp, targets[i]) && forall j | 0 <= j < i :: !Takes(c, env, m, rp, targets[j])
  }

  lemma {:induction false} TrySucceedsExactly(c: Nodes, env: Env, m: VolumeID, rp: Replica, targets: seq<VolumeID>)
    requires m in c && forall i | 0 <= i < |targets| :: targets[i] in c && targets[i] != m
    ensures Try(c, env, m, rp, targets).1.Some? <==>
            Notable(c[m], rp) && exists i :: 0 <= i < |targets| && Takes(c, env, m, rp, targets[i])
    decreases |targets|
  {
    hide Attempt, Takes, Notable, UpdateReplica;
    if !Notable(c[m], rp) {
      TryMaster(c, env, m, rp, targets);
    } else if targets != [] {
      var (c1, rp1, done) := Attempt(c, env, m, rp, targets[0]);
      AttemptSucceedsExactly(c, env, m, rp, targets[0]);
      if !done {
        AttemptFails(c, env, m, rp, targets[0]);
        AttemptMaster(c, env, m, rp, targets[0]);
        TrySucceedsExactly(c1, env, m, rp, targets[1..]);
        forall i | 0 <= i < |targets| - 1
          ensures Takes(c1, env, m, rp, targets[1..][i]) <==> Takes(c, env, m, rp, targets[i + 1])
        {
          TakesStays(c, c1, env, m, rp, targets[i + 1]);
        }
      }
    }
  }

  /** The first target that takes the copy gets it. */
  lemma {:induction false} FirstGets(c: Nodes, env: Env, m: VolumeID, rp: Replica, targets: seq<VolumeID>) returns (i: int)
    requires m in c && forall i | 0 <= i < |targets| :: targets[i] in c && targets[i] != m
    requires Try(c, env, m, rp, targets).1.Some?
    ensures FirstTaker(c, env, m, rp, targets, i) && Try(c, env, m, rp, targets).1 == Some(targets[i])
    decreases |targets|
  {
    hide Attempt, Takes, Notable, UpdateReplica;
    TryMaster(c, env, m, rp, targets);
    AttemptSucceedsExactly(c, env, m, rp, targets[0]);
    var (c1, rp1, done) := Attempt(c, env, m, rp, targets[0]);
    i := 0;
    if !done {
      AttemptFails(c, env, m, rp, targets[0]);
      AttemptMaster(c, env, m, rp, targets[0]);
      var k := FirstGets(c1, env, m, rp, targets[1..]);
      i := k + 1;
      forall j | 0 <= j < |targets| - 1
        ensures Takes(c1, env, m, rp, targets[1..][j]) <==> Takes(c, env, m, rp, targets[j + 1])
      {
        TakesStays(c, c1, env, m, rp, targets[j + 1]);
      }
      forall j | 0 <= j < i
        ensures !Takes(c, env, m, rp, targets[j])
      {
        assert j > 0 ==> !Takes(c1, env, m, rp, targets[1..][j - 1]);
      }
    }
  }

  /**
   * A round succeeds exactly when the node has an entry, still has the record of its content, and one of the targets
   * takes the copy. The first one that does gets it.
   */
  lemma RoundSucceedsExactly(c: Nodes, env: Env, m: VolumeID, targets: seq<VolumeID>)
    requires m in c && forall i | 0 <= i < |targets| :: targets[i] in c && targets[i] != m
    ensures Round(c, env, m, targets).1.Some? <==>
            && NextReplica(c[m]).Some? && Notable(c[m], NextReplica(c[m]).value)
            && exists i :: 0 <= i < |targets| && Takes(c, env, m, NextReplica(c[m]).value, targets[i])
    ensures var n := Round(c, env, m, targets).1;
            n.Some? ==> exists i :: FirstTaker(c, env, m, NextReplica(c[m]).value, targets, i) && targets[i] == n.value
  {
    hide Takes, Notable, Try;
    if NextReplica(c[m]).Some? {
      TrySucceedsExactly(c, env, m, NextReplica(c[m]).value, targets);
      if Try(c, env, m, NextReplica(c[m]).value, targets).1.Some? {
        var i := FirstGets(c, env, m, NextReplica(c[m]).value, targets);
      }
    }
  }

  // ---------------------------------------------------------------- An entry whose record was overwritten

  /** Overwriting the only key of the head's content leaves an entry that cannot be noted, with another content to copy. */
  lemma OverwrittenHead(v: Vol, a: Request)
    requires Inv(v) && Ordered(v.tables.replicas, v.lastKey) && NextReplica(v).Some? && Stores(v, a)
    requires var rp := NextReplica(v).value;
             a.key == rp.key && LastKeyOf(v.tables, rp.key) && v.tables.idxkeys[rp.key] == rp.signature
    ensures var v', rp := CreateFile(v, a).0, NextReplica(v).value;
            NextReplica(v') == Some(rp) && !Notable(v', rp) && GetFile(v', rp.key) == Some(a.content)
  {
    var rp := NextReplica(v).value;
    CreateReads(v, a, a.key);
    CreateQueue(v, a);
    CreateShape(v.tables, v.id, v.lastKey, a);
    StoredOutcome(v, a);
    FreedShape(v.tables, a.key);
    EnqueueOrdered(v.tables.replicas, v.lastKey, NextKey(v.lastKey, a.tick),
                   PendingReplica(v.id, a, StoredFile(v.tables, v.id, a).signature));
    hide CreateFile, Inv, GetFile, Enqueue, CreateTables, Freed;
    assert rp.signature !in CreateFile(v, a).0.tables.files;
  }

  lemma {:induction false} NotifyOthers(c: Nodes, env: Env, m: VolumeID, rp: Replica, todo: seq<VolumeID>, w: VolumeID)
    requires w in c && w !in todo
    ensures NotifyAll(c, env, m, rp, todo)[w] == c[w]
    decreases |todo|
  {
    hide UpdateFileReplica;
    if todo != [] {
      var u := todo[0];
      var c1 := if u == m || u !in c || u in env.down || u !in env.accepts then c
                else c[u := UpdateFileReplica(c[u], rp.key, rp.volumeIDs, rp.originalCount).0];
      NotifyOthers(c1, env, m, rp, todo[1..], w);
    }
  }

  /** One target of an entry that cannot be noted: it gets the copy, and the nodes that are not listed stay as they are. */
  lemma UnnotedAttempt(contents: set<Bytes>, c: Nodes, env: Env, m: VolumeID, rp: Replica, n: VolumeID, content: Bytes)
    requires CollisionFree(env.sha, contents) && Good(env.sha, contents, c) && m in c && n in c && n != m
    requires !Notable(c[m], rp) && GetFile(c[m], rp.key) == Some(content)
    ensures var (c', rp', done) := Attempt(c, env, m, rp, n);
            && !done && c'[m] == c[m] && rp' == rp.(volumeIDs := rp'.volumeIDs)
            && (rp'.volumeIDs == rp.volumeIDs || rp'.volumeIDs == rp.volumeIDs + [n])
            && (Takes(c, env, m, rp, n) ==> GetFile(c'[n], rp.key) == Some(content))
            && forall w | w in c && w !in rp.volumeIDs && w != n && w != m :: c'[w] == c[w]
  {
    hide Inv, Honest, UpdateReplica, GetFile, Notable, UpdateFileReplica;
    AttemptSucceedsExactly(c, env, m, rp, n);
    AttemptMaster(c, env, m, rp, n);
    if n in env.down || HasFile(c[n], rp.key).1 || n !in env.accepts {
    } else {
      var a := CopyRequest(env, rp, content);
      FitsExactly(c[n], a);
      if CreateFile(c[n], a).1.Ok? {
        hide Fits;
        CopyReads(contents, c, env, m, rp, n, content);
        var c1 := c[n := CreateFile(c[n], a).0];
        hide CreateFile;
        var rp1 := rp.(volumeIDs := rp.volumeIDs + [n]);
        var c2 := NotifyAll(c1, env, m, rp1, rp1.volumeIDs);
        CopyGrows(contents, c, env, m, rp, n, content);
        NotifyGrows(env.sha, contents, c1, env, m, rp1, rp1.volumeIDs, content);
        assert GetFile(c2[n], rp.key) == Some(content);
        forall w | w in c && w !in rp.volumeIDs && w != n && w != m
          ensures c2[w] == c[w]
        {
          NotifyOthers(c1, env, m, rp1, rp1.volumeIDs, w);
        }
      }
    }
  }

  lemma CopyReads(contents: set<Bytes>, c: Nodes, env: Env, m: VolumeID, rp: Replica, n: VolumeID, content: Bytes)
    requires CollisionFree(env.sha, contents) && Good(env.sha, contents, c) && m in c && n in c
    requires GetFile(c[m], rp.key) == Some(content) && CreateFile(c[n], CopyRequest(env, rp, content)).1.Ok?
    ensures GetFile(CreateFile(c[n], CopyRequest(env, rp, content)).0, rp.key) == Some(content)
  {
    CreateReads(c[n], CopyRequest(env, rp, content), rp.key);
  }

  /**
   * A round whose entry cannot be noted copies what the master now reads under the key to every target that takes it,
   * and then forgets about all of these copies: the entry, and everything else on the master, stays as it was.
   */
  lemma {:induction false} UnnotedCopies(contents: set<Bytes>, c: Nodes, env: Env, m: VolumeID, rp: Replica,
                                         targets: seq<VolumeID>, content: Bytes)
    requires CollisionFree(env.sha, contents) && Good(env.sha, contents, c) && m in c
    requires !Notable(c[m], rp) && GetFile(c[m], rp.key) == Some(content)
    requires NoDup(targets)
    requires forall i | 0 <= i < |targets| :: targets[i] in c && targets[i] != m && targets[i] !in rp.volumeIDs
    ensures var (c', n) := Try(c, env, m, rp, targets);
            && n == None && c'[m] == c[m]
            && forall i | 0 <= i < |targets| && Takes(c, env, m, rp, targets[i]) ::
                 GetFile(c'[targets[i]], rp.key) == Some(content)
    decreases |targets|
  {
    hide Inv, Honest, GetFile, Notable, Attempt, Takes;
    if targets != [] {
      var n := targets[0];
      var (c1, rp1, done) := Attempt(c, env, m, rp, n);
      UnnotedAttempt(contents, c, env, m, rp, n, content);
      AttemptGrows(contents, c, env, m, rp, n, content);
      assert !Notable(c1[m], rp1) by { NotableKept(c[m], rp, rp1); }
      UnnotedCopies(contents, c1, env, m, rp1, targets[1..], content);
      var c' := Try(c1, env, m, rp1, targets[1..]).0;
      TryGrows(contents, c1, env, m, rp1, targets[1..], content);
      forall i | 0 <= i < |targets| && Takes(c, env, m, rp, targets[i])
        ensures GetFile(c'[targets[i]], rp.key) == Some(content)
      {
        if i > 0 {
          assert targets[i] == targets[1..][i - 1];
          OtherTakes(c, c1, env, m, rp, rp1, targets[i]);
        }
      }
    }
  }

  lemma NotableKept(v: Vol, rp: Replica, rp1: Replica)
    requires rp1 == rp.(volumeIDs := rp1.volumeIDs)
    ensures Notable(v, rp1) <==> Notable(v, rp)
  {
  }

  lemma OtherTakes(c: Nodes, c1: Nodes, env: Env, m: VolumeID, rp: Replica, rp1: Replica, n: VolumeID)
    requires n in c && n in c1 && m in c && m in c1 && c1[n] == c[n] && c1[m] == c[m]
    requires rp1 == rp.(volumeIDs := rp1.volumeIDs)
    ensures Takes(c1, env, m, rp1, n) <==> Takes(c, env, m, rp, n)
  {
    hide GetFile;
  }
}
