/** What a call leaves alone: the contents whose record and key it does not touch. */
module Untouched {
  import opened Types
  import opened ReplicaQueue
  import opened VolumeSpec
  import opened VolumeInvariant
  import opened VolumeRuns
  import opened Cluster
  import opened Agreement
  import TtlSweep

  // ---------------------------------------------------------------- One node

  /** The key is not one of those that the node's record of `s` lists. */
  ghost predicate KeyClear(v: Vol, key: Key, s: Signature) {
    s in v.tables.files ==> key !in v.tables.files[s].keys
  }

  lemma EnqueueApart(q: seq<Replica>, lastKey: nat, k: nat, rp: Replica, s: Signature)
    requires Ordered(q, lastKey) && lastKey < k
    ensures EntriesFor(Enqueue(q, k, rp), s) ==
            EntriesFor(q, s) + if rp.signature == s then [rp.(volumeReplicaID := k)] else []
  {
    EnqueueOrdered(q, lastKey, k, rp);
    EntriesSnoc(q, rp.(volumeReplicaID := k), s);
  }

  lemma CreateQueueFor(v: Vol, a: Request, s: Signature)
    requires Inv(v) && Ordered(v.tables.replicas, v.lastKey)
    ensures var q, q' := v.tables.replicas, CreateFile(v, a).0.tables.replicas;
            var rp := PendingReplica(v.id, a, a.sig).(volumeReplicaID := CreateFile(v, a).0.lastKey);
            EntriesFor(q', s) == EntriesFor(q, s) + if Stores(v, a) && a.replica >= 2 && a.sig == s then [rp] else []
  {
    hide CreateFile, Enqueue, EntriesFor;
    CreateQueue(v, a);
    assert a.sig in v.tables.files ==> GoodRecord(a.sig, v.tables.files[a.sig]);
    EnqueueApart(v.tables.replicas, v.lastKey, NextKey(v.lastKey, a.tick), PendingReplica(v.id, a, a.sig), s);
  }

  /** What a create does to the tables, seen from another content. */
  lemma CreateRows(v: Vol, a: Request, s: Signature)
    requires Inv(v) && a.sig != s && KeyClear(v, a.key, s)
    ensures var v' := CreateFile(v, a).0;
            && v'.id == v.id && v'.tables.idxvolumes == v.tables.idxvolumes
            && (s in v'.tables.files <==> s in v.tables.files)
            && (s in v.tables.files ==> v'.tables.files[s] == v.tables.files[s])
  {
    if Stores(v, a) {
      CreateShape(v.tables, v.id, v.lastKey, a);
      StoredOutcome(v, a);
      hide CreateFile, CreateTables, Freed, LastKeyOf;
      FreedRecord(v.tables, a.key, s);
      if s in v.tables.files {
        FreedRows(v.tables, a.key, s);
      }
    }
  }

  lemma CreateApart(v: Vol, a: Request, s: Signature)
    requires Inv(v) && Ordered(v.tables.replicas, v.lastKey) && a.sig != s && KeyClear(v, a.key, s)
    ensures SameNode(v, CreateFile(v, a).0, s)
  {
    hide CreateFile, Inv, EntriesFor;
    CreateRows(v, a, s);
    CreateQueueFor(v, a, s);
  }

  lemma CreateKeyAt(v: Vol, a: Request, k: Key, s: Signature)
    requires Inv(v) && KeyAt(v, k, s) && a.key != k
    ensures KeyAt(CreateFile(v, a).0, k, s)
  {
    CreateQueue(v, a);
    if CreateFile(v, a).1.Ok? {
      CreateView(v, a);
    }
    hide CreateFile, Inv, Enqueue;
  }

  lemma DeleteApart(v: Vol, key: Key, s: Signature)
    requires Inv(v) && KeyClear(v, key, s)
    ensures SameNode(v, DeleteFile(v, key).0, s)
  {
    if DeleteTables(v.tables, key).1.Ok? {
      DeleteShape(v.tables, key);
      FreedRecord(v.tables, key, s);
      if s in v.tables.files {
        FreedRows(v.tables, key, s);
      }
    }
  }

  lemma DeleteKeyAt(v: Vol, key: Key, k: Key, s: Signature)
    requires KeyAt(v, k, s)
    ensures KeyAt(DeleteFile(v, key).0, k, s)
  {
  }

  lemma SweepApart(v: Vol, rows: seq<seq<Signature>>, spare: bool, s: Signature)
    requires Inv(v) && (s in v.tables.files ==> s !in Flat(rows))
    ensures SameNode(v, Sweep(v, rows, spare), s)
    ensures forall k | KeyAt(v, k, s) :: KeyAt(Sweep(v, rows, spare), k, s)
  {
    SizesOfBlobs(v);
    TtlSweep.SweepTablesExactly(v.tables, Flat(rows));
  }

  lemma RecordOf(t: Tables, s: Signature)
    requires GoodRecords(t) && s in t.files
    ensures t.files[s].signature == s && t.files[s].keys != []
  {
    assert GoodRecord(s, t.files[s]);
  }

  lemma RelistApart(v: Vol, key: Key, vids: seq<VolumeID>, replica: int, s: Signature)
    requires Inv(v) && KeyClear(v, key, s)
    ensures SameNode(v, UpdateFileReplica(v, key, vids, replica).0, s)
    ensures forall k | KeyAt(v, k, s) :: KeyAt(UpdateFileReplica(v, key, vids, replica).0, k, s)
  {
    if UpdateFileReplica(v, key, vids, replica).1.Ok? {
      var x := v.tables.idxkeys[key];
      assert GoodRecord(x, v.tables.files[x]);
      IndexedAllShape(v.tables.idxvolumes, vids, v.id, x);
      hide IndexedAll, EntriesFor;
    }
  }

  /** The turn of the head of the queue, seen from another content. */
  lemma NoteApart(v: Vol, rp: Replica, n: VolumeID, tick: int, s: Signature)
    requires Inv(v) && Ordered(v.tables.replicas, v.lastKey) && rp.signature != s
    requires v.tables.replicas != [] && rp == v.tables.replicas[0].(volumeIDs := rp.volumeIDs)
    ensures SameNode(v, UpdateReplica(v, rp, n, tick).0, s)
    ensures forall k | KeyAt(v, k, s) :: KeyAt(UpdateReplica(v, rp, n, tick).0, k, s)
  {
    hide Turned, EntriesFor, Ordered;
    if UpdateReplica(v, rp, n, tick).1.Ok? {
      var q := v.tables.replicas;
      RecordOf(v.tables, rp.signature);
      NoteEffect(v, rp, n, tick);
      TurnApart(v, rp, tick, s);
      hide UpdateReplica, Inv;
      assert q[0] in q;
    }
  }

  lemma TurnApart(v: Vol, rp: Replica, tick: int, s: Signature)
    requires Ordered(v.tables.replicas, v.lastKey) && rp.signature != s
    requires v.tables.replicas != [] && rp == v.tables.replicas[0].(volumeIDs := rp.volumeIDs)
    ensures EntriesFor(Turned(QueueOf(v), rp, tick).entries, s) == EntriesFor(v.tables.replicas, s)
    ensures forall e | e in Turned(QueueOf(v), rp, tick).entries :: e in v.tables.replicas || e.key == rp.key
  {
    var q, k := v.tables.replicas, NextKey(v.lastKey, tick);
    TurnedHead(QueueOf(v), rp, tick);
    hide Turned, Ordered, EntriesFor;
    EntriesSnoc(q[1..], q[0], s);
    assert q == [q[0]] + q[1..];
    EntriesSnoc(q[1..], rp.(count := rp.count - 1, volumeReplicaID := k), s);
    assert q[1..] + [] == q[1..];
  }

  // ---------------------------------------------------------------- A whole round

  /** The key is not one of `s` on any node. */
  ghost predicate Apart(c: Nodes, key: Key, s: Signature) {
    forall w | w in c :: KeyClear(c[w], key, s)
  }

  lemma ApartStays(c: Nodes, c': Nodes, key: Key, s: Signature)
    requires SameOn(c, c', s) && Apart(c, key, s)
    ensures Apart(c', key, s)
  {
    forall w | w in c'
      ensures KeyClear(c'[w], key, s)
    {
      assert SameNode(c[w], c'[w], s) && KeyClear(c[w], key, s);
    }
  }

  /** Both views of `s`: what the nodes know of it, and what the key `k` means. */
  ghost predicate Kept(c: Nodes, c': Nodes, k: Key, s: Signature) {
    SameOn(c, c', s) && (KeyMeans(c, k, s) ==> KeyMeans(c', k, s))
  }

  lemma KeptChain(c0: Nodes, c1: Nodes, c2: Nodes, k: Key, s: Signature)
    requires Kept(c0, c1, k, s) && Kept(c1, c2, k, s)
    ensures Kept(c0, c2, k, s)
  {
    SameOnChain(c0, c1, c2, s);
  }

  lemma OneNodeKept(c: Nodes, n: VolumeID, v: Vol, k: Key, s: Signature)
    requires n in c && SameNode(c[n], v, s) && (KeyAt(c[n], k, s) ==> KeyAt(v, k, s))
    ensures Kept(c, c[n := v], k, s)
  {
    var c' := c[n := v];
    hide EntriesFor;
    if KeyMeans(c, k, s) {
      forall w | w in c'
        ensures KeyAt(c'[w], k, s)
      {
        assert KeyAt(c[w], k, s);
      }
    }
  }

  lemma {:induction false} NotifyApart(sha: Bytes -> string, contents: set<Bytes>, c: Nodes, env: Env, m: VolumeID,
                                       rp: Replica, todo: seq<VolumeID>, k: Key, s: Signature)
    requires Good(sha, contents, c) && Apart(c, rp.key, s)
    ensures Kept(c, NotifyAll(c, env, m, rp, todo), k, s)
    decreases |todo|
  {
    hide SameNode, KeyAt, Inv, Honest, UpdateFileReplica;
    if todo != [] {
      var w := todo[0];
      if w == m || w !in c || w in env.down || w !in env.accepts {
        NotifyApart(sha, contents, c, env, m, rp, todo[1..], k, s);
      } else {
        var c1 := c[w := UpdateFileReplica(c[w], rp.key, rp.volumeIDs, rp.originalCount).0];
        RelistedNode(sha, contents, c, w, rp.key, rp.volumeIDs, rp.originalCount, []);
        assert KeyClear(c[w], rp.key, s);
        RelistApart(c[w], rp.key, rp.volumeIDs, rp.originalCount, s);
        OneNodeKept(c, w, c1[w], k, s);
        ApartStays(c, c1, rp.key, s);
        NotifyApart(sha, contents, c1, env, m, rp, todo[1..], k, s);
        KeptChain(c, c1, NotifyAll(c1, env, m, rp, todo[1..]), k, s);
      }
    } else {
      KeptSame(c, k, s);
    }
  }

  lemma KeptSame(c: Nodes, k: Key, s: Signature)
    ensures Kept(c, c, k, s)
  {
  }

  /** The head entry of `m`, with the list as the round holds it. */
  ghost predicate HeadOf(c: Nodes, m: VolumeID, rp: Replica) {
    && m in c && c[m].tables.replicas != []
    && rp == c[m].tables.replicas[0].(volumeIDs := rp.volumeIDs)
  }

  /** The content that a round copies under the key of its entry is not `s` when that key is not one of `s`. */
  lemma CopyIsOther(sha: Bytes -> string, contents: set<Bytes>, c: Nodes, m: VolumeID, key: Key, s: Signature)
    requires Good(sha, contents, c) && m in c && Apart(c, key, s) && GetFile(c[m], key).Some?
    ensures sha(GetFile(c[m], key).value) != s
  {
    CopyDigest(sha, contents, c[m], key);
    assert KeyClear(c[m], key, s);
  }

  lemma CopyApart(contents: set<Bytes>, c: Nodes, env: Env, m: VolumeID, rp: Replica, n: VolumeID, k: Key, s: Signature)
    requires CollisionFree(env.sha, contents) && Good(env.sha, contents, c) && Ahead(c)
    requires m in c && n in c && Apart(c, rp.key, s) && rp.key != k
    requires GetFile(c[m], rp.key).Some?
    ensures Kept(c, c[n := CreateFile(c[n], CopyRequest(env, rp, GetFile(c[m], rp.key).value)).0], k, s)
  {
    hide Inv, Honest, CreateFile, SameNode, KeyAt;
    var a := CopyRequest(env, rp, GetFile(c[m], rp.key).value);
    CopyIsOther(env.sha, contents, c, m, rp.key, s);
    assert KeyClear(c[n], rp.key, s);
    CreateApart(c[n], a, s);
    if KeyAt(c[n], k, s) {
      CreateKeyAt(c[n], a, k, s);
    }
    OneNodeKept(c, n, CreateFile(c[n], a).0, k, s);
  }

  lemma NoteKept(sha: Bytes -> string, contents: set<Bytes>, c: Nodes, m: VolumeID, rp: Replica, n: VolumeID, tick: int,
                 k: Key, s: Signature)
    requires Good(sha, contents, c) && HeadOf(c, m, rp) && rp.signature != s
    requires Ordered(c[m].tables.replicas, c[m].lastKey)
    ensures Kept(c, c[m := UpdateReplica(c[m], rp, n, tick).0], k, s)
  {
    hide Inv, Honest, UpdateReplica, SameNode, KeyAt;
    NoteApart(c[m], rp, n, tick, s);
    OneNodeKept(c, m, UpdateReplica(c[m], rp, n, tick).0, k, s);
  }

  lemma AttemptApart(contents: set<Bytes>, c: Nodes, env: Env, m: VolumeID, rp: Replica, n: VolumeID, k: Key, s: Signature)
    requires CollisionFree(env.sha, contents) && Good(env.sha, contents, c) && Ahead(c)
    requires HeadOf(c, m, rp) && n in c && n != m && rp.signature != s && Apart(c, rp.key, s) && rp.key != k
    ensures Kept(c, Attempt(c, env, m, rp, n).0, k, s)
  {
    hide Inv, Honest, CreateFile, UpdateReplica, GetFile, Kept, Apart, NotifyAll, HasFile;
    if n in env.down || HasFile(c[n], rp.key).1 || GetFile(c[m], rp.key).None? || n !in env.accepts {
      KeptSame(c, k, s);
    } else {
      var content := GetFile(c[m], rp.key).value;
      var a := CopyRequest(env, rp, content);
      var c1 := c[n := CreateFile(c[n], a).0];
      CopyApart(contents, c, env, m, rp, n, k, s);
      CopyGrows(contents, c, env, m, rp, n, content);
      if CreateFile(c[n], a).1.Ok? {
        var rp1 := rp.(volumeIDs := rp.volumeIDs + [n]);
        var c2 := NotifyAll(c1, env, m, rp1, rp1.volumeIDs);
        KeptApart(c, c1, rp.key, k, s);
        NotifyApart(env.sha, contents, c1, env, m, rp1, rp1.volumeIDs, k, s);
        NotifyGrows(env.sha, contents, c1, env, m, rp1, rp1.volumeIDs, content);
        NotifyQueues(c1, env, m, rp1, rp1.volumeIDs);
        KeptChain(c, c1, c2, k, s);
        assert c2[m] == c[m] && HeadOf(c2, m, rp1);
        NoteKept(env.sha, contents, c2, m, rp1, n, env.tick, k, s);
        KeptChain(c, c2, c2[m := UpdateReplica(c2[m], rp1, n, env.tick).0], k, s);
      }
    }
  }

  lemma KeptApart(c: Nodes, c': Nodes, key: Key, k: Key, s: Signature)
    requires Kept(c, c', k, s) && Apart(c, key, s)
    ensures Apart(c', key, s)
  {
    ApartStays(c, c', key, s);
  }

  lemma AttemptAhead(c: Nodes, env: Env, m: VolumeID, rp: Replica, n: VolumeID)
    requires Ahead(c) && m in c && n in c && n != m && !Attempt(c, env, m, rp, n).2
    ensures Ahead(Attempt(c, env, m, rp, n).0) && Attempt(c, env, m, rp, n).0[m] == c[m]
    ensures Attempt(c, env, m, rp, n).1 == rp.(volumeIDs := Attempt(c, env, m, rp, n).1.volumeIDs)
  {
    hide Attempt, Ordered;
    AttemptMaster(c, env, m, rp, n);
    var c' := Attempt(c, env, m, rp, n).0;
    forall w | w in c
      ensures Ordered(c'[w].tables.replicas, c'[w].lastKey)
    {
      assert w != m ==> QueueOf(c'[w]) == QueueOf(c[w]);
    }
  }

  lemma {:induction false} TryApart(contents: set<Bytes>, c: Nodes, env: Env, m: VolumeID, rp: Replica,
                                    targets: seq<VolumeID>, k: Key, s: Signature)
    requires CollisionFree(env.sha, contents) && Good(env.sha, contents, c) && Ahead(c)
    requires HeadOf(c, m, rp) && rp.signature != s && Apart(c, rp.key, s) && rp.key != k
    requires forall i | 0 <= i < |targets| :: targets[i] in c && targets[i] != m
    ensures Kept(c, Try(c, env, m, rp, targets).0, k, s)
    decreases |targets|
  {
    hide Inv, Honest, Attempt, Kept, Apart, Ahead, GetFile;
    if targets == [] {
      KeptSame(c, k, s);
    } else {
      var (c1, rp1, done) := Attempt(c, env, m, rp, targets[0]);
      AttemptApart(contents, c, env, m, rp, targets[0], k, s);
      if !done {
        AttemptGrows(contents, c, env, m, rp, targets[0],
                     if GetFile(c[m], rp.key).Some? then GetFile(c[m], rp.key).value else []);
        AttemptAhead(c, env, m, rp, targets[0]);
        KeptApart(c, c1, rp.key, k, s);
        TryApart(contents, c1, env, m, rp1, targets[1..], k, s);
        KeptChain(c, c1, Try(c1, env, m, rp1, targets[1..]).0, k, s);
      }
    }
  }

  /** A round of another content's entry keeps what the nodes know of `s`, as long as the entry's key is not one of `s`. */
  lemma RoundApart(contents: set<Bytes>, c: Nodes, env: Env, m: VolumeID, targets: seq<VolumeID>, k: Key, s: Signature)
    requires CollisionFree(env.sha, contents) && Good(env.sha, contents, c) && Ahead(c)
    requires m in c && forall i | 0 <= i < |targets| :: targets[i] in c && targets[i] != m
    requires NextReplica(c[m]).Some? ==>
               var rp := NextReplica(c[m]).value;
               rp.signature != s && Apart(c, rp.key, s) && rp.key != k
    ensures Kept(c, Round(c, env, m, targets).0, k, s)
  {
    hide Inv, Honest, Try, Kept, Apart;
    if NextReplica(c[m]).Some? {
      TryApart(contents, c, env, m, NextReplica(c[m]).value, targets, k, s);
    } else {
      KeptSame(c, k, s);
    }
  }
}
