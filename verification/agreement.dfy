/** All holders of a content agree on the ordered list of the volumes that hold it. */
module Agreement {
  import opened Types
  import opened ReplicaQueue
  import opened VolumeSpec
  import opened VolumeInvariant
  import opened VolumeRuns
  import opened Cluster

  ghost predicate Holds(c: Nodes, n: VolumeID, s: Signature) {
    n in c && s in c[n].tables.files
  }

  /** The entries of a queue for one content. */
  function EntriesFor(q: seq<Replica>, s: Signature): (r: seq<Replica>)
    ensures forall e :: e in r <==> e in q && e.signature == s
  {
    if q == [] then []
    else
      var n := |q| - 1;
      assert q == q[..n] + [q[n]];
      EntriesFor(q[..n], s) + if q[n].signature == s then [q[n]] else []
  }

  lemma EntriesLast(q: seq<Replica>, s: Signature)
    requires q != []
    ensures var n := |q| - 1;
            EntriesFor(q, s) == EntriesFor(q[..n], s) + if q[n].signature == s then [q[n]] else []
  {
  }

  lemma NoEntries(s: Signature)
    ensures EntriesFor([], s) == []
  {
  }

  lemma {:induction false} EntriesConcat(p: seq<Replica>, q: seq<Replica>, s: Signature)
    ensures EntriesFor(p + q, s) == EntriesFor(p, s) + EntriesFor(q, s)
  {
    hide EntriesFor;
    if q == [] {
      NoEntries(s);
      assert p + q == p;
    } else {
      var n := |q| - 1;
      EntriesConcat(p, q[..n], s);
      EntriesLast(q, s);
      EntriesLast(p + q, s);
      assert (p + q)[..|p + q| - 1] == p + q[..n];
      SumOfThree(EntriesFor(p, s), EntriesFor(q[..n], s), if q[n].signature == s then [q[n]] else []);
    }
  }

  lemma SumOfThree<T>(a: seq<T>, b: seq<T>, c: seq<T>)
    ensures (a + b) + c == a + (b + c)
  {
  }

  /** The queue with an entry more at its end, or without its first one. */
  lemma EntriesSnoc(q: seq<Replica>, e: Replica, s: Signature)
    ensures EntriesFor(q + [e], s) == EntriesFor(q, s) + if e.signature == s then [e] else []
    ensures EntriesFor([e] + q, s) == (if e.signature == s then [e] else []) + EntriesFor(q, s)
  {
    EntriesConcat(q, [e], s);
    EntriesConcat([e], q, s);
    assert [e][..0] == [];
    assert EntriesFor([e], s) == if e.signature == s then [e] else [];
  }

  // ---------------------------------------------------------------- Agreement on one content

  /** The record of `s` on node `n`: one key, a duplicate-free list of exactly the holders, the same on all of them. */
  ghost predicate GoodList(c: Nodes, accepts: set<VolumeID>, n: VolumeID, s: Signature)
    requires Holds(c, n, s)
  {
    var f := c[n].tables.files[s];
    && |f.keys| == 1 && NoDup(f.volumeIDs) && f.volumeIDs != []
    && (|f.volumeIDs| == 1 || |f.volumeIDs| <= f.replica)
    && (n == f.volumeIDs[0] || n in accepts)
    && (forall w :: w in f.volumeIDs <==> Holds(c, w, s))
    && (forall w | Holds(c, w, s) ::
          var g := c[w].tables.files[s];
          g.volumeIDs == f.volumeIDs && g.replica == f.replica && g.keys == f.keys)
  }

  /** On this node the key means nothing else than `s`, neither in the key index nor in the queue. */
  ghost predicate KeyAt(v: Vol, k: Key, s: Signature) {
    && (k in v.tables.idxkeys ==> v.tables.idxkeys[k] == s)
    && (forall e | e in v.tables.replicas && e.key == k :: e.signature == s)
  }

  ghost predicate KeyMeans(c: Nodes, k: Key, s: Signature) {
    forall w | w in c :: KeyAt(c[w], k, s)
  }

  /** A pending entry tells the list of its content as it is, belongs to the head of it, and counts what is missing. */
  ghost predicate GoodEntry(c: Nodes, n: VolumeID, e: Replica) {
    && Holds(c, n, e.signature)
    && var f := c[n].tables.files[e.signature];
       && e.volumeIDs == f.volumeIDs && f.volumeIDs != [] && f.volumeIDs[0] == n && f.keys == [e.key]
       && e.originalCount == f.replica && e.count == f.replica - |f.volumeIDs| && e.count >= 1
  }

  ghost predicate Wanted(c: Nodes, n: VolumeID, s: Signature) {
    && Holds(c, n, s)
    && var f := c[n].tables.files[s];
       f.volumeIDs != [] && f.volumeIDs[0] == n && |f.volumeIDs| < f.replica
  }

  /** The head of a short list has exactly one entry for it, and nobody has another one. */
  ghost predicate QueueOn(c: Nodes, n: VolumeID, s: Signature)
    requires n in c
  {
    var es := EntriesFor(c[n].tables.replicas, s);
    && |es| <= 1 && (forall e | e in es :: GoodEntry(c, n, e))
    && (Wanted(c, n, s) ==> es != [])
  }

  /** The reverse index of a node tells exactly which other nodes its record lists. */
  ghost predicate IndexOn(c: Nodes, n: VolumeID, s: Signature)
    requires n in c
  {
    forall v :: s in SignaturesFor(c[n].tables.idxvolumes, v) <==>
                Holds(c, n, s) && v != n && v in c[n].tables.files[s].volumeIDs
  }

  ghost predicate RecordsOn(c: Nodes, accepts: set<VolumeID>, s: Signature) {
    forall n | Holds(c, n, s) :: GoodList(c, accepts, n, s) && KeyMeans(c, c[n].tables.files[s].keys[0], s)
  }

  /** The nodes agree on the content `s`; where nobody holds it, nothing is left of it. */
  ghost predicate AgreedOn(c: Nodes, accepts: set<VolumeID>, s: Signature) {
    RecordsOn(c, accepts, s) && forall n | n in c :: QueueOn(c, n, s) && IndexOn(c, n, s)
  }

  ghost predicate Agreed(c: Nodes, accepts: set<VolumeID>) {
    forall s :: AgreedOn(c, accepts, s)
  }

  // ---------------------------------------------------------------- What a change elsewhere leaves alone

  /** The node keeps all that it knows of `s`. */
  ghost predicate SameNode(v: Vol, v': Vol, s: Signature) {
    && v'.id == v.id && (s in v'.tables.files <==> s in v.tables.files)
    && (s in v.tables.files ==> v'.tables.files[s] == v.tables.files[s])
    && EntriesFor(v'.tables.replicas, s) == EntriesFor(v.tables.replicas, s)
    && (forall w :: s in SignaturesFor(v'.tables.idxvolumes, w) <==> s in SignaturesFor(v.tables.idxvolumes, w))
  }

  ghost predicate SameOn(c: Nodes, c': Nodes, s: Signature) {
    c'.Keys == c.Keys && forall w | w in c :: SameNode(c[w], c'[w], s)
  }

  lemma SameOnChain(c0: Nodes, c1: Nodes, c2: Nodes, s: Signature)
    requires SameOn(c0, c1, s) && SameOn(c1, c2, s)
    ensures SameOn(c0, c2, s)
  {
    forall w | w in c0
      ensures SameNode(c0[w], c2[w], s)
    {
      assert SameNode(c0[w], c1[w], s) && SameNode(c1[w], c2[w], s);
    }
  }

  lemma SameHolds(c: Nodes, c': Nodes, s: Signature)
    requires SameOn(c, c', s)
    ensures forall w :: Holds(c', w, s) <==> Holds(c, w, s)
    ensures forall w | Holds(c, w, s) :: Holds(c', w, s) && c'[w].tables.files[s] == c[w].tables.files[s]
  {
    forall w | w in c
      ensures Holds(c', w, s) <==> Holds(c, w, s)
      ensures Holds(c, w, s) ==> c'[w].tables.files[s] == c[w].tables.files[s]
    {
      assert SameNode(c[w], c'[w], s);
    }
  }

  lemma SameLists(c: Nodes, c': Nodes, accepts: set<VolumeID>, s: Signature)
    requires SameOn(c, c', s)
    ensures forall n | Holds(c, n, s) && GoodList(c, accepts, n, s) :: Holds(c', n, s) && GoodList(c', accepts, n, s)
    ensures forall n, e | GoodEntry(c, n, e) && e.signature == s :: GoodEntry(c', n, e)
    ensures forall n :: Wanted(c', n, s) <==> Wanted(c, n, s)
  {
    SameHolds(c, c', s);
    hide SameOn;
  }

  /** Agreement on `s` only depends on what the nodes know of `s` and of its key. */
  lemma SameOnKeeps(c: Nodes, c': Nodes, accepts: set<VolumeID>, s: Signature)
    requires SameOn(c, c', s) && AgreedOn(c, accepts, s)
    requires forall n | Holds(c, n, s) :: c[n].tables.files[s].keys != [] && KeyMeans(c', c[n].tables.files[s].keys[0], s)
    ensures AgreedOn(c', accepts, s)
  {
    SameHolds(c, c', s);
    SameLists(c, c', accepts, s);
    hide GoodList, KeyMeans, GoodEntry, Wanted;
    forall n | n in c'
      ensures QueueOn(c', n, s) && IndexOn(c', n, s)
    {
      assert QueueOn(c, n, s) && IndexOn(c, n, s) && SameNode(c[n], c'[n], s);
    }
  }

  // ---------------------------------------------------------------- What a successful round does to each node

  /** The nodes that learn the new list in a round of `m` that copied to `n`. */
  predicate Told(w: VolumeID, m: VolumeID, n: VolumeID, rp: Replica, down: set<VolumeID>) {
    w == m || w == n || (w in rp.volumeIDs && w !in down)
  }

  /** The master appends to the list that it has; everybody else stores the list that it is told. */
  ghost predicate NodeJoined(v: Vol, v': Vol, m: VolumeID, n: VolumeID, rp: Replica, down: set<VolumeID>, tick: int) {
    var w, s, vids := v.id, rp.signature, rp.volumeIDs + [n];
    && v'.id == w
    && (if Told(w, m, n, rp, down) then
          && s in v'.tables.files && v'.tables.files == v.tables.files[s := v'.tables.files[s]]
          && v'.tables.files[s].keys == [rp.key] && v'.tables.files[s].replica == rp.originalCount
          && (w == m ==> s in v.tables.files)
          && v'.tables.files[s].volumeIDs == (if w == m then v.tables.files[s].volumeIDs + [n] else vids)
        else v'.tables.files == v.tables.files)
    && v'.tables.idxkeys == (if w == n then v.tables.idxkeys[rp.key := s] else v.tables.idxkeys)
    && QueueOf(v') == (if w == m then Turned(QueueOf(v), rp.(volumeIDs := vids), tick) else QueueOf(v))
    && (forall u, x :: x in SignaturesFor(v'.tables.idxvolumes, u) <==>
                       x in SignaturesFor(v.tables.idxvolumes, u) ||
                       (Told(w, m, n, rp, down) && x == s && (if w == m then u == n else u in vids && u != w)))
  }

  ghost predicate Joined(c: Nodes, c': Nodes, m: VolumeID, n: VolumeID, rp: Replica, down: set<VolumeID>, tick: int) {
    c'.Keys == c.Keys && forall w | w in c :: NodeJoined(c[w], c'[w], m, n, rp, down, tick)
  }

  /** A new copy on a node that knew neither the key nor the content. */
  lemma CopyEffect(v: Vol, a: Request)
    requires Inv(v) && a.sig !in v.tables.files && a.key !in v.tables.idxkeys && a.replica == NO_REPLICA
    requires CreateFile(v, a).1.Ok?
    ensures var v' := CreateFile(v, a).0;
            && v'.id == v.id && QueueOf(v') == QueueOf(v)
            && v'.tables.files == v.tables.files[a.sig := StoredFile(v.tables, v.id, a)]
            && v'.tables.idxkeys == v.tables.idxkeys[a.key := a.sig]
            && v'.tables.idxvolumes == v.tables.idxvolumes
  {
    CreateShape(v.tables, v.id, v.lastKey, a);
    FreedShape(v.tables, a.key);
    CopyQueuesNothing(v, a);
  }

  lemma RelistEffect(v: Vol, key: Key, s: Signature, vids: seq<VolumeID>, replica: int)
    requires key in v.tables.idxkeys && v.tables.idxkeys[key] == s && v.id in vids
    requires s in v.tables.files && v.tables.files[s].signature == s
    ensures var (v', r) := UpdateFileReplica(v, key, vids, replica);
            && r.Ok? && v'.id == v.id && QueueOf(v') == QueueOf(v) && v'.tables.idxkeys == v.tables.idxkeys
            && v'.tables.files == v.tables.files[s := v.tables.files[s].(volumeIDs := vids, replica := replica)]
            && (forall u, x :: x in SignaturesFor(v'.tables.idxvolumes, u) <==>
                               x in SignaturesFor(v.tables.idxvolumes, u) || (x == s && u in vids && u != v.id))
  {
    IndexedAllShape(v.tables.idxvolumes, vids, v.id, s);
  }

  lemma NoteEffect(v: Vol, rp: Replica, n: VolumeID, tick: int)
    requires Notable(v, rp) && v.tables.files[rp.signature].signature == rp.signature
    ensures var (v', r) := UpdateReplica(v, rp, n, tick);
            var f := v.tables.files[rp.signature];
            && r.Ok? && v'.id == v.id && QueueOf(v') == Turned(QueueOf(v), rp, tick)
            && v'.tables.idxkeys == v.tables.idxkeys
            && v'.tables.files ==
               v.tables.files[rp.signature := f.(volumeIDs := f.volumeIDs + [n], replica := rp.originalCount)]
            && (forall u, x :: x in SignaturesFor(v'.tables.idxvolumes, u) <==>
                               x in SignaturesFor(v.tables.idxvolumes, u) || (x == rp.signature && u == n))
  {
    IndexedShape(v.tables.idxvolumes, n, rp.signature);
  }

  lemma {:induction false} NotifyShape(c: Nodes, env: Env, m: VolumeID, rp: Replica, todo: seq<VolumeID>, w: VolumeID)
    requires NoDup(todo) && w in c
    ensures NotifyAll(c, env, m, rp, todo)[w] ==
            if w in todo && w != m && w !in env.down && w in env.accepts
            then UpdateFileReplica(c[w], rp.key, rp.volumeIDs, rp.originalCount).0 else c[w]
    decreases |todo|
  {
    hide UpdateFileReplica;
    if todo != [] {
      var u := todo[0];
      var c1 := if u == m || u !in c || u in env.down || u !in env.accepts then c
                else c[u := UpdateFileReplica(c[u], rp.key, rp.volumeIDs, rp.originalCount).0];
      NotifyShape(c1, env, m, rp, todo[1..], w);
      assert todo == [u] + todo[1..];
    }
  }

  /** What a listed node knows of the content of an entry. */
  ghost predicate Listed(c: Nodes, accepts: set<VolumeID>, m: VolumeID, rp: Replica, w: VolumeID) {
    && Holds(c, w, rp.signature) && c[w].id == w
    && c[w].tables.files[rp.signature].signature == rp.signature
    && c[w].tables.files[rp.signature].keys == [rp.key]
    && rp.key in c[w].tables.idxkeys && c[w].tables.idxkeys[rp.key] == rp.signature
    && (w == m || w in accepts)
  }

  /**
   * An entry that a round can serve: it lists exactly the nodes that hold its content, with its key and no other, and
   * the key means nothing else anywhere. What the nodes store as the list does not matter here.
   */
  ghost predicate Ready(c: Nodes, accepts: set<VolumeID>, m: VolumeID, rp: Replica) {
    && NoDup(rp.volumeIDs) && m in rp.volumeIDs && rp.count >= 1 && rp.originalCount == rp.count + |rp.volumeIDs|
    && (forall w | w in rp.volumeIDs :: Listed(c, accepts, m, rp, w))
    && (forall w | Holds(c, w, rp.signature) :: w in rp.volumeIDs)
    && (forall w | w in c && rp.key in c[w].tables.idxkeys :: c[w].tables.idxkeys[rp.key] == rp.signature)
  }

  /** A node that the entry does not list has neither the key nor the content. */
  ghost predicate Open(c: Nodes, m: VolumeID, rp: Replica, n: VolumeID) {
    && n in c && n !in rp.volumeIDs && n != m && c[n].id == n
    && rp.signature !in c[n].tables.files && rp.key !in c[n].tables.idxkeys
  }

  lemma TargetOpen(sha: Bytes -> string, contents: set<Bytes>, c: Nodes, accepts: set<VolumeID>, m: VolumeID,
                   rp: Replica, n: VolumeID)
    requires Good(sha, contents, c) && Ready(c, accepts, m, rp) && n in c && n !in rp.volumeIDs
    ensures Open(c, m, rp, n)
  {
    hide Honest, Blobs, ReverseIndexed, Quota;
    assert rp.key in c[n].tables.idxkeys ==> Holds(c, n, rp.signature);
  }

  /** What each node is after an attempt that succeeded. */
  lemma FinalNode(c: Nodes, env: Env, m: VolumeID, rp: Replica, n: VolumeID, w: VolumeID)
    requires m in c && n in c && n != m && w in c && m in rp.volumeIDs && NoDup(rp.volumeIDs) && n !in rp.volumeIDs
    requires forall u | u in rp.volumeIDs && u != m :: u in env.accepts
    requires Attempt(c, env, m, rp, n).2
    ensures GetFile(c[m], rp.key).Some? && n !in env.down && n in env.accepts
    ensures var made := CreateFile(c[n], CopyRequest(env, rp, GetFile(c[m], rp.key).value));
            var rp' := rp.(volumeIDs := rp.volumeIDs + [n]);
            && made.1.Ok?
            && Attempt(c, env, m, rp, n).0[w] ==
               if w == m then UpdateReplica(c[m], rp', n, env.tick).0
               else if w == n then UpdateFileReplica(made.0, rp.key, rp'.volumeIDs, rp.originalCount).0
               else if w in rp.volumeIDs && w !in env.down
                    then UpdateFileReplica(c[w], rp.key, rp'.volumeIDs, rp.originalCount).0
               else c[w]
  {
    hide CreateFile, GetFile, HasFile, UpdateReplica, UpdateFileReplica;
    var rp' := rp.(volumeIDs := rp.volumeIDs + [n]);
    var c1 := c[n := CreateFile(c[n], CopyRequest(env, rp, GetFile(c[m], rp.key).value)).0];
    NoDupSnoc(rp.volumeIDs, n);
    NotifyShape(c1, env, m, rp', rp'.volumeIDs, w);
    NotifyQueues(c1, env, m, rp', rp'.volumeIDs);
  }

  lemma CopyDigest(sha: Bytes -> string, contents: set<Bytes>, v: Vol, key: Key)
    requires Honest(sha, contents, v) && GetFile(v, key).Some?
    ensures sha(GetFile(v, key).value) == v.tables.idxkeys[key]
  {
  }

  lemma JoinMaster(c: Nodes, env: Env, m: VolumeID, rp: Replica, n: VolumeID)
    requires Open(c, m, rp, n) && Listed(c, env.accepts, m, rp, m) && Notable(c[m], rp)
    ensures NodeJoined(c[m], UpdateReplica(c[m], rp.(volumeIDs := rp.volumeIDs + [n]), n, env.tick).0,
                       m, n, rp, env.down, env.tick)
  {
    hide UpdateReplica, Turned;
    NoteEffect(c[m], rp.(volumeIDs := rp.volumeIDs + [n]), n, env.tick);
  }

  lemma JoinHolder(c: Nodes, env: Env, m: VolumeID, rp: Replica, n: VolumeID, w: VolumeID)
    requires Open(c, m, rp, n) && Listed(c, env.accepts, m, rp, w) && w != m && w in rp.volumeIDs && w !in env.down
    ensures NodeJoined(c[w], UpdateFileReplica(c[w], rp.key, rp.volumeIDs + [n], rp.originalCount).0,
                       m, n, rp, env.down, env.tick)
  {
    hide UpdateFileReplica, Turned;
    RelistEffect(c[w], rp.key, rp.signature, rp.volumeIDs + [n], rp.originalCount);
  }

  lemma JoinTarget(c: Nodes, env: Env, m: VolumeID, rp: Replica, n: VolumeID, content: Bytes)
    requires Open(c, m, rp, n) && Inv(c[n]) && env.sha(content) == rp.signature
    requires CreateFile(c[n], CopyRequest(env, rp, content)).1.Ok?
    ensures NodeJoined(c[n], UpdateFileReplica(CreateFile(c[n], CopyRequest(env, rp, content)).0,
                                               rp.key, rp.volumeIDs + [n], rp.originalCount).0,
                       m, n, rp, env.down, env.tick)
  {
    hide Inv, CreateFile, UpdateFileReplica, Turned;
    var a := CopyRequest(env, rp, content);
    CopyEffect(c[n], a);
    RelistEffect(CreateFile(c[n], a).0, rp.key, rp.signature, rp.volumeIDs + [n], rp.originalCount);
  }

  lemma JoinNode(contents: set<Bytes>, c: Nodes, env: Env, m: VolumeID, rp: Replica, n: VolumeID, w: VolumeID)
    requires Good(env.sha, contents, c) && Ready(c, env.accepts, m, rp) && Open(c, m, rp, n) && w in c
    requires Attempt(c, env, m, rp, n).2
    ensures NodeJoined(c[w], Attempt(c, env, m, rp, n).0[w], m, n, rp, env.down, env.tick)
    ensures n !in env.down && n in env.accepts
  {
    hide Inv, Honest, CreateFile, UpdateReplica, UpdateFileReplica, Turned, GetFile, Attempt, NodeJoined;
    FinalNode(c, env, m, rp, n, w);
    if w == m {
      SignatureNotEmpty(c[m], rp);
      JoinMaster(c, env, m, rp, n);
    } else if w == n {
      CopyDigest(env.sha, contents, c[m], rp.key);
      JoinTarget(c, env, m, rp, n, GetFile(c[m], rp.key).value);
    } else if w in rp.volumeIDs && w !in env.down {
      JoinHolder(c, env, m, rp, n, w);
    } else {
      JoinOther(c[w], m, n, rp, env.down, env.tick);
    }
  }

  lemma JoinOther(v: Vol, m: VolumeID, n: VolumeID, rp: Replica, down: set<VolumeID>, tick: int)
    requires !Told(v.id, m, n, rp, down)
    ensures NodeJoined(v, v, m, n, rp, down, tick)
  {
  }

  /** A successful attempt joins its target to the holders, and does nothing else. */
  lemma AttemptJoins(contents: set<Bytes>, c: Nodes, env: Env, m: VolumeID, rp: Replica, n: VolumeID)
    requires Good(env.sha, contents, c) && Ready(c, env.accepts, m, rp)
    requires m in c && n in c && n != m && n !in rp.volumeIDs
    requires Attempt(c, env, m, rp, n).2
    ensures Joined(c, Attempt(c, env, m, rp, n).0, m, n, rp, env.down, env.tick)
    ensures n !in env.down && n in env.accepts
  {
    hide Inv, Honest, Attempt, NodeJoined;
    TargetOpen(env.sha, contents, c, env.accepts, m, rp, n);
    forall w | w in c
      ensures NodeJoined(c[w], Attempt(c, env, m, rp, n).0[w], m, n, rp, env.down, env.tick)
      ensures n !in env.down && n in env.accepts
    {
      JoinNode(contents, c, env, m, rp, n, w);
    }
  }

  lemma SignatureNotEmpty(v: Vol, rp: Replica)
    requires Inv(v) && rp.signature in v.tables.files && rp.count >= 1 && rp.originalCount == rp.count + |rp.volumeIDs|
    ensures Notable(v, rp)
  {
    assert GoodRecord(rp.signature, v.tables.files[rp.signature]);
  }

  // ---------------------------------------------------------------- Whole rounds

  /** The nodes differ at most in contents that no record names. */
  ghost predicate SameTables(c: Nodes, c': Nodes) {
    && c'.Keys == c.Keys
    && forall w | w in c :: c'[w].id == c[w].id && c'[w].tables == c[w].tables && c'[w].lastKey == c[w].lastKey
  }

  lemma SameTablesAgree(c: Nodes, c': Nodes, accepts: set<VolumeID>)
    requires SameTables(c, c')
    ensures Agreed(c, accepts) ==> Agreed(c', accepts)
    ensures forall s :: AgreedOn(c, accepts, s) ==> AgreedOn(c', accepts, s)
  {
    forall s | AgreedOn(c, accepts, s)
      ensures AgreedOn(c', accepts, s)
    {
      forall k | KeyMeans(c, k, s)
        ensures KeyMeans(c', k, s)
      {
        forall w | w in c'
          ensures KeyAt(c'[w], k, s)
        {
          assert KeyAt(c[w], k, s);
        }
      }
      assert SameOn(c, c', s);
      SameOnKeeps(c, c', accepts, s);
    }
  }

  lemma SameTablesReady(c: Nodes, c': Nodes, accepts: set<VolumeID>, m: VolumeID, rp: Replica)
    requires SameTables(c, c') && Ready(c, accepts, m, rp)
    ensures Ready(c', accepts, m, rp)
  {
    assert forall w, s :: Holds(c', w, s) <==> Holds(c, w, s);
    forall w | w in rp.volumeIDs
      ensures Listed(c', accepts, m, rp, w)
    {
      assert Listed(c, accepts, m, rp, w);
    }
  }

  lemma RefusedCopy(v: Vol, a: Request)
    requires CreateFile(v, a).1.Err?
    ensures CreateFile(v, a).0 == v.(blobs := CreateFile(v, a).0.blobs)
  {
  }

  /** Once the copy is made nothing stands between the master and its note. */
  lemma CopiedIsDone(c: Nodes, env: Env, m: VolumeID, rp: Replica, n: VolumeID)
    requires m in c && n in c && n != m && Notable(c[m], rp)
    requires n !in env.down && n in env.accepts && !HasFile(c[n], rp.key).1 && GetFile(c[m], rp.key).Some?
    requires CreateFile(c[n], CopyRequest(env, rp, GetFile(c[m], rp.key).value)).1.Ok?
    ensures Attempt(c, env, m, rp, n).2
  {
    hide CreateFile, GetFile, HasFile, Turned;
    var c1 := c[n := CreateFile(c[n], CopyRequest(env, rp, GetFile(c[m], rp.key).value)).0];
    var rp1 := rp.(volumeIDs := rp.volumeIDs + [n]);
    NotifyQueues(c1, env, m, rp1, rp1.volumeIDs);
  }

  lemma OneNodeSame(c: Nodes, n: VolumeID, v: Vol)
    requires n in c && v == c[n].(blobs := v.blobs)
    ensures SameTables(c, c[n := v])
  {
  }

  lemma AttemptFails(c: Nodes, env: Env, m: VolumeID, rp: Replica, n: VolumeID)
    requires m in c && n in c && n != m && Notable(c[m], rp)
    requires !Attempt(c, env, m, rp, n).2
    ensures SameTables(c, Attempt(c, env, m, rp, n).0) && Attempt(c, env, m, rp, n).1 == rp
  {
    hide CreateFile, GetFile, HasFile, UpdateReplica, NotifyAll, SameTables, Notable;
    if n in env.down || HasFile(c[n], rp.key).1 || GetFile(c[m], rp.key).None? || n !in env.accepts {
      OneNodeSame(c, n, c[n]);
      assert c[n := c[n]] == c;
    } else {
      var a := CopyRequest(env, rp, GetFile(c[m], rp.key).value);
      if CreateFile(c[n], a).1.Err? {
        RefusedCopy(c[n], a);
        OneNodeSame(c, n, CreateFile(c[n], a).0);
      } else {
        CopiedIsDone(c, env, m, rp, n);
      }
    }
  }

  lemma SameTablesJoin(c: Nodes, c1: Nodes, c': Nodes, m: VolumeID, n: VolumeID, rp: Replica, down: set<VolumeID>,
                       tick: int)
    requires SameTables(c, c1) && Joined(c1, c', m, n, rp, down, tick)
    ensures Joined(c, c', m, n, rp, down, tick)
  {
    forall w | w in c
      ensures NodeJoined(c[w], c'[w], m, n, rp, down, tick)
    {
      assert NodeJoined(c1[w], c'[w], m, n, rp, down, tick);
    }
  }

  /** An attempt at an entry that is ready joins one target to its holders, or changes no table of any node. */
  lemma {:induction false} TryJoins(contents: set<Bytes>, c: Nodes, env: Env, m: VolumeID, rp: Replica,
                                    targets: seq<VolumeID>)
    requires CollisionFree(env.sha, contents) && Good(env.sha, contents, c) && Ready(c, env.accepts, m, rp) && m in c
    requires forall i | 0 <= i < |targets| :: targets[i] in c && targets[i] != m && targets[i] !in rp.volumeIDs
    ensures var (c', n) := Try(c, env, m, rp, targets);
            && (n == None ==> SameTables(c, c'))
            && (n.Some? ==> Joined(c, c', m, n.value, rp, env.down, env.tick) && n.value in targets)
            && (n.Some? ==> n.value !in env.down && n.value in env.accepts)
    decreases |targets|
  {
    hide Inv, Honest, Attempt, NodeJoined, GetFile, Listed;
    if targets != [] {
      var (c1, rp1, done) := Attempt(c, env, m, rp, targets[0]);
      if done {
        AttemptJoins(contents, c, env, m, rp, targets[0]);
      } else {
        assert Listed(c, env.accepts, m, rp, m);
        ReadyNotable(env.sha, contents, c, env.accepts, m, rp);
        AttemptFails(c, env, m, rp, targets[0]);
        AttemptGrows(contents, c, env, m, rp, targets[0],
                     if GetFile(c[m], rp.key).Some? then GetFile(c[m], rp.key).value else []);
        SameTablesReady(c, c1, env.accepts, m, rp);
        TryJoins(contents, c1, env, m, rp, targets[1..]);
        var (c', n) := Try(c1, env, m, rp, targets[1..]);
        if n.Some? {
          SameTablesJoin(c, c1, c', m, n.value, rp, env.down, env.tick);
        }
      }
    }
  }

  lemma ReadyNotable(sha: Bytes -> string, contents: set<Bytes>, c: Nodes, accepts: set<VolumeID>, m: VolumeID, rp: Replica)
    requires Good(sha, contents, c) && Ready(c, accepts, m, rp) && m in c
    ensures Notable(c[m], rp)
  {
    assert Listed(c, accepts, m, rp, m);
    SignatureNotEmpty(c[m], rp);
  }

  // ---------------------------------------------------------------- What a joined cluster agrees on

  /** A good entry of a content that the nodes agree on is ready. */
  lemma AgreedReady(sha: Bytes -> string, contents: set<Bytes>, c: Nodes, accepts: set<VolumeID>, m: VolumeID, rp: Replica)
    requires Good(sha, contents, c) && AgreedOn(c, accepts, rp.signature) && GoodEntry(c, m, rp)
    ensures Ready(c, accepts, m, rp) && rp.volumeIDs != [] && rp.volumeIDs[0] == m
    ensures forall w | w in rp.volumeIDs :: Listed(c, accepts, m, rp, w)
  {
    hide Honest, Blobs, ReverseIndexed, Quota, QueueOn, IndexOn;
    var s := rp.signature;
    assert GoodList(c, accepts, m, s) && KeyMeans(c, rp.key, s);
    assert rp.volumeIDs[0] in rp.volumeIDs;
    forall w | w in rp.volumeIDs
      ensures Listed(c, accepts, m, rp, w)
    {
      assert Holds(c, w, s) && GoodList(c, accepts, w, s) && GoodRecord(s, c[w].tables.files[s]);
      assert rp.key in c[w].tables.files[s].keys;
    }
    forall w | w in c && rp.key in c[w].tables.idxkeys
      ensures c[w].tables.idxkeys[rp.key] == s
    {
      assert KeyAt(c[w], rp.key, s);
    }
  }

  /** Everything a round needs to know of the cluster that it started from. */
  ghost predicate Before(c: Nodes, accepts: set<VolumeID>, m: VolumeID, n: VolumeID, rp: Replica) {
    && AgreedOn(c, accepts, rp.signature) && (forall w | w in c :: c[w].id == w)
    && m in c && n in c && n != m && n !in rp.volumeIDs && n in accepts && GoodEntry(c, m, rp)
  }

  ghost predicate HoldersUp(rp: Replica, m: VolumeID, down: set<VolumeID>) {
    forall w | w in rp.volumeIDs :: w == m || w !in down
  }

  lemma JoinedHolders(c: Nodes, c': Nodes, accepts: set<VolumeID>, m: VolumeID, n: VolumeID, rp: Replica,
                      down: set<VolumeID>, tick: int)
    requires Before(c, accepts, m, n, rp) && Joined(c, c', m, n, rp, down, tick)
    ensures m in rp.volumeIDs && NoDup(rp.volumeIDs) && rp.volumeIDs[0] == m
    ensures forall w :: w in rp.volumeIDs <==> Holds(c, w, rp.signature)
    ensures forall w :: Holds(c', w, rp.signature) <==> Holds(c, w, rp.signature) || w == n
    ensures forall w | Holds(c', w, rp.signature) :: c'[w].tables.files[rp.signature].keys == [rp.key]
  {
    hide QueueOn, IndexOn, KeyMeans, Turned;
    assert GoodList(c, accepts, m, rp.signature);
    assert rp.volumeIDs[0] in rp.volumeIDs;
    forall w | w in c
      ensures Holds(c', w, rp.signature) <==> Holds(c, w, rp.signature) || w == n
      ensures Holds(c', w, rp.signature) ==> c'[w].tables.files[rp.signature].keys == [rp.key]
    {
      assert NodeJoined(c[w], c'[w], m, n, rp, down, tick);
      if Holds(c, w, rp.signature) {
        assert GoodList(c, accepts, w, rp.signature);
      }
    }
  }

  /** The new list of the holders, on every node that learnt it; a holder that did not answer keeps the old one. */
  lemma JoinedRows(c: Nodes, c': Nodes, accepts: set<VolumeID>, m: VolumeID, n: VolumeID, rp: Replica,
                   down: set<VolumeID>, tick: int, w: VolumeID)
    requires Before(c, accepts, m, n, rp) && Joined(c, c', m, n, rp, down, tick) && Holds(c', w, rp.signature)
    ensures var f := c'[w].tables.files[rp.signature];
            if Told(w, m, n, rp, down) then f.volumeIDs == rp.volumeIDs + [n] && f.replica == rp.originalCount
            else f.volumeIDs == rp.volumeIDs
  {
    hide QueueOn, IndexOn, KeyMeans, Turned;
    assert NodeJoined(c[w], c'[w], m, n, rp, down, tick);
    assert GoodList(c, accepts, m, rp.signature);
  }

  /** After a successful round the holders agree exactly when every other listed holder answered. */
  lemma AgreementExact(c: Nodes, c': Nodes, accepts: set<VolumeID>, m: VolumeID, n: VolumeID, rp: Replica,
                       down: set<VolumeID>, tick: int)
    requires Before(c, accepts, m, n, rp) && Joined(c, c', m, n, rp, down, tick)
    ensures (forall w, u | Holds(c', w, rp.signature) && Holds(c', u, rp.signature) ::
               c'[w].tables.files[rp.signature].volumeIDs == c'[u].tables.files[rp.signature].volumeIDs)
            <==> HoldersUp(rp, m, down)
  {
    hide AgreedOn, NodeJoined;
    JoinedHolders(c, c', accepts, m, n, rp, down, tick);
    assert Holds(c', m, rp.signature);
    JoinedRows(c, c', accepts, m, n, rp, down, tick, m);
    if HoldersUp(rp, m, down) {
      forall w | Holds(c', w, rp.signature)
        ensures c'[w].tables.files[rp.signature].volumeIDs == rp.volumeIDs + [n]
      {
        JoinedRows(c, c', accepts, m, n, rp, down, tick, w);
      }
    } else {
      var w :| w in rp.volumeIDs && w != m && w in down;
      assert Holds(c', w, rp.signature);
      JoinedRows(c, c', accepts, m, n, rp, down, tick, w);
      assert |rp.volumeIDs + [n]| == |rp.volumeIDs| + 1;
    }
  }

  lemma JoinedLists(c: Nodes, c': Nodes, accepts: set<VolumeID>, m: VolumeID, n: VolumeID, rp: Replica,
                    down: set<VolumeID>, tick: int)
    requires Before(c, accepts, m, n, rp) && Joined(c, c', m, n, rp, down, tick) && HoldersUp(rp, m, down)
    ensures forall w | Holds(c', w, rp.signature) :: GoodList(c', accepts, w, rp.signature)
    ensures forall w | Holds(c', w, rp.signature) ::
              c'[w].tables.files[rp.signature].volumeIDs == rp.volumeIDs + [n] &&
              c'[w].tables.files[rp.signature].replica == rp.originalCount
  {
    hide NodeJoined, QueueOn, IndexOn, KeyMeans;
    JoinedHolders(c, c', accepts, m, n, rp, down, tick);
    var s, vids := rp.signature, rp.volumeIDs + [n];
    NoDupSnoc(rp.volumeIDs, n);
    assert GoodList(c, accepts, m, s);
    forall w | Holds(c', w, s)
      ensures c'[w].tables.files[s].volumeIDs == vids && c'[w].tables.files[s].replica == rp.originalCount
      ensures w == m || w in accepts
    {
      JoinedRows(c, c', accepts, m, n, rp, down, tick, w);
      if Holds(c, w, s) {
        assert GoodList(c, accepts, w, s);
      }
    }
    assert vids[0] == m;
    forall w | Holds(c', w, s)
      ensures GoodList(c', accepts, w, s)
    {
    }
  }

  /** The queue of the master after the turn of its head. */
  lemma MasterQueue(v: Vol, rp: Replica, rp': Replica, tick: int)
    requires Ordered(v.tables.replicas, v.lastKey) && v.tables.replicas != [] && v.tables.replicas[0] == rp
    requires rp' == rp.(volumeIDs := rp'.volumeIDs)
    ensures var q := Turned(QueueOf(v), rp', tick);
            q.entries == v.tables.replicas[1..] +
                         if rp.count > 1 then [rp'.(count := rp.count - 1, volumeReplicaID := q.lastKey)] else []
  {
    TurnedHead(QueueOf(v), rp', tick);
  }

  lemma JoinedQueue(c: Nodes, c': Nodes, m: VolumeID, n: VolumeID, rp: Replica, down: set<VolumeID>, tick: int,
                    w: VolumeID)
    requires Joined(c, c', m, n, rp, down, tick) && w in c && m in c && c[w].id == w
    requires Ordered(c[m].tables.replicas, c[m].lastKey) && NextReplica(c[m]) == Some(rp)
    ensures c'[w].tables.replicas ==
            if w != m then c[w].tables.replicas
            else c[m].tables.replicas[1..] +
                 if rp.count > 1
                 then [rp.(volumeIDs := rp.volumeIDs + [n], count := rp.count - 1, volumeReplicaID := c'[m].lastKey)]
                 else []
  {
    hide Turned;
    assert NodeJoined(c[w], c'[w], m, n, rp, down, tick);
    MasterQueue(c[m], rp, rp.(volumeIDs := rp.volumeIDs + [n]), tick);
  }

  /** Where the head is the only entry for its content, the rest of the queue has none. */
  lemma TailEntries(q: seq<Replica>, e: Replica)
    requires q != [] && |EntriesFor(q, q[0].signature)| <= 1
    ensures EntriesFor(q[1..], q[0].signature) == []
    ensures EntriesFor(q[1..] + [e], q[0].signature) == if e.signature == q[0].signature then [e] else []
  {
    hide EntriesFor;
    EntriesSnoc(q[1..], q[0], q[0].signature);
    assert q == [q[0]] + q[1..];
    EntriesSnoc(q[1..], e, q[0].signature);
  }

  /** The entries for the content after the turn: the head's own one, while copies are still missing. */
  lemma JoinedEntries(c: Nodes, c': Nodes, m: VolumeID, n: VolumeID, rp: Replica, down: set<VolumeID>, tick: int,
                      w: VolumeID)
    requires Joined(c, c', m, n, rp, down, tick) && w in c && m in c && c[w].id == w
    requires |EntriesFor(c[m].tables.replicas, rp.signature)| <= 1
    requires Ordered(c[m].tables.replicas, c[m].lastKey) && NextReplica(c[m]) == Some(rp)
    ensures EntriesFor(c'[w].tables.replicas, rp.signature) ==
            if w != m then EntriesFor(c[w].tables.replicas, rp.signature)
            else if rp.count > 1
                 then [rp.(volumeIDs := rp.volumeIDs + [n], count := rp.count - 1, volumeReplicaID := c'[m].lastKey)]
            else []
  {
    JoinedQueue(c, c', m, n, rp, down, tick, w);
    hide Joined, Ordered, GoodEntry, Wanted, EntriesFor;
    if w == m {
      TailEntries(c[m].tables.replicas,
                  rp.(volumeIDs := rp.volumeIDs + [n], count := rp.count - 1, volumeReplicaID := c'[m].lastKey));
      assert rp.count <= 1 ==> c'[m].tables.replicas == c[m].tables.replicas[1..];
    }
  }

  /** Only the head of the list has an entry for the content. */
  lemma OthersQueueNothing(c: Nodes, accepts: set<VolumeID>, s: Signature, m: VolumeID, rp: Replica, w: VolumeID)
    requires AgreedOn(c, accepts, s) && GoodEntry(c, m, rp) && rp.signature == s && w in c && w != m
    ensures EntriesFor(c[w].tables.replicas, s) == []
  {
    var es := EntriesFor(c[w].tables.replicas, s);
    if es != [] {
      assert es[0] in es && QueueOn(c, w, s) && GoodEntry(c, w, es[0]);
      AgreedHead(c, accepts, w, m, s);
    }
  }

  lemma JoinedQueueOn(c: Nodes, c': Nodes, accepts: set<VolumeID>, m: VolumeID, n: VolumeID, rp: Replica,
                      down: set<VolumeID>, tick: int, w: VolumeID)
    requires Before(c, accepts, m, n, rp) && Joined(c, c', m, n, rp, down, tick) && HoldersUp(rp, m, down) && w in c
    requires Ordered(c[m].tables.replicas, c[m].lastKey) && NextReplica(c[m]) == Some(rp)
    ensures w in c' && QueueOn(c', w, rp.signature)
  {
    var s := rp.signature;
    assert QueueOn(c, m, s);
    JoinedEntries(c, c', m, n, rp, down, tick, w);
    JoinedHolders(c, c', accepts, m, n, rp, down, tick);
    JoinedLists(c, c', accepts, m, n, rp, down, tick);
    assert Holds(c, m, s) && Holds(c', m, s);
    if w != m {
      OthersQueueNothing(c, accepts, s, m, rp, w);
    }
    assert rp.originalCount == rp.count + |rp.volumeIDs|;
    hide Joined, AgreedOn, HoldersUp, Ordered, GoodList, EntriesFor, Before, QueueOn;
    QueueOfHead(c', m, n, rp, w, if w == m && rp.count > 1 then c'[m].lastKey else 0);
  }

  /** One entry at the head while copies are missing, and none elsewhere. */
  lemma QueueOfHead(c': Nodes, m: VolumeID, n: VolumeID, rp: Replica, w: VolumeID, k: nat)
    requires w in c' && Holds(c', m, rp.signature) && rp.volumeIDs != [] && rp.volumeIDs[0] == m
    requires rp.originalCount == rp.count + |rp.volumeIDs|
    requires forall u | Holds(c', u, rp.signature) ::
               var f := c'[u].tables.files[rp.signature];
               f.keys == [rp.key] && f.volumeIDs == rp.volumeIDs + [n] && f.replica == rp.originalCount
    requires EntriesFor(c'[w].tables.replicas, rp.signature) ==
             if w == m && rp.count > 1
             then [rp.(volumeIDs := rp.volumeIDs + [n], count := rp.count - 1, volumeReplicaID := k)] else []
    ensures QueueOn(c', w, rp.signature)
  {
    hide EntriesFor;
    assert (rp.volumeIDs + [n])[0] == m;
  }

  /** Two holders that agree have one head. */
  lemma AgreedHead(c: Nodes, accepts: set<VolumeID>, n: VolumeID, w: VolumeID, s: Signature)
    requires AgreedOn(c, accepts, s) && Holds(c, n, s) && Holds(c, w, s)
    ensures c[n].tables.files[s].volumeIDs == c[w].tables.files[s].volumeIDs
  {
    assert GoodList(c, accepts, n, s);
  }

  lemma NodeIndex(v: Vol, v': Vol, m: VolumeID, n: VolumeID, rp: Replica, down: set<VolumeID>, tick: int,
                  u: VolumeID, x: Signature)
    requires NodeJoined(v, v', m, n, rp, down, tick)
    ensures x in SignaturesFor(v'.tables.idxvolumes, u) <==>
            x in SignaturesFor(v.tables.idxvolumes, u) ||
            (Told(v.id, m, n, rp, down) && x == rp.signature &&
             if v.id == m then u == n else u in rp.volumeIDs + [n] && u != v.id)
  {
  }

  lemma JoinedIndexOn(c: Nodes, c': Nodes, accepts: set<VolumeID>, m: VolumeID, n: VolumeID, rp: Replica,
                      down: set<VolumeID>, tick: int, w: VolumeID)
    requires Before(c, accepts, m, n, rp) && Joined(c, c', m, n, rp, down, tick) && HoldersUp(rp, m, down) && w in c
    ensures w in c' && IndexOn(c', w, rp.signature)
  {
    hide NodeJoined, SignaturesFor, QueueOn, KeyMeans;
    var s := rp.signature;
    assert IndexOn(c, w, s);
    JoinedHolders(c, c', accepts, m, n, rp, down, tick);
    if Holds(c', w, s) {
      JoinedRows(c, c', accepts, m, n, rp, down, tick, w);
    }
    if Holds(c, w, s) {
      AgreedHead(c, accepts, w, m, s);
    }
    hide AgreedOn;
    forall v
      ensures s in SignaturesFor(c'[w].tables.idxvolumes, v) <==>
              Holds(c', w, s) && v != w && v in c'[w].tables.files[s].volumeIDs
    {
      NodeIndex(c[w], c'[w], m, n, rp, down, tick, v, s);
    }
  }

  lemma JoinedKeyMeans(c: Nodes, c': Nodes, m: VolumeID, n: VolumeID, rp: Replica, down: set<VolumeID>, tick: int)
    requires KeyMeans(c, rp.key, rp.signature) && Joined(c, c', m, n, rp, down, tick)
    requires m in c && forall w | w in c :: c[w].id == w
    requires Ordered(c[m].tables.replicas, c[m].lastKey) && NextReplica(c[m]) == Some(rp)
    ensures KeyMeans(c', rp.key, rp.signature)
  {
    hide Ordered, Turned;
    forall w | w in c'
      ensures KeyAt(c'[w], rp.key, rp.signature)
    {
      assert KeyAt(c[w], rp.key, rp.signature);
      JoinedQueue(c, c', m, n, rp, down, tick, w);
      assert NodeJoined(c[w], c'[w], m, n, rp, down, tick);
    }
  }

  lemma BeforeKeyMeans(c: Nodes, accepts: set<VolumeID>, m: VolumeID, n: VolumeID, rp: Replica)
    requires Before(c, accepts, m, n, rp)
    ensures KeyMeans(c, rp.key, rp.signature) && m in c && forall w | w in c :: c[w].id == w
  {
  }

  /** A successful round with its holders up keeps the agreement on its content. */
  lemma JoinedAgreed(c: Nodes, c': Nodes, accepts: set<VolumeID>, m: VolumeID, n: VolumeID, rp: Replica,
                     down: set<VolumeID>, tick: int)
    requires Before(c, accepts, m, n, rp) && Joined(c, c', m, n, rp, down, tick) && HoldersUp(rp, m, down)
    requires Ordered(c[m].tables.replicas, c[m].lastKey) && NextReplica(c[m]) == Some(rp)
    ensures AgreedOn(c', accepts, rp.signature)
  {
    hide GoodList, KeyMeans, Before, HoldersUp, Ordered, NodeJoined, QueueOn, IndexOn, GoodEntry, NextReplica;
    assert c'.Keys == c.Keys;
    hide Joined;
    assert RecordsOn(c', accepts, rp.signature) by {
      JoinedLists(c, c', accepts, m, n, rp, down, tick);
      JoinedHolders(c, c', accepts, m, n, rp, down, tick);
      BeforeKeyMeans(c, accepts, m, n, rp);
      JoinedKeyMeans(c, c', m, n, rp, down, tick);
    }
    hide RecordsOn;
    forall w | w in c'
      ensures QueueOn(c', w, rp.signature) && IndexOn(c', w, rp.signature)
    {
      JoinedQueueOn(c, c', accepts, m, n, rp, down, tick, w);
      JoinedIndexOn(c, c', accepts, m, n, rp, down, tick, w);
    }
  }
}
