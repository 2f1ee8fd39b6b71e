/** Agreement over whole runs, and exactly which calls keep it. */
module AgreementRuns {
  import opened Types
  import opened Records
  import opened ReplicaQueue
  import opened VolumeSpec
  import opened VolumeInvariant
  import opened VolumeRuns
  import opened Cluster
  import opened ClusterRuns
  import opened Agreement
  import opened Untouched
  import opened Sparing

  /** No node knows the key or the content of the request, and no entry that is left over has the key. */
  ghost predicate Unknown(c: Nodes, a: Request) {
    forall w | w in c ::
      && a.key !in c[w].tables.idxkeys && a.sig !in c[w].tables.files
      && forall e | e in c[w].tables.replicas :: e.key != a.key
  }

  /** The call is the fresh create of the content, or a round for it that reaches its holders. */
  ghost predicate Serves(c: Nodes, accepts: set<VolumeID>, op: ClusterOp, s: Signature) {
    match op
    case OnNode(n, o) => o.Create? && o.a.sig == s && Unknown(c, o.a)
    case Replicate(env, m, _) =>
      env.accepts == accepts &&
      (Enabled(c, op) ==> NextReplica(c[m]).value.signature == s && HoldersUp(NextReplica(c[m]).value, m, env.down))
  }

  ghost predicate CalmOn(c: Nodes, accepts: set<VolumeID>, op: ClusterOp, s: Signature) {
    Spares(c, op, s) || Serves(c, accepts, op, s)
  }

  ghost predicate CalmRunOn(c: Nodes, accepts: set<VolumeID>, ops: seq<ClusterOp>, s: Signature) {
    forall i | 0 <= i < |ops| :: CalmOn(ClusterRun(c, ops[..i]), accepts, ops[i], s) && Starts(ClusterRun(c, ops[..i]), ops[i])
  }

  /** A node is only started anew over an empty queue. */
  ghost predicate Starts(c: Nodes, op: ClusterOp) {
    op.OnNode? && op.op.Restart? && op.n in c ==> c[op.n].tables.replicas == []
  }

  /** A create of fresh content under a fresh key, or a round that reaches the holders of its entry. */
  ghost predicate Calm(c: Nodes, accepts: set<VolumeID>, op: ClusterOp) {
    match op
    case OnNode(n, o) => n in c && o.Create? && Unknown(c, o.a)
    case Replicate(env, m, targets) =>
      env.accepts == accepts && (Enabled(c, op) ==> HoldersUp(NextReplica(c[m]).value, m, env.down))
  }

  ghost predicate CalmRun(c: Nodes, accepts: set<VolumeID>, ops: seq<ClusterOp>) {
    forall i | 0 <= i < |ops| :: Calm(ClusterRun(c, ops[..i]), accepts, ops[i])
  }

  // ---------------------------------------------------------------- Calls on one node

  lemma OnNodeSpared(sha: Bytes -> string, contents: set<Bytes>, c: Nodes, accepts: set<VolumeID>, n: VolumeID, o: Op,
                     s: Signature)
    requires Good(sha, contents, c) && Ahead(c) && AgreedOn(c, accepts, s) && n in c
    requires Spares(c, OnNode(n, o), s) && !o.NoteReplica? && !o.Relist?
    ensures AgreedOn(c[n := Perform(c[n], o).0], accepts, s)
  {
    hide Good, Ahead, Perform, SameNode, KeyAt, Spares, QueueOn, IndexOn;
    var v' := Perform(c[n], o).0;
    var c' := c[n := v'];
    NodeSpared(sha, contents, c, n, o, s);
    forall w | Holds(c, w, s)
      ensures c[w].tables.files[s].keys != [] && KeyMeans(c', c[w].tables.files[s].keys[0], s)
    {
      assert GoodList(c, accepts, w, s);
      OneNodeKept(c, n, v', c[w].tables.files[s].keys[0], s);
    }
    OneNodeSameOn(c, n, v', s);
    SameOnKeeps(c, c', accepts, s);
  }

  // ---------------------------------------------------------------- Fresh creates

  /** The new entry of a fresh create, if copies are missing. */
  function FreshEntries(v: Vol, a: Request): seq<Replica> {
    if a.replica >= 2 then [PendingReplica(v.id, a, a.sig).(volumeReplicaID := CreateFile(v, a).0.lastKey)] else []
  }

  /** What a create of fresh content leaves on its node, of that content and its key. */
  ghost predicate FreshNode(v: Vol, v': Vol, a: Request) {
    && v'.id == v.id
    && a.sig in v'.tables.files
    && v'.tables.files[a.sig] == FileRow([a.key], a.sig, a.replica, [v.id], |a.content|, a.ttl, a.CreatedAt())
    && a.key in v'.tables.idxkeys && v'.tables.idxkeys[a.key] == a.sig
    && v'.tables.idxvolumes == v.tables.idxvolumes
    && EntriesFor(v'.tables.replicas, a.sig) == EntriesFor(v.tables.replicas, a.sig) + FreshEntries(v, a)
    && forall e | e in v'.tables.replicas :: e in v.tables.replicas || e.signature == a.sig
  }

  lemma FreshShape(v: Vol, a: Request)
    requires Inv(v) && Ordered(v.tables.replicas, v.lastKey) && a.sig !in v.tables.files && CreateFile(v, a).1.Ok?
    ensures FreshNode(v, CreateFile(v, a).0, a)
  {
    CreateShape(v.tables, v.id, v.lastKey, a);
    StoredOutcome(v, a);
    CreateQueueFor(v, a, a.sig);
    CreateQueue(v, a);
    hide Inv, Enqueue, EntriesFor, Ordered, CreateTables, Freed, WithRecord, LastKeyOf;
  }

  /** Nobody holds the content, and what nobody holds has left no entry and no index behind. */
  ghost predicate Nobody(c: Nodes, s: Signature) {
    forall w | w in c ::
      && s !in c[w].tables.files && EntriesFor(c[w].tables.replicas, s) == []
      && forall v :: s !in SignaturesFor(c[w].tables.idxvolumes, v)
  }

  lemma NobodyHolds(c: Nodes, accepts: set<VolumeID>, s: Signature)
    requires AgreedOn(c, accepts, s) && forall w :: !Holds(c, w, s)
    ensures Nobody(c, s)
  {
    forall w | w in c
      ensures EntriesFor(c[w].tables.replicas, s) == []
    {
      var es := EntriesFor(c[w].tables.replicas, s);
      assert QueueOn(c, w, s) && IndexOn(c, w, s);
      assert es != [] ==> es[0] in es && GoodEntry(c, w, es[0]);
    }
  }

  /** A fresh create at `n`: the content has one holder, whose list names it alone. */
  lemma FreshOn(c: Nodes, accepts: set<VolumeID>, n: VolumeID, v: Vol, a: Request)
    requires Nobody(c, a.sig) && n in c && c[n].id == n && FreshNode(c[n], v, a)
    requires forall w | w in c && w != n :: KeyAt(c[w], a.key, a.sig)
    requires forall e | e in c[n].tables.replicas && e.key == a.key :: e.signature == a.sig
    ensures AgreedOn(c[n := v], accepts, a.sig)
  {
    hide EntriesFor, FreshEntries;
    var c', s := c[n := v], a.sig;
    var f := FileRow([a.key], s, a.replica, [n], |a.content|, a.ttl, a.CreatedAt());
    assert forall w :: Holds(c', w, s) <==> w == n;
    assert c'[n].tables.files[s] == f && GoodList(c', accepts, n, s);
    assert KeyMeans(c', a.key, s) by {
      forall w | w in c'
        ensures KeyAt(c'[w], a.key, s)
      {
        assert w != n ==> KeyAt(c[w], a.key, s);
      }
    }
    forall w | w in c'
      ensures QueueOn(c', w, s) && IndexOn(c', w, s)
    {
      FreshQueue(c', n, a, c[n], w);
    }
  }

  lemma FreshQueue(c': Nodes, n: VolumeID, a: Request, v: Vol, w: VolumeID)
    requires w in c' && v.id == n && forall u :: Holds(c', u, a.sig) <==> u == n
    requires Holds(c', n, a.sig)
    requires c'[n].tables.files[a.sig] == FileRow([a.key], a.sig, a.replica, [n], |a.content|, a.ttl, a.CreatedAt())
    requires EntriesFor(c'[w].tables.replicas, a.sig) == if w == n then FreshEntries(v, a) else []
    requires forall u :: a.sig !in SignaturesFor(c'[w].tables.idxvolumes, u)
    ensures QueueOn(c', w, a.sig) && IndexOn(c', w, a.sig)
  {
    hide EntriesFor, CreateFile;
  }

  lemma FreshServed(sha: Bytes -> string, contents: set<Bytes>, c: Nodes, accepts: set<VolumeID>, n: VolumeID, a: Request)
    requires Good(sha, contents, c) && Ahead(c) && AgreedOn(c, accepts, a.sig) && n in c && Unknown(c, a)
    ensures AgreedOn(c[n := CreateFile(c[n], a).0], accepts, a.sig)
  {
    hide CreateFile, Inv, Honest, EntriesFor, Ordered, AgreedOn;
    var c' := c[n := CreateFile(c[n], a).0];
    if CreateFile(c[n], a).1.Ok? {
      FreshShape(c[n], a);
      NobodyHolds(c, accepts, a.sig);
      FreshOn(c, accepts, n, CreateFile(c[n], a).0, a);
    } else {
      RefusedCopy(c[n], a);
      OneNodeSame(c, n, CreateFile(c[n], a).0);
      SameTablesAgree(c, c', accepts);
    }
  }

  // ---------------------------------------------------------------- Rounds

  lemma HeadEntry(c: Nodes, accepts: set<VolumeID>, m: VolumeID)
    requires m in c && NextReplica(c[m]).Some? && AgreedOn(c, accepts, NextReplica(c[m]).value.signature)
    ensures GoodEntry(c, m, NextReplica(c[m]).value) && HeadOf(c, m, NextReplica(c[m]).value)
  {
    var rp := NextReplica(c[m]).value;
    assert rp in c[m].tables.replicas && rp in EntriesFor(c[m].tables.replicas, rp.signature);
    assert QueueOn(c, m, rp.signature);
  }

  /** A round for a content that is agreed on joins one target to the holders, or changes no table. */
  lemma RoundEffect(contents: set<Bytes>, c: Nodes, env: Env, m: VolumeID, targets: seq<VolumeID>)
    requires CollisionFree(env.sha, contents) && Good(env.sha, contents, c)
    requires m in c && NextReplica(c[m]).Some? && Targets(c, m, NextReplica(c[m]).value.volumeIDs, targets)
    requires AgreedOn(c, env.accepts, NextReplica(c[m]).value.signature)
    ensures var (c', n) := Round(c, env, m, targets);
            var rp := NextReplica(c[m]).value;
            && (n == None ==> SameTables(c, c'))
            && (n.Some? ==> Before(c, env.accepts, m, n.value, rp) && Joined(c, c', m, n.value, rp, env.down, env.tick))
            && (n.Some? ==> n.value !in env.down)
  {
    hide Try, AgreedOn, Joined, GoodEntry, SameTables, CollisionFree, Ready, Inv, Honest;
    var rp := NextReplica(c[m]).value;
    HeadEntry(c, env.accepts, m);
    AgreedReady(env.sha, contents, c, env.accepts, m, rp);
    TryJoins(contents, c, env, m, rp, targets);
  }

  /** Such a round keeps the agreement on its content exactly when it copied nothing or every listed holder answered. */
  lemma RoundOnExactly(contents: set<Bytes>, c: Nodes, env: Env, m: VolumeID, targets: seq<VolumeID>)
    requires CollisionFree(env.sha, contents) && Good(env.sha, contents, c) && Ahead(c)
    requires m in c && NextReplica(c[m]).Some? && Targets(c, m, NextReplica(c[m]).value.volumeIDs, targets)
    requires AgreedOn(c, env.accepts, NextReplica(c[m]).value.signature)
    ensures AgreedOn(Round(c, env, m, targets).0, env.accepts, NextReplica(c[m]).value.signature) <==>
            Round(c, env, m, targets).1.None? || HoldersUp(NextReplica(c[m]).value, m, env.down)
  {
    hide Round, Good, AgreedOn, Joined, Before, Ordered, SameTables, HoldersUp, Holds;
    var rp := NextReplica(c[m]).value;
    RoundEffect(contents, c, env, m, targets);
    var (c', n) := Round(c, env, m, targets);
    if n.None? {
      SameTablesAgree(c, c', env.accepts);
    } else if HoldersUp(rp, m, env.down) {
      JoinedAgreed(c, c', env.accepts, m, n.value, rp, env.down, env.tick);
    } else if AgreedOn(c', env.accepts, rp.signature) {
      AgreedOnce(c', env.accepts, rp.signature);
      AgreementExact(c, c', env.accepts, m, n.value, rp, env.down, env.tick);
      assert false;
    }
  }

  lemma AgreedOnce(c: Nodes, accepts: set<VolumeID>, s: Signature)
    requires AgreedOn(c, accepts, s)
    ensures forall w, u | Holds(c, w, s) && Holds(c, u, s) ::
              c[w].tables.files[s].volumeIDs == c[u].tables.files[s].volumeIDs
  {
    forall w, u | Holds(c, w, s) && Holds(c, u, s)
      ensures c[w].tables.files[s].volumeIDs == c[u].tables.files[s].volumeIDs
    {
      AgreedHead(c, accepts, w, u, s);
    }
  }

  /** A round for another content leaves the agreement on `s` alone. */
  lemma RoundSpared(contents: set<Bytes>, c: Nodes, env: Env, accepts: set<VolumeID>, m: VolumeID, targets: seq<VolumeID>,
                    s: Signature)
    requires CollisionFree(env.sha, contents) && Good(env.sha, contents, c) && Ahead(c) && AgreedOn(c, accepts, s)
    requires m in c && forall i | 0 <= i < |targets| :: targets[i] in c && targets[i] != m
    requires NextReplica(c[m]).Some? ==> NextReplica(c[m]).value.signature != s
    ensures AgreedOn(Round(c, env, m, targets).0, accepts, s)
  {
    hide Round, Good, Ahead, SameNode, QueueOn, IndexOn;
    var c' := Round(c, env, m, targets).0;
    if NextReplica(c[m]).None? {
      RoundIdle(c, env, m, targets);
    } else {
      var rp := NextReplica(c[m]).value;
      EntryApart(c, accepts, m, rp, s);
      var other := if rp.key == "" then "-" else "";
      RoundApart(contents, c, env, m, targets, other, s);
      forall w | Holds(c, w, s)
        ensures c[w].tables.files[s].keys != [] && KeyMeans(c', c[w].tables.files[s].keys[0], s)
      {
        assert GoodList(c, accepts, w, s) && KeyClear(c[w], rp.key, s);
        RoundApart(contents, c, env, m, targets, c[w].tables.files[s].keys[0], s);
      }
      SameOnKeeps(c, c', accepts, s);
    }
  }

  lemma RoundIdle(c: Nodes, env: Env, m: VolumeID, targets: seq<VolumeID>)
    requires m in c && NextReplica(c[m]).None? && forall i | 0 <= i < |targets| :: targets[i] in c
    ensures Round(c, env, m, targets) == (c, None)
  {
  }

  /** The key of an entry is no key of another content that is agreed on. */
  lemma EntryApart(c: Nodes, accepts: set<VolumeID>, m: VolumeID, rp: Replica, s: Signature)
    requires AgreedOn(c, accepts, s) && m in c && rp in c[m].tables.replicas && rp.signature != s
    ensures Apart(c, rp.key, s)
  {
    forall w | w in c
      ensures KeyClear(c[w], rp.key, s)
    {
      if Holds(c, w, s) {
        assert GoodList(c, accepts, w, s) && KeyMeans(c, c[w].tables.files[s].keys[0], s);
        assert KeyAt(c[m], c[w].tables.files[s].keys[0], s);
      }
    }
  }

  /** A round keeps the agreement of the cluster exactly when it copied nothing or every listed holder answered. */
  lemma RoundAgreedExactly(contents: set<Bytes>, c: Nodes, env: Env, m: VolumeID, targets: seq<VolumeID>)
    requires CollisionFree(env.sha, contents) && Good(env.sha, contents, c) && Ahead(c) && Agreed(c, env.accepts)
    requires m in c && NextReplica(c[m]).Some? && Targets(c, m, NextReplica(c[m]).value.volumeIDs, targets)
    ensures Agreed(Round(c, env, m, targets).0, env.accepts) <==>
            Round(c, env, m, targets).1.None? || HoldersUp(NextReplica(c[m]).value, m, env.down)
  {
    hide Round, Good, Ahead, AgreedOn, HoldersUp, NextReplica;
    var s := NextReplica(c[m]).value.signature;
    RoundOnExactly(contents, c, env, m, targets);
    forall x | x != s
      ensures AgreedOn(Round(c, env, m, targets).0, env.accepts, x)
    {
      RoundSpared(contents, c, env, env.accepts, m, targets, x);
    }
  }

  // ---------------------------------------------------------------- Steps and runs

  /** A call that spares the content, or serves it, keeps the agreement on it. */
  lemma CalmStepOn(sha: Bytes -> string, contents: set<Bytes>, c: Nodes, accepts: set<VolumeID>, op: ClusterOp, s: Signature)
    requires CollisionFree(sha, contents) && OpDigested(sha, contents, op)
    requires Good(sha, contents, c) && Ahead(c) && AgreedOn(c, accepts, s) && CalmOn(c, accepts, op, s)
    ensures AgreedOn(ClusterStep(c, op), accepts, s)
  {
    hide Round, Good, AgreedOn, CreateFile, Ahead, HoldersUp, Unknown;
    if Enabled(c, op) {
      match op
      case OnNode(n, o) =>
        if Spares(c, op, s) {
          OnNodeSpared(sha, contents, c, accepts, n, o, s);
        } else {
          FreshServed(sha, contents, c, accepts, n, o.a);
        }
      case Replicate(env, m, targets) =>
        if Spares(c, op, s) {
          RoundSpared(contents, c, env, accepts, m, targets, s);
        } else {
          RoundOnExactly(contents, c, env, m, targets);
        }
    }
  }

  lemma StartedAhead(sha: Bytes -> string, contents: set<Bytes>, c: Nodes, op: ClusterOp)
    requires Good(sha, contents, c) && Ahead(c) && Starts(c, op)
    ensures Ahead(ClusterStep(c, op))
  {
    if op.OnNode? && op.op.Restart? {
      hide Good;
    } else {
      hide Good, Ahead, ClusterStep;
      ClusterStepAhead(sha, contents, c, op);
    }
  }

  /**
   * Agreement on one content, over every run: whatever is created, overwritten, deleted, expired, repaired or copied
   * elsewhere, as long as no call names the content or its key but its one create and rounds that reach its holders.
   */
  lemma {:induction false} AgreementOnOverRuns(sha: Bytes -> string, contents: set<Bytes>, c: Nodes,
                                               accepts: set<VolumeID>, ops: seq<ClusterOp>, s: Signature)
    requires CollisionFree(sha, contents) && OpsDigested(sha, contents, ops)
    requires Good(sha, contents, c) && Ahead(c) && AgreedOn(c, accepts, s) && CalmRunOn(c, accepts, ops, s)
    ensures Good(sha, contents, ClusterRun(c, ops)) && Ahead(ClusterRun(c, ops))
    ensures AgreedOn(ClusterRun(c, ops), accepts, s)
    decreases |ops|
  {
    hide AgreedOn, Good, Ahead, CalmOn, Starts, ClusterStep;
    if ops != [] {
      var k := |ops| - 1;
      assert OpsDigested(sha, contents, ops[..k]);
      assert CalmRunOn(c, accepts, ops[..k], s) by {
        forall i | 0 <= i < k
          ensures CalmOn(ClusterRun(c, ops[..k][..i]), accepts, ops[..k][i], s)
          ensures Starts(ClusterRun(c, ops[..k][..i]), ops[..k][i])
        {
          assert ops[..k][..i] == ops[..i];
        }
      }
      AgreementOnOverRuns(sha, contents, c, accepts, ops[..k], s);
      ClusterStepGood(sha, contents, ClusterRun(c, ops[..k]), ops[k]);
      CalmStepOn(sha, contents, ClusterRun(c, ops[..k]), accepts, ops[k], s);
      StartedAhead(sha, contents, ClusterRun(c, ops[..k]), ops[k]);
    }
  }

  /** A fresh create, or a round that reaches its holders, is calm for every content. */
  lemma CalmForAll(sha: Bytes -> string, contents: set<Bytes>, c: Nodes, accepts: set<VolumeID>, op: ClusterOp, s: Signature)
    requires Good(sha, contents, c) && Calm(c, accepts, op)
    ensures CalmOn(c, accepts, op, s) && Starts(c, op)
  {
    hide Honest, HoldersUp, Blobs, ReverseIndexed, Quota, GoodRecords, Stores;
    match op
    case OnNode(n, o) =>
      if o.a.sig != s {
        forall w | w in c
          ensures KeyClear(c[w], o.a.key, s)
        {
          assert Inv(c[w]);
        }
        assert Spares(c, op, s);
      }
    case Replicate(env, m, targets) =>
  }

  /** Agreement on everything holds in every state that fresh creates and rounds can reach, over any entries. */
  lemma {:induction false} AgreementOverRuns(sha: Bytes -> string, contents: set<Bytes>, c: Nodes, accepts: set<VolumeID>,
                                             ops: seq<ClusterOp>)
    requires CollisionFree(sha, contents) && OpsDigested(sha, contents, ops)
    requires Good(sha, contents, c) && Ahead(c) && Agreed(c, accepts) && CalmRun(c, accepts, ops)
    ensures Good(sha, contents, ClusterRun(c, ops)) && Ahead(ClusterRun(c, ops)) && Agreed(ClusterRun(c, ops), accepts)
    decreases |ops|
  {
    hide AgreedOn, Good, Ahead, Calm, CalmOn, Starts, ClusterStep;
    if ops != [] {
      var k := |ops| - 1;
      var before := ClusterRun(c, ops[..k]);
      assert OpsDigested(sha, contents, ops[..k]);
      forall i | 0 <= i < k
        ensures Calm(ClusterRun(c, ops[..k][..i]), accepts, ops[..k][i])
      {
        assert ops[..k][..i] == ops[..i];
      }
      AgreementOverRuns(sha, contents, c, accepts, ops[..k]);
      ClusterStepGood(sha, contents, before, ops[k]);
      CalmForAll(sha, contents, before, accepts, ops[k], "");
      StartedAhead(sha, contents, before, ops[k]);
      forall s
        ensures AgreedOn(ClusterStep(before, ops[k]), accepts, s)
      {
        CalmForAll(sha, contents, before, accepts, ops[k], s);
        CalmStepOn(sha, contents, before, accepts, ops[k], s);
      }
    }
  }

  /** A cluster whose volumes are all empty agrees, whatever their sizes. */
  lemma EmptyAgreed(c: Nodes, accepts: set<VolumeID>, states: map<VolumeID, StateRow>)
    requires c.Keys == states.Keys && forall n | n in c :: c[n] == Initial(n, states[n])
    requires forall n | n in states :: 0 <= states[n].volumeUsed && UsedSize(states[n]) <= TotalSize(states[n])
    ensures Agreed(c, accepts) && Ahead(c)
    ensures forall sha, contents :: Good(sha, contents, c)
  {
    forall n | n in c
      ensures Inv(c[n]) && c[n].id == n && forall sha, contents :: Honest(sha, contents, c[n])
    {
      InitialInv(n, states[n]);
    }
    hide Inv, Honest, AgreedOn;
    forall s
      ensures AgreedOn(c, accepts, s)
    {
      EmptyOn(c, accepts, s);
    }
  }

  lemma EmptyOn(c: Nodes, accepts: set<VolumeID>, s: Signature)
    requires forall n | n in c :: c[n].tables.files == map[] && c[n].tables.replicas == [] && c[n].tables.idxvolumes == map[]
    ensures AgreedOn(c, accepts, s)
  {
    hide KeyMeans, GoodList, GoodEntry;
    NoEntries(s);
    assert forall w :: !Holds(c, w, s);
  }

  /**
   * What agreement means for one content: all holders store the same duplicate-free list of exactly the holders. Its
   * length is the wanted number of copies less the missing ones while an entry is pending, and the wanted number (at
   * least the one own copy) once the entry is gone.
   */
  lemma AgreedLists(c: Nodes, accepts: set<VolumeID>, n: VolumeID, w: VolumeID, s: Signature)
    requires AgreedOn(c, accepts, s) && Holds(c, n, s) && Holds(c, w, s)
    ensures var f, g := c[n].tables.files[s], c[w].tables.files[s];
            && f.volumeIDs == g.volumeIDs && NoDup(f.volumeIDs) && f.volumeIDs != []
            && (forall u :: u in f.volumeIDs <==> Holds(c, u, s))
            && Holds(c, f.volumeIDs[0], s)
            && (forall e | e in EntriesFor(c[f.volumeIDs[0]].tables.replicas, s) :: |f.volumeIDs| == e.originalCount - e.count)
            && (EntriesFor(c[f.volumeIDs[0]].tables.replicas, s) == [] ==>
                  |f.volumeIDs| == if f.replica >= 1 then f.replica else 1)
  {
    hide KeyMeans, IndexOn;
    assert GoodList(c, accepts, n, s);
    var f := c[n].tables.files[s];
    var head := f.volumeIDs[0];
    assert head in f.volumeIDs;
    assert GoodList(c, accepts, head, s) && QueueOn(c, head, s);
  }

  // ---------------------------------------------------------------- The creator stays the head

  /** A calm step keeps every holder of a content that has one, and only ever appends to its list. */
  lemma StepAppends(sha: Bytes -> string, contents: set<Bytes>, c: Nodes, accepts: set<VolumeID>, op: ClusterOp,
                    w: VolumeID, s: Signature)
    requires CollisionFree(sha, contents) && OpDigested(sha, contents, op)
    requires Good(sha, contents, c) && Ahead(c) && AgreedOn(c, accepts, s) && CalmOn(c, accepts, op, s) && Holds(c, w, s)
    ensures Holds(ClusterStep(c, op), w, s)
    ensures c[w].tables.files[s].volumeIDs <= ClusterStep(c, op)[w].tables.files[s].volumeIDs
  {
    hide Round, Good, AgreedOn, Perform, Ahead, HoldersUp, SameNode;
    if Enabled(c, op) {
      match op
      case OnNode(n, o) =>
        if Spares(c, op, s) {
          NodeSpared(sha, contents, c, n, o, s);
          OneNodeSameOn(c, n, Perform(c[n], o).0, s);
          SameHolds(c, ClusterStep(c, op), s);
        } else {
          assert false;
        }
      case Replicate(env, m, targets) => RoundAppends(contents, c, env, accepts, m, targets, w, s);
    }
  }

  lemma RoundAppends(contents: set<Bytes>, c: Nodes, env: Env, accepts: set<VolumeID>, m: VolumeID, targets: seq<VolumeID>,
                     w: VolumeID, s: Signature)
    requires CollisionFree(env.sha, contents) && Good(env.sha, contents, c) && Ahead(c) && AgreedOn(c, accepts, s)
    requires m in c && NextReplica(c[m]).Some? && Targets(c, m, NextReplica(c[m]).value.volumeIDs, targets)
    requires Holds(c, w, s) && (NextReplica(c[m]).value.signature == s ==> env.accepts == accepts)
    ensures Holds(Round(c, env, m, targets).0, w, s)
    ensures c[w].tables.files[s].volumeIDs <= Round(c, env, m, targets).0[w].tables.files[s].volumeIDs
  {
    hide Round, Good, Ahead, AgreedOn, SameNode;
    var (c', n) := Round(c, env, m, targets);
    var rp := NextReplica(c[m]).value;
    if rp.signature != s {
      EntryApart(c, accepts, m, rp, s);
      RoundApart(contents, c, env, m, targets, if rp.key == "" then "-" else "", s);
      SameHolds(c, c', s);
    } else {
      RoundEffect(contents, c, env, m, targets);
      if n.Some? {
        JoinedHolders(c, c', env.accepts, m, n.value, rp, env.down, env.tick);
        JoinedRows(c, c', env.accepts, m, n.value, rp, env.down, env.tick, w);
        HeadEntry(c, accepts, m);
        AgreedHead(c, accepts, w, m, s);
      }
    }
  }

  /** So the volume that created a content heads the list of every holder ever after. */
  lemma {:induction false} CreatorHeads(sha: Bytes -> string, contents: set<Bytes>, c: Nodes, accepts: set<VolumeID>,
                                        ops: seq<ClusterOp>, n: VolumeID, s: Signature)
    requires CollisionFree(sha, contents) && OpsDigested(sha, contents, ops)
    requires Good(sha, contents, c) && Ahead(c) && AgreedOn(c, accepts, s) && CalmRunOn(c, accepts, ops, s)
    requires Holds(c, n, s) && c[n].tables.files[s].volumeIDs == [n]
    ensures Holds(ClusterRun(c, ops), n, s) && [n] <= ClusterRun(c, ops)[n].tables.files[s].volumeIDs
    ensures forall w | Holds(ClusterRun(c, ops), w, s) ::
              var vids := ClusterRun(c, ops)[w].tables.files[s].volumeIDs;
              vids != [] && vids[0] == n
    decreases |ops|
  {
    hide AgreedOn, Good, Ahead, CalmOn, Starts, ClusterStep;
    AgreementOnOverRuns(sha, contents, c, accepts, ops, s);
    if ops != [] {
      var k := |ops| - 1;
      assert OpsDigested(sha, contents, ops[..k]);
      assert CalmRunOn(c, accepts, ops[..k], s) by {
        forall i | 0 <= i < k
          ensures CalmOn(ClusterRun(c, ops[..k][..i]), accepts, ops[..k][i], s)
          ensures Starts(ClusterRun(c, ops[..k][..i]), ops[..k][i])
        {
          assert ops[..k][..i] == ops[..i];
        }
      }
      CreatorHeads(sha, contents, c, accepts, ops[..k], n, s);
      AgreementOnOverRuns(sha, contents, c, accepts, ops[..k], s);
      StepAppends(sha, contents, ClusterRun(c, ops[..k]), accepts, ops[k], n, s);
    }
    var c' := ClusterRun(c, ops);
    forall w | Holds(c', w, s)
      ensures c'[w].tables.files[s].volumeIDs != [] && c'[w].tables.files[s].volumeIDs[0] == n
    {
      AgreedLists(c', accepts, w, n, s);
    }
  }
}
