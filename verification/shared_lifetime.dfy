/** All copies of a content that is created once have its creator's lifetime and time of creation. */
module SharedLifetime {
  import opened Types
  import opened ReplicaQueue
  import opened VolumeSpec
  import opened VolumeInvariant
  import opened VolumeRuns
  import opened CreateEffects
  import opened Cluster
  import opened ClusterRuns
  import opened Agreement
  import opened Sparing
  import opened AgreementRuns
  import opened Lifetimes

  /** All holders of the content, and all entries for it, have this lifetime and this time of creation. */
  ghost predicate Dated(c: Nodes, s: Signature, ttl: int, at: int) {
    && (forall w | Holds(c, w, s) :: c[w].tables.files[s].ttl == ttl && c[w].tables.files[s].createdAt == at)
    && (forall w, e | w in c && e in EntriesFor(c[w].tables.replicas, s) :: e.ttl == ttl && e.createdAt == at)
  }

  // ---------------------------------------------------------------- One step

  lemma DatedSame(c: Nodes, c': Nodes, s: Signature, ttl: int, at: int)
    requires SameOn(c, c', s) && Dated(c, s, ttl, at)
    ensures Dated(c', s, ttl, at)
  {
    hide EntriesFor;
    SameHolds(c, c', s);
    forall w, e | w in c' && e in EntriesFor(c'[w].tables.replicas, s)
      ensures e.ttl == ttl && e.createdAt == at
    {
      assert SameNode(c[w], c'[w], s);
    }
  }

  /** An agreed content that somebody holds has one key. */
  lemma AgreedKey(c: Nodes, accepts: set<VolumeID>, s: Signature, w: VolumeID) returns (k: Key)
    requires AgreedOn(c, accepts, s) && Holds(c, w, s)
    ensures Keyed(c, k, s)
  {
    hide QueueOn, IndexOn, KeyMeans;
    assert GoodList(c, accepts, w, s);
    k := c[w].tables.files[s].keys[0];
  }

  /** A round for the content: its new copy and its entry have what the entry had. */
  lemma DatedRound(contents: set<Bytes>, c: Nodes, env: Env, m: VolumeID, targets: seq<VolumeID>, s: Signature, ttl: int,
                   at: int)
    requires CollisionFree(env.sha, contents) && Good(env.sha, contents, c) && Ahead(c) && AgreedOn(c, env.accepts, s)
    requires m in c && NextReplica(c[m]).Some? && Targets(c, m, NextReplica(c[m]).value.volumeIDs, targets)
    requires NextReplica(c[m]).value.signature == s && Dated(c, s, ttl, at) && at != ZERO_TIME
    ensures Dated(Round(c, env, m, targets).0, s, ttl, at)
  {
    hide Round, Good, AgreedOn, Joined, Before, EntriesFor, Ordered;
    var rp := NextReplica(c[m]).value;
    var (c', n) := Round(c, env, m, targets);
    assert rp in c[m].tables.replicas && rp in EntriesFor(c[m].tables.replicas, s);
    forall w | Holds(c', w, s)
      ensures c'[w].tables.files[s].ttl == ttl && c'[w].tables.files[s].createdAt == at
    {
      RoundLifetimes(contents, c, env, m, targets, w, s);
    }
    RoundEffect(contents, c, env, m, targets);
    if n.Some? {
      NamedNodes(env.sha, contents, c);
      OneEntry(c, env.accepts, m, s);
    }
    forall w, e | w in c' && e in EntriesFor(c'[w].tables.replicas, s)
      ensures e.ttl == ttl && e.createdAt == at
    {
      if n.Some? {
        JoinedEntries(c, c', m, n.value, rp, env.down, env.tick, w);
      }
    }
  }

  lemma NamedNodes(sha: Bytes -> string, contents: set<Bytes>, c: Nodes)
    requires Good(sha, contents, c)
    ensures forall w | w in c :: c[w].id == w
  {
  }

  lemma OneEntry(c: Nodes, accepts: set<VolumeID>, m: VolumeID, s: Signature)
    requires AgreedOn(c, accepts, s) && m in c
    ensures |EntriesFor(c[m].tables.replicas, s)| <= 1
  {
    assert QueueOn(c, m, s);
  }

  lemma DatedStep(sha: Bytes -> string, contents: set<Bytes>, c: Nodes, accepts: set<VolumeID>, op: ClusterOp,
                  s: Signature, n: VolumeID, ttl: int, at: int)
    requires CollisionFree(sha, contents) && OpDigested(sha, contents, op)
    requires Good(sha, contents, c) && Ahead(c) && AgreedOn(c, accepts, s) && CalmOn(c, accepts, op, s)
    requires Holds(c, n, s) && Dated(c, s, ttl, at) && at != ZERO_TIME
    ensures Dated(ClusterStep(c, op), s, ttl, at)
  {
    hide Round, Good, Ahead, AgreedOn, Dated, Spares, HoldersUp, Targets, Perform, SameOn, Keyed;
    if Spares(c, op, s) {
      var k := AgreedKey(c, accepts, s, n);
      StepSpared(sha, contents, c, op, k, s);
      DatedSame(c, ClusterStep(c, op), s, ttl, at);
    } else if Enabled(c, op) {
      match op
      case OnNode(_, o) => assert false;
      case Replicate(env, m, targets) => DatedRound(contents, c, env, m, targets, s, ttl, at);
    }
  }

  // ---------------------------------------------------------------- From the create on

  /** Right after its fresh create the content has one holder and at most one entry, both as the request says. */
  lemma FreshDated(sha: Bytes -> string, contents: set<Bytes>, c: Nodes, accepts: set<VolumeID>, n: VolumeID, a: Request)
    requires Good(sha, contents, c) && Ahead(c) && AgreedOn(c, accepts, a.sig) && n in c && Unknown(c, a)
    requires CreateFile(c[n], a).1.Ok?
    ensures var c' := c[n := CreateFile(c[n], a).0];
            Holds(c', n, a.sig) && Dated(c', a.sig, a.ttl, if a.createdAt == ZERO_TIME then a.now else a.createdAt)
  {
    hide Honest, EntriesFor, AgreedOn, Ordered, Inv;
    NobodyHolds(c, accepts, a.sig);
    AcceptedStores(c[n], a);
    hide CreateFile;
    var v' := CreateFile(c[n], a).0;
    RecordWritten(c[n], a);
    if a.replica >= 2 {
      var e := CreateEnlists(c[n], a);
      EntriesSnoc(c[n].tables.replicas, e, a.sig);
    } else {
      NothingEnlisted(c[n], a);
    }
  }

  lemma AcceptedStores(v: Vol, a: Request)
    requires CreateFile(v, a).1.Ok? && a.sig !in v.tables.files
    ensures Stores(v, a)
  {
  }

  /** Dated contents stay dated over every calm run. */
  lemma {:induction false} DatedOverRuns(sha: Bytes -> string, contents: set<Bytes>, c: Nodes, accepts: set<VolumeID>,
                                         ops: seq<ClusterOp>, s: Signature, n: VolumeID, ttl: int, at: int)
    requires CollisionFree(sha, contents) && OpsDigested(sha, contents, ops)
    requires Good(sha, contents, c) && Ahead(c) && AgreedOn(c, accepts, s) && CalmRunOn(c, accepts, ops, s)
    requires Holds(c, n, s) && Dated(c, s, ttl, at) && at != ZERO_TIME
    ensures Holds(ClusterRun(c, ops), n, s) && Dated(ClusterRun(c, ops), s, ttl, at)
    decreases |ops|
  {
    hide AgreedOn, Good, Ahead, CalmOn, Starts, ClusterStep, Dated;
    if ops != [] {
      var k := |ops| - 1;
      assert OpsDigested(sha, contents, ops[..k]);
      assert CalmRunOn(c, accepts, ops[..k], s) by {
        forall i | 0 <= i < k
          ensures CalmOn(ClusterRun(c, ops[..k][..i]), accepts, ops[..k][i], s)
          ensures Starts(ClusterRun(c, ops[..k][..i]), ops[..k][i])
        {
          assert ops[..k][..i] == ops[..i];
        }
      }
      AgreementOnOverRuns(sha, contents, c, accepts, ops[..k], s);
      DatedOverRuns(sha, contents, c, accepts, ops[..k], s, n, ttl, at);
      DatedStep(sha, contents, ClusterRun(c, ops[..k]), accepts, ops[k], s, n, ttl, at);
      StepAppends(sha, contents, ClusterRun(c, ops[..k]), accepts, ops[k], n, s);
    }
  }

  /**
   * A fresh create, and then every calm run: whoever holds the content by then stores the lifetime of the request, and
   * the time of creation that it named or, where it named none, the time of the create. So all copies are due at one moment.
   */
  lemma CopiesDueTogether(sha: Bytes -> string, contents: set<Bytes>, c: Nodes, accepts: set<VolumeID>, n: VolumeID,
                             a: Request, ops: seq<ClusterOp>)
    requires CollisionFree(sha, contents) && OpsDigested(sha, contents, ops) && Digested(sha, contents, Create(a))
    requires Good(sha, contents, c) && Ahead(c) && AgreedOn(c, accepts, a.sig) && n in c && Unknown(c, a)
    requires CreateFile(c[n], a).1.Ok? && CalmRunOn(c[n := CreateFile(c[n], a).0], accepts, ops, a.sig)
    requires a.createdAt == ZERO_TIME ==> a.now != ZERO_TIME
    ensures var c' := ClusterRun(c[n := CreateFile(c[n], a).0], ops);
            && Holds(c', n, a.sig)
            && forall w | Holds(c', w, a.sig) ::
                 && c'[w].tables.files[a.sig].ttl == a.ttl
                 && c'[w].tables.files[a.sig].createdAt == if a.createdAt == ZERO_TIME then a.now else a.createdAt
  {
    hide AgreedOn, Good, Ahead, CalmRunOn, CreateFile, CollisionFree, OpsDigested, Unknown, EntriesFor;
    var c1 := c[n := CreateFile(c[n], a).0];
    var op := OnNode(n, Create(a));
    assert ClusterStep(c, op) == c1;
    ClusterStepGood(sha, contents, c, op);
    ClusterStepAhead(sha, contents, c, op);
    FreshServed(sha, contents, c, accepts, n, a);
    FreshDated(sha, contents, c, accepts, n, a);
    DatedOverRuns(sha, contents, c1, accepts, ops, a.sig, n, a.ttl,
                  if a.createdAt == ZERO_TIME then a.now else a.createdAt);
  }
}
