/** What the nodes store during and after a repair, and who repairs the next loss. */
module Repaired {
  import opened Types
  import opened ReplicaQueue
  import opened VolumeSpec
  import opened VolumeInvariant
  import opened VolumeRuns
  import opened Cluster
  import opened ClusterRuns
  import opened Agreement
  import opened Synchronizing
  import opened Sparing
  import opened AgreementRuns
  import opened Repair
  import opened Lifetimes

  /** All holders of the content store one list. */
  ghost predicate OneList(c: Nodes, s: Signature) {
    forall w, u | Holds(c, w, s) && Holds(c, u, s) ::
      c[w].tables.files[s].volumeIDs == c[u].tables.files[s].volumeIDs
  }

  /** The cluster without the lost node, whose volume `m` was told of the loss. */
  function AfterLoss(c: Nodes, d: VolumeID, m: VolumeID, uuids: seq<string>, ticks: seq<int>): Nodes
    requires m in c
  {
    (c - {d})[m := SynchronizeReplicas(c[m], d, uuids, ticks).0]
  }

  /**
   * The loss of `d` to the content `s`, whose holders stored the list `vids` and wanted `replica` copies. `m` is the
   * repairer, the head of what is left of the list, whose record has the lifetime `ttl`.
   */
  datatype Loss = Loss(d: VolumeID, vids: seq<VolumeID>, m: VolumeID, key: Key, s: Signature, replica: int, ttl: int)
  {
    function Rest(): seq<VolumeID> {
      Without(vids, d)
    }

    ghost predicate Valid() {
      d in vids && NoDup(vids) && Rest() != [] && Rest()[0] == m
    }

    /** What a holder stores once the copies `ns` were made: the repairer keeps the lost node in its list. */
    function ListAt(ns: seq<VolumeID>, w: VolumeID): seq<VolumeID> {
      (if ns == [] || w == m then vids else Rest()) + ns
    }
  }

  /** The copies `ns` were made since the loss, and every holder was told of each of them. */
  ghost predicate Copied(c: Nodes, accepts: set<VolumeID>, l: Loss, ns: seq<VolumeID>) {
    && l.Valid() && l.d !in c && l.m in c && (forall w | w in c :: c[w].id == w)
    && NoDup(ns) && (forall n | n in ns :: n !in l.vids)
    && (forall w :: Holds(c, w, l.s) <==> w in l.Rest() || w in ns)
    && (forall w | Holds(c, w, l.s) :: HolderAfter(c, accepts, l, ns, w))
    && KeyMeans(c, l.key, l.s)
  }

  ghost predicate HolderAfter(c: Nodes, accepts: set<VolumeID>, l: Loss, ns: seq<VolumeID>, w: VolumeID)
    requires Holds(c, w, l.s)
  {
    var f := c[w].tables.files[l.s];
    && f.keys == [l.key] && f.signature == l.s && f.replica == l.replica && (w == l.m || w in accepts)
    && f.volumeIDs == l.ListAt(ns, w) && (w == l.m ==> f.ttl == l.ttl) && (w in ns ==> f.ttl == NO_TTL)
  }

  /** The entry of the repair after the copies `ns`: it lists the true holders and asks for what is still missing. */
  ghost predicate EntryOf(e: Replica, l: Loss, ns: seq<VolumeID>) {
    && e.signature == l.s && e.key == l.key && e.volumeIDs == l.Rest() + ns && e.originalCount == l.replica
    && e.count == l.replica - |l.Rest() + ns| && e.count >= 1 && e.ttl == NO_TTL
  }

  /** The repairer has just the one entry while copies are missing, and nobody has another one. */
  ghost predicate Due(c: Nodes, l: Loss, ns: seq<VolumeID>)
    requires l.m in c
  {
    && (forall w | w in c && w != l.m :: EntriesFor(c[w].tables.replicas, l.s) == [])
    && var es := EntriesFor(c[l.m].tables.replicas, l.s);
       |es| <= 1 && (forall e | e in es :: EntryOf(e, l, ns)) && (es == [] <==> |l.Rest() + ns| >= l.replica)
  }

  // ---------------------------------------------------------------- From the loss to the repair

  lemma OnlyQueueSynced(v: Vol, d: VolumeID, uuids: seq<string>, ticks: seq<int>)
    requires Ordered(v.tables.replicas, v.lastKey)
    ensures OnlyQueue(v, SynchronizeReplicas(v, d, uuids, ticks).0)
  {
    if d in v.tables.idxvolumes {
      SyncLoopOrdered(v.tables, v.id, d, v.tables.idxvolumes[d], QueueOf(v), uuids, ticks);
    }
  }

  lemma GoodRow(v: Vol, s: Signature)
    requires Inv(v) && s in v.tables.files
    ensures v.tables.files[s].signature == s
  {
    assert GoodRecord(s, v.tables.files[s]);
  }

  lemma SameIndexes(v: Vol, v': Vol, x: VolumeID)
    requires OnlyQueue(v, v') && Indexes(v, x)
    ensures Indexes(v', x)
  {
  }

  lemma StepKeepsSync(sha: Bytes -> string, contents: set<Bytes>, v: Vol, d: VolumeID, uuids: seq<string>, ticks: seq<int>)
    requires Inv(v) && Honest(sha, contents, v)
    ensures var v' := SynchronizeReplicas(v, d, uuids, ticks).0;
            Inv(v') && v'.id == v.id && Honest(sha, contents, v')
  {
    SynchronizeKeeps(v, d, uuids, ticks);
    StepSized(v, Synchronize(d, uuids, ticks));
    hide Inv;
  }

  /** The loss and the call that follows it change nothing of the remaining nodes but the queue of `m`. */
  lemma LossKeeps(sha: Bytes -> string, contents: set<Bytes>, c: Nodes, d: VolumeID, m: VolumeID, uuids: seq<string>,
                  ticks: seq<int>)
    requires Good(sha, contents, c) && Ahead(c) && m in c && m != d
    ensures var c1 := AfterLoss(c, d, m, uuids, ticks);
            && Good(sha, contents, c1) && Ahead(c1) && (forall w :: w in c1 <==> w in c && w != d)
            && forall w | w in c1 :: OnlyQueue(c[w], c1[w])
  {
    hide Honest, Inv, SynchronizeReplicas, Ordered;
    StepKeepsSync(sha, contents, c[m], d, uuids, ticks);
    StepOrdered(c[m], Synchronize(d, uuids, ticks));
    OnlyQueueSynced(c[m], d, uuids, ticks);
  }

  /** The loss of `d` as the holder `h` of an agreed content knows it. */
  ghost function LossOf(c: Nodes, d: VolumeID, h: VolumeID, s: Signature, m: VolumeID): Loss
    requires h in c && s in c[h].tables.files && c[h].tables.files[s].keys != []
  {
    var f := c[h].tables.files[s];
    Loss(d, f.volumeIDs, m, f.keys[0], s, f.replica, if Holds(c, m, s) then c[m].tables.files[s].ttl else NO_TTL)
  }

  /** What the remaining nodes of an agreed cluster know of a content that the lost node held with them. */
  lemma RemainingHolders(c: Nodes, accepts: set<VolumeID>, d: VolumeID, h: VolumeID, s: Signature)
    requires AgreedOn(c, accepts, s) && Holds(c, d, s) && Holds(c, h, s) && h != d
    ensures var f := c[h].tables.files[s];
            && |f.keys| == 1 && d in f.volumeIDs && NoDup(f.volumeIDs) && 2 <= |f.volumeIDs| <= f.replica
            && (forall w :: w in f.volumeIDs <==> Holds(c, w, s)) && KeyMeans(c, f.keys[0], s)
            && forall w | Holds(c, w, s) ::
                 var g := c[w].tables.files[s];
                 && g.volumeIDs == f.volumeIDs && g.keys == f.keys && g.replica == f.replica
                 && (w == f.volumeIDs[0] || w in accepts)
  {
    hide QueueOn, IndexOn, KeyMeans;
    var f := c[h].tables.files[s];
    assert GoodList(c, accepts, h, s);
    assert |f.volumeIDs| >= 2 by {
      assert d in f.volumeIDs && h in f.volumeIDs;
      assert |f.volumeIDs| == 1 ==> f.volumeIDs == [d] && f.volumeIDs == [h];
    }
    forall w | Holds(c, w, s)
      ensures w == f.volumeIDs[0] || w in accepts
    {
      assert GoodList(c, accepts, w, s);
    }
  }

  /** The head of a list that survives stays the head of the rest; otherwise the second one does. */
  lemma FirstOfRest(vids: seq<VolumeID>, d: VolumeID, m: VolumeID)
    requires d in vids && NoDup(vids) && Without(vids, d) != [] && Without(vids, d)[0] == m
    ensures |vids| >= 2 && m == if d == vids[0] then vids[1] else vids[0]
  {
    assert m in Without(vids, d);
    FirstWithout(vids, d, m);
    assert NextHead(vids, d, m);
  }

  /** A content that `d` held with others, once `d` is gone: nothing is copied yet. */
  lemma LossCopied(sha: Bytes -> string, contents: set<Bytes>, c: Nodes, accepts: set<VolumeID>, d: VolumeID,
                   h: VolumeID, s: Signature, m: VolumeID, c1: Nodes)
    requires Good(sha, contents, c) && AgreedOn(c, accepts, s) && Holds(c, d, s) && Holds(c, h, s) && h != d
    requires c[h].tables.files[s].keys != [] && LossOf(c, d, h, s, m).Valid()
    requires Good(sha, contents, c1) && (forall w :: w in c1 <==> w in c && w != d)
    requires forall w | w in c1 :: OnlyQueue(c[w], c1[w])
    requires forall w | w in c1 && KeyAt(c[w], c[h].tables.files[s].keys[0], s) :: KeyAt(c1[w], c[h].tables.files[s].keys[0], s)
    ensures Copied(c1, accepts, LossOf(c, d, h, s, m), [])
  {
    hide Honest, Inv, AgreedOn, KeyAt, HolderAfter;
    var l := LossOf(c, d, h, s, m);
    RemainingHolders(c, accepts, d, h, s);
    assert m in l.Rest() && l.vids + [] == l.vids;
    assert forall w :: Holds(c1, w, s) <==> w in l.Rest();
    forall w | Holds(c1, w, s)
      ensures HolderAfter(c1, accepts, l, [], w)
    {
      GoodRow(c[w], s);
      LossHolder(c, accepts, d, h, s, m, c1, w);
    }
    hide Good, OnlyQueue;
  }

  lemma LossHolder(c: Nodes, accepts: set<VolumeID>, d: VolumeID, h: VolumeID, s: Signature, m: VolumeID, c1: Nodes,
                   w: VolumeID)
    requires AgreedOn(c, accepts, s) && Holds(c, d, s) && Holds(c, h, s) && h != d
    requires c[h].tables.files[s].keys != [] && LossOf(c, d, h, s, m).Valid()
    requires w in c && w != d && Holds(c1, w, s) && OnlyQueue(c[w], c1[w]) && c[w].tables.files[s].signature == s
    ensures HolderAfter(c1, accepts, LossOf(c, d, h, s, m), [], w)
  {
    hide AgreedOn, KeyMeans;
    var l := LossOf(c, d, h, s, m);
    RemainingHolders(c, accepts, d, h, s);
    FirstOfRest(l.vids, d, m);
    assert l.vids + [] == l.vids;
  }

  /**
   * A holder of an agreed cluster is lost, and the head of what is left of the list of a content is told. The other
   * holders still store the former list. Every entry that the call queues for the content lists the remaining holders;
   * if the head had no entry for it before, it has exactly one now.
   */
  lemma LossBegins(sha: Bytes -> string, contents: set<Bytes>, c: Nodes, accepts: set<VolumeID>, d: VolumeID,
                   h: VolumeID, s: Signature, uuids: seq<string>, ticks: seq<int>)
    requires Good(sha, contents, c) && Ahead(c) && Agreed(c, accepts) && Holds(c, d, s) && Holds(c, h, s) && h != d
    ensures c[h].tables.files[s].keys != []
    ensures var rest := Without(c[h].tables.files[s].volumeIDs, d);
            && rest != [] && rest[0] in c
            && var m, l, c1 := rest[0], LossOf(c, d, h, s, rest[0]), AfterLoss(c, d, rest[0], uuids, ticks);
               && Good(sha, contents, c1) && Ahead(c1) && Copied(c1, accepts, l, [])
               && (forall e | e in EntriesFor(NewEntries(c[m], d, uuids, ticks), s) :: EntryOf(e, l, []))
               && (EntriesFor(c[m].tables.replicas, s) == [] ==> Due(c1, l, []))
               && forall w, x | w in c1 && x != w :: Indexes(c1[w], x)
  {
    hide Good, Ahead, SynchronizeReplicas, NewEntries, EntriesFor, AgreedOn, OnlyQueue, Indexes, Copied, Due, EntryOf;
    AgreedShares(c, accepts, h, d);
    UniqueRepairer(sha, contents, c, d, s, h, h, uuids, ticks);
    assert |c[h].tables.files[s].keys| == 1 by { RemainingHolders(c, accepts, d, h, s); }
    var m := Without(c[h].tables.files[s].volumeIDs, d)[0];
    var l, c1 := LossOf(c, d, h, s, m), AfterLoss(c, d, m, uuids, ticks);
    LossKeeps(sha, contents, c, d, m, uuids, ticks);
    assert l.Valid() by { RemainingHolders(c, accepts, d, h, s); }
    forall w | w in c1 && KeyAt(c[w], l.key, s)
      ensures KeyAt(c1[w], l.key, s)
    {
      if w == m {
        GoodNodeOf(sha, contents, c, m);
        SyncKeyAt(c[m], d, uuids, ticks, l.key, s);
      }
    }
    LossCopied(sha, contents, c, accepts, d, h, s, m, c1);
    forall w, x | w in c1 && x != w
      ensures Indexes(c1[w], x)
    {
      AgreedShares(c, accepts, w, x);
      SameIndexes(c[w], c1[w], x);
    }
    NewEntriesOf(sha, contents, c, accepts, d, h, s, m, uuids, ticks);
    if EntriesFor(c[m].tables.replicas, s) == [] {
      LossQueued(sha, contents, c, accepts, d, h, s, m, uuids, ticks);
    }
  }

  lemma NewEntriesOf(sha: Bytes -> string, contents: set<Bytes>, c: Nodes, accepts: set<VolumeID>, d: VolumeID,
                     h: VolumeID, s: Signature, m: VolumeID, uuids: seq<string>, ticks: seq<int>)
    requires Good(sha, contents, c) && Ahead(c) && Agreed(c, accepts) && Holds(c, d, s) && Holds(c, h, s) && h != d
    requires c[h].tables.files[s].keys != [] && LossOf(c, d, h, s, m).Valid() && m in c
    ensures var es := EntriesFor(NewEntries(c[m], d, uuids, ticks), s);
            |es| == 1 && forall e | e in es :: EntryOf(e, LossOf(c, d, h, s, m), [])
  {
    hide Good, Ahead, SynchronizeReplicas, NewEntries, EntriesFor, AgreedOn, Indexes;
    var l := LossOf(c, d, h, s, m);
    assert m in l.Rest();
    AgreedShares(c, accepts, m, d);
    UniqueRepairer(sha, contents, c, d, s, h, m, uuids, ticks);
    RemainingHolders(c, accepts, d, h, s);
    GoodNodeOf(sha, contents, c, m);
    SurvivorQueues(c[m], d, uuids, ticks, s);
    WithoutNoDup(l.vids, d);
    assert l.Rest() + [] == l.Rest();
    forall e | e in EntriesFor(NewEntries(c[m], d, uuids, ticks), s)
      ensures EntryOf(e, l, [])
    {
      assert Repairs(e, c[m].tables, c[m].id, d, s);
    }
  }

  lemma LossQueued(sha: Bytes -> string, contents: set<Bytes>, c: Nodes, accepts: set<VolumeID>, d: VolumeID,
                   h: VolumeID, s: Signature, m: VolumeID, uuids: seq<string>, ticks: seq<int>)
    requires Good(sha, contents, c) && Ahead(c) && Agreed(c, accepts) && Holds(c, d, s) && Holds(c, h, s) && h != d
    requires c[h].tables.files[s].keys != [] && LossOf(c, d, h, s, m).Valid() && m in c && m != d
    requires EntriesFor(c[m].tables.replicas, s) == []
    ensures Due(AfterLoss(c, d, m, uuids, ticks), LossOf(c, d, h, s, m), [])
  {
    hide Good, Ahead, SynchronizeReplicas, NewEntries, EntriesFor, AgreedOn, EntryOf;
    var l, c1 := LossOf(c, d, h, s, m), AfterLoss(c, d, m, uuids, ticks);
    RemainingHolders(c, accepts, d, h, s);
    WithoutNoDup(l.vids, d);
    assert l.Rest() + [] == l.Rest();
    NewEntriesOf(sha, contents, c, accepts, d, h, s, m, uuids, ticks);
    GoodNodeOf(sha, contents, c, m);
    SurvivorQueues(c[m], d, uuids, ticks, s);
    EntriesConcat(c[m].tables.replicas, NewEntries(c[m], d, uuids, ticks), s);
    forall w | w in c1 && w != m
      ensures EntriesFor(c1[w].tables.replicas, s) == []
    {
      NoOtherEntry(c, accepts, s, h, d, m, w);
    }
  }

  /** The copies that entries ask for. */
  function Asked(es: seq<Replica>): int {
    if es == [] then 0 else es[0].count + Asked(es[1..])
  }

  /** The entry that a node of an agreed cluster has for a content: for what is missing, if it heads the list. */
  lemma PendingFor(c: Nodes, accepts: set<VolumeID>, m: VolumeID, s: Signature)
    requires AgreedOn(c, accepts, s) && Holds(c, m, s)
    ensures var f, es := c[m].tables.files[s], EntriesFor(c[m].tables.replicas, s);
            && f.volumeIDs != []
            && |es| == (if m == f.volumeIDs[0] && |f.volumeIDs| < f.replica then 1 else 0)
            && forall e | e in es :: e.count == f.replica - |f.volumeIDs|
  {
    hide EntriesFor, IndexOn, KeyMeans;
    assert GoodList(c, accepts, m, s) && QueueOn(c, m, s);
    var es := EntriesFor(c[m].tables.replicas, s);
    assert es != [] ==> es[0] in es && GoodEntry(c, m, es[0]);
  }

  /**
   * What the repairer asks for once it is told of the loss: the missing copies, and once more those that an entry of its
   * own still misses. So too many are made exactly when the content was short and the head of its list survived.
   */
  lemma AskedExactly(sha: Bytes -> string, contents: set<Bytes>, c: Nodes, accepts: set<VolumeID>, d: VolumeID,
                     h: VolumeID, s: Signature, m: VolumeID, uuids: seq<string>, ticks: seq<int>)
    requires Good(sha, contents, c) && Ahead(c) && Agreed(c, accepts) && Holds(c, d, s) && Holds(c, h, s) && h != d
    requires NextHead(c[h].tables.files[s].volumeIDs, d, m) && m in c
    ensures var f := c[h].tables.files[s];
            var missing := f.replica - |Without(f.volumeIDs, d)|;
            var asked := Asked(EntriesFor(SynchronizeReplicas(c[m], d, uuids, ticks).0.tables.replicas, s));
            && f.volumeIDs != []
            && asked == missing + (if d != f.volumeIDs[0] then f.replica - |f.volumeIDs| else 0)
            && (asked == missing <==> d == f.volumeIDs[0] || |f.volumeIDs| == f.replica)
  {
    hide Good, Ahead, SynchronizeReplicas, NewEntries, EntriesFor, AgreedOn, KeyMeans, Asked, Inv, Ordered, TurnedOn,
         Repairs;
    RemainingHolders(c, accepts, d, h, s);
    var l := LossOf(c, d, h, s, m);
    assert m in l.Rest() && Holds(c, m, s);
    FirstOfRest(l.vids, d, m);
    NewEntriesOf(sha, contents, c, accepts, d, h, s, m, uuids, ticks);
    PendingFor(c, accepts, m, s);
    hide Agreed, NextHead;
    GoodNodeOf(sha, contents, c, m);
    SurvivorQueues(c[m], d, uuids, ticks, s);
    var before, more := EntriesFor(c[m].tables.replicas, s), EntriesFor(NewEntries(c[m], d, uuids, ticks), s);
    EntriesConcat(c[m].tables.replicas, NewEntries(c[m], d, uuids, ticks), s);
    assert more[0] in more && l.Rest() + [] == l.Rest() && (before != [] ==> before[0] in before);
    AskedSum(before, more);
  }

  lemma AskedSum(before: seq<Replica>, more: seq<Replica>)
    requires |before| <= 1 && |more| == 1
    ensures Asked(before + more) == (if before == [] then 0 else before[0].count) + more[0].count
  {
    assert more[1..] == [] && Asked(more) == more[0].count;
    if before == [] {
      assert before + more == more;
    } else {
      assert (before + more)[1..] == more;
    }
  }

  /** Only the head of the former list has an entry, and where it survived it is the repairer. */
  lemma NoOtherEntry(c: Nodes, accepts: set<VolumeID>, s: Signature, h: VolumeID, d: VolumeID, m: VolumeID, w: VolumeID)
    requires AgreedOn(c, accepts, s) && Holds(c, d, s) && Holds(c, h, s) && h != d && w in c && w != d && w != m
    requires c[h].tables.files[s].keys != [] && LossOf(c, d, h, s, m).Valid()
    ensures EntriesFor(c[w].tables.replicas, s) == []
  {
    var es := EntriesFor(c[w].tables.replicas, s);
    assert QueueOn(c, w, s);
    hide EntriesFor;
    FirstOfRest(c[h].tables.files[s].volumeIDs, d, m);
    if Holds(c, w, s) {
      AgreedHead(c, accepts, w, h, s);
    }
    hide AgreedOn;
    assert es != [] ==> es[0] in es && GoodEntry(c, w, es[0]);
  }

  lemma GoodNodeOf(sha: Bytes -> string, contents: set<Bytes>, c: Nodes, n: VolumeID)
    requires Good(sha, contents, c) && Ahead(c) && n in c
    ensures Inv(c[n]) && c[n].id == n && Ordered(c[n].tables.replicas, c[n].lastKey)
  {
  }

  // ---------------------------------------------------------------- One round of the repair

  lemma CopiedReady(sha: Bytes -> string, contents: set<Bytes>, c: Nodes, accepts: set<VolumeID>, l: Loss,
                    ns: seq<VolumeID>, e: Replica)
    requires Good(sha, contents, c) && Copied(c, accepts, l, ns) && EntryOf(e, l, ns)
    ensures Ready(c, accepts, l.m, e)
  {
    hide Honest, Blobs, ReverseIndexed, Quota, GoodRecords;
    assert l.m in l.Rest();
    RestAndCopies(l, ns);
    forall w | w in e.volumeIDs
      ensures Listed(c, accepts, l.m, e, w)
    {
      assert Holds(c, w, l.s) && HolderAfter(c, accepts, l, ns, w);
      assert e.key in c[w].tables.files[e.signature].keys;
    }
    forall w | w in c && e.key in c[w].tables.idxkeys
      ensures c[w].tables.idxkeys[e.key] == e.signature
    {
      assert KeyAt(c[w], l.key, l.s);
    }
  }

  lemma RestAndCopies(l: Loss, ns: seq<VolumeID>)
    requires l.Valid() && NoDup(ns) && forall n | n in ns :: n !in l.vids
    ensures NoDup(l.Rest() + ns) && NoDup(l.vids + ns)
  {
    WithoutNoDup(l.vids, l.d);
    var r := l.Rest() + ns;
    forall i, j | 0 <= i < j < |r|
      ensures r[i] != r[j]
    {
      if i < |l.Rest()| <= j {
        assert r[i] in l.Rest() && r[j] in ns;
      }
    }
    var q := l.vids + ns;
    forall i, j | 0 <= i < j < |q|
      ensures q[i] != q[j]
    {
      if i < |l.vids| <= j {
        assert q[i] in l.vids && q[j] in ns;
      }
    }
  }

  /**
   * A successful round of the repair. The repairer appends the new copy to the list that it has, with the lost node in
   * it; the copy and every holder that is told store the true holders; a holder that does not answer keeps what it had.
   */
  lemma RepairedLists(contents: set<Bytes>, c: Nodes, env: Env, l: Loss, ns: seq<VolumeID>, e: Replica,
                      targets: seq<VolumeID>)
    requires CollisionFree(env.sha, contents) && Good(env.sha, contents, c) && Copied(c, env.accepts, l, ns)
    requires EntryOf(e, l, ns) && NextReplica(c[l.m]) == Some(e) && Targets(c, l.m, e.volumeIDs, targets)
    requires Round(c, env, l.m, targets).1.Some?
    ensures var (c', n) := Round(c, env, l.m, targets);
            && n.value in c && n.value != l.m && n.value !in l.vids && n.value !in ns && n.value in env.accepts
            && Joined(c, c', l.m, n.value, e, env.down, env.tick)
            && (forall w :: Holds(c', w, l.s) <==> w in l.Rest() || w in ns || w == n.value)
            && forall w | Holds(c', w, l.s) ::
                 c'[w].tables.files[l.s].volumeIDs ==
                 if w == l.m then l.vids + ns + [n.value]
                 else if w == n.value || w !in env.down then l.Rest() + ns + [n.value]
                 else l.ListAt(ns, w)
  {
    hide Good, Try, Ready, NodeJoined, CollisionFree, EntryOf, HolderAfter;
    CopiedReady(env.sha, contents, c, env.accepts, l, ns, e);
    assert e.volumeIDs == l.Rest() + ns && e.signature == l.s by { EntryLists(e, l, ns); }
    TryJoins(contents, c, env, l.m, e, targets);
    var (c', n) := Round(c, env, l.m, targets);
    assert n.value in targets && n.value !in e.volumeIDs;
    assert n.value !in l.vids;
    forall w | w in c
      ensures Holds(c', w, l.s) <==> w in l.Rest() || w in ns || w == n.value
      ensures Holds(c', w, l.s) ==>
                c'[w].tables.files[l.s].volumeIDs ==
                if w == l.m then l.vids + ns + [n.value]
                else if w == n.value || w !in env.down then l.Rest() + ns + [n.value]
                else l.ListAt(ns, w)
    {
      RepairedRow(c, c', env, l, ns, e, n.value, w);
    }
  }

  lemma EntryLists(e: Replica, l: Loss, ns: seq<VolumeID>)
    requires EntryOf(e, l, ns)
    ensures e.volumeIDs == l.Rest() + ns && e.signature == l.s
  {
  }

  lemma RepairedRow(c: Nodes, c': Nodes, env: Env, l: Loss, ns: seq<VolumeID>, e: Replica, n: VolumeID, w: VolumeID)
    requires Copied(c, env.accepts, l, ns) && EntryOf(e, l, ns) && Joined(c, c', l.m, n, e, env.down, env.tick)
    requires w in c && n != l.m && n !in e.volumeIDs && n in c
    ensures Holds(c', w, l.s) <==> w in l.Rest() || w in ns || w == n
    ensures Holds(c', w, l.s) ==>
              && c'[w].tables.files[l.s].keys == [l.key]
              && (Told(w, l.m, n, e, env.down) ==> c'[w].tables.files[l.s].replica == l.replica)
              && c'[w].tables.files[l.s].volumeIDs ==
                 if w == l.m then l.vids + ns + [n]
                 else if w == n || w !in env.down then l.Rest() + ns + [n]
                 else l.ListAt(ns, w)
  {
    hide Turned, KeyMeans;
    assert l.m in l.Rest();
    if Holds(c, w, l.s) {
      assert HolderAfter(c, env.accepts, l, ns, w);
    }
    assert NodeJoined(c[w], c'[w], l.m, n, e, env.down, env.tick);
  }

  /** One more copy that every holder was told of. */
  lemma RoundCopied(contents: set<Bytes>, c: Nodes, env: Env, l: Loss, ns: seq<VolumeID>, e: Replica,
                    targets: seq<VolumeID>)
    requires CollisionFree(env.sha, contents) && Good(env.sha, contents, c) && Ahead(c) && Copied(c, env.accepts, l, ns)
    requires EntryOf(e, l, ns) && NextReplica(c[l.m]) == Some(e) && Targets(c, l.m, e.volumeIDs, targets)
    requires Round(c, env, l.m, targets).1.Some? && HoldersUp(e, l.m, env.down)
    ensures var (c', n) := Round(c, env, l.m, targets);
            Copied(c', env.accepts, l, ns + [n.value])
  {
    hide Good, Round, CollisionFree, Joined, EntryOf, HolderAfter, KeyMeans;
    RepairedLists(contents, c, env, l, ns, e, targets);
    var (c', n) := Round(c, env, l.m, targets);
    var ns' := ns + [n.value];
    EntryLists(e, l, ns);
    NoDupSnoc(ns, n.value);
    RoundAdds(contents, c, env, l.m, targets);
    assert forall i | 0 <= i < |targets| :: targets[i] in c && targets[i] != l.m;
    hide Targets, HoldersUp, Aged, NextReplica;
    forall w | Holds(c', w, l.s)
      ensures HolderAfter(c', env.accepts, l, ns', w)
    {
      assert w in c;
      RoundLifetimes(contents, c, env, l.m, targets, w, l.s);
      CopiedHolder(contents, c, c', env, l, ns, e, n.value, w);
    }
    assert KeyMeans(c', l.key, l.s) by {
      OrderedAt(c, l.m);
      EntryKey(e, l, ns);
      JoinedKeyMeans(c, c', l.m, n.value, e, env.down, env.tick);
    }
  }

  lemma OrderedAt(c: Nodes, m: VolumeID)
    requires Ahead(c) && m in c
    ensures Ordered(c[m].tables.replicas, c[m].lastKey)
  {
  }

  lemma EntryKey(e: Replica, l: Loss, ns: seq<VolumeID>)
    requires EntryOf(e, l, ns)
    ensures e.key == l.key && e.signature == l.s
  {
  }

  lemma RoundAdds(contents: set<Bytes>, c: Nodes, env: Env, m: VolumeID, targets: seq<VolumeID>)
    requires CollisionFree(env.sha, contents) && Good(env.sha, contents, c) && m in c
    requires forall i | 0 <= i < |targets| :: targets[i] in c
    ensures Good(env.sha, contents, Round(c, env, m, targets).0)
    ensures forall w | w in c :: Round(c, env, m, targets).0[w].id == w
  {
    RoundOnlyAdds(contents, c, env, m, targets, m, "");
    hide Inv, Honest, Round;
  }

  lemma CopiedHolder(contents: set<Bytes>, c: Nodes, c': Nodes, env: Env, l: Loss, ns: seq<VolumeID>, e: Replica,
                     n: VolumeID, w: VolumeID)
    requires Copied(c, env.accepts, l, ns) && EntryOf(e, l, ns) && Joined(c, c', l.m, n, e, env.down, env.tick)
    requires n in c && n != l.m && n !in e.volumeIDs && n in env.accepts && HoldersUp(e, l.m, env.down)
    requires Holds(c', w, l.s) && Good(env.sha, contents, c') && w in c && Aged(c[w], c'[w], l.s, e, env.now)
    ensures HolderAfter(c', env.accepts, l, ns + [n], w)
  {
    hide Inv, Honest, NodeJoined, KeyMeans;
    RepairedRow(c, c', env, l, ns, e, n, w);
    GoodRow(c'[w], l.s);
    hide Good, Joined;
    if w != n {
      assert w in e.volumeIDs && Holds(c, w, l.s);
      assert HolderAfter(c, env.accepts, l, ns, w);
    } else {
      assert !Holds(c, n, l.s) && n != l.m;
    }
    hide Copied;
    assert l.vids + ns + [n] == l.vids + (ns + [n]) && l.Rest() + ns + [n] == l.Rest() + (ns + [n]);
  }

  /** The queue after that round: the entry with one copy less to make, or nothing when none is missing. */
  lemma RoundQueued(contents: set<Bytes>, c: Nodes, env: Env, l: Loss, ns: seq<VolumeID>, e: Replica,
                    targets: seq<VolumeID>)
    requires CollisionFree(env.sha, contents) && Good(env.sha, contents, c) && Ahead(c) && Copied(c, env.accepts, l, ns)
    requires Due(c, l, ns) && EntryOf(e, l, ns) && NextReplica(c[l.m]) == Some(e)
    requires Targets(c, l.m, e.volumeIDs, targets) && Round(c, env, l.m, targets).1.Some?
    ensures var (c', n) := Round(c, env, l.m, targets);
            Due(c', l, ns + [n.value])
  {
    hide Good, Round, CollisionFree, Joined, EntriesFor, HolderAfter, KeyMeans, Ahead, Ordered;
    RepairedLists(contents, c, env, l, ns, e, targets);
    var (c', n) := Round(c, env, l.m, targets);
    OrderedAt(c, l.m);
    InCluster(c, env.accepts, l, ns);
    hide Copied, Targets;
    forall w | w in c
      ensures EntriesFor(c'[w].tables.replicas, l.s) ==
              if w != l.m then EntriesFor(c[w].tables.replicas, l.s)
              else if e.count > 1
                   then [e.(volumeIDs := e.volumeIDs + [n.value], count := e.count - 1, volumeReplicaID := c'[l.m].lastKey)]
              else []
    {
      JoinedEntries(c, c', l.m, n.value, e, env.down, env.tick, w);
    }
    assert c'.Keys == c.Keys;
    assert l.Rest() + ns + [n.value] == l.Rest() + (ns + [n.value]);
  }

  // ---------------------------------------------------------------- One list, or several

  /** The holders store one list exactly until the first copy: then the repairer lists the lost node, and no copy does. */
  lemma OneListExactly(c: Nodes, accepts: set<VolumeID>, l: Loss, ns: seq<VolumeID>)
    requires Copied(c, accepts, l, ns)
    ensures OneList(c, l.s) <==> ns == []
    ensures Holds(c, l.m, l.s) && l.d in c[l.m].tables.files[l.s].volumeIDs
    ensures forall n | n in ns :: Holds(c, n, l.s) && l.d !in c[n].tables.files[l.s].volumeIDs
  {
    hide KeyMeans;
    assert l.m in l.Rest();
    assert Holds(c, l.m, l.s) && HolderAfter(c, accepts, l, ns, l.m);
    assert l.d in l.vids + ns && l.d !in l.Rest() + ns;
    forall w | Holds(c, w, l.s)
      ensures c[w].tables.files[l.s].volumeIDs == l.ListAt(ns, w)
    {
      assert HolderAfter(c, accepts, l, ns, w);
    }
    if ns != [] {
      assert ns[0] in ns && Holds(c, ns[0], l.s) && ns[0] != l.m;
    }
  }

  /** Whoever answers: a successful round of the repair leaves the holders with different lists. */
  lemma RoundSplits(contents: set<Bytes>, c: Nodes, env: Env, l: Loss, ns: seq<VolumeID>, e: Replica,
                    targets: seq<VolumeID>)
    requires CollisionFree(env.sha, contents) && Good(env.sha, contents, c) && Copied(c, env.accepts, l, ns)
    requires EntryOf(e, l, ns) && NextReplica(c[l.m]) == Some(e) && Targets(c, l.m, e.volumeIDs, targets)
    requires Round(c, env, l.m, targets).1.Some?
    ensures ns == [] ==> OneList(c, l.s)
    ensures !OneList(Round(c, env, l.m, targets).0, l.s)
  {
    hide Good, Round, CollisionFree, Joined, EntryOf, HolderAfter, KeyMeans;
    OneListExactly(c, env.accepts, l, ns);
    RepairedLists(contents, c, env, l, ns, e, targets);
    var (c', n) := Round(c, env, l.m, targets);
    assert l.m in l.Rest() && Holds(c', l.m, l.s) && Holds(c', n.value, l.s);
    assert l.d in l.vids + ns + [n.value] && l.d !in l.Rest() + ns + [n.value];
  }

  // ---------------------------------------------------------------- Runs

  /** A call that spares the content, or a round for it that reaches its holders. */
  ghost predicate CalmRepair(c: Nodes, accepts: set<VolumeID>, op: ClusterOp, s: Signature) {
    Starts(c, op) &&
    (Spares(c, op, s) ||
     (op.Replicate? && op.env.accepts == accepts &&
      (Enabled(c, op) ==> HoldersUp(NextReplica(c[op.m]).value, op.m, op.env.down))))
  }

  ghost predicate CalmRepairs(c: Nodes, accepts: set<VolumeID>, ops: seq<ClusterOp>, s: Signature) {
    forall i | 0 <= i < |ops| :: CalmRepair(ClusterRun(c, ops[..i]), accepts, ops[i], s)
  }

  /** Where nothing that is known of the content changes, the repair stands where it stood. */
  lemma CopiedSpared(c: Nodes, c': Nodes, accepts: set<VolumeID>, l: Loss, ns: seq<VolumeID>)
    requires Copied(c, accepts, l, ns) && Due(c, l, ns) && SameOn(c, c', l.s) && KeyMeans(c', l.key, l.s)
    ensures Copied(c', accepts, l, ns) && Due(c', l, ns)
  {
    hide KeyMeans, EntriesFor, EntryOf;
    SameHolds(c, c', l.s);
    forall w | w in c
      ensures c'[w].id == c[w].id && EntriesFor(c'[w].tables.replicas, l.s) == EntriesFor(c[w].tables.replicas, l.s)
    {
      assert SameNode(c[w], c'[w], l.s);
    }
    hide SameOn;
    forall w | Holds(c', w, l.s)
      ensures HolderAfter(c', accepts, l, ns, w)
    {
      assert HolderAfter(c, accepts, l, ns, w);
    }
  }

  lemma CopiedKeyed(c: Nodes, accepts: set<VolumeID>, l: Loss, ns: seq<VolumeID>)
    requires Copied(c, accepts, l, ns)
    ensures Keyed(c, l.key, l.s) && Holds(c, l.m, l.s)
  {
    hide KeyMeans;
    assert l.m in l.Rest();
    forall w | Holds(c, w, l.s)
      ensures c[w].tables.files[l.s].keys == [l.key]
    {
      assert HolderAfter(c, accepts, l, ns, w);
    }
  }

  /** The head entry of a node, if it is for the content, is the repairer's entry of the repair. */
  lemma HeadIsRepair(c: Nodes, accepts: set<VolumeID>, l: Loss, ns: seq<VolumeID>, m: VolumeID)
    requires Copied(c, accepts, l, ns) && Due(c, l, ns) && m in c && NextReplica(c[m]).Some?
    requires NextReplica(c[m]).value.signature == l.s
    ensures m == l.m && EntryOf(NextReplica(c[m]).value, l, ns)
  {
    var e := NextReplica(c[m]).value;
    assert e in c[m].tables.replicas;
    assert e in EntriesFor(c[m].tables.replicas, l.s);
    hide EntriesFor;
  }

  lemma RepairStep(sha: Bytes -> string, contents: set<Bytes>, c: Nodes, accepts: set<VolumeID>, op: ClusterOp, l: Loss,
                   ns: seq<VolumeID>)
    returns (ns': seq<VolumeID>)
    requires CollisionFree(sha, contents) && OpDigested(sha, contents, op)
    requires Good(sha, contents, c) && Ahead(c) && Copied(c, accepts, l, ns) && Due(c, l, ns)
    requires CalmRepair(c, accepts, op, l.s)
    ensures Copied(ClusterStep(c, op), accepts, l, ns') && Due(ClusterStep(c, op), l, ns') && ns <= ns'
  {
    hide Good, Ahead, Round, Copied, Due, EntryOf, HoldersUp, SameOn, KeyMeans, Perform;
    assert l.m in c by { InCluster(c, accepts, l, ns); }
    ns' := ns;
    if Spares(c, op, l.s) {
      CopiedKeyed(c, accepts, l, ns);
      StepSpared(sha, contents, c, op, l.key, l.s);
      CopiedSpared(c, ClusterStep(c, op), accepts, l, ns);
    } else {
      HeadIsRepair(c, accepts, l, ns, op.m);
      var e, r := NextReplica(c[op.m]).value, Round(c, op.env, op.m, op.targets);
      if r.1.Some? {
        ns' := ns + [r.1.value];
        RoundCopied(contents, c, op.env, l, ns, e, op.targets);
        RoundQueued(contents, c, op.env, l, ns, e, op.targets);
      } else {
        CopiedReady(sha, contents, c, accepts, l, ns, e);
        EntryLists(e, l, ns);
        TryJoins(contents, c, op.env, op.m, e, op.targets);
        IdleRound(c, op.env, op.m, op.targets);
        SameTablesCopied(c, r.0, accepts, l, ns);
      }
    }
  }

  lemma InCluster(c: Nodes, accepts: set<VolumeID>, l: Loss, ns: seq<VolumeID>)
    requires Copied(c, accepts, l, ns)
    ensures l.m in c && forall w | w in c :: c[w].id == w
  {
  }

  lemma IdleRound(c: Nodes, env: Env, m: VolumeID, targets: seq<VolumeID>)
    requires m in c && NextReplica(c[m]).Some? && forall i | 0 <= i < |targets| :: targets[i] in c
    ensures Round(c, env, m, targets) == Try(c, env, m, NextReplica(c[m]).value, targets)
  {
  }

  lemma SameTablesCopied(c: Nodes, c': Nodes, accepts: set<VolumeID>, l: Loss, ns: seq<VolumeID>)
    requires Copied(c, accepts, l, ns) && Due(c, l, ns) && SameTables(c, c')
    ensures Copied(c', accepts, l, ns) && Due(c', l, ns)
  {
    hide EntriesFor, EntryOf, HolderAfter;
    assert KeyMeans(c', l.key, l.s) by {
      forall w | w in c'
        ensures KeyAt(c'[w], l.key, l.s)
      {
        assert KeyAt(c[w], l.key, l.s);
      }
    }
    hide KeyMeans;
    assert SameOn(c, c', l.s);
    hide SameOn;
    CopiedSpared(c, c', accepts, l, ns);
  }

  /**
   * A repair over every run: whatever happens to other contents, and however often its rounds succeed, the repairer
   * stores the former list with the lost node and all copies, and everybody else the true holders. Its entry asks for
   * what is missing, and is gone when the content has the copies it wants.
   */
  lemma {:induction false} RepairOverRuns(sha: Bytes -> string, contents: set<Bytes>, c: Nodes, accepts: set<VolumeID>,
                                          ops: seq<ClusterOp>, l: Loss, ns: seq<VolumeID>)
    returns (ns': seq<VolumeID>)
    requires CollisionFree(sha, contents) && OpsDigested(sha, contents, ops)
    requires Good(sha, contents, c) && Ahead(c) && Copied(c, accepts, l, ns) && Due(c, l, ns)
    requires CalmRepairs(c, accepts, ops, l.s)
    ensures var c' := ClusterRun(c, ops);
            && Good(sha, contents, c') && Ahead(c') && Copied(c', accepts, l, ns') && ns <= ns'
            && Due(c', l, ns')
    decreases |ops|
  {
    hide Good, Ahead, Copied, Due, CalmRepair, ClusterStep;
    assert l.m in c by { InCluster(c, accepts, l, ns); }
    if ops == [] {
      ns' := ns;
    } else {
      var k := |ops| - 1;
      var before := ClusterRun(c, ops[..k]);
      assert OpsDigested(sha, contents, ops[..k]);
      assert CalmRepairs(c, accepts, ops[..k], l.s) by {
        forall i | 0 <= i < k
          ensures CalmRepair(ClusterRun(c, ops[..k][..i]), accepts, ops[..k][i], l.s)
        {
          assert ops[..k][..i] == ops[..i];
        }
      }
      var mid := RepairOverRuns(sha, contents, c, accepts, ops[..k], l, ns);
      assert Starts(before, ops[k]) by { CalmStarts(before, accepts, ops[k], l.s); }
      ClusterStepGood(sha, contents, before, ops[k]);
      StartedAhead(sha, contents, before, ops[k]);
      ns' := RepairStep(sha, contents, before, accepts, ops[k], l, mid);
    }
  }

  lemma CalmStarts(c: Nodes, accepts: set<VolumeID>, op: ClusterOp, s: Signature)
    requires CalmRepair(c, accepts, op, s)
    ensures Starts(c, op)
  {
  }

  // ---------------------------------------------------------------- The next loss

  /** A volume that holds the content and lists `x` turns to its repair exactly when it heads its own list without `x`. */
  lemma TurnsByOwnList(v: Vol, s: Signature, x: VolumeID)
    requires Inv(v) && s in v.tables.files && x in v.tables.files[s].volumeIDs && x != v.id
    ensures TurnedOn(v, s, x) <==> NextHead(v.tables.files[s].volumeIDs, x, v.id) && Indexes(v, x)
  {
    hide TwoWay, Blobs, Quota;
    assert GoodRecord(s, v.tables.files[s]);
  }

  lemma NotTurned(v: Vol, s: Signature, x: VolumeID)
    requires s !in v.tables.files
    ensures !TurnedOn(v, s, x)
  {
  }

  /** Which of two lists a node that survives the next loss goes by, and when that makes it the repairer. */
  lemma NextRepairer(l: Loss, ns: seq<VolumeID>, x: VolumeID, w: VolumeID)
    requires l.Valid() && NoDup(ns) && ns != [] && (forall n | n in ns :: n !in l.vids) && x in l.Rest() + ns && w != x
    ensures var rest := l.Rest() + ns;
            && (w == l.m ==> (NextHead(l.vids + ns, x, w) <==> l.d != l.vids[0]))
            && (w != l.m ==> (NextHead(rest, x, w) <==> x == l.m && w == rest[1]))
            && NoDup(rest) && |rest| >= 2 && rest[0] == l.m && rest[1] != l.m
  {
    var rest := l.Rest() + ns;
    FirstOfRest(l.vids, l.d, l.m);
    RestAndCopies(l, ns);
    assert ns[0] in ns && l.d in l.vids + ns && ns[0] in rest && l.m in l.Rest() && l.m in rest && x in l.vids + ns;
    FirstWithout(l.vids + ns, x, if x == ns[0] then l.d else ns[0]);
    FirstWithout(rest, x, if x == ns[0] then l.m else ns[0]);
    assert (l.vids + ns)[0] == l.vids[0] && (l.vids + ns)[1] == l.vids[1] && rest[0] == l.m;
  }

  /** The survivor whose turn it would be after one more loss. */
  function Next(l: Loss, ns: seq<VolumeID>, x: VolumeID): VolumeID
    requires |l.Rest() + ns| >= 2
  {
    if x == l.m then (l.Rest() + ns)[1] else l.m
  }

  /** A survivor of the next loss, after copies that all holders were told of. */
  lemma NextLossAt(sha: Bytes -> string, contents: set<Bytes>, c: Nodes, accepts: set<VolumeID>, l: Loss,
                   ns: seq<VolumeID>, x: VolumeID, w: VolumeID, uuids: seq<string>, ticks: seq<int>)
    requires Good(sha, contents, c) && Ahead(c) && Copied(c, accepts, l, ns) && ns != [] && x in l.Rest() + ns
    requires w in c && w != x
    ensures |l.Rest() + ns| >= 2
    ensures |EntriesFor(NewEntries(c[w], x, uuids, ticks), l.s)| ==
            if w == Next(l, ns, x) && (l.d != l.vids[0] || x == l.m) && Indexes(c[w], x) then 1 else 0
  {
    hide Honest, Inv, SynchronizeReplicas, NewEntries, EntriesFor, Ordered, NextHead, Indexes, KeyMeans;
    SurvivorQueues(c[w], x, uuids, ticks, l.s);
    NextRepairer(l, ns, x, w);
    if Holds(c, w, l.s) {
      assert HolderAfter(c, accepts, l, ns, w);
      TurnsByOwnList(c[w], l.s, x);
    } else {
      NotTurned(c[w], l.s, x);
      assert (l.Rest() + ns)[1] in l.Rest() + ns && l.m in l.Rest();
    }
  }

  /**
   * After any number of copies of a repair, at least one, a further holder `x` is lost. The survivor whose turn it is
   * queues one repair, or none; nobody else queues any. Some survivor does exactly when the first lost node was not the
   * head of the list or `x` is the repairer, and the index of that survivor for `x` names stored files only.
   */
  lemma NextLossExactly(sha: Bytes -> string, contents: set<Bytes>, c: Nodes, accepts: set<VolumeID>, l: Loss,
                        ns: seq<VolumeID>, x: VolumeID, uuids: VolumeID -> seq<string>, ticks: VolumeID -> seq<int>)
    requires Good(sha, contents, c) && Ahead(c) && Copied(c, accepts, l, ns) && ns != [] && x in l.Rest() + ns
    ensures |l.Rest() + ns| >= 2 && Next(l, ns, x) in c && Next(l, ns, x) != x
    ensures forall w | w in c && w != x ::
              |EntriesFor(NewEntries(c[w], x, uuids(w), ticks(w)), l.s)| ==
              if w == Next(l, ns, x) && (l.d != l.vids[0] || x == l.m) && Indexes(c[w], x) then 1 else 0
    ensures (exists w | w in c && w != x :: |EntriesFor(NewEntries(c[w], x, uuids(w), ticks(w)), l.s)| > 0) <==>
            (l.d != l.vids[0] || x == l.m) && Indexes(c[Next(l, ns, x)], x)
  {
    hide Good, Ahead, NewEntries, EntriesFor, Indexes, KeyMeans, HolderAfter, NextHead;
    NextRepairer(l, ns, x, if x == l.m then l.d else l.m);
    var next := Next(l, ns, x);
    assert (l.Rest() + ns)[1] in l.Rest() + ns && l.m in l.Rest() && Holds(c, next, l.s);
    hide Copied;
    forall w | w in c && w != x
      ensures |EntriesFor(NewEntries(c[w], x, uuids(w), ticks(w)), l.s)| ==
              if w == next && (l.d != l.vids[0] || x == l.m) && Indexes(c[w], x) then 1 else 0
    {
      NextLossAt(sha, contents, c, accepts, l, ns, x, w, uuids(w), ticks(w));
    }
    if (l.d != l.vids[0] || x == l.m) && Indexes(c[next], x) {
      assert |EntriesFor(NewEntries(c[next], x, uuids(next), ticks(next)), l.s)| > 0;
    }
  }

  /** Where the repairer is called upon again, its entry still counts the first lost node as a holder. */
  lemma NextRepairShort(sha: Bytes -> string, contents: set<Bytes>, c: Nodes, accepts: set<VolumeID>, l: Loss,
                        ns: seq<VolumeID>, x: VolumeID, uuids: seq<string>, ticks: seq<int>)
    requires Good(sha, contents, c) && Ahead(c) && Copied(c, accepts, l, ns) && x in l.Rest() + ns && x != l.m
    ensures forall r | r in EntriesFor(NewEntries(c[l.m], x, uuids, ticks), l.s) ::
              l.d in r.volumeIDs && r.count == l.replica - |l.vids + ns| + 1
  {
    hide Good, Ahead, NewEntries, EntriesFor, KeyMeans;
    assert l.m in l.Rest() && Holds(c, l.m, l.s) && HolderAfter(c, accepts, l, ns, l.m);
    GoodNodeOf(sha, contents, c, l.m);
    SurvivorQueues(c[l.m], x, uuids, ticks, l.s);
    RestAndCopies(l, ns);
    assert l.d in l.vids + ns && x in l.vids + ns && x != l.d;
    WithoutNoDup(l.vids + ns, x);
  }

  /**
   * From an agreed cluster, over everything: `d` is lost, the head `m` of the rest is told, and any calm run follows.
   * Let `ns` be the copies made by then. The holders store one list exactly while there are none. After that, a further
   * loss is answered by the survivor whose turn it is, or by nobody.
   */
  lemma LossRepairLoss(sha: Bytes -> string, contents: set<Bytes>, c: Nodes, accepts: set<VolumeID>, d: VolumeID,
                       h: VolumeID, s: Signature, m: VolumeID, uuids: seq<string>, ticks: seq<int>, ops: seq<ClusterOp>,
                       x: VolumeID, uuids': VolumeID -> seq<string>, ticks': VolumeID -> seq<int>)
    returns (l: Loss, ns: seq<VolumeID>)
    requires CollisionFree(sha, contents) && OpsDigested(sha, contents, ops)
    requires Good(sha, contents, c) && Ahead(c) && Agreed(c, accepts) && Holds(c, d, s) && Holds(c, h, s) && h != d
    requires NextHead(c[h].tables.files[s].volumeIDs, d, m) && m in c && EntriesFor(c[m].tables.replicas, s) == []
    requires CalmRepairs(AfterLoss(c, d, m, uuids, ticks), accepts, ops, s)
    ensures l.d == d && l.vids == c[h].tables.files[s].volumeIDs && l.m == m && l.s == s
    ensures var c' := ClusterRun(AfterLoss(c, d, m, uuids, ticks), ops);
            && (forall w :: Holds(c', w, s) <==> w in l.Rest() || w in ns)
            && (forall w | Holds(c', w, s) :: c'[w].tables.files[s].volumeIDs == l.ListAt(ns, w))
            && (OneList(c', s) <==> ns == [])
            && (ns != [] && x in l.Rest() + ns ==>
                  && |l.Rest() + ns| >= 2 && Next(l, ns, x) in c'
                  && ((exists w | w in c' && w != x ::
                         |EntriesFor(NewEntries(c'[w], x, uuids'(w), ticks'(w)), s)| > 0) <==>
                      (d != l.vids[0] || x == m) && Indexes(c'[Next(l, ns, x)], x)))
  {
    hide Good, Ahead, Agreed, AgreedOn, NewEntries, EntriesFor, CollisionFree, Indexes, Copied, Due, EntryOf, CalmRepairs;
    LossBegins(sha, contents, c, accepts, d, h, s, uuids, ticks);
    l := LossOf(c, d, h, s, m);
    ns := RepairOverRuns(sha, contents, AfterLoss(c, d, m, uuids, ticks), accepts, ops, l, []);
    hide AfterLoss;
    var c' := ClusterRun(AfterLoss(c, d, m, uuids, ticks), ops);
    OneListExactly(c', accepts, l, ns);
    CopiedLists(c', accepts, l, ns);
    if ns != [] && x in l.Rest() + ns {
      NextLossExactly(sha, contents, c', accepts, l, ns, x, uuids', ticks');
    }
  }

  lemma CopiedLists(c: Nodes, accepts: set<VolumeID>, l: Loss, ns: seq<VolumeID>)
    requires Copied(c, accepts, l, ns)
    ensures forall w :: Holds(c, w, l.s) <==> w in l.Rest() || w in ns
    ensures forall w | Holds(c, w, l.s) :: c[w].tables.files[l.s].volumeIDs == l.ListAt(ns, w)
  {
    hide KeyMeans;
    forall w | Holds(c, w, l.s)
      ensures c[w].tables.files[l.s].volumeIDs == l.ListAt(ns, w)
    {
      assert HolderAfter(c, accepts, l, ns, w);
    }
  }
}
