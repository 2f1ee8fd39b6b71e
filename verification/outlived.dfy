/** What becomes of the lifetime of a content when its copies are repaired. */
module Outlived {
  import opened Types
  import opened VolumeSpec
  import opened VolumeInvariant
  import opened Cluster
  import opened ClusterRuns
  import opened VolumeRuns
  import opened Agreement
  import opened Untouched
  import opened Synchronizing
  import opened Sparing
  import opened Repair
  import opened Lifetimes
  import opened Repaired

  /** A repair and what spares its content give the content no lifetime anywhere. */
  lemma RepairTimeless(sha: Bytes -> string, contents: set<Bytes>, c: Nodes, accepts: set<VolumeID>, op: ClusterOp,
                       l: Loss, ns: seq<VolumeID>, n: VolumeID)
    requires OpDigested(sha, contents, op) && Good(sha, contents, c) && l.m in c
    requires Copied(c, accepts, l, ns) && Due(c, l, ns) && CalmRepair(c, accepts, op, l.s)
    ensures Timeless(c, op, n, l.s)
  {
    hide Good, Copied, Due, Stores, Apart, GetFile;
    if Enabled(c, op) && op.Replicate? {
      var e := NextReplica(c[op.m]).value;
      if e.signature == l.s {
        HeadIsRepair(c, accepts, l, ns, op.m);
      } else if GetFile(c[op.m], e.key).Some? {
        CopiedKeyed(c, accepts, l, ns);
        OtherEntry(c, op.m, l.key, l.s);
        CopyIsOther(sha, contents, c, op.m, e.key, l.s);
      }
    }
  }

  lemma {:induction false} RepairUnscheduled(sha: Bytes -> string, contents: set<Bytes>, c: Nodes, accepts: set<VolumeID>,
                                             ops: seq<ClusterOp>, l: Loss, n: VolumeID)
    requires CollisionFree(sha, contents) && OpsDigested(sha, contents, ops)
    requires Good(sha, contents, c) && Ahead(c) && l.m in c && Copied(c, accepts, l, []) && Due(c, l, [])
    requires CalmRepairs(c, accepts, ops, l.s) && n in c && Unscheduled(c[n], l.s)
    ensures Unscheduled(ClusterRun(c, ops)[n], l.s)
    decreases |ops|
  {
    hide Good, Ahead, Copied, Due, CalmRepair, ClusterStep, Unscheduled, Timeless;
    if ops != [] {
      var k := |ops| - 1;
      var before := ClusterRun(c, ops[..k]);
      assert OpsDigested(sha, contents, ops[..k]);
      assert CalmRepairs(c, accepts, ops[..k], l.s) by {
        forall i | 0 <= i < k
          ensures CalmRepair(ClusterRun(c, ops[..k][..i]), accepts, ops[..k][i], l.s)
        {
          assert ops[..k][..i] == ops[..i];
        }
      }
      RepairUnscheduled(sha, contents, c, accepts, ops[..k], l, n);
      var ns := RepairOverRuns(sha, contents, c, accepts, ops[..k], l, []);
      RepairTimeless(sha, contents, before, accepts, ops[k], l, ns, n);
      StepUnscheduled(sha, contents, before, ops[k], n, l.s);
    }
  }

  /** The copies that a repair makes carry the lifetime of the repairer's record exactly when that is none. */
  lemma CopiesForget(c: Nodes, accepts: set<VolumeID>, l: Loss, ns: seq<VolumeID>)
    requires Copied(c, accepts, l, ns)
    ensures Holds(c, l.m, l.s) && c[l.m].tables.files[l.s].ttl == l.ttl
    ensures forall w | w in ns ::
              && Holds(c, w, l.s) && c[w].tables.files[l.s].ttl == NO_TTL
              && (c[w].tables.files[l.s].ttl == c[l.m].tables.files[l.s].ttl <==> l.ttl == NO_TTL)
  {
    hide KeyMeans;
    assert l.m in l.Rest() && HolderAfter(c, accepts, l, ns, l.m);
    forall w | w in ns
      ensures Holds(c, w, l.s) && c[w].tables.files[l.s].ttl == NO_TTL
    {
      assert HolderAfter(c, accepts, l, ns, w);
    }
  }

  lemma NewHolders(c: Nodes, accepts: set<VolumeID>, d: VolumeID, h: VolumeID, s: Signature, c': Nodes, l: Loss,
                   ns: seq<VolumeID>)
    requires AgreedOn(c, accepts, s) && Holds(c, h, s) && l.vids == c[h].tables.files[s].volumeIDs && l.d == d && l.s == s
    requires Copied(c', accepts, l, ns)
    ensures forall w | Holds(c', w, s) && !Holds(c, w, s) :: w in ns
  {
    assert GoodList(c, accepts, h, s);
  }

  /** What the repairer and a new holder knew before, and what they know after the repair. */
  lemma RepairedFrom(sha: Bytes -> string, contents: set<Bytes>, c: Nodes, accepts: set<VolumeID>, d: VolumeID,
                     h: VolumeID, s: Signature, m: VolumeID, uuids: seq<string>, ticks: seq<int>, ops: seq<ClusterOp>,
                     n: VolumeID)
    requires CollisionFree(sha, contents) && OpsDigested(sha, contents, ops)
    requires Good(sha, contents, c) && Ahead(c) && Agreed(c, accepts) && Holds(c, d, s) && Holds(c, h, s) && h != d
    requires NextHead(c[h].tables.files[s].volumeIDs, d, m) && m in c && EntriesFor(c[m].tables.replicas, s) == []
    requires CalmRepairs(AfterLoss(c, d, m, uuids, ticks), accepts, ops, s)
    requires n in c && n != d && !Holds(c, n, s) && Holds(ClusterRun(AfterLoss(c, d, m, uuids, ticks), ops), n, s)
    ensures var c' := ClusterRun(AfterLoss(c, d, m, uuids, ticks), ops);
            && Good(sha, contents, c')
            && Holds(c, m, s) && Holds(c', m, s) && c'[m].tables.files[s].ttl == c[m].tables.files[s].ttl
            && c'[n].tables.files[s].ttl == NO_TTL
            && (Unscheduled(c[n], s) ==> Unscheduled(c'[n], s))
  {
    hide Good, Ahead, AgreedOn, NewEntries, EntriesFor, CollisionFree, Indexes, Copied, Due, EntryOf, CalmRepairs,
         Unscheduled, SynchronizeReplicas, OpsDigested;
    LossBegins(sha, contents, c, accepts, d, h, s, uuids, ticks);
    var l, c1 := LossOf(c, d, h, s, m), AfterLoss(c, d, m, uuids, ticks);
    RemainingHolds(c, accepts, d, h, s, m);
    hide Agreed;
    LossKeeps(sha, contents, c, d, m, uuids, ticks);
    assert c1[n].tables.idxttls == c[n].tables.idxttls;
    hide AfterLoss, OnlyQueue;
    var ns := RepairOverRuns(sha, contents, c1, accepts, ops, l, []);
    var c' := ClusterRun(c1, ops);
    NewHolders(c, accepts, d, h, s, c', l, ns);
    CopiesForget(c', accepts, l, ns);
    if Unscheduled(c[n], s) {
      SameSchedule(c[n], c1[n], s);
      RepairUnscheduled(sha, contents, c1, accepts, ops, l, n);
    }
  }

  /**
   * A holder of an agreed cluster is lost, the head `m` of the rest is told, and any calm run follows. The record of `m`
   * keeps its lifetime, and every new copy has none: the two are equal exactly when the content never had one. If no
   * expiry row of the new holder named the content before, the copy is lasting: over every later run it stays until its
   * key is deleted or overwritten there, or the content is stored there again with a lifetime.
   */
  lemma RepairForgetsExpiry(sha: Bytes -> string, contents: set<Bytes>, c: Nodes, accepts: set<VolumeID>, d: VolumeID,
                            h: VolumeID, s: Signature, m: VolumeID, uuids: seq<string>, ticks: seq<int>,
                            ops: seq<ClusterOp>, n: VolumeID, later: seq<ClusterOp>)
    requires CollisionFree(sha, contents) && OpsDigested(sha, contents, ops) && OpsDigested(sha, contents, later)
    requires Good(sha, contents, c) && Ahead(c) && Agreed(c, accepts) && Holds(c, d, s) && Holds(c, h, s) && h != d
    requires NextHead(c[h].tables.files[s].volumeIDs, d, m) && m in c && EntriesFor(c[m].tables.replicas, s) == []
    requires CalmRepairs(AfterLoss(c, d, m, uuids, ticks), accepts, ops, s)
    requires n in c && n != d && !Holds(c, n, s) && Holds(ClusterRun(AfterLoss(c, d, m, uuids, ticks), ops), n, s)
    requires SparesRecord(ClusterRun(AfterLoss(c, d, m, uuids, ticks), ops), later, n, s)
    ensures var c' := ClusterRun(AfterLoss(c, d, m, uuids, ticks), ops);
            && Holds(c, m, s) && Holds(c', m, s) && c'[m].tables.files[s].ttl == c[m].tables.files[s].ttl
            && c'[n].tables.files[s].ttl == NO_TTL
            && (c'[n].tables.files[s].ttl == c'[m].tables.files[s].ttl <==> c[m].tables.files[s].ttl == NO_TTL)
            && (Unscheduled(c[n], s) ==> Lasting(ClusterRun(c', later)[n], s))
  {
    hide Good, Ahead, Agreed, EntriesFor, CollisionFree, CalmRepairs, SparesRecord, Unscheduled, OpsDigested, AfterLoss,
         NextHead;
    RepairedFrom(sha, contents, c, accepts, d, h, s, m, uuids, ticks, ops, n);
    if Unscheduled(c[n], s) {
      LastingOverRuns(sha, contents, ClusterRun(AfterLoss(c, d, m, uuids, ticks), ops), later, n, s);
    }
  }

  lemma SameSchedule(v: Vol, v': Vol, s: Signature)
    requires v'.tables.idxttls == v.tables.idxttls && Unscheduled(v, s)
    ensures Unscheduled(v', s)
  {
  }

  lemma RemainingHolds(c: Nodes, accepts: set<VolumeID>, d: VolumeID, h: VolumeID, s: Signature, m: VolumeID)
    requires AgreedOn(c, accepts, s) && Holds(c, h, s) && NextHead(c[h].tables.files[s].volumeIDs, d, m)
    ensures Holds(c, m, s) && m != d
  {
    var rest := Without(c[h].tables.files[s].volumeIDs, d);
    assert rest[0] in rest;
    assert GoodList(c, accepts, h, s);
  }
}
