/** What the survivors do when a node is gone. */
module Repair {
  import opened Types
  import opened ReplicaQueue
  import opened VolumeSpec
  import opened VolumeInvariant
  import opened VolumeRuns
  import opened Cluster
  import opened Agreement
  import opened AgreementRuns
  import opened Synchronizing

  // ---------------------------------------------------------------- All survivors

  /** All holders of `s` store the same list of nodes that hold it, and want the same number of copies. */
  ghost predicate SharedList(c: Nodes, s: Signature) {
    && (forall w, u | Holds(c, w, s) && Holds(c, u, s) ::
          c[w].tables.files[s].volumeIDs == c[u].tables.files[s].volumeIDs &&
          c[w].tables.files[s].replica == c[u].tables.files[s].replica)
    && (forall w, u | Holds(c, w, s) && u in c[w].tables.files[s].volumeIDs :: Holds(c, u, s))
  }

  /** When all holders agree, a survivor turns to the repair of `s` exactly when it comes first in the list without `d`. */
  lemma HeadOfRest(c: Nodes, d: VolumeID, s: Signature, h: VolumeID, w: VolumeID)
    requires (forall n | n in c :: c[n].id == n && Inv(c[n])) && SharedList(c, s)
    requires Holds(c, d, s) && Holds(c, h, s) && h != d && w in c && w != d
    ensures var rest := Without(c[h].tables.files[s].volumeIDs, d);
            && rest != [] && Holds(c, rest[0], s) && rest[0] != d
            && (TurnedOn(c[w], s, d) <==> w == rest[0] && Indexes(c[w], d))
  {
    hide TwoWay, Blobs, Quota;
    var rest := Without(c[h].tables.files[s].volumeIDs, d);
    assert h in rest && rest[0] in rest;
    if Holds(c, w, s) {
      assert GoodRecord(s, c[w].tables.files[s]);
      assert d in c[d].tables.files[s].volumeIDs;
    }
  }

  /**
   * A node of the cluster is lost and every survivor is told. If the holders of a content agree on its list, the head of
   * the remaining list queues exactly one repair for it, provided that its index for the lost node names stored files
   * only, and nobody else queues any. The repair asks for the copies that are missing from the wanted number, and names
   * the remaining holders.
   */
  lemma UniqueRepairer(sha: Bytes -> string, contents: set<Bytes>, c: Nodes,
                       d: VolumeID, s: Signature, h: VolumeID, w: VolumeID, uuids: seq<string>, ticks: seq<int>)
    requires Good(sha, contents, c) && Ahead(c) && SharedList(c, s)
    requires Holds(c, d, s) && Holds(c, h, s) && h != d && w in c && w != d
    ensures var f := c[h].tables.files[s];
            var rest := Without(f.volumeIDs, d);
            && rest != [] && Holds(c, rest[0], s) && rest[0] != d
            && |EntriesFor(NewEntries(c[w], d, uuids, ticks), s)| == (if w == rest[0] && Indexes(c[w], d) then 1 else 0)
            && forall e | e in EntriesFor(NewEntries(c[w], d, uuids, ticks), s) ::
                 && e.volumeIDs == rest && e.originalCount == f.replica && e.count == f.replica - |rest|
                 && e.volumeID == w && Holds(c, w, s) && e.key in c[w].tables.files[s].keys
  {
    hide Inv, Honest, SynchronizeReplicas, NewEntries, TurnedOn, Indexes, Ordered, EntriesFor;
    HeadOfRest(c, d, s, h, w);
    SurvivorQueues(c[w], d, uuids, ticks, s);
  }

  /** In an agreed cluster the holders share their lists, and a survivor indexes exactly the files it shares with `d`. */
  lemma AgreedShares(c: Nodes, accepts: set<VolumeID>, w: VolumeID, d: VolumeID)
    requires Agreed(c, accepts) && w in c && w != d
    ensures Indexes(c[w], d) && forall s :: SharedList(c, s)
    ensures forall s :: s in SignaturesFor(c[w].tables.idxvolumes, d) <==> Holds(c, w, s) && Holds(c, d, s)
  {
    hide AgreedOn;
    forall s
      ensures s in SignaturesFor(c[w].tables.idxvolumes, d) <==> Holds(c, w, s) && Holds(c, d, s)
      ensures SharedList(c, s)
    {
      SharedOn(c, accepts, w, d, s);
    }
  }

  lemma SharedOn(c: Nodes, accepts: set<VolumeID>, w: VolumeID, d: VolumeID, s: Signature)
    requires AgreedOn(c, accepts, s) && w in c && w != d
    ensures s in SignaturesFor(c[w].tables.idxvolumes, d) <==> Holds(c, w, s) && Holds(c, d, s)
    ensures SharedList(c, s)
  {
    hide QueueOn, KeyMeans;
    assert IndexOn(c, w, s);
    assert forall n | Holds(c, n, s) :: GoodList(c, accepts, n, s);
  }

  // ---------------------------------------------------------------- Several lost nodes at once

  /** How many of the lost volumes make the volume queue a repair for `s`. */
  ghost function Losses(v: Vol, s: Signature, lost: seq<VolumeID>): nat {
    if lost == [] then 0
    else Losses(v, s, lost[..|lost| - 1]) + if TurnedOn(v, s, lost[|lost| - 1]) then 1 else 0
  }

  /** What one pass over the lost volumes queued. */
  function AllNewEntries(v: Vol, lost: seq<VolumeID>, uuids: seq<seq<string>>, ticks: seq<seq<int>>): seq<Replica> {
    var q, q' := v.tables.replicas, RepairAll(v, lost, uuids, ticks).tables.replicas;
    if |q| <= |q'| then q'[|q|..] else []
  }

  /** Being told of one more lost volume, after some others. */
  lemma OneMoreLost(v: Vol, v1: Vol, d: VolumeID, uuids: seq<string>, ticks: seq<int>, s: Signature)
    requires Inv(v1) && Ordered(v1.tables.replicas, v1.lastKey) && OnlyQueue(v, v1)
    ensures var v2 := SynchronizeReplicas(v1, d, uuids, ticks).0;
            && Inv(v2) && Ordered(v2.tables.replicas, v2.lastKey) && OnlyQueue(v, v2)
            && v2.tables.replicas == v1.tables.replicas + NewEntries(v1, d, uuids, ticks)
    ensures |EntriesFor(NewEntries(v1, d, uuids, ticks), s)| == if TurnedOn(v, s, d) then 1 else 0
  {
    hide Inv, SynchronizeReplicas, NewEntries, Ordered, EntriesFor, SyncLoop, Abs, Heads;
    SyncFrame(v1, d, uuids, ticks);
    SyncOrdered(v1, d, uuids, ticks);
    SurvivorQueues(v1, d, uuids, ticks, s);
    SyncTables(v1, d, uuids, ticks);
    SynchronizeKeeps(v1, d, uuids, ticks);
  }

  lemma TailOfSum(q: seq<Replica>, a: seq<Replica>, b: seq<Replica>)
    ensures ((q + a) + b)[|q|..] == a + b && (q + a) + b == q + (a + b)
  {
  }

  /** A pass over the lost volumes touches nothing but the queue, and queues one repair for each that it turns on. */
  lemma {:induction false} RepairAllExactly(v: Vol, lost: seq<VolumeID>, uuids: seq<seq<string>>, ticks: seq<seq<int>>,
                                            s: Signature)
    requires Inv(v) && Ordered(v.tables.replicas, v.lastKey)
    ensures var v' := RepairAll(v, lost, uuids, ticks);
            && Inv(v') && Ordered(v'.tables.replicas, v'.lastKey) && OnlyQueue(v, v')
            && v'.tables.replicas == v.tables.replicas + AllNewEntries(v, lost, uuids, ticks)
    ensures |EntriesFor(AllNewEntries(v, lost, uuids, ticks), s)| == Losses(v, s, lost)
    decreases |lost|
  {
    hide Inv, SynchronizeReplicas, NewEntries, Indexes, TurnedOn, Ordered;
    if lost != [] {
      hide OnlyQueue, EntriesFor;
      var n := |lost| - 1;
      var v1 := RepairAll(v, lost[..n], uuids, ticks);
      var us, ts := At(uuids, n, []), At(ticks, n, []);
      RepairAllExactly(v, lost[..n], uuids, ticks, s);
      OneMoreLost(v, v1, lost[n], us, ts, s);
      var before, more := AllNewEntries(v, lost[..n], uuids, ticks), NewEntries(v1, lost[n], us, ts);
      TailOfSum(v.tables.replicas, before, more);
      EntriesConcat(before, more, s);
    }
  }

  /** The lost volumes are taken in turn: what a pass queues for the first ones stands before what it queues for the last. */
  lemma RepairedInTurn(v: Vol, lost: seq<VolumeID>, uuids: seq<seq<string>>, ticks: seq<seq<int>>)
    requires Inv(v) && Ordered(v.tables.replicas, v.lastKey) && lost != []
    ensures var n := |lost| - 1;
            var v1 := RepairAll(v, lost[..n], uuids, ticks);
            AllNewEntries(v, lost, uuids, ticks) ==
            AllNewEntries(v, lost[..n], uuids, ticks) + NewEntries(v1, lost[n], At(uuids, n, []), At(ticks, n, []))
  {
    hide Inv, SynchronizeReplicas, NewEntries, Indexes, TurnedOn, Ordered, OnlyQueue, EntriesFor;
    var n := |lost| - 1;
    RepairAllExactly(v, lost, uuids, ticks, "");
    RepairAllExactly(v, lost[..n], uuids, ticks, "");
    SurvivorQueues(RepairAll(v, lost[..n], uuids, ticks), lost[n], At(uuids, n, []), At(ticks, n, []), "");
    TailOfSum(v.tables.replicas, AllNewEntries(v, lost[..n], uuids, ticks),
              NewEntries(RepairAll(v, lost[..n], uuids, ticks), lost[n], At(uuids, n, []), At(ticks, n, [])));
  }

  lemma {:induction false} LossesPositive(v: Vol, s: Signature, lost: seq<VolumeID>)
    ensures Losses(v, s, lost) > 0 <==> exists d :: d in lost && TurnedOn(v, s, d)
    decreases |lost|
  {
    hide TurnedOn;
    if lost != [] {
      var n := |lost| - 1;
      LossesPositive(v, s, lost[..n]);
      assert forall d :: d in lost <==> d in lost[..n] || d == lost[n];
    }
  }

  /** `w` comes first in the list once `d` is taken from it. */
  predicate NextHead(vids: seq<VolumeID>, d: VolumeID, w: VolumeID) {
    Without(vids, d) != [] && Without(vids, d)[0] == w
  }

  /** A survivor of an agreed cluster queues a repair for `s` exactly when it heads the list without some lost holder. */
  lemma RepairedBy(sha: Bytes -> string, contents: set<Bytes>, c: Nodes, accepts: set<VolumeID>, lost: seq<VolumeID>,
                   s: Signature, h: VolumeID, w: VolumeID, uuids: seq<seq<string>>, ticks: seq<seq<int>>)
    requires Good(sha, contents, c) && Ahead(c) && Agreed(c, accepts) && Holds(c, h, s) && h !in lost
    requires w in c && w !in lost && forall d | d in lost :: d in c
    ensures |EntriesFor(AllNewEntries(c[w], lost, uuids, ticks), s)| > 0 <==>
            exists d :: d in lost && d in c[h].tables.files[s].volumeIDs &&
                        NextHead(c[h].tables.files[s].volumeIDs, d, w)
  {
    hide Inv, Honest, Agreed, AllNewEntries, TurnedOn, EntriesFor, Ordered;
    forall d | d in lost
      ensures TurnedOn(c[w], s, d) <==> d in c[h].tables.files[s].volumeIDs &&
                                        NextHead(c[h].tables.files[s].volumeIDs, d, w)
    {
      LossAgreed(c, accepts, s, h, w, d);
    }
    RepairAllExactly(c[w], lost, uuids, ticks, s);
    LossesPositive(c[w], s, lost);
  }

  lemma LossAgreed(c: Nodes, accepts: set<VolumeID>, s: Signature, h: VolumeID, w: VolumeID, d: VolumeID)
    requires (forall n | n in c :: c[n].id == n && Inv(c[n])) && Agreed(c, accepts)
    requires Holds(c, h, s) && w in c && d in c && d != w && d != h
    ensures TurnedOn(c[w], s, d) <==> d in c[h].tables.files[s].volumeIDs &&
                                      NextHead(c[h].tables.files[s].volumeIDs, d, w)
  {
    hide Inv, Heads, Indexes, SharedList, AgreedOn;
    AgreedShares(c, accepts, w, d);
    AgreedLists(c, accepts, h, h, s);
    if Holds(c, d, s) {
      HeadOfRest(c, d, s, h, w);
    }
  }

  /**
   * Several nodes of an agreed cluster are lost at once, and the survivors are told of all of them. A content that lost
   * some of its holders, but not all, gets a repair exactly when one of the first two nodes of its list survived.
   */
  lemma LossesRepairedExactly(sha: Bytes -> string, contents: set<Bytes>, c: Nodes, accepts: set<VolumeID>,
                              lost: seq<VolumeID>, s: Signature, h: VolumeID, d: VolumeID,
                              uuids: VolumeID -> seq<seq<string>>, ticks: VolumeID -> seq<seq<int>>)
    requires Good(sha, contents, c) && Ahead(c) && Agreed(c, accepts) && forall x | x in lost :: x in c
    requires Holds(c, h, s) && h !in lost && Holds(c, d, s) && d in lost
    ensures var vids := c[h].tables.files[s].volumeIDs;
            && |vids| >= 2
            && ((exists w | w in c && w !in lost :: |EntriesFor(AllNewEntries(c[w], lost, uuids(w), ticks(w)), s)| > 0) <==>
                vids[0] !in lost || vids[1] !in lost)
  {
    hide Good, Ahead, AgreedOn, AllNewEntries, EntriesFor;
    var vids := c[h].tables.files[s].volumeIDs;
    AgreedLists(c, accepts, h, h, s);
    forall x | x in vids
      ensures forall w :: NextHead(vids, x, w) <==> w == if x == vids[0] then vids[1] else vids[0]
    {
      FirstWithout(vids, x, if x == h then d else h);
    }
    forall w | w in c && w !in lost
      ensures |EntriesFor(AllNewEntries(c[w], lost, uuids(w), ticks(w)), s)| > 0 <==>
              exists x :: x in lost && x in vids && NextHead(vids, x, w)
    {
      RepairedBy(sha, contents, c, accepts, lost, s, h, w, uuids(w), ticks(w));
    }
    if vids[0] !in lost {
      assert NextHead(vids, d, vids[0]) && vids[0] in vids;
      assert |EntriesFor(AllNewEntries(c[vids[0]], lost, uuids(vids[0]), ticks(vids[0])), s)| > 0;
    } else if vids[1] !in lost {
      assert NextHead(vids, vids[0], vids[1]) && vids[0] in vids && vids[1] in vids;
      assert |EntriesFor(AllNewEntries(c[vids[1]], lost, uuids(vids[1]), ticks(vids[1])), s)| > 0;
    }
  }

  /** What comes first in a duplicate-free list without one of its members. */
  lemma FirstWithout(vids: seq<VolumeID>, x: VolumeID, other: VolumeID)
    requires NoDup(vids) && x in vids && other in vids && x != other
    ensures |vids| >= 2 && forall w :: NextHead(vids, x, w) <==> w == if x == vids[0] then vids[1] else vids[0]
  {
    if x == vids[0] {
      assert x !in vids[1..];
    }
  }
}
