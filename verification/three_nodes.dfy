/** One small cluster, and what goes wrong in it. */
module ThreeNodes {
  import opened Types
  import opened Paths
  import opened ReplicaQueue
  import opened VolumeSpec
  import opened VolumeInvariant
  import opened VolumeRuns
  import opened Cluster
  import opened ClusterRuns
  import opened Agreement
  import opened AgreementExactly
  import opened Rounds
  import opened Synchronizing
  import opened Repair
  import opened Repaired

  const THREE: seq<VolumeID> := ["a", "b", "c"]
  const ALL: set<VolumeID> := {"a", "b", "c", "spare"}

  /** The node `id`, with the empty content under the key `k` and copies of it on `x` and `y`. */
  function Holder(s: Signature, id: VolumeID, x: VolumeID, y: VolumeID): Vol {
    Vol(id,
        Tables(map["k" := s], map[s := FileRow(["k"], s, 3, THREE, 0, 0, 0)],
               map[], map[x := [s], y := [s]], [], StateRow(0, 0, 9, 0)),
        map[s := []], 0)
  }

  /** Three holders of one content, and a node that holds nothing. */
  function Four(s: Signature): Nodes {
    map["a" := Holder(s, "a", "b", "c"), "b" := Holder(s, "b", "a", "c"), "c" := Holder(s, "c", "a", "b"),
        "spare" := Initial("spare", StateRow(0, 0, 9, 0))]
  }

  ghost predicate OneOfThree(id: VolumeID, x: VolumeID, y: VolumeID) {
    x != y && id != x && id != y && forall w :: w in THREE <==> w == id || w == x || w == y
  }

  lemma HolderInv(s: Signature, id: VolumeID, x: VolumeID, y: VolumeID)
    requires IsSignature(s) && OneOfThree(id, x, y)
    ensures Inv(Holder(s, id, x, y)) && Honest(_ => s, {[]}, Holder(s, id, x, y))
  {
    hide IsSignature;
    var v := Holder(s, id, x, y);
    assert Quota(v.tables) by {
      SizesTake(v.tables.files, s);
      assert v.tables.files - {s} == map[];
    }
    assert ReverseIndexed(v) by {
      assert NoDup([s]) && v.tables.files[s].volumeIDs == THREE;
    }
    assert TwoWay(v.tables) && GoodRecords(v.tables) by {
      assert NoDup(["k"]) && v.tables.files[s].keys == ["k"];
    }
  }

  lemma FourGood(s: Signature)
    requires IsSignature(s)
    ensures Good(_ => s, {[]}, Four(s)) && Ahead(Four(s)) && CollisionFree(_ => s, {[]})
  {
    hide Inv, IsSignature, Honest;
    HolderInv(s, "a", "b", "c");
    HolderInv(s, "b", "a", "c");
    HolderInv(s, "c", "a", "b");
    InitialInv("spare", StateRow(0, 0, 9, 0));
  }

  /** All that the node knows of any content: either `s` as one of the three, or nothing at all. */
  ghost predicate KnowsOnly(v: Vol, s: Signature) {
    && v.tables.replicas == []
    && v.tables.files == (if v.id in THREE then map[s := FileRow(["k"], s, 3, THREE, 0, 0, 0)] else map[])
    && v.tables.idxkeys == (if v.id in THREE then map["k" := s] else map[])
    && forall w, x :: x in SignaturesFor(v.tables.idxvolumes, w) <==> v.id in THREE && x == s && w != v.id && w in THREE
  }

  lemma HolderKnows(s: Signature, id: VolumeID, x: VolumeID, y: VolumeID)
    requires OneOfThree(id, x, y)
    ensures KnowsOnly(Holder(s, id, x, y), s)
  {
  }

  lemma AllKnow(c: Nodes, s: Signature, x: Signature)
    requires (forall w :: w in c <==> w in ALL) && forall w | w in c :: KnowsOnly(c[w], s) && c[w].id == w
    ensures AgreedOn(c, ALL, x)
  {
    assert forall w :: Holds(c, w, x) <==> w in THREE && x == s;
    forall w | Holds(c, w, x)
      ensures GoodList(c, ALL, w, x)
    {
      assert NoDup(THREE);
    }
    forall w | w in c
      ensures KeyAt(c[w], "k", s)
    {
      assert KnowsOnly(c[w], s);
    }
    forall w | w in c
      ensures QueueOn(c, w, x) && IndexOn(c, w, x)
    {
      assert KnowsOnly(c[w], s);
    }
  }

  lemma FourAgreed(s: Signature)
    ensures Agreed(Four(s), ALL)
  {
    var c := Four(s);
    HolderKnows(s, "a", "b", "c");
    HolderKnows(s, "b", "a", "c");
    HolderKnows(s, "c", "a", "b");
    assert KnowsOnly(Initial("spare", StateRow(0, 0, 9, 0)), s);
    hide Holder, KnowsOnly, AgreedOn;
    forall x
      ensures AgreedOn(c, ALL, x)
    {
      AllKnow(c, s, x);
    }
  }

  /** The holders of the example, as the theorems name them. */
  lemma FourHolders(s: Signature)
    ensures var c := Four(s); forall w | w in THREE :: Holds(c, w, s) && c[w].tables.files[s].volumeIDs == THREE
  {
  }

  /** Three nodes agree on the list of a content; the first two are lost, and the third one queues no repair for it. */
  lemma TwoLossesUnrepaired(s: Signature, uuids: VolumeID -> seq<seq<string>>, ticks: VolumeID -> seq<seq<int>>)
    requires IsSignature(s)
    ensures var c := Four(s);
            && Good(_ => s, {[]}, c) && Ahead(c) && Agreed(c, ALL) && Holds(c, "c", s)
            && |EntriesFor(AllNewEntries(c["c"], ["a", "b"], uuids("c"), ticks("c")), s)| == 0
  {
    hide Agreed, Good, Ahead, EntriesFor, AllNewEntries;
    var c, lost := Four(s), ["a", "b"];
    FourGood(s);
    FourAgreed(s);
    FourHolders(s);
    LossesRepairedExactly(_ => s, {[]}, c, ALL, lost, s, "c", "a", uuids, ticks);
    assert "c" in c && "c" !in lost;
  }

  /** Deleting the key on one of the holders ends the agreement. */
  lemma DeleteDisagrees(s: Signature)
    requires IsSignature(s)
    ensures !Agreed(Four(s)["c" := DeleteFile(Four(s)["c"], "k").0], ALL)
  {
    var c := Four(s);
    FourGood(s);
    FourAgreed(s);
    FourHolders(s);
    assert c["c"].tables.idxkeys["k"] == s;
    hide Agreed, Good, Ahead, EntriesFor, DeleteFile, Four;
    assert |THREE| != |["c"]|;
    DeleteAgreedExactly(_ => s, {[]}, c, ALL, "c", "k");
  }

  lemma OverwriteStores(s: Signature, a: Request)
    requires a.key == "k" && a.sig != s && |a.content| <= 9
    ensures Stores(Four(s)["c"], a) && "a" in Four(s) && "c" in Four(s) && "k" in Four(s)["a"].tables.idxkeys
  {
  }

  /** So does storing something else under the key there. */
  lemma OverwriteDisagrees(s: Signature, a: Request)
    requires IsSignature(s) && a.key == "k" && a.sig != s && |a.content| <= 9
    ensures "c" in Four(s) && !Agreed(Four(s)["c" := CreateFile(Four(s)["c"], a).0], ALL)
  {
    hide Agreed, Good, Ahead, CreateFile, Stores, Four, IsSignature;
    FourGood(s);
    FourAgreed(s);
    OverwriteStores(s, a);
    CreateAgreedExactly(_ => s, {[]}, Four(s), ALL, "c", a);
  }

  // ---------------------------------------------------------------- A repaired content that nobody repairs again

  function Calls(s: Signature): Env {
    Env(ALL, {}, _ => s, 0, 0, "")
  }

  /** What the node `b` knows before the loss. */
  ghost predicate SecondOfThree(v: Vol, s: Signature) {
    && v.id == "b" && v.tables.replicas == [] && SignaturesFor(v.tables.idxvolumes, "a") == [s]
    && s in v.tables.files && v.tables.files[s].keys == ["k"] && v.tables.files[s].volumeIDs == THREE
    && v.tables.files[s].replica == 3 && v.tables.idxkeys == map["k" := s]
    && GetFile(v, "k") == Some([]) && v.lastKey == 0
  }

  lemma FourSecond(s: Signature)
    ensures var c := Four(s);
            && "b" in c && SecondOfThree(c["b"], s) && Holds(c, "a", s) && Holds(c, "b", s)
            && Without(THREE, "a") == ["b", "c"]
  {
  }

  /** The call on `b` queues one repair, which is then its next entry. */
  lemma FirstRepair(s: Signature, uuids: seq<string>, ticks: seq<int>) returns (e: Replica)
    requires IsSignature(s)
    ensures "b" in Four(s)
    ensures var more := NewEntries(Four(s)["b"], "a", uuids, ticks);
            && e in EntriesFor(more, s) && SynchronizeReplicas(Four(s)["b"], "a", uuids, ticks).0.tables.replicas == more
            && more != [] && more[0] == e
            && e.key == "k" && e.signature == s && e.volumeIDs == ["b", "c"] && e.originalCount == 3
  {
    hide Good, Agreed, Ahead, EntriesFor, Four, SynchronizeReplicas, Inv, Ordered, NewEntries, IsSignature, GetFile, Indexes;
    var c := Four(s);
    FourGood(s);
    FourAgreed(s);
    FourSecond(s);
    AgreedShares(c, ALL, "b", "a");
    GoodNodeOf(_ => s, {[]}, c, "b");
    UniqueRepairer(_ => s, {[]}, c, "a", s, "b", "b", uuids, ticks);
    NewAreRepairs(c["b"], "a", s, uuids, ticks);
    var more := NewEntries(c["b"], "a", uuids, ticks);
    e := more[0];
    assert e in more && [] + more == more;
  }

  /** Where the index for `d` names one content only, every new entry is for that content. */
  lemma NewAreRepairs(v: Vol, d: VolumeID, s: Signature, uuids: seq<string>, ticks: seq<int>)
    requires Inv(v) && Ordered(v.tables.replicas, v.lastKey)
    requires SignaturesFor(v.tables.idxvolumes, d) == [s] && |EntriesFor(NewEntries(v, d, uuids, ticks), s)| == 1
    ensures var more := NewEntries(v, d, uuids, ticks);
            && SynchronizeReplicas(v, d, uuids, ticks).0.tables.replicas == v.tables.replicas + more
            && more != [] && more[0].signature == s
  {
    SurvivorQueues(v, d, uuids, ticks, s);
    SynchronizeExactly(v, d, uuids, ticks);
    var more := NewEntries(v, d, uuids, ticks);
    hide NewEntries, SynchronizeReplicas;
    assert more == [] ==> EntriesFor(more, s) == [];
    hide EntriesFor;
    assert Repairs(more[0], v.tables, v.id, d, Headed(v.tables, v.id, d, [s])[0]);
    assert GoodRecord(s, v.tables.files[s]);
  }

  /** The spare node knows nothing and has room; the others are those of the list. */
  lemma FourSpare(s: Signature)
    ensures var c := Four(s);
            && (forall w :: w in c <==> w in ALL) && c["spare"] == Initial("spare", StateRow(0, 0, 9, 0))
  {
  }

  /** What the cluster looks like between the loss of `a` and the round on `b`. */
  lemma BetweenLossAndRound(s: Signature, uuids: seq<string>, ticks: seq<int>, e: Replica)
    requires IsSignature(s)
    requires e.key == "k" && e.signature == s && e.volumeIDs == ["b", "c"] && e.originalCount == 3
    ensures "b" in Four(s)
    ensures var c1 := AfterLoss(Four(s), "a", "b", uuids, ticks);
            && (forall w :: w in c1 <==> w in ["b", "c", "spare"]) && Targets(c1, "b", e.volumeIDs, ["spare"])
            && Notable(c1["b"], e) && Takes(c1, Calls(s), "b", e, "spare")
  {
    hide Four, SynchronizeReplicas, Initial, OnlyQueue, SecondOfThree, Notable, Targets;
    FourSpare(s);
    FourSecond(s);
    var c, c1 := Four(s), AfterLoss(Four(s), "a", "b", uuids, ticks);
    assert OnlyQueue(c["b"], c1["b"]) by {
      assert Ordered(c["b"].tables.replicas, c["b"].lastKey) by { EmptyOrdered(c["b"], s); }
      OnlyQueueSynced(c["b"], "a", uuids, ticks);
    }
    StillSecond(c["b"], c1["b"], s, e);
    assert forall w :: w in c1 <==> w in ALL && w != "a";
    assert c1["spare"] == Initial("spare", StateRow(0, 0, 9, 0));
    hide AfterLoss;
    assert forall w :: w in ALL && w != "a" <==> w in ["b", "c", "spare"];
    SpareTakes(c1, s, e);
    OnlyTarget(c1, e);
  }

  lemma EmptyOrdered(v: Vol, s: Signature)
    requires SecondOfThree(v, s)
    ensures Ordered(v.tables.replicas, v.lastKey)
  {
  }

  lemma StillSecond(v: Vol, v': Vol, s: Signature, e: Replica)
    requires SecondOfThree(v, s) && OnlyQueue(v, v') && IsSignature(s) && e.signature == s && e.originalCount == 3
    ensures GetFile(v', "k") == Some([]) && Notable(v', e)
  {
  }

  lemma OnlyTarget(c1: Nodes, e: Replica)
    requires (forall w :: w in c1 <==> w in ["b", "c", "spare"]) && e.volumeIDs == ["b", "c"]
    ensures Targets(c1, "b", e.volumeIDs, ["spare"])
  {
    assert ["spare"][0] == "spare";
  }

  lemma SpareTakes(c1: Nodes, s: Signature, e: Replica)
    requires "b" in c1 && "spare" in c1 && c1["spare"] == Initial("spare", StateRow(0, 0, 9, 0))
    requires e.key == "k" && GetFile(c1["b"], "k") == Some([])
    ensures Takes(c1, Calls(s), "b", e, "spare")
  {
    hide GetFile;
  }

  lemma RoundTarget(c: Nodes, env: Env, m: VolumeID, n: VolumeID)
    requires m in c && n in c && n != m && Round(c, env, m, [n]).1.Some?
    ensures Round(c, env, m, [n]).1 == Some(n)
  {
    hide Try, UpdateReplica;
    TryMaster(c, env, m, NextReplica(c[m]).value, [n]);
  }

  /** The round on `b` copies the content to the spare node: what is stored before and after it. */
  lemma SplitBySpare(s: Signature, uuids: seq<string>, ticks: seq<int>) returns (l: Loss)
    requires IsSignature(s)
    ensures "b" in Four(s)
    ensures var c1 := AfterLoss(Four(s), "a", "b", uuids, ticks);
            && "b" in c1 && "spare" in c1 && OneList(c1, s)
            && var (c2, n) := Round(c1, Calls(s), "b", ["spare"]);
               && n == Some("spare") && !OneList(c2, s)
               && Good(_ => s, {[]}, c2) && Ahead(c2) && Copied(c2, ALL, l, ["spare"])
               && l.d == "a" && l.m == "b" && l.s == s && l.vids == THREE
  {
    hide Good, Ahead, Agreed, AgreedOn, NewEntries, EntriesFor, Round, Four, Takes, CollisionFree, SynchronizeReplicas,
         Notable, IsSignature, GetFile, Inv, Copied, Due, EntryOf, OneList;
    FourSecond(s);
    var c, c1 := Four(s), AfterLoss(Four(s), "a", "b", uuids, ticks);
    FourGood(s);
    FourAgreed(s);
    var e := FirstRepair(s, uuids, ticks);
    BetweenLossAndRound(s, uuids, ticks, e);
    assert NextReplica(c1["b"]) == Some(e);
    LossBegins(_ => s, {[]}, c, ALL, "a", "b", s, uuids, ticks);
    l := LossOf(c, "a", "b", s, "b");
    hide AfterLoss, NextReplica;
    assert Takes(c1, Calls(s), "b", e, ["spare"][0]) && ["spare"][0] in c1;
    RoundSucceedsExactly(c1, Calls(s), "b", ["spare"]);
    RoundTarget(c1, Calls(s), "b", "spare");
    RoundSplits({[]}, c1, Calls(s), l, [], e, ["spare"]);
    assert HoldersUp(e, "b", {});
    RoundCopied({[]}, c1, Calls(s), l, [], e, ["spare"]);
    assert [] + ["spare"] == ["spare"];
    RoundAdds({[]}, c1, Calls(s), "b", ["spare"]);
    RoundAhead(c1, Calls(s), "b", ["spare"]);
  }

  /**
   * The first of the three holders is lost, the second one repairs the content on the spare node, and then the third one
   * is lost. The round leaves the nodes with two lists, of which only the repairer's names the first one, and nobody
   * queues another repair.
   */
  lemma SecondLossUnrepaired(s: Signature, uuids: seq<string>, ticks: seq<int>,
                             uuids': VolumeID -> seq<string>, ticks': VolumeID -> seq<int>)
    requires IsSignature(s)
    ensures "b" in Four(s)
    ensures var c1 := AfterLoss(Four(s), "a", "b", uuids, ticks);
            && "b" in c1 && "spare" in c1 && OneList(c1, s)
            && var (c2, n) := Round(c1, Calls(s), "b", ["spare"]);
               && n == Some("spare") && !OneList(c2, s)
               && (forall w | Holds(c2, w, s) ::
                     c2[w].tables.files[s].volumeIDs == (if w == "b" then ["a", "b", "c"] else ["b", "c"]) + ["spare"])
               && forall w | w in c2 && w != "c" :: |EntriesFor(NewEntries(c2[w], "c", uuids'(w), ticks'(w)), s)| == 0
  {
    hide Good, Ahead, NewEntries, EntriesFor, Round, Four, Copied, OneList, AfterLoss, IsSignature;
    var l := SplitBySpare(s, uuids, ticks);
    var c2 := Round(AfterLoss(Four(s), "a", "b", uuids, ticks), Calls(s), "b", ["spare"]).0;
    assert l.Rest() == ["b", "c"] by { FourSecond(s); }
    CopiedLists(c2, ALL, l, ["spare"]);
    assert "c" in l.Rest() + ["spare"];
    NextLossExactly(_ => s, {[]}, c2, ALL, l, ["spare"], "c", uuids', ticks');
  }
}
