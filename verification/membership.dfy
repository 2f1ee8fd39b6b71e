/** Which nodes a member of the cluster knows, and which volumes it reports as removed. */
module Membership {
  import opened Types

  type Name = string

  /** What a member keeps: the volumes of the nodes that are up, and when the volumes of the others were lost. */
  datatype View = View(nodes: map<Name, set<VolumeID>>, removed: map<VolumeID, int>)

  datatype Event =
    | Join(name: Name, volumes: set<VolumeID>)
    | Update(name: Name, volumes: set<VolumeID>)
    | Leave(name: Name, now: int)
    | Query(now: int)

  function Volumes(v: View, name: Name): set<VolumeID> {
    if name in v.nodes then v.nodes[name] else {}
  }

  /** The volumes that are lost for longer than the allowed downtime. */
  function Expired(removed: map<VolumeID, int>, downtime: int, now: int): set<VolumeID> {
    set vid | vid in removed && removed[vid] + downtime < now
  }

  function Joined(v: View, name: Name, volumes: set<VolumeID>): View {
    View(v.nodes[name := volumes], v.removed - volumes)
  }

  function Left(v: View, name: Name, now: int): View {
    View(v.nodes - {name}, v.removed + (map vid | vid in Volumes(v, name) :: now))
  }

  function Step(v: View, downtime: int, e: Event): View {
    match e
    case Join(name, volumes) => Joined(v, name, volumes)
    case Update(name, volumes) => Joined(v, name, volumes)
    case Leave(name, now) => Left(v, name, now)
    case Query(now) => v.(removed := v.removed - Expired(v.removed, downtime, now))
  }

  // ---------------------------------------------------------------- The methods

  class Member {
    const downtime: int
    var initialised: bool
    var nodes: map<Name, set<VolumeID>>
    var removedVolumeIDs: map<VolumeID, int>

    function Current(): View
      reads this
    {
      View(nodes, removedVolumeIDs)
    }

    constructor (downtime: int)
      ensures Current() == View(map[], map[]) && this.downtime == downtime && !initialised
    {
      this.downtime, initialised, nodes, removedVolumeIDs := downtime, false, map[], map[];
    }

    /** The join of the own node arrives while the member is being set up, and is passed over. */
    method NotifyJoin(name: Name, volumes: set<VolumeID>)
      modifies this
      ensures Current() == if initialised then Joined(old(Current()), name, volumes) else old(Current())
      ensures initialised == old(initialised)
    {
      if !initialised {
        return;
      }
      nodes := nodes[name := volumes];
      var todo := volumes;
      while todo != {}
        invariant todo <= volumes && initialised && nodes == old(nodes)[name := volumes]
        invariant removedVolumeIDs == old(removedVolumeIDs) - (volumes - todo)
        decreases |todo|
      {
        var vid :| vid in todo;
        removedVolumeIDs := removedVolumeIDs - {vid};
        todo := todo - {vid};
      }
    }

    method NotifyUpdate(name: Name, volumes: set<VolumeID>)
      modifies this
      ensures Current() == if initialised then Joined(old(Current()), name, volumes) else old(Current())
      ensures initialised == old(initialised)
    {
      NotifyJoin(name, volumes);
    }

    method NotifyLeave(name: Name, now: int)
      modifies this
      ensures Current() == Left(old(Current()), name, now) && initialised == old(initialised)
    {
      var lost := if name in nodes then nodes[name] else {};
      var todo := lost;
      while todo != {}
        invariant todo <= lost && nodes == old(nodes) && initialised == old(initialised)
        invariant removedVolumeIDs == old(removedVolumeIDs) + (map vid | vid in lost - todo :: now)
        decreases |todo|
      {
        var vid :| vid in todo;
        removedVolumeIDs := removedVolumeIDs[vid := now];
        todo := todo - {vid};
      }
      assert lost - {} == lost;
      nodes := nodes - {name};
    }

    /** Each reported volume is dropped from the list while the list is walked, in whatever order. */
    method RemovedVolumeIDs(now: int) returns (rvids: seq<VolumeID>)
      modifies this
      ensures Current() == Step(old(Current()), downtime, Query(now)) && initialised == old(initialised)
      ensures NoDup(rvids) && forall vid :: vid in rvids <==> vid in Expired(old(removedVolumeIDs), downtime, now)
    {
      rvids := [];
      var todo := removedVolumeIDs.Keys;
      ghost var all := removedVolumeIDs;
      ghost var expired := Expired(all, downtime, now);
      assert forall vid :: vid in expired <==> vid in all && all[vid] + downtime < now;
      hide Expired;
      while todo != {}
        invariant todo <= all.Keys && nodes == old(nodes) && initialised == old(initialised)
        invariant NoDup(rvids) && forall vid :: vid in rvids <==> vid in expired && vid !in todo
        invariant forall x :: x in removedVolumeIDs <==> x in all && (x in todo || x !in expired)
        invariant forall x | x in removedVolumeIDs :: removedVolumeIDs[x] == all[x]
        decreases |todo|
      {
        var vid :| vid in todo;
        todo := todo - {vid};
        assert vid in removedVolumeIDs && removedVolumeIDs[vid] == all[vid];
        if removedVolumeIDs[vid] + downtime < now {
          NoDupSnoc(rvids, vid);
          rvids := rvids + [vid];
          removedVolumeIDs := removedVolumeIDs - {vid};
        }
      }
      assert removedVolumeIDs == all - expired;
    }

    /** A node that has the volume, when there is one. */
    method GetNodeWithVolumeByID(vid: VolumeID) returns (r: Option<Name>)
      ensures r.Some? ==> r.value in nodes && vid in nodes[r.value]
      ensures r.None? ==> forall n | n in nodes :: vid !in nodes[n]
    {
      var todo := nodes.Keys;
      while todo != {}
        invariant todo <= nodes.Keys && forall n | n in nodes && n !in todo :: vid !in nodes[n]
        decreases |todo|
      {
        var n :| n in todo;
        if vid in nodes[n] {
          return Some(n);
        }
        todo := todo - {n};
      }
      r := None;
    }

    /** The nodes without any of the volumes, each once. */
    method NodesWithoutVolumeIDs(vids: seq<VolumeID>) returns (res: seq<Name>)
      ensures NoDup(res)
      ensures forall n :: n in res <==> n in nodes && forall vid | vid in vids :: vid !in nodes[n]
    {
      res := [];
      var todo := nodes.Keys;
      while todo != {}
        invariant todo <= nodes.Keys && NoDup(res)
        invariant forall n :: n in res <==> n in nodes && n !in todo && forall vid | vid in vids :: vid !in nodes[n]
        decreases |todo|
      {
        var n :| n in todo;
        todo := todo - {n};
        var found := false;
        for i := 0 to |vids|
          invariant found <==> exists vid :: vid in vids[..i] && vid in nodes[n]
        {
          assert forall vid :: vid in vids[..i + 1] <==> vid in vids[..i] || vid == vids[i];
          if vids[i] in nodes[n] {
            found := true;
          }
        }
        assert vids[..|vids|] == vids;
        if !found {
          NoDupSnoc(res, n);
          res := res + [n];
        }
      }
    }
  }

  // ---------------------------------------------------------------- Traces of events

  function After(downtime: int, es: seq<Event>): View
    decreases |es|
  {
    if es == [] then View(map[], map[]) else Step(After(downtime, es[..|es| - 1]), downtime, es[|es| - 1])
  }

  predicate Brings(e: Event, n: Name) {
    (e.Join? || e.Update?) && e.name == n
  }

  /** The last event that names the node brought it. */
  predicate Live(es: seq<Event>, n: Name)
    decreases |es|
  {
    es != [] &&
    var last := es[|es| - 1];
    if Brings(last, n) then true
    else if last.Leave? && last.name == n then false
    else Live(es[..|es| - 1], n)
  }

  /** Every node announces its own volumes, always the same, and no volume belongs to two nodes. */
  ghost predicate Fixed(volumes: map<Name, set<VolumeID>>, es: seq<Event>) {
    && (forall n, m | n in volumes && m in volumes && n != m :: volumes[n] !! volumes[m])
    && (forall i | 0 <= i < |es| && (es[i].Join? || es[i].Update?) ::
          es[i].name in volumes && es[i].volumes == volumes[es[i].name])
  }

  lemma {:induction false} NodesAreLive(downtime: int, volumes: map<Name, set<VolumeID>>, es: seq<Event>, n: Name)
    requires Fixed(volumes, es)
    ensures n in After(downtime, es).nodes <==> Live(es, n)
    ensures Live(es, n) ==> n in volumes && After(downtime, es).nodes[n] == volumes[n]
    decreases |es|
  {
    if es != [] {
      NodesAreLive(downtime, volumes, es[..|es| - 1], n);
    }
  }

  /**
   * The leave at `j` took the live node `n` away; since then it has not come back, and no query came late enough to
   * report it.
   */
  ghost predicate Lost(downtime: int, es: seq<Event>, n: Name, j: int) {
    && 0 <= j < |es| && es[j].Leave? && es[j].name == n && Live(es[..j], n)
    && forall k | j < k < |es| :: !Brings(es[k], n) && !(es[k].Query? && es[j].now + downtime < es[k].now)
  }

  ghost predicate Unanswered(downtime: int, es: seq<Event>, n: Name) {
    exists j :: Lost(downtime, es, n, j)
  }

  lemma {:induction false} GoneUntilBrought(es: seq<Event>, n: Name, j: int)
    requires 0 <= j < |es| && es[j].Leave? && es[j].name == n
    requires forall k | j < k < |es| :: !Brings(es[k], n)
    ensures !Live(es, n)
    decreases |es|
  {
    if j < |es| - 1 {
      GoneUntilBrought(es[..|es| - 1], n, j);
    }
  }

  /** At most one leave of a node is unanswered at any time. */
  lemma LostOnce(downtime: int, es: seq<Event>, n: Name, i: int, j: int)
    requires Lost(downtime, es, n, i) && Lost(downtime, es, n, j)
    ensures i == j
  {
    if i < j {
      GoneUntilBrought(es[..j], n, i);
    } else if j < i {
      GoneUntilBrought(es[..i], n, j);
    }
  }

  /** How a leave that counts before the last event still counts after it. */
  lemma LostStep(downtime: int, es: seq<Event>, n: Name, j: int)
    requires es != []
    ensures var before, last := es[..|es| - 1], es[|es| - 1];
            Lost(downtime, es, n, j) <==>
            if j == |es| - 1 then last.Leave? && last.name == n && Live(before, n)
            else Lost(downtime, before, n, j) && !Brings(last, n) && !(last.Query? && es[j].now + downtime < last.now)
  {
    var before := es[..|es| - 1];
    if 0 <= j < |es| - 1 {
      assert before[..j] == es[..j] && before[j] == es[j];
    }
  }

  /** The waiting volumes are exactly those of the nodes with an unanswered leave, with the time of that leave. */
  lemma {:induction false} RemovedAreLost(downtime: int, volumes: map<Name, set<VolumeID>>, es: seq<Event>,
                                          n: Name, vid: VolumeID)
    requires Fixed(volumes, es) && n in volumes && vid in volumes[n]
    ensures vid in After(downtime, es).removed <==> Unanswered(downtime, es, n)
    ensures forall j | Lost(downtime, es, n, j) ::
              vid in After(downtime, es).removed && After(downtime, es).removed[vid] == es[j].now
    decreases |es|
  {
    if es != [] {
      var before, last := es[..|es| - 1], es[|es| - 1];
      RemovedAreLost(downtime, volumes, before, n, vid);
      forall j
        ensures Lost(downtime, es, n, j) <==>
                if j == |es| - 1 then last.Leave? && last.name == n && Live(before, n)
                else Lost(downtime, before, n, j) && !Brings(last, n) && !(last.Query? && es[j].now + downtime < last.now)
        ensures Lost(downtime, before, n, j) ==> before[j] == es[j]
      {
        LostStep(downtime, es, n, j);
      }
      StepRemoved(downtime, volumes, es, n, vid);
    }
  }

  /** What the last event does to one waiting volume. */
  lemma StepRemoved(downtime: int, volumes: map<Name, set<VolumeID>>, es: seq<Event>, n: Name, vid: VolumeID)
    requires Fixed(volumes, es) && n in volumes && vid in volumes[n] && es != []
    ensures var before, last := es[..|es| - 1], es[|es| - 1];
            var v, v' := After(downtime, before), After(downtime, es);
            if last.Leave? && last.name == n && Live(before, n) then
              vid in v'.removed && v'.removed[vid] == last.now
            else
              && (vid in v'.removed <==> vid in v.removed && !Brings(last, n) &&
                                         !(last.Query? && v.removed[vid] + downtime < last.now))
              && (vid in v'.removed ==> v'.removed[vid] == v.removed[vid])
    ensures Unanswered(downtime, es[..|es| - 1], n) ==> !Live(es[..|es| - 1], n)
  {
    var before, last := es[..|es| - 1], es[|es| - 1];
    if Unanswered(downtime, before, n) {
      var j :| Lost(downtime, before, n, j);
      GoneUntilBrought(before, n, j);
    }
    if last.Leave? {
      NodesAreLive(downtime, volumes, before, last.name);
    }
  }

  /**
   * A query reports a volume exactly when its node left while it was up, has not come back since, was not reported
   * since, and is away for longer than the downtime. There is never more than one such leave of a node.
   */
  lemma ReportedExactly(downtime: int, volumes: map<Name, set<VolumeID>>, es: seq<Event>, n: Name, vid: VolumeID,
                        now: int)
    requires Fixed(volumes, es) && n in volumes && vid in volumes[n]
    ensures vid in Expired(After(downtime, es).removed, downtime, now) <==>
            exists j :: Lost(downtime, es, n, j) && es[j].now + downtime < now
    ensures forall i, j | Lost(downtime, es, n, i) && Lost(downtime, es, n, j) :: i == j
  {
    RemovedAreLost(downtime, volumes, es, n, vid);
    forall i, j | Lost(downtime, es, n, i) && Lost(downtime, es, n, j)
      ensures i == j
    {
      LostOnce(downtime, es, n, i, j);
    }
  }

  /**
   * Two queries report the same volume only if its node came back after the first one, and then left again for longer
   * than the downtime: one leave is never reported twice.
   */
  lemma ReportedAgain(downtime: int, volumes: map<Name, set<VolumeID>>, es: seq<Event>, n: Name, vid: VolumeID,
                      first: int, second: int)
    requires Fixed(volumes, es) && n in volumes && vid in volumes[n] && 0 <= first < second < |es|
    requires es[first].Query? && vid in Expired(After(downtime, es[..first]).removed, downtime, es[first].now)
    requires es[second].Query? && vid in Expired(After(downtime, es[..second]).removed, downtime, es[second].now)
    ensures exists k, j :: first < k < j < second && Brings(es[k], n) &&
                           es[j].Leave? && es[j].name == n && es[j].now + downtime < es[second].now
  {
    ReportedExactly(downtime, volumes, es[..first], n, vid, es[first].now);
    ReportedExactly(downtime, volumes, es[..second], n, vid, es[second].now);
    hide After, Expired, Fixed, Live, Brings;
    var i :| Lost(downtime, es[..first], n, i) && es[..first][i].now + downtime < es[first].now;
    var j :| Lost(downtime, es[..second], n, j) && es[..second][j].now + downtime < es[second].now;
    var k := BackBetween(downtime, es, n, first, second, i, j);
    assert es[..second][j] == es[j];
  }

  lemma BackBetween(downtime: int, es: seq<Event>, n: Name, first: int, second: int, i: int, j: int) returns (k: int)
    requires 0 <= first < second <= |es| && es[first].Query?
    requires Lost(downtime, es[..first], n, i) && es[i].now + downtime < es[first].now && Lost(downtime, es[..second], n, j)
    ensures first < k < j < second && Brings(es[k], n)
  {
    hide Live;
    assert es[..second][first] == es[first] && es[..first][i] == es[i];
    if j < first {
      LostBefore(downtime, es, n, j, first, second);
      LostOnce(downtime, es[..first], n, i, j);
      assert false;
    }
    assert j > first && es[..second][..j] == es[..j] && Live(es[..j], n);
    forall k | i < k < first
      ensures !Brings(es[..j][k], n)
    {
      assert es[..first][k] == es[..j][k];
    }
    if forall k | i < k < j :: !Brings(es[..j][k], n) {
      GoneUntilBrought(es[..j], n, i);
      assert false;
    }
    k :| i < k < j && Brings(es[..j][k], n);
  }

  /** A leave that counts at the end counted at every moment since. */
  lemma LostBefore(downtime: int, es: seq<Event>, n: Name, j: int, first: int, second: int)
    requires 0 <= j < first <= second <= |es| && Lost(downtime, es[..second], n, j)
    ensures Lost(downtime, es[..first], n, j)
  {
    assert es[..first][..j] == es[..second][..j] && es[..first][j] == es[..second][j];
    forall k | j < k < first
      ensures es[..first][k] == es[..second][k]
    {
    }
  }

  /** No waiting volume belongs to a node that is up. */
  lemma WaitingApartFromLive(downtime: int, volumes: map<Name, set<VolumeID>>, es: seq<Event>, n: Name, vid: VolumeID)
    requires Fixed(volumes, es) && n in After(downtime, es).nodes && vid in After(downtime, es).nodes[n]
    ensures vid !in After(downtime, es).removed
  {
    NodesAreLive(downtime, volumes, es, n);
    RemovedAreLost(downtime, volumes, es, n, vid);
    if j :| Lost(downtime, es, n, j) {
      GoneUntilBrought(es, n, j);
    }
  }
}
