/** Replication comes to its end: with enough reachable nodes and room, every content gets the copies it wants. */
module Completion {
  import opened Types
  import opened Records
  import opened ReplicaQueue
  import opened VolumeSpec
  import opened VolumeInvariant
  import opened VolumeRuns
  import opened Cluster
  import opened ClusterRuns
  import opened RoundCalls
  import opened Rounds
  import opened Agreement
  import opened AgreementRuns

  // ---------------------------------------------------------------- When nothing is pending

  lemma TotalAtLeast(c: Nodes, w: VolumeID)
    requires w in c && c[w].tables.replicas != []
    ensures Total(c) >= 1
  {
    TotalTake(c, w);
  }

  lemma {:induction false} TotalZero(c: Nodes)
    requires forall w | w in c :: c[w].tables.replicas == []
    ensures Total(c) == 0
    decreases |c|
  {
    if c != map[] {
      var w :| w in c && Total(c) == Weight(c[w].tables.replicas) + Total(c - {w});
      TotalZero(c - {w});
    }
  }

  /** All holders of the content are as many as it wants, at least the one that has it. */
  ghost predicate Complete(c: Nodes, s: Signature) {
    forall w | Holds(c, w, s) ::
      var f := c[w].tables.files[s];
      && NoDup(f.volumeIDs) && (forall u :: u in f.volumeIDs <==> Holds(c, u, s))
      && |f.volumeIDs| == if f.replica >= 1 then f.replica else 1
  }

  lemma PendingIncomplete(c: Nodes, accepts: set<VolumeID>, m: VolumeID, e: Replica)
    requires m in c && e in c[m].tables.replicas && AgreedOn(c, accepts, e.signature)
    ensures !Complete(c, e.signature)
  {
    assert e in EntriesFor(c[m].tables.replicas, e.signature) && QueueOn(c, m, e.signature) && GoodEntry(c, m, e);
  }

  lemma IdleComplete(c: Nodes, accepts: set<VolumeID>, s: Signature)
    requires AgreedOn(c, accepts, s) && forall w | w in c :: c[w].tables.replicas == []
    ensures Complete(c, s)
  {
    hide AgreedOn;
    NoEntries(s);
    forall w | Holds(c, w, s)
      ensures var f := c[w].tables.files[s];
              && NoDup(f.volumeIDs) && (forall u :: u in f.volumeIDs <==> Holds(c, u, s))
              && |f.volumeIDs| == if f.replica >= 1 then f.replica else 1
    {
      AgreedLists(c, accepts, w, w, s);
    }
  }

  /** In an agreed cluster nothing is pending exactly when every content has as many holders as it wants. */
  lemma DrainedExactly(c: Nodes, accepts: set<VolumeID>)
    requires Agreed(c, accepts)
    ensures Total(c) == 0 <==> forall s :: Complete(c, s)
  {
    hide AgreedOn, Complete;
    if Total(c) == 0 {
      forall w | w in c
        ensures c[w].tables.replicas == []
      {
        if c[w].tables.replicas != [] {
          TotalAtLeast(c, w);
        }
      }
      forall s
        ensures Complete(c, s)
      {
        IdleComplete(c, accepts, s);
      }
    } else {
      if forall w | w in c :: c[w].tables.replicas == [] {
        TotalZero(c);
      } else {
        var w :| w in c && c[w].tables.replicas != [];
        PendingIncomplete(c, accepts, w, c[w].tables.replicas[0]);
      }
    }
  }

  // ---------------------------------------------------------------- Enough nodes, and room on them

  /** The nodes that answer and take replicas. */
  ghost function Usable(c: Nodes, accepts: set<VolumeID>, down: set<VolumeID>): set<VolumeID> {
    set n | n in c && n in accepts && n !in down
  }

  /** The entry can be served: its holders answer, enough nodes take replicas, and its content is no longer than `b`. */
  ghost predicate Servable(c: Nodes, accepts: set<VolumeID>, down: set<VolumeID>, b: nat, m: VolumeID, e: Replica)
    requires m in c
  {
    && HoldersUp(e, m, down) && e.originalCount <= |Usable(c, accepts, down) + {m}|
    && (GetFile(c[m], e.key).Some? ==> |GetFile(c[m], e.key).value| <= b)
  }

  /** All entries can be served, and every usable node has room for all that is pending. */
  ghost predicate Provisioned(c: Nodes, accepts: set<VolumeID>, down: set<VolumeID>, b: nat) {
    && (forall m, e | m in c && e in c[m].tables.replicas :: Servable(c, accepts, down, b, m, e))
    && (forall n | n in Usable(c, accepts, down) ::
          UsedSize(c[n].tables.state) + Total(c) * b <= TotalSize(c[n].tables.state))
  }

  lemma SubsetSize<T>(a: set<T>, b: set<T>)
    requires a <= b
    ensures |a| <= |b|
  {
    assert b == a + (b - a);
  }

  lemma {:induction false} MembersSize(s: seq<VolumeID>)
    ensures |set x | x in s| <= |s|
  {
    if s != [] {
      MembersSize(s[1..]);
      assert (set x | x in s) == {s[0]} + set x | x in s[1..];
    }
  }

  /** Fewer listed nodes than usable ones: some usable node is not listed. */
  lemma FreeNode(vids: seq<VolumeID>, nodes: set<VolumeID>) returns (n: VolumeID)
    requires |vids| < |nodes|
    ensures n in nodes && n !in vids
  {
    MembersSize(vids);
    var members := set x | x in vids;
    if nodes <= members {
      SubsetSize(nodes, members);
      assert false;
    }
    n :| n in nodes && n !in members;
  }

  lemma RoomForOne(total: nat, b: nat, size: nat)
    requires total >= 1 && size <= b
    ensures size + (total - 1) * b <= total * b && size <= total * b
  {
    assert total * b == (total - 1) * b + b && (total - 1) * b >= 0;
  }

  /** The next entry of a provisioned cluster finds a node that takes the copy. */
  lemma Taker(contents: set<Bytes>, c: Nodes, env: Env, m: VolumeID, b: nat) returns (n: VolumeID)
    requires Good(env.sha, contents, c) && Agreed(c, env.accepts) && Provisioned(c, env.accepts, env.down, b)
    requires m in c && NextReplica(c[m]).Some?
    ensures n != m && n in c && n !in NextReplica(c[m]).value.volumeIDs
    ensures Takes(c, env, m, NextReplica(c[m]).value, n) && Notable(c[m], NextReplica(c[m]).value)
  {
    hide AgreedOn, Honest, Inv, Ready, Listed, GoodEntry;
    var e := NextReplica(c[m]).value;
    HeadEntry(c, env.accepts, m);
    AgreedReady(env.sha, contents, c, env.accepts, m, e);
    ReadyNotable(env.sha, contents, c, env.accepts, m, e);
    ReadyHolders(env.sha, contents, c, env.accepts, m, e);
    assert e in c[m].tables.replicas && Servable(c, env.accepts, env.down, b, m, e);
    n := FreeNode(e.volumeIDs, Usable(c, env.accepts, env.down) + {m});
    TargetOpen(env.sha, contents, c, env.accepts, m, e, n);
    TotalAtLeast(c, m);
    RoomForOne(Total(c), b, |GetFile(c[m], e.key).value|);
  }

  /** A ready entry can be read, and lists fewer nodes than it wants, its own among them. */
  lemma ReadyHolders(sha: Bytes -> string, contents: set<Bytes>, c: Nodes, accepts: set<VolumeID>, m: VolumeID, e: Replica)
    requires Good(sha, contents, c) && Ready(c, accepts, m, e) && m in c
    ensures m in e.volumeIDs && |e.volumeIDs| < e.originalCount && GetFile(c[m], e.key).Some?
  {
    assert Listed(c, accepts, m, e, m);
  }

  // ---------------------------------------------------------------- What a round uses

  /** Until the copy is stored nothing is used; after that its key is bound, and its size is what is used. */
  ghost predicate UsedOnce(v: Vol, v': Vol, key: Key, read: Option<Bytes>) {
    || v'.tables.state == v.tables.state
    || (key in v'.tables.idxkeys && read.Some? && v'.tables.state == Used(v.tables.state, |read.value|))
  }

  lemma CopyUses(v: Vol, a: Request)
    requires Inv(v)
    ensures var t' := CreateFile(v, a).0.tables;
            t'.state == v.tables.state || (a.key in t'.idxkeys && t'.state == Used(v.tables.state, |a.content|))
  {
    if Stores(v, a) {
      CreateShape(v.tables, v.id, v.lastKey, a);
      StoredOutcome(v, a);
      hide CreateFile, CreateTables;
    }
  }

  lemma CallUses(v0: Vol, v: Vol, o: Op, env: Env, rp: Replica, read: Option<Bytes>)
    requires Inv(v) && UsedOnce(v0, v, rp.key, read) && RoundCall(v, o, env, rp, read)
    ensures UsedOnce(v0, Perform(v, o).0, rp.key, read)
  {
    hide Inv, CreateFile, UpdateReplica, UpdateFileReplica;
    match o
    case Create(a) => CopyUses(v, a);
    case Relist(key, vids, replica) => UpdateFileReplicaSame(v, key, vids, replica);
    case NoteReplica(e, vid, tick) => UpdateReplicaSame(v, e, vid, tick);
  }

  lemma {:induction false} CallsUse(contents: set<Bytes>, v: Vol, ops: seq<Op>, env: Env, rp: Replica, read: Option<Bytes>)
    requires CollisionFree(env.sha, contents) && Inv(v) && Honest(env.sha, contents, v)
    requires AllRoundCalls(v, ops, env, rp, read) && (read.Some? ==> read.value in contents)
    ensures UsedOnce(v, Run(v, ops), rp.key, read)
    decreases |ops|
  {
    hide Inv, Honest, Perform, CollisionFree, UsedOnce;
    if ops != [] {
      var n := |ops| - 1;
      forall i | 0 <= i < n
        ensures RoundCall(Run(v, ops[..n][..i]), ops[..n][i], env, rp, read)
      {
        assert ops[..n][..i] == ops[..i];
      }
      CallsUse(contents, v, ops[..n], env, rp, read);
      RoundCallsKeep(contents, v, ops[..n], env, rp, read);
      CallUses(v, Run(v, ops[..n]), ops[n], env, rp, read);
    } else {
      assert UsedOnce(v, v, rp.key, read) by { NothingUsed(v, rp.key, read); }
    }
  }

  lemma NothingUsed(v: Vol, key: Key, read: Option<Bytes>)
    ensures UsedOnce(v, v, key, read)
  {
  }

  /** A round uses room for at most one copy on each node. */
  lemma RoundUses(contents: set<Bytes>, c: Nodes, env: Env, m: VolumeID, targets: seq<VolumeID>, w: VolumeID)
    requires CollisionFree(env.sha, contents) && Good(env.sha, contents, c) && m in c && w in c
    requires NextReplica(c[m]).Some? && forall i | 0 <= i < |targets| :: targets[i] in c && targets[i] != m
    ensures var e := NextReplica(c[m]).value;
            UsedOnce(c[w], Round(c, env, m, targets).0[w], e.key, GetFile(c[m], e.key))
  {
    hide Inv, Run, Round, AllRoundCalls, UsedOnce;
    var ops := RoundIsCalls(c, env, m, targets, w);
    CallsUse(contents, c[w], ops, env, NextReplica(c[m]).value, GetFile(c[m], NextReplica(c[m]).value.key));
  }

  // ---------------------------------------------------------------- One round of a provisioned cluster

  lemma StaysServable(contents: set<Bytes>, c: Nodes, env: Env, b: nat, m: VolumeID, targets: seq<VolumeID>, w: VolumeID,
                      e': Replica)
    requires CollisionFree(env.sha, contents) && Good(env.sha, contents, c) && Ahead(c) && Agreed(c, env.accepts)
    requires Provisioned(c, env.accepts, env.down, b)
    requires m in c && NextReplica(c[m]).Some? && Targets(c, m, NextReplica(c[m]).value.volumeIDs, targets)
    requires Round(c, env, m, targets).1.Some?
    requires w in c && e' in Round(c, env, m, targets).0[w].tables.replicas
    ensures Servable(Round(c, env, m, targets).0, env.accepts, env.down, b, w, e')
  {
    hide Round, Good, Joined, Before, Ordered, AgreedOn, CollisionFree, GetFile;
    var (c', n) := Round(c, env, m, targets);
    var rp := NextReplica(c[m]).value;
    RoundEffect(contents, c, env, m, targets);
    NodesNamed(env.sha, contents, c);
    JoinedQueue(c, c', m, n.value, rp, env.down, env.tick, w);
    var e := if e' in c[w].tables.replicas then e' else rp;
    assert e in c[w].tables.replicas && Servable(c, env.accepts, env.down, b, w, e) && e'.key == e.key;
    EntryReads(env.sha, contents, c, env.accepts, w, e);
    RoundOnlyAdds(contents, c, env, m, targets, w, e.key);
    assert Usable(c', env.accepts, env.down) == Usable(c, env.accepts, env.down);
    assert HoldersUp(e', w, env.down);
  }

  lemma NodesNamed(sha: Bytes -> string, contents: set<Bytes>, c: Nodes)
    requires Good(sha, contents, c)
    ensures forall w | w in c :: c[w].id == w
  {
  }

  /** Under agreement a node can read the contents of its entries. */
  lemma EntryReads(sha: Bytes -> string, contents: set<Bytes>, c: Nodes, accepts: set<VolumeID>, w: VolumeID, e: Replica)
    requires Good(sha, contents, c) && AgreedOn(c, accepts, e.signature) && w in c && e in c[w].tables.replicas
    ensures GetFile(c[w], e.key).Some?
  {
    hide Honest, RecordsOn, EntriesFor, IndexOn, GoodRecords, ReverseIndexed, Quota, Sorted;
    assert e in EntriesFor(c[w].tables.replicas, e.signature) && QueueOn(c, w, e.signature) && GoodEntry(c, w, e);
    hide AgreedOn;
    assert e.key in c[w].tables.files[e.signature].keys;
  }

  lemma UsableRoom(state: StateRow, state': StateRow, total: nat, b: nat, size: nat)
    requires total >= 1 && size <= b && UsedSize(state) + total * b <= TotalSize(state)
    requires state' == state || state' == Used(state, size)
    ensures UsedSize(state') + (total - 1) * b <= TotalSize(state')
  {
    RoomForOne(total, b, size);
  }

  /**
   * In an agreed and provisioned cluster every round of a node with a pending entry succeeds, whatever the order of its
   * targets, uses up one unit of the pending work, and leaves the cluster agreed and provisioned.
   */
  lemma ProvisionedRound(contents: set<Bytes>, c: Nodes, env: Env, m: VolumeID, targets: seq<VolumeID>, b: nat)
    requires CollisionFree(env.sha, contents) && Good(env.sha, contents, c) && Ahead(c) && Agreed(c, env.accepts)
    requires Provisioned(c, env.accepts, env.down, b)
    requires m in c && NextReplica(c[m]).Some? && Targets(c, m, NextReplica(c[m]).value.volumeIDs, targets)
    ensures var (c', n) := Round(c, env, m, targets);
            && n.Some? && Total(c) >= 1 && Total(c') == Total(c) - 1
            && Good(env.sha, contents, c') && Ahead(c') && Agreed(c', env.accepts)
            && Provisioned(c', env.accepts, env.down, b)
  {
    hide Round, Good, Ahead, Agreed, CollisionFree, Servable, Sorted, GetFile, Provisioned, Targets;
    TargetsIn(c, m, NextReplica(c[m]).value.volumeIDs, targets);
    var c' := Round(c, env, m, targets).0;
    RoundGoes(contents, c, env, m, targets, b);
    RoundAdds(env.sha, contents, c, env, m, targets);
    RoundAhead(c, env, m, targets);
    RoundAgreedExactly(contents, c, env, m, targets);
    assert Provisioned(c', env.accepts, env.down, b) by {
      StaysProvisioned(contents, c, env, m, targets, b);
    }
  }

  lemma TargetsIn(c: Nodes, m: VolumeID, vids: seq<VolumeID>, targets: seq<VolumeID>)
    requires Targets(c, m, vids, targets)
    ensures forall i | 0 <= i < |targets| :: targets[i] in c && targets[i] != m
  {
  }

  lemma RoundAdds(sha: Bytes -> string, contents: set<Bytes>, c: Nodes, env: Env, m: VolumeID, targets: seq<VolumeID>)
    requires CollisionFree(sha, contents) && Good(sha, contents, c) && m in c && env.sha == sha
    requires forall i | 0 <= i < |targets| :: targets[i] in c
    ensures Good(sha, contents, Round(c, env, m, targets).0)
  {
    hide Good, Round;
    RoundOnlyAdds(contents, c, env, m, targets, m, "");
  }

  /** The round succeeds, with its holders up, and uses up one unit of the pending work. */
  lemma RoundGoes(contents: set<Bytes>, c: Nodes, env: Env, m: VolumeID, targets: seq<VolumeID>, b: nat)
    requires Good(env.sha, contents, c) && Ahead(c) && Agreed(c, env.accepts) && Provisioned(c, env.accepts, env.down, b)
    requires m in c && NextReplica(c[m]).Some? && Targets(c, m, NextReplica(c[m]).value.volumeIDs, targets)
    ensures var (c', n) := Round(c, env, m, targets);
            n.Some? && Total(c) >= 1 && Total(c') == Total(c) - 1
    ensures var e := NextReplica(c[m]).value;
            HoldersUp(e, m, env.down) && (GetFile(c[m], e.key).Some? ==> |GetFile(c[m], e.key).value| <= b)
  {
    hide Round, Good, Agreed, Takes, Notable, Servable, Sorted, GetFile;
    var e := NextReplica(c[m]).value;
    var n := Taker(contents, c, env, m, b);
    var i :| 0 <= i < |targets| && targets[i] == n;
    RoundSucceedsExactly(c, env, m, targets);
    SortedAt(env.sha, contents, c, m);
    TotalAtLeast(c, m);
    RoundWork(c, env, m, targets);
    assert e in c[m].tables.replicas && Servable(c, env.accepts, env.down, b, m, e);
    ServableHolders(c, env.accepts, env.down, b, m, e);
  }

  lemma StaysProvisioned(contents: set<Bytes>, c: Nodes, env: Env, m: VolumeID, targets: seq<VolumeID>, b: nat)
    requires CollisionFree(env.sha, contents) && Good(env.sha, contents, c) && Ahead(c) && Agreed(c, env.accepts)
    requires Provisioned(c, env.accepts, env.down, b)
    requires m in c && NextReplica(c[m]).Some? && Targets(c, m, NextReplica(c[m]).value.volumeIDs, targets)
    ensures Provisioned(Round(c, env, m, targets).0, env.accepts, env.down, b)
  {
    hide Round, Good, Ahead, Agreed, CollisionFree, Servable, Sorted, GetFile, Total;
    var c' := Round(c, env, m, targets).0;
    RoundGoes(contents, c, env, m, targets, b);
    forall w, e' | w in c' && e' in c'[w].tables.replicas
      ensures Servable(c', env.accepts, env.down, b, w, e')
    {
      StaysServable(contents, c, env, b, m, targets, w, e');
    }
    forall w | w in Usable(c', env.accepts, env.down)
      ensures UsedSize(c'[w].tables.state) + Total(c') * b <= TotalSize(c'[w].tables.state)
    {
      assert w in Usable(c, env.accepts, env.down);
      RoundRoom(contents, c, env, m, targets, w, b);
    }
  }

  lemma RoundRoom(contents: set<Bytes>, c: Nodes, env: Env, m: VolumeID, targets: seq<VolumeID>, w: VolumeID, b: nat)
    requires CollisionFree(env.sha, contents) && Good(env.sha, contents, c) && m in c && w in c && Total(c) >= 1
    requires NextReplica(c[m]).Some? && forall i | 0 <= i < |targets| :: targets[i] in c && targets[i] != m
    requires var read := GetFile(c[m], NextReplica(c[m]).value.key); read.Some? ==> |read.value| <= b
    requires UsedSize(c[w].tables.state) + Total(c) * b <= TotalSize(c[w].tables.state)
    ensures var state' := Round(c, env, m, targets).0[w].tables.state;
            UsedSize(state') + (Total(c) - 1) * b <= TotalSize(state')
  {
    hide Round, Good, CollisionFree, GetFile, UsedSize, TotalSize;
    RoundUses(contents, c, env, m, targets, w);
    var read := GetFile(c[m], NextReplica(c[m]).value.key);
    UsableRoom(c[w].tables.state, Round(c, env, m, targets).0[w].tables.state, Total(c), b,
               if read.Some? then |read.value| else 0);
  }

  lemma ServableHolders(c: Nodes, accepts: set<VolumeID>, down: set<VolumeID>, b: nat, m: VolumeID, e: Replica)
    requires m in c && Servable(c, accepts, down, b, m, e)
    ensures HoldersUp(e, m, down) && (GetFile(c[m], e.key).Some? ==> |GetFile(c[m], e.key).value| <= b)
  {
  }

  lemma SortedAt(sha: Bytes -> string, contents: set<Bytes>, c: Nodes, m: VolumeID)
    requires Good(sha, contents, c) && m in c
    ensures Sorted(c[m].tables.replicas)
  {
  }

  // ---------------------------------------------------------------- Runs of rounds

  /** Rounds of nodes that have something pending, under the same nodes that answer and take replicas. */
  ghost predicate Working(c: Nodes, accepts: set<VolumeID>, down: set<VolumeID>, ops: seq<ClusterOp>) {
    forall i | 0 <= i < |ops| ::
      && ops[i].Replicate? && ops[i].env.accepts == accepts && ops[i].env.down == down
      && Enabled(ClusterRun(c, ops[..i]), ops[i])
  }

  /** Every one of the rounds succeeds, and uses up one unit of the pending work. */
  lemma {:induction false} RoundsSucceed(sha: Bytes -> string, contents: set<Bytes>, c: Nodes, accepts: set<VolumeID>,
                                         down: set<VolumeID>, ops: seq<ClusterOp>, b: nat)
    requires CollisionFree(sha, contents) && OpsDigested(sha, contents, ops) && Good(sha, contents, c) && Ahead(c)
    requires Agreed(c, accepts) && Provisioned(c, accepts, down, b) && Working(c, accepts, down, ops)
    ensures var c' := ClusterRun(c, ops);
            && Successes(c, ops) == |ops| <= Total(c) && Total(c') == Total(c) - |ops|
            && Good(sha, contents, c') && Ahead(c') && Agreed(c', accepts) && Provisioned(c', accepts, down, b)
    decreases |ops|
  {
    hide Good, Ahead, Agreed, Provisioned, CollisionFree, Enabled, Succeeds, ClusterStep, Total;
    if ops != [] {
      var k := |ops| - 1;
      assert OpsDigested(sha, contents, ops[..k]);
      assert Working(c, accepts, down, ops[..k]) by {
        forall i | 0 <= i < k
          ensures Enabled(ClusterRun(c, ops[..k][..i]), ops[..k][i])
        {
          assert ops[..k][..i] == ops[..i];
        }
      }
      RoundsSucceed(sha, contents, c, accepts, down, ops[..k], b);
      WorkingStep(sha, contents, ClusterRun(c, ops[..k]), accepts, down, ops[k], b);
    }
  }

  lemma WorkingStep(sha: Bytes -> string, contents: set<Bytes>, c: Nodes, accepts: set<VolumeID>, down: set<VolumeID>,
                    op: ClusterOp, b: nat)
    requires CollisionFree(sha, contents) && OpDigested(sha, contents, op) && Good(sha, contents, c) && Ahead(c)
    requires Agreed(c, accepts) && Provisioned(c, accepts, down, b)
    requires op.Replicate? && op.env.accepts == accepts && op.env.down == down && Enabled(c, op)
    ensures var c' := ClusterStep(c, op);
            && Succeeds(c, op) && Total(c) >= 1 && Total(c') == Total(c) - 1
            && Good(sha, contents, c') && Ahead(c') && Agreed(c', accepts) && Provisioned(c', accepts, down, b)
  {
    hide Good, Ahead, Agreed, Provisioned, CollisionFree, Round, Total;
    ProvisionedRound(contents, c, op.env, op.m, op.targets, b);
  }

  /**
   * However the nodes take turns, every round succeeds, there are at most `Total(c)` of them, and it takes just that many
   * until every content has as many holders as it wants.
   */
  lemma RoundsComplete(sha: Bytes -> string, contents: set<Bytes>, c: Nodes, accepts: set<VolumeID>,
                       down: set<VolumeID>, ops: seq<ClusterOp>, b: nat)
    requires CollisionFree(sha, contents) && OpsDigested(sha, contents, ops) && Good(sha, contents, c) && Ahead(c)
    requires Agreed(c, accepts) && Provisioned(c, accepts, down, b) && Working(c, accepts, down, ops)
    ensures Successes(c, ops) == |ops| <= Total(c) && Agreed(ClusterRun(c, ops), accepts)
    ensures |ops| == Total(c) <==> forall s :: Complete(ClusterRun(c, ops), s)
  {
    hide Good, Ahead, Agreed, Provisioned, Complete, CollisionFree, Working, Total, Successes, ClusterRun;
    RoundsSucceed(sha, contents, c, accepts, down, ops, b);
    DrainedExactly(ClusterRun(c, ops), accepts);
  }

  lemma {:induction false} Listing(nodes: set<VolumeID>) returns (s: seq<VolumeID>)
    ensures NoDup(s) && forall n :: n in s <==> n in nodes
    decreases nodes
  {
    if nodes == {} {
      s := [];
    } else {
      var n :| n in nodes;
      var rest := Listing(nodes - {n});
      NoDupSnoc(rest, n);
      s := rest + [n];
    }
  }

  /** While something is pending, some node has a round to run. */
  lemma SomeRound(c: Nodes, env: Env) returns (op: ClusterOp)
    requires Total(c) >= 1
    ensures op.Replicate? && op.env == env && Enabled(c, op)
  {
    if forall w | w in c :: c[w].tables.replicas == [] {
      TotalZero(c);
    }
    var m :| m in c && c[m].tables.replicas != [];
    var vids := NextReplica(c[m]).value.volumeIDs;
    var targets := Listing(set n | n in c && n != m && n !in vids);
    assert forall i | 0 <= i < |targets| :: targets[i] in targets;
    op := Replicate(env, m, targets);
  }

  /** An agreed and provisioned cluster can always be brought to an end: there is a run after which nothing is missing. */
  lemma {:induction false} Drains(contents: set<Bytes>, c: Nodes, env: Env, b: nat, k: nat) returns (ops: seq<ClusterOp>)
    requires CollisionFree(env.sha, contents) && Good(env.sha, contents, c) && Ahead(c) && Agreed(c, env.accepts)
    requires Provisioned(c, env.accepts, env.down, b) && k <= Total(c)
    ensures |ops| == k && OpsDigested(env.sha, contents, ops) && Working(c, env.accepts, env.down, ops)
    ensures k == Total(c) ==> forall s :: Complete(ClusterRun(c, ops), s)
    decreases k
  {
    hide Good, Ahead, Agreed, Provisioned, Complete, CollisionFree, Enabled, Total, Successes;
    ops := [];
    if k > 0 {
      var first := Drains(contents, c, env, b, k - 1);
      RoundsSucceed(env.sha, contents, c, env.accepts, env.down, first, b);
      var op := SomeRound(ClusterRun(c, first), env);
      ops := first + [op];
      assert Working(c, env.accepts, env.down, ops) by {
        forall i | 0 <= i < k
          ensures ops[i].Replicate? && ops[i].env.accepts == env.accepts && ops[i].env.down == env.down
          ensures Enabled(ClusterRun(c, ops[..i]), ops[i])
        {
          assert ops[..i] == first[..i];
          assert i == k - 1 ==> first[..i] == first;
        }
      }
    }
    RoundsComplete(env.sha, contents, c, env.accepts, env.down, ops, b);
  }
}
