/** Calls and rounds that spare a content: they name neither it nor its key. */
module Sparing {
  import opened Types
  import opened ReplicaQueue
  import opened VolumeSpec
  import opened VolumeInvariant
  import opened VolumeRuns
  import opened Cluster
  import opened ClusterRuns
  import opened Agreement
  import opened Untouched
  import opened Synchronizing

  /** The call names neither the content nor a key of it: it may create, overwrite, delete or expire anything else. */
  ghost predicate Spares(c: Nodes, op: ClusterOp, s: Signature) {
    match op
    case OnNode(n, o) =>
      n in c ==>
        (match o
         case Create(a) => !Stores(c[n], a) || (a.sig != s && Apart(c, a.key, s))
         case Delete(key) => KeyClear(c[n], key, s)
         case Expire(rows, _) => s in c[n].tables.files ==> s !in Flat(rows)
         case Synchronize(vid, _, _) => !TurnedOn(c[n], s, vid)
         case Restart => c[n].tables.replicas == []
         case NoteReplica(_, _, _) => true
         case Relist(_, _, _) => true)
    case Replicate(_, m, _) => Enabled(c, op) ==> NextReplica(c[m]).value.signature != s
  }

  // ---------------------------------------------------------------- Calls on one node

  lemma CreateSpared(c: Nodes, n: VolumeID, a: Request, s: Signature)
    requires n in c && Inv(c[n]) && Ordered(c[n].tables.replicas, c[n].lastKey)
    requires Stores(c[n], a) ==> a.sig != s && Apart(c, a.key, s)
    ensures SameNode(c[n], CreateFile(c[n], a).0, s)
    ensures forall w | Holds(c, w, s) && c[w].tables.files[s].keys != [] ::
              var k := c[w].tables.files[s].keys[0];
              KeyAt(c[n], k, s) ==> KeyAt(CreateFile(c[n], a).0, k, s)
  {
    hide CreateFile, EntriesFor, Inv, Ordered, Stores;
    var v := c[n];
    if Stores(v, a) {
      assert KeyClear(v, a.key, s);
      CreateApart(v, a, s);
      hide SameNode;
      forall w | Holds(c, w, s) && c[w].tables.files[s].keys != []
        ensures KeyAt(v, c[w].tables.files[s].keys[0], s) ==> KeyAt(CreateFile(v, a).0, c[w].tables.files[s].keys[0], s)
      {
        assert KeyClear(c[w], a.key, s);
        if KeyAt(v, c[w].tables.files[s].keys[0], s) {
          CreateKeyAt(v, a, c[w].tables.files[s].keys[0], s);
        }
      }
    } else {
      NotStored(v, a);
    }
  }

  /** What a call that spares the content leaves of it on its node. */
  lemma NodeSpared(sha: Bytes -> string, contents: set<Bytes>, c: Nodes, n: VolumeID, o: Op, s: Signature)
    requires Good(sha, contents, c) && Ahead(c) && n in c
    requires Spares(c, OnNode(n, o), s) && !o.NoteReplica? && !o.Relist?
    ensures SameNode(c[n], Perform(c[n], o).0, s)
    ensures forall w | Holds(c, w, s) && c[w].tables.files[s].keys != [] ::
              var k := c[w].tables.files[s].keys[0];
              KeyAt(c[n], k, s) ==> KeyAt(Perform(c[n], o).0, k, s)
  {
    hide Honest, CreateFile, DeleteFile, Sweep, SynchronizeReplicas, EntriesFor, Flat, Stores, TurnedOn;
    var v := c[n];
    match o
    case Create(a) => CreateSpared(c, n, a, s);
    case Delete(key) =>
      DeleteApart(v, key, s);
      forall k | KeyAt(v, k, s)
        ensures KeyAt(DeleteFile(v, key).0, k, s)
      {
        DeleteKeyAt(v, key, k, s);
      }
    case Expire(rows, spare) => SweepApart(v, rows, spare, s);
    case Synchronize(vid, uuids, ticks) =>
      SyncApart(v, vid, uuids, ticks, s);
      forall k | KeyAt(v, k, s)
        ensures KeyAt(SynchronizeReplicas(v, vid, uuids, ticks).0, k, s)
      {
        SyncKeyAt(v, vid, uuids, ticks, k, s);
      }
    case Restart =>
  }

  /** A request that does not change the tables changes at most a content on disk. */
  lemma NotStored(v: Vol, a: Request)
    requires !Stores(v, a)
    ensures CreateFile(v, a).0 == v.(blobs := CreateFile(v, a).0.blobs)
  {
  }

  lemma OneNodeSameOn(c: Nodes, n: VolumeID, v: Vol, s: Signature)
    requires n in c && SameNode(c[n], v, s)
    ensures SameOn(c, c[n := v], s)
  {
    hide EntriesFor;
  }

  // ---------------------------------------------------------------- Steps of the cluster

  /** All holders have the content under the one key `k`, which means nothing else anywhere. */
  ghost predicate Keyed(c: Nodes, k: Key, s: Signature) {
    KeyMeans(c, k, s) && forall w | Holds(c, w, s) :: c[w].tables.files[s].keys == [k]
  }

  /** A step that spares the content changes nothing that any node knows of it. */
  lemma StepSpared(sha: Bytes -> string, contents: set<Bytes>, c: Nodes, op: ClusterOp, k: Key, s: Signature)
    requires CollisionFree(sha, contents) && OpDigested(sha, contents, op)
    requires Good(sha, contents, c) && Ahead(c) && Keyed(c, k, s) && Spares(c, op, s)
    requires exists w :: Holds(c, w, s)
    ensures SameOn(c, ClusterStep(c, op), s) && Keyed(ClusterStep(c, op), k, s)
  {
    hide Good, Ahead, Perform, SameNode, Round, KeyAt, Apart;
    var c' := ClusterStep(c, op);
    if !Enabled(c, op) {
      KeptSame(c, k, s);
    } else {
      match op {
        case OnNode(n, o) =>
          NodeSpared(sha, contents, c, n, o, s);
          var w :| Holds(c, w, s);
          assert c[w].tables.files[s].keys[0] == k;
          OneNodeKept(c, n, Perform(c[n], o).0, k, s);
        case Replicate(env, m, targets) =>
          OtherEntry(c, m, k, s);
          RoundApart(contents, c, env, m, targets, k, s);
      }
    }
    SameHolds(c, c', s);
  }

  /** An entry for another content has another key. */
  lemma OtherEntry(c: Nodes, m: VolumeID, k: Key, s: Signature)
    requires Keyed(c, k, s) && m in c && NextReplica(c[m]).Some? && NextReplica(c[m]).value.signature != s
    ensures NextReplica(c[m]).value.key != k && Apart(c, NextReplica(c[m]).value.key, s)
  {
    var rp := NextReplica(c[m]).value;
    assert rp in c[m].tables.replicas && KeyAt(c[m], k, s);
    forall w | w in c
      ensures KeyClear(c[w], rp.key, s)
    {
      assert Holds(c, w, s) ==> c[w].tables.files[s].keys == [k];
    }
  }
}
