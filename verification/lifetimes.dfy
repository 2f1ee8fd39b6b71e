/** How long contents and their copies are kept: lifetimes, expiry rows, and what the sweep finds. */
module Lifetimes {
  import opened Types
  import opened VolumeSpec
  import opened VolumeInvariant
  import opened VolumeRuns
  import opened Cluster
  import opened ClusterRuns
  import opened RoundCalls
  import opened Untouched
  import opened Records
  import TtlSweep

  // ---------------------------------------------------------------- What a round makes of lifetimes

  /**
   * Since `v` the content `s` has kept its lifetime and time of creation, or got those of the entry; an entry without a
   * lifetime left the expiry rows alone.
   */
  ghost predicate Aged(v: Vol, v': Vol, s: Signature, rp: Replica, now: int) {
    && (s in v.tables.files ==>
          s in v'.tables.files && v'.tables.files[s].ttl == v.tables.files[s].ttl &&
          v'.tables.files[s].createdAt == v.tables.files[s].createdAt)
    && (s !in v.tables.files && s in v'.tables.files ==>
          v'.tables.files[s].ttl == rp.ttl &&
          v'.tables.files[s].createdAt == if rp.createdAt == ZERO_TIME then now else rp.createdAt)
    && (rp.ttl == NO_TTL ==> v'.tables.idxttls == v.tables.idxttls)
  }

  lemma NoLifetime(t: Tables, id: VolumeID, lastKey: nat, a: Request)
    requires a.ttl == NO_TTL
    ensures CreateTables(t, id, lastKey, a).0.idxttls == t.idxttls
  {
  }

  lemma CopyAged(v: Vol, a: Request, env: Env, rp: Replica, content: Bytes, s: Signature)
    requires Inv(v) && a == CopyRequest(env, rp, content) && a.key !in v.tables.idxkeys
    ensures Aged(v, CreateFile(v, a).0, s, rp, env.now)
  {
    if Stores(v, a) {
      CreateShape(v.tables, v.id, v.lastKey, a);
      FreedShape(v.tables, a.key);
      StoredOutcome(v, a);
      if rp.ttl == NO_TTL {
        NoLifetime(v.tables, v.id, v.lastKey, a);
      }
      hide CreateFile, CreateTables, Freed, Inv, WithRecord, LastKeyOf;
    }
  }

  lemma CallAged(v: Vol, o: Op, env: Env, rp: Replica, read: Option<Bytes>, s: Signature)
    requires Inv(v) && RoundCall(v, o, env, rp, read)
    ensures Aged(v, Perform(v, o).0, s, rp, env.now)
  {
    hide Inv, CreateFile, IndexedAll, Indexed;
    match o
    case Create(a) => CopyAged(v, a, env, rp, read.value, s);
    case Relist(key, vids, replica) => UpdateFileReplicaSame(v, key, vids, replica);
    case NoteReplica(e, vid, tick) => UpdateReplicaSame(v, e, vid, tick);
  }

  lemma {:induction false} CallsAged(contents: set<Bytes>, v: Vol, ops: seq<Op>, env: Env, rp: Replica,
                                     read: Option<Bytes>, s: Signature)
    requires CollisionFree(env.sha, contents) && Inv(v) && Honest(env.sha, contents, v)
    requires AllRoundCalls(v, ops, env, rp, read) && (read.Some? ==> read.value in contents)
    ensures Aged(v, Run(v, ops), s, rp, env.now)
    decreases |ops|
  {
    hide Inv, Honest, Perform, CollisionFree;
    if ops != [] {
      var n := |ops| - 1;
      forall i | 0 <= i < n
        ensures RoundCall(Run(v, ops[..n][..i]), ops[..n][i], env, rp, read)
      {
        assert ops[..n][..i] == ops[..i];
      }
      CallsAged(contents, v, ops[..n], env, rp, read, s);
      RoundCallsKeep(contents, v, ops[..n], env, rp, read);
      CallAged(Run(v, ops[..n]), ops[n], env, rp, read, s);
    }
  }

  /**
   * Whatever its entry is worth, a round gives no content another lifetime: those that were stored keep theirs, and each
   * new copy has that of the entry, counted from the time of the entry or, where it has none, from the round.
   */
  lemma RoundLifetimes(contents: set<Bytes>, c: Nodes, env: Env, m: VolumeID, targets: seq<VolumeID>, w: VolumeID,
                       s: Signature)
    requires CollisionFree(env.sha, contents) && Good(env.sha, contents, c) && m in c && w in c
    requires NextReplica(c[m]).Some? && forall i | 0 <= i < |targets| :: targets[i] in c && targets[i] != m
    ensures Aged(c[w], Round(c, env, m, targets).0[w], s, NextReplica(c[m]).value, env.now)
  {
    hide Inv, Run, Round, AllRoundCalls, Aged;
    var ops := RoundIsCalls(c, env, m, targets, w);
    CallsAged(contents, c[w], ops, env, NextReplica(c[m]).value, GetFile(c[m], NextReplica(c[m]).value.key), s);
  }

  // ---------------------------------------------------------------- Contents without a lifetime

  /** No expiry row names the content. */
  ghost predicate Unscheduled(v: Vol, s: Signature) {
    forall at | at in v.tables.idxttls :: s !in v.tables.idxttls[at]
  }

  /** The sweep goes over rows of the table. */
  ghost predicate StoredRows(v: Vol, rows: seq<seq<Signature>>) {
    forall i | 0 <= i < |rows| :: exists at :: at in v.tables.idxttls && v.tables.idxttls[at] == rows[i]
  }

  lemma {:induction false} InFlat(rows: seq<seq<Signature>>, s: Signature)
    ensures s in Flat(rows) <==> exists i :: 0 <= i < |rows| && s in rows[i]
  {
    if rows != [] {
      InFlat(rows[1..], s);
      assert forall i | 0 < i < |rows| :: rows[i] == rows[1..][i - 1];
      if i :| 0 <= i < |rows| - 1 && s in rows[1..][i] {
        assert s in rows[i + 1];
      }
    }
  }

  /** A sweep of stored rows names exactly what is scheduled: what no row names is never swept. */
  lemma SweepsScheduled(v: Vol, s: Signature)
    ensures Unscheduled(v, s) <==> forall rows | StoredRows(v, rows) :: s !in Flat(rows)
  {
    if Unscheduled(v, s) {
      forall rows | StoredRows(v, rows)
        ensures s !in Flat(rows)
      {
        InFlat(rows, s);
      }
    } else {
      var at :| at in v.tables.idxttls && s in v.tables.idxttls[at];
      var rows := [v.tables.idxttls[at]];
      InFlat(rows, s);
      assert s in rows[0] && StoredRows(v, rows);
    }
  }

  /** A stored request schedules its content exactly when it has a lifetime and its row takes the content. */
  lemma CreateSchedules(v: Vol, a: Request, s: Signature)
    requires Inv(v) && Unscheduled(v, s) && (Stores(v, a) && a.sig == s ==> a.ttl == NO_TTL)
    ensures Unscheduled(CreateFile(v, a).0, s)
  {
    hide Inv, Union, Second;
    if Stores(v, a) {
      StoredOutcome(v, a);
      if a.ttl == NO_TTL {
        NoLifetime(v.tables, v.id, v.lastKey, a);
      } else {
        assert StoredFile(v.tables, v.id, a).signature == a.sig by { StoredSignature(v, a); }
        ExpiryRow(v.tables, v.id, v.lastKey, a);
      }
      hide CreateFile, CreateTables, StoredFile;
    }
  }

  lemma StoredSignature(v: Vol, a: Request)
    requires Inv(v)
    ensures StoredFile(v.tables, v.id, a).signature == a.sig
  {
    assert a.sig in v.tables.files ==> GoodRecord(a.sig, v.tables.files[a.sig]);
  }

  /** The content is stored, without a lifetime, and no expiry row names it. */
  ghost predicate Lasting(v: Vol, s: Signature) {
    s in v.tables.files && v.tables.files[s].ttl == NO_TTL && Unscheduled(v, s)
  }

  /** The step gives the content no lifetime on `n`: neither a client's create nor a copy does. */
  ghost predicate Timeless(c: Nodes, op: ClusterOp, n: VolumeID, s: Signature) {
    match op
    case OnNode(w, o) => w == n && n in c && o.Create? && Stores(c[n], o.a) && o.a.sig == s ==> o.a.ttl == NO_TTL
    case Replicate(env, m, _) =>
      Enabled(c, op) ==>
        var e := NextReplica(c[m]).value;
        GetFile(c[m], e.key).Some? && env.sha(GetFile(c[m], e.key).value) == s ==> e.ttl == NO_TTL
  }

  /** No client takes a key from the content on `n`, and sweeps there go over stored rows. */
  ghost predicate Unhurt(c: Nodes, op: ClusterOp, n: VolumeID, s: Signature) {
    op.OnNode? && op.n == n && n in c ==>
      (match op.op
       case Create(a) => Stores(c[n], a) ==> KeyClear(c[n], a.key, s)
       case Delete(key) => KeyClear(c[n], key, s)
       case Expire(rows, _) => StoredRows(c[n], rows)
       case _ => true)
  }

  lemma CallUnscheduled(v: Vol, o: Op, s: Signature)
    requires Inv(v) && Unscheduled(v, s) && (o.Create? && Stores(v, o.a) && o.a.sig == s ==> o.a.ttl == NO_TTL)
    ensures Unscheduled(Perform(v, o).0, s)
  {
    hide CreateFile, Stores, IndexedAll, Indexed, SyncLoop;
    match o
    case Create(a) => CreateSchedules(v, a, s);
    case Delete(key) =>
    case NoteReplica(_, _, _) =>
    case Relist(_, _, _) =>
    case Synchronize(_, _, _) =>
    case Expire(rows, _) =>
      SizesOfBlobs(v);
      TtlSweep.SweepTablesExactly(v.tables, Flat(rows));
    case Restart =>
  }

  lemma {:induction false} CallsUnscheduled(contents: set<Bytes>, v: Vol, ops: seq<Op>, env: Env, rp: Replica,
                                            read: Option<Bytes>, s: Signature)
    requires CollisionFree(env.sha, contents) && Inv(v) && Honest(env.sha, contents, v) && Unscheduled(v, s)
    requires AllRoundCalls(v, ops, env, rp, read) && (read.Some? ==> read.value in contents)
    requires read.Some? && env.sha(read.value) == s ==> rp.ttl == NO_TTL
    ensures Unscheduled(Run(v, ops), s)
    decreases |ops|
  {
    hide Inv, Honest, Perform, CollisionFree, Unscheduled, Stores;
    if ops != [] {
      var n := |ops| - 1;
      forall i | 0 <= i < n
        ensures RoundCall(Run(v, ops[..n][..i]), ops[..n][i], env, rp, read)
      {
        assert ops[..n][..i] == ops[..i];
      }
      CallsUnscheduled(contents, v, ops[..n], env, rp, read, s);
      RoundCallsKeep(contents, v, ops[..n], env, rp, read);
      CallUnscheduled(Run(v, ops[..n]), ops[n], s);
    }
  }

  /** A step that gives no lifetime schedules nothing. */
  lemma StepUnscheduled(sha: Bytes -> string, contents: set<Bytes>, c: Nodes, op: ClusterOp, n: VolumeID, s: Signature)
    requires CollisionFree(sha, contents) && OpDigested(sha, contents, op) && Good(sha, contents, c) && n in c
    requires Unscheduled(c[n], s) && Timeless(c, op, n, s)
    ensures Unscheduled(ClusterStep(c, op)[n], s)
  {
    hide Inv, Perform, Round, Unscheduled, Run, AllRoundCalls, GetFile, Stores;
    if Enabled(c, op) {
      match op
      case OnNode(w, o) =>
        if w == n {
          CallUnscheduled(c[n], o, s);
        }
      case Replicate(env, m, targets) =>
        var rp := NextReplica(c[m]).value;
        var ops := RoundIsCalls(c, env, m, targets, n);
        if GetFile(c[m], rp.key).Some? {
          ReadInContents(sha, contents, c, m, rp.key);
        }
        CallsUnscheduled(contents, c[n], ops, env, rp, GetFile(c[m], rp.key), s);
    }
  }

  lemma ReadInContents(sha: Bytes -> string, contents: set<Bytes>, c: Nodes, m: VolumeID, key: Key)
    requires Good(sha, contents, c) && m in c && GetFile(c[m], key).Some?
    ensures GetFile(c[m], key).value in contents
  {
  }

  /** A call that spares the keys of the content and sweeps stored rows leaves a lasting content alone. */
  lemma CallKeeps(v: Vol, o: Op, s: Signature)
    requires Inv(v) && Lasting(v, s) && !o.NoteReplica? && !o.Relist?
    requires match o
             case Create(a) => Stores(v, a) ==> KeyClear(v, a.key, s)
             case Delete(key) => KeyClear(v, key, s)
             case Expire(rows, _) => StoredRows(v, rows)
             case _ => true
    ensures s in Perform(v, o).0.tables.files && Perform(v, o).0.tables.files[s].ttl == NO_TTL
  {
    hide Inv, CreateFile, DeleteFile, Sweep, SyncLoop, Unscheduled, StoredRows, Stores;
    match o
    case Create(a) => CreateKeepsRow(v, a, s);
    case Delete(key) => DeleteApart(v, key, s);
    case Synchronize(_, _, _) =>
    case Expire(rows, spare) =>
      SweepsScheduled(v, s);
      SweepApart(v, rows, spare, s);
    case Restart =>
  }

  lemma CreateKeepsRow(v: Vol, a: Request, s: Signature)
    requires Inv(v) && s in v.tables.files && (Stores(v, a) ==> KeyClear(v, a.key, s))
    ensures s in CreateFile(v, a).0.tables.files && CreateFile(v, a).0.tables.files[s].ttl == v.tables.files[s].ttl
  {
    if Stores(v, a) {
      CreateShape(v.tables, v.id, v.lastKey, a);
      StoredOutcome(v, a);
      hide CreateFile, CreateTables, Freed, LastKeyOf;
      FreedRecord(v.tables, a.key, s);
      FreedRows(v.tables, a.key, s);
    }
  }

  ghost predicate SparesRecord(c: Nodes, ops: seq<ClusterOp>, n: VolumeID, s: Signature) {
    forall i | 0 <= i < |ops| ::
      Timeless(ClusterRun(c, ops[..i]), ops[i], n, s) && Unhurt(ClusterRun(c, ops[..i]), ops[i], n, s)
  }

  lemma LastingStep(sha: Bytes -> string, contents: set<Bytes>, c: Nodes, op: ClusterOp, n: VolumeID, s: Signature)
    requires CollisionFree(sha, contents) && OpDigested(sha, contents, op) && Good(sha, contents, c) && n in c
    requires Lasting(c[n], s) && Timeless(c, op, n, s) && Unhurt(c, op, n, s)
    ensures Lasting(ClusterStep(c, op)[n], s)
  {
    hide Inv, Perform, Round, Unscheduled, Timeless, KeyClear, StoredRows, Stores;
    StepUnscheduled(sha, contents, c, op, n, s);
    if Enabled(c, op) {
      match op
      case OnNode(w, o) =>
        if w == n {
          CallKeeps(c[n], o, s);
        }
      case Replicate(env, m, targets) => RoundLifetimes(contents, c, env, m, targets, n, s);
    }
  }

  /**
   * A lasting content stays on its node over every run: until a client takes its last key from it there, or somebody
   * stores it there again with a lifetime. Sweeps of stored rows never touch it.
   */
  lemma {:induction false} LastingOverRuns(sha: Bytes -> string, contents: set<Bytes>, c: Nodes, ops: seq<ClusterOp>,
                                           n: VolumeID, s: Signature)
    requires CollisionFree(sha, contents) && OpsDigested(sha, contents, ops) && Good(sha, contents, c) && n in c
    requires Lasting(c[n], s) && SparesRecord(c, ops, n, s)
    ensures Good(sha, contents, ClusterRun(c, ops)) && Lasting(ClusterRun(c, ops)[n], s)
    decreases |ops|
  {
    hide Good, ClusterStep, Lasting, Timeless, Unhurt;
    if ops != [] {
      var k := |ops| - 1;
      assert OpsDigested(sha, contents, ops[..k]);
      assert SparesRecord(c, ops[..k], n, s) by {
        forall i | 0 <= i < k
          ensures Timeless(ClusterRun(c, ops[..k][..i]), ops[..k][i], n, s)
          ensures Unhurt(ClusterRun(c, ops[..k][..i]), ops[..k][i], n, s)
        {
          assert ops[..k][..i] == ops[..i];
        }
      }
      LastingOverRuns(sha, contents, c, ops[..k], n, s);
      ClusterStepGood(sha, contents, ClusterRun(c, ops[..k]), ops[k]);
      LastingStep(sha, contents, ClusterRun(c, ops[..k]), ops[k], n, s);
    }
  }
}
