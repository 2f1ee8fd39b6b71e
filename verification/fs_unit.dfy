/** The undo log that a unit of work keeps over the file tree. */
module FsUnit {
  import opened Types
  import opened Paths

  /** The file tree: the contents of the regular files. */
  type Tree = map<Path, Bytes>

  /** A tracked call that succeeded; a created file carries the bytes that were written to it. */
  datatype Action = Create(name: Path, content: Bytes) | Remove(name: Path) | Rename(oldName: Path, newName: Path)

  /** An entry of a log. */
  datatype Undo = Delete(name: Path) | Move(source: Path, target: Path)

  function Moved(t: Tree, source: Path, target: Path): Tree
    requires source in t
  {
    (t - {source})[target := t[source]]
  }

  /** The effect of a log entry; a missing file is an error. */
  function Exec(t: Tree, u: Undo): Option<Tree> {
    match u
    case Delete(p) => if p in t then Some(t - {p}) else None
    case Move(p, q) => if p in t then Some(Moved(t, p, q)) else None
  }

  /** The effect of a tracked call. */
  function Do(t: Tree, a: Action): Option<Tree> {
    match a
    case Create(p, c) => Some(t[p := c])
    case Remove(p) => if p in t then Some(Moved(t, p, Tmp(p))) else None
    case Rename(p, q) => if p in t then Some(Moved(t, p, q)) else None
  }

  function Target(a: Action): Path {
    match a
    case Create(p, _) => p
    case Remove(p) => Tmp(p)
    case Rename(_, q) => q
  }

  /** The paths that a call touches. */
  function Footprint(a: Action): set<Path> {
    match a
    case Create(p, _) => {p}
    case Remove(p) => {p, Tmp(p)}
    case Rename(p, q) => {p, q}
  }

  function UndoOf(a: Action): Undo {
    match a
    case Create(p, _) => Delete(p)
    case Remove(p) => Move(Tmp(p), p)
    case Rename(p, q) => Move(q, p)
  }

  function DoAll(t: Tree, acts: seq<Action>): Option<Tree>
    decreases |acts|
  {
    if acts == [] then Some(t)
    else if Do(t, acts[0]).None? then None
    else DoAll(Do(t, acts[0]).value, acts[1..])
  }

  /** Every call succeeds and none writes over a file that was there. */
  ghost predicate CleanRun(t: Tree, acts: seq<Action>)
    decreases |acts|
  {
    acts == [] ||
    (Target(acts[0]) !in t && Do(t, acts[0]).Some? && CleanRun(Do(t, acts[0]).value, acts[1..]))
  }

  /** The rollback log, in the order of the calls. */
  function Log(acts: seq<Action>): (r: seq<Undo>)
    ensures |r| == |acts|
  {
    if acts == [] then [] else [UndoOf(acts[0])] + Log(acts[1..])
  }

  /** Running a log from its first entry; the run stops at the first error. */
  function RunLog(t: Tree, log: seq<Undo>): (r: (Tree, bool))
    decreases |log|
  {
    if log == [] then (t, true)
    else if Exec(t, log[0]).None? then (t, false)
    else RunLog(Exec(t, log[0]).value, log[1..])
  }

  function Reverse(log: seq<Undo>): seq<Undo> {
    if log == [] then [] else Reverse(log[1..]) + [log[0]]
  }

  ghost predicate Disjoint(acts: seq<Action>) {
    forall i, j | 0 <= i < j < |acts| :: Footprint(acts[i]) !! Footprint(acts[j])
  }

  lemma TmpDiffers(p: Path)
    ensures Tmp(p) != p
  {
    if p != [] {
      assert |Tmp(p)[|p| - 1]| == |p[|p| - 1]| + 4;
    }
  }

  /** Undoing a call right after it gives the tree back. */
  lemma UndoneAtOnce(t: Tree, a: Action)
    requires Target(a) !in t && Do(t, a).Some?
    ensures Exec(Do(t, a).value, UndoOf(a)) == Some(t)
  {
    var u := Do(t, a).value;
    if a.Remove? {
      TmpDiffers(a.name);
      assert Moved(u, Tmp(a.name), a.name) == t;
    } else if a.Create? {
      assert u - {a.name} == t;
    } else {
      assert Moved(u, a.newName, a.oldName) == t;
    }
  }

  lemma RunOne(t: Tree, u: Undo)
    ensures RunLog(t, [u]) == if Exec(t, u).None? then (t, false) else (Exec(t, u).value, true)
  {
    assert [u][1..] == [];
  }

  lemma {:induction false} RunLogConcat(t: Tree, a: seq<Undo>, b: seq<Undo>)
    ensures RunLog(t, a + b) == if RunLog(t, a).1 then RunLog(RunLog(t, a).0, b) else RunLog(t, a)
    decreases |a|
  {
    if a == [] {
      assert a + b == b;
    } else {
      assert (a + b)[1..] == a[1..] + b;
      if Exec(t, a[0]).Some? {
        RunLogConcat(Exec(t, a[0]).value, a[1..], b);
      }
    }
  }

  /** Run from its last entry, the log restores the tree after any clean run. */
  lemma {:induction false} ReverseRollbackRestores(t: Tree, acts: seq<Action>)
    requires CleanRun(t, acts)
    ensures DoAll(t, acts).Some? && RunLog(DoAll(t, acts).value, Reverse(Log(acts))) == (t, true)
    decreases |acts|
  {
    if acts != [] {
      var t1 := Do(t, acts[0]).value;
      ReverseRollbackRestores(t1, acts[1..]);
      UndoneAtOnce(t, acts[0]);
      assert Log(acts)[1..] == Log(acts[1..]);
      RunLogConcat(DoAll(t, acts).value, Reverse(Log(acts[1..])), [UndoOf(acts[0])]);
      assert RunLog(t1, [UndoOf(acts[0])]) == (t, true);
    }
  }

  // ---------------------------------------------------------------- First in, first out

  ghost predicate AgreeOn(t: Tree, u: Tree, f: iset<Path>) {
    forall p | p in f :: (p in t <==> p in u) && (p in t ==> t[p] == u[p])
  }

  ghost function Within(f: set<Path>): iset<Path> {
    iset p | p in f
  }

  ghost function Outside(f: set<Path>): iset<Path> {
    iset p | p !in f
  }

  ghost predicate Avoids(acts: seq<Action>, f: set<Path>) {
    forall i | 0 <= i < |acts| :: Footprint(acts[i]) !! f
  }

  lemma DoLocal(t: Tree, u: Tree, a: Action, f: set<Path>)
    requires Footprint(a) !! f && AgreeOn(t, u, Outside(f))
    requires Target(a) !in t && Do(t, a).Some?
    ensures Target(a) !in u && Do(u, a).Some?
    ensures AgreeOn(Do(t, a).value, Do(u, a).value, Outside(f))
    ensures AgreeOn(Do(t, a).value, t, Within(f))
    ensures AgreeOn(Do(t, a).value, t, Outside(Footprint(a)))
  {
    forall p | p in Footprint(a)
      ensures p in Outside(f)
    {
    }
    assert Target(a) in Footprint(a);
  }

  /** Calls that avoid `f` neither see nor change what lies in `f`. */
  lemma {:induction false} DoAllLocal(t: Tree, u: Tree, acts: seq<Action>, f: set<Path>)
    requires Avoids(acts, f) && AgreeOn(t, u, Outside(f)) && CleanRun(t, acts)
    ensures CleanRun(u, acts) && DoAll(t, acts).Some? && DoAll(u, acts).Some?
    ensures AgreeOn(DoAll(t, acts).value, DoAll(u, acts).value, Outside(f))
    ensures AgreeOn(DoAll(t, acts).value, t, Within(f))
    decreases |acts|
  {
    if acts != [] {
      DoLocal(t, u, acts[0], f);
      DoAllLocal(Do(t, acts[0]).value, Do(u, acts[0]).value, acts[1..], f);
    }
  }

  /** A log entry works on the paths of its call alone. */
  lemma UndoLocal(t: Tree, a: Action, n: Tree)
    requires Target(a) !in t && Do(t, a).Some?
    requires AgreeOn(n, Do(t, a).value, Within(Footprint(a)))
    ensures Exec(n, UndoOf(a)).Some?
    ensures AgreeOn(Exec(n, UndoOf(a)).value, t, Within(Footprint(a)))
    ensures AgreeOn(Exec(n, UndoOf(a)).value, n, Outside(Footprint(a)))
  {
    UndoneAtOnce(t, a);
    TmpDiffers(if a.Remove? then a.name else []);
    assert forall p | p in Footprint(a) :: p in Within(Footprint(a));
  }

  /** Undoing the first call after all of them leaves what the others alone would have left. */
  lemma UndoFirst(t: Tree, acts: seq<Action>)
    requires acts != [] && CleanRun(t, acts) && Disjoint(acts)
    ensures DoAll(t, acts).Some? && CleanRun(t, acts[1..]) && DoAll(t, acts[1..]).Some?
    ensures Exec(DoAll(t, acts).value, UndoOf(acts[0])) == DoAll(t, acts[1..])
  {
    var a, rest := acts[0], acts[1..];
    var f := Footprint(a);
    var t1 := Do(t, a).value;
    assert AgreeOn(t1, t, Outside(f)) by {
      DoLocal(t, t, a, {});
    }
    DoAllLocal(t1, t, rest, f);
    DoAllLocal(t, t1, rest, f);
    var n, m := DoAll(t1, rest).value, DoAll(t, rest).value;
    UndoLocal(t, a, n);
    var back := Exec(n, UndoOf(a)).value;
    forall p
      ensures (p in back <==> p in m) && (p in m ==> back[p] == m[p])
    {
      assert p in Within(f) || p in Outside(f);
    }
    assert back == m;
  }

  /** Undoing the first `k` calls leaves what the remaining ones alone would have left. */
  lemma {:induction false} UndoPrefix(t: Tree, acts: seq<Action>, k: nat)
    requires k <= |acts| && CleanRun(t, acts) && Disjoint(acts)
    ensures DoAll(t, acts).Some? && CleanRun(t, acts[k..]) && DoAll(t, acts[k..]).Some?
    ensures RunLog(DoAll(t, acts).value, Log(acts[..k])) == (DoAll(t, acts[k..]).value, true)
    decreases k
  {
    if k == 0 {
      DoAllLocal(t, t, acts, {});
      assert acts[0..] == acts && acts[..0] == [];
    } else {
      UndoFirst(t, acts);
      UndoPrefix(t, acts[1..], k - 1);
      assert acts[1..][k - 1..] == acts[k..] && acts[..k][1..] == acts[1..][..k - 1];
      assert Log(acts[..k]) == [UndoOf(acts[0])] + Log(acts[1..][..k - 1]);
    }
  }

  /**
   * A call that failed has its entry in the log as well. The rollback stops there, and the calls that it has not come to
   * yet are never undone, exactly where the target of the failed call is not a file that these calls left.
   */
  lemma FailedCallStopsRollback(t: Tree, acts: seq<Action>, k: nat, a: Action, more: seq<Undo>)
    requires k <= |acts| && CleanRun(t, acts) && Disjoint(acts)
    ensures DoAll(t, acts).Some? && DoAll(t, acts[k..]).Some?
    ensures var rest := DoAll(t, acts[k..]).value;
            RunLog(DoAll(t, acts).value, Log(acts[..k]) + [UndoOf(a)] + more) ==
            if Target(a) !in rest then (rest, false)
            else if a.Create? then RunLog(rest - {a.name}, more)
            else RunLog(Moved(rest, Target(a), if a.Remove? then a.name else a.oldName), more)
  {
    UndoPrefix(t, acts, k);
    hide CleanRun, Disjoint, DoAll;
    var after, rest := DoAll(t, acts).value, DoAll(t, acts[k..]).value;
    assert Log(acts[..k]) + [UndoOf(a)] + more == Log(acts[..k]) + ([UndoOf(a)] + more);
    RunLogConcat(after, Log(acts[..k]), [UndoOf(a)] + more);
    RunLogConcat(rest, [UndoOf(a)], more);
    RunOne(rest, UndoOf(a));
  }

  /** Rollback, which runs the log in recorded order, restores the tree when no two calls touch a common path. */
  lemma RollbackRestores(t: Tree, acts: seq<Action>)
    requires CleanRun(t, acts) && Disjoint(acts)
    ensures DoAll(t, acts).Some? && RunLog(DoAll(t, acts).value, Log(acts)) == (t, true)
  {
    UndoPrefix(t, acts, |acts|);
    assert acts[..|acts|] == acts;
  }

  /** Two calls that share a path are never undone: for two calls disjointness is also necessary. */
  lemma PairRollbackExact(t: Tree, a: Action, b: Action)
    requires CleanRun(t, [a, b])
    ensures DoAll(t, [a, b]).Some?
    ensures RunLog(DoAll(t, [a, b]).value, Log([a, b])) == (t, true) <==> Footprint(a) !! Footprint(b)
  {
    assert [a, b][1..] == [b] && [b][1..] == [];
    var t1 := Do(t, a).value;
    assert CleanRun(t1, [b]);
    var t2 := Do(t1, b).value;
    assert DoAll(t1, [b]) == DoAll(t2, []);
    assert Log([a, b]) == [UndoOf(a), UndoOf(b)] by {
      assert Log([b]) == [UndoOf(b)];
    }
    if Footprint(a) !! Footprint(b) {
      RollbackRestores(t, [a, b]);
    } else {
      OverlapFails(t, a, b);
      var log := [UndoOf(a), UndoOf(b)];
      assert log[1..] == [UndoOf(b)];
      var u1 := Exec(t2, log[0]);
      assert RunLog(t2, log) == if u1.None? then (t2, false) else RunLog(u1.value, log[1..]);
      if u1.Some? {
        RunOne(u1.value, UndoOf(b));
      }
    }
  }

  lemma OverlapFails(t: Tree, a: Action, b: Action)
    requires Target(a) !in t && Do(t, a).Some? && Target(b) !in Do(t, a).value && Do(Do(t, a).value, b).Some?
    requires !(Footprint(a) !! Footprint(b))
    ensures var t2 := Do(Do(t, a).value, b).value;
            var u1 := Exec(t2, UndoOf(a));
            u1.None? || Exec(u1.value, UndoOf(b)) != Some(t)
  {
    TmpDiffers(if a.Remove? then a.name else []);
    TmpDiffers(if b.Remove? then b.name else []);
  }

  // ---------------------------------------------------------------- The two logs of the tracker

  datatype Logs = Logs(rollback: seq<Undo>, commit: seq<Undo>)

  /**
   * A removal sets the commit log to the whole rollback log followed by the deletion of the waiting file. Both logs
   * are then extended from the same slice: with spare room behind it (`spare`, impossible for an empty one) the second
   * extension writes over the entry of the first.
   */
  function Track(l: Logs, a: Action, spare: bool): Logs {
    Logs(l.rollback + [UndoOf(a)],
         if !a.Remove? then l.commit
         else l.rollback + [if spare && l.rollback != [] then UndoOf(a) else Delete(Tmp(a.name))])
  }

  function TrackAll(acts: seq<Action>, spare: nat -> bool): Logs {
    if acts == [] then Logs([], [])
    else
      var n := |acts| - 1;
      Track(TrackAll(acts[..n], spare), acts[n], spare(n))
  }

  lemma {:induction false} LogSnoc(acts: seq<Action>, a: Action)
    ensures Log(acts + [a]) == Log(acts) + [UndoOf(a)]
  {
    if acts == [] {
      assert [a][1..] == [];
      assert acts + [a] == [a];
    } else {
      LogSnoc(acts[1..], a);
      assert (acts + [a])[1..] == acts[1..] + [a];
    }
  }

  lemma {:induction false} TrackedRollback(acts: seq<Action>, spare: nat -> bool)
    ensures TrackAll(acts, spare).rollback == Log(acts)
  {
    if acts != [] {
      var n := |acts| - 1;
      TrackedRollback(acts[..n], spare);
      LogSnoc(acts[..n], acts[n]);
      assert acts == acts[..n] + [acts[n]];
    }
  }

  /** The files that wait for removal. */
  function Waiting(acts: seq<Action>): set<Path> {
    set i | 0 <= i < |acts| && acts[i].Remove? :: Tmp(acts[i].name)
  }

  lemma {:induction false} CommitShape(acts: seq<Action>, spare: nat -> bool) returns (last: int)
    ensures -1 <= last < |acts|
    ensures forall i | last < i < |acts| :: !acts[i].Remove?
    ensures last == -1 ==> TrackAll(acts, spare).commit == []
    ensures last >= 0 ==> acts[last].Remove?
    ensures last >= 0 ==> TrackAll(acts, spare).commit == Log(acts[..last]) + [Delete(Tmp(acts[last].name))] ||
                          (last > 0 && TrackAll(acts, spare).commit == Log(acts[..last]) + [UndoOf(acts[last])])
  {
    if acts == [] {
      last := -1;
    } else {
      var n := |acts| - 1;
      if acts[n].Remove? {
        last := n;
        TrackedRollback(acts[..n], spare);
      } else {
        last := CommitShape(acts[..n], spare);
        if last >= 0 {
          assert acts[..n][..last] == acts[..last];
        }
      }
    }
  }

  /**
   * Commit leaves the tree that the calls made, without the waiting files, exactly when nothing but the first call
   * is a removal. Otherwise the commit log takes back the calls before the last removal.
   */
  lemma CommitExact(t: Tree, acts: seq<Action>, spare: nat -> bool)
    requires CleanRun(t, acts) && Disjoint(acts)
    ensures DoAll(t, acts).Some?
    ensures RunLog(DoAll(t, acts).value, TrackAll(acts, spare).commit) == (DoAll(t, acts).value - Waiting(acts), true)
            <==> forall i | 0 < i < |acts| :: !acts[i].Remove?
  {
    DoAllLocal(t, t, acts, {});
    var done := DoAll(t, acts).value;
    var last := CommitShape(acts, spare);
    var commit := TrackAll(acts, spare).commit;
    if last == -1 {
      assert Waiting(acts) == {};
      assert done - {} == done;
    } else if last == 0 {
      assert acts[..0] == [];
      var tmp := Tmp(acts[0].name);
      assert Waiting(acts) == {tmp} by {
        assert tmp in Waiting(acts);
      }
      assert commit == [Delete(tmp)];
      TouchedAfter(t, acts);
      RunOne(done, commit[0]);
    } else {
      assert acts[last].Remove?;
      UndoPrefix(t, acts, last);
      RunLogConcat(done, Log(acts[..last]), [commit[|commit| - 1]]);
      CommitUndoes(t, acts, last, commit[|commit| - 1]);
    }
  }

  /** After all calls, the paths of the first one are as that call left them. */
  lemma TouchedAfter(t: Tree, acts: seq<Action>)
    requires acts != [] && CleanRun(t, acts) && Disjoint(acts)
    ensures DoAll(t, acts).Some? && Target(acts[0]) in DoAll(t, acts).value
    ensures forall p | p in Footprint(acts[0]) && p != Target(acts[0]) :: p in t && p !in DoAll(t, acts).value
  {
    var f := Footprint(acts[0]);
    var t1 := Do(t, acts[0]).value;
    DoAllLocal(t1, t1, acts[1..], f);
    assert forall p | p in f :: p in Within(f);
    assert Target(acts[0]) in f;
    TmpDiffers(if acts[0].Remove? then acts[0].name else []);
  }

  lemma CommitUndoes(t: Tree, acts: seq<Action>, k: nat, u: Undo)
    requires 0 < k < |acts| && acts[k].Remove? && CleanRun(t, acts) && Disjoint(acts)
    requires u == UndoOf(acts[k]) || u == Delete(Tmp(acts[k].name))
    requires CleanRun(t, acts[k..]) && DoAll(t, acts).Some? && DoAll(t, acts[k..]).Some?
    ensures RunLog(DoAll(t, acts[k..]).value, [u]) != (DoAll(t, acts).value - Waiting(acts), true)
  {
    var f := Footprint(acts[0]);
    var rest := DoAll(t, acts[k..]).value;
    DoAllLocal(t, t, acts[k..], f);
    TouchedAfter(t, acts);
    assert forall p | p in f :: p in Within(f);
    assert Footprint(acts[0]) !! Footprint(acts[k]);
    RunOne(rest, u);
    var kept := DoAll(t, acts).value - Waiting(acts);
    if acts[0].Create? {
      var p := acts[0].name;
      assert p in DoAll(t, acts).value && p !in rest;
      forall i | 0 <= i < |acts| && acts[i].Remove?
        ensures Tmp(acts[i].name) != p
      {
        assert Footprint(acts[0]) !! Footprint(acts[i]);
        assert Tmp(acts[i].name) in Footprint(acts[i]);
      }
      assert p in kept;
    } else {
      var p := if acts[0].Remove? then acts[0].name else acts[0].oldName;
      TmpDiffers(p);
      assert p in f && p != Target(acts[0]);
      assert p in rest && p !in kept;
      assert p !in Footprint(acts[k]);
      assert Exec(rest, u).Some? ==> p in Exec(rest, u).value;
    }
  }

  // ---------------------------------------------------------------- The disk and its tracker

  class Disk {
    var tree: Tree

    constructor (tree: Tree)
      ensures this.tree == tree
    {
      this.tree := tree;
    }

    method Apply(u: Undo) returns (ok: bool)
      modifies this
      ensures ok <==> Exec(old(tree), u).Some?
      ensures tree == if ok then Exec(old(tree), u).value else old(tree)
    {
      var r := Exec(tree, u);
      ok := r.Some?;
      if ok {
        tree := r.value;
      }
    }

    method Create(name: Path, content: Bytes)
      modifies this
      ensures tree == old(tree)[name := content]
    {
      tree := tree[name := content];
    }

    method Rename(oldName: Path, newName: Path) returns (ok: bool)
      modifies this
      ensures ok <==> oldName in old(tree)
      ensures tree == if ok then Moved(old(tree), oldName, newName) else old(tree)
    {
      ok := oldName in tree;
      if ok {
        tree := Moved(tree, oldName, newName);
      }
    }
  }

  class UowTracker {
    const fs: Disk
    var rollbackActions: seq<Undo>
    var commitActions: seq<Undo>

    function View(): Logs
      reads this
    {
      Logs(rollbackActions, commitActions)
    }

    constructor (fs: Disk)
      ensures this.fs == fs && View() == Logs([], [])
    {
      this.fs, rollbackActions, commitActions := fs, [], [];
    }

    /** The log entry is recorded before the call, so also when the disk does not make the file. */
    method Create(name: Path, content: Bytes, makes: bool) returns (ok: bool)
      modifies this, fs
      ensures ok == makes
      ensures fs.tree == if makes then old(fs.tree)[name := content] else old(fs.tree)
      ensures View() == Track(old(View()), Action.Create(name, content), false)
    {
      rollbackActions := rollbackActions + [Delete(name)];
      ok := makes;
      if ok {
        fs.Create(name, content);
      }
    }

    /** The log entry is recorded before the call, so also when the call fails. */
    method Remove(name: Path) returns (ok: bool)
      modifies this, fs
      ensures ok <==> Do(old(fs.tree), Action.Remove(name)).Some?
      ensures fs.tree == if ok then Do(old(fs.tree), Action.Remove(name)).value else old(fs.tree)
      ensures View() == Track(old(View()), Action.Remove(name), false) ||
              View() == Track(old(View()), Action.Remove(name), true)
    {
      var tmp := Tmp(name);
      var spare: bool := *;
      commitActions := rollbackActions + [if spare && rollbackActions != [] then Move(tmp, name) else Delete(tmp)];
      rollbackActions := rollbackActions + [Move(tmp, name)];
      ok := fs.Rename(name, tmp);
    }

    method Rename(oldName: Path, newName: Path) returns (ok: bool)
      modifies this, fs
      ensures ok <==> Do(old(fs.tree), Action.Rename(oldName, newName)).Some?
      ensures fs.tree == if ok then Do(old(fs.tree), Action.Rename(oldName, newName)).value else old(fs.tree)
      ensures View() == Track(old(View()), Action.Rename(oldName, newName), false)
    {
      rollbackActions := rollbackActions + [Move(newName, oldName)];
      ok := fs.Rename(oldName, newName);
    }

    /** The end of the unit: one of the two logs is run, from its first entry, until an entry fails. */
    method Finish(failed: bool) returns (ok: bool)
      modifies fs
      ensures (fs.tree, ok) == RunLog(old(fs.tree), if failed then rollbackActions else commitActions)
    {
      var log := if failed then rollbackActions else commitActions;
      for i := 0 to |log|
        invariant RunLog(fs.tree, log[i..]) == RunLog(old(fs.tree), log)
      {
        ok := fs.Apply(log[i]);
        assert log[i..][1..] == log[i + 1..];
        if !ok {
          return;
        }
      }
      ok := true;
    }
  }
}
