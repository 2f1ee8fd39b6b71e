/** The contents of a volume as they lie in its file tree. */
module BlobTree {
  import opened Types
  import opened Paths
  import opened FsUnit

  /** The signatures that some file below `dir` could belong to. */
  function Candidates(tree: Tree, dir: Path): set<Signature> {
    set p | p in tree && |dir| <= |p| :: Flatten(p[|dir|..])
  }

  /** The stored contents by their signature. */
  function ContentsOf(tree: Tree, dir: Path): map<Signature, Bytes> {
    map s | s in Candidates(tree, dir) && IsSignature(s) && BlobPath(dir, s) in tree :: tree[BlobPath(dir, s)]
  }

  /** The path of each file gives its signature back, so no stored content is missed. */
  lemma ContentsAre(tree: Tree, dir: Path)
    ensures forall s :: s in ContentsOf(tree, dir) <==> IsSignature(s) && BlobPath(dir, s) in tree
    ensures forall s | s in ContentsOf(tree, dir) :: ContentsOf(tree, dir)[s] == tree[BlobPath(dir, s)]
  {
    forall s | IsSignature(s) && BlobPath(dir, s) in tree
      ensures s in Candidates(tree, dir)
    {
      PathInverts(dir, s);
      assert BlobPath(dir, s) in tree;
    }
  }

  /** No file of a content waits for its removal. */
  ghost predicate NothingWaits(tree: Tree, dir: Path) {
    forall s | IsSignature(s) :: Tmp(BlobPath(dir, s)) !in tree
  }

  lemma PathsApart(dir: Path, s: Signature, t: Signature)
    requires IsSignature(s) && IsSignature(t)
    ensures BlobPath(dir, s) == BlobPath(dir, t) <==> s == t
    ensures Tmp(BlobPath(dir, s)) != BlobPath(dir, t)
    ensures Tmp(BlobPath(dir, s)) == Tmp(BlobPath(dir, t)) <==> s == t
  {
    PathPrefixFree(dir, s, t);
    TmpApart(dir, s, t);
  }

  lemma Installed(tree: Tree, dir: Path, sig: Signature, c: Bytes)
    requires IsSignature(sig)
    ensures ContentsOf(tree[BlobPath(dir, sig) := c], dir) == ContentsOf(tree, dir)[sig := c]
  {
    ContentsAre(tree, dir);
    ContentsAre(tree[BlobPath(dir, sig) := c], dir);
    hide ContentsOf;
    var m, n := ContentsOf(tree[BlobPath(dir, sig) := c], dir), ContentsOf(tree, dir)[sig := c];
    forall s
      ensures (s in m <==> s in n) && (s in m ==> m[s] == n[s])
    {
      if IsSignature(s) {
        PathsApart(dir, s, sig);
      }
    }
    assert m == n;
  }

  lemma InstalledWaits(tree: Tree, dir: Path, sig: Signature, c: Bytes)
    requires IsSignature(sig) && NothingWaits(tree, dir)
    ensures NothingWaits(tree[BlobPath(dir, sig) := c], dir)
  {
    forall s | IsSignature(s)
      ensures Tmp(BlobPath(dir, s)) != BlobPath(dir, sig)
    {
      PathsApart(dir, s, sig);
    }
  }

  lemma Discarded(tree: Tree, dir: Path, sig: Signature)
    requires IsSignature(sig)
    ensures ContentsOf(tree - {BlobPath(dir, sig)}, dir) == ContentsOf(tree, dir) - {sig}
  {
    ContentsAre(tree, dir);
    ContentsAre(tree - {BlobPath(dir, sig)}, dir);
    hide ContentsOf;
    var m, n := ContentsOf(tree - {BlobPath(dir, sig)}, dir), ContentsOf(tree, dir) - {sig};
    forall s
      ensures (s in m <==> s in n) && (s in m ==> m[s] == n[s])
    {
      if IsSignature(s) {
        PathsApart(dir, s, sig);
      }
    }
    assert m == n;
  }

  /** A tree without the file at `p`, whether it waits under its other name, came back, or is gone for good. */
  lemma RemovedOnce(tree: Tree, p: Path)
    requires p in tree && Tmp(p) !in tree
    ensures CleanRun(tree, [Action.Remove(p)]) && DoAll(tree, [Action.Remove(p)]) == Some(Moved(tree, p, Tmp(p)))
    ensures RunLog(Moved(tree, p, Tmp(p)), [Move(Tmp(p), p)]) == (tree, true)
    ensures RunLog(Moved(tree, p, Tmp(p)), [Delete(Tmp(p))]) == (tree - {p}, true)
  {
    var a := Action.Remove(p);
    var moved := Moved(tree, p, Tmp(p));
    TmpDiffers(p);
    assert [a][1..] == [];
    assert DoAll(moved, []) == Some(moved);
    UndoneAtOnce(tree, a);
    RunOne(moved, Move(Tmp(p), p));
    RunOne(moved, Delete(Tmp(p)));
    assert moved - {Tmp(p)} == tree - {p};
  }

  function Removals(dir: Path, sigs: seq<Signature>): (r: seq<Action>)
    ensures |r| == |sigs| && forall i | 0 <= i < |r| :: r[i] == Action.Remove(BlobPath(dir, sigs[i]))
  {
    seq(|sigs|, i requires 0 <= i < |sigs| => Action.Remove(BlobPath(dir, sigs[i])))
  }

  lemma RemovalsDisjoint(dir: Path, sigs: seq<Signature>)
    requires NoDup(sigs) && forall i | 0 <= i < |sigs| :: IsSignature(sigs[i])
    ensures Disjoint(Removals(dir, sigs))
  {
    hide BlobPath, Tmp;
    var acts := Removals(dir, sigs);
    forall i, j | 0 <= i < j < |acts|
      ensures Footprint(acts[i]) !! Footprint(acts[j])
    {
      PathsApart(dir, sigs[i], sigs[j]);
      PathsApart(dir, sigs[j], sigs[i]);
    }
  }

  lemma {:induction false} CleanRunSnoc(t: Tree, acts: seq<Action>, a: Action)
    requires CleanRun(t, acts) && DoAll(t, acts).Some?
    requires Target(a) !in DoAll(t, acts).value && Do(DoAll(t, acts).value, a).Some?
    ensures CleanRun(t, acts + [a]) && DoAll(t, acts + [a]) == Do(DoAll(t, acts).value, a)
    decreases |acts|
  {
    if acts == [] {
      assert acts + [a] == [a] && [a][1..] == [];
      assert DoAll(Do(t, a).value, []) == Do(t, a);
    } else {
      assert (acts + [a])[1..] == acts[1..] + [a];
      CleanRunSnoc(Do(t, acts[0]).value, acts[1..], a);
    }
  }

  /** Which files are where after a sequence of removals. */
  lemma {:induction false} AfterRemovals(tree: Tree, dir: Path, sigs: seq<Signature>)
    requires NothingWaits(tree, dir) && NoDup(sigs)
    requires forall i | 0 <= i < |sigs| :: IsSignature(sigs[i]) && BlobPath(dir, sigs[i]) in tree
    ensures CleanRun(tree, Removals(dir, sigs)) && DoAll(tree, Removals(dir, sigs)).Some?
    ensures forall s | IsSignature(s) ::
              var t := DoAll(tree, Removals(dir, sigs)).value;
              && (BlobPath(dir, s) in t <==> BlobPath(dir, s) in tree && s !in sigs)
              && (Tmp(BlobPath(dir, s)) in t <==> s in sigs)
    decreases |sigs|
  {
    hide BlobPath, Tmp, IsSignature, Removals;
    var acts := Removals(dir, sigs);
    if sigs == [] {
      assert acts == [];
    } else {
      var n := |sigs| - 1;
      var last := sigs[n];
      AfterRemovals(tree, dir, sigs[..n]);
      assert acts == Removals(dir, sigs[..n]) + [Action.Remove(BlobPath(dir, last))];
      CleanRunSnoc(tree, Removals(dir, sigs[..n]), Action.Remove(BlobPath(dir, last)));
      forall s | IsSignature(s)
        ensures var t := DoAll(tree, acts).value;
                && (BlobPath(dir, s) in t <==> BlobPath(dir, s) in tree && s !in sigs)
                && (Tmp(BlobPath(dir, s)) in t <==> s in sigs)
      {
        PathsApart(dir, s, last);
        PathsApart(dir, last, s);
        assert s in sigs <==> s in sigs[..n] || s == last;
      }
    }
  }

  /** What the commit of a unit that removed these contents, and did nothing else, leaves of them. */
  lemma CommitRemovals(tree: Tree, dir: Path, sigs: seq<Signature>, last: Undo)
    requires NothingWaits(tree, dir) && NoDup(sigs) && sigs != []
    requires forall i | 0 <= i < |sigs| :: IsSignature(sigs[i]) && BlobPath(dir, sigs[i]) in tree
    requires var p := BlobPath(dir, sigs[|sigs| - 1]);
             last == Delete(Tmp(p)) || last == Move(Tmp(p), p)
    ensures DoAll(tree, Removals(dir, sigs)).Some?
    ensures RunLog(DoAll(tree, Removals(dir, sigs)).value, Log(Removals(dir, sigs[..|sigs| - 1])) + [last]) ==
            (if last.Delete? then tree - {BlobPath(dir, sigs[|sigs| - 1])} else tree, true)
  {
    var acts, n := Removals(dir, sigs), |sigs| - 1;
    var p := BlobPath(dir, sigs[n]);
    AfterRemovals(tree, dir, sigs);
    RemovalsDisjoint(dir, sigs);
    UndoPrefix(tree, acts, n);
    assert acts[..n] == Removals(dir, sigs[..n]) && acts[n..] == [Action.Remove(p)];
    RunLogConcat(DoAll(tree, acts).value, Log(acts[..n]), [last]);
    RemovedOnce(tree, p);
  }
}
