/** Where the content with a given signature is kept on disk. */
module Paths {

  /** A path is the list of its components; joining a name appends one component. */
  type Path = seq<string>

  predicate IsHex(c: char) {
    '0' <= c <= '9' || 'a' <= c <= 'f'
  }

  /** A signature is the SHA-1 of the content printed in hexadecimal. */
  predicate IsSignature(s: string) {
    |s| == 40 && forall i | 0 <= i < |s| :: IsHex(s[i])
  }

  /** The complete two-character pieces of `sig`; an odd last character is dropped. */
  function Pieces(sig: string): (r: seq<string>)
    ensures |r| == |sig| / 2
    ensures forall i | 0 <= i < |r| :: |r[i]| == 2
  {
    if |sig| < 2 then [] else [sig[..2]] + Pieces(sig[2..])
  }

  function BlobPath(base: Path, sig: string): Path {
    base + Pieces(sig)
  }

  /** The directories below the base are the successive pairs of characters; one that is left over is dropped. */
  lemma {:induction false} PathPairs(base: Path, sig: string)
    ensures |BlobPath(base, sig)| == |base| + |sig| / 2 && base <= BlobPath(base, sig)
    ensures forall i | 0 <= i < |sig| / 2 :: BlobPath(base, sig)[|base| + i] == sig[2 * i..2 * i + 2]
  {
    if |sig| >= 2 {
      PathPairs(base, sig[2..]);
      forall i | 0 <= i < |sig| / 2
        ensures Pieces(sig)[i] == sig[2 * i..2 * i + 2]
      {
        if i > 0 {
          assert Pieces(sig)[i] == Pieces(sig[2..])[i - 1] == BlobPath(base, sig[2..])[|base| + (i - 1)];
          assert sig[2..][2 * (i - 1)..2 * (i - 1) + 2] == sig[2 * i..2 * i + 2];
        }
      }
    }
  }

  function Flatten(parts: seq<string>): string {
    if parts == [] then "" else parts[0] + Flatten(parts[1..])
  }

  lemma {:induction false} PiecesSnoc(sig: string, a: char, b: char)
    requires |sig| % 2 == 0
    ensures Pieces(sig + [a, b]) == Pieces(sig) + [[a, b]]
  {
    if sig == [] {
      assert sig + [a, b] == [a, b];
      assert [a, b][2..] == [];
      assert [a, b][..2] == [a, b];
    } else {
      PiecesSnoc(sig[2..], a, b);
      assert (sig + [a, b])[2..] == sig[2..] + [a, b];
      assert (sig + [a, b])[..2] == sig[..2];
    }
  }

  lemma PiecesOdd(sig: string, a: char)
    requires |sig| % 2 == 0
    ensures Pieces(sig + [a]) == Pieces(sig)
  {
    if sig != [] {
      PiecesOdd(sig[2..], a);
      assert (sig + [a])[2..] == sig[2..] + [a];
      assert (sig + [a])[..2] == sig[..2];
    }
  }

  lemma PathGrows(base: Path, sig: string, n: nat)
    requires n % 2 == 0 && n + 2 <= |sig|
    ensures BlobPath(base, sig[..n + 2]) == BlobPath(base, sig[..n]) + [sig[n..n + 2]]
  {
    PiecesSnoc(sig[..n], sig[n], sig[n + 1]);
    assert sig[..n + 2] == sig[..n] + [sig[n], sig[n + 1]];
    assert sig[n..n + 2] == [sig[n], sig[n + 1]];
  }

  /** The loop over the bytes of the signature builds the path piece by piece. */
  method ComputePath(base: Path, sig: string) returns (p: Path)
    ensures p == BlobPath(base, sig)
  {
    p := base;
    var currentDir := "";
    for i := 0 to |sig|
      invariant |currentDir| < 2 && |currentDir| == i % 2
      invariant currentDir == sig[i - |currentDir|..i]
      invariant p == BlobPath(base, sig[..i - |currentDir|])
    {
      assert sig[i - |currentDir|..i + 1] == sig[i - |currentDir|..i] + [sig[i]];
      currentDir := currentDir + [sig[i]];
      if |currentDir| == 2 {
        PathGrows(base, sig, i - 1);
        p := p + [currentDir];
        currentDir := "";
      }
    }
    if |sig| % 2 == 1 {
      PiecesOdd(sig[..|sig| - 1], sig[|sig| - 1]);
      assert sig == sig[..|sig| - 1] + [sig[|sig| - 1]];
    } else {
      assert sig[..|sig|] == sig;
    }
  }

  lemma {:induction false} FlattenPieces(sig: string)
    requires |sig| % 2 == 0
    ensures Flatten(Pieces(sig)) == sig
  {
    if sig != [] {
      FlattenPieces(sig[2..]);
      assert Pieces(sig)[1..] == Pieces(sig[2..]);
    }
  }

  /** The signature can be read back from the directories below the base. */
  lemma PathInverts(base: Path, sig: string)
    requires |sig| % 2 == 0
    ensures |base| <= |BlobPath(base, sig)|
    ensures Flatten(BlobPath(base, sig)[|base|..]) == sig
  {
    FlattenPieces(sig);
    assert BlobPath(base, sig)[|base|..] == Pieces(sig);
  }

  /** Two signatures share a path, or one path lies below the other, only when the signatures are equal. */
  lemma PathPrefixFree(base: Path, s: string, t: string)
    requires |s| == |t| && |s| % 2 == 0
    ensures BlobPath(base, s) <= BlobPath(base, t) <==> s == t
  {
    if BlobPath(base, s) <= BlobPath(base, t) {
      assert BlobPath(base, s) == BlobPath(base, t);
      PathInverts(base, s);
      PathInverts(base, t);
    }
  }

  /** The name under which a removed file waits for the end of its unit of work. */
  function Tmp(p: Path): Path {
    if p == [] then [".tmp"] else p[..|p| - 1] + [p[|p| - 1] + ".tmp"]
  }

  lemma TmpInjective(p: Path, q: Path)
    requires p != [] && q != [] && Tmp(p) == Tmp(q)
    ensures p == q
  {
    var n := |p| - 1;
    assert |q| == n + 1;
    assert p[..n] == Tmp(p)[..n] == Tmp(q)[..n] == q[..n];
    assert p[n] + ".tmp" == Tmp(p)[n] == Tmp(q)[n] == q[n] + ".tmp";
    assert p[n] == (p[n] + ".tmp")[..|p[n]|];
    assert q[n] == (q[n] + ".tmp")[..|q[n]|];
    assert p == p[..n] + [p[n]];
    assert q == q[..n] + [q[n]];
  }

  /** A waiting name is never the path of a content, nor the waiting name of another content. */
  lemma TmpApart(base: Path, s: string, t: string)
    requires IsSignature(s) && IsSignature(t)
    ensures Tmp(BlobPath(base, s)) != BlobPath(base, t)
    ensures Tmp(BlobPath(base, s)) == Tmp(BlobPath(base, t)) ==> s == t
  {
    var p, q := BlobPath(base, s), BlobPath(base, t);
    assert q[|q| - 1] == Pieces(t)[|Pieces(t)| - 1];
    assert p[|p| - 1] == Pieces(s)[|Pieces(s)| - 1];
    assert |Tmp(p)[|p| - 1]| == 6;
    if Tmp(p) == Tmp(q) {
      TmpInjective(p, q);
      PathPrefixFree(base, s, t);
    }
  }
}
