/** The records that a unit of work reads from a table, changes in place and writes back. */
module Records {
  import opened Types

  /** The signatures of `known` followed by those of `added` that are new, each once, in order. */
  function Union(known: seq<Signature>, added: seq<Signature>): (r: seq<Signature>)
    ensures forall s :: s in r <==> s in known || s in added
    ensures known <= r
    decreases |added|
  {
    if added == [] then known
    else
      var n := |added| - 1;
      assert forall s :: s in added <==> s in added[..n] || s == added[n];
      WithOne(Union(known, added[..n]), added[n])
  }

  /** A union never repeats what its left side did not repeat. */
  lemma {:induction false} UnionNoDup(known: seq<Signature>, added: seq<Signature>)
    requires NoDup(known)
    ensures NoDup(Union(known, added))
    decreases |added|
  {
    if added != [] {
      UnionNoDup(known, added[..|added| - 1]);
    }
  }

  /** What the next size check sees: the sizes of the disk when the volume has none of its own. */
  function TotalSize(s: StateRow): int {
    if s.volumeTotal == -1 then s.systemTotal else s.volumeTotal
  }

  function UsedSize(s: StateRow): int {
    if s.volumeTotal == -1 then s.systemUsed else s.volumeUsed
  }

  predicate CanStore(s: StateRow, b: int) {
    UsedSize(s) + b <= TotalSize(s)
  }

  /** Both counters move, whichever of them is the one that is checked. */
  function Used(s: StateRow, b: int): StateRow {
    s.(systemUsed := s.systemUsed + b, volumeUsed := s.volumeUsed + b)
  }

  class State {
    var systemTotal: int
    var systemUsed: int
    var volumeTotal: int
    var volumeUsed: int

    function Row(): StateRow
      reads this
    {
      StateRow(systemTotal, systemUsed, volumeTotal, volumeUsed)
    }

    constructor (row: StateRow)
      ensures Row() == row
    {
      systemTotal, systemUsed := row.systemTotal, row.systemUsed;
      volumeTotal, volumeUsed := row.volumeTotal, row.volumeUsed;
    }

    /** The sizes that apply are those of the disk when the volume has none of its own; both used sizes move. */
    method Use(b: int) returns (ok: bool)
      modifies this
      ensures ok <==> if volumeTotal == -1 then old(systemUsed) + b <= systemTotal else old(volumeUsed) + b <= volumeTotal
      ensures systemTotal == old(systemTotal) && volumeTotal == old(volumeTotal)
      ensures systemUsed - old(systemUsed) == volumeUsed - old(volumeUsed) == if ok then b else 0
      ensures ok <==> CanStore(old(Row()), b)
      ensures Row() == if ok then Used(old(Row()), b) else old(Row())
    {
      ok := CanStore(Row(), b);
      if ok {
        systemUsed := systemUsed + b;
        volumeUsed := volumeUsed + b;
      }
    }
  }

  class IDXVolume {
    const volumeID: VolumeID
    var signatures: seq<Signature>

    constructor (volumeID: VolumeID, signatures: seq<Signature>)
      ensures this.volumeID == volumeID && this.signatures == signatures
    {
      this.volumeID, this.signatures := volumeID, signatures;
    }

    method AddSignature(sig: Signature)
      modifies this
      ensures signatures == WithOne(old(signatures), sig)
    {
      for i := 0 to |signatures|
        invariant signatures == old(signatures) && sig !in signatures[..i]
      {
        if signatures[i] == sig {
          return;
        }
      }
      assert signatures[..|signatures|] == signatures;
      signatures := signatures + [sig];
    }
  }

  class IDXTTL {
    const expiresAt: int
    var signatures: seq<Signature>

    constructor (expiresAt: int, signatures: seq<Signature>)
      ensures this.expiresAt == expiresAt && this.signatures == signatures
    {
      this.expiresAt, this.signatures := expiresAt, signatures;
    }

    method AddSignatures(ss: seq<Signature>)
      modifies this
      ensures signatures == Union(old(signatures), ss)
    {
      var known: set<Signature> := {};
      for i := 0 to |signatures|
        invariant signatures == old(signatures)
        invariant known == set s | s in signatures[..i]
      {
        known := known + {signatures[i]};
      }
      assert signatures[..|signatures|] == signatures;
      for i := 0 to |ss|
        invariant signatures == Union(old(signatures), ss[..i])
        invariant known == set s | s in signatures
      {
        assert ss[..i + 1][..i] == ss[..i];
        if ss[i] !in known {
          signatures := signatures + [ss[i]];
          known := known + {ss[i]};
        }
      }
      assert ss[..|ss|] == ss;
    }
  }

  class File {
    var keys: seq<Key>
    const signature: Signature
    var replica: int
    var volumeIDs: seq<VolumeID>
    const size: int
    const ttl: int
    const createdAt: int

    function Row(): FileRow
      reads this
    {
      FileRow(keys, signature, replica, volumeIDs, size, ttl, createdAt)
    }

    constructor (row: FileRow)
      ensures Row() == row
    {
      keys, signature, replica, volumeIDs := row.keys, row.signature, row.replica, row.volumeIDs;
      size, ttl, createdAt := row.size, row.ttl, row.createdAt;
    }

    /** The new list is allocated with one place less than the old one, so the old one must not be empty. */
    method DeleteVolumeID(vid: VolumeID)
      requires volumeIDs != []
      modifies this
      ensures Row() == old(Row()).(volumeIDs := Without(old(volumeIDs), vid))
    {
      var capacity: nat := |volumeIDs| - 1;
      var vids := [];
      for i := 0 to |volumeIDs|
        invariant Row() == old(Row()) && vids == Without(volumeIDs[..i], vid)
      {
        WithoutSnoc(volumeIDs[..i], volumeIDs[i], vid);
        assert volumeIDs[..i + 1] == volumeIDs[..i] + [volumeIDs[i]];
        if volumeIDs[i] == vid {
          continue;
        }
        vids := vids + [volumeIDs[i]];
      }
      assert volumeIDs[..|volumeIDs|] == volumeIDs;
      volumeIDs := vids;
    }
  }
}
