/** Values shared by every part of the store: options, results, and the rows that the database keeps. */
module Types {

  type Key = string
  type Signature = string
  type VolumeID = string
  type Bytes = seq<bv8>

  datatype Option<+T> = None | Some(value: T)

  /** Errors that a call on a volume can return; `Fault` stands for any failing database call. */
  datatype Error = NotFound | TooLarge | OwnIDMissing | SignatureRequired | OriginalCountRequired | Fault

  datatype Result = Ok | Err(error: Error)

  /** Times are nanoseconds since the Unix epoch; this one is Go's zero time. */
  const ZERO_TIME: int := -62135596800 * 1000000000

  const NO_TTL: int := 0

  /** The row stored for one content, under its signature. */
  datatype FileRow = FileRow(keys: seq<Key>, signature: Signature, replica: int, volumeIDs: seq<VolumeID>,
                             size: int, ttl: int, createdAt: int)

  /** The row stored for one pending replication. */
  datatype Replica = Replica(id: string, originalCount: int, count: int, key: Key, signature: Signature,
                             volumeID: VolumeID, volumeIDs: seq<VolumeID>, volumeReplicaID: nat,
                             ttl: int, createdAt: int)

  /** The row with the sizes of the volume; `volumeTotal` is -1 when the volume has no size of its own. */
  datatype StateRow = StateRow(systemTotal: int, systemUsed: int, volumeTotal: int, volumeUsed: int)

  ghost predicate NoDup<T>(s: seq<T>) {
    forall i, j | 0 <= i < j < |s| :: s[i] != s[j]
  }

  /** `s` without any occurrence of `x`, in the same order. */
  function Without(s: seq<string>, x: string): (r: seq<string>)
    ensures forall y :: y in r <==> y in s && y != x
    ensures |r| <= |s|
    ensures x !in s ==> r == s
  {
    if s == [] then []
    else if s[0] == x then Without(s[1..], x)
    else [s[0]] + Without(s[1..], x)
  }

  /** `s` with `x` appended unless it is already there. */
  function WithOne(s: seq<string>, x: string): (r: seq<string>)
    ensures forall y :: y in r <==> y in s || y == x
  {
    if x in s then s else s + [x]
  }

  lemma {:induction false} WithoutSnoc(s: seq<string>, y: string, x: string)
    ensures Without(s + [y], x) == Without(s, x) + (if y == x then [] else [y])
  {
    if s == [] {
      assert [y][1..] == [];
    } else {
      WithoutSnoc(s[1..], y, x);
      assert (s + [y])[1..] == s[1..] + [y];
    }
  }

  lemma {:induction false} WithoutNoDup(s: seq<string>, x: string)
    requires NoDup(s)
    ensures NoDup(Without(s, x))
    ensures x in s ==> |Without(s, x)| == |s| - 1
  {
    if s != [] {
      WithoutNoDup(s[1..], x);
      var r := Without(s[1..], x);
      assert NoDup(s[1..]);
      if s[0] == x {
        assert x !in s[1..];
      } else {
        assert s[0] !in r;
      }
    }
  }

  lemma NoDupSnoc<T>(s: seq<T>, x: T)
    requires NoDup(s) && x !in s
    ensures NoDup(s + [x])
  {
  }
}
