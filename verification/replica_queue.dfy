/** The queue of pending replications: a table ordered by the bytes of generated decimal keys. */
module ReplicaQueue {
  import opened Types

  // ---------------------------------------------------------------- The queue as a list

  /** The next key: the clock, or one more than the last key when the clock has not passed it. */
  function NextKey(lastKey: nat, now: int): (k: nat)
    ensures lastKey < k
    ensures k == now || (k == lastKey + 1 && now <= lastKey)
  {
    if now <= lastKey then lastKey + 1 else now
  }

  /** The entry stored under `k`: in the place of that key, and over an entry that has this very key. */
  function Enqueue(q: seq<Replica>, k: nat, rp: Replica): (r: seq<Replica>)
    ensures forall e :: e in r ==> e in q || e == rp.(volumeReplicaID := k)
    ensures rp.(volumeReplicaID := k) in r
  {
    if q == [] || k < q[0].volumeReplicaID then [rp.(volumeReplicaID := k)] + q
    else if k == q[0].volumeReplicaID then [rp.(volumeReplicaID := k)] + q[1..]
    else [q[0]] + Enqueue(q[1..], k, rp)
  }

  /** The queue without the entry stored under key `k`. */
  function Omit(q: seq<Replica>, k: nat): (r: seq<Replica>)
    ensures forall e :: e in r <==> e in q && e.volumeReplicaID != k
  {
    if q == [] then []
    else if q[0].volumeReplicaID == k then Omit(q[1..], k)
    else [q[0]] + Omit(q[1..], k)
  }

  /** The entries in the order of their keys. */
  ghost predicate Sorted(q: seq<Replica>) {
    forall i, j | 0 <= i < j < |q| :: q[i].volumeReplicaID < q[j].volumeReplicaID
  }

  ghost predicate Below(q: seq<Replica>, k: nat) {
    forall i | 0 <= i < |q| :: q[i].volumeReplicaID < k
  }

  /** Sorted, with keys that the generator has given out since the process began. */
  ghost predicate Ordered(q: seq<Replica>, lastKey: nat) {
    Sorted(q) && forall i | 0 <= i < |q| :: q[i].volumeReplicaID <= lastKey
  }

  lemma {:induction false} EnqueueLast(q: seq<Replica>, k: nat, rp: Replica)
    requires Below(q, k)
    ensures Enqueue(q, k, rp) == q + [rp.(volumeReplicaID := k)]
  {
    if q != [] {
      EnqueueLast(q[1..], k, rp);
    }
  }

  /** What a stored entry does to the others: one with the same key is lost, and no other. */
  lemma {:induction false} EnqueueSorted(q: seq<Replica>, k: nat, rp: Replica)
    requires Sorted(q)
    ensures Sorted(Enqueue(q, k, rp))
    ensures forall e :: e in Enqueue(q, k, rp) <==> e == rp.(volumeReplicaID := k) || (e in q && e.volumeReplicaID != k)
  {
    if q != [] && k > q[0].volumeReplicaID {
      var tail, r := q[1..], Enqueue(q[1..], k, rp);
      EnqueueSorted(tail, k, rp);
      forall o | o in r
        ensures q[0].volumeReplicaID < o.volumeReplicaID
      {
        if o in tail {
          var i :| 0 <= i < |tail| && tail[i] == o;
          assert q[i + 1] == o;
        }
      }
      ConsSorted(q[0], r);
      assert q == [q[0]] + tail;
    } else if q != [] {
      EnqueueFront(q, k, rp);
    }
  }

  lemma EnqueueFront(q: seq<Replica>, k: nat, rp: Replica)
    requires Sorted(q) && q != [] && k <= q[0].volumeReplicaID
    ensures Sorted(Enqueue(q, k, rp))
    ensures forall e :: e in Enqueue(q, k, rp) <==> e == rp.(volumeReplicaID := k) || (e in q && e.volumeReplicaID != k)
  {
    var e, rest := rp.(volumeReplicaID := k), if k == q[0].volumeReplicaID then q[1..] else q;
    assert Enqueue(q, k, rp) == [e] + rest;
    hide Enqueue;
    TailAbove(q);
    assert Sorted(rest);
    hide Sorted;
    assert forall o :: o in q <==> o == q[0] || o in q[1..];
    ConsSorted(e, rest);
    assert forall o :: o in [e] + rest <==> o == e || o in rest;
  }

  lemma TailAbove(q: seq<Replica>)
    requires Sorted(q) && q != []
    ensures Sorted(q[1..]) && forall o | o in q[1..] :: q[0].volumeReplicaID < o.volumeReplicaID
  {
    forall o | o in q[1..]
      ensures q[0].volumeReplicaID < o.volumeReplicaID
    {
      var i :| 0 <= i < |q[1..]| && q[1..][i] == o;
      assert q[i + 1] == o;
    }
  }

  lemma EnqueueOrdered(q: seq<Replica>, lastKey: nat, k: nat, rp: Replica)
    requires Ordered(q, lastKey) && lastKey < k
    ensures Enqueue(q, k, rp) == q + [rp.(volumeReplicaID := k)] && Ordered(Enqueue(q, k, rp), k)
  {
    EnqueueLast(q, k, rp);
  }

  /** Exactly when a stored entry joins the queue at its end, with nothing lost: when its key is above all others. */
  lemma EnqueueExactly(q: seq<Replica>, k: nat, rp: Replica)
    requires Sorted(q)
    ensures q <= Enqueue(q, k, rp) && |Enqueue(q, k, rp)| == |q| + 1 <==> Below(q, k)
    ensures (forall e | e in q :: e in Enqueue(q, k, rp)) <==>
            (forall e | e in q :: e.volumeReplicaID != k || e == rp.(volumeReplicaID := k))
  {
    EnqueueSorted(q, k, rp);
    var r := Enqueue(q, k, rp);
    if Below(q, k) {
      EnqueueLast(q, k, rp);
    } else if q <= r && |r| == |q| + 1 {
      EndOfSorted(q, r, k, rp);
    }
  }

  /** A stored entry that left the queue before it as it was lies behind it. */
  lemma EndOfSorted(q: seq<Replica>, r: seq<Replica>, k: nat, rp: Replica)
    requires Sorted(q) && Sorted(r) && q <= r && |r| == |q| + 1
    requires forall e :: e in r <==> e == rp.(volumeReplicaID := k) || (e in q && e.volumeReplicaID != k)
    ensures Below(q, k)
  {
    var last := r[|q|];
    assert last in r;
    forall j | 0 <= j < |q|
      ensures q[j] == r[j] && q[j] != last
    {
      assert r[j].volumeReplicaID < r[|q|].volumeReplicaID;
    }
    assert last == rp.(volumeReplicaID := k);
  }

  lemma {:induction false} RemoveAbsent(q: seq<Replica>, k: nat)
    requires forall i | 0 <= i < |q| :: q[i].volumeReplicaID != k
    ensures Omit(q, k) == q
  {
    if q != [] {
      RemoveAbsent(q[1..], k);
    }
  }

  lemma RemoveHead(q: seq<Replica>)
    requires Sorted(q) && q != []
    ensures Omit(q, q[0].volumeReplicaID) == q[1..]
  {
    RemoveAbsent(q[1..], q[0].volumeReplicaID);
  }

  lemma ConsSorted(e: Replica, q: seq<Replica>)
    requires Sorted(q)
    requires forall o | o in q :: e.volumeReplicaID < o.volumeReplicaID
    ensures Sorted([e] + q)
  {
    var r := [e] + q;
    forall i, j | 0 <= i < j < |r|
      ensures r[i].volumeReplicaID < r[j].volumeReplicaID
    {
      assert r[j] == q[j - 1] && q[j - 1] in q;
    }
  }

  lemma {:induction false} RemoveSorted(q: seq<Replica>, k: nat)
    requires Sorted(q)
    ensures Sorted(Omit(q, k))
  {
    if q != [] {
      var tail := q[1..];
      assert Sorted(tail);
      RemoveSorted(tail, k);
      var r := Omit(tail, k);
      forall o | o in r
        ensures q[0].volumeReplicaID < o.volumeReplicaID
      {
        assert o in tail;
        var i :| 0 <= i < |tail| && tail[i] == o;
        assert q[i + 1] == o;
      }
      ConsSorted(q[0], r);
    }
  }

  lemma RemoveOrdered(q: seq<Replica>, k: nat, lastKey: nat)
    requires Ordered(q, lastKey)
    ensures Ordered(Omit(q, k), lastKey)
  {
    RemoveSorted(q, k);
    forall i | 0 <= i < |Omit(q, k)|
      ensures Omit(q, k)[i].volumeReplicaID <= lastKey
    {
      assert Omit(q, k)[i] in q;
    }
  }

  // ---------------------------------------------------------------- Decimal keys and their byte order

  function Digit(d: nat): char
    requires d < 10
  {
    '0' + d as char
  }

  function Decimal(n: nat): (s: string)
    ensures |s| > 0
  {
    if n < 10 then [Digit(n)] else Decimal(n / 10) + [Digit(n % 10)]
  }

  /** The number that a row of digits stands for. */
  function Number(s: string): int
    decreases |s|
  {
    if s == [] then 0 else 10 * Number(s[..|s| - 1]) + (s[|s| - 1] as int - '0' as int)
  }

  /** A printed key is a row of decimal digits that reads as its number. */
  lemma {:induction false} DecimalReads(n: nat)
    ensures Number(Decimal(n)) == n
    ensures forall i | 0 <= i < |Decimal(n)| :: '0' <= Decimal(n)[i] <= '9'
  {
    var s := Decimal(n);
    if n < 10 {
      assert s[..0] == [];
    } else {
      DecimalReads(n / 10);
      assert s[..|s| - 1] == Decimal(n / 10);
    }
  }

  /** Byte-wise lexicographic order, the order in which the table is walked. */
  predicate Less(a: string, b: string) {
    b != [] && (a == [] || a[0] < b[0] || (a[0] == b[0] && Less(a[1..], b[1..])))
  }

  function Pow10(k: nat): (p: nat)
    ensures p > 0
  {
    if k == 0 then 1 else 10 * Pow10(k - 1)
  }

  lemma {:induction false} LessSnoc(a: string, x: char, b: string, y: char)
    requires |a| == |b|
    ensures Less(a + [x], b + [y]) <==> Less(a, b) || (a == b && x < y)
  {
    if a == [] {
      assert a + [x] == [x] && b + [y] == [y];
    } else {
      LessSnoc(a[1..], x, b[1..], y);
      assert (a + [x])[1..] == a[1..] + [x] && (b + [y])[1..] == b[1..] + [y];
      assert a == b <==> a[0] == b[0] && a[1..] == b[1..];
    }
  }

  lemma {:induction false} LessLonger(a: string, b: string, y: char)
    requires |a| <= |b|
    ensures Less(a, b + [y]) <==> Less(a, b) || a == b
  {
    if a == [] {
    } else {
      LessLonger(a[1..], b[1..], y);
      assert (b + [y])[1..] == b[1..] + [y];
      assert a == b <==> a[0] == b[0] && a[1..] == b[1..];
    }
  }

  lemma {:induction false} Width(n: nat, k: nat)
    requires if k == 0 then n < 10 else Pow10(k) <= n < Pow10(k + 1)
    ensures |Decimal(n)| == k + 1
  {
    if k > 0 {
      assert Pow10(k + 1) == 10 * Pow10(k) && Pow10(k) == 10 * Pow10(k - 1);
      if k == 1 {
        assert Pow10(1) == 10 * Pow10(0);
      }
      Width(n / 10, k - 1);
    }
  }

  /** Keys printed with the same number of digits are walked in the order of the numbers. */
  lemma {:induction false} SameWidthOrder(a: nat, b: nat)
    requires |Decimal(a)| == |Decimal(b)|
    ensures Less(Decimal(a), Decimal(b)) <==> a < b
    ensures Decimal(a) == Decimal(b) <==> a == b
  {
    if a < 10 {
      assert b < 10;
      var x, y := Decimal(a), Decimal(b);
      assert x == [Digit(a)] && y == [Digit(b)];
      assert x[1..] == [] && y[1..] == [];
    } else {
      assert b >= 10;
      SameWidthOrder(a / 10, b / 10);
      LessSnoc(Decimal(a / 10), Digit(a % 10), Decimal(b / 10), Digit(b % 10));
      var x, y := Decimal(a), Decimal(b);
      assert x[..|x| - 1] == Decimal(a / 10) && y[..|y| - 1] == Decimal(b / 10);
      assert x[|x| - 1] == Digit(a % 10) && y[|y| - 1] == Digit(b % 10);
    }
  }

  lemma LastDigit(b: nat)
    requires b >= 10
    ensures Decimal(b) == Decimal(b / 10) + [Digit(b % 10)] && |Decimal(b)| == |Decimal(b / 10)| + 1
  {
  }

  lemma Tenfold(d: nat)
    ensures Pow10(0) == 1 && Pow10(d + 1) == 10 * Pow10(d)
  {
  }

  /** Exactly when a shorter key is walked before a longer one: its digits must not exceed the other's first digits. */
  lemma {:induction false} ByteOrder(a: nat, b: nat)
    requires |Decimal(a)| <= |Decimal(b)|
    ensures Less(Decimal(a), Decimal(b)) <==>
            if |Decimal(a)| == |Decimal(b)| then a < b else a * Pow10(|Decimal(b)| - |Decimal(a)|) <= b
  {
    var d := |Decimal(b)| - |Decimal(a)|;
    if d == 0 {
      SameWidthOrder(a, b);
    } else {
      assert b >= 10;
      hide Less, Decimal, Pow10;
      LastDigit(b);
      LessLonger(Decimal(a), Decimal(b / 10), Digit(b % 10));
      ByteOrder(a, b / 10);
      Tenfold(d - 1);
      if d == 1 {
        SameWidthOrder(a, b / 10);
        Tenfold(0);
        assert a < b / 10 || a == b / 10 <==> a * 10 <= b;
      } else {
        TenTimes(a, Pow10(d - 1), b);
      }
    }
  }

  lemma TenTimes(a: nat, p: nat, b: nat)
    ensures a * (10 * p) <= b <==> a * p <= b / 10
  {
    assert a * (10 * p) == 10 * (a * p);
  }

  /** Clock readings from September 2001 until the 64-bit counter ends all have nineteen digits. */
  lemma NineteenDigits(n: nat)
    requires 1_000_000_000_000_000_000 <= n < 0x8000_0000_0000_0000
    ensures |Decimal(n)| == 19
  {
    Pow10Value();
    Width(n, 18);
  }

  lemma Pow10Value()
    ensures Pow10(18) == 1_000_000_000_000_000_000
    ensures Pow10(19) == 10_000_000_000_000_000_000
  {
    assert Pow10(6) == 1_000_000;
    assert Pow10(12) == 1_000_000_000_000;
    assert Pow10(18) == 1_000_000_000_000_000_000;
  }

  // ---------------------------------------------------------------- Generator and repository

  class KeyGenerator {
    var lastKey: nat

    constructor ()
      ensures lastKey == 0
    {
      lastKey := 0;
    }

    method New(now: int) returns (key: string)
      modifies this
      ensures lastKey == NextKey(old(lastKey), now) && key == Decimal(lastKey)
      ensures now > old(lastKey) ==> lastKey == now
      ensures now <= old(lastKey) ==> lastKey == old(lastKey) + 1
    {
      var t := now;
      if t <= lastKey {
        t := lastKey + 1;
      }
      lastKey := t;
      key := Decimal(t);
    }
  }

  lemma {:induction false} DecimalInjective(a: nat, b: nat)
    requires Decimal(a) == Decimal(b)
    ensures a == b
  {
    SameWidthOrder(a, b);
  }

  /** The key of `e` comes first in the table among the keys of `q`. */
  ghost predicate WalkedFirst(e: Replica, q: seq<Replica>) {
    forall o | o in q && o != e :: Less(Decimal(e.volumeReplicaID), Decimal(o.volumeReplicaID))
  }

  class ReplicaRepository {
    const generator: KeyGenerator
    var bucket: map<string, Replica>
    ghost var entries: seq<Replica>

    /** The bucket holds the entries, each under its own key. The generator may know nothing of these keys. */
    ghost predicate Valid()
      reads this
    {
      Sorted(entries) && Buckets(bucket, entries)
    }

    constructor (generator: KeyGenerator)
      ensures Valid() && entries == [] && this.generator == generator
    {
      this.generator, bucket, entries := generator, map[], [];
    }

    /** The bucket of a database that an earlier process filled. */
    constructor Reopen(generator: KeyGenerator, bucket: map<string, Replica>, ghost entries: seq<Replica>)
      requires Sorted(entries) && Buckets(bucket, entries)
      ensures Valid() && this.bucket == bucket && this.entries == entries && this.generator == generator
    {
      this.generator, this.bucket, this.entries := generator, bucket, entries;
    }

    /** Within one process a new key never meets one that is still in the bucket. */
    method Create(rp: Replica, now: int) returns (stored: Replica)
      requires Valid()
      modifies this, generator
      ensures Valid() && generator.lastKey == NextKey(old(generator.lastKey), now)
      ensures stored == rp.(volumeReplicaID := generator.lastKey)
      ensures bucket == old(bucket)[Decimal(generator.lastKey) := stored]
      ensures entries == Enqueue(old(entries), generator.lastKey, rp)
      ensures Ordered(old(entries), old(generator.lastKey)) ==>
                && Ordered(entries, generator.lastKey) && Decimal(generator.lastKey) !in old(bucket)
                && entries == old(entries) + [stored]
    {
      var key := generator.New(now);
      stored := rp.(volumeReplicaID := generator.lastKey);
      PutKeeps(bucket, entries, generator.lastKey, rp);
      if Ordered(entries, old(generator.lastKey)) {
        EnqueueOrdered(entries, old(generator.lastKey), generator.lastKey, rp);
        if key in bucket {
          DecimalInjective(bucket[key].volumeReplicaID, generator.lastKey);
          assert false;
        }
      }
      bucket := bucket[key := stored];
      entries := Enqueue(entries, generator.lastKey, rp);
    }

    /** The cursor stops at the least key; that is the first entry exactly when byte order agrees with the keys. */
    method First() returns (r: Option<Replica>)
      requires Valid()
      ensures r.None? <==> entries == []
      ensures r.Some? ==> r.value in entries && WalkedFirst(r.value, entries)
      ensures r.Some? ==> (r.value == entries[0] <==> WalkedFirst(entries[0], entries))
    {
      hide Less, Decimal, Sorted;
      assert entries != [] ==> entries[0] in entries;
      if bucket == map[] {
        return None;
      }
      var least := LeastKey(bucket.Keys);
      r := Some(bucket[least]);
      assert WalkedFirst(r.value, entries);
      if WalkedFirst(entries[0], entries) && r.value != entries[0] {
        LessAsymmetric(least, Decimal(entries[0].volumeReplicaID));
      }
    }

    method Delete(rp: Replica)
      requires Valid()
      modifies this
      ensures Valid() && entries == Omit(old(entries), rp.volumeReplicaID)
      ensures bucket == old(bucket) - {Decimal(rp.volumeReplicaID)}
    {
      bucket := bucket - {Decimal(rp.volumeReplicaID)};
      RemoveSorted(entries, rp.volumeReplicaID);
      forall e | e in entries && Decimal(e.volumeReplicaID) == Decimal(rp.volumeReplicaID)
        ensures e.volumeReplicaID == rp.volumeReplicaID
      {
        DecimalInjective(e.volumeReplicaID, rp.volumeReplicaID);
      }
      entries := Omit(entries, rp.volumeReplicaID);
    }
  }

  /** Each entry lies in the bucket under its own key, and nothing else does. */
  ghost predicate Buckets(bucket: map<string, Replica>, entries: seq<Replica>) {
    && (forall k | k in bucket :: bucket[k] in entries && k == Decimal(bucket[k].volumeReplicaID))
    && (forall e | e in entries :: Decimal(e.volumeReplicaID) in bucket && bucket[Decimal(e.volumeReplicaID)] == e)
  }

  lemma PutKeeps(bucket: map<string, Replica>, entries: seq<Replica>, k: nat, rp: Replica)
    requires Sorted(entries) && Buckets(bucket, entries)
    ensures Sorted(Enqueue(entries, k, rp))
    ensures Buckets(bucket[Decimal(k) := rp.(volumeReplicaID := k)], Enqueue(entries, k, rp))
  {
    EnqueueSorted(entries, k, rp);
    hide Sorted, Enqueue, Decimal;
    var stored := rp.(volumeReplicaID := k);
    var bucket', entries' := bucket[Decimal(k) := stored], Enqueue(entries, k, rp);
    forall e | e in entries'
      ensures Decimal(e.volumeReplicaID) in bucket' && bucket'[Decimal(e.volumeReplicaID)] == e
    {
      if e != stored && Decimal(e.volumeReplicaID) == Decimal(k) {
        DecimalInjective(e.volumeReplicaID, k);
      }
    }
    forall key | key in bucket'
      ensures bucket'[key] in entries' && key == Decimal(bucket'[key].volumeReplicaID)
    {
      assert key != Decimal(k) ==> bucket[key] in entries && key == Decimal(bucket[key].volumeReplicaID);
    }
  }

  /** The cursor's first key: the least of all, found by looking at each. */
  method LeastKey(keys: set<string>) returns (least: string)
    requires keys != {}
    ensures least in keys && forall k | k in keys && k != least :: Less(least, k)
  {
    hide Less;
    least :| least in keys;
    var rest := keys - {least};
    while rest != {}
      invariant least in keys && rest <= keys
      invariant forall k | k in keys && k !in rest && k != least :: Less(least, k)
      decreases |rest|
    {
      var k :| k in rest;
      rest := rest - {k};
      if k != least {
        LessTotal(k, least);
        if Less(k, least) {
          LessTransitive(k, least, keys - rest);
          least := k;
        }
      }
    }
  }

  // ---------------------------------------------------------------- A new process over an old bucket

  /**
   * The generator of a new process knows no key of the bucket. The first entry that it stores keeps the others, and
   * their order, exactly when its clock reading lies above every stored key; the process then is as good as the old one.
   */
  lemma ReopenedExactly(q: seq<Replica>, now: int, rp: Replica)
    requires Sorted(q)
    ensures var after, reading := Enqueue(q, NextKey(0, now), rp), if now > 0 then now else 1;
            && (q <= after && |after| == |q| + 1 <==> forall e | e in q :: e.volumeReplicaID < reading)
            && ((forall e | e in q :: e.volumeReplicaID < reading) ==>
                  after == q + [rp.(volumeReplicaID := reading)] && Ordered(after, reading))
            && ((forall e | e in q :: e in after) <==>
                (forall e | e in q :: e.volumeReplicaID != reading || e == rp.(volumeReplicaID := reading)))
  {
    var k := if now > 0 then now else 1;
    EnqueueExactly(q, k, rp);
    BelowAll(q, k);
    if Below(q, k) {
      EnqueueLast(q, k, rp);
    }
    hide Sorted, Enqueue;
  }

  lemma BelowAll(q: seq<Replica>, k: nat)
    ensures Below(q, k) <==> forall e | e in q :: e.volumeReplicaID < k
  {
    assert forall i | 0 <= i < |q| :: q[i] in q;
  }

  /** A clock that was set back behind a pending entry: the new entry goes before it. */
  lemma ReopenedBehind(q: seq<Replica>, now: int, rp: Replica, i: nat)
    requires Sorted(q) && now > 0 && i < |q| && now < q[i].volumeReplicaID
    ensures Precedes(Enqueue(q, NextKey(0, now), rp), rp.(volumeReplicaID := now), q[i])
  {
    EnqueueSorted(q, now, rp);
    assert NextKey(0, now) == now && q[i] in q;
    hide Enqueue, Sorted;
    InOrder(Enqueue(q, now, rp), rp.(volumeReplicaID := now), q[i]);
  }

  ghost predicate Precedes(q: seq<Replica>, e: Replica, o: Replica) {
    exists j, k :: 0 <= j < k < |q| && q[j] == e && q[k] == o
  }

  lemma InOrder(q: seq<Replica>, e: Replica, o: Replica)
    requires Sorted(q) && e in q && o in q && e.volumeReplicaID < o.volumeReplicaID
    ensures Precedes(q, e, o)
  {
    var j :| 0 <= j < |q| && q[j] == e;
    var k :| 0 <= k < |q| && q[k] == o;
    assert k < j ==> q[k].volumeReplicaID < q[j].volumeReplicaID;
  }

  /** A clock that stands where it stood when the pending entry was stored: the entry is lost. */
  lemma ReopenedCollides(pending: Replica, rp: Replica)
    requires pending.volumeReplicaID == 5
    ensures NextKey(0, 5) == 5 && Enqueue([pending], NextKey(0, 5), rp) == [rp.(volumeReplicaID := 5)]
  {
    assert [pending][1..] == [];
  }

  lemma {:induction false} LessTotal(a: string, b: string)
    requires a != b
    ensures Less(a, b) || Less(b, a)
  {
    if a != [] && b != [] && a[0] == b[0] {
      assert a == [a[0]] + a[1..] && b == [b[0]] + b[1..];
      LessTotal(a[1..], b[1..]);
    }
  }

  lemma {:induction false} LessAsymmetric(a: string, b: string)
    requires Less(a, b)
    ensures !Less(b, a)
  {
    if a != [] && a[0] == b[0] {
      LessAsymmetric(a[1..], b[1..]);
    }
  }

  lemma {:induction false} LessChain(a: string, b: string, c: string)
    requires Less(a, b) && Less(b, c)
    ensures Less(a, c)
  {
    if a != [] && a[0] == b[0] && b[0] == c[0] {
      LessChain(a[1..], b[1..], c[1..]);
    }
  }

  lemma LessTransitive(k: string, least: string, seen: set<string>)
    requires Less(k, least)
    ensures forall o | o in seen && Less(least, o) :: Less(k, o)
  {
    forall o | o in seen && Less(least, o)
      ensures Less(k, o)
    {
      LessChain(k, least, o);
    }
  }

  // ---------------------------------------------------------------- First in, first out

  ghost predicate SameWidth(q: seq<Replica>) {
    forall i, j | 0 <= i < |q| && 0 <= j < |q| ::
      |Decimal(q[i].volumeReplicaID)| == |Decimal(q[j].volumeReplicaID)|
  }

  /** Among keys of one width the entry that the cursor finds is the oldest one. */
  lemma SameWidthOldestFirst(q: seq<Replica>)
    requires Sorted(q) && SameWidth(q) && q != []
    ensures WalkedFirst(q[0], q)
  {
    forall o | o in q && o != q[0]
      ensures Less(Decimal(q[0].volumeReplicaID), Decimal(o.volumeReplicaID))
    {
      var i :| 0 <= i < |q| && q[i] == o;
      SameWidthOrder(q[0].volumeReplicaID, o.volumeReplicaID);
    }
  }

  /** With keys of different widths the newer of two entries can be found first. */
  lemma WidthsMatter(old9: Replica, new10: Replica)
    requires old9.volumeReplicaID == 9 && new10.volumeReplicaID == 10
    ensures Ordered([old9, new10], 10) && !WalkedFirst([old9, new10][0], [old9, new10])
  {
    assert Decimal(10) == Decimal(1) + [Digit(0)];
    assert Decimal(10)[0] == '1' && Decimal(9)[0] == '9';
    assert new10 in [old9, new10];
  }

  /** What happens to the queue of a volume: a new entry arrives, or the head gets one successful turn. */
  datatype Step = Push(rp: Replica, now: int) | Turn(vid: VolumeID, now: int)

  datatype Queue = Queue(entries: seq<Replica>, lastKey: nat)

  /** A successful turn of `rp`: taken out, and put back at the end while copies are still missing. */
  function Turned(q: Queue, rp: Replica, now: int): Queue {
    var rest := Omit(q.entries, rp.volumeReplicaID);
    if rp.count - 1 > 0 then
      var k := NextKey(q.lastKey, now);
      Queue(Enqueue(rest, k, rp.(count := rp.count - 1)), k)
    else Queue(rest, q.lastKey)
  }

  lemma TurnedOrdered(q: Queue, rp: Replica, now: int)
    requires Ordered(q.entries, q.lastKey)
    ensures Ordered(Turned(q, rp, now).entries, Turned(q, rp, now).lastKey)
  {
    RemoveOrdered(q.entries, rp.volumeReplicaID, q.lastKey);
    if rp.count - 1 > 0 {
      EnqueueOrdered(Omit(q.entries, rp.volumeReplicaID), q.lastKey, NextKey(q.lastKey, now), rp.(count := rp.count - 1));
    }
  }

  lemma TurnedSorted(q: Queue, rp: Replica, now: int)
    requires Sorted(q.entries)
    ensures Sorted(Turned(q, rp, now).entries)
  {
    RemoveSorted(q.entries, rp.volumeReplicaID);
    if rp.count - 1 > 0 {
      EnqueueSorted(Omit(q.entries, rp.volumeReplicaID), NextKey(q.lastKey, now), rp.(count := rp.count - 1));
    }
  }

  /** The turn of the head takes it out, and puts it back at the end with one copy less to make. */
  lemma TurnedHead(q: Queue, rp: Replica, now: int)
    requires Ordered(q.entries, q.lastKey) && q.entries != [] && rp.volumeReplicaID == q.entries[0].volumeReplicaID
    ensures var k := NextKey(q.lastKey, now);
            Turned(q, rp, now).entries ==
            q.entries[1..] + if rp.count - 1 > 0 then [rp.(count := rp.count - 1, volumeReplicaID := k)] else []
  {
    RemoveHead(q.entries);
    if rp.count - 1 > 0 {
      EnqueueOrdered(q.entries[1..], q.lastKey, NextKey(q.lastKey, now), rp.(count := rp.count - 1));
    }
  }

  function Apply(q: Queue, s: Step): Queue {
    match s
    case Push(rp, now) => var k := NextKey(q.lastKey, now); Queue(Enqueue(q.entries, k, rp), k)
    case Turn(vid, now) =>
      if q.entries == [] then q
      else Turned(q, q.entries[0].(volumeIDs := q.entries[0].volumeIDs + [vid]), now)
  }

  function After(q: Queue, steps: seq<Step>): Queue
    decreases |steps|
  {
    if steps == [] then q else After(Apply(q, steps[0]), steps[1..])
  }

  /** The identifiers of the entries that got a turn, in order. */
  function Turns(q: Queue, steps: seq<Step>): seq<string>
    decreases |steps|
  {
    if steps == [] then []
    else (if steps[0].Turn? && q.entries != [] then [q.entries[0].id] else []) + Turns(Apply(q, steps[0]), steps[1..])
  }

  function IDs(q: seq<Replica>): seq<string> {
    seq(|q|, i requires 0 <= i < |q| => q[i].id)
  }

  lemma ApplyOrdered(q: Queue, s: Step)
    requires Ordered(q.entries, q.lastKey)
    ensures Ordered(Apply(q, s).entries, Apply(q, s).lastKey)
    ensures s.Turn? && q.entries != [] ==> q.entries[1..] <= Apply(q, s).entries
    ensures s.Push? ==> q.entries <= Apply(q, s).entries
  {
    match s
    case Push(rp, now) => EnqueueOrdered(q.entries, q.lastKey, NextKey(q.lastKey, now), rp);
    case Turn(vid, now) =>
      if q.entries != [] {
        var head := q.entries[0].(volumeIDs := q.entries[0].volumeIDs + [vid]);
        TurnedHead(q, head, now);
        TurnedOrdered(q, head, now);
      }
  }

  lemma PrefixTail(a: seq<Replica>, q: seq<Replica>, r: seq<Replica>)
    requires a != [] && a <= q && q[1..] <= r
    ensures a[1..] <= r
  {
    assert a[1..] == q[1..][..|a| - 1];
  }

  /** While an entry waits behind `ahead`, the turns are those of `ahead`, in order and once each. */
  lemma {:induction false} WaitingTurns(q: Queue, steps: seq<Step>, ahead: seq<Replica>, e: Replica)
    requires Ordered(q.entries, q.lastKey) && ahead + [e] <= q.entries
    requires e.id !in Turns(q, steps)
    ensures |Turns(q, steps)| <= |ahead| && Turns(q, steps) == IDs(ahead)[..|Turns(q, steps)|]
    ensures ahead[|Turns(q, steps)|..] + [e] <= After(q, steps).entries
    decreases |steps|
  {
    if steps == [] {
    } else if steps[0].Push? {
      ApplyOrdered(q, steps[0]);
      WaitingTurns(Apply(q, steps[0]), steps[1..], ahead, e);
    } else {
      WaitingTurn(q, steps, ahead, e);
    }
  }

  lemma {:induction false} WaitingTurn(q: Queue, steps: seq<Step>, ahead: seq<Replica>, e: Replica)
    requires Ordered(q.entries, q.lastKey) && ahead + [e] <= q.entries
    requires steps != [] && steps[0].Turn? && e.id !in Turns(q, steps)
    ensures |Turns(q, steps)| <= |ahead| && Turns(q, steps) == IDs(ahead)[..|Turns(q, steps)|]
    ensures ahead[|Turns(q, steps)|..] + [e] <= After(q, steps).entries
    decreases |steps|, 0
  {
    var q' := Apply(q, steps[0]);
    ApplyOrdered(q, steps[0]);
    var tail := Turns(q', steps[1..]);
    assert Turns(q, steps) == [q.entries[0].id] + tail;
    assert After(q, steps) == After(q', steps[1..]);
    hide Turns, After, Apply, Ordered;
    assert (ahead + [e])[0] == q.entries[0];
    assert ahead != [];
    PrefixTail(ahead + [e], q.entries, q'.entries);
    assert ahead[1..] + [e] == (ahead + [e])[1..];
    WaitingTurns(q', steps[1..], ahead[1..], e);
    FirstWaiting(ahead, tail);
  }

  lemma FirstWaiting(ahead: seq<Replica>, tail: seq<string>)
    requires ahead != [] && |tail| < |ahead| && tail == IDs(ahead[1..])[..|tail|]
    ensures [ahead[0].id] + tail == IDs(ahead)[..|tail| + 1]
    ensures ahead[1..][|tail|..] == ahead[|tail| + 1..]
  {
    assert IDs(ahead) == [ahead[0].id] + IDs(ahead[1..]);
  }

  /** Fairness: between two turns of an entry every other entry then in the queue gets exactly one turn. */
  lemma FairTurns(q: Queue, steps: seq<Step>, others: seq<Replica>, e: Replica)
    requires Ordered(q.entries, q.lastKey)
    requires q.entries == others + [e] && NoDup(IDs(q.entries))
    requires e.id !in Turns(q, steps)
    requires After(q, steps).entries != [] && After(q, steps).entries[0].id == e.id
    ensures Turns(q, steps) == IDs(others)
  {
    WaitingTurns(q, steps, others, e);
    var n := |Turns(q, steps)|;
    assert IDs(q.entries)[|others|] == e.id;
    forall i | 0 <= i < |others|
      ensures others[i].id != e.id && IDs(others)[i] == others[i].id
    {
      assert q.entries[i] == others[i] && IDs(q.entries)[i] == others[i].id;
    }
    assert IDs(others)[..|others|] == IDs(others);
  }
}
