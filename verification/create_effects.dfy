/** What an accepted create writes, row by row and field by field. */
module CreateEffects {
  import opened Types
  import opened Records
  import opened ReplicaQueue
  import opened VolumeSpec
  import opened VolumeInvariant
  import opened VolumeRuns

  // ---------------------------------------------------------------- The records

  /** A new record has what the request says; a known one keeps everything but gets the key and the own volume once more. */
  lemma RecordWritten(v: Vol, a: Request)
    requires Inv(v) && Stores(v, a)
    ensures var files, files' := v.tables.files, CreateFile(v, a).0.tables.files;
            && a.sig in files'
            && var f' := files'[a.sig];
               if a.sig in files then
                 f' == files[a.sig].(keys := files[a.sig].keys + [a.key], volumeIDs := files[a.sig].volumeIDs + [v.id])
               else
                 && f'.keys == [a.key] && f'.signature == a.sig && f'.volumeIDs == [v.id] && f'.replica == a.replica
                 && f'.size == |a.content| && f'.ttl == a.ttl
                 && f'.createdAt == if a.createdAt == ZERO_TIME then a.now else a.createdAt
  {
    CreateShape(v.tables, v.id, v.lastKey, a);
    StoredOutcome(v, a);
    hide CreateFile, CreateTables, Freed, WithRecord, LastKeyOf, Inv;
  }

  /** Every other record keeps all but the key, and only a record whose one key it was is dropped. */
  lemma OtherRecordsWritten(v: Vol, a: Request, s: Signature)
    requires Inv(v) && Stores(v, a) && s != a.sig
    ensures var files, files' := v.tables.files, CreateFile(v, a).0.tables.files;
            && (s in files' <==> s in files && files[s].keys != [a.key])
            && (s in files' ==> files'[s] == files[s].(keys := Without(files[s].keys, a.key)))
  {
    CreateShape(v.tables, v.id, v.lastKey, a);
    StoredOutcome(v, a);
    hide CreateFile, CreateTables, WithRecord, Blobs, ReverseIndexed, Quota, Stores;
    FreedShape(v.tables, a.key);
    hide Freed, LastKeyOf;
    if s in v.tables.files {
      assert GoodRecord(s, v.tables.files[s]);
      assert v.tables.files[s].keys == [a.key] ==> a.key in v.tables.files[s].keys;
      assert a.key in v.tables.files[s].keys <==> a.key in v.tables.idxkeys && v.tables.idxkeys[a.key] == s;
    }
  }

  /** A refused request changes no table, but its content is on the disk by then, without a record. */
  lemma RefusedLeavesContent(v: Vol, a: Request)
    requires CreateFile(v, a).1.Err?
    ensures var v' := CreateFile(v, a).0;
            && v'.tables == v.tables && a.sig !in v'.tables.files
            && a.sig in v'.blobs && v'.blobs[a.sig] == a.content && v'.blobs - {a.sig} == v.blobs - {a.sig}
  {
    assert a.sig !in v.tables.files;
  }

  // ---------------------------------------------------------------- The expiry rows

  /** The time, in nanoseconds, lies in the second `at`. */
  ghost predicate InSecond(time: int, at: int) {
    at * 1_000_000_000 <= time < (at + 1) * 1_000_000_000
  }

  /** The second of Go's zero time. */
  const ZERO_SECOND: int := -62135596800

  lemma SecondOf(time: int, at: int)
    ensures InSecond(time, at) <==> at == Second(time)
    ensures Second(ZERO_TIME) == ZERO_SECOND
  {
  }

  /** When the content expires: as its record says, which is the old one where the content was known. */
  function Due(v: Vol, a: Request): int {
    if a.sig in v.tables.files then v.tables.files[a.sig].createdAt + v.tables.files[a.sig].ttl
    else (if a.createdAt == ZERO_TIME then a.now else a.createdAt) + a.ttl
  }

  /**
   * Exactly when a stored request with a lifetime ends up in the row of the second in which its content expires: when
   * that second had no row yet. An existing row is read back without its time, and then replaces the row of the zero
   * time, with the signature added. No other row changes.
   */
  lemma ExpiryRecordedExactly(v: Vol, a: Request, at: int)
    requires Inv(v) && Stores(v, a) && a.ttl != NO_TTL && InSecond(Due(v, a), at)
    ensures var rows, rows' := v.tables.idxttls, CreateFile(v, a).0.tables.idxttls;
            && at in rows'
            && (a.sig in rows'[at] <==> at !in rows || a.sig in rows[at] || at == ZERO_SECOND)
            && (at in rows ==> ZERO_SECOND in rows' &&
                               forall s :: s in rows'[ZERO_SECOND] <==> s in rows[at] || s == a.sig)
            && (at !in rows ==> rows'[at] == [a.sig])
            && (forall x :: x in rows' <==> x in rows || x == if at in rows then ZERO_SECOND else at)
            && forall x | x in rows && x != ZERO_SECOND :: rows'[x] == rows[x]
  {
    CreateShape(v.tables, v.id, v.lastKey, a);
    StoredOutcome(v, a);
    SecondOf(Due(v, a), at);
    hide Inv, CreateFile, Stores, CreateTables;
    ExpiryRow(v.tables, v.id, v.lastKey, a);
    UnionOfOne(a.sig);
  }

  lemma UnionOfOne(s: Signature)
    ensures Union([], [s]) == [s]
  {
    assert [s][..0] == [];
  }

  /** A request without a lifetime, or one that is not stored, leaves the rows alone. */
  lemma NothingScheduled(v: Vol, a: Request)
    requires a.ttl == NO_TTL || !Stores(v, a)
    ensures CreateFile(v, a).0.tables.idxttls == v.tables.idxttls
  {
  }

  // ---------------------------------------------------------------- The queue

  /**
   * A stored request for more than one copy queues one entry, which has all that a copy needs to be like the own one:
   * key, content, lifetime and time of creation. It lists the own volume, counts the others, and is stored under the
   * clock reading, or the next key where the clock is behind.
   */
  lemma CreateEnlists(v: Vol, a: Request) returns (e: Replica)
    requires Inv(v) && Stores(v, a) && a.replica >= 2
    ensures e.id == a.uuid && e.key == a.key && e.signature == a.sig
    ensures e.originalCount == a.replica && e.count == a.replica - 1 && e.volumeID == v.id && e.volumeIDs == [v.id]
    ensures e.ttl == a.ttl && e.createdAt == if a.createdAt == ZERO_TIME then a.now else a.createdAt
    ensures e.volumeReplicaID == CreateFile(v, a).0.lastKey == if a.tick > v.lastKey then a.tick else v.lastKey + 1
    ensures var q, q' := v.tables.replicas, CreateFile(v, a).0.tables.replicas;
            && (forall o :: o in q' <==> o == e || (o in q && o.volumeReplicaID != e.volumeReplicaID))
            && (Ordered(q, v.lastKey) ==> q' == q + [e])
  {
    CreateQueue(v, a);
    StoredAs(v, a);
    var k, rp := NextKey(v.lastKey, a.tick), PendingReplica(v.id, a, a.sig);
    e := rp.(volumeReplicaID := k);
    hide CreateFile, Enqueue, Stores;
    EnqueueSorted(v.tables.replicas, k, rp);
    if Ordered(v.tables.replicas, v.lastKey) {
      EnqueueOrdered(v.tables.replicas, v.lastKey, k, rp);
    }
  }

  lemma StoredAs(v: Vol, a: Request)
    requires Inv(v)
    ensures StoredFile(v.tables, v.id, a).signature == a.sig
  {
    assert a.sig in v.tables.files ==> GoodRecord(a.sig, v.tables.files[a.sig]);
  }

  /** Any other request queues nothing. */
  lemma NothingEnlisted(v: Vol, a: Request)
    requires a.replica < 2 || !Stores(v, a)
    ensures QueueOf(CreateFile(v, a).0) == QueueOf(v)
  {
  }

  /**
   * The first create of a new process, over the entries of an old one: all of them keep their places before the new one
   * if and only if the clock reading lies above all their keys, and one is lost exactly when its key is the reading.
   */
  lemma RestartedCreate(v: Vol, a: Request)
    requires Inv(v) && Stores(v, a) && a.replica >= 2 && a.tick > 0
    ensures var q, q' := v.tables.replicas, CreateFile(Reopened(v), a).0.tables.replicas;
            && (q <= q' && |q'| == |q| + 1 <==> forall e | e in q :: e.volumeReplicaID < a.tick)
            && forall e | e in q && e.volumeReplicaID != a.tick :: e in q'
  {
    var v0 := Reopened(v);
    ReopenedKeeps(v);
    CreateQueue(v0, a);
    var rp := PendingReplica(v.id, a, StoredFile(v.tables, v.id, a).signature);
    ReopenedExactly(v.tables.replicas, a.tick, rp);
    hide CreateFile, Enqueue, Stores, Reopened;
    var _ := CreateEnlists(v0, a);
  }
}
