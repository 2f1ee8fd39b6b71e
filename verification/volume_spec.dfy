/** What each call on a local volume does to its tables, its stored contents and its key generator. */
module VolumeSpec {
  import opened Types
  import opened Records
  import opened ReplicaQueue

  datatype Tables = Tables(
    idxkeys: map<Key, Signature>,
    files: map<Signature, FileRow>,
    idxttls: map<int, seq<Signature>>,
    idxvolumes: map<VolumeID, seq<Signature>>,
    replicas: seq<Replica>,
    state: StateRow)

  /** A volume, with the contents that lie on its disk by their signature. */
  datatype Vol = Vol(id: VolumeID, tables: Tables, blobs: map<Signature, Bytes>, lastKey: nat)

  function KeysOf(t: Tables, s: Signature): seq<Key> {
    if s in t.files then t.files[s].keys else []
  }

  // ---------------------------------------------------------------- CreateFile

  /**
   * A request to store `content`: its digest `sig`, the caller's arguments, and what the call takes from its
   * environment (the time, a clock reading for the key generator and a fresh identifier).
   */
  datatype Request = Request(key: Key, content: Bytes, sig: Signature, replica: int, ttl: int, createdAt: int,
                             now: int, tick: int, uuid: string)
  {
    function CreatedAt(): int {
      if createdAt == ZERO_TIME then now else createdAt
    }
  }

  /** The expiry table has one row for each second. */
  function Second(time: int): int {
    time / 1000000000
  }

  /** The record of the content, with the key added to it and the own volume appended, whether it was new or known. */
  function StoredFile(t: Tables, id: VolumeID, a: Request): FileRow {
    if a.sig in t.files then
      var f := t.files[a.sig];
      f.(keys := f.keys + [a.key], volumeIDs := f.volumeIDs + [id])
    else
      FileRow([a.key], a.sig, a.replica, [id], |a.content|, a.ttl, a.CreatedAt())
  }

  function WithRecord(t: Tables, id: VolumeID, a: Request): Tables {
    t.(files := t.files[a.sig := StoredFile(t, id, a)],
       state := if a.sig in t.files then t.state else Used(t.state, |a.content|))
  }

  /** Whether taking `key` from the record that it names leaves that record without keys. */
  predicate LastKeyOf(t: Tables, key: Key) {
    key in t.idxkeys && Without(KeysOf(t, t.idxkeys[key]), key) == []
  }

  /** `key` taken from the record that it names; a record left without keys is dropped. */
  function Unlisted(t: Tables, key: Key): Tables {
    if key !in t.idxkeys then t
    else
      var s := t.idxkeys[key];
      if LastKeyOf(t, key) then t.(files := t.files - {s}, idxkeys := t.idxkeys - {key})
      else t.(files := t.files[s := t.files[s].(keys := Without(t.files[s].keys, key))])
  }

  /**
   * A signature is recorded under the second in which its record expires. A row that was already there comes back
   * from the table without its time, and is stored under the zero time instead.
   */
  function Expiring(t: Tables, f: FileRow, ttl: int): (r: Tables)
    ensures r == t.(idxttls := r.idxttls)
  {
    if ttl == NO_TTL then t
    else
      var at := Second(f.createdAt + f.ttl);
      if at in t.idxttls
      then t.(idxttls := t.idxttls[Second(ZERO_TIME) := Union(t.idxttls[at], [f.signature])])
      else t.(idxttls := t.idxttls[at := Union([], [f.signature])])
  }

  function PendingReplica(id: VolumeID, a: Request, sig: Signature): Replica {
    Replica(a.uuid, a.replica, a.replica - 1, a.key, sig, id, [id], 0, a.ttl, a.CreatedAt())
  }

  function Queued(q: Queue, rp: Replica, tick: int): Queue {
    var k := NextKey(q.lastKey, tick);
    Queue(Enqueue(q.entries, k, rp), k)
  }

  function QueueOf(v: Vol): Queue {
    Queue(v.tables.replicas, v.lastKey)
  }

  /** The record stored, the key taken from its former record, and bound to the new one. */
  function Rebound(t: Tables, id: VolumeID, a: Request): Tables {
    var t1 := WithRecord(t, id, a);
    var t2 := Unlisted(t1, a.key);
    t2.(idxkeys := t2.idxkeys[a.key := StoredFile(t, id, a).signature])
  }

  /** The own copy is the first of `replica`; what is missing is put in the queue. */
  function Enlisted(t: Tables, id: VolumeID, lastKey: nat, a: Request, sig: Signature): (r: (Tables, nat))
    ensures r.0 == t.(replicas := r.0.replicas)
  {
    if a.replica - 1 >= 1 then
      var q := Queued(Queue(t.replicas, lastKey), PendingReplica(id, a, sig), a.tick);
      (t.(replicas := q.entries), q.lastKey)
    else (t, lastKey)
  }

  /** The tables after a request that passed both checks. */
  function CreateTables(t: Tables, id: VolumeID, lastKey: nat, a: Request): (Tables, nat) {
    var f := StoredFile(t, id, a);
    Enlisted(Expiring(Rebound(t, id, a), f, a.ttl), id, lastKey, a, f.signature)
  }

  /** The content is already stored under this very key. */
  predicate Known(t: Tables, a: Request) {
    a.sig in t.files && a.key in t.files[a.sig].keys
  }

  predicate Fits(t: Tables, a: Request) {
    a.sig in t.files || CanStore(t.state, |a.content|)
  }

  function CreateFile(v: Vol, a: Request): (Vol, Result) {
    var t := v.tables;
    var v1 := v.(blobs := v.blobs[a.sig := a.content]);
    if Known(t, a) then (v1, Ok)
    else if !Fits(t, a) then (v1, Err(TooLarge))
    else
      var (t', lastKey) := CreateTables(t, v.id, v.lastKey, a);
      (v1.(tables := t', lastKey := lastKey,
           blobs := if LastKeyOf(WithRecord(t, v.id, a), a.key) then v1.blobs - {t.idxkeys[a.key]} else v1.blobs),
       Ok)
  }

  // ---------------------------------------------------------------- GetFile, HasFile, DeleteFile

  function GetFile(v: Vol, key: Key): Option<Bytes> {
    if key in v.tables.idxkeys && v.tables.idxkeys[key] in v.blobs
    then Some(v.blobs[v.tables.idxkeys[key]]) else None
  }

  function HasFile(v: Vol, key: Key): (VolumeID, bool) {
    if key in v.tables.idxkeys then (v.id, true) else ("", false)
  }

  function SizeOf(t: Tables, s: Signature): int {
    if s in t.files then t.files[s].size else 0
  }

  function DeleteTables(t: Tables, key: Key): (Tables, Result) {
    if key !in t.idxkeys then (t, Err(NotFound))
    else
      var s := t.idxkeys[key];
      if LastKeyOf(t, key) && !CanStore(t.state, -SizeOf(t, s)) then (t, Err(TooLarge))
      else
        (Unlisted(t, key).(idxkeys := t.idxkeys - {key},
                           state := if LastKeyOf(t, key) then Used(t.state, -SizeOf(t, s)) else t.state), Ok)
  }

  function DeleteFile(v: Vol, key: Key): (Vol, Result) {
    var (t', r) := DeleteTables(v.tables, key);
    (v.(tables := t',
        blobs := if r.Ok? && LastKeyOf(v.tables, key) then v.blobs - {v.tables.idxkeys[key]} else v.blobs), r)
  }

  // ---------------------------------------------------------------- Replicas

  function SignaturesFor(idx: map<VolumeID, seq<Signature>>, vid: VolumeID): seq<Signature> {
    if vid in idx then idx[vid] else []
  }

  function Indexed(idx: map<VolumeID, seq<Signature>>, vid: VolumeID, sig: Signature): map<VolumeID, seq<Signature>> {
    idx[vid := WithOne(SignaturesFor(idx, vid), sig)]
  }

  function UpdateReplica(v: Vol, rp: Replica, vid: VolumeID, tick: int): (Vol, Result) {
    var t := v.tables;
    if rp.signature == "" then (v, Err(SignatureRequired))
    else if rp.originalCount == 0 then (v, Err(OriginalCountRequired))
    else if rp.signature !in t.files then (v, Err(NotFound))
    else
      var f := t.files[rp.signature];
      var q := Turned(QueueOf(v), rp, tick);
      (v.(tables := t.(files := t.files[f.signature := f.(volumeIDs := f.volumeIDs + [vid], replica := rp.originalCount)],
                       idxvolumes := Indexed(t.idxvolumes, vid, f.signature),
                       replicas := q.entries),
          lastKey := q.lastKey), Ok)
  }

  /** The signature indexed under every listed volume but the own one. */
  function IndexedAll(idx: map<VolumeID, seq<Signature>>, vids: seq<VolumeID>, own: VolumeID, sig: Signature)
    : map<VolumeID, seq<Signature>>
    decreases |vids|
  {
    if vids == [] then idx
    else
      var n := |vids| - 1;
      var idx1 := IndexedAll(idx, vids[..n], own, sig);
      if vids[n] == own then idx1 else Indexed(idx1, vids[n], sig)
  }

  function UpdateFileReplica(v: Vol, key: Key, vids: seq<VolumeID>, replica: int): (Vol, Result) {
    var t := v.tables;
    if v.id !in vids then (v, Err(OwnIDMissing))
    else if key !in t.idxkeys || t.idxkeys[key] !in t.files then (v, Err(NotFound))
    else
      var f := t.files[t.idxkeys[key]];
      (v.(tables := t.(files := t.files[f.signature := f.(volumeIDs := vids, replica := replica)],
                       idxvolumes := IndexedAll(t.idxvolumes, vids, v.id, f.signature))), Ok)
  }

  function RepairEntry(f: FileRow, id: VolumeID, survivors: seq<VolumeID>, uuid: string): Replica
    requires f.keys != []
  {
    Replica(uuid, f.replica, f.replica - |survivors|, f.keys[0], f.signature, id, survivors, 0, 0, ZERO_TIME)
  }

  function At<T>(s: seq<T>, i: nat, default: T): T {
    if i < |s| then s[i] else default
  }

  /** Whether `id` comes first once `vid` is taken from the list of volumes of the file. */
  predicate Heads(f: FileRow, id: VolumeID, vid: VolumeID) {
    var survivors := Without(f.volumeIDs, vid);
    survivors != [] && survivors[0] == id && f.keys != []
  }

  /** The queue after the loop over `sigs`, and whether every one of them had a record. */
  function SyncLoop(t: Tables, id: VolumeID, vid: VolumeID, sigs: seq<Signature>, q: Queue,
                    uuids: seq<string>, ticks: seq<int>): (Queue, bool)
    decreases |sigs|
  {
    if sigs == [] then (q, true)
    else
      var n := |sigs| - 1;
      var (q1, ok) := SyncLoop(t, id, vid, sigs[..n], q, uuids, ticks);
      if !ok || sigs[n] !in t.files then (q1, false)
      else
        var f := t.files[sigs[n]];
        if Heads(f, id, vid)
        then (Queued(q1, RepairEntry(f, id, Without(f.volumeIDs, vid), At(uuids, n, "")), At(ticks, n, 0)), true)
        else (q1, true)
  }

  /** A failing loop leaves the tables as they were, but the keys that it drew stay drawn. */
  function SynchronizeReplicas(v: Vol, vid: VolumeID, uuids: seq<string>, ticks: seq<int>): (Vol, Result) {
    var t := v.tables;
    if vid !in t.idxvolumes then (v, Err(NotFound))
    else
      var (q, ok) := SyncLoop(t, v.id, vid, t.idxvolumes[vid], QueueOf(v), uuids, ticks);
      if ok then (v.(tables := t.(replicas := q.entries), lastKey := q.lastKey), Ok)
      else (v.(lastKey := q.lastKey), Err(NotFound))
  }

  function NextReplica(v: Vol): Option<Replica> {
    if v.tables.replicas == [] then None else Some(v.tables.replicas[0])
  }

  // ---------------------------------------------------------------- The sweep of expired signatures

  function DeleteKeys(t: Tables, keys: seq<Key>): Tables
    decreases |keys|
  {
    if keys == [] then t else DeleteKeys(DeleteTables(t, keys[0]).0, keys[1..])
  }

  /** The nested loops over the expired rows, their signatures and the keys of each record. */
  function SweepTables(t: Tables, sigs: seq<Signature>): Tables
    decreases |sigs|
  {
    if sigs == [] then t else SweepTables(DeleteKeys(t, KeysOf(t, sigs[0])), sigs[1..])
  }

  /** The records that the sweep drops, in order. */
  function Swept(t: Tables, sigs: seq<Signature>): seq<Signature>
    decreases |sigs|
  {
    if sigs == [] then []
    else (if sigs[0] in t.files then [sigs[0]] else []) + Swept(DeleteKeys(t, KeysOf(t, sigs[0])), sigs[1..])
  }

  function Flat(rows: seq<seq<Signature>>): seq<Signature> {
    if rows == [] then [] else rows[0] + Flat(rows[1..])
  }

  /**
   * All removals of the sweep share one unit of work, whose commit deletes at most the file of the last one: the
   * other files are put back. With `spare` room in the log the last one is put back too.
   */
  function Sweep(v: Vol, rows: seq<seq<Signature>>, spare: bool): Vol {
    var sigs := Flat(rows);
    var dropped := Swept(v.tables, sigs);
    v.(tables := SweepTables(v.tables, sigs),
       blobs := if dropped == [] || (spare && |dropped| > 1) then v.blobs
                else v.blobs - {dropped[|dropped| - 1]})
  }
}
