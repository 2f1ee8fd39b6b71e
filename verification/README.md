# Rebost: a verified model

Rebost is a replicated object store. A node keeps contents on a local volume under their SHA-1, reaches them through
keys, copies them to other nodes in replication rounds, and queues repairs when a node is gone. This project models
that behaviour in Dafny 4.11 and proves what it guarantees, and exactly where it does not. Check it with
`dafny verify dfyconfig.toml`.

| file | part of the system |
|---|---|
| `types.dfy`, `records.dfy`, `paths.dfy` | rows of the tables, the records that are changed in place, paths of contents |
| `replica_queue.dfy` | key generator, bucket of pending replicas, the queue it stands for |
| `fs_unit.dfy`, `db_unit.dfy` | the undo log over the file tree, the nestable transaction |
| `volume_spec.dfy` | what each call on a volume does to its tables, contents and queue, as functions |
| `volume_invariant.dfy`, `ttl_sweep.dfy`, `volume_runs.dfy` | what every call keeps, and what holds over whole runs |
| `create_effects.dfy` | what an accepted create writes, row by row and field by field |
| `blob_tree.dfy`, `local_volume.dfy` | the volume itself: imperative code over database, disk and clock, proved to do just that |
| `cluster.dfy`, `cluster_runs.dfy` | replication rounds; what they add, conserve and use up |
| `round_calls.dfy` | a round as a run of calls on each node |
| `rounds.dfy`, `after_deletes.dfy` | when a round succeeds; entries and indexes that a delete or an overwrite leaves out of date |
| `agreement.dfy`, `untouched.dfy`, `sparing.dfy`, `agreement_runs.dfy`, `agreement_exact.dfy` | all holders of a content agree on its list; which calls keep that |
| `completion.dfy` | when replication comes to its end |
| `synchronize.dfy`, `repair.dfy`, `repaired.dfy` | who repairs what when nodes are lost, and what a repair leaves behind |
| `lifetimes.dfy`, `shared_lifetime.dfy`, `outlived.dfy` | what rounds and repairs make of the lifetime of a content |
| `three_nodes.dfy` | a small cluster in which the properties that fail do fail |
| `membership.dfy` | which nodes are known and which volumes are reported as lost |
| `find_volume.dfy` | the concurrent search for a key |

## Main results

* **A volume is a map.** Over every run of creates, overwrites, deletes, replica updates, repairs, sweeps and restarts, a
  key reads the bytes of its last accepted create, unless a delete or an expiry followed (`VolumeRuns.ReadsLastWrite`).
  The step-by-step code does exactly what the functions say, and tables and files change together or not at all wherever
  the database fails (`LocalVolume.Volume.CreateFile`, `DeleteFile`). Without the assumption that digests do not
  collide, `VolumeInvariant.CreateRefinesExactly` gives the exact condition.
* **Undo logs.** Running the log from its first entry restores the tree for calls that share no path
  (`FsUnit.RollbackRestores`), and for two calls only then (`FsUnit.PairRollbackExact`). Commit is right exactly when
  nothing but the first call is a removal (`FsUnit.CommitExact`).
* **Transactions.** However units are nested, the outermost one begins and closes once, and succeeds exactly when it can:
  then all puts of its body stay, and an error at its end undoes everything (`DbUnit.Bolt.Start`).
* **Quota.** Over every run both used sizes have moved by the stored sizes and what overwriting lost, and a content is
  accepted exactly when it is known or fits what is left (`VolumeRuns.QuotaOverRuns`).
* **Agreement.** All holders of a content store the same ordered, duplicate-free list of exactly the holders, headed by
  the creator, over every run in which no call names the content or its key but its one create and rounds that reach its
  holders (`AgreementRuns.AgreementOnOverRuns`, `AgreedLists`, `CreatorHeads`). Rounds, creates, deletes, sweeps and calls
  for lost volumes each have the exact condition under which they keep it (`AgreementRuns.RoundAgreedExactly`,
  `AgreementExactly.CreateAgreedExactly`, `DeleteAgreedExactly`, `SweepAgreedExactly`, `SyncAgreedExactly`).
* **Lifetimes.** Over the same runs every holder of a content that was created once has the lifetime and the time of
  creation of that request, so all copies are due at one moment (`SharedLifetime.CopiesDueTogether`).
* **Completion.** In an agreed cluster with enough reachable nodes and room, every round of a node that has something
  pending succeeds, however the nodes take turns, and after exactly `Total(c)` of them every content has as many holders
  as it wants (`Completion.RoundsComplete`, `Completion.Drains`).
* **Repair.** When the holders agree, the head of the rest queues exactly one repair for exactly the missing copies, and
  nobody else does, unless its index names a deleted content (`Repair.UniqueRepairer`, `AfterDeletes.DeleteStopsRepairs`).
  When several nodes are lost at once, a content gets a repair exactly when one of the first two nodes of its list
  survived (`Repair.LossesRepairedExactly`). The first copy of a repair splits the list: from then on, over every run that
  spares the content or serves it, the repairer lists the lost node and nobody else does (`Repaired.RoundSplits`,
  `Repaired.OneListExactly`, `Repaired.RepairOverRuns`). After any number of copies a further loss is repaired by nobody
  exactly when the first loss was the head of the list and the second one is not the repairer, or the index of the
  survivor whose turn it is names a deleted content (`Repaired.NextLossExactly`, `Repaired.LossRepairLoss`;
  `ThreeNodes.SecondLossUnrepaired` is such a case). Repaired copies have no lifetime (`Outlived.RepairForgetsExpiry`).
* **Rounds.** A round succeeds exactly when its entry's record is still there and a target takes the copy
  (`Rounds.RoundSucceedsExactly`). Each success uses up one unit of the pending work, and after a restart what the drawn
  key displaces as well (`Cluster.RoundWork`, `ClusterRuns.RoundsEnd`). Rounds never change an existing binding, and all
  that is ever read was written by a client (`Cluster.RoundOnlyAdds`, `ClusterRuns.ContentsWereWritten`).
* **The search.** In every interleaving `findVolume` never sends on the closed channel, finds a volume exactly when one
  answered yes as long as its parent lives, and ends after at most 3n + 4 steps with all its workers gone (`FindVolume`).

## How the source is read

* SHA-1 is a parameter `sha`, free of collisions on the contents in play (`VolumeRuns.CollisionFree`). A request carries
  the digest of its content. Clock readings, identifiers and temporary names are parameters as well.
* A path is the list of its components. Times are nanoseconds since the epoch; the expiry table has one row a second.
* In `local_volume.dfy` every database call, the commit included, may fail. Disk calls fail when the file is missing.
  A call on a volume is one step; between two steps nothing of it is left over.
* A create installs its content before its transaction, so a failed create may leave a content without a record. The
  invariant is therefore that every record has its content, and not the converse.
* Both logs of the file tracker are appended from one slice. Where that slice has spare room the second append writes
  over the first; whether it has is left open (`spare`).
* A volume that is opened again has its tables and files, and a key generator that begins anew. An entry is then stored in
  the place of its key, over an entry that has this very key. `Ordered` queues are those whose keys the generator knows.
* In a cluster every node has one volume and is named by it. `down` are the nodes that do not answer in a round,
  `accepts` those whose configuration takes replicas.

The code differs from its comments, or from what one would expect of it, in these places. The model follows the code.

* `fs/unit_of_work.go:103` builds the commit log from the rollback log, so a commit with several removals puts
  all files but the last one back: a sweep leaves the other contents on disk (`TtlSweep.SweepLeavesFiles`).
* `fs/unit_of_work.go:78-121` logs a call before it is made, so the entry of a call that fails stops the rollback, which
  runs from the first entry (`FsUnit.FailedCallStopsRollback`).
* `volume/volume.go:335` appends the own volume again when a known content gets a further key.
* `volume/volume.go:366-381` drops an overwritten record without giving its size back: `VolumeRuns.QuotaOverRuns` says
  how much is lost.
* `volume/volume.go:723` takes the lost volume from the list in memory only; the repairer keeps it in its record
  (`Repaired.RepairedLists`), and a survivor that is told of two lost volumes judges each loss without knowledge of the
  other (`Repair.LossesRepairedExactly`).
* A repair counts the holders and not what is already pending, so the head of a list that is still short asks for the
  missing copies twice when another holder is lost (`Repaired.AskedExactly`).
* Nothing ever leaves the reverse index (`AfterDeletes.IndexNeverForgets`), so a volume that deleted a content which it
  shared with another one repairs nothing at all when that one is lost, unless it stores the content again
  (`AfterDeletes.DeleteStopsRepairs`).
* An entry outlives the key and the record that it was made for. A head entry whose key was deleted blocks its queue until
  the key is bound there again (`AfterDeletes.DeletedHeadBlocks`); one whose record was overwritten copies the new content to every node that takes it in
  every round, and forgets these copies (`Rounds.UnnotedCopies`).
* A repair entry carries no lifetime (`volume/volume.go:737-745`), so the copy of an expiring content outlives it: no sweep
  finds it, unless an older row of its node names it (`Outlived.RepairForgetsExpiry`).
* `boltdb/key_generate.go:20-23` begins with no last key in every process, while the bucket stays: a clock that was set
  back between two processes loses entries or puts new ones before old ones (`ReplicaQueue.ReopenedExactly`).
* `boltdb/idxttl.go:82` loses the time of a row that is read back, so the second file that expires within one second
  goes to the row of the zero time (`CreateEffects.ExpiryRecordedExactly`).
* The bucket of replicas is walked in byte order, which is the order of age only for keys of equal width
  (`ReplicaQueue.WidthsMatter`); real clock readings have nineteen digits until the counter ends.
* The comment at `membership/membership.go:180` says that each query empties the list of removed volumes; the code drops
  only those that it reports.

## Model

| member | source | states |
|---|---|---|
| `Paths.ComputePath` | file/file.go:40-50 | The loop over the bytes builds the path of the complete pairs of characters; an odd last one is dropped. |
| `Paths.PathPairs` | file/file.go:40-50 | The directories below the base are the successive pairs of characters, half as many as characters. |
| `Paths.PathInverts` | file/file.go:40-50 | The signature can be read back from the directories below the base. |
| `Paths.PathPrefixFree` | file/file.go:40-50 | For signatures of one even length, one path is a prefix of the other exactly when the signatures are equal. |
| `Paths.TmpApart` | fs/unit_of_work.go:101-110 | No waiting name is the path of a content or the waiting name of another content. |
| `Records.State.Use` | state/state.go:33-66 | The bytes are accepted if and only if they fit the volume's own size, or that of the disk where the volume has none; then both used sizes move by them, and otherwise nothing changes. |
| `Records.IDXVolume.AddSignature` | idxvolume/idxvolume.go:20-28 | The signature is appended unless it is there. |
| `Records.IDXTTL.AddSignatures` | idxttl/idxttl.go:25-36 | The list becomes its ordered union with the new signatures. |
| `Records.Union` | idxttl/idxttl.go:25-36 | The union holds exactly the members of both lists and extends the first. |
| `Records.UnionNoDup` | idxttl/idxttl.go:25-36 | The union repeats nothing that the old list did not repeat. |
| `Records.File.DeleteVolumeID` | file/file.go:54-65 | All occurrences of the volume go, the rest keeps its order, and the capacity is never negative. |
| `ReplicaQueue.KeyGenerator.New` | boltdb/key_generate.go:26-35 | The key is the decimal form of the clock reading where that is above the last key, and of the number after the last key where it is not. |
| `ReplicaQueue.ReplicaRepository.Reopen` | boltdb/replica.go:18-28 | The bucket of an earlier process, with a generator that knows none of its keys, is as usable as a new one. |
| `ReplicaQueue.ReplicaRepository.Create` | boltdb/replica.go:30-37 | The entry is stored under the drawn key, over one that has it; within one process no entry has it, so nothing pending is overwritten and the new entry comes last. |
| `ReplicaQueue.EnqueueExactly` | boltdb/replica.go:30-37 | A stored entry joins the queue at its end with nothing lost if and only if its key is above all others; an entry is lost exactly when it has the same key. |
| `ReplicaQueue.ReopenedExactly` | boltdb/key_generate.go:18-35 | The first entry of a new process keeps the queue as it was if and only if its clock reading lies above every stored key, and an entry is lost exactly when its key is the reading; a reading that is not positive counts as one. |
| `ReplicaQueue.ReopenedBehind` | boltdb/key_generate.go:18-35 | With a clock that was set back behind a pending entry the new entry goes before it. |
| `ReplicaQueue.ReopenedCollides` | boltdb/key_generate.go:18-35 | With a clock that stands at the key of the pending entry, the new entry replaces it. |
| `ReplicaQueue.ReplicaRepository.First` | boltdb/replica.go:39-50 | The cursor finds the entry whose key is walked first; it is the one with the least number exactly when byte order says so. |
| `ReplicaQueue.ReplicaRepository.Delete` | boltdb/replica.go:52-54 | The entry leaves the bucket and the queue, and no other does. |
| `ReplicaQueue.DecimalReads` | boltdb/key_generate.go:34 | A printed key is a row of decimal digits that reads as its number. |
| `ReplicaQueue.SameWidthOrder` | boltdb/key_generate.go:34 | Among keys of one width byte order is the order of the numbers. |
| `ReplicaQueue.ByteOrder` | boltdb/key_generate.go:34 | Exactly when a key is walked before a longer or equally long one. |
| `ReplicaQueue.NineteenDigits` | boltdb/key_generate.go:29-34 | Clock readings from September 2001 until the 64-bit counter ends have one width. |
| `ReplicaQueue.SameWidthOldestFirst` | boltdb/replica.go:39-50 | With keys of one width the cursor finds the entry with the least key, which within one process is the oldest. |
| `ReplicaQueue.WidthsMatter` | boltdb/replica.go:39-50 | With keys 9 and 10 it finds the newer one. |
| `ReplicaQueue.TurnedOrdered` | volume/volume.go:615-629 | A successful turn keeps the queue in the order of its keys. |
| `ReplicaQueue.WaitingTurns` | volume/volume.go:615-629 | While an entry waits, the turns are those of the entries ahead of it, in order and once each. |
| `ReplicaQueue.FairTurns` | volume/volume.go:615-629 | Between two turns of an entry every other entry that was in the queue gets exactly one turn, in order. |
| `FsUnit.UowTracker.Create` | fs/unit_of_work.go:78-83 | The deletion joins the rollback log, and the file is made exactly where the disk makes it; otherwise nothing else happens. |
| `FsUnit.UowTracker.Remove` | fs/unit_of_work.go:101-110 | The file is moved to its waiting name; the commit log becomes the rollback log and one more entry, written over where both logs share memory. |
| `FsUnit.UowTracker.Rename` | fs/unit_of_work.go:116-121 | The file is moved and the way back joins the rollback log. |
| `FsUnit.UowTracker.Finish` | fs/unit_of_work.go:34-53 | One of the logs is run from its first entry until an entry fails. |
| `FsUnit.TrackedRollback` | fs/unit_of_work.go:78-121 | The rollback log holds the undo of every call, in the order of the calls. |
| `FsUnit.ReverseRollbackRestores` | fs/unit_of_work.go:78-121 | Run from its last entry, the log would restore the tree after any calls onto fresh targets. |
| `FsUnit.UndoPrefix` | fs/unit_of_work.go:34-43 | For calls that share no path, undoing the first k of them leaves what the others alone would have left. |
| `FsUnit.RollbackRestores` | fs/unit_of_work.go:34-43 | For calls that share no path the rollback gives back the very tree. |
| `FsUnit.FailedCallStopsRollback` | fs/unit_of_work.go:34-43 | The entry of a call that failed stops the rollback, so that the calls which it has not come to are not undone, exactly where the target of that call is no file by then. |
| `FsUnit.PairRollbackExact` | fs/unit_of_work.go:34-43 | Two calls are rolled back to the very tree if and only if they share no path. |
| `FsUnit.CommitShape` | fs/unit_of_work.go:101-110 | The commit log is the undo of all calls before the last removal, followed by one entry for that removal. |
| `FsUnit.CommitExact` | fs/unit_of_work.go:44-53 | The commit leaves what the calls made, without the waiting files, if and only if nothing but the first call is a removal. |
| `DbUnit.Bolt.Begin` | boltdb/unit_of_work.go:120-140 | One transaction is opened on the data, writable or not, or the database refuses and nothing happens. |
| `DbUnit.Bolt.Commit` | boltdb/unit_of_work.go:146-154 | All writes become visible or none; the transaction is closed both ways. |
| `DbUnit.Bolt.Rollback` | boltdb/unit_of_work.go:142-144 | An open transaction is closed without effect; a closed one is left alone. |
| `DbUnit.Bolt.Join` | boltdb/unit_of_work.go:41-49 | A nested unit runs in the transaction that is open and neither begins nor ends one. |
| `DbUnit.Bolt.Start` | boltdb/unit_of_work.go:37-84 | One begin and one close for any nesting, or neither and an error; success if and only if the transaction opens, the repositories are known, no step returns an error, the body does not end with one, and the commit works; then exactly the puts of the body are in the data, those of its known nested units included, and otherwise none. |
| `DbUnit.EffectExactly` | boltdb/unit_of_work.go:37-84 | A body succeeds exactly when it does not end with an error and no step breaks it, and leaves just what was put up to there, in order. |
| `DbUnit.BadEnd` | boltdb/unit_of_work.go:71-80 | A body that would end with an error does not succeed, whatever is nested in it. |
| `DbUnit.LastPut` | boltdb/unit_of_work.go:37-84 | Under a key the last put is read. |
| `DbUnit.ReadOnly` | boltdb/unit_of_work.go:126-128 | In a read unit nothing changes the data, whatever is nested in it. |
| `DbUnit.NestedKindIgnored` | boltdb/unit_of_work.go:41-49 | The kind that a nested unit asks for has no effect. |
| `DbUnit.FailedNestedWriteStays` | boltdb/unit_of_work.go:41-49 | What a failed nested unit wrote stays when its caller drops the error. |
| `BlobTree.ContentsAre` | file/file.go:40-50 | The contents of a tree are exactly the files at the paths of signatures. |
| `BlobTree.Installed` | volume/volume.go:285-296 | A file put at the path of a signature adds that content and changes no other. |
| `BlobTree.Discarded` | volume/volume.go:373 | A file taken from the path of a signature takes that content and no other. |
| `BlobTree.RemovedOnce` | fs/unit_of_work.go:101-110 | A unit with one removal restores the very tree on rollback and drops just that file on commit. |
| `BlobTree.AfterRemovals` | fs/unit_of_work.go:101-110 | After removals of different contents exactly these wait and exactly the others are in their places. |
| `BlobTree.CommitRemovals` | fs/unit_of_work.go:44-53 | The commit of several removals drops the file of the last one at most, and puts the others back. |
| `VolumeInvariant.CreateKeepsIndex` | volume/volume.go:298-396 | A key stays bound to a signature exactly when the record of that signature lists it; records keep non-empty lists without repeats. |
| `VolumeInvariant.CreateSlack` | volume/volume.go:318-391 | A stored create loses exactly the size of the record that it drops from the quota, and nothing when it drops none. |
| `VolumeInvariant.CreateKeepsInv` | volume/volume.go:254-450 | Two-way index, contents of records, reverse index, quota and queue order survive every create. |
| `VolumeInvariant.CreateReads` | volume/volume.go:254-450 | What every key reads after an accepted create, digests that collide included. |
| `VolumeInvariant.CreateRefinesExactly` | volume/volume.go:254-450 | An accepted create is one map update if and only if no other key under its digest has other bytes. |
| `VolumeInvariant.CreateRefines` | volume/volume.go:254-450 | It fails exactly when its content is new and does not fit, and then changes nothing that is read. |
| `CreateEffects.RecordWritten` | volume/volume.go:299-340 | The record after a stored create, field by field: as requested when it is new; with the key and the own volume once more when it was known. |
| `CreateEffects.OtherRecordsWritten` | volume/volume.go:342-391 | Every other record loses at most the key, and goes exactly when that was its only one. |
| `CreateEffects.RefusedLeavesContent` | volume/volume.go:254-330 | A request that does not fit changes no table, but leaves its content on the disk without a record. |
| `CreateEffects.ExpiryRecordedExactly` | volume/volume.go:398-416 | The signature reaches the row of the second in which its record expires exactly when there was no such row, or the row named it, or it is the row of the zero time; an existing row is stored over that of the zero time, and no other changes. |
| `CreateEffects.CreateEnlists` | volume/volume.go:418-440 | A stored request for more than one copy queues one entry, field by field: its key, signature, lifetime and time of creation, the own volume, the wanted and the missing copies, under the clock reading or the next key. |
| `CreateEffects.RestartedCreate` | boltdb/key_generate.go:18-35 | The first create of a new process keeps all pending entries in their places if and only if its clock reading lies above all their keys. |
| `VolumeInvariant.DeleteQuota` | volume/volume.go:500-524 | A delete never fails its size check and gives back exactly what the record took. |
| `VolumeInvariant.DeleteRefines` | volume/volume.go:478-536 | A delete succeeds exactly on bound keys, removes that binding alone, and keeps the invariant. |
| `VolumeInvariant.UpdateReplicaKeeps` | volume/volume.go:575-639 | Noting a copy keeps the invariant, all readings and the quota. |
| `VolumeInvariant.UpdateFileReplicaKeeps` | volume/volume.go:641-707 | A new list of volumes keeps the invariant, all readings and the quota. |
| `VolumeInvariant.SynchronizeKeeps` | volume/volume.go:709-761 | Repairing keeps the invariant, all readings and the quota. |
| `TtlSweep.DeleteListedKeys` | volume/ttl.go:36-42 | Deleting the listed keys of a record one by one drops the record and its bindings, gives its size back, and does nothing else. |
| `TtlSweep.SweepTablesExactly` | volume/ttl.go:28-44 | For any list, repeats and missing signatures included, exactly the named records and their bindings go. |
| `TtlSweep.SweptExactly` | volume/ttl.go:28-44 | The dropped records are the named ones, each once. |
| `TtlSweep.SweptInOrder` | volume/ttl.go:28-44 | The records are dropped in the order in which the rows first name them, which decides whose file is the last. |
| `TtlSweep.SweepRefines` | volume/ttl.go:19-46 | The sweep keeps the invariant, returns all sizes, and leaves what every other key reads alone. |
| `TtlSweep.SweepLeavesFiles` | volume/ttl.go:19-46 | All dropped contents but the last stay on disk; the last goes exactly when it is the only one or the logs share no memory. |
| `VolumeRuns.RunKeeps` | volume/volume.go:254-761 | The invariant holds after every run of calls and restarts, and every record tells the size of its content. |
| `VolumeRuns.ReadsLastWrite` | volume/volume.go:254-555 | After every run a key reads its last accepted create unless a delete or an expiry of its digest followed, and `HasFile` tells just that. |
| `VolumeRuns.QuotaOverRuns` | state/state.go:33-66 | After every run both used sizes have moved by the sum of the records and what overwriting lost, within the volume's own size or else that of the disk; a create is accepted if and only if its content is known or fits that; no delete fails its size check. |
| `LocalVolume.NewKeys` | volume/volume.go:493-499 | The loop leaves out the key and keeps the order; its capacity is never negative. |
| `LocalVolume.Volume.StoreRecord` | volume/volume.go:299-340 | Finds or makes the record, adds key and own volume, and charges a new content once. |
| `LocalVolume.Volume.TakeKey` | volume/volume.go:342-391 | Takes a bound key from its former record; drops a record without keys, with its file. |
| `LocalVolume.Volume.Schedule` | volume/volume.go:400-416 | Adds the signature to the row of its second, which loses its time when it was there. |
| `LocalVolume.Volume.Enlist` | volume/volume.go:419-440 | Queues the missing copies, one less than asked for. |
| `LocalVolume.Volume.Place` | volume/volume.go:255-296 | The temporary file ends at the path of its signature and nowhere else. |
| `LocalVolume.Volume.End` | fs/unit_of_work.go:34-55 | The tables and the log that is run belong together: both commit or both go back, also when the commit itself fails. |
| `LocalVolume.Volume.CreateFile` | volume/volume.go:254-450 | With any database failing at any call: all of the create or nothing but its content on disk; otherwise exactly the specified outcome, also where digests collide. |
| `LocalVolume.Volume.GetFile` | volume/volume.go:452-476 | Reads the bound content; the file is never missing. |
| `LocalVolume.Volume.HasFile` | volume/volume.go:538-555 | Tells whether the key is bound, and the own volume if so. |
| `LocalVolume.Volume.DeleteBody` | volume/volume.go:484-536 | The delete inside a unit: its tables, its one tracked removal, and what is left when a call fails. |
| `LocalVolume.Volume.DeleteFile` | volume/volume.go:478-536 | All of the delete, or tables and very tree as before. |
| `LocalVolume.Volume.NextReplica` | volume/volume.go:557-573 | The oldest entry, or the answer that there is none. |
| `LocalVolume.Volume.UpdateReplica` | volume/volume.go:575-639 | Notes the copy in record, index and queue, or changes nothing but the keys drawn. |
| `LocalVolume.Volume.UpdateFileReplica` | volume/volume.go:641-707 | Replaces list and count and indexes every other listed volume, or changes nothing. |
| `LocalVolume.Volume.SynchronizeReplicas` | volume/volume.go:709-761 | Queues the repairs or takes all of them back; no list of volumes is found empty, for any other volume and for the own one where another is listed. |
| `LocalVolume.Volume.SweepExpired` | volume/ttl.go:19-46 | The nested loops reach one of the two specified outcomes, in tables and files. |
| `Cluster.Service.Notify` | storing/replica.go:49-66 | Every listed node but the master that can be reached gets the new list. |
| `Cluster.Service.ReplicateOnce` | storing/replica.go:23-80 | One pass: the targets in turn until one takes the copy and the master noted it. |
| `Cluster.Service.RepairLost` | storing/replica.go:110-118 | The local volume is told of each lost volume in turn. |
| `Cluster.RoundOnlyAdds` | storing/replica.go:26-47 | A round changes no binding on any node; all it can add is the master's content under the same key. |
| `Cluster.TryMaster` | storing/replica.go:34-75 | A round makes its master note exactly one copy of the entry it began with, or leaves it alone; no other queue changes. |
| `Cluster.RoundWork` | volume/volume.go:615-629 | A successful round lowers the pending work of the cluster by one and by what stood under the key that it draws for its entry, which is nothing within one process; any other round leaves it. |
| `RoundCalls.RoundIsCalls` | storing/replica.go:25-79 | Whatever its entry is worth, a round is on each node a run of calls: copies of what the master reads under a key that is not bound there, new lists under that key, and notes of copies. |
| `ClusterRuns.ContentsWereWritten` | storing/replica.go:26-47 | In every reachable state what a node reads under a key was written to that key by a client. |
| `ClusterRuns.QueuesConserve` | volume/volume.go:419-437 | In every entry of every run, repairs and restarts included, copies made and missing add up to those asked for; an entry of a create also misses at least one and lists different nodes, its own first. |
| `ClusterRuns.RoundsEnd` | storing/replica.go:43-79 | With rounds alone there are at most as many successes as the pending work has shrunk by, and exactly as many where no node was started anew over pending entries. |
| `Rounds.RoundSucceedsExactly` | storing/replica.go:25-79 | A round succeeds if and only if there is an entry, its record is still there, and some target answers, has not got the key, takes replicas, can be given the content and has room for it; the first one that does gets it. |
| `Rounds.OverwrittenHead` | volume/volume.go:366-381 | Overwriting the only key of the head's content leaves an entry without a record, under which another content is read. |
| `Rounds.UnnotedCopies` | storing/replica.go:44-72 | A round of such an entry copies that other content to every target that takes it, succeeds nowhere, and leaves its node as it was. |
| `AfterDeletes.DeletedHeadBlocks` | storing/replica.go:39-43 | Deleting the key of the head entry leaves the entry; over every run that follows, as long as the key is not bound on the node again, it stays the head and no round of the node does anything. |
| `AfterDeletes.IndexNeverForgets` | idxvolume/idxvolume.go:20-28 | Over every run, restarts included, what a node has in its reverse index stays in it. |
| `AfterDeletes.DeleteStopsRepairs` | volume/volume.go:484-536 | After the last key of a content shared with another volume is deleted, in every later state of every run in which the content is not stored there the loss of that volume is answered with an error, and nothing is repaired. |
| `Lifetimes.RoundLifetimes` | storing/replica.go:44-47 | A round changes the lifetime of no stored content; each new copy has the lifetime of the entry, and an entry without one touches no expiry row. |
| `Lifetimes.SweepsScheduled` | volume/ttl.go:28-44 | Sweeps of stored rows spare a content if and only if no row names it. |
| `Lifetimes.LastingOverRuns` | volume/ttl.go:19-46 | A content without a lifetime and without an expiry row stays on its node over every run, until its last key is taken there or somebody stores it there with a lifetime. |
| `SharedLifetime.CopiesDueTogether` | volume/volume.go:418-440 | From a fresh create over every calm run: all holders store the lifetime of the request and the time of creation that it named, or else the time of the create. |
| `Outlived.RepairForgetsExpiry` | volume/volume.go:737-745 | From an agreed cluster through a loss and any calm run: each copy that the repair made carries the lifetime of the repairer's record if and only if that has none, and, where no older row names it, it is kept over every later run as above. |
| `Agreement.TryJoins` | storing/replica.go:34-79 | For an entry that lists exactly the holders of its content, a round joins one target to them, with all its effects on each node, or changes no table. |
| `Agreement.AgreementExact` | storing/replica.go:51-66 | After a successful round all holders store one list if and only if every other listed holder answered. |
| `Agreement.JoinedAgreed` | volume/volume.go:575-707 | Such a round keeps the agreement on its content: lists, meaning of the key, queues and reverse indexes. |
| `Agreement.SameOnKeeps` | volume/volume.go:641-700 | Agreement on a content only depends on what the nodes know of it and of its key. |
| `Untouched.CreateApart` | volume/volume.go:298-440 | A create leaves alone what its node knows of every content that it does not name, in records, index and queue. |
| `Untouched.RoundApart` | storing/replica.go:25-79 | A round for one content leaves alone what all nodes know of every other content whose key is another one. |
| `AgreementRuns.EmptyAgreed` | volume/volume.go:254-450 | Empty volumes of any sizes agree. |
| `AgreementRuns.RoundOnExactly` | storing/replica.go:25-79 | A round keeps the agreement on its content if and only if it copied nothing or every listed holder of its entry answered. |
| `AgreementRuns.RoundAgreedExactly` | storing/replica.go:25-79 | The same for the agreement on all contents at once. |
| `AgreementRuns.AgreementOnOverRuns` | storing/replica.go:25-79 | Agreement on one content holds over every run of creates, overwrites, deletes, sweeps, repairs and rounds of anything else, its own fresh create, and rounds for it that reach its holders. |
| `AgreementRuns.AgreementOverRuns` | storing/replica.go:25-79 | Agreement on all contents holds in every state that fresh creates and rounds reach, in any order and over any entries. |
| `AgreementRuns.AgreedLists` | volume/volume.go:641-700 | All holders store one list of exactly the holders, as long as wanted less what its entry still misses, and of the wanted length once no entry is left. |
| `AgreementRuns.CreatorHeads` | volume/volume.go:335 | The volume that created a content heads the list of every holder ever after, over the runs of `AgreementOnOverRuns`. |
| `AgreementExactly.CreateAgreedExactly` | volume/volume.go:298-440 | A create keeps the agreement if and only if it changes no table, or content and key are new to the cluster, where the key may be bound on the node itself to a content that is held and wanted only there. |
| `AgreementExactly.DeleteAgreedExactly` | volume/volume.go:484-536 | A delete keeps the agreement if and only if the key is not bound on the node, or its content is held and wanted only there. |
| `AgreementExactly.SweepAgreedExactly` | volume/ttl.go:28-44 | A sweep keeps the agreement if and only if every record that it drops is held and wanted only on its node. |
| `AgreementExactly.SyncAgreedExactly` | volume/volume.go:709-761 | A call for a lost volume keeps the agreement if and only if it turns the volume to no repair. |
| `Sparing.StepSpared` | storing/replica.go:25-118 | A step that names neither a content nor its key changes nothing that any node knows of it, agreed or not. |
| `Completion.DrainedExactly` | volume/volume.go:615-629 | In an agreed cluster nothing is pending if and only if every content has as many holders as it wants. |
| `Completion.ProvisionedRound` | storing/replica.go:25-79 | With enough reachable nodes and room, a round of a node with a pending entry succeeds for every order of its targets, uses up one unit of work, and leaves the cluster agreed and as well provisioned. |
| `Completion.RoundsComplete` | storing/replica.go:25-79 | However the nodes take turns, all rounds succeed, there are at most as many as units of pending work, and it takes exactly that many until every content has as many holders as it wants. |
| `Completion.Drains` | storing/replica.go:25-79 | Such a run exists. |
| `ThreeNodes.DeleteDisagrees` | volume/volume.go:484-536 | Three nodes agree; a delete on one of the holders ends that. |
| `ThreeNodes.OverwriteDisagrees` | volume/volume.go:354-391 | Three nodes agree; storing something else under the key on one of the holders ends that. |
| `Synchronizing.SynchronizeExactly` | volume/volume.go:709-761 | Succeeds exactly when the volume is indexed and every indexed signature has a record; then queues one repair for each file that it now heads, under a key that is bound to the file, and changes nothing else. |
| `Synchronizing.SyncLoopDraws` | volume/volume.go:737-747 | Each new entry has the identifier that was drawn for its signature and a key that is not below the clock reading. |
| `Synchronizing.SurvivorQueues` | volume/volume.go:717-752 | The new entries for one signature are one or none: none at all where the index names a file without a record. Field by field: the first key of the record, which is bound to it, the list without the lost volume, the own volume, both counts, and no lifetime. |
| `Repair.UniqueRepairer` | volume/volume.go:709-752 | If the holders agree, the head of the rest queues one repair for exactly the missing copies if and only if its index names stored files only, and nobody else queues any. |
| `Repair.AgreedShares` | volume/volume.go:664-693 | In an agreed cluster a node indexes exactly the files that it shares with another, so no repair fails. |
| `Repair.RepairAllExactly` | storing/replica.go:110-118 | A pass over several lost volumes queues one repair of a file for each loss that turns the volume to it, and changes nothing else. |
| `Repair.RepairedInTurn` | storing/replica.go:110-118 | The lost volumes are taken in the order of their list. |
| `Repair.LossesRepairedExactly` | volume/volume.go:723-747 | A content that lost some holders but not all gets a repair if and only if one of the first two of its list survived. |
| `ThreeNodes.TwoLossesUnrepaired` | volume/volume.go:723-747 | Three nodes agree, the first two of the list are lost, and the third queues no repair. |
| `Repaired.LossBegins` | volume/volume.go:709-752 | In an agreed cluster without a lost holder, the entry that the head of the rest queues lists exactly the remaining holders, which all still store the former list. |
| `Repaired.AskedExactly` | volume/volume.go:730-747 | The entries that the repairer has once it is told of the loss ask for just the missing copies if and only if the head of the list was lost or the list was not short; otherwise they ask for what it was short of once more. |
| `Repaired.RepairedLists` | volume/volume.go:591-610 | After a round of a repair, the first or a later one, the repairer stores the former list and the new copy, the copy and every told holder the list without the lost node, and the others what they had. |
| `Repaired.RoundSplits` | volume/volume.go:723 | The holders store one list before the first successful round of a repair, and more than one after each, whoever answers. |
| `Repaired.OneListExactly` | volume/volume.go:723 | During a repair the holders store one list if and only if it has made no copy yet: the repairer lists the lost node, and no copy does. |
| `Repaired.RepairOverRuns` | storing/replica.go:25-79 | Over every run of calls that spare the content and rounds that reach its holders: all lists as above for the copies made by then, and one entry for exactly the missing copies, or none when none is missing. |
| `Repaired.NextLossExactly` | volume/volume.go:723-747 | After any number of copies, at least one, that all holders were told of, each survivor of a further loss queues one repair or none, and which; some survivor does if and only if the first loss was not the head of the list or the second one is the repairer, and the index of the one whose turn it is names stored files only. |
| `Repaired.NextRepairShort` | volume/volume.go:730-745 | Where the repairer is called upon again, its entry still counts the first lost node as a holder. |
| `Repaired.LossRepairLoss` | storing/replica.go:25-118 | All of this from an agreed cluster: loss, repair entry, any run that spares the content or serves it, the lists at its end, and who answers the next loss. |
| `ThreeNodes.SecondLossUnrepaired` | volume/volume.go:723-747 | Three holders and a spare node: the head is lost, the second one repairs onto the spare node, which splits the list, the third one is lost, and nobody repairs. |
| `Membership.Member.NotifyJoin` | membership/event_delegate.go:18-58 | The node is known with its volumes, and none of them waits any more; before the member is set up nothing happens. |
| `Membership.Member.NotifyUpdate` | membership/event_delegate.go:75-85 | The same as a join. |
| `Membership.Member.NotifyLeave` | membership/event_delegate.go:60-73 | The node is forgotten and its volumes wait with the time of the leave. |
| `Membership.Member.RemovedVolumeIDs` | membership/membership.go:182-195 | Reports each volume that waits for longer than the downtime, once, and drops just these. |
| `Membership.Member.GetNodeWithVolumeByID` | membership/membership.go:111-121 | A known node that has the volume, if and only if there is one. |
| `Membership.Member.NodesWithoutVolumeIDs` | membership/membership.go:160-176 | Exactly the known nodes without any of the volumes, each once. |
| `Membership.NodesAreLive` | membership/event_delegate.go:47-68 | The known nodes are those whose last event brought them. |
| `Membership.RemovedAreLost` | membership/event_delegate.go:53-67 | Exactly the volumes of nodes with an unanswered leave wait, with the time of that leave. |
| `Membership.ReportedExactly` | membership/membership.go:182-195 | A query reports a volume if and only if its node left while it was up, has neither come back nor been reported since, and is away for longer than the downtime; there is never more than one such leave. |
| `Membership.ReportedAgain` | membership/membership.go:182-195 | Between two queries that report the same volume its node came back and left again. |
| `Membership.WaitingApartFromLive` | membership/event_delegate.go:47-68 | No waiting volume belongs to a known node. |
| `FindVolume.NextKeeps` | storing/service.go:223-276 | Every step of every participant keeps the invariant of the protocol. |
| `FindVolume.RunSafe` | storing/service.go:223-276 | A returned volume answered yes with that ID, nobody can send on the closed channel, and one message at most is received. |
| `FindVolume.FoundExactly` | storing/service.go:262-275 | Under a live parent a volume is found if and only if one answered yes; otherwise all answered no or failed. |
| `FindVolume.CancelledParentMisses` | storing/service.go:243-248 | With a cancelled parent the answer can be "not found" although the volume answered yes. |
| `FindVolume.NobodyIsStuck` | storing/service.go:223-276 | Until everything is finished somebody can go on. |
| `FindVolume.RunsEnd` | storing/service.go:223-276 | No run takes more than 3n + 4 steps, and one that cannot go on has returned and left nothing behind. |

## Left out

- Interleavings of two calls on one volume: the rename at volume/volume.go:293 lies outside the transaction, so each call is one step.
- Failures of the disk other than a missing file, directories, and files that outsiders put below the volume.
- `LocalVolume.Volume.SweepExpired`: models a working database; a fault in the middle of the sweep is only logged by the source and would commit half a delete. The list of expired rows is any list; reading it back with its times (boltdb/idxttl.go:42-84) is not part of this model.
- `LocalVolume.Volume.SynchronizeReplicas`: asks that a volume which is told of its own loss finds no list that names it alone; the source reads past the end of such a list.
- `ReplicaQueue.KeyGenerator.New`: does not model that the 64-bit counter of nanoseconds ends in the year 2262.
- Nested units with file trackers of their own: each nesting makes its own trackers and logs.
- In the volume the queue of replicas is the list that `ReplicaQueue.ReplicaRepository` proves the bucket to be; JSON encoding of rows is the identity.
- A pending replica is a value; that `UpdateReplica` lowers the count of its caller's replica in place is not modelled, and without database faults nobody reads that count again.
- `AgreementRuns.AgreementOnOverRuns`: a node is started anew only over an empty queue; `ReplicaQueue.ReopenedExactly` says when a start over other queues loses no entry.
- `Repaired.NextLossExactly`: a repair of which some remaining holder was not told; its list is given by `Repaired.RepairedLists`.
- `Repaired.LossRepairLoss`: a repairer that still has an entry of its own for the content; `Repaired.AskedExactly` says when, and the rounds of two entries for one content are not followed. The same holds for `Outlived.RepairForgetsExpiry`.
- Several volumes on a node, nodes that fail in the middle of a round, and database faults in rounds.
- The endless loops, their tickers and sleeps: one iteration is one step.
- The cache in `getVolume` (storing/service.go:182-212): its entries are never taken back, so it need not agree with the search.
- `Reset`, `createID` and `calculateSize` of the volume: disk bookkeeping; the volume ID and the total size are constant.
- HTTP, JSON, the client, the dashboard, configuration, metadata and node state messages of the membership: plumbing.
