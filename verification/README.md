# Mizu, verified

A Dafny model of the two cores of Mizu, with proofs of what they promise.

The first core is the LSM engine (`engine/lsmtree`). Abstractly the database is the
sequence of committed operations, operation `i` having sequence number `i`. A read of a
key at sequence number `s` returns the newest operation on it not above `s`, and a
deletion counts as not found. The code keeps this promise through a mutable and an
immutable memtable, overlapping L0 tables and disjoint L1 and L2 tables, while rotation,
flush, compaction and crash recovery rewrite them. The second core is Raft (`raft`) with
its read tracker (`kv/raftstore`): votes, log replication, commitment and ReadIndex over
a cluster whose messages are lost, repeated and reordered.

## Layout

| files | content |
|---|---|
| `Bytes`, `Crc32c`, `InternalKeys`, `Entries` | integers as bytes, the checksum, internal keys, sorted runs of entries |
| `Wal`, `BatchCodec`, `Manifest`, `ManifestVersions`, `Golden` | the WAL frames, the batch payload, the manifest file and its older formats, and the formats byte for byte |
| `BlockFormat`, `Blocks`, `Bloom`, `TableFormat`, `TableLayout`, `TableSizes`, `TableCuts`, `Tables`, `TableReaders`, `TableIterators`, `TableRefinement` | blocks, filter and table files, up to: a built file answers like its entries |
| `SkipLists`, `Snapshots` | the memtable's skip list, the snapshot tracker |
| `Version`, `VersionFiles` | the read state on disk and its lookup, on entries and on files |
| `Compaction`, `CompactionProof`, `CompactionRun` | picking, dropping and cutting; why reads are preserved; the loops |
| `Iterators`, `IteratorViews`, `DbIterator`, `IteratorHistory` | the heap merge, the user-key iterator, and what it shows of the history |
| `History`, `Engine`, `World*`, `RecoveryChecks` | the abstract history, the engine's steps, its runs with crashes, the invariant and the theorems, and what recovery insists on |
| `Directory`, `DbImpl`, `Store` | the directory as bytes, `DBImpl` as an object over it, and a client's view of it |
| `RaftNode`, `RaftServer` | one node as functions, and as an object whose methods compute them |
| `RaftLaws` | what each call owes its caller, in terms of messages, logs and answers |
| `RaftCluster`, `RaftFacts`, `RaftElection`, `RaftMessages`, `RaftVotes`, `RaftVoteRuns` | the cluster, and Election Safety |
| `RaftBallots`, `RaftLeads`, `RaftPrompt` | which logs earn votes, who is named leader, and what no node ever owes |
| `RaftLogFacts`, `RaftLogs`, `RaftLogSteps`, `RaftLogRuns`, `RaftCommits`, `RaftCatchUp` | Log Matching, commit evidence, what must be committed, and convergence of replication |
| `RaftReadFacts`, `RaftReads`, `RaftReadSteps`, `RaftReadRuns`, `RaftDelivery`, `RaftWitness` | ReadIndex freshness, what a Ready hands out, and a run that shows an assumption is needed |
| `ReadTracking`, `ReadLife`, `ReadOutcomes` | the read tracker as an object, its two workers, and how reads end |

The engine is stated twice and joined. `Engine` gives every critical section of `DBImpl`,
and every effect on the directory between two of them, as a function on a state value;
`World` lets them interleave with crashes, and the theorems are about all runs. `DbImpls`
holds the same sections as methods of an object over a skip list, a WAL writer, a
snapshot tracker and a directory of bytes; each method is proved to do what the function
of its section says. `Stores` puts the two together: whatever a client calls, in whatever
order, with crashes in between, every state is one that a run reaches.

Each Raft handler is a function on a node value in `RaftNode` and a method of the object
in `RaftServer` proved equal to it. `RaftCluster` runs the functions over a set of all
messages ever sent, so that delivery may lose, repeat and reorder. A node persists its
hard state before its messages leave, and a restart brings back the persisted hard state
with any well-formed log.

## Findings

- When the oldest sequence number a compaction must preserve has reached the largest
  sequence number, the drop rule (`engine/lsmtree/src/db/compaction.cc:310`, `:332-337`)
  takes the initial value of `last_sequence_for_key` for a newer version and drops every
  entry. `CompactionProof.AtMaxSequenceALiveValueIsLost` gives a version and a read that
  is lost, `CompactionProof.AtMaxSequenceReadsSurviveIff` says exactly which reads
  survive. Runs therefore start no compaction at that point (`WorldRuns.SequenceLeft`).
- `handleVoteResp` (`raft/raft.go:388-407`) does not compare terms, so a granted vote of
  an earlier term counts for a later candidacy. `RaftWitness.StaleVoteElectsSecondLeader`
  is a run in which this gives a term two leaders. All cluster theorems are about runs in
  which no candidate receives a grant of an earlier term (`RaftCluster.StaleVote`).
- A follower that cannot match an append cuts off the whole run of the conflicting term
  (`raft/raft.go:490-498`), and with it entries it has already committed.
  `RaftCommits.CommittedEntryIsCut` is a follower that loses a committed entry to a leader
  that holds it too; `RaftCommits.CutKeepsCommittedIff` says exactly when this happens.
- Read ids are reused after 2^64 - 1 starts (`kv/raftstore/read.go:57-66`);
  `ReadLife.StartAccounts` shows that a read is then lost exactly when the id is still in
  use. `ReadLife` runs end before ids come round.

## Model

| member | source | states |
|---|---|---|
| `WorldRuns.StepKeepsInv` | engine/lsmtree/src/db/db_impl.cc:149-452 | every write, failed write, rotation, snapshot, flush, compaction, commit, publication, deletion, crash, truncation and recovery step keeps the invariant that ties memtables, version, manifest, tables and WAL bytes to the history |
| `WorldRuns.RunKeepsInv` | engine/lsmtree/src/db/db_impl.cc:59-452 | the invariant holds in every state of every run from a fresh database, over every interleaving of writers, background thread, crashes and recoveries |
| `WorldRuns.ReadsReturnHistory` | engine/lsmtree/src/db/db_impl.cc:470-512 | in every state of every run, a read at the latest sequence number or at any live snapshot returns what the newest operation on the key not above it says, a deletion being not found |
| `WorldRuns.SnapshotReadsRepeat` | engine/lsmtree/src/db/db_impl.cc:514-523 | a live snapshot answers every key alike at any two moments, whatever was written, flushed, compacted or recovered between them |
| `WorldRuns.HistoryOnlyGrows` | engine/lsmtree/src/db/db_impl.cc:149-176 | the committed batches of an earlier state are a prefix of those of every later state: none is lost, reordered or split |
| `WorldRuns.CrashKeepsAcknowledged` | engine/lsmtree/src/db/db_impl.cc:132-146 | from before a crash to after the reopening, however often recovery was itself interrupted, the history keeps every acknowledged batch in order and gains at most the one unacknowledged batch, whole |
| `WorldRuns.ReopeningAlwaysSucceeds` | engine/lsmtree/src/db/db_impl.cc:183-244 | in every state after a crash, recovery reports no corruption and no missing file |
| `WorldTheorems.RecoverySucceeds` | engine/lsmtree/src/db/db_impl.cc:183-244 | whatever a crash left, recovery succeeds and the recovered state with the truncated WALs satisfies the whole invariant again |
| `WorldReplay.LiveWalsAreSpans` | engine/lsmtree/src/db/db_impl.cc:188-199 | the WAL files recovery replays are exactly the files that carry the batches after the flushed sequence, in order |
| `WorldReplay.TruncatedSpan` | engine/lsmtree/src/db/db_impl.cc:232-241 | cutting any live WAL back to its valid bytes leaves exactly the records of the recovered history |
| `Engine.DamagedFileFails` | engine/lsmtree/src/db/db_impl.cc:205-230 | a WAL file with one damaged record does not replay, in whatever state and however sound the rest is, so `RecoverWalFile` fails on it |
| `Engine.DamagedWalStopsRecovery` | engine/lsmtree/src/db/db_impl.cc:183-202 | recovery refuses a directory in which any live WAL holds a damaged record |
| `RecoveryChecks.TablesOpenIff` | engine/lsmtree/src/db/version.cc:24-62 | tables open if and only if each file is there with the size the manifest records |
| `RecoveryChecks.RecordsReplayIff` | engine/lsmtree/src/db/db_impl.cc:213-230 | records replay if and only if they are batches whose sequence numbers run on from the last one without a gap |
| `RecoveryChecks.FileReplaysIff` | engine/lsmtree/src/db/db_impl.cc:205-230 | a WAL file replays if and only if nothing in it is damaged and its records do |
| `RecoveryChecks.RecoversIff` | engine/lsmtree/src/db/db_impl.cc:183-202 | recovery succeeds if and only if a file number is left, every table of the manifest is there with its size, the oldest live WAL is the first, and the live WALs replay in order |
| `WorldStore.LayersAnswerLikeHistory` | engine/lsmtree/src/db/db_impl.cc:488-511 | stopping at the first layer that answers gives the newest operation of the whole history |
| `WorldStore.FlushIsGood` | engine/lsmtree/src/db/db_impl.cc:343-352 | prepending the flushed table to the manifest's and the version's L0 separately leaves them equal, backed by files and answering like the longer prefix of the history |
| `WorldCompact.CompactIsGood` | engine/lsmtree/src/db/db_impl.cc:406-429 | splicing a compaction's outputs into the manifest and the version separately leaves them equal, backed, with unique file numbers, and answering alike from the oldest snapshot up |
| `WorldManifests.CandidateIsPublishable` | engine/lsmtree/src/db/manifest.cc:66-106 | in every state of every run a manifest ready to be committed passes validation exactly when no level has 2^32 tables, and is written exactly when it also fits 64 MiB |
| `DbImpls.DbImpl.Initialize` | engine/lsmtree/src/db/db_impl.cc:111-129 | an empty directory becomes a database with one empty WAL and a manifest file that names it |
| `DbImpls.DbImpl.Apply` | engine/lsmtree/src/db/db_impl.cc:455-467 | each operation of the batch enters the memtable under the next sequence number |
| `DbImpls.DbImpl.Rotate` | engine/lsmtree/src/db/db_impl.cc:262-283 | the memtable is frozen under the next file number and a new empty WAL opened under the one after, unless numbers run out or the file cannot be opened, when nothing changes |
| `DbImpls.DbImpl.MakeRoom` | engine/lsmtree/src/db/db_impl.cc:247-259 | the write may go on exactly when the background thread has not failed and the memtable has room, after rotating exactly if it is full, nothing waits to be flushed, numbers are left and the file opens; it must wait exactly if a flush is outstanding |
| `DbImpls.DbImpl.LogAndApply` | engine/lsmtree/src/db/db_impl.cc:157-175 | a batch reaches the memtable exactly if its whole record reached the WAL and was synced; a failed append or sync leaves a prefix of the record, latches the error and changes no memory |
| `DbImpls.DbImpl.Write` | engine/lsmtree/src/db/db_impl.cc:149-176 | accepts exactly the batches that may be written in the state that making room left, rotates and waits exactly when it must; the empty batch changes nothing |
| `DbImpls.DbImpl.Get` | engine/lsmtree/src/db/db_impl.cc:470-512 | the memtables, then the bytes of the version's table files, answer like the layered lookup on entries |
| `DbImpls.DbImpl.NewSnapshot` | engine/lsmtree/src/db/db_impl.cc:514-523 | one more live snapshot at the latest sequence number, nothing else changed |
| `DbImpls.DbImpl.BuildLevel0Table` | engine/lsmtree/src/db/db_impl.cc:316-352 | the immutable memtable is written as a table file of the size recorded, and candidate manifest and version are the current ones with it in front of L0 |
| `DbImpls.DbImpl.StartCompaction` | engine/lsmtree/src/db/db_impl.cc:375-396 | the plan is the one picked at the smallest live snapshot or the latest sequence, and the output contents are the cut of the retained merge; duplicate internal keys stop the thread |
| `DbImpls.DbImpl.AllocateOutput` | engine/lsmtree/src/db/db_impl.cc:383-391 | an output file gets the next number, or the thread stops when numbers are used up |
| `DbImpls.DbImpl.FinishOutput` | engine/lsmtree/src/db/compaction.cc:156-183 | the open output is written as a table file of the size recorded and joins the finished tables |
| `DbImpls.DbImpl.PrepareCompaction` | engine/lsmtree/src/db/db_impl.cc:398-430 | the candidate manifest and version are the current ones with inputs and overlaps replaced by the outputs |
| `DbImpls.DbImpl.Commit` | engine/lsmtree/src/db/db_impl.cc:354-359 | the manifest file becomes the candidate's encoding exactly when it validates, fits and is written; otherwise the old file stays and the thread stops |
| `DbImpls.DbImpl.Publish` | engine/lsmtree/src/db/db_impl.cc:361-368 | memory switches to the committed manifest and version, and a flush drops the immutable memtable |
| `DbImpls.DbImpl.RecoverWalFile` | engine/lsmtree/src/db/db_impl.cc:205-244 | replaying a file equals replaying its whole records, fails on corruption, an undecodable batch or a sequence gap, and finds the valid length |
| `DbImpls.DbImpl.RecoverWalFiles` | engine/lsmtree/src/db/db_impl.cc:183-202 | the files are replayed in order on an empty memtable, each cut to its valid length, and the last becomes the current WAL |
| `DbImpls.DbImpl.LoadVersion` | engine/lsmtree/src/db/version.cc:64-76 | succeeds exactly when every table the manifest names exists with the recorded size, and gives these tables |
| `DbImpls.OpenDatabase` | engine/lsmtree/src/db/db_impl.cc:132-146 | an undecodable manifest file is refused; otherwise opening succeeds exactly when recovery does and yields its state and the truncated directory |
| `Directories.StoredManifest` | engine/lsmtree/src/db/manifest.cc:308-337 | what the manifest writer leaves in the file is read back as the same state |
| `Directories.WriteTable` | engine/lsmtree/src/db/flush_memtable.cc:19-53 | the file written holds exactly the sorted entries given |
| `Directories.LoadTables` | engine/lsmtree/src/db/version.cc:24-62 | opening a level reads back the entries each file was built from, and fails exactly on a missing file or a wrong size |
| `Stores.Session.Write` | engine/lsmtree/src/db/db_impl.cc:149-176 | a write that returns success is appended to the history at once, any other leaves it as it was; and exactly when a write succeeds, waits, is refused or breaks the WAL |
| `Stores.Session.Get` | engine/lsmtree/src/db/db_impl.cc:470-512 | after any calls in any order, with crashes between them, a read returns what the history says |
| `Stores.Session.GetAt` | engine/lsmtree/src/db/db_impl.cc:475-483 | a read at a live snapshot returns what the history said when it was taken |
| `Stores.Session.Scan` | engine/lsmtree/src/db/db_impl.cc:525-577 | an iterator delivers from any target on exactly the keys the history has a value for at its sequence number, ascending, each once, with that value, while writers go on |
| `Stores.Session.TakeSnapshot` | engine/lsmtree/src/db/db_impl.cc:514-523 | a snapshot names the number of operations committed so far and is live until released |
| `Stores.Session.StartWork` | engine/lsmtree/src/db/db_impl.cc:290-313 | a compaction is started exactly if a level is due, a flush exactly if none is and a memtable waits, nothing otherwise; the state stays a reachable one |
| `Stores.Session.ContinueCompaction` | engine/lsmtree/src/db/db_impl.cc:393-430 | each step opens, finishes or installs the next output, and stops only when file numbers run out; it is possible in every reachable state and leaves the history alone |
| `Stores.Session.FinishWork` | engine/lsmtree/src/db/db_impl.cc:432-449 | a candidate is committed exactly if it can be encoded and written; publishing installs it, frees the flushed memtable and returns to idle; the history is left alone |
| `Stores.Session.CrashAndReopen` | engine/lsmtree/src/db/db_impl.cc:59-108 | opening the bytes a crash left always succeeds, with every acknowledged batch back in order and at most the one unacknowledged batch more |
| `Stores.BackgroundEnabled` | engine/lsmtree/src/db/db_impl.cc:401-429 | what the background thread asserts before each step holds in every reachable state |
| `Stores.NewIterator` | engine/lsmtree/src/db/db_impl.cc:542-575 | the children are the mutable memtable, the immutable one and every table by level |
| `IteratorHistories.ChildrenShowEverything` | engine/lsmtree/src/db/db_impl.cc:554-570 | the children of an iterator share no entry and together hold exactly the visible entries of the database |
| `IteratorHistories.DbGetIsNewest` | engine/lsmtree/src/db/db_impl.cc:488-511 | the layered read finds the newest visible entry in memtables and tables together |
| `IteratorHistories.IteratorAgreesWithReads` | engine/lsmtree/src/db/db_iterator.cc:75-112 | an iterator at a sequence number shows a key with a value exactly when a point read at it returns that value |
| `Snapshots.SnapshotTracker.Add` | engine/lsmtree/src/db/snapshot.cc:7-10 | one more live snapshot of that sequence number |
| `Snapshots.SnapshotTracker.Remove` | engine/lsmtree/src/db/snapshot.cc:12-19 | one live snapshot of that sequence number less, its entry gone with the last one |
| `Snapshots.SnapshotTracker.Oldest` | engine/lsmtree/src/db/snapshot.cc:21-24 | the smallest live snapshot, or the fallback when there is none |
| `CompactionProof.CompactionPreservesReads` | engine/lsmtree/src/db/compaction.cc:307-356 | for every key and every sequence number from the oldest snapshot up, the version answers the same before and after the compaction is installed, as long as the oldest snapshot is below the largest sequence number |
| `CompactionProof.CompactionKeepsVersionOk` | engine/lsmtree/src/db/version.cc:120-141 | installing outputs keeps every layout invariant: sorted tables, disjoint lower levels, newer levels above older, unique versions |
| `CompactionProof.CutFilesAreOutput` | engine/lsmtree/src/db/compaction.cc:107-123 | cutting the retained stream into files gives sorted tables that share no user key and hold exactly what was retained |
| `CompactionProof.AtMaxSequenceEverythingIsDropped` | engine/lsmtree/src/db/compaction.cc:310-340 | when the oldest snapshot has reached the largest sequence number, nothing is retained |
| `CompactionProof.AtMaxSequenceReadsSurviveIff` | engine/lsmtree/src/db/compaction.cc:332-345 | then a read keeps its answer exactly when its newest version lies outside the inputs or says the same as what lies underneath |
| `CompactionProof.AtMaxSequenceALiveValueIsLost` | engine/lsmtree/src/db/compaction.cc:332-345 | a version with one live value in L1 whose read turns into not found |
| `Compaction.PickedPlanIsOk` | engine/lsmtree/src/db/compaction.cc:232-255 | a picked plan takes all of L0 or one L1 table, and every table of the output level that could hold one of their keys |
| `Compaction.PickCompaction` | engine/lsmtree/src/db/compaction.cc:232-255 | L0 at its trigger, else L1 at its byte limit, else nothing, with the overlapping range of the output level |
| `Compaction.LevelAtLimit` | engine/lsmtree/src/db/compaction.cc:29-40 | a non-empty level is at its limit exactly when its table sizes add up to it |
| `Compaction.ComputeUserRange` | engine/lsmtree/src/db/compaction.cc:42-55 | the smallest and the largest user key of the tables |
| `Compaction.FindOverlaps` | engine/lsmtree/src/db/compaction.cc:57-70 | from the first table not below the range to the first that starts above it |
| `Compaction.SplitMakesFiles` | engine/lsmtree/src/db/compaction.cc:107-123 | cutting at the target size loses nothing, keeps each file sorted and never splits a user key |
| `Compaction.SplitIsCut` | engine/lsmtree/src/db/compaction.cc:107-123 | every output but the last has reached the target, none reached it at an earlier change of user key, and together they are the kept entries |
| `Compaction.CutIsSplit` | engine/lsmtree/src/db/compaction.cc:107-123 | these conditions have one solution: any such cut of the kept entries is the one made |
| `Compaction.GarbageIsDropped` | engine/lsmtree/src/db/compaction.cc:319-345 | below the largest sequence number an entry is dropped exactly if a newer version of its key is visible at the oldest snapshot, or it is a deletion visible there with nothing below the output level |
| `Compaction.PickedExactly` | engine/lsmtree/src/db/compaction.cc:232-255 | a compaction is picked exactly if L0 has reached its file count or L1 its size; it takes all of L0, or the first table of L1, and only tables of the next level that its inputs touch |
| `CompactionRun.BaseLevelChecker.IsBaseLevelForKey` | engine/lsmtree/src/db/compaction.cc:202-220 | for keys asked in ascending order the advancing cursors tell exactly whether no lower table covers the key |
| `CompactionRun.OutputWriter.Add` | engine/lsmtree/src/db/compaction.cc:107-123 | the open file is closed before an entry exactly if it has reached the target and the entry has another user key, so the files are the cut that `Compaction.SplitIsCut` and `CutIsSplit` pin down |
| `CompactionRun.CompactionPass.Consume` | engine/lsmtree/src/db/compaction.cc:319-355 | refuses an entry that does not come after the last one; else what has been written is the cut of what is retained so far |
| `CompactionRun.BuildCompactionTables` | engine/lsmtree/src/db/compaction.cc:257-357 | fails exactly when the inputs hold a duplicate; otherwise the outputs are the cut of the retained entries of the sorted merge of all inputs |
| `Versions.GetIsNewest` | engine/lsmtree/src/db/version.cc:78-107 | the lookup that stops at the first level that answers finds the newest visible entry of the whole version |
| `Versions.LowerBound` | engine/lsmtree/src/db/version.cc:94-98 | the binary search finds the first table whose largest user key is not below the key |
| `VersionFiles.GetFromLevel0` | engine/lsmtree/src/db/version.cc:82-86 | searching the table files newest first answers like the entries of L0 |
| `VersionFiles.GetFromLevel` | engine/lsmtree/src/db/version.cc:90-104 | searching the one candidate file answers like the whole level |
| `VersionFiles.GetFromVersion` | engine/lsmtree/src/db/version.cc:78-107 | searching the files level by level answers like the version's entries |
| `Iterators.MergingIterator.SeekToFirst` | engine/lsmtree/src/db/merging_iterator.cc:18-25 | every child rewinds and the heap holds those with an entry |
| `Iterators.MergingIterator.Seek` | engine/lsmtree/src/db/merging_iterator.cc:27-34 | every child stands on its first entry not below the target and the heap holds those with an entry |
| `Iterators.MergingIterator.Next` | engine/lsmtree/src/db/merging_iterator.cc:36-47 | the child with the smallest current entry advances by one and stays in the heap while it has entries |
| `DbIterators.DbIterator.FindNextUserEntry` | engine/lsmtree/src/db/db_iterator.cc:75-112 | moves to the first key still ahead, apart from the one skipped, whose newest visible version is a value; no key passed has one |
| `DbIterators.DbIterator.Seek` | engine/lsmtree/src/db/db_iterator.cc:34-42 | lands on the least visible key not below the target |
| `DbIterators.DbIterator.SeekToFirst` | engine/lsmtree/src/db/db_iterator.cc:26-32 | lands on the least visible key |
| `DbIterators.DbIterator.Next` | engine/lsmtree/src/db/db_iterator.cc:44-55 | lands on the next larger visible key |
| `DbIterators.ScanFrom` | engine/lsmtree/src/db/db_iterator.cc:75-112 | a scan over any sorted children without common entries yields exactly the keys whose newest visible version is a value, each once, ascending, even while newer entries are inserted into the children |
| `SkipLists.SkipList.SearchStep` | engine/lsmtree/src/db/skiplist.h:141-155 | from any reader position, in any state between two link writes, a search step goes on right, goes down, or stops at the least linked node not below the target |
| `SkipLists.SkipList.LinkLevel` | engine/lsmtree/src/db/skiplist.h:66-75 | after each of the two link writes of a level all levels are sorted and nested, and every reader position is still one |
| `SkipLists.SkipList.FindGreaterOrEqual` | engine/lsmtree/src/db/skiplist.h:141-155 | returns the least linked node not below the target, and the node before it on every level |
| `SkipLists.SkipList.InsertEntry` | engine/lsmtree/src/db/skiplist.h:54-76 | the list then holds the old entries and the new one in order, with levels sorted and nested |
| `SkipLists.SkipList.Scan` | engine/lsmtree/src/db/skiplist.h:96-105 | walking level 0 visits the contents in order |
| `SkipLists.SkipList.Get` | engine/lsmtree/src/db/memtable.cc:96-127 | a memtable lookup is the linear search for the first entry not before the lookup key |
| `Blocks.ComputeCommonPrefix` | engine/lsmtree/src/table/block_builder.cc:14-19 | the length of the longest common prefix |
| `BlockFormat.CommonPrefixIsLongest` | engine/lsmtree/src/table/block_builder.cc:14-19 | the shared prefix is the longest one |
| `BlockFormat.RestartsEveryInterval` | engine/lsmtree/src/table/block_builder.cc:42-67 | compression restarts at every entry whose position is a multiple of the interval, and nowhere else |
| `BlockFormat.PointsAre` | engine/lsmtree/src/table/block_builder.cc:42-79 | the restart array lists exactly these entries, in order |
| `Blocks.BlockBuilder.Add` | engine/lsmtree/src/table/block_builder.cc:42-67 | the buffer stays the prefix-compressed form of the entries added, with a restart point per interval |
| `Blocks.BlockBuilder.Finish` | engine/lsmtree/src/table/block_builder.cc:69-79 | the block is the compressed entries, the restart offsets and their count |
| `Blocks.BlockIterator.DecodeEntry` | engine/lsmtree/src/table/block_iterator.cc:178-214 | decodes one entry against the current key, or fails on any malformed length |
| `Blocks.BlockIterator.SearchRestarts` | engine/lsmtree/src/table/block_iterator.cc:72-94 | binary search for the last restart point whose key does not exceed the target; everything before it is below the target |
| `Blocks.BlockIterator.Seek` | engine/lsmtree/src/table/block_iterator.cc:64-98 | on a built block lands on the first key not below the target and never fails, for every restart interval |
| `Blocks.BlockIterator.Next` | engine/lsmtree/src/table/block_iterator.cc:100-111 | on a built block goes from one entry to the next, or past the last |
| `Blocks.Walk` | engine/lsmtree/src/table/block_iterator.cc:53-111 | walking a built block returns exactly the entries added, for every restart interval |
| `BlockFormat.DecodeBuilt` | engine/lsmtree/src/table/block_iterator.cc:178-214 | decoding at an entry's offset gives it back when the previous key is known, and at a restart point always |
| `Bloom.ComputeBloomHash` | engine/lsmtree/src/table/bloom_filter.cc:17-52 | the hash loop over four-byte words and the tail |
| `Bloom.BuildFilter` | engine/lsmtree/src/table/bloom_filter.cc:58-84 | ten bits a key, at least 64, in whole bytes; the bits set are exactly the probes of the hashes added |
| `Bloom.BloomMayContain` | engine/lsmtree/src/table/bloom_filter.cc:94-118 | tests every probe bit of the key, and admits any key of a malformed filter |
| `Bloom.NoFalseNegative` | engine/lsmtree/src/table/bloom_filter.cc:94-118 | a filter that covers a key's hash never rejects the key |
| `Bloom.AdmitsExactly` | engine/lsmtree/src/table/bloom_filter.cc:58-118 | a built filter admits a key if and only if each probe of the key is a probe of some added key's hash |
| `Bloom.EmptyFilterAdmitsNothing` | engine/lsmtree/src/table/bloom_filter.cc:58-118 | a filter built for no keys admits none |
| `TableFormat.HandleRoundTrip` | engine/lsmtree/src/table/table_format.cc:7-23 | a block handle is read back as written |
| `TableFormat.FooterRoundTrip` | engine/lsmtree/src/table/table_format.cc:25-66 | a footer is read back as written |
| `TableFormat.ReadStored` | engine/lsmtree/src/table/table_io.cc:95-126 | a block written with its trailer is read back, with or without checking the checksum |
| `TableFormat.FooterIsExact` | engine/lsmtree/src/table/table_format.cc:25-66 | the footer parser accepts exactly the footers the builder writes |
| `TableFormat.ReadsExactlyStored` | engine/lsmtree/src/table/table_io.cc:95-126 | with verification a block is read if and only if it is stored at the handle, type byte and checksum included |
| `TableFormat.DamageIsNoticed` | engine/lsmtree/src/table/table_io.cc:95-126 | after changes within four consecutive bytes anywhere in the file a stored block reads as it was or is refused |
| `TableLayout.IndexCovers` | engine/lsmtree/src/table/sstable_reader.cc:99-131 | the block the index names holds the first entry of the whole table not below the target |
| `TableLayout.IndexMisses` | engine/lsmtree/src/table/sstable_reader.cc:105-108 | when the index names no block, every entry is below the target |
| `Tables.SSTableBuilder.Add` | engine/lsmtree/src/table/sstable_builder.cc:58-82 | accepts exactly the keys that parse, keeps filter, key range and index in step with the entries, and closes a block exactly with the entry that brings it to its size |
| `Tables.SSTableBuilder.FlushDataBlock` | engine/lsmtree/src/table/sstable_builder.cc:140-153 | the open block is sealed in the file under a handle the index records with its last key |
| `Tables.SSTableBuilder.Finish` | engine/lsmtree/src/table/sstable_builder.cc:88-127 | the file is a complete table of everything added, cut into blocks by size |
| `TableCuts.CutIsDetermined` | engine/lsmtree/src/table/sstable_builder.cc:58-82 | that every block but the last has just reached the block size, and the last not before its last entry, leaves one way to cut the entries |
| `TableReaders.SSTableReader.constructor` | engine/lsmtree/src/table/sstable_reader.cc:55-77 | opens only a file whose footer parses and whose filter and index are stored with their checksums; on a built file they load, on one altered before the footer they load unchanged or opening fails |
| `TableReaders.SSTableReader.Get` | engine/lsmtree/src/table/sstable_reader.cc:85-152 | on a built file the lookup through filter, index and data block is the linear search over the entries; on an altered one, read with checksums, that or a report of corruption |
| `TableIterators.SSTableIterator.SeekToFirst` | engine/lsmtree/src/table/sstable_reader.cc:170-181 | on a built file stands on the first entry, if any, without failing |
| `TableIterators.SSTableIterator.Seek` | engine/lsmtree/src/table/sstable_reader.cc:183-215 | on a built file lands on the first entry of the whole table not below the target, across blocks, and never reports that the index does not cover it |
| `TableIterators.SSTableIterator.Next` | engine/lsmtree/src/table/sstable_reader.cc:217-236 | on a built file goes to the next entry, into the next block where one ends |
| `TableRefinements.BuildTable` | engine/lsmtree/src/db/flush_memtable.cc:31-41 | adding any sorted entries and finishing leaves a table of exactly these entries, cut into blocks by size, for any block size and restart interval within the builder's 32-bit limits |
| `TableRefinements.BuildAndGet` | engine/lsmtree/src/table/sstable_reader.cc:85-152 | building the table of any sorted entries, opening it and looking up any key at any sequence number equals the linear search over the entries, and is never corrupt |
| `TableRefinements.GetFromAltered` | engine/lsmtree/src/table/sstable_reader.cc:55-152 | on a table file altered within four consecutive bytes before its footer, opening fails or every verified lookup gives the right answer or reports corruption |
| `TableRefinements.ScanTableFrom` | engine/lsmtree/src/table/sstable_reader.cc:183-236 | seeking and walking a built table delivers exactly the entries from the first one not below the target on |
| `TableRefinements.GetFromFile` | engine/lsmtree/src/table/sstable_reader.cc:85-152 | a lookup in the bytes of a table is the linear search over its entries |
| `TableRefinements.ReadFile` | engine/lsmtree/src/table/sstable_reader.cc:170-236 | reading a table file from start to end gives back its entries |
| `InternalKeys.ParseOfEncode` | engine/lsmtree/src/db/internal_key.cc:27-48 | parsing an encoded internal key gives back user key, sequence number and type |
| `InternalKeys.EncodeOfParse` | engine/lsmtree/src/db/internal_key.cc:27-48 | encoding what was parsed gives back the bytes |
| `InternalKeys.KeyLessIsBefore` | engine/lsmtree/src/db/internal_key.cc:50-61 | comparing encoded keys orders by user key ascending, then sequence number and type descending |
| `Golden.LittleEndian` | engine/lsmtree/src/util/coding.cc:21-50 | byte i of a stored number has weight 256 to the power i |
| `Golden.KeyEncoding` | engine/lsmtree/src/db/internal_key.cc:27-36 | the stored bytes of one internal key |
| `Golden.BatchEncoding` | engine/lsmtree/src/db/write_batch_codec.cc:92-117 | the stored bytes of one batch with a put and a deletion |
| `Golden.BlockEncoding` | engine/lsmtree/src/table/block_builder.cc:42-79 | the stored bytes of any one-entry block |
| `Wal.WalWriter.Append` | engine/lsmtree/src/wal/wal_writer.cc:41-59 | a successful append adds exactly one frame; a failed one adds a prefix of it and nothing is written ever after |
| `Wal.WalReader.ReadNext` | engine/lsmtree/src/wal/wal_reader.cc:41-87 | the next record if and only if its frame lies there, the end at an incomplete one, or corruption at a bad length or checksum, as the lemmas on `NextRecord` pin down; the valid bytes advance over whole records only |
| `Wal.PrefixReplays` | engine/lsmtree/src/wal/wal_reader.cc:41-87 | every byte prefix of a log made by appends replays exactly the records wholly inside it, without corruption, and its valid bytes are their total length |
| `Wal.TornLogReplays` | engine/lsmtree/src/wal/wal_reader.cc:41-87 | a log with any prefix of one more record replays that record exactly when all of it is there |
| `Wal.StoredRecordReads` | engine/lsmtree/src/wal/wal_reader.cc:53-86 | a record of the right length with any checksum field and any payload is accepted if and only if the field is that payload's checksum, little-endian; otherwise it is corruption |
| `Wal.DamagedIsCorrupt` | engine/lsmtree/src/wal/wal_reader.cc:78-80 | a record whose checksum field was changed, or whose payload was changed within four consecutive bytes, reads as corruption whatever follows it |
| `Wal.DamagedLogReplays` | engine/lsmtree/src/wal/wal_reader.cc:41-87 | a log with one such record delivers the records before it and then reports corruption |
| `Wal.RecordIsFrame` | engine/lsmtree/src/wal/wal_reader.cc:41-87 | a record is read exactly where its frame, as the writer makes it, lies in the file |
| `Wal.BadLengthIsCorrupt` | engine/lsmtree/src/wal/wal_reader.cc:60-65 | a length of zero or above 64 MiB is corruption, not the end |
| `Wal.ReadAllIsLongestLog` | engine/lsmtree/src/wal/wal_reader.cc:41-87 | of any file the reader delivers the longest log it begins with, counts exactly its bytes as valid, and reports corruption exactly if that is what comes next |
| `BatchCodec.EncodeBatch` | engine/lsmtree/src/db/write_batch_codec.cc:54-118 | encodes exactly the non-empty batches whose sequence range and size are legal |
| `BatchCodec.DecodeBatch` | engine/lsmtree/src/db/write_batch_codec.cc:120-188 | accepts a payload exactly when header, count, operations and end agree |
| `BatchCodec.DecodeOfEncode` | engine/lsmtree/src/db/write_batch_codec.cc:54-188 | decoding the encoding of any valid batch returns its first sequence number and operations |
| `BatchCodec.EncodeOfDecode` | engine/lsmtree/src/db/write_batch_codec.cc:54-188 | encoding what was decoded from any accepted payload returns the payload |
| `Crc32c.ComputeCrc` | engine/lsmtree/src/util/crc32c.cc:11-26 | the nested loops compute the register of the bitwise CRC under any polynomial |
| `Crc32c.EmptyIsZero` | engine/lsmtree/src/util/crc32c.cc:11-26 | the empty input has checksum zero |
| `Crc32c.BurstChangesCrc` | engine/lsmtree/src/util/crc32c.cc:11-26 | inputs of equal length that differ only within four consecutive bytes never share a checksum |
| `Crc32c.SealIsResidue` | engine/lsmtree/src/util/crc32c.cc:11-26 | an input followed by its checksum leaves one fixed register, and only such inputs do |
| `Crc32c.BurstBreaksSeal` | engine/lsmtree/src/db/manifest.cc:189-194 | a change within four consecutive bytes of an input sealed with its checksum, checksum included, always shows |
| `Manifests.ValidateState` | engine/lsmtree/src/db/manifest.cc:66-106 | accepts exactly the states with legal numbers, keys and counts, unique file numbers, and L1 and L2 in order by user key |
| `Manifests.EncodeState` | engine/lsmtree/src/db/manifest.cc:158-175 | refuses exactly the invalid states and those above 64 MiB |
| `Manifests.ManifestRoundTrip` | engine/lsmtree/src/db/manifest.cc:158-234 | decoding an encoded manifest gives it back |
| `ManifestVersions.EveryVersionRoundTrips` | engine/lsmtree/src/db/manifest.cc:213-224 | a manifest written in format 1 (L0 only), 2 (L0 and L1) or 3 reads back as it was, the missing levels empty |
| `ManifestVersions.DecodesExactlyEncodings` | engine/lsmtree/src/db/manifest.cc:178-234 | the decoder reads a manifest from exactly its encodings in the three formats and from no other bytes |
| `Manifests.ChangedManifestIsRejected` | engine/lsmtree/src/db/manifest.cc:189-194 | an encoded manifest changed within four consecutive bytes never decodes |
| `RaftVoteRuns.StepKeepsVotes` | raft/raft.go:116-145 | every delivery, tick, proposal, read, persist, send, advance and restart keeps the voting invariant over the whole cluster and all messages ever sent |
| `RaftVoteRuns.ElectionSafety` | raft/raft.go:243-285 | over every run with loss, duplication, reordering, crashes and restarts with any log, at most one node is ever leader of a term |
| `RaftVoteRuns.DurableSingleVote` | raft/raft.go:349-386 | no node ever sends grants to two candidates in one term, nor a grant in a term it campaigned in, whenever it crashes between persisting and sending |
| `RaftVoteRuns.OneLeader` | raft/raft.go:388-407 | two leaders of one term have a common voter, so they are the same node |
| `RaftBallots.GrantsGoToNewerLogs` | raft/raft.go:349-386 | in every run, with crashes and restarts: whenever a grant is on the network, the voter's log in the state that granted it had a smaller last term than the candidate's log when it asked, or the same and no larger last index |
| `RaftBallots.LeadersHadNewestLogs` | raft/raft.go:368-407 | every node that was ever leader had a majority behind it, each member itself or a voter with no newer log than it campaigned with |
| `RaftBallots.FreeVoterGrants` | raft/raft.go:349-386 | in every reachable state a request that reaches a node free to vote in its term is answered at once, and granted exactly if the log it shows is at least as new |
| `RaftBallots.VoteIsAnswered` | raft/raft.go:349-386 | for any node and request: the one answer sent, the vote and term left behind, and what is handed out to be saved |
| `RaftLeads.NamedLeaderIsTheLeader` | raft/raft.go:243-285 | whoever a node names as leader has been leader of the node's term and is the only one, crashes and restarts included |
| `RaftPrompt.StepKeepsPrompt` | raft/raft.go:116-145 | every step leaves no candidate decided, no leader with an uncommitted majority match of its term, and no read round with a majority of acknowledgements open |
| `RaftPrompt.NoDecidedCandidate` | raft/raft.go:388-407 | no candidate ever holds a majority of grants or of refusals |
| `RaftLogRuns.StepKeepsLogs` | raft/raft.go:460-547 | every step but a restart keeps the log invariant: each log agrees with the leaders' logs of its entries' terms, and messages and progress are backed by logs held |
| `RaftLogRuns.LogMatching` | raft/raft.go:460-518 | two logs any nodes ever had that hold an entry with the same index and term are equal up to it |
| `RaftLogRuns.LeaderAppendOnly` | raft/raft.go:155-171 | while a node stays leader of a term its log only grows at the end |
| `RaftLogRuns.CommitEvidence` | raft/raft.go:604-649 | when a leader's commit index advances, the entry there is of its term and a quorum held its log that far in that term; when a follower's does, a leader of its term had committed that far with the same entries |
| `RaftCommits.MajorityIsCommitted` | raft/raft.go:633-649 | in every reachable state a leader has committed each entry of its term that a majority of the peers is known to hold |
| `RaftCommits.LogTermsRise` | raft/raft.go:155-171 | in every log any node ever had, terms never fall and never exceed the node's own |
| `RaftCommits.CutKeepsCommittedIff` | raft/raft.go:485-501 | a follower that refuses an append still holds what it has committed if and only if the conflict lies above its commit index and in another term than the entry there |
| `RaftCommits.CommittedEntryIsCut` | raft/raft.go:485-501 | a follower and a leader that agree on a committed entry, and an append after which the follower has dropped it |
| `RaftCatchUp.PeerCatchesUp` | raft/raft.go:418-547 | a leader and a peer that exchange appends and answers have equal logs, and the leader knows it, after at most two more exchanges than twice the length of the peer log, whatever logs that match they start from |
| `RaftCatchUp.ReachablePeersCatchUp` | raft/raft.go:460-547 | in every reachable state this holds of every leader and every node not ahead of it in term |
| `RaftReadRuns.StepKeepsReads` | raft/read_index.go:13-93 | every step, restarts included, keeps the read invariant: every acknowledgement counted was sent in the round's term after its start |
| `RaftReadRuns.ReadIndexFreshness` | raft/read_index.go:53-93 | a completed round carries the leader's commit index at its start, an entry of its term was committed by then, a quorum answered it since in that term, and nobody had been leader of a later term before the start |
| `RaftPrompt.NoCompleteRoundIsOpen` | raft/read_index.go:69-93 | in every reachable state, crashes and restarts included, no started round has a majority of acknowledgements, and only leaders have rounds |
| `RaftLaws.QuorumthAckCompletes` | raft/read_index.go:69-93 | the acknowledgement that completes a majority ends the round and delivers its index; an earlier one is added to it |
| `RaftLaws.ReadIsTaken` | raft/read_index.go:13-25 | a read asked of a leader that has committed in its term is under way at once at its commit index, every other peer asked, or answered if the leader is alone; before that it waits |
| `RaftLaws.CommitWakesReads` | raft/read_index.go:36-43 | whatever call moves a leader's commit index, every waiting read is then under way at the new index |
| `RaftLaws.DroppedReadIsGone` | raft/read_index.go:27-30 | a dropped read leaves no round behind and touches no other |
| `RaftDelivery.ReadsAreHandedOutOnce` | raft/read_index.go:86-93 | the completed reads in a node's Ready have one result each and were never handed out before, crashes and restarts included |
| `RaftDelivery.HardStateSurvives` | kv/raftstore/worker.go:168-178 | while messages leave, and whenever nothing is pending, the saved hard state is the node's term, vote and commit index, so a restart brings all three back |
| `RaftWitness.StaleVoteElectsSecondLeader` | raft/raft.go:388-407 | a run after which one granted vote of an earlier term, delivered to a candidate, gives a term two leaders |
| `RaftLaws.CampaignAsksEveryone` | raft/raft.go:323-347 | a campaign opens the next term with a vote for oneself and asks every other peer, showing the last entry; a node alone wins at once |
| `RaftLaws.VotesDecide` | raft/raft.go:388-407 | an answer that completes a majority of grants makes a leader with one new entry offered to everyone, one that completes a majority of refusals a follower, any other is recorded |
| `RaftLaws.ProposalIsOffered` | raft/raft.go:147-171 | a proposal at a leader becomes its last entry, data and term, and is offered to every other peer from the entry it lacks on |
| `RaftLaws.AppendIsAnswered` | raft/raft.go:460-518 | what any append does to any node that takes it: the one answer, and the log kept, cut before the run of the conflicting term, or continued with exactly the entries sent, and the commit index |
| `RaftLaws.AnswerMovesProgress` | raft/raft.go:520-547 | an answer moves the sender's progress only: to the accepted index, behind the leader's last entry of the conflicting term, or to the index named; strangers and other terms change nothing |
| `RaftLaws.ElectionFiresInTime` | raft/raft.go:98-114 | ticks below the randomised timeout only count, and the first that reaches it starts a campaign |
| `RaftLaws.HeartbeatReachesAll` | raft/raft.go:98-107 | a heartbeat that is due offers every other peer what it lacks, once untagged and once for each read round under way |
| `RaftLaws.BeatReachesAll` | raft/raft.go:128-131 | a local heartbeat does the same at a leader and nothing elsewhere |
| `RaftServer.SortedMatches` | raft/raft.go:633-649 | the match indexes in descending order |
| `RaftServer.FindLastIndexOfTerm` | raft/log.go:97-108 | the last index holding the term, if any |
| `RaftServer.FirstOfRun` | raft/raft.go:490-498 | the first index of the run of equal terms that ends at the index |
| `RaftServer.CountVotes` | raft/raft.go:388-407 | the number of votes granted |
| `RaftServer.Raft.StepDown` | raft/raft.go:243-257 | the node is a follower of the term, with ballot, votes and read rounds reset as in the node model |
| `RaftServer.Raft.StartCampaign` | raft/raft.go:323-347 | the node stands in the next term, votes for itself and asks every peer, or leads at once when alone |
| `RaftServer.Raft.TakeLead` | raft/raft.go:270-285 | progress is reset, an empty entry of the term appended and sent to every peer |
| `RaftServer.Raft.AnswerVote` | raft/raft.go:349-386 | does to the object what `VoteIsAnswered` states: one answer, a grant exactly to a candidate of this term at least as up to date, from a node with no other vote in it |
| `RaftServer.Raft.TakeVote` | raft/raft.go:388-407 | a grant is counted and a quorum of them makes a leader |
| `RaftServer.Raft.SendAppend` | raft/raft.go:418-442 | the message holds the entries from the peer's next index with the term before them |
| `RaftServer.Raft.TakeAppend` | raft/raft.go:460-518 | a matching append replaces what follows, a conflicting one drops the run of the conflicting term, and commit follows the leader up to the last new entry |
| `RaftServer.Raft.TakeAppendResp` | raft/raft.go:520-547 | does to the object what `AnswerMovesProgress` states, with 64-bit wrap-around, and commits what `MajorityIsCommitted` says must be |
| `RaftServer.Raft.CommitUpTo` | raft/raft.go:604-612 | the commit index only grows, and waiting reads start when an entry of the term is committed |
| `RaftServer.Raft.StepMessage` | raft/raft.go:116-145 | a message of a later term makes the node a follower first; then the role's handler runs |
| `RaftServer.Raft.TickClock` | raft/raft.go:98-114 | a leader's heartbeat or another role's election is due exactly when its counter reaches the timeout |
| `RaftServer.Raft.ProposeEntry` | raft/raft.go:147-171 | only a leader takes a proposal, as a new last entry of its term |
| `RaftServer.Raft.StartReadIndex` | raft/read_index.go:13-25 | a read waits for an entry of the term, or starts a round at the commit index |
| `RaftServer.Raft.AckReadRound` | raft/read_index.go:69-84 | an acknowledgement is counted once per peer, and the one that completes a majority completes the round (`QuorumthAckCompletes`) |
| `RaftServer.Raft.RetryReadRounds` | raft/read_index.go:45-51 | every started round is broadcast again |
| `ReadTracking.ReadTracker.StartRead` | kv/raftstore/read.go:57-66 | the read waits under the next non-zero 64-bit id |
| `ReadTracking.ReadTracker.RejectRead` | kv/raftstore/read.go:68-76 | the read under the id finishes with the error, once |
| `ReadTracking.ReadTracker.HandleReadStates` | kv/raftstore/read.go:78-100 | each confirmed read finishes if canceled or already applied, else queues for its index |
| `ReadTracking.ReadTracker.Notify` | kv/raftstore/read.go:102-121 | queued reads canceled or covered finish, the others stay in order |
| `ReadTracking.ReadTracker.FailAll` | kv/raftstore/read.go:123-138 | every read waiting for a quorum finishes, in whatever order the map yields them |
| `ReadTracking.ReadTracker.Prune` | kv/raftstore/read.go:140-165 | every canceled read finishes, the others stay |
| `ReadLife.StartAccounts` | kv/raftstore/read.go:57-66 | starting a read keeps every read accounted for exactly when its id is not still in use |
| `ReadLife.StepKeepsInv` | kv/raftstore/apply.go:78-131 | every step of the raft worker, the apply worker and the callers keeps each read in one place and the wakeup invariant |
| `ReadLife.ReadsAreTracked` | kv/raftstore/read.go:57-165 | in every reachable state each started read waits for a quorum, waits for apply or is finished, exactly one of them and once; success is covered by what is applied; a queued read already covered has a notification to come |
| `ReadOutcomes.OutcomesAreEarned` | kv/raftstore/read.go:57-165 | in every reachable state a read that succeeded did so with an index confirmed for the id it was given, and one that ended as canceled had been canceled |
| `ReadOutcomes.FirstConfirmationDecides` | kv/raftstore/read.go:78-100 | every confirmed read leaves the quorum stage, and the first state that names it decides: canceled, success at that index, or queued for it |
| `ReadOutcomes.NotifyFinishesCovered` | kv/raftstore/read.go:102-121 | a notification ends exactly the queued reads that are reached or canceled, each with its outcome, and keeps the others in order |
| `ReadOutcomes.NonLeaderFailsAllWaiting` | kv/raftstore/read.go:123-138 | on a node that is not leader every read waiting for a quorum ends, as canceled or as "not leader", and queued reads stay |
| `ReadOutcomes.PruneEndsCanceled` | kv/raftstore/read.go:140-165 | pruning ends exactly the canceled reads, in either stage, as canceled |

## Left out

- Power loss, fsync order and directory sync: a crash is the death of the process, and bytes written stay written. A failure reported after the manifest was renamed is not modelled.
- A crash inside the first initialization, before the first manifest exists.
- Manifests above 64 MiB: the encoder is modelled as refusing exactly these, while the code checks the size after each table.
- Tables.SSTableBuilder.Add: asks that block and index offsets fit 32 bits, as the builder's assertions do; a table that outgrows them is not modelled.
- Stores.Session.StartWork: asks that the memtable to be flushed fits a table, and that someone may still read below the largest sequence number.
- Stores.Session.ContinueCompaction: asks that each output fits a table.
- Memory usage of a memtable is a function of its entries, although skip list heights are random.
- Compaction and iterators take a table's entries from memory, read from the file when it was opened; that a scan of the file delivers them is `TableRefinements.ScanTableFrom`.
- An iterator's children grow under it in any way that adds entries newer than its sequence number; that the skip list's writer does only this is `SkipLists.SkipList.LinkLevel`.
- Deleting obsolete files is a step that may remove any WAL below the oldest live one and any table no manifest level names; the best-effort loops are not modelled.
- The MemTable record encoding in the arena, and the arena itself.
- POSIX I/O, file locks, retries, temporary files, status texts and memory orderings.
- Raft snapshots, log compaction and `MsgSnap`: the log's offset is zero throughout.
- Leader Completeness and State Machine Safety, which need delivery and failure assumptions that `handleAppend` (see Findings) and the restart path do not establish.
- RaftLogRuns.LogMatching: without restarts, because a restart reloads entries only up to the commit index.
- RaftLogRuns.LeaderAppendOnly: without restarts.
- RaftLogRuns.CommitEvidence: without restarts.
- The slices of pending and committed entries handed out in `Ready`; the cluster model persists and applies from the node itself.
- The distribution of election timeouts: the random part is a parameter of each tick. Liveness beyond `RaftLaws.ElectionFiresInTime` and `RaftCatchUp.PeerCatchesUp`.
- RaftCommits.MajorityIsCommitted: without restarts, because a restart may bring any log back.
- RaftCommits.LogTermsRise: without restarts.
- RaftCatchUp.ReachablePeersCatchUp: without restarts.
- Wal.DamagedIsCorrupt: a change that spans both the checksum field and the payload is not covered; exactly when that is noticed is `Wal.StoredRecordReads`.
- TableRefinements.GetFromAltered: the footer carries no checksum, so a change there is not covered.
- ReadLife.ReadsAreTracked: for runs in which read ids have not come round.
- `kv/storage`, regions, the scheduler, gRPC transport, the C API, the Badger backend and the command line.
