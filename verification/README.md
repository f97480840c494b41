# sq: crash ordering, delivery and filters, modelled and proved

sq is a message queue on an ordered key-value store and a raft library. These modules model the parts of it where order
matters most and prove what each promises over every run, every crash and every input.

The files group as follows.

- Segmented raft log: `frame.dfy`, `replay.dfy`, `segdisk.dfy`, `segscan.dfy`, `seglog.dfy`. A segment file is its bytes,
  how many of them an fsync covers, whether its length was fixed, and whether its name is on disk. Every state the disk
  passes through inside a method is kept in a trail, so a power loss can fall between any two steps.
- Raft store: `raftcache.dfy` (the cached slice and the arrays it shares with callers) and `raftstore.dfy` (persist, load,
  truncate, the one-time migration).
- Keys and snapshot transfer: `bytes.dfy`, `keys.dfy`, `scan.dfy`, `snapstream.dfy`, `install.dfy`.
- Delivery: `queue.dfy` (the invariant of one queue and its steps), `deliver.dfy` (the operations), `sortedsets.dfy`.
- Two-phase movers: `delay.dfy`, `txn.dfy`. Each method is one critical section; any sequence of calls is an interleaving
  of the scheduler's unlocked scan, its moves, callers, clock ticks and crashes.
- Raft group: `apply.dfy`, `append.dfy`, `readbarrier.dfy`, `registry.dfy`.
- Filters: `sqllex.dfy`, `sqlgrammar.dfy`, `sqlparse.dfy`.

Code that changes things step by step is a class whose methods are proved against functions of the old state; the store
and the disk are fields, and crashes are methods. Whether a write, a sync or a request succeeds is decided in `faults.dfy`,
which counts the failures: methods promise what an error leaves behind, and that they report one only if something
outside failed. A run is any sequence of calls, so what the classes' `Valid` predicates and the lemmas about them say holds
in every reachable state.

`dafny verify dfyconfig.toml` checks everything.

## Assumptions the code relies on

- No index gaps. Nothing in the segment log refuses an append that skips an index, and the model takes it too. But only
  without gaps (`Gapless`) do reclaims keep the entries above the truncation point; `Replay.ReclaimNeedsNoGap` shows what
  happens otherwise. `RaftLogs.BatchHasNoGap` is the condition a caller can check, and every method keeps a log that has no
  gap so. Installing a snapshot does not clear the segment log (internal/cluster/group.go:1131-1201), so the first append
  after an install is where it matters.
- A tail above the truncation point, or an entry in the active segment. `SegLog.TruncateSafeExactly` is the exact condition
  under which a reclaim is safe beforehand, and `Replay.ReclaimNeedsTailAbove` an input that fails it.
- A HardState synced in the newest segment (`Anchored`). A rotation puts it there (internal/cluster/seglog/seglog.go:552-575),
  so does a synced append that brings one; and from then on every method, power loss and reopening keeps it there. A crash in the middle
  of a rotation leaves a newest segment without one until the next synced HardState, and a reclaim before that can lose it:
  `Replay.InterruptedRotationCanLoseHardState`. `Replay.ReclaimHardState` says exactly what is left.
- A half-installed group whose leftover log starts at 1. `Install.ResetCrashHarmless` is the exact condition,
  `Install.ResetCrashCanLoseState` an input that fails it.
- A process that dies without a power loss between creating a segment and syncing its name must not come back before the
  name is on disk: `SegDisk.SurvivesIfNamed`.
- The checksum rejects a frame cut short and continued with zeros (`Codec.DetectsCuts`), and the message encodings round
  trip. `Frame.CodecsExist` shows that the first can be met. Bodies stay within the frame limit.
- A batch of the key-value store is atomic and batches are ordered; a synced one and all before it survive a power loss.
- ApplyAsync publishes in order before it returns. The standalone store does (internal/store/store.go:334-349); the cluster
  backend starts a proposal and returns (internal/replication/replication.go:352-360), so the delivery results are for the
  standalone contract.
- Raft's read index is no lower than anything confirmed when the request was made (section 6.4 of Ongaro's dissertation
  "Consensus: Bridging Theory and Practice"); committed entries arrive in index order.
- The clock does not run backwards (delay), and transaction ids are not reused.

Where the code and its own comments part, the code is followed.

- The comment on `segMax` (internal/cluster/seglog/seglog.go:47-54) says a closed segment without entries is registered
  with 0 and that a value is too high only after a later overwrite. Rotation registers the log's last index
  (internal/cluster/seglog/seglog.go:485-485, 584-584), which is too high for any segment whose last record is not the
  log's. Too high only delays reclaim, and the model asks no more than "not too low".
- The comment on `TruncateTo` (internal/cluster/seglog/seglog.go:660-674) says that reclaim never revives or loses an entry
  and that a newer segment always holds the newest HardState. Both need the conditions above, and the counterexamples show it.
- The comment on `ResetGroupProgress` (internal/cluster/raftstore.go:735-754) calls a crash between its two steps harmless:
  a few old entries replayed too often. A log that does not start at 1 seeds raft just before its first entry, and what lay
  before that is lost.

A message of a transaction may be queued twice, and a message dead-lettered twice, after a crash between two phases; the
code accepts both, and the model claims at least once.

## Model

| member | source | states |
|---|---|---|
| `Frame.ReadWrittenFrame` | internal/cluster/seglog/frame.go:96-109 | a frame reads back as the type and payload it was made of, whatever bytes follow it |
| `Frame.FrameLayout` | internal/cluster/seglog/frame.go:15-57 | a record's frame is four bytes of length, four of checksum, the type byte 1 or 2 and the payload, and the checksum covers type and payload |
| `Frame.ReadIsWritten` | internal/cluster/seglog/frame.go:96-120 | nothing is taken for a frame but the bytes that writing what was read gives, length and checksum included |
| `Frame.ForeignFrameSkipped` | internal/cluster/seglog/seglog.go:226-288 | a good frame of an unknown type is stepped over |
| `Frame.UndecodableStops` | internal/cluster/seglog/seglog.go:226-288 | a good frame whose payload does not decode ends the scan in front of it |
| `Frame.CutFrameIsTorn` | internal/cluster/seglog/frame.go:96-109 | a frame cut anywhere, with nothing after the cut, is refused by its length field alone, for any checksum |
| `Frame.ZerosAreTorn` | internal/cluster/seglog/frame.go:96-109 | zeros are never a frame: a zero length is refused before the checksum is looked at |
| `Frame.ScanFrames` | internal/cluster/seglog/seglog.go:188-288 | a segment of whole frames followed by nothing, or by bytes that do not read, scans to exactly its records |
| `Frame.ScanCut` | internal/cluster/seglog/seglog.go:188-288 | torn-tail recovery: a cut at any byte followed by any number of zeros scans to the first j records for a j that counts every frame wholly before the cut, and stops at that frame's end |
| `Frame.WholeInCovers` | internal/cluster/seglog/seglog.go:207-223 | synced frames lie wholly below every cut a power loss can make, so none of them is lost by the scan |
| `Frame.CodecsExist` | internal/cluster/seglog/frame.go:48-57 | the assumption made about the checksum can be met: some checksum rejects every cut frame |
| `Replay.ReplayIsLastWriterWins` | internal/cluster/seglog/seglog.go:244-264 | the forward replay with cuts returns exactly the entries no later record of the same or a lower index replaces, found from the newest record backwards |
| `Replay.ReplayedMembers` | internal/cluster/seglog/seglog.go:244-264 | an entry is in the replayed log if and only if some record of it survives all later ones |
| `Replay.ReplayedAscending` | internal/cluster/seglog/seglog.go:244-264 | the replayed entries are strictly ascending and the last index is that of the last of them |
| `Replay.ReplayedHs` | internal/cluster/seglog/seglog.go:265-281 | the HardState of a history is the one of its newest HardState record, unchanged, and there is none if and only if there is no such record |
| `Replay.ReclaimKeepsEntriesAbove` | internal/cluster/seglog/seglog.go:675-703 | with no index gap and the tail above upto, deleting any subset of the segments that end at or below upto leaves every entry above upto as it was, even when the record that overwrote an old suffix goes with its segment |
| `Replay.ReclaimExact` | internal/cluster/seglog/seglog.go:660-703 | exactly when one reclaim leaves the entries above upto as they were: with no index gap, if and only if the tail of the whole log lies above upto or the tail of what is kept does not |
| `Replay.ReclaimSafeExactly` | internal/cluster/seglog/seglog.go:660-703 | and exactly when it is safe beforehand, whichever closed segments go: if and only if the tail is above upto, or the newest segment holds an entry, or no segment ends above upto |
| `Replay.ReclaimNeedsTailAbove` | internal/cluster/seglog/seglog.go:660-703 | counterexample: three segments without a gap, the newest still without entries, the tail at upto; deleting the segment that overwrote an entry brings the old entry back |
| `Replay.ReclaimNeedsNoGap` | internal/cluster/seglog/seglog.go:660-703 | counterexample: the tail above upto, but the active segment starts past an index gap; deleting the overwriting segment brings the old entry back |
| `Replay.GapFreeReclaimed` | internal/cluster/seglog/seglog.go:675-703 | reclaiming opens no gap above the floor, so the next reclaim and the next restart may rely on it again |
| `Replay.ReclaimHardState` | internal/cluster/seglog/seglog.go:675-703 | exactly what reclaim does to the HardState: it stays if the newest segment holding one is kept; otherwise it becomes whatever the kept segments before that one hold, if any |
| `Replay.InterruptedRotationCanLoseHardState` | internal/cluster/seglog/seglog.go:519-575 | counterexample: a crash between creating the next segment and copying the HardState into it, then a reclaim, loses the only HardState |
| `SegDisk.LeftKeepsShape` | internal/cluster/seglog/seglog.go:601-614 | what a power loss leaves of a segment being written, preallocated or not, is again a cut of the intended frames that holds the synced ones |
| `SegDisk.ScanShape` | internal/cluster/seglog/seglog.go:188-288 | scanning such a segment finds every synced record and a prefix of the rest, and cuts the file at that record |
| `SegDisk.CrashRecovery` | internal/cluster/seglog/seglog.go:168-289 | from any state the log passes through and anything a power loss leaves of it, no segment but the newest is damaged and the records found are those written up to some point at or after the last sync |
| `SegDisk.RecoveredLog` | internal/cluster/seglog/seglog.go:168-289 | the replay of what is left is that of a prefix of the history that holds everything synced: outright while no segment is gone; after reclaims the entries above the highest truncation point, without index gaps, if and only if that prefix ends above it or what is read does not; and the HardState if the segment holding it is left |
| `SegDisk.HsRecovered` | internal/cluster/seglog/seglog.go:168-289 | if the newest segment held a synced HardState, what is read has the HardState of that prefix, reclaimed segments or not |
| `SegDisk.GaplessCut` | internal/cluster/seglog/seglog.go:244-264 | a log no append of which skipped an index has no gap in any prefix a loss can leave |
| `SegDisk.SurvivesIfNamed` | internal/cluster/seglog/seglog.go:291-319 | a file survives every power loss if and only if its name is on disk, however much of it was synced; Open syncs the name only of a segment it creates |
| `SegScan.ScanSegment` | internal/cluster/seglog/seglog.go:188-288 | the frame loop on one segment: state, offset and last index are those of the records before the first frame that does not read |
| `SegScan.ScanDir` | internal/cluster/seglog/seglog.go:168-289 | the directory loop refuses if and only if some segment other than the newest holds a frame that does not read; otherwise it returns the replay of all records and each closed segment's last index |
| `SortedSets.InOrder` | internal/cluster/seglog/seglog.go:360-383 | the segment numbers in ascending order, each once |
| `SegLog.Assemble` | internal/cluster/seglog/seglog.go:418-436 | the buffer of one Append is the frames of the HardState and then of the entries, in order |
| `SegLog.WriteSound` | internal/cluster/seglog/seglog.go:437-450 | a write, even cut short by an error, leaves a state from which recovery is sound |
| `SegLog.SyncSound` | internal/cluster/seglog/seglog.go:623-631 | an fsync makes everything written durable and changes nothing else |
| `SegLog.NextSound` | internal/cluster/seglog/seglog.go:519-536 | creating the next segment is sound only because the one before was cut to its length and synced first |
| `SegLog.LossSound` | internal/cluster/seglog/seglog.go:140-357 | any power loss from any sound state leaves a sound state |
| `SegLog.LossGapless` | internal/cluster/seglog/seglog.go:140-357 | a power loss opens no index gap |
| `SegLog.LossAnchored` | internal/cluster/seglog/seglog.go:140-357 | a power loss leaves the newest segment, if it holds a synced HardState, and that HardState in it |
| `SegLog.RotatedAnchors` | internal/cluster/seglog/seglog.go:552-574 | a rotation that has copied the newest HardState leaves it synced in the new newest segment |
| `SegLog.AdvancedGapless` | internal/cluster/seglog/seglog.go:414-467 | a run that writes a round which leaves no index gap goes through no state that has one |
| `SegLog.Log.constructor` | internal/cluster/seglog/seglog.go:32-66 | an empty disk satisfies the invariant |
| `SegLog.Log.WriteActive` | internal/cluster/seglog/seglog.go:437-450 | the buffer goes to the logical end; on error any part of it may be in the file |
| `SegLog.Log.SyncActive` | internal/cluster/seglog/seglog.go:623-631 | on success everything in the active segment is durable |
| `SegLog.Log.Seal` | internal/cluster/seglog/seglog.go:487-517 | the old segment has its exact length and is fully synced before it is closed |
| `SegLog.Log.OpenNext` | internal/cluster/seglog/seglog.go:519-545 | the next segment exists and its name is on disk before anything is written to it |
| `SegLog.Log.CopyHardState` | internal/cluster/seglog/seglog.go:552-574 | the newest HardState is the first record of the new segment and is synced at once |
| `SegLog.Log.StartNext` | internal/cluster/seglog/seglog.go:487-545 | the old segment is sealed before the new one exists |
| `SegLog.Log.MaybeRotate` | internal/cluster/seglog/seglog.go:476-590 | below the size limit nothing happens; at it the log continues in a fresh synced segment that starts with the newest HardState, which is there to stay; the old one is registered for reclaim last, and the visible log is unchanged |
| `SegLog.Log.WriteRound` | internal/cluster/seglog/seglog.go:414-460 | one round appends the HardState and the entries and brings size, last index and newest HardState up to date |
| `SegLog.Log.Append` | internal/cluster/seglog/seglog.go:414-467 | for any round, index gaps or not: the visible log after success is the old one with the round replayed on it; with sync or a rotation all of it is durable; every state in between is one from which recovery is sound, and nothing synced is ever taken back; a round that leaves no gap leaves none in any of them; a synced HardState in the newest segment stays, and a synced round that brings one puts it there; an open log reports an error only if a write, a sync or a rename failed |
| `SegLog.Log.Sync` | internal/cluster/seglog/seglog.go:634-642 | after success everything written is durable, the HardState with it, and nothing else changed |
| `SegLog.Log.Close` | internal/cluster/seglog/seglog.go:645-658 | a closed log takes no further appends |
| `SegLog.Log.RemoveSegment` | internal/cluster/seglog/seglog.go:682-697 | one closed segment goes, from the directory and from the register |
| `SegLog.Log.TruncateTo` | internal/cluster/seglog/seglog.go:675-703 | deletes only closed segments registered at or below upto, all of them unless an error stops it; the visible log and the active segment stay; of what is on disk, the entries above upto stay exactly when the tail was above upto or is not now, and the HardState whenever its segment does, the active one always |
| `SegLog.Log.PowerLoss` | internal/cluster/seglog/seglog.go:140-357 | a power loss at any state a run went through leaves a state that can be opened, with the HardState of the newest segment if one was synced there |
| `SegLog.Log.CreateFirst` | internal/cluster/seglog/seglog.go:291-319 | the first segment's name is on disk before Open returns |
| `SegLog.Log.ReopenLast` | internal/cluster/seglog/seglog.go:207-223 | the bad tail of the newest segment is cut off and writing continues after the last good frame, keeping everything durable, a synced HardState included |
| `SegLog.Log.ScanFiles` | internal/cluster/seglog/seglog.go:168-289 | a directory any power loss left is never refused |
| `SegLog.Log.Open` | internal/cluster/seglog/seglog.go:140-357 | opening never refuses a directory a power loss left; it returns the replay of a history that holds everything durable and nothing never written, with a HardState if the newest segment held a synced one, and the log is ready to append to it; it fails only if the disk does |
| `SegLog.Restart` | internal/cluster/seglog/seglog.go:140-357 | the whole story: a power loss at any step of any run followed by Open returns the replay of a prefix of everything written that holds everything synced, entries and HardState, as far as RecoveredLog says; and a HardState synced in the newest segment is still there for the next loss and the next reclaim; and it comes up unless the disk fails |
| `SegLog.ReadAfterLoss` | internal/cluster/seglog/seglog.go:140-357 | what Open reads after a loss is a recovery of the state the loss hit, HardState included |
| `SegLog.TruncateKeepsEntries` | internal/cluster/seglog/seglog.go:675-703 | whichever of its segments TruncateTo has deleted so far, and whatever points earlier calls were given: without index gaps the entries above upto on disk are as before if and only if the tail was above upto or is not now |
| `SegLog.TruncateSafeExactly` | internal/cluster/seglog/seglog.go:660-703 | before the call: they stay whatever is deleted if and only if the tail is above upto, or the active segment holds an entry, or no segment on disk ends above upto |
| `SegLog.OnDiskGapFree` | internal/cluster/seglog/seglog.go:675-703 | if no append skipped an index, what reclaims have left on disk has no gap above any truncation point |
| `SegLog.TruncateKeepsHardState` | internal/cluster/seglog/seglog.go:675-703 | the HardState on disk stays whenever the segment that holds it does, and if the active segment holds one it is that one, before and after |
| `RaftCache.LogRecovered.Lend` | internal/cluster/raftstore.go:348-360 | Load hands out a window of the shared backing array, recorded with what it showed |
| `RaftCache.LogRecovered.FindCut` | internal/cluster/raftstore.go:284-288 | the walk back from the end stops where the batch's first index cuts |
| `RaftCache.LogRecovered.CutTail` | internal/cluster/raftstore.go:289-300 | a cut moves the kept entries to a new array, so that no earlier loan changes |
| `RaftCache.LogRecovered.AppendAll` | internal/cluster/raftstore.go:301-301 | the batch is appended in place while capacity lasts; all loans still show what they showed |
| `RaftCache.LogRecovered.WriteBeyond` | internal/cluster/raftstore.go:301-301 | a write past the live end cannot be seen through any loan |
| `RaftCache.LogRecovered.Merge` | internal/cluster/raftstore.go:265-303 | the cache after Persist is the old one cut at the batch's first index with the batch appended, and no slice handed out earlier has changed |
| `RaftCache.LogRecovered.Trim` | internal/cluster/raftstore.go:849-857 | the cached window starts after upto; nothing in the array is written |
| `RaftLogs.BatchReplayed` | internal/cluster/raftstore.go:279-302 | replaying an ascending batch record by record is one cut at its first index and one append: the cache rule is the log's rule |
| `RaftLogs.SameBatchSameLog` | internal/cluster/raftstore.go:279-302 | two logs that agree above a point still agree above it after the same batch |
| `RaftLogs.DropIsAbove` | internal/cluster/raftstore.go:849-857 | narrowing the cache drops exactly what lies at or below upto |
| `RaftLogs.BatchHasNoGap` | internal/cluster/raftstore.go:256-264 | consecutive entries that start no later than one past the tail open no index gap: the condition a caller can check |
| `RaftLogs.SyncedReadsBack` | internal/cluster/raftstore.go:329-375 | a synced log with no segment gone is read back in full after any power loss |
| `RaftLogs.TruncatedReadsBack` | internal/cluster/raftstore.go:829-861 | after truncation and a sync, a restart loads every entry above the point the log held, without index gaps, if and only if the log ended above it or what is read does not; and it loads the HardState if the newest segment held a synced one |
| `RaftLogs.RaftStore.GetLog` | internal/cluster/raftstore.go:169-183 | the log is opened once and the cache starts as the replay of what is on disk, with a HardState if the newest segment held a synced one |
| `RaftLogs.RaftStore.Persist` | internal/cluster/raftstore.go:256-305 | log and cache take the same batch by the same rule, index gaps or not; with sync the log is durable; every disk state in between is recoverable; a synced HardState in the newest segment stays there |
| `RaftLogs.RaftStore.Load` | internal/cluster/raftstore.go:329-375 | while any legacy key exists: the legacy HardState and entries themselves; else the HardState of the newest HardState record of the log, unchanged, or term, vote and commit 0 when there is none, and the cached log, which above the truncation point is the replay of the segment log; the snapshot anchor comes along; the slice stays valid; it fails only if the disk does |
| `RaftLogs.RaftStore.TruncateLog` | internal/cluster/raftstore.go:829-861 | refused, with nothing touched, unless the snapshot anchor covers upto; otherwise segments are reclaimed, keeping entries and HardState exactly as TruncateTo does, and the cache narrowed to what lies above upto |
| `RaftLogs.RaftStore.PersistChunks` | internal/cluster/raftstore.go:500-520 | writing the old log in chunks ends with exactly the old entries and HardState, all synced |
| `RaftLogs.RaftStore.CopyLegacy` | internal/cluster/raftstore.go:485-520 | whatever an earlier attempt left is wiped, then the legacy log is copied in full |
| `RaftLogs.RaftStore.MigrateLog` | internal/cluster/raftstore.go:475-535 | afterwards the log answers the legacy HardState, vote included, and the legacy entries; at whatever step of the one-time migration a power loss interrupts, a restarted Load answers those same values; it fails only if the disk or the store does |
| `RaftLogs.MovedRestarts` | internal/cluster/raftstore.go:520-535 | once everything is in the segment log and synced, whatever a loss leaves is read back as the old HardState and the old entries without the legacy keys |
| `Bytes.ComputePrefixUpperBound` | internal/store/keys.go:168-177 | the backward loop computes the least string above every string with the prefix; nil if and only if the prefix is all 0xFF |
| `Bytes.PrefixRange` | internal/store/keys.go:160-177 | a key lies in [p, PrefixUpperBound(p)) if and only if p is its prefix |
| `Bytes.BEOrder` | internal/store/keys.go:44-62 | big-endian integers sort as byte strings exactly as they do as numbers |
| `Bytes.U64RoundTrip` | internal/store/keys.go:44-56 | GetU64 undoes PutU64 |
| `Keys.ParseEncode` | internal/store/keys.go:65-158 | every data-key builder is undone by the family dispatch and its parser, for separator-free names |
| `Keys.EncodeParse` | internal/store/keys.go:84-158 | a key a parser accepts is the encoding of what it returns: no two byte strings share a meaning |
| `Keys.EncodeParseKeyIdx` | internal/store/keys.go:289-307 | the same for business-key index keys, whose key part may hold separators |
| `Keys.KeysOfQueueShareItsGroup` | internal/cluster/snapstream.go:146-196 | every data key of a queue is routed to the queue's group |
| `Keys.GroupByHash` | internal/cluster/snapstream.go:146-153 | the hash runs over the topic and the four bytes of the queue number, highest first; its remainder counts from group 1 |
| `Keys.FnvVectors` | internal/cluster/snapstream.go:146-153 | the published test vectors of 32-bit FNV-1a |
| `Keys.GroupVectors` | internal/cluster/snapstream.go:146-153 | two values of the mapping, for two queues of one topic |
| `Keys.MsgKeysSort` | internal/store/keys.go:65-83 | the message keys of a queue sort by offset, for every pair of offsets |
| `Keys.MsgKeysContiguous` | internal/store/keys.go:65-83 | between two message keys of a queue lie only message keys of that queue |
| `Keys.InflightKeysSort` | internal/store/keys.go:120-158 | the inflight keys of a consumer sort by offset |
| `Keys.KeyIdxSortsByTime` | internal/store/keys.go:242-307 | the index keys of a business key sort by time first |
| `Keys.DelayScanIsDue` | internal/store/keys.go:182-195 | the delay scan range holds exactly the entries due at or before now |
| `Keys.HalfScanIsDue` | internal/core/txn/txn.go:356-383 | the half scan range holds exactly the half messages due for a check at or before now |
| `Scan.SelectMembers` | internal/cluster/snapstream.go:229-286 | what is selected: exactly the view's pairs the group owns after the cursor |
| `Scan.SelectResume` | internal/cluster/snapstream.go:229-286 | resuming after the m-th selected key selects exactly the rest: nothing repeated, nothing lost |
| `Scan.SelectFromEmptyCursor` | internal/cluster/snapstream.go:229-286 | a cursor of zero bytes excludes nothing |
| `Scan.ScanRange` | internal/cluster/snapstream.go:240-280 | one range from its lower bound: the cursor key itself and other groups' keys are skipped, and a budget cuts only after a whole pair |
| `Scan.ScanGroupKeys` | internal/cluster/snapstream.go:229-286 | done means all that is left after the cursor, in key order; not done means a nonempty prefix of it cut by one of the two budgets; an unroutable key of the families is an error |
| `SnapStream.ScopeAscends` | internal/cluster/snapstream.go:82-138 | the key ranges of every group are ascending, disjoint and nonempty, which is what makes one cursor enough |
| `SnapStream.DataKeyHasOneOwner` | internal/cluster/snapstream.go:146-196 | each data key is owned by exactly one group in 1..n, that of its queue |
| `SnapStream.OwnsExactly` | internal/cluster/snapstream.go:82-138 | group 0 owns a key if and only if it starts with delay/, delayalloc, half/, halfidx/ or meta/; any other group exactly the keys starting with alloc/, cursor/, inflight/, keyidx/ or msg/ that are routed to it; the prefixes byte by byte |
| `SnapStream.GlobalKeysAreGroup0s` | internal/cluster/snapstream.go:82-138 | every delay and half key, whatever its arguments, is group 0's |
| `SnapStream.GlobalOrQueue` | internal/cluster/snapstream.go:82-138 | no key of the global families is owned by a group from 1 on, and no valid data key by group 0 |
| `SnapStream.ChunkBytesAreBytes` | internal/cluster/snapstream.go:262-286 | the bytes the budget counts are the bytes of the encoded chunk |
| `SnapStream.ChunkLayout` | internal/cluster/snapstream.go:295-336 | a chunk is key length, key, value length, value, pair after pair |
| `SnapStream.ReqLayout` | internal/cluster/snapinstall.go:44-55 | where group, snapshot id, cursor length and cursor stand in a request |
| `SnapStream.RespLayout` | internal/cluster/snapinstall.go:57-74 | where the end flag, the cursor and the chunk stand in a response |
| `SnapStream.ComputeDecodeChunk` | internal/cluster/snapstream.go:310-336 | the decoding loop returns what the chunk holds, or fails as soon as a length runs past the end |
| `SnapStream.DecodeEncodeChunk` | internal/cluster/snapstream.go:297-336 | decoding an encoded chunk gives back its pairs |
| `SnapStream.EncodeDecodeChunk` | internal/cluster/snapstream.go:297-336 | a chunk that decodes is the encoding of what was read: nothing is silently dropped |
| `SnapStream.DecodeEncodeReq` | internal/cluster/snapinstall.go:48-55 | a fetch request reads back as sent |
| `SnapStream.DecodeEncodeResp` | internal/cluster/snapinstall.go:62-74 | a fetch response reads back as sent |
| `SnapStream.HandleFetchSnapshot` | internal/cluster/manager.go:2064-2132 | a reply is a prefix of what is left of the view after the cursor: all of it when done, else at least one pair with its last key as the next cursor; it fits the key and byte budgets but for its last pair; a known view is refused only over an unroutable key |
| `SnapStream.CursorAdvances` | internal/cluster/group.go:1243-1247 | the receiver's guard against a cursor that does not move never fires against this sender |
| `SnapStream.FetchChunk` | internal/cluster/group.go:1234-1251 | one round trip brings a prefix of what is still missing; a lost request brings nothing |
| `SnapStream.PullSnapshotChunks` | internal/cluster/group.go:1224-1284 | success means the chunks are exactly the sender's keys of the group, by prefix and route, in key order, each once, in at most 65536 chunks and 256 GiB; without lost requests and below the limits it can only fail over an unroutable key or an unknown view |
| `Install.SelectAsMap` | internal/cluster/snapstream.go:229-286 | the pairs sent, as a map, are the view restricted to the keys the group owns |
| `Install.PutKeepsOthers` | internal/cluster/group.go:1252-1263 | chunks put on a wiped group make up exactly what was sent and never touch another group's keys |
| `Install.InstallCrashSafe` | internal/cluster/group.go:1131-1201 | at every step of an install, from any disk: before the closing batch the disk is marked, the closing batch makes it an exact copy of the sender's group at the snapshot index, and other groups never change |
| `Install.RestartCrashSafe` | internal/cluster/manager.go:678-705 | every disk a restart passes through is marked until the group is empty with applied 0, and in the end its log is gone too; of these only the one between the two steps of the reset can resume past entry 0, if and only if the log left over starts above 1 |
| `Install.ResetCrashHarmless` | internal/cluster/raftstore.go:735-790 | exactly when a crash between the two steps is harmless: for every history of the group, what raft redelivers on the emptied group makes up the whole state, if and only if the log left over is empty or starts at 1 |
| `Install.NewestChangeStands` | internal/cluster/group.go:1340-1439 | what replaying an entry does to the keys: its writes stand, its deletes are gone, the rest is as before it |
| `Install.ResetCrashCanLoseState` | internal/cluster/raftstore.go:735-790 | counterexample: a log truncated behind an anchor at 4; the crash leaves no marker and no anchor, the next start takes 1 to 4 as applied, and their changes are gone |
| `Install.CopyIsExact` | internal/cluster/group.go:1131-1201 | key by key: of the keys of the group, by prefix and route, the store holds those of the sender's view with their values and no other; every other key is as before |
| `Install.ListGroupKeys` | internal/cluster/snapinstall.go:93-130 | the wipe lists exactly the group's own keys, and fails if and only if a key of its families cannot be routed |
| `Install.Node.constructor` | internal/cluster/group.go:286-344 | a group without a marker is taken as it is |
| `Install.Node.Commit` | internal/cluster/raftstore.go:680-696 | batches are atomic and ordered; a Sync batch and all before it survive a power loss |
| `Install.Node.WipeGroupKeys` | internal/cluster/snapinstall.go:93-130 | on success the group is empty and no other key has changed |
| `Install.Node.PutChunks` | internal/cluster/group.go:1252-1263 | the chunks are in, the marker still stands |
| `Install.Node.InstallSnapshot` | internal/cluster/group.go:1131-1201 | success: of the group's keys the store holds exactly the sender's, with their values, and every other key is as before; applied index, anchor and members are the snapshot's, all durable; any failure leaves the marker, or nothing done, or the close already made; every state between is safe to crash in; without lost requests, over a known view that routes and keeps within the limits, it fails only if the store does |
| `Install.Node.Crash` | internal/cluster/group.go:1131-1201 | a power loss falls back to some committed state at or after the last synced one; log files removed but not yet gone from the disk may be back |
| `Install.Node.WipeLog` | internal/cluster/raftstore.go:194-211 | files go one by one, in the end all; an error may leave some |
| `Install.Node.ReopenLog` | internal/cluster/seglog/seglog.go:104-127 | the directory made anew has its name on disk, so what was removed stays removed |
| `Install.Node.ResetGroupProgress` | internal/cluster/raftstore.go:756-790 | the synced batch first, then the log, in two steps a crash can fall between |
| `Install.Node.Restart` | internal/cluster/manager.go:585-705 | a group that comes up has no marker and holds a state known whole or nothing with applied 0; a partial copy is never taken as complete; an unmarked one is taken as it is; raft resumes after the higher of the applied index and the anchor, or the entry before the log's first, and that is where the keys stand if and only if no reset was cut off with a log left that starts above 1 |
| `Queue.NumbersRun` | internal/core/deliver/deliver.go:377-445 | the delivery numbers of an offset run 1, 2, 3, … without repeats, and a redelivery never passes maxAttempts |
| `Queue.OrderedOneAtATime` | internal/core/deliver/deliver.go:287-335 | when an ordered message has been delivered, every earlier ordered one of the queue was acked, rejected by the filter, purged or dead-lettered; two are never outstanding together |
| `Queue.NothingLost` | internal/core/deliver/deliver.go:262-572 | below the cursor every message is inflight, or acked, rejected by the filter, purged or dead-lettered; an inflight one is neither acked nor rejected; a dead letter has the id, tag, keys, properties and body of the message produced at its origin, and no message group |
| `Queue.AppendedInv` | internal/core/produce/produce.go:116-240 | a produced message keeps the queue invariant |
| `Queue.RedeliveredInv` | internal/core/deliver/deliver.go:425-445 | a redelivery keeps it: next number, same ordered flag |
| `Queue.DeliveredInv` | internal/core/deliver/deliver.go:471-511 | a first delivery keeps it: an ordered message only while no ordered record is outstanding |
| `Queue.SkippedInv` | internal/core/deliver/deliver.go:455-487 | a message the filter does not want may be passed for good |
| `Queue.RemovedInv` | internal/core/deliver/deliver.go:377-407 | a record may go once its offset is finished for another reason |
| `Queue.DeadAppendedInv` | internal/core/deliver/deliver.go:812-899 | storing the dead letter first keeps it |
| `Queue.AckedInv` | internal/core/deliver/deliver.go:620-683 | deleting acknowledged records keeps it |
| `Queue.PurgedInv` | internal/core/deliver/deliver.go:377-407 | retention deleting messages under a consumer keeps it |
| `Deliver.RetryBackoff` | internal/core/deliver/deliver.go:62-74 | the doubling loop computes ten seconds times two to the retries, five minutes at most |
| `Deliver.BackoffTable` | internal/core/deliver/deliver.go:62-74 | number by number: 10, 20, 40, 80, 160 seconds for deliveries 2 to 6, 300 from the seventh on |
| `Deliver.NewRecordLeased` | internal/core/deliver/deliver.go:425-511 | a delivery's record expires the invisible time from now, an unordered retry's no earlier than its back-off; owner and renewal limit are the caller's with a lease on, empty and 0 without |
| `Deliver.RenewableIsHeld` | internal/core/deliver/lease.go:60-83 | an expired record is renewed if and only if leases are on, its limit is not reached and its owner, not empty, has a live session |
| `Deliver.ReceivedBy` | internal/core/deliver/deliver.go:262-572 | what one receive leaves, record by record: leased ones with later deadlines, redelivered and new ones as handed out, the rest as they were or dead-lettered or cleaned up |
| `Deliver.StageRenewal` | internal/core/deliver/lease.go:68-83 | a renewal keeps number and ordered flag and never passes the record's own limit |
| `Deliver.StageRedelivery` | internal/core/deliver/deliver.go:425-445 | one redelivery staged keeps every claim about the half-built batch |
| `Deliver.StageOrphan` | internal/core/deliver/deliver.go:377-407 | so does cleaning up a record whose message is gone |
| `Deliver.StageDead` | internal/core/deliver/deliver.go:812-899 | and the first phase of dead-lettering, committed outside the batch |
| `Deliver.StageDeadDone` | internal/core/deliver/deliver.go:812-899 | and the second phase |
| `Deliver.StageDelivery` | internal/core/deliver/deliver.go:471-511 | and a first delivery |
| `Deliver.AllHandled` | internal/core/deliver/deliver.go:272-446 | every expired record whose owner holds it, and the lowest due ones within the budget, were dealt with, and no other was touched |
| `Deliver.StoppedAtEnd` | internal/core/deliver/deliver.go:447-511 | when the scan ends by itself, no stored message is left or 1024 were looked at |
| `Deliver.OutIsNew` | internal/core/deliver/deliver.go:425-511 | numbers handed out in one batch are one past every delivery of the offset made before |
| `Deliver.Deliverer.constructor` | internal/core/deliver/deliver.go:120-126 | an empty queue satisfies the invariant |
| `Deliver.Deliverer.EveryReachableState` | internal/core/deliver/deliver.go:262-899 | in every state of every run, crash between the two dead-letter phases included: nothing below the cursor is lost, one ordered message at most is outstanding, what a consumer was told is acknowledged is never inflight again, and what a producer was told is stored is in the queue as sent, or retention removed it, or a dead letter has its content |
| `Deliver.Deliverer.Apply` | internal/store/store.go:334-349 | a batch is visible in order at once and durable later |
| `Deliver.Deliverer.Wait` | internal/store/store.go:357-365 | after success everything applied so far survives a crash |
| `Deliver.Deliverer.Produce` | internal/core/produce/produce.go:172-240 | the message gets the next offset under the lock and is stored as sent; the producer is told only after the wait |
| `Deliver.Deliverer.Issue` | internal/core/deliver/deliver.go:242-254 | an operation leaves the lock with its batch applied; what its caller will be told holds from that batch on, and no two waiting receives hand out the same delivery |
| `Deliver.Deliverer.Settle` | internal/core/deliver/deliver.go:242-254 | the wait outside the lock, whatever calls fell in between: on success the batch and all before it survive a crash and only then the caller is told; on an error it is told nothing |
| `Deliver.Deliverer.Retain` | internal/core/deliver/deliver.go:377-407 | messages go, records and cursor stay |
| `Deliver.Deliverer.Crash` | internal/core/deliver/deliver.go:262-572 | a crash falls back to some committed state at or after the last durable one, in which the invariant and every promise made to consumers and producers hold; those still waiting are told nothing |
| `Deliver.Deliverer.ScanInflight` | internal/core/deliver/deliver.go:272-340 | picks every expired record whose live owner still holds it for renewal, of the rest that are due the lowest offsets the budget allows, and finds whether an ordered record is outstanding |
| `Deliver.Deliverer.StageRenewals` | internal/core/deliver/deliver.go:342-376 | renews exactly those picked |
| `Deliver.Deliverer.MoveToDLQ` | internal/core/deliver/deliver.go:812-899 | on success the last dead letter has this origin, the record's attempts and the id, tag, keys, properties and body of the message, without its message group, and is durable before the record is deleted; whatever fails, the message is dead-lettered or still inflight, or both |
| `Deliver.Deliverer.StageReds` | internal/core/deliver/deliver.go:377-446 | each due record is dead-lettered if its attempts are used up, cleaned up if its message is gone, else redelivered with the next number; a dead-lettered ordered record frees the lock in the same call |
| `Deliver.Deliverer.StageNew` | internal/core/deliver/deliver.go:447-511 | from the cursor on, each stored message is delivered if and only if the filter wants it, passed for good if not; an ordered one stops the scan while another is outstanding |
| `Deliver.Deliverer.ReceiveOnce` | internal/core/deliver/deliver.go:262-572 | under the lock: at most maxMsgs messages; each carries a number never handed out before nor about to be by a receive still waiting, and its record expires no earlier than the invisible time from now, exactly then for first and ordered deliveries, else at the later of that and the back-off, and has the caller as owner with a lease on; exactly the records picked are dealt with and every other stays; it stops only when enough is handed out, nothing is left, 1024 were looked at or an ordered message must wait; the invariant holds whatever fails; it reports an error only if the store failed |
| `Deliver.Deliverer.CheckHandles` | internal/core/deliver/deliver.go:630-660 | each handle is judged against the same state; equal ones both pass |
| `Deliver.Deliverer.AckBatch` | internal/core/deliver/deliver.go:620-683 | under the lock: exactly the handles of the newest deliveries are acknowledged: their records go, all others stay as they were, and nothing else of the queue changes; in one batch the caller then waits for; a stale handle changes nothing; no error is partial |
| `Deliver.Deliverer.ChangeInvisible` | internal/core/deliver/deliver.go:694-740 | only the newest delivery may move its deadline; number, ordered flag and ownership stay; the wait comes after the lock |
| `Deliver.Deliverer.ForwardToDLQ` | internal/core/deliver/deliver.go:752-803 | only the newest delivery may be sent to the dead letters, with its content; one whose message is gone only loses its record; an error leaves nothing done, the dead letter stored with the record still there, or both done |
| `Delay.RecalledInv` | internal/core/delay/delay.go:330-387 | recall keeps the invariant because an entry that is not due cannot have been queued |
| `Delay.RecalledNeverQueued` | internal/core/delay/delay.go:151-387 | in every reachable state a recalled entry is neither staged nor queued |
| `Delay.StagedNeverLost` | internal/core/delay/delay.go:151-387 | in every reachable state an entry a producer was told is staged is still staged, or queued as it was, or recalled |
| `Delay.Scheduler.AppendDelay` | internal/core/produce/produce.go:261-309 | a message already due goes straight to its queue; any other gets a key no entry ever had, in one batch with its counter; an error leaves nothing done |
| `Delay.Scheduler.Settle` | internal/core/produce/produce.go:310-321 | the wait after the lock, whatever fell in between: only on success is the producer told, and then its entry survives a crash |
| `Delay.Scheduler.BeginPass` | internal/core/delay/delay.go:151-190 | copies the first due entries by due time and then sequence number, at most 512, all of them if fewer are due; nothing when not leader |
| `Delay.Scheduler.MoveOne` | internal/core/delay/delay.go:200-292 | an entry recalled since the scan is left alone; otherwise the message is queued, and the entry deleted only once that is durable; an undecodable one is scrapped; an error ends the pass |
| `Delay.Scheduler.Recall` | internal/core/delay/delay.go:330-387 | succeeds if and only if leader, not yet due, still there, decodable and of that topic, and the removal is durable before it says so |
| `Delay.Scheduler.Tick` | internal/core/delay/delay.go:151-190 | time does not run backwards |
| `Delay.Scheduler.Crash` | internal/core/delay/delay.go:151-292 | a crash falls back to some committed state at or after the last durable one, with every promise kept |
| `Txn.IndexMatchesHalf` | internal/core/txn/txn.go:134-151 | the index says (t, c) for a transaction if and only if its one half key is (t, tx), and then c rounds were made, at most maxChecks |
| `Txn.DecidedIsFinal` | internal/core/txn/txn.go:158-271 | a decided transaction has neither key; if its message is in the queue, it is the message that was staged and some call of End before had asked for the commit; a dropped one used every round |
| `Txn.StagedNeverLost` | internal/core/txn/txn.go:111-271 | a staged transaction is undecided with its message intact, or that message is queued, or it is rolled back, or out of rounds |
| `Txn.MovedInv` | internal/core/txn/txn.go:487-519 | a reschedule moves the half key and counts one round |
| `Txn.DecideInv` | internal/core/txn/txn.go:251-271 | deleting both keys in one batch decides the transaction |
| `Txn.Manager.Stage` | internal/core/txn/txn.go:111-151 | both keys in one batch, durable before success |
| `Txn.Manager.End` | internal/core/txn/txn.go:158-271 | what is asked for is exactly what End was called with; no index entry: nothing is written, and only a leader may answer that the transaction is already decided; roll-back deletes both keys; commit queues the message first and keeps the lock; for a transaction nobody damaged it fails only if the store does |
| `Txn.Manager.QueueFirst` | internal/core/txn/txn.go:215-250 | a message is queued only if its commit was asked for, while both keys still stand |
| `Txn.Manager.EndFinish` | internal/core/txn/txn.go:251-271 | then both keys go; on an error they stay for another try |
| `Txn.Manager.BeginPass` | internal/core/txn/txn.go:349-400 | of the first 256 keys due, in time order, the unparseable ones are deleted and the others copied, none skipped, without any lock |
| `Txn.Manager.CheckNext` | internal/core/txn/txn.go:401-430 | an entry decided since the scan is left alone; one out of rounds is dropped; any other is rescheduled before its producer may be asked |
| `Txn.Manager.CheckOne` | internal/core/txn/txn.go:444-520 | asked only if a round was left and counted; dropped only after exactly maxChecks rounds |
| `Txn.Manager.Damage` | internal/core/txn/txn.go:190-199 | keys overwritten from outside concern only their own transaction |
| `Txn.Manager.Crash` | internal/core/txn/txn.go:158-271 | a crash between the two phases, or anywhere, falls back to a state in which every promise holds |
| `Registry.SnapRegistry.Create` | internal/cluster/snapshot.go:160-169 | a fresh id, not borrowed, both clocks started |
| `Registry.SnapRegistry.Get` | internal/cluster/snapshot.go:185-196 | succeeds if and only if the view is there and not revoked; restarts the soft clock, never the hard one |
| `Registry.SnapRegistry.Put` | internal/cluster/snapshot.go:267-290 | takes back one borrow; the last on a revoked view takes it out; an unmatched one changes nothing |
| `Registry.SnapRegistry.Release` | internal/cluster/snapshot.go:298-315 | takes an unborrowed view out, else changes nothing |
| `Registry.SnapRegistry.FinishClose` | internal/cluster/snapshot.go:267-315 | a view is closed at most once and never while borrowed |
| `Registry.SnapRegistry.GCOnce` | internal/cluster/snapshot.go:344-392 | view by view: unborrowed ones idle for the TTL, older than ten times the TTL or revoked go; borrowed ones past the hard age are revoked; every other stays as it was; so a view at ten times the TTL is out or cannot be borrowed again |
| `Registry.SweptExactly` | internal/cluster/snapshot.go:344-392 | what a full pass takes out, revokes and leaves, in ages and counts alone |
| `ReadBarrier.Group.Join` | internal/cluster/readbarrier.go:200-220 | the caller is in the gathering batch, which notes what was confirmed before it came |
| `ReadBarrier.Group.ClaimBatch` | internal/cluster/readbarrier.go:258-278 | a claimed batch can no longer be joined |
| `ReadBarrier.Group.AskReadIndex` | internal/cluster/readbarrier.go:51-75 | the request goes out after the last member joined; a non-leader fails the batch |
| `ReadBarrier.Group.StepReadState` | internal/cluster/readbarrier.go:95-121 | only this node's waiting request is answered: released at once if applied has reached the index, else remembered |
| `ReadBarrier.Group.NotifyReadWaiters` | internal/cluster/readbarrier.go:125-136 | releases exactly the waiters whose index is known and reached |
| `ReadBarrier.Group.RoundReleased` | internal/cluster/readbarrier.go:227-251 | the batch is done without error |
| `ReadBarrier.Group.RoundFailed` | internal/cluster/readbarrier.go:51-89 | the batch is done with an error and the waiter is gone |
| `ReadBarrier.Group.BarrierHolds` | internal/cluster/readbarrier.go:200-278 | a call that returns nil: applied is at or past everything confirmed before the call joined its batch |
| `Apply.MergedIsFold` | internal/cluster/group.go:1476-1520 | a run of ordinary entries merged into one batch with the last index equals applying them one by one |
| `Apply.ReplayReaches` | internal/cluster/group.go:1340-1439 | from any state on the way, applying the same entries again reaches the same state |
| `Apply.OpsWrite` | internal/cluster/group.go:1476-1520 | after a list of writes every key has the value of its last write, is absent if that was a delete, and is as before if none named it |
| `Apply.FoldSteps` | internal/cluster/group.go:1340-1439 | applying entries one by one: each passed over at or below the applied index, else its writes or its membership change made and the index set to its own |
| `Apply.CleanIsApplicable` | internal/cluster/group.go:1340-1439 | poison above applied means a corrupt payload or an undecodable change, and nothing else |
| `Apply.WokenExactly` | internal/cluster/group.go:1500-1520 | those woken are the own waiters of ordinary entries above the index, each once, in index order |
| `Apply.ChangesExactly` | internal/cluster/group.go:1400-1430 | those told of a change are the membership changes of the newer form above the index, each once, in order |
| `Apply.Group.ApplyEntries` | internal/cluster/group.go:1476-1520 | one commit equal to the reference on the run, waiters woken in index order after it; a payload that does not merge stops the group with nothing changed |
| `Apply.Group.ApplyConf` | internal/cluster/group.go:1380-1430 | a membership change is committed alone and synced, members and applied index together |
| `Apply.Group.ApplyPhase` | internal/cluster/group.go:1340-1439 | reaches, through one step per entry above applied, the state after all of them; every commit is the reference after some prefix and the stored index never drops; own waiters wake in order, none before its entry is stored; changes are announced in order; succeeds if and only if no entry above applied is corrupt or undecodable |
| `AppendBatch.AppendStage.Flush` | internal/cluster/group.go:714-727 | one sync if and only if any message gathered needs it, then every reply in order; the next part starts empty |
| `AppendBatch.AppendStage.DeliverOrder` | internal/cluster/group.go:910-937 | every reply of the message goes out exactly once, the replies to peers all before those to itself, each kind in the order asked for |
| `AppendBatch.SentDelivers` | internal/cluster/group.go:910-937 | the two loops together send a rearrangement of the responses: peers before self, order kept within each |
| `AppendBatch.DeliversAll` | internal/cluster/group.go:910-937 | so the multiset of what is sent is that of all responses of the message |
| `AppendBatch.AppendStage.Answer` | internal/cluster/group.go:720-725 | the replies of the messages in order, each once |
| `AppendBatch.AppendStage.AppendOnce` | internal/cluster/group.go:770-820 | a snapshot message is installed, written, synced if it must be, and only then answered; an install cut off by a shutdown is not answered |
| `AppendBatch.AppendStage.AppendBatch` | internal/cluster/group.go:707-743 | unless the group stops, every message whose install was not cut off is written, synced if raft required it in fsync mode, and all its responses are delivered, each exactly once, peers before self, messages in arrival order, and none for one cut off; no reply, ever, before what it vouches for is installed, written and synced; snapshots split the batch; one sync per part and none that no message needs; it stops only if a write, a sync or an install failed |
| `AppendBatch.SyncedAll` | internal/cluster/group.go:750-756 | one sync makes all messages gathered so far answerable |
| `AppendBatch.SnapshotEarned` | internal/cluster/group.go:770-820 | a snapshot message handled alone has earned its replies: installed, written after that, and synced if it must be |
| `SqlLex.Lex` | internal/core/deliver/sql92_token.go:76-192 | the lexer succeeds if and only if some tokens tile the text: each spelled at its column, as long as it can be, only white space between, the end token last; a refusal names a column of the text |
| `SqlLex.LexTiles` | internal/core/deliver/sql92_token.go:76-192 | what it returns tiles the text: nothing lost, nothing added, every number one ParseFloat takes |
| `SqlLex.TilesLex` | internal/core/deliver/sql92_token.go:76-192 | and tokens that tile the text are what it returns, so a text has one reading at most |
| `SqlLex.ReadOne` | internal/core/deliver/sql92_token.go:82-188 | the switch on one byte: where the token ends or the exact refusal |
| `SqlLex.ReadText` | internal/core/deliver/sql92_token.go:140-165 | the quote loop undoes quote doubling and finds the closing quote |
| `SqlLex.Alphabet` | internal/core/deliver/sql92_token.go:76-204 | which characters are white space, digits, parts of numbers and of names, one by one |
| `SqlLex.AnyCase` | internal/core/deliver/sql92_token.go:166-188 | the nine keywords, in any mixture of cases; upper case touches the 26 letters only |
| `SqlLex.Spelling` | internal/core/deliver/sql92_token.go:40-75 | the words and operators as they are written |
| `SqlLex.LexRendered` | internal/core/deliver/sql92_token.go:76-192 | printing any sequence of proper tokens with spaces between and lexing the text gives them back |
| `SqlGrammar.FlipMeaning` | internal/core/deliver/sql92_parse.go:505-518 | the flipped operator is the only one that says of (y, x) what the operator says of (x, y) |
| `SqlGrammar.ParseExact` | internal/core/deliver/sql92_parse.go:240-463 | for every token stream and every derivation tree of the grammar: the parser returns that tree if and only if the stream is its sentence and its parentheses nest at most 16 deep |
| `SqlGrammar.Unambiguous` | internal/core/deliver/sql92_parse.go:240-463 | so no two trees share a sentence: precedence OR below AND below NOT, left association, and the AND of BETWEEN are settled |
| `SqlGrammar.OrSound` | internal/core/deliver/sql92_parse.go:240-254 | what parseOr accepts is written there, at that level of the grammar, within the depth still allowed |
| `SqlGrammar.OrComplete` | internal/core/deliver/sql92_parse.go:240-254 | whatever of the grammar is written there, and not continued by AND or OR, parseOr reads in full |
| `SqlGrammar.LeafExact` | internal/core/deliver/sql92_parse.go:326-438 | a predicate after a name is read if and only if its tokens stand there |
| `SqlGrammar.FlippedExact` | internal/core/deliver/sql92_parse.go:442-463 | so is a comparison with the constant on the left |
| `SqlGrammar.ValsExact` | internal/core/deliver/sql92_parse.go:413-438 | so is an IN list, of any length |
| `SqlParse.Parser.ParseConstant` | internal/core/deliver/sql92_parse.go:466-501 | reads exactly one constant or refuses at it without moving |
| `SqlParse.Parser.ParseIn` | internal/core/deliver/sql92_parse.go:413-438 | the element loop ends at the closing parenthesis with all elements, or refuses at the token that does not fit |
| `SqlParse.Parser.ParseBetween` | internal/core/deliver/sql92_parse.go:391-410 | consumes its own AND |
| `SqlParse.Parser.ParsePrimary` | internal/core/deliver/sql92_parse.go:289-322 | refuses the seventeenth nested parenthesis; depth is restored on every path |
| `SqlParse.Parser.ParseAnd` | internal/core/deliver/sql92_parse.go:257-271 | the loop builds the left-nested conjunction of the grammar |
| `SqlParse.Parser.ParseOr` | internal/core/deliver/sql92_parse.go:240-254 | terminates with the tree the grammar gives, or the refusal at the same token; the position never passes the end token |
| `SqlParse.ParseSQL92` | internal/core/deliver/sql92_parse.go:119-133 | the result is that of the grammar for every text; a refusal names a column in the text or just after it |
| `SqlParse.AcceptsExactly` | internal/core/deliver/sql92_parse.go:119-133 | a text is accepted with a syntax tree if and only if it is tiled by a sentence of the grammar, at most 16 parentheses deep, that means that tree |
| `SqlParse.ValidateList` | internal/core/deliver/sql92_parse.go:205-219 | accepts exactly lists of at most 64 constants that are all numbers, all texts or all booleans; any complaint names a fault the list has |
| `SqlParse.Validate` | internal/core/deliver/sql92_parse.go:179-237 | accepts exactly trees of at most 16 levels in which no string or boolean is ordered, no NULL compared, BETWEEN bounds are numbers and IN lists are of one kind; any complaint names a fault some predicate of the tree has |
| `SqlParse.BuildSQLFilter` | internal/core/deliver/sql92_parse.go:156-168 | a filter is built from exactly the texts of at most 1024 bytes that parse to such a tree; any refusal says where the text goes wrong or what fault the tree has |
| `SqlParse.WrittenParses` | internal/core/deliver/sql92_parse.go:119-133 | however an expression is written, with any parentheses the grammar allows and constants on either side, its text parses to its tree |
| `SqlParse.RoundTrip` | internal/core/deliver/sql92_parse.go:119-133 | the fully parenthesised text of any writable tree of at most 16 levels parses back to it |
| `SqlParse.WritableExact` | internal/core/deliver/sql92_parse.go:240-501 | the tokens of a derivation are ones some text stands for if and only if its syntax tree can be written down |
| `SqlParse.Reparsed` | internal/core/deliver/sql92_parse.go:156-168 | printing what a filter was built from and parsing that text gives the same tree again |

## Left out

- SegLog.Log.Open: requires all names on disk; what happens otherwise is `SegDisk.SurvivesIfNamed`, but runs that go on from there are not modelled.
- SegLog.Log.Append: an encoding error of a message is not modelled.
- RaftLogs.RaftStore.Load: one group's; the maps over groups and their locks are not modelled.
- RaftLogs.RaftStore.TruncateLog: the anchor is a number; the snapshot metadata beside it is not modelled.
- Install.Node.Restart: a start that is not clean reads no log and is not modelled; of the segment log only its first index is, and the term the storage is seeded with is not.
- Install.Node.InstallSnapshot: the descriptor's decoding, the retry loop around an install and the peer's address are not modelled; members are one number.
- SnapStream.PullSnapshotChunks: the sender's view does not expire during the pull; a lost request stands for any network failure.
- SnapStream.HandleFetchSnapshot: an error reply is one outcome; its texts and the borrow around the call are not modelled here (see the registry).
- Deliver.Deliverer.ReceiveOnce: one queue and one group; long polling, wake-ups, the retention scan itself and skip counters are not modelled. Resetting a cursor restarts attempt numbers by design and is not among the steps.
- Deliver.Deliverer.Apply: the in-order contract of the standalone store, as said above.
- Deliver.Deliverer.MoveToDLQ: the dead-letter queue is a list beside the queue; the offset it gets there and forwarding to another node are not modelled. The properties stamped on a dead letter (sq-origin-..., sq-dlq-...) are the fields origin and attempts; a message with properties of those names, and the time a message was born, are not modelled.
- Delay.Scheduler.AppendDelay: the topic check and the size check before it are not modelled.
- Delay.Scheduler.MoveOne: the queue a moved message gets and forwarding are not modelled.
- Txn.Manager.End: forwarding of either phase to another node is not modelled; keys damaged from outside are, one transaction at a time.
- Txn.Manager.Stage: ids are taken as never used before, which random ids give with overwhelming likelihood only.
- Registry.SnapRegistry.GCOnce: the bookkeeping of which peer was sent which view is not modelled.
- ReadBarrier.Group.BarrierHolds: safety only. A caller that joins after the runner found no batch and before it marked itself gone has no runner (internal/cluster/readbarrier.go:229-234), so nothing says that every caller is served.
- Apply.Group.ApplyPhase: membership arithmetic is a parameter; batch bytes are lists of operations, empty or corrupt.
- AppendBatch.AppendStage.Answer: a shutdown that stops the delivery of a reply in its middle is not modelled; a reply is one event.
- AppendBatch.AppendStage.AppendBatch: the disk under it is that of the segment log; here a write, a sync and an install are events.
- SqlLex.Lex: one character stands for one byte; which decimal texts ParseFloat takes is a parameter, and the same texts are taken again in parseConstant, so its second refusal cannot occur and is not modelled.
- SqlParse.Parser.ParseConstant: a number stays its decimal text; the int64 and float64 values are functions of it.
- Evaluation of filters, float comparison and three-valued truth tables: small tables that one reading settles.
- Never voting twice in a term after a local recovery: the bump adds one to the durable term, which does not cover losing several terms.
- Sockets, RPC, HTTP, configuration, metrics, the console, leader balancing, learner promotion, joining and rejoining, transport queues and timers.
- Produce's round-robin choice of queues and its wake-ups.
