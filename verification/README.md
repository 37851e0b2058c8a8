# Verification of the object store's protocols and of two exercise algorithms

A Dafny 4.11 model of the storage engine under `conditionCompleteion/src/common`, and of the linked-list
and permutation exercises under `GeeksforGeeks`. Run `dafny verify dfyconfig.toml`.

Code that changes state is modelled by classes and methods with the fields, branches and loops of the
source; each method is proved to do what a function on values does, and the protocols are state machines
over those functions.

- **Container write-ahead path** (`container_memory`, `memory_manager`, `container_retention`,
  `container_recovery`, and beside the last two their `_steps`, `_runs` and `_losses`: the invariant of each
  step, the results over whole runs, and the runs that fail). Object records are journaled in batches, kept
  in memory under the offset of the batch's sync, flushed to info files, and replayed after a crash under
  the end offset of each record. In both protocols the sync of a batch and its way into memory are two steps,
  a creation is three (reading the sync offset, writing the file, dropping the memory), and a flush releases
  the memory, renames the copy, and reads and sets the commit offset one after the other, so that the steps of
  other threads come in between. `container_replay` says of the journal alone what a replay leaves in memory,
  `container_progress` that no thread gets stuck, and `container_links` that the batches and flushes of these
  models are the same, and what an info file shows after any run.
- **Transaction locks** (`lock_table`, `lock_invariant`, `lock_sharing`, `lock_transfer`,
  `transaction_memory`, `bulk_transaction`). Three redundant maps with acquisition, release, all-or-nothing batches, and the transfer
  of components.
- **Transaction journal** (`transaction_journal`, `transaction_history`, `transaction_recovery`,
  `transaction_layout`). Snapshots, checkpoints, rotation, replay of the newest file only, and where in it
  the reader starts.
- **Journal layout** (`journal_layout`). Padding and checkpoint offsets against the reader's division.
- **Info files** (`names`, `info_file_sorter`, `info_view`, `container_info_file`, `account_info_file`,
  `account_compaction`). The override merge, listings, compaction, statistics, in-place account updates and
  region offsets.
- **MD5** (`md5`, `md5_functions`, `md5_test_suite`). The streaming implementation against sections 3.1 to 3.5
  of RFC 1321, and digests of its test suite.
- **Path locks** (`lock_manager`). Reference-counted reader-writer locks, over all interleavings.
- **Linked list and permutation** (`linked_list_loop`, `permutation`), with `ordered_keys` for the iteration
  order of maps.

What a component number, a file name or a name's hash is computed from does not matter here: the component
is any function of the object's name or path, and containers of an account are told apart by name where the
code compares hashes.

## Where the code falls short

Each of these has a lemma with the exact condition under which it happens, and most a run or an input for
which it does.

- A checkpoint written while one lock is active lists none, so recovery loses the lock if it was opened
  before the checkpoint and is still held (`RecoveryIsExactIff`, `LoneLockIsLost`).
- READ_WRITE locks conflict with nothing (`AcquireExclusiveIff`, `RunExclusiveIff`,
  `RunExclusiveIffNotRequested`).
- Taking back a bulk entry drops the whole list of its object, and a refused batch with other requests than
  BULK_DELETE keeps their locks (`RemoveBulkEntryKeepsIff`, `BulkAllOrNothing`).
- The release of memory precedes the renaming of the info file, so another thread can set a commit offset
  beyond records that are not published, and a rotation then removes their journal file
  (`ReadIsCoveredIff`, `EarlyReleaseLoses`).
- A flush of a container that has no info file releases its records and writes nothing
  (`MissingInfoFileLoses`, `StepKeepsIff` of both container protocols).
- The trailer of a new info file is the last sync offset. It claims records of the container that are in
  memory, that are being flushed, or that are synced and not yet added, and their flush drops them; and the
  creation erases what is pending (`CreateKeepsIff`, `WriteInfoLoses` and `DropMemoryLoses` of both protocols,
  `CreationDuringFlushLoses`, `CreationBeforeAddLoses`).
- A commit offset that is set late can name a removed file (`RecoveryFileExistsIff`, `LateSetMissesFile`).
- A header written after a restart and before the first flush has ended names the newest file, so that a
  second crash skips records of older files (`HeaderRecoversIff`, `HeaderAfterRestartLoses`).
- Records dropped by the offset check of a flush stay in the memory statistic and are reported twice, and if
  all are dropped the release reads the last element of an empty list (`StatIsMeantIff`,
  `SkippedCountsTwice`, `NothingToReleaseIff`).
- A record extracted from memory during a flush cannot be given back once the flush has ended and left
  nothing pending (`RevertKeepsIff`, `RevertAfterReleaseLoses`).
- A maximal journal length that is not a multiple of the interval can make the reader take padding for a
  checkpoint (`CrashAtRotationIff`, `PaddingTakenForCheckpoint`).
- A writer that reopens a journal file of more than one interval puts its next checkpoints off the multiples
  of the interval, and the reader's division misses them (`ReopenedFindsIff`, `ReopenedAlwaysFindsIff`,
  `ReopenedReadsInsideRecord`).
- Clamped counts, and compactions that correct a wrong statistic, make a flush change the reported total
  (`FlushConservesIff`, `FlushCorrects`).
- For a piece whose last whole block ends within 64 bytes of 2^32, the guard of MD5's loop wraps around
  (`LoopStopsIff`, `LoopRunsOn`).

## Model

| member | source | states |
|---|---|---|
| LinkedListLoop.LinkedList.Push | GeeksforGeeks/detectingAndRemovingCycle.py:72-75 | the new node becomes the head and the only new node; the list stays a finite linked structure |
| LinkedListLoop.LinkedList.DetectAndRemoveLoop | GeeksforGeeks/detectingAndRemovingCycle.py:17-33 | terminates on every finite list and returns 1 iff walking from the head never ends; then exactly one link, that of the last newly visited node, is set to None, and the walk visits the originally reachable nodes once each, in the original order, and ends; a list without a cycle and all data are unchanged |
| LinkedListLoop.LinkedList.RemoveLoop | GeeksforGeeks/detectingAndRemovingCycle.py:38-69 | from any node of the cycle, the one link that is cut is the one that goes back to the cycle's entry |
| LinkedListLoop.LinkedList.CountLoopNodes | GeeksforGeeks/detectingAndRemovingCycle.py:43-46 | counts the nodes of the cycle, from whichever of its nodes it starts |
| LinkedListLoop.LinkedList.FindLoopStart | GeeksforGeeks/detectingAndRemovingCycle.py:48-60 | two pointers as far apart as the cycle is long stop at its entry |
| LinkedListLoop.LinkedList.FindLoopEnd | GeeksforGeeks/detectingAndRemovingCycle.py:62-65 | finds the node of the cycle whose link goes back to the entry |
| LinkedListLoop.BuildTrace | GeeksforGeeks/detectingAndRemovingCycle.py:17-33 | every finite structure has a trace: the distinct nodes in the order of the walk, and the index that the last of them links back to |
| LinkedListLoop.WalkFollowsTrace | GeeksforGeeks/detectingAndRemovingCycle.py:20-22 | walking t steps from the head is looking up step t of the trace, for all t |
| LinkedListLoop.TraceCharacterisesList | GeeksforGeeks/detectingAndRemovingCycle.py:24-33 | the walk never ends iff the last node of the trace links back into it |
| LinkedListLoop.ReachedIffInTrace | GeeksforGeeks/detectingAndRemovingCycle.py:17-33 | the nodes that the walk reaches are exactly those of the trace |
| LinkedListLoop.PointersMeetInCycle | GeeksforGeeks/detectingAndRemovingCycle.py:20-26 | the slow and the fast pointer only meet on a cycle |
| LinkedListLoop.PointersMeetInTime | GeeksforGeeks/detectingAndRemovingCycle.py:20-26 | on a cycle they meet after at most cycle length times (entry index + 1) steps, which is why the loop terminates |
| LinkedListLoop.OffsetPointersMeetAtEntry | GeeksforGeeks/detectingAndRemovingCycle.py:51-60 | pointers a cycle length apart differ before the entry and meet exactly there |
| LinkedListLoop.CycleLength | GeeksforGeeks/detectingAndRemovingCycle.py:43-46 | walking round the cycle comes back to the start after the whole length and not before |
| LinkedListLoop.CutStraightens | GeeksforGeeks/detectingAndRemovingCycle.py:67-69 | with the last link of the cycle cut, step t of the walk is node t of the trace, and the end after the last one |
| Permutation.Swap | GeeksforGeeks/allPermutation.py:6-10 | exchanges two elements and nothing else |
| Permutation.Permute | GeeksforGeeks/allPermutation.py:21-28 | prints what the recursive specification lists and restores the array, also for an empty range |
| Permutation.SwapBack | GeeksforGeeks/allPermutation.py:26-28 | the same swap again undoes a swap: the backtracking step |
| Permutation.PrintsArrangements | GeeksforGeeks/allPermutation.py:21-28 | a line is printed iff it rearranges the segment and agrees with the array outside of it |
| Permutation.CountPrinted | GeeksforGeeks/allPermutation.py:21-28 | a segment of n characters gives n! lines, repeated characters or not |
| Permutation.EachOnce | GeeksforGeeks/allPermutation.py:21-28 | with distinct characters no line is printed twice |
| Permutation.RepeatedTwice | GeeksforGeeks/allPermutation.py:1-2 | with a repeated character some line is printed twice |
| Permutation.EachOnceIff | GeeksforGeeks/allPermutation.py:21-28 | no line comes twice iff the characters of the segment are distinct |
| LockInvariant.AcquireKeeps | conditionCompleteion/src/common/transactionLibrary/transaction_memory.cpp:415-498 | acquiring under a fresh id succeeds iff the object's first lock does not conflict, and keeps the three maps consistent: the same ids in both indexes, each naming a record in the component of its object, nothing empty, every record of an owned component listed |
| LockInvariant.ReleaseKeeps | conditionCompleteion/src/common/transactionLibrary/transaction_memory.cpp:551-609 | releasing any id, listed or not, keeps the three maps consistent |
| LockInvariant.RemoveBulkEntryKeepsIff | conditionCompleteion/src/common/transactionLibrary/transaction_memory.cpp:369-413 | taking back a bulk entry keeps the maps consistent iff its lock is alone in its object's list, since the whole list is dropped; then it is the same as a release |
| LockInvariant.RemoveBulkKeeps | conditionCompleteion/src/common/transactionLibrary/transaction_memory.cpp:369-413 | taking back any batch of such entries, with unknown and repeated ids among them, keeps the maps consistent |
| LockInvariant.MarkUnknownKeeps | conditionCompleteion/src/common/transactionLibrary/transaction_memory.cpp:316-344 | giving up components unlists exactly their locks and keeps the maps consistent |
| LockInvariant.ExtractKeeps | conditionCompleteion/src/common/transactionLibrary/transaction_memory.cpp:164-204 | handing components over removes their records and listings together |
| LockInvariant.AddRecordKeepsIff | conditionCompleteion/src/common/transactionLibrary/transaction_memory.cpp:251-312 | a received record keeps the maps consistent iff it does not come unlisted into a component that is already owned |
| LockInvariant.AddRecordsKeep | conditionCompleteion/src/common/transactionLibrary/transaction_memory.cpp:251-312 | so does a list of records with fresh, distinct ids |
| LockInvariant.CommitComponentKeeps | conditionCompleteion/src/common/transactionLibrary/transaction_memory.cpp:850-918 | committing a component lists all of its records, once each, and marks it owned |
| LockInvariant.CommitComponentsKeep | conditionCompleteion/src/common/transactionLibrary/transaction_memory.cpp:850-918 | so does committing any selection of components, in any order and with repetitions |
| LockInvariant.ServeKeeps | conditionCompleteion/src/common/transactionLibrary/transaction_memory.cpp:164-609 | each of the seven operations keeps the invariant of the table |
| LockInvariant.RunKeeps | conditionCompleteion/src/common/transactionLibrary/transaction_memory.cpp:164-609 | so does every run of expected requests, starting from the empty table |
| LockInvariant.SameIdsListed | conditionCompleteion/src/common/transactionLibrary/transaction_memory.cpp:551-609 | an id is in the component index iff some object's list has it |
| LockInvariant.FrontDecides | conditionCompleteion/src/common/transactionLibrary/transaction_memory.cpp:415-498 | while each object has one writer or only readers, comparing with the first lock of its list decides the conflict with all of them |
| LockInvariant.AcquireExclusiveIff | conditionCompleteion/src/common/transactionLibrary/transaction_memory.cpp:415-498 | acquiring keeps one writer or only readers iff it is refused or the operation is not READ_WRITE, which conflicts with nothing |
| LockInvariant.ReleaseExclusive | conditionCompleteion/src/common/transactionLibrary/transaction_memory.cpp:551-609 | releasing and taking back bulk entries keep one writer or only readers |
| LockInvariant.RunExclusiveIff | conditionCompleteion/src/common/transactionLibrary/transaction_memory.cpp:164-609 | over every run of acquires, releases and roll-backs, each object has one writer or only readers after every prefix iff no READ_WRITE lock is ever granted |
| LockInvariant.RunExclusiveIffNotRequested | conditionCompleteion/src/common/transactionLibrary/transaction_memory.cpp:164-609 | in terms of what is asked for: as long as the locks at the start and the requests are at most 1000001 together, each object has one writer or only readers after every prefix iff no READ_WRITE lock is asked for |
| LockInvariant.FrontAlwaysDecides | conditionCompleteion/src/common/transactionLibrary/transaction_memory.cpp:415-498 | from the empty table and without granted READ_WRITE locks, comparing with the first lock of an object decides the conflict with all of them, after every prefix of every run |
| LockSharing.GrantedIff | conditionCompleteion/src/common/transactionLibrary/transaction_memory.cpp:428-447 | under a fresh id and with room, a READ is granted iff the first lock of its object is not a WRITE, a WRITE iff there is no lock or the first is a READ_WRITE, a READ_WRITE always; a refusal is a conflict and leaves the table as it was |
| LockSharing.FullIff | conditionCompleteion/src/common/transactionLibrary/transaction_memory.cpp:38-50 | the answer is full iff more than a million ids are held, and the table stays |
| LockSharing.GrantedChanges | conditionCompleteion/src/common/transactionLibrary/transaction_memory.cpp:415-498 | a granted lock comes last in the list of its object, its id leads to its component, the component keeps the record under the id, the counter is the larger of the two, and nothing else changes; a new component belongs to the node |
| LockSharing.ReadersShare | conditionCompleteion/src/common/transactionLibrary/transaction_memory.cpp:428-447 | any number of READ requests for one object from an empty table are all granted, under ids 1, 2 and so on, and listed in this order, up to the limit of the table; the others get the answer full |
| LockTransfer.CommitIs | conditionCompleteion/src/common/transactionLibrary/transaction_memory.cpp:850-918 | a commit makes exactly the chosen components owned besides those that are, keeps every record, and lists, besides what is listed, every lock of a chosen component |
| LockTransfer.MarkUnknownIs | conditionCompleteion/src/common/transactionLibrary/transaction_memory.cpp:316-344 | giving up components keeps every record; a component stays owned iff it was and is named; the ids and names of the locks of all others are listed no more, and every other list stays |
| LockTransfer.ExtractIs | conditionCompleteion/src/common/transactionLibrary/transaction_memory.cpp:164-204 | handing over takes the components out with all their records, ids and lists, and leaves the rest |
| LockTransfer.ReceiveIs | conditionCompleteion/src/common/transactionLibrary/transaction_memory.cpp:251-312 | received records with fresh, distinct ids enter the components of their objects and nothing else does; a component that is there keeps its owner, a new one gets the sender's; the ids are listed iff the sender owned them |
| TransactionMemory.TransactionLockManager.AcquireTransactionLock | conditionCompleteion/src/common/transactionLibrary/transaction_memory.cpp:415-498 | the new maps, the counter and the answer are those of the specification: an id, a conflict, or nothing done |
| TransactionMemory.TransactionLockManager.AcquireLock | conditionCompleteion/src/common/transactionLibrary/transaction_memory.cpp:38-50 | answers Full above a million locks, without a change, and acquires otherwise |
| TransactionMemory.TransactionLockManager.ReleaseLockById | conditionCompleteion/src/common/transactionLibrary/transaction_memory.cpp:551-609 | takes the id out of all three maps, with its list and its component if that was their last entry |
| TransactionMemory.TransactionLockManager.UnlistLock | conditionCompleteion/src/common/transactionLibrary/transaction_memory.cpp:591-602 | takes the first element with the id out of the object's list, and the list away when it is empty |
| TransactionMemory.TransactionLockManager.RemoveBulkDeleteEntry | conditionCompleteion/src/common/transactionLibrary/transaction_memory.cpp:369-413 | takes back exactly the BULK_DELETE entries among the ids |
| TransactionMemory.TransactionLockManager.AddRecordsInMemory | conditionCompleteion/src/common/transactionLibrary/transaction_memory.cpp:251-312 | adds received records, listed only when they are owned |
| TransactionMemory.TransactionLockManager.MarkUnknownMemory | conditionCompleteion/src/common/transactionLibrary/transaction_memory.cpp:316-344 | the loop over the map amounts to giving up, all at once, the components that are not kept |
| TransactionMemory.TransactionLockManager.GetComponentTransactionMap | conditionCompleteion/src/common/transactionLibrary/transaction_memory.cpp:164-204 | hands out the records of each named component once, in the order of their ids, and leaves the table without them, also when a name is repeated |
| TransactionMemory.TransactionLockManager.CommitRecoveredData | conditionCompleteion/src/common/transactionLibrary/transaction_memory.cpp:850-918 | commits exactly the chosen components that are present and not owned |
| TransactionMemory.TransactionLockManager.GetActiveIdList | conditionCompleteion/src/common/transactionLibrary/transaction_memory.cpp:626-641 | all listed ids if there are at least two, none otherwise |
| TransactionMemory.TransactionLockManager.SetLastTransactionId | conditionCompleteion/src/common/transactionLibrary/transaction_memory.cpp:643-649 | the counter becomes the larger of itself and the given id |
| TransactionMemory.DisownEachIsMarkUnknown | conditionCompleteion/src/common/transactionLibrary/transaction_memory.cpp:316-344 | giving up component after component equals the specification that treats them as one set |
| TransactionMemory.EraseAt | conditionCompleteion/src/common/transactionLibrary/transaction_memory.cpp:551-609 | erasing at the first matching position is what the specification of the list does |
| BulkTransaction.TransactionImpl.AddBulkDeleteTransaction | conditionCompleteion/src/common/transactionLibrary/transaction_library.cpp:402-446 | takes the locks one by one under new ids and, at the first refusal, takes back those already taken |
| BulkTransaction.TransactionImpl.ReleaseLockByName | conditionCompleteion/src/common/transactionLibrary/transaction_library.cpp:662-688 | releases every lock that was listed on the object, and reports whether there was a list |
| BulkTransaction.BulkAllOrNothing | conditionCompleteion/src/common/transactionLibrary/transaction_library.cpp:402-435 | a batch of WRITE locks is taken iff there is room and its objects are free and distinct; a refused one is told Full when there was no room for the batch or for the lock at which it stopped, and Conflict otherwise; it leaves all three maps as they were, with only the counter grown, iff the locks before the first that cannot be taken, as told by the table before the call, are BULK_DELETE entries |
| BulkTransaction.TakeRest | conditionCompleteion/src/common/transactionLibrary/transaction_library.cpp:402-435 | from any point of the batch on: the table extends the old one by exactly the locks taken so far, and the answer is Full iff the room ran out first |
| BulkTransaction.RemoveBulkTakesBack | conditionCompleteion/src/common/transactionLibrary/transaction_memory.cpp:369-413 | the roll-back removes exactly the BULK_DELETE locks among those taken and touches nothing of the table before the batch |
| BulkTransaction.AcquireExtends | conditionCompleteion/src/common/transactionLibrary/transaction_memory.cpp:415-498 | on a free object a WRITE lock extends the table by one entry, on a held one it is refused |
| BulkTransaction.ReleaseExtends | conditionCompleteion/src/common/transactionLibrary/transaction_memory.cpp:551-609 | releasing an added lock takes exactly it out of the extension |
| BulkTransaction.ExtensionUnique | conditionCompleteion/src/common/transactionLibrary/transaction_memory.cpp:415-609 | a table is determined by its base and the locks added to it, so taking and giving back lead to equal maps and not just similar ones |
| TransactionJournal.TransactionWriteHandler.Write | conditionCompleteion/src/common/libraryUtils/journal.cpp:451-491 | a record is preceded by a snapshot in a new file, by a checkpoint, or by nothing; the last id follows the opened records |
| TransactionJournal.TransactionWriteHandler.ProcessWrite | conditionCompleteion/src/common/transactionLibrary/transaction_write_handler.cpp:30-43 | one record is appended, and only an open changes the last id |
| TransactionJournal.TransactionWriteHandler.ProcessCheckpoint | conditionCompleteion/src/common/transactionLibrary/transaction_write_handler.cpp:49-57 | appends the last id together with the active ids |
| TransactionJournal.TransactionWriteHandler.ProcessSnapshot | conditionCompleteion/src/common/transactionLibrary/transaction_write_handler.cpp:59-101 | appends the header and one open per record of every component, in the order of components and ids |
| TransactionJournal.TransactionReadHandler.RecoverObjects | conditionCompleteion/src/common/transactionLibrary/transaction_read_handler.cpp:132-195 | an open before the checkpoint is replayed only if the checkpoint lists its id, one after it always; closes and headers have their effect |
| TransactionJournal.TransactionReadHandler.ProcessLastCheckpoint | conditionCompleteion/src/common/transactionLibrary/transaction_read_handler.cpp:66-100 | takes the counter and the active ids from the checkpoint |
| TransactionJournal.TransactionReadHandler.PerformRecovery | conditionCompleteion/src/common/libraryUtils/journal.cpp:325-372 | the file is replayed up to its last checkpoint with the filter and after it without |
| TransactionJournal.LastCheckpoint | conditionCompleteion/src/common/libraryUtils/journal.cpp:96-104 | the place of the last checkpoint among the records, or -1 |
| TransactionLayout.ReaderStartsAtCheckpoint | conditionCompleteion/src/common/libraryUtils/journal.cpp:96-104 | after every run of writes whose kinds the offsets decide, the division gives 0 iff the records have no checkpoint, and otherwise a place with as many records behind it as are behind the last checkpoint |
| TransactionLayout.WroteAgrees | conditionCompleteion/src/common/libraryUtils/journal.cpp:451-491 | every write keeps the records and the pieces of the file in step |
| TransactionHistory.HistoryIsProper | conditionCompleteion/src/common/transactionLibrary/transaction_memory.cpp:415-609 | in every history of WRITE locks the active ones have distinct objects, their own ids, and ids up to the last one given out |
| TransactionHistory.HeldSinceOpened | conditionCompleteion/src/common/transactionLibrary/transaction_memory.cpp:415-609 | a held lock has been held, with the same record, since its id was given out |
| TransactionHistory.OneHolder | conditionCompleteion/src/common/transactionLibrary/transaction_memory.cpp:415-609 | no object has two holders, and there are at most a million and one locks |
| TransactionHistory.ReplayOpen | conditionCompleteion/src/common/transactionLibrary/transaction_read_handler.cpp:132-195 | replaying an open that is already in the table, or whose object is held, changes nothing but possibly the counter |
| TransactionHistory.ReplayClose | conditionCompleteion/src/common/transactionLibrary/transaction_read_handler.cpp:132-195 | replaying a close removes the lock if it is there and changes nothing otherwise |
| TransactionHistory.ReplayConverges | conditionCompleteion/src/common/transactionLibrary/transaction_read_handler.cpp:132-195 | replaying old events on top of a later state never mixes in anything but locks of the event's own moment or of the later one |
| TransactionHistory.ReplayFollows | conditionCompleteion/src/common/transactionLibrary/transaction_read_handler.cpp:132-195 | from the converged state on, the replay and the history stay together |
| TransactionHistory.ReplayRebuilds | conditionCompleteion/src/common/transactionLibrary/transaction_read_handler.cpp:132-195 | replaying the events from an earlier point on top of the state of a later one ends in the final state of the history |
| TransactionRecovery.SnapshotIsActive | conditionCompleteion/src/common/transactionLibrary/transaction_write_handler.cpp:59-101 | a snapshot lists exactly the active locks |
| TransactionRecovery.FileKnown | conditionCompleteion/src/common/transactionLibrary/transaction_write_handler.cpp:30-101 | a file only ever opens locks of its history and has an open for every lock still held |
| TransactionRecovery.RecoverFromSnapshot | conditionCompleteion/src/common/transactionLibrary/transaction_read_handler.cpp:132-195 | replaying the newest file, snapshot and records, rebuilds the table, although the open that causes the snapshot is in the file twice |
| TransactionRecovery.RecoverFromCheckpoint | conditionCompleteion/src/common/transactionLibrary/transaction_read_handler.cpp:66-195 | filtering the opens before the checkpoint by its list rebuilds the same table as full replay, but for the lock the list leaves out |
| TransactionRecovery.RecoveryRebuilds | conditionCompleteion/src/common/transactionLibrary/transaction_read_handler.cpp:66-195 | for every history of WRITE locks and every mixture of plain records, checkpoints and rotations, the newest file alone rebuilds the table, counter included, except a lock that was alone at the last checkpoint and opened before it |
| TransactionRecovery.RecoveryIsExactIff | conditionCompleteion/src/common/transactionLibrary/transaction_read_handler.cpp:164-179 | recovery gives back the memory iff no lock that the last checkpoint left out is still held |
| TransactionRecovery.StepwiseRecovery | conditionCompleteion/src/common/transactionLibrary/transaction_memory.cpp:626-641 | when each record is written before the next change of memory, recovery is exact unless the last checkpoint precedes a close that left a single lock and that lock is still held |
| TransactionRecovery.LoneLockIsLost | conditionCompleteion/src/common/transactionLibrary/transaction_memory.cpp:626-641 | a run that loses a lock: it was alone when the checkpoint in front of the other's close was written |
| TransactionRecovery.MemoryIsTable | conditionCompleteion/src/common/transactionLibrary/transaction_memory.cpp:415-609 | the memory after n events is the one table that holds exactly the active locks |
| TransactionRecovery.CallsMakeHistory | conditionCompleteion/src/common/transactionLibrary/transaction_library.cpp:570-660 | every run of acquire and release calls, refused ones included, makes such a history, and its memory is the one that recovery is compared with |
| ContainerMemory.SecureObjectRecord.constructor | conditionCompleteion/src/common/containerLibrary/memory_writer.cpp:10-18 | a new container holds the one record under its sync offset, with the previous sync offset as commit offset |
| ContainerMemory.SecureObjectRecord.AddRecord | conditionCompleteion/src/common/containerLibrary/memory_writer.cpp:35-57 | appends the record under its key and counts it in |
| ContainerMemory.SecureObjectRecord.RevertRecord | conditionCompleteion/src/common/containerLibrary/memory_writer.cpp:28-33 | appends without counting, as the record was never counted out |
| ContainerMemory.SecureObjectRecord.RemoveRecord | conditionCompleteion/src/common/containerLibrary/memory_writer.cpp:59-89 | removes and uncounts exactly the leading records with keys below the offset |
| ContainerMemory.SecureObjectRecord.GetFlushRecords | conditionCompleteion/src/common/containerLibrary/memory_writer.cpp:91-104 | moves the records to the flush list iff no flush is going on |
| ContainerMemory.SecureObjectRecord.ReleaseFlushRecords | conditionCompleteion/src/common/containerLibrary/memory_writer.cpp:111-140 | uncounts and drops the flush list, and the commit offset becomes the key of its last record |
| ContainerMemory.SecureObjectRecord.GetUnscheduledRecords | conditionCompleteion/src/common/containerLibrary/memory_writer.cpp:151-165 | hands out and clears the pending records |
| ContainerMemory.SecureObjectRecord.GetListRecords | conditionCompleteion/src/common/containerLibrary/memory_writer.cpp:168-186 | lists the records being flushed before the pending ones |
| ContainerMemory.RunKeepsStat | conditionCompleteion/src/common/containerLibrary/memory_writer.cpp:10-186 | after every sequence of adds, flushes, releases, removals, extractions and reverts the statistic is the sum over pending, flushing, extracted and not reverted, and dropped records |
| ContainerMemory.NewHeldIsBalanced | conditionCompleteion/src/common/containerLibrary/memory_writer.cpp:10-18 | a new container starts with that balance |
| ContainerMemory.StatIsMeantIff | conditionCompleteion/src/common/containerLibrary/containerInfoFile.cpp:62-74 | after every run the statistic exceeds the sum over pending, flushing and extracted records by what the flushes have dropped, so it is that sum iff the dropped records cancel out |
| ContainerMemory.NothingToReleaseIff | conditionCompleteion/src/common/containerLibrary/containerInfoFile.cpp:62-74 | a flush leaves nothing to release iff its last key is not after the trailer of the info file |
| MemoryManagement.MemoryManager.AddRecordInMap | conditionCompleteion/src/common/containerLibrary/memory_writer.cpp:495-538 | the record goes to its container in its component, which are created when missing |
| MemoryManagement.MemoryManager.AddEntries | conditionCompleteion/src/common/containerLibrary/memory_writer.cpp:698-711 | all records of the batch are added, in order, under the batch's two sync offsets |
| MemoryManagement.MemoryManager.GetFlushRecords | conditionCompleteion/src/common/containerLibrary/memory_writer.cpp:713-745 | starts the flush of a present container that has none, and no other |
| MemoryManagement.MemoryManager.ReleaseFlushRecords | conditionCompleteion/src/common/containerLibrary/memory_writer.cpp:747-787 | releases the flush and erases the container iff no records are pending |
| MemoryManagement.MemoryManager.RemoveEntry | conditionCompleteion/src/common/containerLibrary/memory_writer.cpp:603-620 | drops the records with keys below the offset, and the container with its last record |
| MemoryManagement.MemoryManager.RevertBackContData | conditionCompleteion/src/common/containerLibrary/memory_writer.cpp:450-474 | gives a record back to its container iff it is still there |
| MemoryManagement.MemoryManager.GetLastCommitOffset | conditionCompleteion/src/common/containerLibrary/memory_writer.cpp:789-809 | the least commit offset of all containers, or the largest file number when there are none |
| MemoryManagement.MemoryManager.MinimumIn | conditionCompleteion/src/common/containerLibrary/memory_writer.cpp:789-809 | the least of the given offset and the commit offsets of one component |
| MemoryManagement.LastCommitAtMost | conditionCompleteion/src/common/containerLibrary/memory_writer.cpp:789-809 | what is found is at most the commit offset of every container in memory |
| MemoryManagement.LastCommitExists | conditionCompleteion/src/common/containerLibrary/memory_writer.cpp:789-809 | there always is such an offset |
| MemoryManagement.ReleaseAt | conditionCompleteion/src/common/containerLibrary/memory_writer.cpp:747-787 | a release changes its own container and no other one |
| MemoryManagement.WithoutBelowAt | conditionCompleteion/src/common/containerLibrary/memory_writer.cpp:603-620 | so does a removal |
| MemoryManagement.PutAt | conditionCompleteion/src/common/containerLibrary/memory_writer.cpp:495-538 | so does storing a container |
| MemoryManagement.RevertKeepsIff | conditionCompleteion/src/common/containerLibrary/memory_writer.cpp:450-474 | after any operations on the memory, a reverted record is pending again iff its container is in memory, that is: nothing has erased the container since it was last there or last added to, where a flush that ends erases it iff it leaves no pending records |
| MemoryManagement.RevertAt | conditionCompleteion/src/common/containerLibrary/memory_writer.cpp:450-474 | a record that is given back comes last in its container, uncounted, iff the container is there; its component, if there, goes to the side that the caller names; everything else stays |
| MemoryManagement.RevertAfterFlushesIff | conditionCompleteion/src/common/containerLibrary/memory_writer.cpp:450-474 | with nothing but flushes of the container between extraction and revert, the record is kept iff every flush that ends leaves pending records |
| MemoryManagement.RevertAfterReleaseLoses | conditionCompleteion/src/common/containerLibrary/memory_writer.cpp:450-474 | a record extracted while a flush is going on, with nothing added since, cannot be given back once the flush has ended: its container is gone |
| ContainerRetentionRuns.Retention | conditionCompleteion/src/common/containerLibrary/journal_writer.cpp:34-43 | over every interleaving of syncs, batches on their way to memory, flush starts, releases, renamings, offset readings and settings, the three steps of creations, checkpoints and rotations of which all steps are careful, no removed journal file holds a synced record outside its info file, whether it is in memory already or not, and the recorded commit offset is not after any added one; a step is careful unless it reads an offset ahead of a record between release and renaming, releases a container that has no info file, writes a new info file whose trailer claims a record that is in memory or on its way there, or drops the pending records of a created container |
| ContainerRetentionRuns.AtomicRetention | conditionCompleteion/src/common/containerLibrary/file_writer.cpp:54-95 | the same over every run in which the renaming follows the release at once, without a condition on the offsets that are read |
| ContainerRetentionRuns.AtomicIsCareful | conditionCompleteion/src/common/containerLibrary/file_writer.cpp:54-95 | in such runs no offset is ever read ahead |
| ContainerRetentionSteps.ReadIsCoveredIff | conditionCompleteion/src/common/containerLibrary/memory_writer.cpp:789-809 | in any state the offset that a flush thread reads is not after any record outside its info file iff it is not after one that another thread has released and not yet renamed |
| ContainerRetentionSteps.StepKeepsIff | conditionCompleteion/src/common/containerLibrary/file_writer.cpp:54-95 | a step keeps the invariant that ties memory, log, published records, trailers, the batch between its sync and its way to memory, threads, commit offset and removed files iff it is careful |
| ContainerRetentionSteps.ReleaseLoses | conditionCompleteion/src/common/containerLibrary/containerInfoFile_manager.cpp:86-91 | a flush of a container without an info file loses what it releases |
| ContainerRetentionSteps.SyncKeeps | conditionCompleteion/src/include/libraryUtils/job_manager.h:171-178 | the sync of a batch keeps the invariant, with all of its records still outside memory |
| ContainerRetentionSteps.WriteInfoKeeps | conditionCompleteion/src/common/containerLibrary/container_library.cpp:763-770 | writing a new info file with a sync offset read earlier keeps the invariant when it claims no record of the container that is in memory or in the batch being added; an existing file stays as it is |
| ContainerRetentionSteps.WriteInfoLoses | conditionCompleteion/src/common/containerLibrary/container_library.cpp:763-770 | and only then: a record that the trailer claims would be skipped by its flush |
| ContainerRetentionSteps.DropMemoryKeeps | conditionCompleteion/src/common/containerLibrary/memory_writer.cpp:566-601 | dropping the memory of a created container keeps the invariant when it is being flushed, or has nothing pending |
| ContainerRetentionSteps.DropMemoryLoses | conditionCompleteion/src/common/containerLibrary/memory_writer.cpp:566-601 | and only then: what is dropped without a flush is in no info file and on the way to none |
| ContainerRetentionSteps.CreateKeepsIff | conditionCompleteion/src/common/containerLibrary/container_library.cpp:750-790 | a creation whose three steps nothing interrupts keeps the invariant iff the container has no record in memory, not even one that is being flushed, and none in the batch being added |
| ContainerRetentionRuns.RunKeeps | conditionCompleteion/src/common/containerLibrary/file_writer.cpp:54-95 | every careful run keeps the invariant |
| ContainerRetentionRuns.RunKeepsIff | conditionCompleteion/src/common/containerLibrary/file_writer.cpp:54-95 | a run keeps the invariant throughout iff all its steps are careful |
| ContainerRetentionSteps.BatchKeeps | conditionCompleteion/src/include/libraryUtils/job_manager.h:132-198 | adding a synced batch keeps the invariant in every state, with any rotations, offset readings, flushes and creations since its sync; it may cross a rotation and have records of containers that are being flushed |
| ContainerRetentionRuns.KeptRetains | conditionCompleteion/src/common/containerLibrary/journal_writer.cpp:34-43 | under the invariant nothing that is needed has been removed |
| ContainerRetentionLosses.EarlyReleaseLoses | conditionCompleteion/src/common/containerLibrary/containerInfoFile.cpp:303-315 | a run of two flushes whose rotation removes the file of a record that is nowhere else: released by one thread, not yet renamed, when the other reads the minimum |
| ContainerRetentionRuns.RecoveryFileExistsIff | conditionCompleteion/src/common/containerLibrary/journal_writer.cpp:34-43 | over every run, careful or not, the removed files are those from the first one up to the greatest file of a commit offset that a rotation has used, and the file that recovery opens first exists iff the recorded offset is not before that |
| ContainerRetentionRuns.RecoveryFileExists | conditionCompleteion/src/common/containerLibrary/journal_writer.cpp:34-43 | so it exists while no commit offset is set that is in an earlier file than the one before |
| ContainerRetentionLosses.LateSetMissesFile | conditionCompleteion/src/common/containerLibrary/file_writer.cpp:54-95 | a run in which a thread sets an offset it read earlier, and the recorded commit offset names a removed file |
| ContainerRetentionLosses.MissingInfoFileLoses | conditionCompleteion/src/common/containerLibrary/containerInfoFile_manager.cpp:86-91 | a run that flushes a container without an info file and removes the journal file of its record |
| ContainerRetentionLosses.CreationDuringFlushLoses | conditionCompleteion/src/common/containerLibrary/container_library.cpp:763-776 | a run that creates a container while a flush of its record goes on: the new trailer claims the record, the flush drops it, and its journal file is removed |
| ContainerRetentionLosses.CreationBeforeAddLoses | conditionCompleteion/src/common/containerLibrary/container_library.cpp:763-776 | the same for a container that is created between the sync of its record and its way to memory |
| ContainerRecoveryRuns.ExactlyOnce | conditionCompleteion/src/common/containerLibrary/containerInfoFile.cpp:62-74 | after every run of careful steps with any crashes, each info file holds exactly the journaled records of its container that end at or before its trailer, each once and in journal order, and the file, or the copy about to be renamed to it, holds every added record that memory does not hold; the steps are those of the code: sync and adding, the three of a creation, release, renaming, end marker, reading and setting of the offset; one is careful unless it writes a header with an unapplied record in an earlier file than its commit offset, reads an offset ahead of a renaming, flushes a container that has no info file, writes a new info file whose trailer claims a journaled record, or drops added records that no file or copy has |
| ContainerRecoveryRuns.RecoveryCompletes | conditionCompleteion/src/common/containerLibrary/container_library.cpp:431-485 | after a crash at any point no added record is missing from the journal, and one flush of what the replay brings back gives the info file every record of the journal if there is an info file, and drops them if there is none |
| ContainerRecoverySteps.StepKeepsIff | conditionCompleteion/src/common/containerLibrary/containerInfoFile.cpp:43-316 | a write, sync, adding of a batch, step of a creation or of a flush, header, crash or end of recovery keeps the invariant iff it is careful |
| ContainerRecoveryRuns.RunKeeps | conditionCompleteion/src/common/containerLibrary/containerInfoFile.cpp:43-316 | every careful run keeps the invariant |
| ContainerRecoveryRuns.RunKeepsIff | conditionCompleteion/src/common/containerLibrary/containerInfoFile.cpp:43-316 | a run keeps the invariant throughout iff all its steps are careful |
| ContainerRecoveryRuns.HeaderRecoversIff | conditionCompleteion/src/common/libraryUtils/journal.cpp:423-431 | a header is written and the node crashes: every record that its info file does not hold comes back to memory iff none of them is in a file before that of the commit offset |
| ContainerRecoverySteps.SettledIsBehind | conditionCompleteion/src/common/libraryUtils/journal.cpp:423-431 | that is so when the commit offset was computed since the restart, or is in the same file as the recorded one |
| ContainerRecoverySteps.ReleaseKeeps | conditionCompleteion/src/common/containerLibrary/containerInfoFile.cpp:43-316 | a flush that makes the copy and releases the memory keeps the invariant; later records of the container may be taken for the next flush before the copy is renamed |
| ContainerRecoverySteps.RenameKeeps | conditionCompleteion/src/common/containerLibrary/containerInfoFile_manager.cpp:136-142 | renaming the copy into place keeps it, with any steps of other threads in between |
| ContainerRecoverySteps.ReleaseLoses | conditionCompleteion/src/common/containerLibrary/containerInfoFile_manager.cpp:86-91 | a flush of a container without an info file loses what it releases |
| ContainerRecoverySteps.ReadIsCoveredIff | conditionCompleteion/src/common/containerLibrary/file_writer.cpp:54-95 | the offset that a flush thread reads is not after any record outside its info file iff it is not ahead of a copy that is not yet renamed |
| ContainerRecoverySteps.BatchKeeps | conditionCompleteion/src/include/libraryUtils/job_manager.h:171-178 | adding a synced batch keeps the invariant in every state, with any steps of other threads since its sync |
| ContainerRecoverySteps.ReplayMatches | conditionCompleteion/src/common/containerLibrary/journal_reader.cpp:127-181 | replay from an offset that covers what is applied brings back every record that is not applied, and nothing that the skip would not drop, although the keys are now the ends of records |
| ContainerRecoverySteps.ReplayMarker | conditionCompleteion/src/common/containerLibrary/memory_writer.cpp:59-89 | replaying the end of a flush, with its strict comparison, removes only records that the info file has |
| ContainerRecoverySteps.SkipsApplied | conditionCompleteion/src/common/containerLibrary/containerInfoFile.cpp:62-74 | what a flush skips is exactly what the info file already holds, whether keys are sync offsets or ends of records |
| ContainerRecoverySteps.FlushedMatches | conditionCompleteion/src/common/containerLibrary/containerInfoFile.cpp:62-74 | a flush extends the applied records by the rest of its list and no later record |
| ContainerRecoverySteps.MinimumCovers | conditionCompleteion/src/common/containerLibrary/memory_writer.cpp:789-809 | a commit offset taken from memory is not after any record that is neither in its info file nor in the copy about to be renamed to it |
| ContainerRecoverySteps.CrashKeeps | conditionCompleteion/src/common/containerLibrary/journal_reader.cpp:127-195 | a crash that loses any part of the journal after the last sync, followed by replay, keeps the invariant |
| ContainerRecoverySteps.WriteInfoKeeps | conditionCompleteion/src/common/containerLibrary/container_library.cpp:763-770 | a new info file keeps the invariant when no journaled record of the container, added to memory or not, ends at or before its trailer |
| ContainerRecoverySteps.WriteInfoLoses | conditionCompleteion/src/common/containerLibrary/container_library.cpp:763-770 | and only then: the trailer claims a record that the file does not have |
| ContainerRecoverySteps.DropMemoryLoses | conditionCompleteion/src/common/containerLibrary/memory_writer.cpp:566-601 | dropping added records that no info file or copy has breaks the invariant |
| ContainerRecoverySteps.CreateKeepsIff | conditionCompleteion/src/common/containerLibrary/container_library.cpp:750-790 | a creation whose three steps nothing interrupts keeps the invariant iff no journaled record of the container ends at or before the last sync, added or not, and none is pending without a flush |
| ContainerRecoveryRuns.HeaderAfterRestartLoses | conditionCompleteion/src/common/libraryUtils/journal.cpp:423-431 | a run that creates a container and, with two restarts, loses an acknowledged record of it: the header written between restart and first flush end records an offset in the newest file |
| ContainerRecoveryRuns.CreationBeforeAddLoses | conditionCompleteion/src/common/containerLibrary/container_library.cpp:763-776 | a run in which a container is created between the sync of its record and its way to memory, and the flush then skips the record |
| ContainerRecovery.ContainerJournalReadHandler.RecoverHeaders | conditionCompleteion/src/common/containerLibrary/journal_reader.cpp:73-118 | the commit offset is that of the last header |
| ContainerRecovery.ContainerJournalReadHandler.RecoverObjects | conditionCompleteion/src/common/containerLibrary/journal_reader.cpp:127-163 | an object record is added under its start and end, an end of a flush removes, start markers and headers do nothing |
| ContainerRecovery.ContainerJournalReadHandler.PerformRecovery | conditionCompleteion/src/common/containerLibrary/journal_reader.cpp:127-195 | the memory is the replay of the items that do not start before the recorded offset |
| ContainerReplay.ReplayIsExact | conditionCompleteion/src/common/containerLibrary/journal_reader.cpp:127-195 | of an ordered journal: after replay from an offset a container is in memory iff one of its records that do not start before the offset has no later end of a flush, of its container, with a sync offset greater than the record's end; memory holds exactly these records, in journal order and under their ends, with the statistic that they add up to, nothing being flushed, and as commit offset the start of the record since which the container has been in memory |
| ContainerReplay.ReplayOwns | conditionCompleteion/src/common/containerLibrary/journal_reader.cpp:127-195 | every component that the replay makes belongs to the node |
| ContainerProgress.NoThreadIsStuck | conditionCompleteion/src/common/containerLibrary/file_writer.cpp:54-95 | while the retention invariant is kept, every thread in the middle of a flush or a creation has a next step, or waits for one that renames the same info file; a release always has a record to release |
| ContainerProgress.BatchesGoOn | conditionCompleteion/src/include/libraryUtils/job_manager.h:171-178 | a synced batch can be added, and after it the next one synced |
| ContainerProgress.NoThreadIsStuckRecovering | conditionCompleteion/src/common/containerLibrary/file_writer.cpp:54-95 | the same for the node with crashes; also after any replay no release meets an empty list while records are pending |
| ContainerProgress.RecoveringBatchesGoOn | conditionCompleteion/src/include/libraryUtils/job_manager.h:171-178 | a pending batch can be added, and is then no longer pending; without one a sync can be made |
| ContainerProgress.RecoveryCanEnd | conditionCompleteion/src/common/containerLibrary/container_library.cpp:431-485 | a recovery whose flushes have ended, with nothing left in memory, can end with any later file |
| ContainerLinks.BatchIsEntries | conditionCompleteion/src/include/libraryUtils/job_manager.h:132-198 | a batch sorted by the kind of its jobs is, for the memory, one sequence of entries, first those of the one kind and then those of the other |
| ContainerLinks.ItemsAreEntries | conditionCompleteion/src/common/containerLibrary/memory_writer.cpp:698-711 | the items that a sync adds to memory are the entries of a batch |
| ContainerLinks.FlushesAgree | conditionCompleteion/src/common/containerLibrary/containerInfoFile.cpp:43-316 | a flush of the info file and the flush of the recovery model give the same live records and the same trailer, with any compactions |
| ContainerLinks.ShownIsJournaled | conditionCompleteion/src/common/containerLibrary/containerInfoFile.cpp:62-74 | after every run of careful steps with any crashes, an info file shows exactly the live records among the journaled records of its container up to its trailer, which are all added ones when none is in memory or in a copy not yet renamed |
| JournalLayout.JournalWriteHandler.Write | conditionCompleteion/src/common/libraryUtils/journal.cpp:451-491 | the file and the next checkpoint offset after a write: snapshot and record in an empty or a new file, padding, checkpoint and record, or the record alone |
| JournalLayout.JournalWriteHandler.AddPaddingBytes | conditionCompleteion/src/common/libraryUtils/file_handler.cpp:252-264 | appends the padding, or nothing when the amount is negative |
| JournalLayout.WriteKeepsLayout | conditionCompleteion/src/common/libraryUtils/journal.cpp:451-491 | every write with snapshot and record, and checkpoint and record, smaller than the interval keeps the layout, and the file ends within one checkpoint and one record of the maximal length or within its first interval |
| JournalLayout.RunKeepsLayout | conditionCompleteion/src/common/libraryUtils/journal.cpp:451-491 | so does every run of writes |
| JournalLayout.ReaderFindsCheckpoint | conditionCompleteion/src/common/libraryUtils/journal.cpp:96-104 | after any run from an empty file no piece crosses an interval and the reader's division gives the offset of the last checkpoint, or 0 |
| JournalLayout.CrashAtCheckpoint | conditionCompleteion/src/common/libraryUtils/journal.cpp:451-491 | the same after a crash that leaves the padding without its checkpoint, or the checkpoint without its record |
| JournalLayout.CrashAtSnapshot | conditionCompleteion/src/common/libraryUtils/journal.cpp:451-491 | the same after a crash that leaves the snapshot alone |
| JournalLayout.CrashAtRotationIff | conditionCompleteion/src/common/libraryUtils/journal.cpp:493-498 | after a crash that leaves the padding in front of a rotation, iff the maximal length is not after the next checkpoint |
| JournalLayout.CrashAtRotation | conditionCompleteion/src/common/libraryUtils/journal.cpp:493-498 | which is so for every maximal length that is a multiple of the interval |
| JournalLayout.WriteGoesOnOrRotates | conditionCompleteion/src/common/libraryUtils/journal.cpp:451-491 | with less room up to the maximal length than the record needs, a write closes the file, padded up to that length, and puts snapshot and record into a new file under the next id; otherwise the file goes on from what it held |
| JournalLayout.FileIdKeptIff | conditionCompleteion/src/common/libraryUtils/journal.cpp:451-500 | a write keeps the file id iff the old file is the beginning of the new one, and otherwise raises it by one |
| JournalLayout.RunNumbersFiles | conditionCompleteion/src/common/libraryUtils/journal.cpp:493-498 | the files that a run leaves have the ids from the first one on, one after the other, and the last id is the first one plus the number of rotations |
| JournalLayout.FilesAreApart | conditionCompleteion/src/common/libraryUtils/journal.cpp:493-498 | no two files of a run have the same id |
| JournalLayout.PaddingTakenForCheckpoint | conditionCompleteion/src/common/libraryUtils/journal.cpp:493-498 | sizes for which the reader looks for a checkpoint in the middle of the padding |
| JournalLayout.LaidOutIsLeft | conditionCompleteion/src/common/libraryUtils/journal.cpp:451-491 | the files that runs of writes leave, with or without the padding of an unfinished write, are those that the next three rows reopen |
| JournalLayout.ReopenedFindsIff | conditionCompleteion/src/common/libraryUtils/journal.cpp:423-490 | after a restart has reopened a file, with the next checkpoint expected after one interval again, the division still finds the last checkpoint after the first write iff that write goes to a new file, or the file was shorter than one interval or ended at a multiple of it |
| JournalLayout.ReopenedAlwaysFindsIff | conditionCompleteion/src/common/libraryUtils/journal.cpp:423-490 | it does after every run of writes to a reopened file with room left iff that file was no longer than one interval |
| JournalLayout.ReopenedReadsInsideRecord | conditionCompleteion/src/common/libraryUtils/journal.cpp:423-490 | writes, a restart and a write after which the reader starts inside a record |
| Names.StrncmpOrders | conditionCompleteion/src/common/libraryUtils/info_file_sorter.cpp:52-89 | within the width of a name strncmp decides equality and the lexicographic order |
| Names.StrncmpOfPrefix | conditionCompleteion/src/common/libraryUtils/info_file_sorter.cpp:9-50 | over the length of the prefix it decides having the prefix, and being before it |
| Names.PrefixedFirst | conditionCompleteion/src/common/containerLibrary/containerInfoFile.cpp:389-475 | among the names from the prefix on, those that have it come before those that do not, so the listing may stop at the first one without it |
| InfoFileSorting.InfoFileSorter.constructor | conditionCompleteion/src/common/libraryUtils/info_file_sorter.cpp:9-50 | every iterator starts at its first record that is not before the marker, and past the marker itself unless it is a prefix |
| InfoFileSorting.InfoFileSorter.Next | conditionCompleteion/src/common/libraryUtils/info_file_sorter.cpp:52-89 | the least head, of equal names the one of the last list, unless it is not before the end marker; the lists that had the name move on at the next call |
| InfoFileSorting.MergeIsOverride | conditionCompleteion/src/common/libraryUtils/info_file_sorter.cpp:52-89 | merging ascending lists gives, in strictly ascending order, exactly the records whose list is the last one with their name |
| InfoFileSorting.AscendingUnique | conditionCompleteion/src/common/libraryUtils/info_file_sorter.cpp:52-89 | an ascending sequence is determined by its elements |
| InfoFileSorting.BestIsLeast | conditionCompleteion/src/common/libraryUtils/info_file_sorter.cpp:52-89 | the chosen head is one of the heads and no other is before it |
| InfoFileSorting.BestIsLast | conditionCompleteion/src/common/libraryUtils/info_file_sorter.cpp:52-89 | of the heads with the least name the last one is chosen |
| InfoView.LatestIsCurrent | conditionCompleteion/src/common/containerLibrary/data_block_iterator.cpp:237-316 | the map that the unsorted and memory iterators build has exactly the last record of each name, in ascending order |
| InfoView.WinsOfTwo | conditionCompleteion/src/common/containerLibrary/data_block_iterator.cpp:97-276 | the merge of the sorted part and the map of the unsorted one has exactly the last record of each name |
| InfoView.WinsOfThree | conditionCompleteion/src/common/containerLibrary/data_block_iterator.cpp:97-316 | so has the merge with the records in memory on top |
| InfoView.ListingUnique | conditionCompleteion/src/common/containerLibrary/containerInfoFile.cpp:389-475 | a query has one listing |
| InfoView.ListedByFlag | conditionCompleteion/src/common/containerLibrary/data_block_iterator.cpp:42-85 | a listing has only last records of their names whose flag is Add, Modify or UnknownAdd and whose names have the prefix and are between the markers; it has all of these unless it is full and they come later; no name whose last record is Delete or UnknownDelete is in it |
| ContainerInfo.ContainerInfoFile.GetObjectList | conditionCompleteion/src/common/containerLibrary/containerInfoFile.cpp:389-475 | without a delimiter: exactly the first `count` live records of file and memory, in strictly ascending order, that have the prefix and lie after the marker and before the end marker |
| ContainerInfo.ContainerInfoFile.Compaction | conditionCompleteion/src/common/containerLibrary/containerInfoFile.cpp:318-387 | the live records become the sorted part, nothing is unsorted, the statistic is recomputed, the journal offset stays |
| ContainerInfo.ContainerInfoFile.FlushContainer | conditionCompleteion/src/common/containerLibrary/containerInfoFile.cpp:43-316 | after making room, the leading records that the file holds are dropped, the others are counted and appended, the offset is that of the last one, and unknown records cause a compaction |
| ContainerInfo.ContainerInfoFile.GetContainerStat | conditionCompleteion/src/common/containerLibrary/containerInfoFile.cpp:477-497 | file and memory statistics are added, not below zero |
| ContainerInfo.StoppedIsListing | conditionCompleteion/src/common/containerLibrary/containerInfoFile.cpp:389-475 | whenever the loop stops, at the count, the end, or the first name without the prefix, what it has taken is the listing |
| ContainerInfo.StartedMerge | conditionCompleteion/src/common/libraryUtils/info_file_sorter.cpp:9-50 | starting the iterators late loses no record that the query wants |
| ContainerInfo.ViewIsLive | conditionCompleteion/src/common/containerLibrary/containerInfoFile.cpp:318-387 | what compaction keeps are exactly the live records, strictly ascending |
| ContainerInfo.CompactionKeepsListings | conditionCompleteion/src/common/containerLibrary/containerInfoFile.cpp:318-387 | for all queries and all records in memory the listings before and after a compaction are the same |
| ContainerInfo.CompactionIsIdempotent | conditionCompleteion/src/common/containerLibrary/containerInfoFile.cpp:318-387 | a second compaction changes nothing |
| ContainerInfo.FlushCompactsIff | conditionCompleteion/src/common/containerLibrary/containerInfoFile.cpp:43-316 | when a flush compacts: before it writes iff tail and list reach 5000 records, at its end iff the status is unknown or a record that it writes is UnknownAdd or UnknownDelete; otherwise the sorted part stays and the records that the file does not hold come behind its tail; with nothing to write a file without a tail stays as it is |
| ContainerInfo.KeptByFlag | conditionCompleteion/src/common/containerLibrary/containerInfoFile.cpp:318-387 | a compaction keeps the last record of a name iff its flag is Add, Modify or UnknownAdd, once each in ascending order and counted, and drops the names whose last record is Delete or UnknownDelete |
| ContainerInfo.ViewAfter | conditionCompleteion/src/common/containerLibrary/containerInfoFile.cpp:151-202 | one more record takes its place in the view, or takes its name out of it |
| ContainerInfo.IncrementalIsRecomputed | conditionCompleteion/src/common/containerLibrary/containerInfoFile.cpp:164-202 | for records whose flag and old size describe the object's current state, the statistic kept during the flush equals the recomputed one |
| ContainerInfo.StatFollowsViewIff | conditionCompleteion/src/common/containerLibrary/containerInfoFile.cpp:149-316 | for one record, with nothing clamped, the two statistics agree iff it adds an absent object, deletes or modifies a present one of the size it names, adds a present one of its size without knowing, or deletes an absent one without knowing |
| ContainerInfo.FlushedStat | conditionCompleteion/src/common/containerLibrary/containerInfoFile.cpp:164-202 | the counting loop changes the statistic by at least the sum of its records, and by exactly that iff no count would fall below zero |
| ContainerInfo.FlushConservesIff | conditionCompleteion/src/common/containerLibrary/containerInfoFile.cpp:43-316 | file and memory statistics together are the same before and after a flush iff: nothing is clamped, when it does not compact; the recomputed statistic with the records counted is the kept one, when it compacts before; the recomputed statistic of all is the kept one, when it compacts after |
| ContainerInfo.FlushKeepsStat | conditionCompleteion/src/common/containerLibrary/containerInfoFile.cpp:43-316 | for records whose flag and old size describe the object's current state, the statistic after a flush is the recomputed one, with any compactions |
| ContainerInfo.FlushKeepsReported | conditionCompleteion/src/common/containerLibrary/containerInfoFile.cpp:477-497 | for such records a flush leaves the reported total as it is, with any compactions |
| ContainerInfo.FlushCorrects | conditionCompleteion/src/common/containerLibrary/containerInfoFile.cpp:303-315 | a flush that compacts afterwards and changes the reported total although nothing is clamped |
| ContainerInfo.SkippedCountsTwice | conditionCompleteion/src/common/containerLibrary/containerInfoFile.cpp:62-74 | a flush after recovery that skips a record: the container stays in memory and the record is reported twice from then on |
| ContainerInfo.FlushKeepsListings | conditionCompleteion/src/common/containerLibrary/containerInfoFile.cpp:43-316 | every listing of file and memory is the same before and after a flush, with whatever compactions it makes and whatever leading records it skips because the file holds them |
| AccountInfo.AccountInfoFile.UpdateContainer | conditionCompleteion/src/common/accountLibrary/account_info_file.cpp:187-353 | for a request with distinct containers, of which at most 5001 have no live row yet: a live container gets the requested values, a deletion leaves no live row, a deleted or unknown one is added, all others are untouched; the stored counts change by the requested less the former ones of live containers, plus those added and less those deleted; only the newest row of a container is live, the sorted part stays ascending and the regions are kept, whether or not the file is compacted |
| AccountInfo.AccountInfoFile.AddContainerInternal | conditionCompleteion/src/common/accountLibrary/account_info_file.cpp:112-146 | rows of containers without a live row become live, all others stay, after a compaction if the tail is long; the rows fit the file |
| AccountInfo.AccountInfoFile.DeleteContainer | conditionCompleteion/src/common/accountLibrary/account_info_file.cpp:149-157 | the container has no live row afterwards, all others are untouched |
| AccountInfo.AccountInfoFile.Compaction | conditionCompleteion/src/common/accountLibrary/account_info_file.cpp:421-471 | exactly the live rows remain, sorted, with recomputed totals and regions made for all rows that there were |
| AccountCompaction.MergeIsCompaction | conditionCompleteion/src/common/accountLibrary/account_info_file.cpp:421-471 | merging the sorted rows and the tail with the sorter and leaving out the deleted ones gives the rows that the compaction keeps, in the same order |
| AccountInfo.AccountInfoFile.UpdateRows | conditionCompleteion/src/common/accountLibrary/account_info_file.cpp:206-234 | the in-place loop updates a block like the specification and returns the requests that no row has taken |
| AccountInfo.AccountInfoFile.UpdateSorted | conditionCompleteion/src/common/accountLibrary/account_info_file.cpp:263-324 | all sorted rows are updated, chunk by chunk, and counted; nothing is written beyond its region |
| AccountInfo.AccountInfoFile.CountTail | conditionCompleteion/src/common/accountLibrary/account_info_file.cpp:243-261 | the totals of the tail are those of its live rows |
| AccountInfo.AccountInfoFile.RegionsApart | conditionCompleteion/src/common/accountLibrary/writer.cpp:26-60 | static rows, non-static rows and statistic never overlap, and the trailer is at the end of the file |
| AccountInfo.AccountInfoFile.WriteStaticDataBlock | conditionCompleteion/src/common/accountLibrary/writer.cpp:26-60 | both writes of the appended rows end before the next region starts, and the statistic and the trailer end the file |
| AccountInfo.AccountInfoFile.WriteNonStaticDataBlock | conditionCompleteion/src/common/accountLibrary/writer.cpp:83-89 | rewriting rows does not move the end of the file |
| AccountInfo.TrailerBlock.constructor | conditionCompleteion/src/include/accountLibrary/trailer_block.h:38-47 | the offsets of the regions for the rounded capacity |
| AccountInfo.RoomForIff | conditionCompleteion/src/include/accountLibrary/trailer_block.h:38-47 | the rounded capacity has room for every call iff it brings at most 5001 rows |
| AccountInfo.UpdatedIs | conditionCompleteion/src/common/accountLibrary/account_info_file.cpp:187-353 | a request with distinct containers changes each row as if it were alone, and leaves over exactly what no newest row takes |
| AccountInfo.PartsUpdated | conditionCompleteion/src/common/accountLibrary/account_info_file.cpp:263-324 | updating two parts of distinct rows one after the other is updating the whole |
| AccountInfo.PassesUpdate | conditionCompleteion/src/common/accountLibrary/account_info_file.cpp:187-353 | updating the tail first and then the sorted rows is updating the newest rows of the whole file |
| AccountInfo.UpdatedLive | conditionCompleteion/src/common/accountLibrary/account_info_file.cpp:159-185 | what an update does to the live row of each container, seen from outside |
| AccountInfo.ExpectedFields | conditionCompleteion/src/common/accountLibrary/account_info_file.cpp:159-185 | field by field: the live row of a requested, not deleted container has the deletion time, object count and byte count of the request, and keeps its name and put time |
| AccountInfo.TotalsChange | conditionCompleteion/src/common/accountLibrary/account_info_file.cpp:187-353 | rows that show what the requests demand differ in their totals by the sum, over the requests, of the counts brought less the counts that the container had |
| AccountInfo.UpdatedKeepsNewest | conditionCompleteion/src/common/accountLibrary/account_info_file.cpp:159-185 | only newest rows are live after an update if that was so before |
| AccountInfo.UnseenIsTotal | conditionCompleteion/src/common/accountLibrary/account_info_file.cpp:243-324 | counting the tail and then the sorted rows not seen in it gives the totals of the live rows |
| AccountInfo.CompactedIsLive | conditionCompleteion/src/common/accountLibrary/account_info_file.cpp:421-471 | compaction keeps exactly the live rows and their totals, strictly ascending |
| AccountInfo.CompactedLiveRow | conditionCompleteion/src/common/accountLibrary/account_info_file.cpp:421-471 | no container's live row changes by a compaction |
| MessageDigest.MD5.Update | conditionCompleteion/src/common/libraryUtils/md5sum.cpp:225-250 | for every piece of a message at which the loop stops where it should: the state is the fold over its whole blocks, the buffer holds the rest, the two count words hold its length in bits modulo 2^64 |
| MessageDigest.MD5.Finalize | conditionCompleteion/src/common/libraryUtils/md5sum.cpp:257-284 | the digest is the one-shot fold over the padded message; a second call changes nothing |
| MessageDigest.MD5.Transform | conditionCompleteion/src/common/libraryUtils/md5sum.cpp:140-223 | the unrolled rounds on a block are the 64 table-driven steps of section 3.4 of RFC 1321 |
| MessageDigest.MD5.Encode | conditionCompleteion/src/common/libraryUtils/md5sum.cpp:130-138 | words become bytes with the low-order byte first |
| MessageDigest.MD5.Decode | conditionCompleteion/src/common/libraryUtils/md5sum.cpp:123-128 | and bytes words |
| MessageDigest.DigestOfPieces | conditionCompleteion/src/common/libraryUtils/md5sum.cpp:225-284 | however a message is cut into such pieces, the digest is that of the whole |
| MessageDigest.DigestedBlock | conditionCompleteion/src/common/libraryUtils/md5sum.cpp:140-249 | the fold goes on block by block |
| MessageDigest.CountGrows | conditionCompleteion/src/common/libraryUtils/md5sum.cpp:225-236 | adding to the count words with carry gives the length in bits modulo 2^64, also when the low word wraps around |
| MessageDigest.PaddedIsWhole | conditionCompleteion/src/common/libraryUtils/md5sum.cpp:257-284 | the padded message is a whole number of blocks |
| MessageDigest.PaddingLengthUnique | conditionCompleteion/src/common/libraryUtils/md5sum.cpp:257-284 | one padding length leaves room for just the length |
| MessageDigest.WordRoundTrip | conditionCompleteion/src/common/libraryUtils/md5sum.cpp:123-138 | encoding a word undoes decoding it |
| MessageDigestFunctions.FChooses | conditionCompleteion/src/common/libraryUtils/md5sum.cpp:56-58 | F agrees with its second word on the ones of the first, and with the third on its zeros |
| MessageDigestFunctions.GChooses | conditionCompleteion/src/common/libraryUtils/md5sum.cpp:60-62 | G agrees with its first word on the ones of the third, and with the second on its zeros |
| MessageDigestFunctions.HFlips | conditionCompleteion/src/common/libraryUtils/md5sum.cpp:64-66 | H has ones where the second and the third word differ, flipped on the ones of the first |
| MessageDigestFunctions.IFlips | conditionCompleteion/src/common/libraryUtils/md5sum.cpp:68-70 | I is the second word, flipped where the first has a one or the third a zero |
| MessageDigestFunctions.RotateMoves | conditionCompleteion/src/common/libraryUtils/md5sum.cpp:72-75 | rotating by n moves bit k to bit k + n modulo 32 |
| MessageDigestFunctions.RotateBack | conditionCompleteion/src/common/libraryUtils/md5sum.cpp:72-75 | rotating by 32 - n undoes rotating by n |
| MessageDigestTestSuite.DigestOfEmpty | conditionCompleteion/src/common/libraryUtils/md5sum.cpp:77-160 | the digest of the empty message is that of section A.5 of RFC 1321 |
| MessageDigestTestSuite.DigestOfAbc | conditionCompleteion/src/common/libraryUtils/md5sum.cpp:77-160 | so is the digest of "abc" |
| MessageDigest.LoopStopsIff | conditionCompleteion/src/common/libraryUtils/md5sum.cpp:225-250 | the loop takes the whole blocks behind the first part, no more and no fewer, iff the sum in its 32-bit guard does not wrap around at the place where it should stop |
| MessageDigest.LoopRunsOn | conditionCompleteion/src/common/libraryUtils/md5sum.cpp:225-250 | a piece of 2^32 - 64 bytes with an empty buffer: the loop takes a block behind the end of the input |
| MessageDigest.FullerBufferFits | conditionCompleteion/src/common/libraryUtils/md5sum.cpp:225-250 | with 63 bytes in the buffer the same piece is taken in properly |
| LockManagement.LockManager.GetLock | conditionCompleteion/src/common/libraryUtils/lock_manager.cpp:63-82 | a key in use gives its one Mutex and counts the handle, another one a new Mutex |
| LockManagement.LockManager.ReleaseLock | conditionCompleteion/src/common/libraryUtils/lock_manager.cpp:84-97 | a handle is uncounted, and the key erased with the last one |
| LockManagement.StepKeeps | conditionCompleteion/src/common/libraryUtils/lock_manager.cpp:25-97 | every get, lock, unlock and release of any client keeps counts, holders and the limit |
| LockManagement.RunKeeps | conditionCompleteion/src/common/libraryUtils/lock_manager.cpp:25-97 | so does every interleaving |
| LockManagement.Exclusion | conditionCompleteion/src/common/libraryUtils/lock_manager.cpp:25-97 | in every interleaving the clients of a key share one Mutex, its count is their number, the map is within its limit, and a writer excludes every other holder of the key, although entries are erased and made anew |
| LockManagement.ErasedHasNoUsers | conditionCompleteion/src/common/libraryUtils/lock_manager.cpp:84-97 | a release erases the key iff no other client has a handle for it |

## Left out

- TransactionMemory.TransactionLockManager.AcquireTransactionLock: the time that a lock stores and the clock it comes from are left out; ids are unbounded, without the wrap-around of int64_t.
- TransactionMemory.TransactionLockManager.CommitRecoveredData: only for an unchanged base version; otherwise the code erases from the map that it iterates over.
- LockInvariant.AddRecordsKeep: expects fresh and distinct ids, and the owned flag of a component that exists, as the callers of component transfer provide them.
- TransactionHistory.ReplayRebuilds: WRITE locks only; replaying READ locks that a snapshot opens adds a second listing before the duplicate is noticed.
- TransactionRecovery.RecoveryRebuilds: the histories are of one process life, since the writer's last id restarts at 0; the locks that are in a snapshot but already closed at that moment must fit the limit of a million, which is no condition when each record is written before the next change (`StepwiseRecovery`).
- TransactionJournal.TransactionReadHandler.PerformRecovery: folds over the records of the newest file; file positions, reading in chunks, torn records and the cleaning of old files are not part of this model.
- MemoryManagement.MemoryManager.AddEntries: the two kinds of jobs of a batch are given in their final order; counters of containers and records, and the set of unknown flags, are left out.
- MemoryManagement.MemoryManager.GetFlushRecords: the unknown status of a container and the notice to the updater are left out.
- MemoryManagement.MemoryManager.ReleaseFlushRecords: needs a record to release; on an empty flush list the code reads its last element.
- TransactionJournal.TransactionWriteHandler.Write: which kind of write it is comes as a parameter; `TransactionLayout.KindOf` decides it from the offsets.
- TransactionJournal.LastCheckpoint: finds the checkpoint by scanning; that the division of the code finds the same is `TransactionLayout.ReaderStartsAtCheckpoint`.
- BulkTransaction.TransactionImpl.AddBulkDeleteTransaction: the journal write after the locks are taken, and the answer -3 when it fails, are left out, as are the close records of ReleaseLockByName.
- ContainerRetentionRuns.Retention: the commit offset is one value that is read and set as a whole; a write of the journal is one step, and a sync is taken to cover the records of a batch that are in files closed by a rotation; an info file is not deleted.
- ContainerRecovery.ContainerJournalReadHandler.RecoverObjects: the marker of accepted components, which removes components from memory, is left out, as is the transfer of components between nodes.
- ContainerRecovery.ContainerJournalReadHandler.PerformRecovery: goes over a list of items; the search for the file of the recorded offset and positions within files are left out.
- ContainerRecoveryRuns.ExactlyOnce: one node and whole records; a sync is taken to cover the records in files closed by a rotation; the copy of an info file is made and compacted in the step that releases the memory, since no other thread sees it before the renaming; an info file is not deleted. A flush that has nothing to release while records are pending, where the code reads an element of an empty list, is no step, and in careful runs none is met (`NoThreadIsStuckRecovering`).
- JournalLayout.ReaderFindsCheckpoint: from an empty file, as is `TransactionLayout.ReaderStartsAtCheckpoint`; for a reopened file see `ReopenedFindsIff` and `ReopenedAlwaysFindsIff`. The recovery model takes the last header (`Recorded`) and so assumes that the division has found it.
- JournalLayout.JournalWriteHandler.Write: pieces have sizes and kinds and no contents; a failing write or sync ends the program in the source and is left out.
- ContainerInfo.ContainerInfoFile.GetObjectList: names have fewer than 256 characters, since the sorter compares that many bytes; grouping by a delimiter and the jump of the sorted iterator to a data index block are left out, the latter takes its number of entries from another field.
- ContainerInfo.ContainerInfoFile.FlushContainer: for the node's own journal and the current file version; the branch for foreign nodes, the translation of old versions, and the map of unknown states, which stays empty, are left out.
- AccountInfo.AccountInfoFile.AddContainerInternal: is given containers without a live row, as update_container calls it; adding a live container again would make two live rows, and the code does not look.
- AccountInfo.AccountInfoFile.Compaction: places rows by name; that the sorter gives the same rows is `AccountCompaction.MergeIsCompaction`, for names of 1 to 255 characters.
- AccountInfo.AccountInfoFile.UpdateContainer: counts are unbounded integers; a request may bring at most 5001 new rows, for which the file is sure to have room (`RoomForIff`).
- MessageDigest.MD5.Update: pieces at which the loop stops where it should (`LoopStopsIff`), as the code reads beyond the others; the hexadecimal form of the digest is left out.
- LockManagement.LockManager.GetLock: begins where the wait for room has ended; that waiting clients are woken and served is not proved.
- LockManagement.Exclusion: a client unlocks before it releases its handle, as the Mutex does in its two unlock functions.
- Permutation.Permute: lines are returned in a sequence instead of being printed.
- Sockets, the HTTP and protobuf services, monitoring, configuration, logging, statistics frames and the Python bindings: input and output around the core.
- Byte layouts of records, info files and metadata, and the wait loops of component transfer: not part of this model.
- The other exercise scripts: loops over input, decorators and threads with nothing to prove across calls.
