# Libnvmmio in Dafny

Libnvmmio is a user-level file layer for persistent memory. It maps a file, logs every write into per-block logs, and makes
`fsync` failure-atomic by counting up one epoch number. This project models its four cores and proves what they are for.

| module | models |
|---|---|
| `Pmem` | persistent memory: stores, flushes, fences, and what a crash may leave |
| `BlockLog` | one log block: the packed entry word, the six-way overlap test, merging a write, reading |
| `LogSystem`, `RedoCrash`, `UndoCrash` | writers, checkpointer and fsync as an interleaving of single stores; crashes; recovery |
| `UndoExact`, `RedoExact` | what a whole write leaves, and exactly when recovery works, in states that runs reach |
| `Geometry` | log sizes, table indices, addresses |
| `MmioData`, `MmioSpec`, `Mmio` | the operations of `src/mmio.c` on one file: tables, entries and single turns as values (`MmioData`), whole requests and checkpoints as values (`MmioSpec`), and the imperative code proved against them (`Mmio`) |
| `Recovery` | what recovery would find in such a file, and what leaves that alone |
| `MmioRuns` | any sequence of these operations, against an array of bytes: what is seen, and what is recovered |
| `MultiBlock`, `UndoImage` | exactly when the write and read loops, and the logs that UNDO takes, are right: requests of several blocks, and beyond the coverage |
| `EntryLocks`, `EntryClash`, `EntryDeadlock` | the block locks and the shared list links: exclusion, deadlock freedom, completion, and exactly when |
| `Bravo`, `BravoCollision`, `BravoSolo` | the biased reader-writer lock as an interleaving of shared accesses of any number of threads, exactly when it excludes, and exactly what one thread gets that runs alone from any state |
| `FileLocks` | the lock of a file as the thread at hand meets it, an instance of `BravoSolo` |
| `Chunks`, `FreeList`, `ThreadPools`, `AllocatorSystem` | the segmented free lists: as values, as linked nodes on the heap, over sequences of operations, as a multi-threaded system |
| `RadixLog` | the four-level table index with its shortcut and its one-entry cache |
| `Arithmetic`, `Options` | remainders; a value that may be missing |

## How to read it

The main theorems, each over all inputs, all runs or all reachable states:

- `RedoCrash.CrashAtomicity` and `UndoCrash.CrashAtomicity`: a file with logs, written store by store by any number of threads
  and crashing at any point, recovers to what a file with atomic commits would hold. The epoch bump alone switches from
  the old content to the new. `ReadsLastWritten` is the same for readers without a crash.
- `Bravo.MutualExclusion` and `BravoCollision.ExclusionExact`, `Bravo.ReleaseAgreement` and `BravoCollision.AgreementExact`,
  `Bravo.RevocationShrinks`.
- `AllocatorSystem.Conservation` and `NotHandedOutTwice`, over the list operations that `FreeList` proves of linked nodes and
  `ThreadPools` chains.
- `Mmio.File.Write`, `Read`, `Checkpoint`, `Commit`, `CommitAndCheckpoint`. Each is tied turn by turn to what it does
  (`MmioSpec.WroteAs`, `ReadAs`, `RegionsAfter`), and from that follows what it means for the view of the file and for what recovery finds
  (`MmioSpec.Outcome`, `ReadOutcome`, `Checkpointed`). Over any sequence of them `MmioRuns.Perform`, `RunShows`, `ReadsLastWritten` and
  `RunRecovers`: the file is an array of bytes, reads return what was last written, and recovery finds the array as of the last commit.
- `MmioSpec.LockFits` and `LargerCut`: exactly which requests lie in one block, told from the tables before the call, and where a read
  is cut.
- `BravoSolo.ReaderRun`, `TryExact`, `TryReturns` and `WriteSucceeds`: exactly when a try succeeds.
- `EntryLocks.EntryExclusion`, `DeadlockFree` and `AllComplete`, with `EntryClash.ExclusionExact`, `CompletionExact` and
  `EntryDeadlock.DeadlockExact`.
- `MultiBlock.WriteExact`, `ReadExact` and `UndoImage.RestoreExact`.
- `UndoExact.RunRewriteExact`, `UndoExact.EpochExact` and `RedoExact.EpochExact`.
- `RadixLog.Root.GetLogTable`, `FindLogTable`, `SkipWalk`: cache, shortcut and full walk agree.

**Crash model.** A memory cell has the value a running thread reads and the set of values that a crash may leave. A store adds its
value to the set, so that any subset of the bytes of unfenced stores may survive, in any order; a fence leaves the current value only.
A fence counts for the block whose lock its thread holds. REDO is proved under this model, at the granularity of single assignments
to the fields of the packed entry word, each of which is a store of the whole 64-bit word: until the fence the word may be as after any
of them. Making a fresh entry (a durable zero word) and removing one are single durable steps. Every block has an entry of its own, which
holds for blocks within the coverage of the radix shortcut (`RadixLog.Root.SkipWalk`).

**Recovery.** The repository has no recovery routine. `LogSystem.RecoverBlock` is the meaning that the epoch numbers give to a log: under REDO, logs
of epochs before the file's are replayed and others ignored; under UNDO, logs of the file's epoch are put back and others ignored.
It goes by the file's policy, which never changes over a run. A log is put back where a reader looks for it. `Recovery.Recovered` is the same of a whole file with tables
of any log sizes; block by block the two agree (`Recovery.OfBlock`).

**Where the code does not meet its purpose**, the model follows the code, and a lemma says exactly when it does:

| fault | exact condition, and lemma |
|---|---|
| blocks of a request are on the list in reverse order, and `n` is not recomputed (src/mmio.c:40, 296-312) | REDO writes and reads are right, whatever the contents, iff the request lies in one block of the coverage: `MultiBlock.WriteExact`, `MultiBlock.ReadExact`; UNDO logging can be undone, whatever the contents and whatever was logged rightly before, iff the request lies in one block of the coverage and the epoch is below 2^20: `UndoImage.RestoreExact`. What is returned is the sum of the turns; for blocks of one size from the start of a block on that is the length iff the length is less than a block or a multiple of it: `MmioSpec.AlignedReturns` |
| the same, on reads over regions of different log sizes | a read copies as far as the blocks go when taken in the order of the list, `|buf| == Min(ret, Room)` in `MmioSpec.ReadOutcome`; blocks of one size have room for the whole request, and two blocks of which the second is larger do not: `MmioSpec.OneSizeTiles`, `MmioSpec.LargerCut` |
| the shortcut is not raised when a file grows (src/radixlog.c:92), so beyond its coverage two blocks share a table slot | it finds the table of the full walk iff the region is covered: `RadixLog.Root.SkipWalk`; the same three iffs |
| a request that reaches one coverage beyond its first block meets an entry twice (src/mmio.c:33-40) | a writer then spins on its own lock in LOCK_ENTRIES; a reader gets through it, making no new entries after the first it meets twice, but leaves the list a ring on which the later loops do not end. A call comes past this iff its request does not reach that far: `Mmio.File.LockEntries`, `Mmio.File.Write`, `Mmio.File.Read` |
| a read that starts at or before the log and ends after it copies the rest from too far up (src/mmio.c:485) | right, whatever the contents, iff the request does not overrun the log: `BlockLog.ReadExact` |
| a second UNDO write to a byte logs data that is already modified (src/mmio.c:317) | after any run, all crashes recover after one more write iff the bytes it overwrites held their committed values: `UndoExact.RunRewriteExact` |
| UNDO has no fence between log, entry and gap stores (src/mmio.c:317-391) | without issue order, all crashes recover iff the log happened to hold the committed bytes already: `UndoExact.NeedsIssueOrder`, reached by `UndoExact.FreshLogReached` |
| an old UNDO entry is reset epoch first (src/mmio.c:258-261) | field by field, all crashes recover iff the old log happened to hold the committed bytes: `UndoExact.NeedsWholeWord`, reached by `UndoExact.OldLogReached` |
| the entry word has 20 bits of epoch (src/radixlog.h:33) | from any idle file with a byte in it, all crashes of all runs within its epoch recover iff the epoch is below 2^20, under REDO (`RedoExact.EpochExact`) and under UNDO without rewrites (`UndoExact.EpochExact`); above, one write that changes anything is shown by REDO recovery and kept by UNDO recovery, though not committed |
| the list link of LOCK_ENTRIES is inside the entry, shared by all threads, and UNLOCK_ENTRIES reads it after unlocking (src/radixlog.h:43, src/mmio.c:40, 49-56) | exclusion and completion hold iff any two requests share no block or start in the same one: `EntryClash.ExclusionExact`, `CompletionExact`; deadlock freedom holds iff there are no two requests that clash so and a third on a block between their starts such that the one that starts first or the third one writes: `EntryDeadlock.DeadlockExact`. All this without entries that are retired and used for another block meanwhile |
| `bravo_read_unlock` takes any occupied slot for its own (src/bravo.c:131) | exclusion holds iff no two processes of different locks share a slot of which one has a rival for its lock: `BravoCollision.ExclusionExact`; release agreement holds iff no two processes share one at all: `BravoCollision.AgreementExact` |
| a file of up to 2 MB is opened with a table without a log size, by which the checkpoint thread then shifts (src/allocator.c:471, src/mmio.c:191-192) | a checkpoint is defined iff no table is without a log size or a writer has the lock; none is without one once a request of at least one byte was made: `Mmio.File.Checkpoint`, `Mmio.File.constructor`, `Mmio.File.Write` |
| lengths are kept in an `int` (src/mmio.c:23, 296) | the part of a request that is locked is the whole of it iff its length is below 2^31: `MmioSpec.Locked` |

The documentation says that logs are written to the file when `fsync` is called (README.md:44 of the repository); in the code `fsync` only
counts up the epoch, and the checkpoint nested in it cannot get the file lock (`Mmio.File.Commit`). The policy that
`determine_policy` computes is compared and not stored.

**Conditions taken over from the code**: the mapping is stable and aligned to the log size, so that clearing the low bits of an address in it
gives the start of a block; `lseek` keeps read offsets within the file size; an entry is found and try-locked in one step; memory is
sequentially consistent outside of crashes. Masks and shifts by powers of two are written as remainders and quotients. Memory beyond
the mapping, which the faulty cases read, is an arbitrary function `wild`.

## Model

| member | source | states |
|---|---|---|
| `BlockLog.Merge` | src/mmio.c:331-381 | in all six overlap cases and for whole-block writes the new range is the hull of the old log and the write, inside the block, and the gap to fill is exactly what neither covers |
| `BlockLog.ReadIsView` | src/mmio.c:428-539 | a single-block read that does not overrun the log returns log bytes where logged and file bytes elsewhere |
| `BlockLog.ReadExact` | src/mmio.c:445-492 | the read returns the view for all contents if and only if the request does not overrun the log |
| `RedoCrash.CrashAtomicity` | src/mmio.c:195-391 | after any run of any number of writers, readers, checkpointers and commits, every crash image recovers to the last committed content; once the new epoch is stored, the epoch found decides alone |
| `RedoCrash.ReadsLastWritten` | src/mmio.c:420-541 | every read of every run returns all writes completed before it, in order, and nothing of unfinished or later ones |
| `RedoCrash.CrashSafe` | src/mmio.c:622-634 | from the invariant alone, recovery of the whole file is the expected one, also in the middle of a commit |
| `RedoCrash.BlockCrashSafe` | src/mmio.c:249-391 | between and during any two stores on a block, recovery in the current epoch finds the committed content |
| `RedoCrash.BlockCommitSafe` | src/mmio.c:627-633 | on a block no thread works on, recovery in the next epoch finds the current content |
| `RedoCrash.CopyKeeps` | src/mmio.c:249-256 | copying an old log back, and the fence after it, keep the invariant |
| `RedoCrash.ResetKeeps` | src/mmio.c:258-263 | resetting an old entry field by field keeps the invariant after each store, flush and fence |
| `RedoCrash.LogStoreKeeps` | src/mmio.c:320-324 | storing new data over the log of the current epoch endangers nothing committed |
| `RedoCrash.GapFillMerges` | src/mmio.c:340-371 | after the gap is filled from the file, the hull shows the current content with the write in it |
| `RedoCrash.GapStoreKeeps` | src/mmio.c:331-373 | the merge step keeps the invariant for every overlap |
| `RedoCrash.WordKeeps` | src/mmio.c:345-381 | until the fence a crash may leave the entry's word as after any of the field assignments, and nothing committed is lost |
| `RedoCrash.FlushKeeps` | src/mmio.c:382-391 | neither by the flush of the word and the fence |
| `RedoCrash.CheckpointKeeps` | src/mmio.c:195-210 | every step of the background checkpointer, removal included, keeps the invariant |
| `RedoCrash.FinishKeeps` | src/mmio.c:390-392 | after the fence the write is part of the current content and durable with the next epoch |
| `RedoCrash.WriterKeeps` | src/mmio.c:249-391 | every step of a writer keeps the invariant |
| `RedoCrash.BlockProgress` | src/mmio.c:301-391 | no writer or checkpointer gets stuck in the middle of a block or reaches outside it |
| `RedoCrash.ReadsCurrent` | src/mmio.c:428-539 | a reader of a block sees the current content, whatever is in the log and in the file |
| `RedoCrash.BlockStepKeeps` | src/mmio.c:195-391 | every step of every thread on a block keeps the invariant, and only a finished write changes the atomic file |
| `RedoCrash.CommitKeeps` | src/mmio.c:622-634 | counting up the epoch turns current into committed content without touching a block |
| `RedoCrash.StepKeeps` | src/mmio.c:195-391 | every step of the file simulates a step of the atomic file |
| `RedoCrash.RunKeeps` | src/mmio.c:195-391 | so does every run |
| `RedoCrash.EpochWidthExact` | src/radixlog.h:32-37 | a log of epoch e is ignored by recovery in epoch e, for all contents, if and only if e is below 2^20 |
| `RedoExact.EpochExact` | src/radixlog.h:32-37 | from any idle file with a byte in it, every crash of every run within the epoch recovers if and only if the epoch is below 2^20 |
| `RedoExact.WideWriteShows` | src/mmio.c:301-391 | from any idle file in a wider epoch, any write that changes anything makes a run after which some crash recovers to the uncommitted write |
| `RedoExact.WritingNext` | src/mmio.c:301-391 | each store of a write in a wider epoch leads to the next, up to the last fence, with the new data in the log and a truncated epoch in the word |
| `RedoExact.RunPossible` | src/mmio.h:29-31 | in every state of every REDO run there is a crash that loses nothing, so that the crash theorems are never empty |
| `UndoCrash.ReadsLastWritten` | src/mmio.c:567-572 | every read of every such run returns all completed writes in order |
| `UndoCrash.CrashSafe` | src/mmio.c:622-634 | from the invariant alone, recovery of the whole file is the expected one, also in the middle of a commit |
| `UndoCrash.BlockCrashSafe` | src/mmio.c:301-400 | at every point of a write, restoring the log of the current epoch gives the committed content |
| `UndoCrash.BlockCommitSafe` | src/mmio.c:622-634 | the next epoch number alone turns the log off and leaves the current content |
| `UndoCrash.StartKeeps` | src/mmio.c:301-319 | restarting an old entry and logging the original data keeps the invariant |
| `UndoCrash.GapFillKeeps` | src/mmio.c:340-371 | the bytes filled into the gap are committed ones, for every overlap |
| `UndoCrash.GapStoreKeeps` | src/mmio.c:331-373 | so does the merge step |
| `UndoCrash.WordKeeps` | src/mmio.c:376-391 | entry update and fence keep the invariant |
| `UndoCrash.StoreKeeps` | src/mmio.c:394-400 | so does the in-place store: what it overwrites is in the log and durable |
| `UndoCrash.FinishKeeps` | src/mmio.c:394-400 | a finished write is current content, and its old bytes are restorable |
| `UndoCrash.BlockProgress` | src/mmio.c:301-400 | no writer gets stuck in the middle of a block or reaches outside it |
| `UndoCrash.CommitKeeps` | src/mmio.c:622-634 | counting up the epoch turns current into committed content |
| `UndoCrash.CrashAtomicity` | src/mmio.c:301-400 | with stores durable in issue order and no write begun on bytes that differ from their committed values, every crash image of every run, in-place store included, recovers to the last committed content |
| `UndoCrash.BlockStepKeeps` | src/mmio.c:195-400 | every step of every thread on a block keeps the invariant as long as no altered byte is rewritten |
| `UndoCrash.RunKeeps` | src/mmio.c:195-400 | every run without such rewrites simulates the atomic file |
| `UndoExact.StepsWrite` | src/mmio.c:301-400 | every UNDO write runs through, and its stores add up to one closed form for file, log and word |
| `UndoExact.WriteRun` | src/mmio.c:266-400 | from every state whose block is free a run goes on with a whole write, which leaves that, all durable |
| `UndoExact.RewriteExact` | src/mmio.c:314-319 | for every block, log and write, restoring still gives the committed content afterwards if and only if the bytes overwritten still held it |
| `UndoExact.RunRewriteExact` | src/mmio.c:314-400 | after any run without rewrites let a write follow: every crash at its end recovers if and only if the bytes it overwrites held their committed values |
| `UndoExact.SecondWriteLosesCommitted` | src/mmio.c:314-400 | from any initial state two writes of one range in one epoch make a run after which every crash recovers if and only if the first one stored the committed bytes |
| `UndoExact.NeedsIssueOrder` | src/mmio.c:317-391 | without issue order every crash recovers if and only if the log had the committed bytes already wherever the write adds to it |
| `UndoExact.FreshLogReached` | src/radixlog.c:299-316 | that state is reached by a run, with any content of the fresh log |
| `UndoExact.NeedsWholeWord` | src/mmio.c:258-261 | with the epoch durable before the other fields every crash recovers if and only if the old log had the committed bytes |
| `UndoExact.OldLogReached` | src/mmio.c:249-264 | that state is reached by a run: after a write and a commit the log has what was committed before |
| `UndoExact.RunPossible` | src/mmio.h:29-31 | the same for every UNDO run |
| `UndoExact.EpochExact` | src/radixlog.h:32-37 | from any idle file with a byte in it, every crash of every run within the epoch and without rewrites recovers if and only if the epoch is below 2^20 |
| `UndoExact.WideWriteLoses` | src/mmio.c:301-400 | from any idle file in a wider epoch, any write that changes anything makes a run after which some crash does not undo it |
| `Bravo.MutualExclusion` | src/bravo.c:55-181 | for any set of locks whose readers share no slots with readers of other locks, in every state of every run, a returned writer of one of them shares it with no fast reader, no slow reader and no writer, whether or not it revoked the bias; the other locks may collide |
| `Bravo.ReleaseAgreement` | src/bravo.c:126-139 | where all active readers have slots of their own, the underlying reader count is the number of slow readers, and readers release the way they acquired |
| `Bravo.ReleaseAgrees` | src/bravo.c:126-139 | a holder's slot is occupied if it acquired through it and NULL if it did not |
| `Bravo.RevocationShrinks` | src/bravo.c:141-168 | during a scan the fast holders only shrink, and no scanned slot holds one |
| `Bravo.TryFailsUnderWriter` | src/bravo.c:90-124 | under a returned writer a reader takes the slow path, and a try fails without effect; the other direction is `BravoSolo.TryExact` |
| `Bravo.StepKeeps` | src/bravo.c:55-204 | every access of every thread keeps the slot, count and bias invariants |
| `Bravo.SlotsKept` | src/bravo.c:63-68 | an occupied slot shows the lock of a reader that published in it |
| `Bravo.BalanceKept` | src/bravo.c:63-134 | the reader count stays at least the slow readers plus the fast readers that no slot shows, although readers of one lock may clear the slot for each other |
| `Bravo.AllShown` | src/bravo.c:170-181 | a lock that counts no readers has no slow reader, and every fast one is shown by its slot |
| `Bravo.NoUnderflow` | src/bravo.c:126-139 | nobody unlocks an underlying lock that counts no reader |
| `Bravo.WritersKept` | src/bravo.c:170-204 | a writer of the underlying lock is alone in it |
| `Bravo.WriterBiasKept` | src/bravo.c:141-181 | the bias stays off from the start of the scan until the writer leaves, since only slow readers set it |
| `Bravo.FastBiasKept` | src/bravo.c:60-66 | a fast holder without bias is one that a scan in progress still has before it and cannot pass |
| `Bravo.RunKeeps` | src/bravo.c:55-204 | the invariants hold all along every run |
| `Bravo.ReachableInv` | src/bravo.c:55-204 | they hold in every reachable state |
| `Bravo.AgreedKept` | src/bravo.c:55-139 | with slots of their own, readers keep the count exact and every published reader shown |
| `BravoCollision.ExclusionExact` | src/bravo.c:55-181 | exclusion holds in every state of every run if and only if no two processes of different locks, of which one has a rival for its lock, share a slot |
| `BravoCollision.CollisionBreaksExclusion` | src/bravo.c:126-139 | for any two processes of different locks that share a slot, and any third one of the first lock, some run from any initial state has a writer and a fast reader inside one lock |
| `BravoCollision.AgreementExact` | src/bravo.c:126-139 | in every state of every run holders find their slots as they acquired if and only if no two processes share a slot |
| `BravoCollision.ScanEnds` | src/bravo.c:153-157 | a scan over an empty table comes to its end |
| `BravoSolo.ReaderRun` | src/bravo.c:55-124 | from any state of the lock, however it goes, a thread that locks for reading with no other at work is after n steps in one exactly described state and has returned after six at most |
| `BravoSolo.TryExact` | src/bravo.c:90-124 | a try ends in the slot if and only if the bias is on and the slot free, fails if and only if it does not and the underlying lock has a writer, and then has changed nothing; else it ends in the underlying lock |
| `BravoSolo.TryReturns` | src/bravo.c:90-124 | from every state a try of an idle thread comes to its end so |
| `BravoSolo.TrySucceeds` | src/bravo.c:90-124 | without a writer in the underlying lock it comes to hold the lock, whatever bias, slots and counts are |
| `BravoSolo.TryStepExact` | src/bravo.c:107-194 | at work with others too: the step on the underlying lock fails if and only if there is a writer, for a write try a writer or a counted reader |
| `BravoSolo.WriterRun` | src/bravo.c:170-196 | the same of a thread that locks for writing: the state after n steps, and a bound on them |
| `BravoSolo.WriteSucceeds` | src/bravo.c:141-196 | whoever wants to write, trying or not, comes to hold a lock that has no writer, no counted reader and no slot, with the bias off |
| `BravoSolo.UnlockRun` | src/bravo.c:126-139 | an unlock clears the thread's slot if anything is in it, else counts down |
| `BravoSolo.ReadRoundTrip` | src/bravo.c:55-139 | lock and unlock leave all but the bias as it was if and only if the thread's slot was free |
| `FileLocks.FileLock.ReadTrylock` | src/bravo.c:90-124 | is such a run of one thread: succeeds on a free lock, through slot or count as it should, and fails without effect under a writer |
| `FileLocks.FileLock.ReadUnlock` | src/bravo.c:126-139 | the unlock of such a reader: clears the slot if anything is in it, else counts down |
| `FileLocks.FileLock.WriteLock` | src/bravo.c:170-181 | a free lock becomes exclusive, with the bias off |
| `FileLocks.FileLock.WriteUnlock` | src/bravo.c:198-204 | and free again, the bias still off |
| `Chunks.ShapeIsFlat` | src/allocator.c:85-137 | a list is the concatenation of its chunks, and the skip list has one node for each |
| `Chunks.ShapePush` | src/allocator.c:85-92 | a push keeps chunks non-empty and each ending at its skip node |
| `Chunks.ShapeGive` | src/allocator.c:118-122 | so does giving a whole chunk |
| `Chunks.FlatPush` | src/allocator.c:90-91 | a push puts its element in front, whether or not it starts a chunk |
| `Chunks.FrontFull` | src/allocator.c:86-111 | the count is a multiple of the unit exactly when the front chunk is full |
| `Chunks.WholeChunks` | src/allocator.c:261-362 | a pool created with a multiple of the unit is all full chunks |
| `Chunks.PushExact` | src/allocator.c:85-92 | all chunks but the growing front one have exactly `unit` elements |
| `Chunks.CollectExact` | src/allocator.c:110-137 | a collector gives away chunks of exactly `unit` elements, stays exact, and never has more than MAX_SKIP_NODES chunks |
| `Chunks.GivesExact` | src/allocator.c:110-112 | a free gives a chunk away if and only if the collector has MAX_SKIP_NODES full ones |
| `Chunks.CollectFlat` | src/allocator.c:110-137 | then exactly one unit of elements leaves, else none, and the new one is in front |
| `Chunks.ExactBound` | src/allocator.c:110-137 | hence it never holds more than MAX_SKIP_NODES * unit elements |
| `Chunks.ExactLength` | src/allocator.c:110-137 | its count is its length |
| `FreeList.FList.Push` | src/slist.h:31-35 | the linked nodes are the new one followed by the old ones |
| `FreeList.FList.Pop` | src/slist.h:42-48 | the first node comes off and the rest stays linked |
| `FreeList.FList.CutSplice` | src/slist.h:54-62 | the list up to the k-th node moves in front of the other list, both stay linked |
| `FreeList.PutGlobal` | src/allocator.c:85-92 | the segmented global list grows by one node, which starts a chunk when the count is a multiple of the unit |
| `FreeList.FillLocalProvider` | src/allocator.c:94-108 | succeeds exactly if there is a chunk; then exactly the front chunk, which is never empty, moves to the provider, the rest stays segmented, and the lists stay apart |
| `FreeList.PutLocalCollector` | src/allocator.c:110-137 | collector and global list change as `Collect` says and both stay segmented on the heap, counts included |
| `FreeList.GiveSegment` | src/allocator.c:116-130 | a whole chunk with its skip node moves between segmented lists |
| `FreeList.CreateGlobalList` | src/allocator.c:236-252 | every object is in the list once, in exact chunks, last one first |
| `FreeList.PopProvider` | src/allocator.h:60-72 | the first object comes off the provider, after a refill when it is empty; says exactly which nodes both lists have then, and that they stay apart; fails only if there is nothing in either |
| `FreeList.PushCollector` | src/allocator.h:74-83 | the freed object is in the collector, which gives a chunk away as `Collect` says |
| `FreeList.PushGlobal` | src/allocator.h:52-58 | the list stays segmented and exact, the object in front |
| `FreeList.ShapeEnds` | src/slist.h:54-62 | skip nodes are distinct nodes of the list |
| `ThreadPools.Take` | src/allocator.h:60-72 | an allocation keeps provider, collector and global list apart and segmented |
| `ThreadPools.Give` | src/allocator.h:74-83 | so does a free |
| `ThreadPools.Serve` | src/allocator.h:60-83 | over any sequence of both the lists stay apart and segmented, and the objects in them and those handed out, in order, are those that the operations say |
| `ThreadPools.CreatedIsInit` | src/allocator.c:236-252 | a list created of whole units of different objects is where every run of `AllocatorSystem` starts |
| `ThreadPools.TakeIsStep` | src/allocator.h:60-72 | a pop of linked nodes is an allocation of `AllocatorSystem`, after a fill if the provider was empty |
| `ThreadPools.GiveIsStep` | src/allocator.c:110-137 | a push of linked nodes is a free of `AllocatorSystem` |
| `AllocatorSystem.Conservation` | src/allocator.c:94-137 | after any run of any threads every object is in exactly one of global list, one provider, one collector, use, and there once; fills hand over exactly one unit; collectors are bounded |
| `AllocatorSystem.NotHandedOutTwice` | src/allocator.h:60-83 | between two allocations of an object there is a free of it |
| `AllocatorSystem.StepKeeps` | src/allocator.h:60-83 | every operation of every thread keeps the conservation invariant |
| `AllocatorSystem.FillConserves` | src/allocator.c:94-108 | a fill loses and doubles nothing |
| `AllocatorSystem.AllocConserves` | src/allocator.h:60-72 | what is allocated was in nobody's use |
| `AllocatorSystem.FreeConserves` | src/allocator.c:110-137 | a free, with or without a chunk given away, loses and doubles nothing |
| `Geometry.TableFillsRegion` | src/radixlog.h:17-21 | entries times log size is 2^21 for every log size |
| `Geometry.AddressOfPlace` | src/radixlog.h:60-64 | region, table index and in-log offset of an offset are in range and name it |
| `Geometry.PlaceOfAddress` | src/radixlog.h:60-64 | and no other offset: the map is a bijection |
| `Geometry.BlockOf` | src/radixlog.h:17-23 | a block is aligned to its size and inside its region |
| `Geometry.SetLogSize` | src/radixlog.c:267-279 | the shifts find `LeastSize` |
| `Geometry.LeastSize` | src/radixlog.c:267-279 | the least size that holds the request from its page start, or the largest |
| `Geometry.OneLeast` | src/radixlog.c:267-279 | there is no other such size |
| `MmioData.FieldsFit` | src/radixlog.h:32-37 | ranges of entries in bounds are not cut off by the 21-bit and 22-bit fields |
| `MmioData.BlockSpan` | src/radixlog.h:60-64 | the offsets of a block are exactly those between its start and end, for a table shared by several regions too |
| `MmioData.CoveredOwns` | src/radixlog.c:178-265 | if what is logged and an offset lie in the coverage, the slot of the offset logs nothing but its own block |
| `MmioData.CopyBackShows` | src/mmio.c:252-257 | copying a log back makes the file show the view in the slot's blocks, and changes nothing outside |
| `MmioData.ResetKeepsView` | src/mmio.c:249-264 | checkpointing an entry before a write does not change the view |
| `MmioData.RetireKeepsView` | src/mmio.c:198-207 | neither does retiring it |
| `MmioData.WrittenFits` | src/mmio.c:305-381 | an entry stays in its block whatever is written |
| `MmioData.WrittenShows` | src/mmio.c:314-381 | each byte of the block shows the new data, the old log or the file, as it should, in all overlap cases |
| `MmioData.WriteOneBounded` | src/mmio.c:301-389 | bounds, policy, epoch and layout of all entries survive a turn of the loop for any request, under both policies |
| `MmioData.WriteOneRefines` | src/mmio.c:301-389 | a REDO write inside a block, whose slot is its own or due for checkpointing, changes the view on the written range to the buffer and nowhere else |
| `MmioData.WriteOneHome` | src/mmio.c:376-381 | writes inside the coverage leave only blocks of the coverage logged |
| `MmioData.RunKeeps` | src/mmio.c:301-389 | the bounds survive the whole loop, multi-block requests included |
| `MmioData.ReadOneRefines` | src/mmio.c:428-538 | a read inside a block whose slot is its own, that does not overrun the log, is the view of the request |
| `MmioData.GrownKeepsView` | src/mmio.c:26-46 | locking a request adds tables and entries and does not change the view |
| `MmioData.ReachesGrown` | src/radixlog.c:281-316 | reaching the block of an offset adds at most a table, a log size and an empty entry, and changes nothing there before |
| `Recovery.OfBlock` | src/radixlog.h:32-37 | of every whole block whose slot is its own, what is recovered is `LogSystem.RecoverBlock` of its bytes, word and log |
| `Recovery.ResetRecovers` | src/mmio.c:249-264 | checkpointing an old entry before a write leaves what is recovered, under both policies |
| `Recovery.RetireRecovers` | src/mmio.c:198-207 | so does retiring it |
| `Recovery.GrownRecovers` | src/mmio.c:26-46 | so does locking, whatever tables and entries it adds |
| `Recovery.LongerRecovers` | src/mmio.c:89-119 | a longer mapping adds zeros to it |
| `Recovery.CommitRecovers` | src/mmio.c:622-634 | the next epoch number alone makes it the current view |
| `Recovery.TurnRight` | src/mmio.c:301-389 | a turn on a block of the coverage leaves everything logged where readers look for it, its entry of the file's epoch |
| `Recovery.RedoTurnRecovers` | src/mmio.c:301-389 | under REDO such a turn leaves what is recovered, in epochs below 2^20 |
| `Recovery.UndoTurnRecovers` | src/mmio.c:301-400 | under UNDO such a turn and the in-place store leave it, if the bytes held their committed values; a store without the turn would not |
| `MmioSpec.Locked` | src/mmio.c:296 | the part of a request that is locked is the whole of it if and only if its length is below 2^31 |
| `Mmio.File.constructor` | src/allocator.c:396-432 | a file is opened with its content in view, recovered and nothing logged; the coverage is what the lowest table for its last offset covers, which includes the file; its tables all have a log size exactly if it is larger than 2 MB |
| `Mmio.File.LockEntries` | src/mmio.c:17-47 | for every offset, length and assignment of log sizes: tables and entries are reached block by block, lowest first, each for what is left of the request (`LockRun`); a call comes past the list exactly if the request does not reach one coverage beyond its first block, and then its blocks are adjacent, ascending, cover the request (as far as its length is an int) with none to spare, and are on the list in reverse |
| `MmioSpec.TableIsFound` | src/radixlog.c:178-265 | in every radix tree with the coverage of the file, the table that the walk from the shortcut finds is the one at the place of the region modulo the coverage, and the one that a full walk finds for that |
| `MmioSpec.NextIsStart` | src/mmio.c:42-45 | where a block ends the next one starts, across tables of different log sizes too |
| `MmioSpec.Wraps` | src/radixlog.c:188-260 | the block one coverage further up has the same slot |
| `MmioSpec.SlotsDiffer` | src/radixlog.h:60-64 | blocks less than one coverage apart have different slots |
| `MmioSpec.OneTile` | src/mmio.c:26-46 | a request inside a block locks that block only |
| `Mmio.File.GetEntry` | src/mmio.c:27-34 | exactly the table, log size and empty entry of the offset's slot are there afterwards, if they were not before |
| `Mmio.File.GetLogSize` | src/radixlog.c:281-297 | a size once chosen stays; a table that had none gets `LeastSize` of the first request reaching it |
| `Mmio.File.GetLogEntry` | src/radixlog.c:299-316 | a new entry logs nothing and has the file's epoch; others are untouched |
| `MmioSpec.LockFits` | src/mmio.c:26-46 | a request lies in one block after locking if and only if it fits into the block that the tables before the call have, or will choose, for its first byte |
| `MmioSpec.RegionFits` | src/radixlog.c:267-297 | so does every request of up to 2 MB that starts a region without a log size, such as a first write |
| `MmioSpec.LockIsLocking` | src/mmio.c:17-47 | whatever `LockRun` reaches are the adjacent blocks from the first one on, not further than one coverage |
| `Mmio.File.Expend` | src/mmio.c:89-119 | ends with the request mapped, doubled as often as it takes and no more; the new part is zero and no table changes |
| `Mmio.File.Write` | src/mmio.c:266-418 | for every request, tables, file, entries, result and number of bytes are what growing, locking, the turns over the list and, under UNDO, the store in place make of them (`WroteAs`); it returns exactly if LOCK_ENTRIES does, with the sum of the turns (`Total`); each entry locked logs something in this epoch (`Stamped`). Told from the state before (`Outcome`): under UNDO any request that returns, under REDO one that fits into a block whose slot is its own or due for checkpointing, replaces exactly its bytes of the view; one that fits into a block of the coverage returns its length and leaves what recovery finds as it was but for the zeros of the growth, under UNDO if its bytes hold their committed values |
| `MmioSpec.WroteMapped` | src/mmio.c:89-119 | growing step by step and then writing is writing into the mapping that the request needs |
| `MmioSpec.WroteOutcome` | src/mmio.c:266-418 | what a caller needs to know of a write follows from its turns |
| `MmioSpec.WroteShows` | src/mmio.c:296-400 | among it what the view is |
| `MmioSpec.WroteEndures` | src/mmio.c:296-400 | and that what was committed endures, at the end of locking, loop and store together |
| `MmioSpec.WroteTurns` | src/mmio.c:301-403 | and what is returned, and the epoch of every entry written |
| `MmioSpec.RunTotal` | src/mmio.c:386-403 | the turns add up to `Total`, each cut to its block and those after it with it |
| `MmioSpec.AlignedReturns` | src/mmio.c:296-312 | a write of blocks of one size from the start of a block on returns its length if and only if it is shorter than a block or a multiple of it |
| `MmioSpec.RunStamps` | src/mmio.c:314-381 | after i turns the first i entries of the list log something in the file's epoch |
| `Mmio.File.WriteBlock` | src/mmio.c:302-382 | the loop body does to file, log and entry what `WriteOne` says, whose view is that of `WriteOneRefines` |
| `Mmio.File.MergeRange` | src/mmio.c:331-381 | the assignments of the six cases give the hull and gap of `Merge`, and `dst` is assigned in the last one only |
| `Mmio.File.WriteEntries` | src/mmio.c:301-389 | the loop is a run of turns in list order, and keeps every entry in bounds |
| `Mmio.File.StoreInPlace` | src/mmio.c:394-400 | under UNDO the store puts exactly the request into the view |
| `Mmio.File.CheckpointEntry` | src/mmio.c:249-264 | refines `ResetEntry`, which keeps the view |
| `MmioSpec.RunRefines` | src/mmio.c:296-389 | for a one-block request on a slot of its own the whole loop writes exactly the request into the view |
| `Mmio.File.Read` | src/mmio.c:543-596 | tables, result and bytes are what locking and, under REDO, the turns over the list make of them (`ReadAs`); view and recovered content are unchanged. Told from the state before (`ReadOutcome`): under UNDO what comes back is the file, hence the view, of the request cut at the file size; under REDO it is the view for requests that fit into a block whose slot is its own and do not overrun the log, the file, and the view, as far as it goes if no block of the request is logged, and as long as the blocks have room in the order of the list, which is all of it if they have one size |
| `MmioSpec.ReadShows` | src/mmio.c:428-538 | for such requests the bytes are those of the view before the call |
| `MmioSpec.ReadAll` | src/mmio.c:543-596 | what a caller needs to know of a read follows from its turns |
| `MmioSpec.RunRoom` | src/mmio.c:428-436 | the turns copy as much as was asked for, or as there is room in the order of the list |
| `MmioSpec.RunUnlogged` | src/mmio.c:428-436 | what they copy from entries that log nothing is the file from the offset on, for any number of blocks |
| `MmioSpec.OneSizeTiles` | src/mmio.c:26-46 | blocks of one size that tile a request are as many as it takes |
| `MmioSpec.OneSizeRoom` | src/mmio.c:428-538 | and have room for all of it in any order |
| `MmioSpec.OneRegionSize` | src/radixlog.c:281-297 | the blocks of a request inside one region have one size |
| `MmioSpec.LargerCut` | src/mmio.c:428-538 | a read of exactly two blocks of which the second is larger is cut to twice the first |
| `Mmio.File.ReadRedolog` | src/mmio.c:420-541 | the loop is a run of block reads in list order |
| `Mmio.File.CopyCases` | src/mmio.c:445-538 | the copies of the six cases, with moving offset, refine `ReadBlock` |
| `MmioSpec.ReadRunOne` | src/mmio.c:428-538 | for a one-block request on a slot of its own the whole loop returns the view |
| `Mmio.File.Checkpoint` | src/mmio.c:173-222 | ends; is defined exactly if a writer has the lock or every table has a log size; under a writer's lock does nothing. Else exactly the entries of earlier epochs in the mapped regions whose locks are granted are gone, all others are as they were, the file differs only where those have logged something under REDO, and view and recovered content are the same (`Checkpointed`) |
| `Mmio.File.CheckpointTable` | src/mmio.c:192-215 | in one table exactly the older entries whose locks are granted go, whatever the others do, each copied back (`RegionAfter`) |
| `Mmio.File.CheckpointSlot` | src/mmio.c:195-210 | an entry of the current epoch or without its lock stays |
| `MmioSpec.SlotDrops` | src/mmio.c:195-210 | a turn adds its entry to those dropped if it is older and granted, and no other; file bytes change in its logged range only |
| `MmioSpec.RegionsGo` | src/mmio.c:185-218 | after n regions exactly the due entries of their tables are gone, and everything seen or recovered is as before |
| `MmioSpec.RegionsCheckpoint` | src/mmio.c:173-222 | hence what is stated of a whole checkpoint |
| `MmioSpec.AllDrained` | src/mmio.c:185-218 | with all locks granted no older entry of the mapped regions is left |
| `Mmio.File.Retire` | src/mmio.c:198-207 | exactly one entry goes, copied back under REDO |
| `MmioSpec.FileIsView` | src/mmio.c:195-207 | with no entry left but those newer than all that were there, the physical file is the view |
| `Mmio.File.Commit` | src/mmio.c:622-648 | only epoch, counters and lock change, because the nested checkpoint cannot lock; from then on recovery finds the view |
| `MmioSpec.Commits` | src/mmio.c:622-634 | the next epoch number keeps all that holds of a state, and makes recovery find the view |
| `Mmio.File.DeterminePolicy` | src/mmio.c:598-620 | changes the counters and nothing of the data |
| `Mmio.File.CommitAndCheckpoint` | src/mmio.c:173-222 | a commit followed by a checkpoint with all locks granted makes the physical file equal the view before and what recovery finds, if every table has a log size |
| `MmioRuns.Perform` | src/mmio.c:266-648 | any sequence of writes, reads, commits and checkpoints is performed to its end or to the first operation that does not come to its end, each doing exactly what it should, turn by turn, to what the one before it left; multi-block requests and offsets beyond the coverage included |
| `MmioRuns.RunShows` | src/mmio.c:266-648 | over any such sequence whose writes the code gets right (under UNDO all that return, under REDO those that fit into one block of the coverage, told from the state before) the file shows what a plain array of bytes would after the same writes |
| `MmioRuns.ReadsLastWritten` | src/mmio.c:543-596 | and each read that the code gets right returns the bytes last written, whatever commits and checkpoints came between |
| `MmioRuns.RunRecovers` | src/mmio.c:173-648 | over any such sequence whose writes fit into one block of the coverage, under UNDO on bytes that hold their committed values, recovery finds at any time, between commits and across checkpoints, what the array held at the last commit; below epoch 2^20 |
| `MmioRuns.PerformedKnown` | src/mmio.c:173-648 | what is known of an operation follows from what it did |
| `MmioSpec.LongerFile` | src/mmio.c:93-114 | growing the mapping keeps the view and extends it by zeros |
| `MultiBlock.WriteExact` | src/mmio.c:296-389 | the REDO write loop is right for all contents if and only if the request lies in one block of the coverage |
| `MultiBlock.ReadExact` | src/mmio.c:428-538 | the REDO read loop is right for all contents that the request does not overrun if and only if the request lies in one block of the coverage |
| `UndoImage.RestoreExact` | src/mmio.c:296-400 | over all states whose logs are right so far and requests on bytes that hold their committed values: putting the logs of the epoch back after loop and in-place store gives the committed content for all contents if and only if the request lies in one block of the coverage and the epoch is below 2^20 |
| `UndoImage.CoveredRestores` | src/mmio.c:301-400 | in one block of the coverage the logs put back the same content after the write as before, wherever they lie |
| `UndoImage.SeveralLost` | src/mmio.c:40 | for every longer request some content of a file with nothing logged is not put back |
| `UndoImage.AliasedLost` | src/radixlog.c:188-260 | for every request in one block beyond the coverage, some content of a file with one rightly logged block is not put back |
| `UndoImage.WideLost` | src/radixlog.h:33 | in an epoch of more than 20 bits nothing that is logged is put back |
| `MultiBlock.FirstByteMissed` | src/mmio.c:40 | on a file with nothing logged, every longer request leaves its first byte unlogged where a reader looks, under both policies |
| `MultiBlock.AliasedFails` | src/radixlog.c:188-260 | beyond the coverage a one-block write is merged into, or replaces, the log of another block |
| `MultiBlock.KeysDiffer` | src/mmio.c:33-40 | the entries of a request that locks to its end are distinct |
| `MultiBlock.MakeRun` | src/mmio.c:301-389 | the write loop never gets stuck, whatever the request |
| `EntryLocks.EntryExclusion` | src/mmio.c:26-56 | in every state of every run whose requests at work never clash, a block used for writing is used by one thread only |
| `EntryLocks.WalksOwnBlocks` | src/mmio.c:301-428 | and each loop over the list goes through the thread's own blocks, downwards |
| `EntryLocks.DeadlockFree` | src/mmio.c:17-56 | in every state of every such run with a thread at work some thread can get ahead |
| `EntryLocks.SomeoneAdvances` | src/mmio.c:17-56 | the one that waits for the highest block can, if all wait |
| `EntryLocks.WaitsAbove` | src/mmio.c:26-46 | a thread waits for a block above all blocks it holds |
| `EntryLocks.AdvanceShrinks` | src/mmio.c:17-56 | every advance takes one of a finite number of steps left |
| `EntryLocks.AllComplete` | src/mmio.c:17-56 | so everything comes to rest in exactly that number of steps, with all locks free |
| `EntryLocks.AdvanceKeeps` | src/mmio.c:26-56 | every step keeps links right and locks counting exactly their users, as long as the requests at work do not clash |
| `EntryLocks.RunKeeps` | src/mmio.c:26-56 | so does every run |
| `EntryClash.ExclusionExact` | src/mmio.c:26-56 | exclusion holds in every state of every run if and only if any two requests share no block or start in the same one |
| `EntryClash.CompletionExact` | src/mmio.c:49-56 | so does that everything can come to rest with all locks free |
| `EntryDeadlock.DeadlockExact` | src/mmio.c:17-56 | for any set of requests: in every state of every run with a thread at work some thread can get ahead, if and only if there are no two clashing requests and a third one on a block between their starts such that the one that starts first or the third one writes |
| `EntryDeadlock.RunSettled` | src/mmio.c:17-56 | without such, clashing requests disturb locks only between their starts, and nobody takes those for writing but checkpointers |
| `EntryDeadlock.HighestGranted` | src/mmio.c:33-35 | then, if all wait, the one that waits for the highest block gets its lock |
| `EntryClash.LostUnlock` | src/mmio.c:49-56 | for any two clashing requests, read or write, a run leaves all threads idle and a block locked for ever |
| `EntryClash.StolenLock` | src/mmio.c:49-56 | for any two clashing requests a run lets a checkpointer lock a block that a thread uses |
| `EntryDeadlock.Deadlock` | src/mmio.c:33-35 | for any such three requests a run leaves a thread waiting while no other is at work |
| `RadixLog.WalkEnds` | src/radixlog.c:178-265 | a walk ends at the leaf table of its region |
| `RadixLog.WalkLow` | src/radixlog.h:60-62 | a walk from level m depends on the region modulo what level m covers |
| `RadixLog.HangTree` | src/radixlog.c:11-18 | hanging a table keeps every table at its place |
| `RadixLog.HangElsewhere` | src/radixlog.c:11-18 | and changes the walk of no other region |
| `RadixLog.DeepestTableType` | src/radixlog.c:37-55 | the lowest level whose table covers all offsets up to the last |
| `RadixLog.Root.constructor` | src/radixlog.c:57-94 | the shortcut covers the file, and is on the full walk of region 0 |
| `RadixLog.Root.SkipWalk` | src/radixlog.c:188-260 | the shortcut finds the table of the region modulo the coverage, hence that of the full walk if and only if the region is covered |
| `RadixLog.Root.FindLogTable` | src/radixlog.c:96-176 | finds what a full walk for the region modulo the coverage finds |
| `RadixLog.Root.GetLogTable` | src/radixlog.c:178-265 | cached or not, returns the table of the walk, the one found before if there was one; it is that of the full walk if and only if the region is covered; no other region's table changes |
| `RadixLog.HangRooted` | src/radixlog.c:11-18 | a table hung under the last one that a walk has come to leaves the tree, the shortcut and the walks of all other regions as they were, and takes the walk one level further |
| `RadixLog.Root.HangAt` | src/radixlog.c:11-18 | one step of the walk: the slot is filled, the shortcut and the cache stay right |

## Left out

- src/file.c: the interception of system calls, descriptors and `lseek`, which is plumbing over libc.
- src/file_hash.c and src/list.h: finding an open file by inode number is easier bookkeeping.
- `mmap`, `mremap`, `posix_fallocate`, directories and log files: the mapping is a byte sequence, its base stable and aligned; failures that end the program are not modelled, nor are copies to addresses outside of the mapping.
- libpmem and pthread: stores, flushes, fences and locks appear by their rules only. Unlocking a lock that nobody holds leaves it free.
- Wall-clock time in BRAVO: re-biasing is a free choice of a slow-path holder. The hash function and the table length are parameters.
- Recovery scanning: which entries a scan of the log files would find, and words left in freed entries, are not part of this model.
- C memory layout: `container_of`, object sizes, and the `malloc` of a pointer's size in `get_fnode`; nodes are typed references.
- Unsynchronised updates: `fsize`, the cached table pair, and an entry between lookup and try-lock are updated one thread at a time; so are the compare-and-swap races of ALLOC_TABLE, get_log_size and get_log_entry.
- Entries retired and reused: in `EntryLocks` a block keeps its entry, so an entry freed by the checkpointer and given to another block while a thread has yet to read its link is not modelled.
- Log memory as such: in `Mmio` every entry has its log as a value; that no log is handed out twice is `AllocatorSystem.NotHandedOutTwice`.
- Global list counts: `fill_local_provider` does not count down (src/allocator.c:94-108), so they are not claimed to be lengths.
- Reuse of a closed file's structure: `Mmio.File` starts at epoch 0, as the first use does.
- `Mmio.File.Write`: REDO requests of several blocks, or on a slot that logs another block in the current epoch, are stated turn by turn only, since the claim on the view fails there (`MultiBlock.WriteExact`); likewise what recovery finds after UNDO requests of several blocks (`UndoImage.RestoreExact`), and requests of 2^31 bytes or more.
- `Mmio.File.Read`: REDO requests of several blocks of which one is logged, or those overrunning the log, are stated turn by turn and by length only, since the claim on the view fails there (`MultiBlock.ReadExact`, `BlockLog.ReadExact`).
- `Mmio.File.Checkpoint`: nothing is stated of the effects after a shift by a negative number.
- `RedoCrash.CrashAtomicity`: for single-block requests in the coverage of the radix shortcut, epochs below 2^20 (`RedoExact.EpochExact`), and reads that do not overrun a log, for the reasons above.
- `UndoCrash.CrashAtomicity`: for single-block requests in the coverage, epochs below 2^20 (`UndoExact.EpochExact`); also needs issue-order durability, whole-word entry updates and no write on altered bytes, each shown necessary.
- `AllocatorSystem.Conservation`: fills with an empty global list, which end the program, are not steps.
- `FileLocks.FileLock.ReadTrylock`: one thread's meeting with the lock; what several threads do is in `Bravo`.
- `RadixLog.Root.GetLogTable`: one thread at a time.
- `EntryClash.ExclusionExact` and the other theorems on entry locks: without the retired entries named above, so a reader of several blocks may fail also where they say that none does.
