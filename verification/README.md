# Verified models of an xv6 and FAT32 operating-system course

The repository holds two copies of the teaching kernel xv6-riscv (one with semaphores, one with a
multi-level feedback scheduler), a FAT32 file-system driver and user programs. This project states
what their core code guarantees, as Dafny classes, state machines and lemmas, and proves it. The
command `dafny verify dfyconfig.toml` checks everything.

## What is modelled

**The storage stack of xv6.** `BufferCache` and `CacheInvariant` describe the buffer cache, `ReleaseOrder`
says what its list means in terms of the calls made, `LogMachine` and `LogSteps` put it together with the
redo log and the disk: any interleaving of processes that get, lock, fill, edit, log and release buffers,
the committing process one block write at a time, power failures between any two block writes, and
recovery. `LogSafety` and `CommitSafety` prove the invariant step by step; `StorageTheorems` concludes
that the whole behaves as a plain map from blocks to contents, part of which survives a crash, and that
transactions are atomic; `LogQuota` follows one operation's allowance through a run, `CommitRuns` and
`BufferSupply` show when a commit has buffers enough to finish, and `LogReach` builds the runs from
power-on that fill the log. `Bio` (the doubly linked list in place) and `RedoLog` (commit and recovery in
place) show that the code takes the machine's steps.

**Files on top of it.** `FileState`, `FileContent` and `Truncation` give files a meaning as byte arrays
over that plain map, with a ghost map that says who holds each block. `FileSystem` is the code of fs.c and
filewrite in place. Its contracts say what a call does to file contents, to block ownership and to the
log: the block writes that log_write lists, replayed (`Journal`), give the new disk, with at most ten
blocks in a transaction and only the last `log_write` able to be the tenth. `FileSpace` counts the blocks
a write needs; `WriteBound` and `CrowdedDisk` show that ten is reached. `WriteRuns` joins the two halves:
a call of filewrite carried out on the storage machine never makes `log_write` panic (on a large enough
log), and wherever the power fails, the disk that `DiskInodes` reads after recovery has the file written
with a whole number of chunks and the others as they were, also while other processes edit files of their
own (`WriteCrashes`). `FaultedCopy` says what is committed of a copy that fails in mid-block.

**The FAT driver.** `FatChains`, `FatBytes` and `FatFilling` describe chains of clusters and the bytes they
spell, `FatSpace` counts the clusters a write needs and those that are free; `FatVolume` is the driver's
code over the table array, with one ghost chain a file.

**User-space allocation.** `FreeList` is the heap of the K&R allocator with its invariant (one
address-ordered cycle, no two adjacent free blocks, blocks that cover exactly what sbrk gave);
`Umalloc` is the code (section 8.7 of The C Programming Language, 2nd edition).

**Virtual memory.** `PageTables` reads a three-level Sv39 tree (section 4.4 of the RISC-V Privileged
Architecture) as a map from pages to entries; `VirtualMemory`, `UserMemory` and `TableTeardown` are the
code that edits it, with the free page list.

**Concurrency and scheduling.** `Semaphores` interleaves sem_down and sem_up, including every step of sleep,
wakeup and kill; `Scheduler` cuts the never-ending scheduler loop into turns; `Pipe` is the ring buffer
with its wrapping counters.

**Programs.** `Grep` (the regular-expression matcher against a declarative meaning), `Rand` (Schrage's
method), and `ShellParser`, `ShellRoundTrip` and `ShellProgram` (the shell's parser as functions, what
it makes of a line as it is written, and the program over its buffer).

Code that works in place is modelled in place; each method's contract ties its new state to a function
of the old one, and lemmas say what that function means.

## Results that differ from the plain expectation

- `log_write` also panics at `log.size - 1`, and mkfs makes a log of `LOGSIZE` blocks, so the log is one
  block too small for what `begin_op` admits: with its last reserved block an operation can meet the panic
  (`LogReach.PanicsAtCall`), with two or more it cannot (`LogReach.ReservedPanicIff`, for every size of
  log). The panic also strikes for a block that is in the list already
  (`StorageTheorems.LogWritePanicsIff`). With one block more the cache is too small: it has as many buffers
  as the log may list blocks, and a commit of that many cannot read its first log slot
  (`BufferSupply.CommitStopsIff`, `LogReach.FullCommit`).
- `writei` whose copy from the user faults in the middle of a block returns without a log_write of that
  block, with the bytes copied before the fault in the cache. They are committed all the same if the block
  is on the list by then, because the call allocated it or an operation before had listed it; otherwise
  they are seen until the buffer is recycled and then gone. `FaultedCopy.Chunk` gives the exact condition
  on the call, `FaultWitness.Loses` and `FaultWitness.Keeps` one call of each kind.
- Three calls of the FAT driver read the table outside its bounds, each exactly in this case:
  `fat_file_truncate` to the size of a file that fills its last cluster (`FatVolume.FatVolume.Truncate`),
  `fat_file_init` on a full volume (`FatVolume.FatVolume.Create`), and `fat_file_pwrite` that needs more
  clusters than are free while no table entry past the data clusters looks free
  (`FatVolume.FatVolume.Pwrite`).
- The size field of a FAT file loses bytes exactly when a write ends at or past 4 GiB
  (`FatVolume.WriteWraps`).
- `malloc` passes its size through sbrk's int argument intact exactly up to 0x7FFFFFE0 bytes
  (`Umalloc.SbrkArgument`).
- A process that sleeps at priority 0 is moved to priority 1 (`Scheduler.SleepersRise`), against the rule
  that sleeping raises the priority.
- `sem_open` on a semaphore on which somebody sleeps can leave a sleeper behind
  (`Semaphores.ReopenedIff` gives the exact condition, `Semaphores.SleeperReached` a run to it).

## Model

| member | source | states |
|---|---|---|
| StorageTheorems.StepRefines | LAB2/xv6-riscv/kernel/log.c:67-235 | every step of every process, of commit, of recovery and every power failure keeps the invariant and acts on a plain map of blocks as that step should: a modification writes one block, the header write of a commit makes everything durable, a failure falls back to what is durable, everything else changes nothing |
| StorageTheorems.RunRefines | LAB2/xv6-riscv/kernel/log.c:67-235 | the same for whole runs, whatever the interleaving, the evictions and the crashes |
| StorageTheorems.CrashAtomicity | LAB2/xv6-riscv/kernel/log.c:67-203 | from any state, with commit, power failures and recovery in any order between any two block writes: once the log is idle again, every home block on disk holds the contents from before the commit, or every one holds the transaction's; the latter exactly if the header write came before the first failure |
| StorageTheorems.ReadsLatest | LAB2/xv6-riscv/kernel/bio.c:92-103 | in every run, a buffer that bread has filled holds the contents of the last write or, after a crash, of the last commit |
| StorageTheorems.PowerOnInv | LAB2/xv6-riscv/kernel/log.c:54-65 | over any disk with a well-formed log header, the machine starts in a state that satisfies the invariant, with what a replay of the log would give as its durable contents |
| StorageTheorems.LogDiscipline | LAB2/xv6-riscv/kernel/log.c:125-175 | in every reachable state the logged blocks and the unused allowances of the running operations fit in LOGSIZE, logged blocks are distinct, and a commit or recovery runs only while no operation does and no buffer is half edited |
| StorageTheorems.LoggedStaysCached | LAB2/xv6-riscv/kernel/log.c:214-235 | a logged block stays valid in the cache until it is installed; looking up any other block leaves its buffer alone |
| StorageTheorems.LogWritePanicsIff | LAB2/xv6-riscv/kernel/log.c:219-223 | for every log size: log_write panics for a running operation exactly when the list has LOGSIZE blocks or, on a smaller log, one fewer than log.size; all running operations together then have no more blocks reserved than the log lacks (Slack: none from LOGSIZE + 1 blocks on, one with mkfs's log) |
| StorageTheorems.LogWriteSafe | LAB2/xv6-riscv/kernel/log.c:214-235 | so it never panics for an operation with more reserved blocks left than the log lacks: with mkfs's log, with two or more |
| StorageTheorems.BeginsIff | LAB2/xv6-riscv/kernel/log.c:126-142 | begin_op admits an operation exactly if no commit or recovery is under way and the list and the whole allowances of all running operations, the new one included, fit in LOGSIZE; it changes nothing else |
| StorageTheorems.EndedIsDurable | LAB2/xv6-riscv/kernel/log.c:146-175 | in any run from power-on, whenever the machine is idle and no operation runs, the list is empty and everything that readers see would survive a power failure |
| LogReach.ReservedPanicIff | LAB2/xv6-riscv/mkfs/mkfs.c:25 | for every log, by runs from power-on over a disk with an empty log: an operation that still has u blocks reserved can find log_write panicking exactly if the log lacks u or more; with u = 1, exactly if log.size <= LOGSIZE, as mkfs makes it |
| LogReach.PanicsAtCall | LAB2/xv6-riscv/kernel/log.c:214-235 | for every log of at most LOGSIZE blocks there is a run to the call itself: an admitted operation holds a buffer with a new block, has some of its allowance left, and log_write panics |
| LogReach.FullCommit | LAB2/xv6-riscv/kernel/log.c:193-203 | on a log with room for LOGSIZE blocks there is a run from power-on to a commit of NBUF blocks, with no buffer held by any process, that finds no buffer for its first log slot |
| LogQuota.QuotaSuffices | LAB2/xv6-riscv/kernel/log.c:125-142 | over whole runs: an operation that has passed fewer than MAXOPBLOCKS distinct blocks to log_write since its begin_op - on a small log, so many fewer as the log lacks - can log another one without a panic and within its reservation, whatever other processes did |
| LogQuota.RunCharges | LAB2/xv6-riscv/kernel/log.c:214-235 | over whole runs: what a running operation is charged for is at most the distinct blocks it logged, and all of them are still in the log |
| BufferSupply.CommitStopsIff | LAB2/xv6-riscv/kernel/log.c:178-203 | a commit of NBUF blocks always runs into the panic for want of a buffer; one of fewer goes through as long as no buffer is locked and other processes hold no more than those left over; so an undisturbed commit stops exactly if NBUF blocks are logged |
| BufferSupply.SmallLogSuffices | LAB2/xv6-riscv/kernel/param.h:9-11 | with the log that mkfs makes no undisturbed commit runs out of buffers, and no recovery ever does, even while all buffers but two are held |
| BufferSupply.SupplySuffices | LAB2/xv6-riscv/kernel/log.c:67-203 | while held and pinned blocks and the one that the step needs are fewer than NBUF and no buffer is locked, a commit or recovery can take every step to its end |
| BufferSupply.BreadGoes | LAB2/xv6-riscv/kernel/bio.c:58-89 | bget finds a buffer whenever held and pinned ones are fewer than NBUF |
| CommitRuns.FirstGet | LAB2/xv6-riscv/kernel/bio.c:58-89 | bget has to wait exactly if the block is cached and locked: a buffer that it recycles is locked by nobody |
| CommitRuns.SecondGet | LAB2/xv6-riscv/kernel/bio.c:92-103 | one bread does not change whether the bread of another block has to wait |
| StorageTheorems.BlankLogBoots | LAB2/xv6-riscv/kernel/log.c:54-65 | a disk with an empty log can be booted from, and what its home blocks hold is what is durable |
| LogMachine.HeadRoundTrip | LAB2/xv6-riscv/kernel/log.c:86-114 | what write_head stores in the header block, read_head finds: count and block numbers |
| LogMachine.HeadLayout | LAB2/xv6-riscv/kernel/log.c:35-48 | the header block has the count in its first word and the block numbers in those after it, its other words are kept, and the slots follow it one by one |
| LogMachine.CopyToLogKeeps | LAB2/xv6-riscv/kernel/log.c:183-189 | one iteration of write_log puts the current contents of a logged block into its slot and changes no other view |
| LogMachine.CopyHomeKeeps | LAB2/xv6-riscv/kernel/log.c:73-82 | one iteration of install_trans puts a slot into its home block, whose buffer is clean and unpinned afterwards |
| LogMachine.StoreHeadKeeps | LAB2/xv6-riscv/kernel/log.c:102-114 | write_head stores the list in the header block and touches no other block or buffer contents |
| LogSafety.GetStep | LAB2/xv6-riscv/kernel/bio.c:58-89 | bget by any process at any time keeps the invariant and what every reader sees |
| LogSafety.FillStep | LAB2/xv6-riscv/kernel/bio.c:92-103 | after bread the holder of the lock has the current contents |
| LogSafety.ModifyStep | LAB2/xv6-riscv/kernel/log.c:205-213 | editing a locked buffer inside an operation changes what readers see of that block alone |
| LogSafety.LogWriteStep | LAB2/xv6-riscv/kernel/log.c:214-235 | log_write records and pins a new block, absorbs a known one, and keeps reservation, distinctness and all views |
| LogSafety.BeginStep | LAB2/xv6-riscv/kernel/log.c:126-142 | an operation is admitted only while its full allowance fits |
| LogSafety.EndStep | LAB2/xv6-riscv/kernel/log.c:146-175 | the end of an operation returns its allowance; the last one starts a commit that then holds only whole operations |
| LogSafety.ReleaseStep | LAB2/xv6-riscv/kernel/bio.c:116-137 | brelse of a buffer that was logged or not edited loses nothing |
| CommitSafety.WriteLogStep | LAB2/xv6-riscv/kernel/log.c:178-191 | copying a block into the log changes nothing durable |
| CommitSafety.WriteHeadStep | LAB2/xv6-riscv/kernel/log.c:102-114 | the header write makes exactly the current contents of all home blocks durable |
| CommitSafety.InstallStep | LAB2/xv6-riscv/kernel/log.c:67-83 | installing a block, possibly again after a crash, changes neither what is durable nor what readers see |
| CommitSafety.EraseStep | LAB2/xv6-riscv/kernel/log.c:193-203 | erasing the header after all blocks are at home loses nothing |
| CommitSafety.ReadLogStep | LAB2/xv6-riscv/kernel/log.c:86-97 | read_head at boot finds the list that a replay needs |
| CommitSafety.ReinstallStep | LAB2/xv6-riscv/kernel/log.c:67-83 | replaying one block at boot changes nothing durable, however often it is interrupted |
| CommitSafety.ClearStep | LAB2/xv6-riscv/kernel/log.c:116-123 | at the end of recovery every home block reads as last committed |
| CommitSafety.CrashStep | LAB2/xv6-riscv/kernel/log.c:116-123 | a power failure in any reachable state leads to a state that satisfies the invariant with the same durable contents |
| BufferCache.BGetUnique | LAB2/xv6-riscv/kernel/bio.c:58-89 | bget never makes a second buffer for a block |
| BufferCache.BootLabelsRepeat | LAB2/xv6-riscv/kernel/bio.c:36-53 | the exception: after binit every buffer has the label (0,0) |
| BufferCache.FindIs | LAB2/xv6-riscv/kernel/bio.c:63-73 | for dev != 0 the search finds the one buffer of a block, wherever it is in the list |
| BufferCache.FindFreeOldest | LAB2/xv6-riscv/kernel/bio.c:77-87 | the buffer that is recycled is, of those without references, the last in list order, which ReleaseOrder.ListInOrder says is the least recently released |
| BufferCache.BRelseWellFormed | LAB2/xv6-riscv/kernel/bio.c:116-137 | brelse keeps the list a permutation of the NBUF buffers |
| BufferCache.MoveToFront | LAB2/xv6-riscv/kernel/bio.c:126-133 | moving a buffer to the front of the list gives a permutation again |
| BufferCache.RelseUnlocks | LAB2/xv6-riscv/kernel/bio.c:116-137 | after brelse the lock is free and one reference is gone; block, data and every other buffer are as before |
| ReleaseOrder.ListInOrder | LAB2/xv6-riscv/kernel/bio.c:58-151 | after any calls of bget, brelse, bpin and bunpin from binit on, of any processes: the list is in the order of the last releases that left no reference, latest first, both counted off the calls, and the buffers never released come behind them as binit linked them |
| ReleaseOrder.RecyclesOldest | LAB2/xv6-riscv/kernel/bio.c:58-89 | so bget for a block that is not cached recycles, of all unreferenced buffers, the one whose last release is the oldest, and panics exactly if every buffer is referenced |
| CacheInvariant.BreadKeeps | LAB2/xv6-riscv/kernel/bio.c:92-103 | bread returns the current contents and keeps the cache invariant and every view; it may recycle a buffer only if nothing unwritten is in it |
| CacheInvariant.FlushKeeps | LAB2/xv6-riscv/kernel/bio.c:106-112 | bwrite puts on disk what every reader already saw |
| CacheInvariant.PinKeeps | LAB2/xv6-riscv/kernel/bio.c:139-144 | a pinned block counts one reference more than its holders |
| CacheInvariant.UnpinKeeps | LAB2/xv6-riscv/kernel/bio.c:146-151 | a block that is on disk can be unpinned without being lost |
| CacheInvariant.RelseKeeps | LAB2/xv6-riscv/kernel/bio.c:116-137 | releasing a buffer changes no view provided unwritten contents are pinned |
| Bio.LinkFront | LAB2/xv6-riscv/kernel/bio.c:129-132 | the four pointer stores insert a buffer after the head of the doubly linked list |
| Bio.Unlink | LAB2/xv6-riscv/kernel/bio.c:127-128 | the two pointer stores take a buffer out of the doubly linked list |
| Bio.Bcache.constructor | LAB2/xv6-riscv/kernel/bio.c:36-53 | binit links all buffers into one ring, last one first |
| Bio.Bcache.FindCached | LAB2/xv6-riscv/kernel/bio.c:63-73 | bget's walk along next finds the cached buffer of the block |
| Bio.Bcache.FindUnused | LAB2/xv6-riscv/kernel/bio.c:77-87 | bget's walk along prev finds the least recently used buffer without references |
| Bio.Bcache.Bget | LAB2/xv6-riscv/kernel/bio.c:58-89 | the cached buffer with one reference more, else the least recently used unreferenced one relabelled and invalid, else the panic; locked for the caller, or still only referenced while somebody else has the lock |
| Bio.Bcache.BreadBlock | LAB2/xv6-riscv/kernel/bio.c:92-103 | bget and, with the lock, a disk read unless the buffer is valid; nothing more while another process has the lock |
| Bio.Bcache.Bwrite | LAB2/xv6-riscv/kernel/bio.c:106-112 | the buffer's block on disk becomes the buffer's data and no other block changes; panics exactly for a caller without the lock |
| Bio.Bcache.Brelse | LAB2/xv6-riscv/kernel/bio.c:116-137 | unlock, drop a reference, and relink a buffer left without references in front of all others; the lock is free then, block and data are kept, the other buffers too, and the pointers still form the ring; panics exactly for a caller without the lock |
| Bio.Bcache.Bpin | LAB2/xv6-riscv/kernel/bio.c:139-144 | one reference more, nothing else |
| Bio.Bcache.Bunpin | LAB2/xv6-riscv/kernel/bio.c:146-151 | one reference less, nothing else |
| RedoLog.Log.constructor | LAB2/xv6-riscv/kernel/log.c:54-65 | initlog before recovery is the power-on state of the machine |
| RedoLog.Log.WriteHeader | LAB2/xv6-riscv/kernel/log.c:102-114 | write_head in place is the machine's header write |
| RedoLog.Log.WriteLogBlocks | LAB2/xv6-riscv/kernel/log.c:178-191 | write_log in place is a run of as many machine steps as there are logged blocks, and one to leave the loop; it stops early only where the machine's step waits for a lock or has no buffer |
| RedoLog.Log.InstallTrans | LAB2/xv6-riscv/kernel/log.c:67-83 | install_trans of a commit in place is a run of machine steps, one a block; it stops early only where the machine does |
| RedoLog.Log.Commit | LAB2/xv6-riscv/kernel/log.c:193-203 | commit() in place is a run of the machine from the first log write to the erased header; it stops early only where the machine's step waits for a lock or has no buffer |
| RedoLog.Log.ReadHeader | LAB2/xv6-riscv/kernel/log.c:86-97 | read_head in place is the machine's step; the array gets the list of the disk |
| RedoLog.Log.RecoverFromLog | LAB2/xv6-riscv/kernel/log.c:116-123 | recovery in place is a run of the machine after which every home block on disk is the committed one; it stops early only where the machine does |
| RedoLog.Log.LogWriteBlock | LAB2/xv6-riscv/kernel/log.c:214-235 | log_write in place panics exactly where LogWritePanics says and else records and pins a new block or absorbs a known one, within the reservation or past it; where the operation has allowance left, that is the machine's step |
| RedoLog.Log.TryBeginOp | LAB2/xv6-riscv/kernel/log.c:126-142 | one pass of begin_op goes through exactly when the machine admits the operation, and otherwise changes nothing |
| RedoLog.Log.CommitAndFinish | LAB2/xv6-riscv/kernel/log.c:164-174 | the second half of end_op is a run of the machine to the idle state; it stops early only where the machine does |
| RedoLog.Log.EndOperation | LAB2/xv6-riscv/kernel/log.c:146-175 | end_op in place is the machine's step and, for the last operation, a run through the whole commit, after which the list is empty |
| Blocks.WordOfSetWords | LAB2/xv6-riscv/kernel/fs.c:407-415 | 32-bit words stored in a block read back; all others are kept |
| Bitmap.BitLaws | LAB2/xv6-riscv/kernel/fs.c:73-76 | setting or clearing a bit with a mask changes that bit of the byte alone |
| Bitmap.BlockBits | LAB2/xv6-riscv/kernel/fs.c:91-105 | setting or clearing one bit of a map block changes that bit alone |
| FileState.AllocateOwned | LAB2/xv6-riscv/kernel/fs.c:65-88 | a newly allocated block was held by nobody, and marking and zeroing it moves nobody's block |
| FileState.AttachOwned | LAB2/xv6-riscv/kernel/fs.c:387-393 | a fresh block stored in an inode is held exactly once |
| FileState.EntryOwned | LAB2/xv6-riscv/kernel/fs.c:407-415 | a fresh block stored in the indirect block is held exactly once |
| FileState.StoreOwned | LAB2/xv6-riscv/kernel/fs.c:505-539 | a store into a data block or an inode block moves no block and changes no bit |
| FileState.FreeOwned | LAB2/xv6-riscv/kernel/fs.c:91-105 | a held block is marked used, so bfree of it does not panic; afterwards only its own slot is stale |
| FileState.ClearOwned | LAB2/xv6-riscv/kernel/fs.c:425-453 | clearing a stale slot, with the indirect block's slot all its entries, restores ownership |
| FileState.UpdateSyncs | LAB2/xv6-riscv/kernel/fs.c:225-241 | writing an inode to its place in its block makes the disk copy read back as the inode and moves none of the other fifteen |
| FileState.SameContent | LAB2/xv6-riscv/kernel/fs.c:467-496 | a file whose blocks are kept reads the same |
| FileState.Layout | LAB2/xv6-riscv/kernel/fs.c:382-421 | where things are on disk: twelve block numbers in the inode and the others as words of the indirect block, lowest byte first; sixteen inodes and 8192 map bits to a block |
| FileState.InodeLayout | LAB2/xv6-riscv/kernel/fs.h:32-39 | the words of an inode on disk are its type, links, size and thirteen block numbers, in this order |
| FileContent.SpliceStored | LAB2/xv6-riscv/kernel/fs.c:519-528 | one round of writei's loop, inside one block, extends the splice by its bytes |
| FileContent.WriteEnds | LAB2/xv6-riscv/kernel/fs.c:530-538 | at the end of writei the file is the splice, every other file reads as before, and ownership holds |
| FileContent.ChunkTouches | LAB2/xv6-riscv/kernel/file.c:148-160 | a chunk of filewrite touches three blocks if aligned and at most four if not |
| ByteArrays.SpliceTwice | LAB2/xv6-riscv/kernel/file.c:148-175 | two adjoining writes are one |
| Truncation.FreedExactly | LAB2/xv6-riscv/kernel/fs.c:425-453 | once the inode holds nothing, exactly its blocks have been freed |
| FileSystem.EmptySound | LAB2/xv6-riscv/mkfs/mkfs.c:235-249 | a file system of empty inodes whose map marks the metadata is sound |
| FileSystem.FileSystem.Balloc | LAB2/xv6-riscv/kernel/fs.c:65-88 | the lowest free block, marked and zeroed, with both writes logged; 0 exactly when every block is in use |
| FileSystem.FileSystem.Bfree | LAB2/xv6-riscv/kernel/fs.c:91-105 | clears the bit and logs the map block; panics exactly on a free block |
| FileSystem.FileSystem.Bmap | LAB2/xv6-riscv/kernel/fs.c:382-421 | the block of a file position: found without any change, or allocated, zeroed and attached; only the slot asked for and the indirect block's may be filled, every block stays held exactly once, all changes are logged, and 0 is returned only when the disk is full |
| FileSystem.FileSystem.Iupdate | LAB2/xv6-riscv/kernel/fs.c:225-241 | the inode's sixteen words in its block, logged |
| FileSystem.FileSystem.Readi | LAB2/xv6-riscv/kernel/fs.c:471-496 | exactly the bytes off .. min(off + n, size) of the file, nothing past the end or for a wrapping range, and no change to the file system; where the destination can be written only in part, exactly that part is delivered and the result is -1 |
| FileSystem.FileSystem.Writei | LAB2/xv6-riscv/kernel/fs.c:505-539 | the file becomes its old bytes with the first r of the source spliced in at off, no other file changes, type and links of its inode and all of every other inode are kept, no block moves, -1 exactly on the source's conditions; r counts whole rounds and is short exactly because no block is free or a copy from the user faults, and in the latter case the bytes that could be read lie in the next block as well; only slots on the way to the range are filled; the blocks listed are map blocks, the indirect block, new blocks, those of the rounds written and, last, the inode's, and their number is bounded by the blocks touched |
| FileSystem.StraySound | LAB2/xv6-riscv/kernel/fs.c:519-528 | the bytes that a faulting copy leaves keep the file system consistent: no other file changes, and of this one only bytes below its size |
| FaultedCopy.LostIff | LAB2/xv6-riscv/kernel/log.c:178-191 | what a commit then writes, the listed blocks as the cache has them by that time, is what readers see, unless the copy faulted after a part of a round, in a block that the file had before and that was not on the list, and the bytes copied differ from the old ones; in that case it is the file system without them |
| FaultedCopy.Chunk | LAB2/xv6-riscv/kernel/fs.c:519-528 | the same for every call of one transaction, whatever the list held before, by a condition on the call's inputs: sizes, free blocks, readable bytes, list and old bytes; a call that meets it does fault there, and the bytes it copied are seen in the block |
| FaultWitness.Loses | LAB2/xv6-riscv/kernel/fs.c:519-528 | on a concrete disk a call over a block that the file has leaves a byte that readers see and the commit does not write |
| FaultWitness.Keeps | LAB2/xv6-riscv/kernel/fs.c:519-528 | on the same disk a call into a new block leaves a byte that the commit does write |
| FileSystem.FileSystem.Itrunc | LAB2/xv6-riscv/kernel/fs.c:425-453 | exactly the blocks of the inode are freed, bfree never meets a free bit, every changed block is logged; type and links of the inode stay, as do every other inode and file |
| FileSystem.FileSystem.Transaction | LAB2/xv6-riscv/kernel/file.c:155-165 | one transaction of filewrite: what it logs, replayed, turns the old disk into the new one; at most MAXOPBLOCKS distinct blocks, the inode's last, and fewer than MAXOPBLOCKS before every single log_write; type and links of the inode and all other inodes are kept, in memory and on disk |
| FileSystem.FileSystem.Filewrite | LAB2/xv6-riscv/kernel/file.c:134-181 | a write of any length at any offset splices its written part into the file and changes no other, keeps the type and links of its inode and all other inodes, advances the offset by it and returns n exactly if all was written; inside the size limits and with a readable source, that is exactly if the blocks missing on the way are no more than the free ones; every other reason to stop is named; the transactions are at most one for each CHUNK bytes begun, and each starts from the disk the one before left and ends at a consistent file system with CHUNK bytes more |
| FileSpace.AllThere | LAB2/xv6-riscv/kernel/fs.c:382-421 | slots that were filled took different blocks that were free |
| FileSpace.OneEmpty | LAB2/xv6-riscv/kernel/fs.c:382-421 | with no block free and one slot still empty, the blocks needed were more than the free ones |
| FileSystem.WholeIff | LAB2/xv6-riscv/kernel/file.c:148-175 | a write is complete exactly if the blocks missing on the way to its bytes are no more than the free ones |
| WriteRuns.RunReaches | LAB2/xv6-riscv/kernel/file.c:148-175 | over every run of the cache-and-log machine in which one process carries out the block writes of a filewrite call while others run operations of their own that leave a given part of the disk alone: in that part readers always get the disk after the transactions ended and the writes made of the next, and what a power failure would leave is the disk between two transactions |
| WriteRuns.NoPanic | LAB2/xv6-riscv/kernel/file.c:148-160 | in such a run no log_write of the call panics or goes over the reservation on a log of more than LOGSIZE blocks, and on a smaller one as long as the blocks it has logged and those the log lacks are together fewer than MAXOPBLOCKS |
| WriteCrashes.CrashedWrite | LAB2/xv6-riscv/kernel/file.c:148-175 | crash consistency of filewrite, from system call to disk, while nobody else edits: let the power fail anywhere in such a run and let the machine fail, boot and recover as often as it likes; the disk then holds a consistent file system in which the file has its old bytes with the first c * CHUNK bytes of the source (or all that were written) over them, its inode has the type and links it had, and every other file and inode is as before the call; c is the number of transactions ended once nothing is left to commit |
| WriteCrashes.CrashedAmongOthers | LAB2/xv6-riscv/kernel/file.c:148-175 | the same while other processes edit other files in operations that the log groups with those of the call, also in shared map and inode blocks: of any set of files whose own bytes they leave alone, the one written has a whole number of chunks after the recovery and the others are as before the call, all with the type and links they had |
| WriteCrashes.FromPowerOn | LAB2/xv6-riscv/kernel/log.c:54-65 | such a run can start at power-on over the disk of any file system whose log is empty |
| DiskInodes.LoadSame | LAB2/xv6-riscv/kernel/fs.c:293-317 | what ilock reads from a disk with the same blocks past the log is the same consistent file system, with every file's bytes |
| WriteBound.TenLogged | LAB2/xv6-riscv/kernel/file.c:148-160 | the bound is tight: an unaligned chunk that starts in the last direct block and finds its free blocks in different map blocks logs ten blocks |
| WriteBound.ReachTen | LAB2/xv6-riscv/kernel/file.c:148-165 | every such transaction is complete and logs exactly MAXOPBLOCKS blocks |
| CrowdedDisk.WorstCase | LAB2/xv6-riscv/kernel/file.c:148-160 | such a sound file system exists, given block by block |
| FatChains.AppendKeeps | LAB4/main/esqueleto/fat_file.c:511-527 | linking a free cluster after the last one of a chain keeps all chains acyclic, disjoint and complete |
| FatChains.NewChainKeeps | LAB4/main/esqueleto/fat_file.c:216-232 | a free cluster marked as an end is a chain of its own |
| FatChains.CutKeeps | LAB4/main/esqueleto/fat_file.c:468-504 | cutting a chain keeps all chains, frees exactly the clusters cut off, puts an end mark behind the part kept and leaves the entries of all other clusters alone |
| FatBytes.ClustersApart | LAB4/main/esqueleto/fat_table.c:69-72 | bytes of different clusters, and different bytes of one, are at different places of the volume |
| FatBytes.ByteIsAt | LAB4/main/esqueleto/fat_file.c:426-466 | byte i of a file is byte i mod the cluster size of cluster i div that size of its chain |
| FatVolume.CutPoint | LAB4/main/esqueleto/fat_file.c:468-482 | truncation looks past the chain exactly when offset, size and capacity coincide |
| FatVolume.WriteWraps | LAB4/main/esqueleto/fat_file.c:570-575 | the 32-bit size field keeps the whole of a write exactly when it ends below 4 GiB |
| FatVolume.FatVolume.SeekCluster | LAB4/main/esqueleto/fat_table.c:94-106 | the cluster of an offset, the end mark just past the chain, EOVERFLOW further on |
| FatVolume.FatVolume.GetNextFree | LAB4/main/esqueleto/fat_table.c:51-67 | the lowest free cluster; the scan leaves the table exactly when no entry is free, and gives the end mark only if no data cluster is |
| FatVolume.FatVolume.NextOrNew | LAB4/main/esqueleto/fat_file.c:511-527 | the next cluster of the chain without any change, or else the lowest free one linked to its end and given an end mark, no other entry changing; without a free cluster nothing changes, and the scan leaves the table or gives EIO as no entry past the data clusters looks free or one does |
| FatVolume.FatVolume.Create | LAB4/main/esqueleto/fat_file.c:206-235 | a new file gets the lowest free cluster as a chain of its own, with an end mark; the code reads outside the table exactly when no data cluster is free |
| FatWitness.ReadsOutside | LAB4/main/esqueleto/fat_file.c:206-235 | all three reads outside the table happen on a volume of one cluster: writing past the first file, creating a second one, and truncating the first to its full size |
| FatVolume.FatVolume.Pread | LAB4/main/esqueleto/fat_file.c:426-466 | exactly the requested slice of the file, as far as it goes; EOVERFLOW past its end |
| FatVolume.FatVolume.FindStart | LAB4/main/esqueleto/fat_file.c:541-554 | the cluster of the offset, a new one only if the file ends there with a full last cluster; it fails exactly if that one is needed and none is free |
| FatVolume.FatVolume.Pwrite | LAB4/main/esqueleto/fat_file.c:529-588 | the chain grows by exactly the clusters needed, or by all free ones if those are fewer, and then ends with an end mark; as many bytes as it then holds are spliced into the file, no other file or chain changes, and all chains stay whole, also when the scan for a cluster leaves the table; that happens exactly if free clusters are too few and no entry past the data clusters looks free, and all of the buffer is written exactly if they suffice |
| FatVolume.EnoughClusters | LAB4/main/esqueleto/fat_file.c:529-588 | with enough free clusters in the table before the call, and only then, the whole buffer is written |
| FatSpace.AppendCounts | LAB4/main/esqueleto/fat_file.c:511-527 | linking a free cluster leaves one fewer free, and the entries past the data clusters alone |
| FatVolume.FatVolume.Truncate | LAB4/main/esqueleto/fat_file.c:468-504 | keeps the first offset bytes, frees exactly the clusters after that of offset, ends the chain with an end mark and leaves all other files and entries alone; reads outside the table exactly when offset, size and capacity coincide |
| FatVolume.FatVolume.Delete | LAB4/main/esqueleto/fat_file.c:591-618 | adds exactly the whole chain to the free clusters and leaves all other files and entries alone |
| FreeList.InsertKeeps | LAB2/xv6-riscv/user/umalloc.c:31-41 | linking a block at its place keeps one address-ordered cycle and the cover of the heap |
| FreeList.MergeKeeps | LAB2/xv6-riscv/user/umalloc.c:32-41 | joining two touching free blocks keeps the cycle and the cover |
| FreeList.ReleaseKeeps | LAB2/xv6-riscv/user/umalloc.c:24-44 | free as a whole leaves no two adjacent free blocks and no other allocated block touched |
| FreeList.TakeKeeps | LAB2/xv6-riscv/user/umalloc.c:76-78 | handing out a whole free block keeps the heap |
| FreeList.SplitKeeps | LAB2/xv6-riscv/user/umalloc.c:79-82 | handing out the upper end of a free block keeps the heap |
| FreeList.ObtainKeeps | LAB2/xv6-riscv/user/umalloc.c:46-61 | memory from sbrk joins the heap as one block, covering exactly the bytes obtained |
| Umalloc.SbrkArgument | LAB2/xv6-riscv/user/umalloc.c:46-61 | the byte count reaches sbrk unchanged exactly for requests up to 0x7FFFFFE0; the next one turns negative |
| Umalloc.SizesFit | LAB2/xv6-riscv/user/umalloc.c:10-17 | below 64 GiB every block size fits its 32-bit field |
| Umalloc.TopJoins | LAB2/xv6-riscv/user/umalloc.c:24-44 | what morecore frees at the top joins at most the free block below it and changes no other |
| Umalloc.Allocator.FindPlace | LAB2/xv6-riscv/user/umalloc.c:28-31 | free's search ends at the free block after which the block belongs |
| Umalloc.Allocator.Free | LAB2/xv6-riscv/user/umalloc.c:24-44 | the block leaves the allocated ones and joins its free neighbours, and the next search starts below it; every other allocated block and the extent of the heap are as before |
| Umalloc.Allocator.Morecore | LAB2/xv6-riscv/user/umalloc.c:46-61 | a free block of at least nu units at the top of the heap, which grows by exactly the larger of nu and 4096 units, every other free block as before; or 0 with nothing changed when sbrk fails |
| Umalloc.Allocator.Carve | LAB2/xv6-riscv/user/umalloc.c:75-84 | the block handed out is new, has exactly the units asked for, is the upper end of the free block or all of it, and overlaps no other |
| Umalloc.Allocator.Malloc | LAB2/xv6-riscv/user/umalloc.c:63-90 | next fit: the upper end of the first free block in the ring, from where the last search ended, that has room, with the fewest units that hold header and request, disjoint from all others; the next search starts before that block. The heap grows only if no free block fitted, by exactly the larger of the units asked for and 4096, and then the block is at its top. 0 only when no free block fits and sbrk is exhausted; the search terminates |
| PageTables.PteWordReads | LAB2/xv6-riscv/kernel/riscv.h:341-352 | PTE2PA and PTE_FLAGS read back what PA2PTE and the flag bits put together |
| PageTables.ValidBits | LAB2/xv6-riscv/kernel/vm.c:142-165 | a new mapping has every bit of perm and PTE_V, and no other |
| PageTables.UserBits | LAB2/xv6-riscv/kernel/vm.c:225-249 | what uvmalloc maps has every bit of xperm, PTE_R, PTE_U and PTE_V, and no other |
| PageTables.TestedBits | LAB2/xv6-riscv/kernel/riscv.h:341-345 | an entry is valid, a leaf, a user's exactly as bits 0, 1 to 3 and 4 of its flags say |
| PageTables.Sv39 | LAB2/xv6-riscv/kernel/vm.c:71-103 | translation is the three-level walk of the hardware: nine bits of the page number choose the entry at each level, and the walk stops at an invalid one |
| PageTables.PxParts | LAB2/xv6-riscv/kernel/riscv.h:354-357 | a page number is put together from the three indices that PX takes out of it |
| PageTables.TableUnique | LAB2/xv6-riscv/kernel/vm.c:85-103 | a page-table page is reached from one root only, and only by addresses that agree in the indices above it |
| PageTables.LeafLookup | LAB2/xv6-riscv/kernel/vm.c:142-192 | writing one leaf entry changes the translation of one page of one tree |
| PageTables.AddTableLookup | LAB2/xv6-riscv/kernel/vm.c:85-103 | a new page-table page changes no translation |
| PageTables.AddTableGood | LAB2/xv6-riscv/kernel/vm.c:92-100 | a new page-table page keeps every tree well formed and every page in one place |
| VirtualMemory.Machine.Kalloc | LAB2/xv6-riscv/kernel/kalloc.c:68-82 | the first page of the free list, held by nobody; 0 exactly if the list is empty |
| VirtualMemory.Machine.Kfree | LAB2/xv6-riscv/kernel/kalloc.c:46-63 | the page at the front of the free list; panics exactly for an address that is not aligned or outside the allocator's pages |
| VirtualMemory.Machine.Walk | LAB2/xv6-riscv/kernel/vm.c:85-103 | the slot of the leaf entry; with alloc at most two missing tables are made from free pages, no translation changes, and it fails only when free pages run out; panics exactly from MAXVA on |
| VirtualMemory.Machine.Mappages | LAB2/xv6-riscv/kernel/vm.c:142-165 | a success adds exactly the pages touched, to consecutive physical pages, with the bits of perm and PTE_V (PageTables.ValidBits); otherwise a known prefix is added, with a panic exactly if the next page is mapped already or past the end, and else for want of free pages; no other translation of any tree changes |
| VirtualMemory.Machine.Uvmunmap | LAB2/xv6-riscv/kernel/vm.c:170-192 | removes exactly the requested pages and with do_free returns each to the free list once; panics exactly if unaligned or some page has no leaf |
| UserMemory.Uvmdealloc | LAB2/xv6-riscv/kernel/vm.c:255-267 | frees exactly the pages between the new and the old size |
| UserMemory.Uvmalloc | LAB2/xv6-riscv/kernel/vm.c:225-249 | maps exactly the new pages, to frames of their own, as valid user leaves that are readable and have what else xperm grants; the process reads zeros there and elsewhere what it read before; or ends at the first page for which it cannot: with a panic exactly if that page is mapped already or past the end and a free page is left, else with every translation restored, every data page returned, and fewer than three free pages for each page so far |
| UserMemory.GrantedAddress | LAB2/xv6-riscv/kernel/vm.c:351-371 | an address in the pages that uvmalloc has added is one that walkaddr translates, so that copyout into them returns 0 |
| UserMemory.Uvmcopy | LAB2/xv6-riscv/kernel/vm.c:305-333 | page by page the child has the parent's bytes and flags in a frame of its own, and the parent keeps its own; a failure, only for want of free pages, takes back every page |
| UserMemory.Walkaddr | LAB2/xv6-riscv/kernel/vm.c:108-126 | the frame of a valid user page, 0 exactly otherwise |
| UserMemory.Copyin | LAB2/xv6-riscv/kernel/vm.c:376-396 | exactly the requested user bytes; -1 exactly if some byte of the range is not in a user page |
| UserMemory.Copyout | LAB2/xv6-riscv/kernel/vm.c:351-371 | exactly the bytes given at exactly their addresses, no other user byte changed; 0 exactly if every address of the range is in a valid user page; on -1 the part before the first page that is not |
| TableTeardown.Freewalk | LAB2/xv6-riscv/kernel/vm.c:271-287 | every page of the tree goes to the free list, nothing else does, and the panic cannot occur once all leaves are gone |
| TableTeardown.Uvmfree | LAB2/xv6-riscv/kernel/vm.c:291-297 | the free list gains exactly the user pages and the tables of the process; every other tree translates as before |
| Semaphores.StepKeeps | LAB2/xv6-riscv/kernel/sem.c:37-70 | every step of every process in sem_down, sem_up, sleep and wakeup, and kill, keeps the invariant |
| Semaphores.NoLostWakeup | LAB2/xv6-riscv/kernel/proc.c:535-580 | after sem_open, in every interleaving: whenever the lock is free and the value positive, nobody is asleep on the semaphore or committed to sleeping |
| Semaphores.ValueCounts | LAB2/xv6-riscv/kernel/sem.c:37-70 | in every interleaving 0 <= value <= init_value, and the value is init_value, less the sem_down calls that have returned or are past taking one, plus the sem_up calls that have returned 0 or are past giving one, with returns counted off the run |
| Semaphores.UpReturns | LAB2/xv6-riscv/kernel/sem.c:55-70 | sem_up fails exactly if it finds the value where it started; otherwise, when it comes to release the lock, the value is positive and nobody is asleep on the semaphore or about to be |
| Semaphores.NotStuck | LAB2/xv6-riscv/kernel/sem.c:37-70 | no deadlock: where no process can take a step, each is outside the calls or asleep, and if one is asleep the value is 0 |
| Semaphores.NoMoreThanOpened | LAB2/xv6-riscv/kernel/sem.c:37-70 | where every process calls sem_down and sem_up in turn, at most init_value of them are between the two at any time, and no sem_up fails |
| Semaphores.MutualExclusion | LAB2/xv6-riscv/kernel/sem.c:37-70 | at most one process is between acquire and release of the semaphore's lock |
| Semaphores.ReopenedIff | LAB2/xv6-riscv/kernel/sem.c:22-35 | sem_open on a semaphore in use starts it afresh exactly if the value is nonnegative and, unless it is 0, nobody sleeps on it |
| Semaphores.SleeperReached | LAB2/xv6-riscv/kernel/sem.c:22-35 | a run to a sleeping process that a second sem_open with a positive value leaves asleep |
| Scheduler.SleepersRise | LAB3/main/xv6-riscv/kernel/proc.c:475-480 | going to sleep at i > 0 gives i - 1 and at 0 gives 1; coming back otherwise at i below the lowest level gives i + 1 and at the lowest leaves it |
| Scheduler.TurnIs | LAB3/main/xv6-riscv/kernel/proc.c:463-494 | a turn runs the process looked at exactly if it is runnable and at the level of the pass; that process has one dispatch more and moves by one level as above, every other stays as it is; levels follow one another cyclically, and a pass that ends at a boost puts every process at the top |
| Scheduler.TurnKeeps | LAB3/main/xv6-riscv/kernel/proc.c:463-494 | priorities stay below NPRIO whatever the processes and the clock do |
| Scheduler.TurnBringsNearer | LAB3/main/xv6-riscv/kernel/proc.c:463-494 | every process looked at brings a waiting one nearer to its turn, and neither boosts nor other processes set it back |
| Scheduler.BoundedWaiting | LAB3/main/xv6-riscv/kernel/proc.c:449-496 | a runnable process is dispatched after fewer than (2*NPRIO+1)*NPROC other dispatches, whatever the boosts and the other processes do |
| Scheduler.Cpu.Boost | LAB3/main/xv6-riscv/kernel/proc.c:487-493 | every process is put back to the highest level and nothing else changes |
| Scheduler.Cpu.Step | LAB3/main/xv6-riscv/kernel/proc.c:463-494 | one turn of the nested loops, in place, is the turn of the model |
| Pipe.Pipe.Counters | LAB2/xv6-riscv/kernel/pipe.c:81-89 | although both counters wrap, their difference tells full and empty, and their remainders the places in the ring |
| Pipe.Pipe.PutByte | LAB2/xv6-riscv/kernel/pipe.c:93-94 | one byte appended to all that was written |
| Pipe.Pipe.TakeByte | LAB2/xv6-riscv/kernel/pipe.c:121-122 | the oldest byte not yet taken |
| Pipe.Pipe.Write | LAB2/xv6-riscv/kernel/pipe.c:76-103 | a stretch of pipewrite appends a run of its source; it sleeps only when the ring is full, the reader open and the process not killed, returns -1 only when the reader is gone or the process killed by then, and else stops early only on a fault |
| Pipe.Pipe.Read | LAB2/xv6-riscv/kernel/pipe.c:105-130 | it sleeps exactly if the ring is empty, the writer open and the process not killed, and returns -1 exactly if killed there; else it takes the oldest bytes in order, as many as there are and are wanted or can be stored |
| Pipe.Pipe.Close | LAB2/xv6-riscv/kernel/pipe.c:58-74 | closes the end named and no other; the page is freed exactly with the last |
| Grep.MatchHereMeaning | LAB2/xv6-riscv/user/grep.c:84-95 | matchhere is true exactly when the pattern, read as a list of items, spells a stretch of the text from here |
| Grep.MatchStarMeaning | LAB2/xv6-riscv/user/grep.c:98-105 | matchstar is true exactly when some number of leading characters fit and the rest matches |
| Grep.MatchMeaning | LAB2/xv6-riscv/user/grep.c:71-81 | search for the pattern at every position, or at the start after ^, is that meaning |
| Grep.PlainHere | LAB2/xv6-riscv/user/grep.c:84-95 | a pattern without * and $ is compared character by character, a dot with anything |
| Grep.PlainFound | LAB2/xv6-riscv/user/grep.c:71-95 | a pattern without special characters is found exactly where the text contains it |
| Grep.StarHere | LAB2/xv6-riscv/user/grep.c:98-105 | c* takes any number of c, .* any characters, and then the rest has to match |
| Grep.Match | LAB2/xv6-riscv/user/grep.c:71-81 | match is true exactly when the pattern spells some stretch of the text, one from the start if it begins with ^ |
| Grep.Matchhere | LAB2/xv6-riscv/user/grep.c:84-95 | the recursion terminates and computes the function whose meaning is proved |
| Grep.Matchstar | LAB2/xv6-riscv/user/grep.c:98-105 | the loop is the recursive definition of matchstar |
| Rand.Schrage | LAB2/xv6-riscv/user/grind.c:26-34 | both products stay below 2^31, and their difference, corrected by the modulus if negative, is 16807 x mod 2^31 - 1 |
| Rand.Generator.DoRand | LAB2/xv6-riscv/user/grind.c:16-40 | the result is (16807 x mod 2^31 - 1) - 1 for x = input mod 0x7ffffffe + 1, is in [0, 0x7ffffffd] and becomes the state |
| Rand.Injective | LAB2/xv6-riscv/user/grind.c:16-40 | on the generator's range distinct states have distinct successors |
| Rand.Range | LAB2/xv6-riscv/user/grind.c:16-40 | the range is closed under the generator |
| ShellRoundTrip.LineIsMeant | LAB2/xv6-riscv/user/sh.c:328-447 | every line of plain words, at most nine to a command, with words and redirections in any order and number, redirections after blocks, pipes, lists, background marks and any white space, parses to what it means: each command exactly its words in order, under exactly its redirections in order of occurrence, the first innermost; pipes and lists nest to the right |
| ShellRoundTrip.WrapIsUnder | LAB2/xv6-riscv/user/sh.c:382-395 | the parser's tree for several redirections has every one of them, the first innermost |
| ShellRoundTrip.TooManyWords | LAB2/xv6-riscv/user/sh.c:416-447 | a command of ten words or more is refused with that panic, whatever redirections are in it |
| ShellRoundTrip.NoFile | LAB2/xv6-riscv/user/sh.c:382-384 | a redirection at the end of the line panics for want of its file |
| ShellRoundTrip.StrayClose | LAB2/xv6-riscv/user/sh.c:328-343 | a line followed by a parenthesis that closes nothing is a syntax error |
| ShellRoundTrip.NoClose | LAB2/xv6-riscv/user/sh.c:400-414 | a parenthesis that nothing closes panics for it |
| ShellRoundTrip.StrayOpen | LAB2/xv6-riscv/user/sh.c:416-447 | a block after words or redirections is a syntax error |
| ShellRoundTrip.RoundTrip | LAB2/xv6-riscv/user/sh.c:328-447 | for every command tree of plain words, at most nine to a command, there is a line, with blocks where they are needed and any white space, that parses to exactly that tree |
| ShellRoundTrip.LineParses | LAB2/xv6-riscv/user/sh.c:345-447 | the same for a line anywhere in a text, up to a closing parenthesis or the end, with the position where it stops |
| ShellProgram.LineTokens | LAB2/xv6-riscv/user/sh.c:345-447 | every word of every tree the parser returns is a whole token of the line |
| ShellProgram.WordCut | LAB2/xv6-riscv/user/sh.c:450-494 | a NUL at the end of every word cuts each to exactly its token and no other short |
| ShellProgram.Parser.Peek | LAB2/xv6-riscv/user/sh.c:311-321 | skips space and looks at one character |
| ShellProgram.Parser.Gettoken | LAB2/xv6-riscv/user/sh.c:266-309 | the kind and extent of the token at the pointer, and the pointer past it and the space after it |
| ShellProgram.Parser.Parseredirs | LAB2/xv6-riscv/user/sh.c:375-398 | the redirections at the pointer; fails exactly where the grammar function does |
| ShellProgram.Parser.Parseexec | LAB2/xv6-riscv/user/sh.c:416-447 | arguments and redirections in any order; terminates on every input and agrees with the grammar function, panics included, whose tree LineIsMeant fixes |
| ShellProgram.Parser.Parseblock | LAB2/xv6-riscv/user/sh.c:400-414 | a parenthesised line with its redirections, the first innermost as LineIsMeant has it, or the panic |
| ShellProgram.Parser.Parsepipe | LAB2/xv6-riscv/user/sh.c:362-373 | a chain of pipes, grouped to the right as LineIsMeant has it |
| ShellProgram.Parser.Parseline | LAB2/xv6-riscv/user/sh.c:345-360 | background marks and lists, grouped to the right |
| ShellProgram.Parser.Nulterminate | LAB2/xv6-riscv/user/sh.c:450-494 | writes a NUL at the end of every word of the tree and nowhere else |
| ShellProgram.Parser.Parsecmd | LAB2/xv6-riscv/user/sh.c:328-343 | parses the whole line or fails where the grammar does; then every word of the tree is the C string at its start |

## Left out

- The storage machine: one iteration of write_log or install_trans, from its two breads to its two
  brelses, is one step with one block write; one device; a process that would sleep simply takes no step.
- BufferSupply.SupplySuffices: is about commits and recoveries during which the other processes hold a given
  set of blocks and lock none; how many buffers running operations may hold at once is not bounded, so
  bget's panic is not excluded for them.
- Bio.Bcache.Bget: stops where the caller has to wait for the lock of its buffer; being woken up is the
  machine's next step.
- RedoLog.Log.TryBeginOp: is one pass of begin_op's loop; sleeping and being woken up again is not modelled.
- FileSystem.FileSystem.Filewrite: is the inode branch, with the inode locked by no one else between its
  transactions; pipes and devices are other branches.
- WriteCrashes.CrashedAmongOthers: takes the blocks that the call allocates as given, and says nothing about
  the files the others edit, nor whether the free map is right for them.
- FaultedCopy.Chunk: is about one transaction at a time; the storage machine has no step that releases an
  edited buffer unlogged, so recycling it is not part of the machine's runs.
- FileSystem works over the plain map of blocks that `StorageTheorems` establishes, one operation at a
  time. Directories, path names, inode allocation and reference counts (ialloc, iget, iput), and readsb are
  not modelled.
- FatVolume.FatVolume.Pwrite: ends where the scan for a free cluster leaves the table (`fault`); what the
  code makes of the word it finds there is not described.
- FAT: the copy of the table on disk, directory entries, time stamps, I/O errors, errno left over from
  earlier calls, the FUSE callbacks and 8.3 names. Clusters are separate byte arrays, which
  `FatBytes.ClustersApart` justifies.
- FAT: hierarchy_tree.c, whose tree removal does not keep the tree.
- Umalloc.Allocator.Malloc: covers requests up to 0x7FFFFFE0 bytes, for which the argument of sbrk is the
  size computed; the static header lies below the heap, and sizes are unbounded but for
  `Umalloc.SizesFit`.
- UserMemory.Copyin: assumes that user pages hold bytes, not page tables, as `UserMemory.Copyout` does with
  pages that are not shared.
- Virtual memory: pages are counted from the first one of the allocator; device and kernel frames are
  numbers past the end. copyinstr, uvmclear, uvmfirst, the TLB and the junk that kfree and kalloc fill pages
  with are not modelled.
- Semaphores: sem_close, out-of-range indices, and the clock interrupt. One semaphore at a time.
- Scheduler.BoundedWaiting: one CPU; on several, the boost writes priorities without a lock.
- Pipe.Pipe.Write: runs from the lock to the next sleep or return; that a sleeper is woken again is not
  stated.
- Pipe.Pipe.Close: does not state whom it wakes up.
- ShellProgram.Parser.Parseexec: collects files and arguments and wraps the command in its redirections at
  the end, where the code wraps it as it goes; running commands and a failing malloc are not modelled.
- The compiled parser of LAB1, device, boot and trap code, exec, and the other user programs.
