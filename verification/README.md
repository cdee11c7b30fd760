# Verification of the xv6 kernel cores

This project models, in Dafny, the parts of this xv6 (RISC-V) tree with process freezing
whose correctness is hardest to see from the code, and proves what they guarantee:

- **Crash-safe storage.** `Journal` is the write-ahead log, the buffer cache and the disk as a
  machine of atomic steps with crashes anywhere; it refines one logical disk with a durable and
  a current half. `LogProgress` shows that from every state the log can commit and reopen. `Log` is
  the same log as imperative code whose every disk write leaves an image that a reboot could find.
  `LogSpace` is the reservation arithmetic of `begin_op` and
  `log_write`. `BufferCache` is the doubly linked LRU ring with the contents, counts and locks of
  its buffers. `Storage` puts that cache under the log and shows that it implements the map of
  `Journal`, which yields what `bio.c` asks of its callers. `Blocks`, `Files` and `FileSystem`
  are the bitmap, the block maps, truncation and byte-range reads and writes; `Transactions` is
  what `filewrite` logs and when that is too much, `Capacity` what the inodes can hold, and
  `AlmostFull` the disks on which it happens.
- **Processes.** `Process` is a machine over CPUs, process slots, `wait_lock` and sleep locks,
  one step per acquire, release or uninterrupted stretch of code; `ProcessSteps` proves its
  invariant, `ProcessTheorems` and `Freezer` what follows over whole runs, `KernelCalls` what the
  calls have done when they return and that they never deadlock. `ProcTable` holds the
  table scans and the recursive process listing.
- **Virtual memory.** `PageTable` and `VirtualMemory` are the three-level tables in physical
  pages, the page allocator and the operations built on them, up to `fork`; `UserCopy` the copies
  in and out of user memory.
- **Virtio.** `Virtio` is the descriptor bookkeeping and the two rings between driver and device,
  and the data that the device moves.
- **User heap.** `UserHeap` is `malloc` and `free`.

`Sets` holds the counting lemmas that several of these share.

Code that updates state in place is a class whose methods are proved against functions and
predicates on values (`View()`); concurrent protocols are state machines whose invariant is
proved for every step, so that the theorems hold of every interleaving and every run. Panics are
preconditions or assertions: where a method verifies, the panic is not reached.

Eight places where the code does not do what its documentation or its reader may expect are kept as
they are; each has its exact condition and an input that shows it:

- `begin_op` reserves against the whole log while `log_write` stops one block earlier, so the
  reservation protects operations of at most `MAXOPBLOCKS - 1` blocks and no more
  (`LogSpace.BudgetExact`, `LogSpace.FullBudgetPanics`).
- `bunpin` does not move a buffer whose count falls to zero, so the ring stays in least recently
  used order exactly when a reference is left or no unused buffer stands ahead
  (`BufferCache.UnpinnedExact`, `BufferCache.UnpinBreaksOrder`); its only caller always has a
  reference left (`Storage.UnpinKeepsReference`).
- `freeproc` leaves the `frozen` flag on the slot, so a new process starts frozen exactly when
  the slot's last occupant was reaped frozen (`Freezer.FrozenAtBirth`), which does happen
  (`Freezer.BornFrozen`).
- `allocproc` does not clear `killed`, so a new process starts killed exactly when a kill has
  reached the slot since it was empty and not killed, as it is at boot and after `freeproc`
  (`Freezer.KilledAtBirth`); `kill(0)` does that (`Freezer.BornKilled`).
- `wait` looks at the killed flag before it sleeps, without holding `p->lock` in between, so a killed
  process stays asleep in `wait` exactly when the kill came in between (`KernelCalls.KillMissed`);
  that happens (`Freezer.SleepsThroughKill`).
- `virtio_disk_rw` computes the sector in 32 bits, so it addresses the block's own bytes exactly
  for block numbers below 2^31 (`Virtio.SectorIs`); block 2^31 is block 0 (`Virtio.SectorsApart`).
- `mappages` fails exactly when the free list is shorter than the number of tables missing on the
  way to the range, and then leaves mapped the longest prefix whose tables fit; nothing stays
  mapped exactly when those of the first page do not fit (`VirtualMemory.Vm.MapPages`). A prefix
  does stay (`PageTable.PrefixStays`).
- `filewrite`'s chunk logs more than the log can promise exactly when it enters one of the last
  three direct blocks in the middle and reaches three more, these and the indirect block are
  missing, and the four lowest free blocks have their bits in four different bitmap blocks
  (`FileSystem.Fs.WriteChunk`, `Transactions.ChunkLogs`); it then logs ten. A superblock has a
  disk between operations on which that happens exactly when the disk reaches three bitmap blocks
  beyond the first data block and the inodes can hold all but three of the blocks before
  (`AlmostFull.ChunkExact`). With mkfs's 200 inodes the disk of 200000 blocks that `param.h`
  configures is one, those of 10000 and 2000 blocks are not (`AlmostFull.LargeDisk`).

The enumeration value `FROZEN` in `proc.h` is never used, so freezing is modelled as the flag.

## Model

| member | source | states |
|---|---|---|
| Journal.StepRefines | xv6-labs-2024/kernel/log.c:68-235 | every step of every operation, commit, installation, eviction, crash and recovery keeps the invariant and changes the logical disk exactly as the abstract disk does: a buffer write changes what readers see, the header write alone changes what a reboot recovers, all else changes neither |
| Journal.RunRefines | xv6-labs-2024/kernel/log.c:126-235 | the same for runs of any length, any interleaving and any number of crashes |
| Journal.CrashAtomic | xv6-labs-2024/kernel/log.c:115-123 | cut any run anywhere, crash again during recovery as often as one likes: when a recovery completes, every home block holds the contents of the last commit, all of them or none |
| Journal.ReadsCurrent | xv6-labs-2024/kernel/bio.c:91-104 | the holder of a valid buffer holds the logical contents of its block |
| Journal.UnloggedOnDisk | xv6-labs-2024/kernel/log.c:69-83 | a home block with no pending change has its logical contents on disk |
| Journal.LoggedStaysCached | xv6-labs-2024/kernel/log.c:225-233 | a logged block is cached, valid, carries exactly one pin beyond its users and cannot be recycled before it is installed |
| Journal.EndedIsDurable | xv6-labs-2024/kernel/log.c:144-175 | whenever the log is open and no operation is, the log is empty and a reboot recovers exactly what readers see: the last end_op commits |
| Journal.EndedSurvives | xv6-labs-2024/kernel/log.c:144-175 | what operations wrote that have ended survives any crash and any number of cut recoveries |
| Journal.BeginEnabled | xv6-labs-2024/kernel/log.c:126-142 | an operation can begin, beside open ones and with a non-empty log, if and only if no commit runs and the log could take a full share from it and every open one |
| LogProgress.CanCommit | xv6-labs-2024/kernel/log.c:144-203 | from every reachable state in which changes are logged, whoever holds which buffers and wherever a commit or recovery stands, steps that write nothing new lead to an open log with everything durable |
| LogProgress.CanStore | xv6-labs-2024/kernel/log.c:126-235 | from every such state an operation can change any home block to any contents and have it durable |
| Journal.CommitAlone | xv6-labs-2024/kernel/log.c:146-175 | while a commit or a recovery runs no operation is open and no buffer waits to be logged |
| Journal.RecoveredDisk | xv6-labs-2024/kernel/log.c:116-123 | at the end of recovery every home block on disk holds its recovered contents |
| Journal.FreshImage | xv6-labs-2024/mkfs/mkfs.c:93-108 | the image mkfs writes satisfies the invariant |
| Log.Driver.Commit | xv6-labs-2024/kernel/log.c:193-203 | the images that commit leaves on disk recover the old contents up to one write and the new contents from there on, never a mix; at the end the new contents are home, the header is empty and the pins are gone |
| Log.Driver.RecoverFromLog | xv6-labs-2024/kernel/log.c:116-123 | every image recovery leaves recovers the contents the first one did, and they are home when it completes |
| Log.Driver.InstallTrans | xv6-labs-2024/kernel/log.c:68-83 | after it every logged block is home, and no image on the way recovers anything else |
| Log.Driver.InstallAndErase | xv6-labs-2024/kernel/log.c:194-203 | installing and then erasing the header leaves the contents home and an empty log |
| Log.Driver.WriteLog | xv6-labs-2024/kernel/log.c:177-191 | after it the log holds the cached contents of every logged block, and no image on the way recovers anything new |
| Log.Driver.WriteHead | xv6-labs-2024/kernel/log.c:99-113 | the header block holds the list of logged blocks, in a single disk write |
| Log.Driver.ReadHead | xv6-labs-2024/kernel/log.c:85-97 | the in-memory list is the one in the header block |
| Log.Driver.BeginOp | xv6-labs-2024/kernel/log.c:126-142 | an operation enters exactly when no commit runs and the reservation fits |
| Log.Driver.EndOp | xv6-labs-2024/kernel/log.c:144-162 | the last operation out, and no other, closes the log for a commit |
| Log.Driver.EndTransaction | xv6-labs-2024/kernel/log.c:144-175 | end_op as a whole: the last operation commits all that is logged, through images that recover the old contents up to one write and the new ones from there on, and reopens the log; any other changes neither log nor disk |
| Log.Driver.LogWrite | xv6-labs-2024/kernel/log.c:205-235 | a block already logged is absorbed, a new one appended and pinned; it panics exactly when the space model says so |
| Log.HeadSwitches | xv6-labs-2024/kernel/log.c:99-113 | the header write turns a staged transaction into the recovered contents |
| Log.EraseKeeps | xv6-labs-2024/kernel/log.c:200-201 | erasing an installed transaction changes nothing that a reboot recovers |
| LogSpace.ReservationHolds | xv6-labs-2024/kernel/log.c:126-142 | in every reachable state the logged blocks and the unused reservations together fit LOGSIZE |
| LogSpace.BeginExact | xv6-labs-2024/kernel/log.c:126-142 | begin_op admits an operation if and only if the log could still take a full share from it and every open one, whatever is logged, and changes nothing else |
| LogSpace.BeginEnters | xv6-labs-2024/kernel/log.c:126-142 | an empty log always admits, three operations can be open at once, and a non-empty log does not keep a second one out |
| LogSpace.IdleIsEmpty | xv6-labs-2024/kernel/log.c:144-175 | whenever no operation is open the log is empty |
| LogSpace.SmallBudgetSafe | xv6-labs-2024/kernel/log.c:214-223 | operations of at most MAXOPBLOCKS - 1 blocks never reach "too big a transaction" |
| LogSpace.FullBudgetPanics | xv6-labs-2024/kernel/log.c:220-221 | operations of MAXOPBLOCKS blocks can reach it, three at a time |
| LogSpace.BudgetExact | xv6-labs-2024/kernel/log.c:126-235 | a budget is safe in every interleaving if and only if it is at most MAXOPBLOCKS - 1 |
| BufferCache.Unlink | xv6-labs-2024/kernel/bio.c:128-129 | joining the neighbours of a buffer leaves a ring of the others in order |
| BufferCache.PushFront | xv6-labs-2024/kernel/bio.c:130-133 | hooking it in behind the head leaves a ring with it in front |
| BufferCache.VictimIsOldest | xv6-labs-2024/kernel/bio.c:77-88 | the buffer that the backward scan finds is the unused one whose count fell to zero longest ago; none is found exactly when all are in use |
| BufferCache.ReleasedGood | xv6-labs-2024/kernel/bio.c:124-134 | dropping a reference, and moving the buffer to the front when it was the last, keeps the ring complete, the keys unique and the unused buffers in order of their release |
| BufferCache.UnpinnedExact | xv6-labs-2024/kernel/bio.c:147-151 | dropping a pin keeps that order if and only if a reference is left or no unused buffer stands ahead in the ring |
| BufferCache.UnpinBreaksOrder | xv6-labs-2024/kernel/bio.c:147-151 | a cache in which dropping the only pin breaks the order |
| BufferCache.Cache.constructor | xv6-labs-2024/kernel/bio.c:36-53 | binit builds a ring of all buffers, unused, invalid, unlocked and unassigned, on arrays of its own |
| BufferCache.Cache.FindCached | xv6-labs-2024/kernel/bio.c:65-73 | finds the block exactly when some buffer holds it |
| BufferCache.Cache.FindUnused | xv6-labs-2024/kernel/bio.c:75-87 | finds the victim |
| BufferCache.Cache.Lookup | xv6-labs-2024/kernel/bio.c:63-88 | a cached block gains a reference and nothing else changes; otherwise the victim is reassigned, invalid, with one reference; it fails exactly when the block is not cached and all buffers are in use, and then changes nothing |
| BufferCache.Cache.AcquireSleep | xv6-labs-2024/kernel/sleeplock.c:22-31 | the lock is taken exactly when nobody holds it |
| BufferCache.Cache.Fill | xv6-labs-2024/kernel/bio.c:98-101 | an invalid buffer gets the contents of its block on disk, a valid one is left alone |
| BufferCache.Cache.Bread | xv6-labs-2024/kernel/bio.c:92-103 | on return the caller holds the lock of the buffer of the block, and its contents are the cached ones if there were any and those on disk otherwise; the caller waits exactly when another process holds the lock |
| BufferCache.Cache.Bwrite | xv6-labs-2024/kernel/bio.c:106-112 | exactly the block of the locked buffer changes on disk |
| BufferCache.Cache.Unref | xv6-labs-2024/kernel/bio.c:124-136 | the last reference moves the buffer to the front of the ring and makes it the most recent, in place; every other order is kept |
| BufferCache.Cache.Brelse | xv6-labs-2024/kernel/bio.c:116-137 | the holder gives up the lock, then the reference; the panic is its precondition |
| BufferCache.Cache.Bpin | xv6-labs-2024/kernel/bio.c:139-144 | one more reference, ring and order unchanged |
| BufferCache.Cache.Bunpin | xv6-labs-2024/kernel/bio.c:146-151 | one reference fewer, ring unchanged; the cache stays valid exactly under the condition of UnpinnedExact |
| Storage.StepRefines | xv6-labs-2024/kernel/log.c:68-235 | every step of readers, writers, committer and recovery on the fixed buffers, with bget recycling the victim, keeps ring order, key uniqueness and counts, and changes the logical disk exactly as its event says: recycling and refilling change nothing |
| Storage.RunRefines | xv6-labs-2024/kernel/log.c:68-235 | the same for runs of any length with any number of crashes |
| Storage.CrashAtomic | xv6-labs-2024/kernel/log.c:115-123 | with the real cache under it: after any cut run and any number of cut recoveries, a completed recovery leaves every home block as the last commit had it |
| Storage.EndedOnDisk | xv6-labs-2024/kernel/log.c:144-175 | in every run from binit, whenever the log is open and no operation is, every home block on disk holds what readers see, and nothing written is lost |
| Storage.StartInv | xv6-labs-2024/kernel/bio.c:36-53 | the buffers of binit over the image of mkfs satisfy the invariant |
| Storage.CacheInOrder | xv6-labs-2024/kernel/bio.c:58-151 | in every state of every run from binit the ring is in least recently used order, no block has two buffers, and a count is the references handed out plus one if the block is logged and not installed |
| Storage.UnpinKeepsReference | xv6-labs-2024/kernel/log.c:73-82 | when install_trans calls bunpin the count is above one, so the order survives |
| Storage.CountsAt | xv6-labs-2024/kernel/bio.c:58-151 | a count is the references handed out plus the pin, and only a process with a reference holds the lock |
| Storage.ReadsLogical | xv6-labs-2024/kernel/bio.c:91-103 | what bread shows of a home block, from the cache or the disk, is exactly its logical contents |
| Storage.InUseKeepsKey | xv6-labs-2024/kernel/bio.c:77-86 | no step reassigns a buffer with references |
| Storage.HeldKeepsBlock | xv6-labs-2024/kernel/bio.c:58-137 | from bget until its own brelse a process keeps the buffer of its block, whatever the others do |
| Storage.LoggedNotRecycled | xv6-labs-2024/kernel/log.c:225-233 | a logged block is in a valid buffer that bget does not choose before it is installed |
| Storage.RecycledIdle | xv6-labs-2024/kernel/bio.c:77-86 | the buffer bget reassigns is unlocked, referenced by nobody, and if valid equal to its block on disk |
| Blocks.BitWith | xv6-labs-2024/kernel/fs.c:75-77 | setting or clearing a bit changes that bit only |
| Blocks.BitWeight | xv6-labs-2024/kernel/fs.c:74-77 | setting a clear bit k adds 1 << k to the byte, clearing a set one subtracts it |
| Blocks.BitmapSlots | xv6-labs-2024/kernel/fs.h:47-51 | bitmap block k holds the bits of the BPB blocks from k * BPB on |
| Blocks.WordBytes | xv6-labs-2024/kernel/fs.c:408-413 | a block address is four bytes, least significant first |
| Blocks.WordPut | xv6-labs-2024/kernel/fs.c:408-413 | an address stored in an indirect block reads back, and the other entries stay |
| Blocks.MarkedFlip | xv6-labs-2024/kernel/fs.c:74-78 | writing the bitmap block of b changes the mark of b and of no other block |
| Blocks.OnePosition | xv6-labs-2024/kernel/fs.c:372-377 | no block serves two positions of any inodes |
| Blocks.ClaimedGood | xv6-labs-2024/kernel/fs.c:65-88 | marking and zeroing a free block keeps every address and the agreement of bitmap and owners |
| Blocks.DroppedGood | xv6-labs-2024/kernel/fs.c:91-105 | a block no file holds is marked, so "freeing free block" is not reached, and unmarking it keeps the agreement |
| Blocks.PlacedGood | xv6-labs-2024/kernel/fs.c:388-406 | storing a new block in addrs sets that address and no other, a new indirect block having no entries |
| Blocks.EnteredGood | xv6-labs-2024/kernel/fs.c:407-415 | storing a new block in the indirect block sets that entry and no other address of any file |
| Blocks.DetachedGood | xv6-labs-2024/kernel/fs.c:439-449 | letting go of an indirect block removes exactly its own and its entries' positions |
| FileSystem.Fs.FreeBit | xv6-labs-2024/kernel/fs.c:73-83 | the inner loop finds the first free block of one bitmap block's range, or every bit of it below the size is set |
| FileSystem.Fs.Balloc | xv6-labs-2024/kernel/fs.c:65-88 | returns the first free block, marked and zeroed, or 0 exactly when every bit below the size is set |
| FileSystem.Fs.Bfree | xv6-labs-2024/kernel/fs.c:91-105 | clears the bit of a block that is marked; the panic is not reached |
| FileSystem.Fs.BmapIndirect | xv6-labs-2024/kernel/fs.c:397-418 | the entry's block, allocating the indirect block and the entry as needed; it logs the new blocks, their bitmap blocks and the indirect block, and nothing else |
| FileSystem.Fs.Bmap | xv6-labs-2024/kernel/fs.c:382-421 | returns the file block's disk block, allocated and zeroed if there was none, 0 only on a full disk; every other address and byte of every file is kept; an existing block costs nothing |
| FileSystem.Fs.Itrunc | xv6-labs-2024/kernel/fs.c:425-453 | frees exactly the blocks that belong to the inode, below its size or not, and leaves every other file and owner alone |
| Files.FreesExactly | xv6-labs-2024/kernel/fs.c:425-453 | after truncation a bit is set exactly when it was set and not the file's |
| Files.TruncKeepsOthers | xv6-labs-2024/kernel/fs.c:425-453 | after truncation every other file has its contents |
| FileSystem.Fs.IUpdate | xv6-labs-2024/kernel/fs.c:225-241 | the on-disk inode equals the in-memory one and its block, which lies in the inode area below the bitmap, is logged |
| FileSystem.Fs.WritePiece | xv6-labs-2024/kernel/fs.c:516-528 | one turn of the loop writes its piece, no other byte of any file, and logs the blocks of one file block |
| FileSystem.Fs.Writei | xv6-labs-2024/kernel/fs.c:505-539 | fails exactly past the end, on 32-bit wrap-around and beyond MAXFILE blocks; otherwise the flat contents become the old ones with the bytes written at the offset, short only on a full disk, at the first file block without a disk block; other files are unchanged; it logs the data blocks written, the inode, each new block with its bitmap block, and nothing but these and the indirect block |
| FileSystem.Fs.Readi | xv6-labs-2024/kernel/fs.c:471-496 | returns exactly the requested slice clipped to the size, nothing for a bad range, and allocates and logs nothing |
| Files.ReadAfterWrite | xv6-labs-2024/kernel/fs.c:471-539 | readi after writei: inside the written range the data comes back, outside it what was there before |
| Files.ReadElsewhere | xv6-labs-2024/kernel/fs.c:471-539 | reads of every other file are unchanged by writei |
| Files.WroteContent | xv6-labs-2024/kernel/fs.c:530-536 | with the new size, the bytes written make the flat contents the old ones with the data at the offset |
| FileSystem.Fs.FileWrite | xv6-labs-2024/kernel/file.c:148-175 | on any disk: the chunks together write a prefix of the data at the file offset, the offset advances by it, the call returns n exactly when it is all of it, and no transaction logs more than six blocks and one per bitmap block, at most four of these; a disk on which every block in use is some file's stays so, and unless its superblock is tight no transaction logs more than MAXOPBLOCKS - 1 |
| FileSystem.Fs.WriteChunk | xv6-labs-2024/kernel/file.c:157-167 | one transaction: it logs more than MAXOPBLOCKS - 1 blocks if and only if, before the call, it starts inside one of the last three direct blocks and reaches three more, these and the indirect block are missing and the four lowest free blocks are in four bitmap blocks; otherwise the bounds of FileWrite |
| Transactions.TxAtMost | xv6-labs-2024/kernel/file.c:149-155 | a write of at most ((MAXOPBLOCKS-4)/2)*BSIZE bytes, at any offset of any file of any disk, logs at most four data blocks, the indirect block, the inode and the bitmap blocks of at most four new blocks |
| Transactions.ChunkLogs | xv6-labs-2024/kernel/file.c:149-155 | what writei may leave, complete or cut short by a full disk, has at most the bound of TxAtMost logged, and more than nine blocks if and only if the condition of WriteChunk held before |
| Transactions.TenLogged | xv6-labs-2024/kernel/file.c:149-155 | under that condition first fit takes exactly the four lowest free blocks, the chunk is written whole and logs exactly ten blocks |
| Transactions.OverNine | xv6-labs-2024/kernel/fs.c:65-88 | a transaction of more than nine blocks got the four lowest free blocks, from four bitmap blocks, for the indirect block and three data blocks |
| Transactions.InodeSlots | xv6-labs-2024/kernel/fs.h:41-45 | block k of the inode area holds exactly inodes k * IPB to k * IPB + IPB - 1 |
| Transactions.InodeArea | xv6-labs-2024/mkfs/mkfs.c:93-103 | with at most ninodes inodes no inode's block reaches the bitmap |
| Capacity.UsedFit | xv6-labs-2024/kernel/fs.h:26-44 | on a disk where every block in use is some file's, the blocks in use are at most 269 per inode, 12 for a file without indirect block and none for inode 0 |
| Capacity.SpreadTight | xv6-labs-2024/kernel/fs.c:65-88 | if the four lowest free blocks are in four bitmap blocks, the superblock is tight: the disk reaches three bitmap blocks beyond the first data block, and the inodes hold all but three of the blocks before |
| Capacity.NineAtMost | xv6-labs-2024/kernel/file.c:149-155 | unless the superblock is tight, no chunk at any offset of any file logs more than MAXOPBLOCKS - 1 blocks |
| AlmostFull.TenReached | xv6-labs-2024/kernel/fs.c:65-88 | every tight superblock has a disk within its inode count, bitmap and block maps agreeing and every byte below each size mapped, that meets the condition of WriteChunk |
| AlmostFull.ChunkExact | xv6-labs-2024/kernel/file.c:149-155 | some chunk of some file exceeds what the log can promise if and only if the superblock is tight, a condition on its size, its metadata and its inode count |
| AlmostFull.LargeDisk | xv6-labs-2024/kernel/param.h:16-24 | with 200 inodes, of the three configured disk sizes the largest has a chunk that exceeds it and the two others have none |
| Blocks.NewBitmap | xv6-labs-2024/mkfs/mkfs.c:236-250 | the bitmap block in which exactly the first blocks are taken |
| Files.FreshDisk | xv6-labs-2024/mkfs/mkfs.c:93-108 | with that bitmap, the image before any file is added is a disk in order |
| ProcessSteps.StepSound | xv6-labs-2024/kernel/proc.c:280-622 | every step of every CPU, with preemption wherever no spinlock is held and spurious wakeups from kill and unfreeze, keeps the invariant |
| ProcessSteps.AdoptInv | xv6-labs-2024/kernel/proc.c:331-342 | handing a child to init keeps the family and wakeup invariants |
| ProcessSteps.ReapInv | xv6-labs-2024/kernel/proc.c:402-423 | reaping a zombie keeps them |
| ProcessSteps.ForkAllocInv | xv6-labs-2024/kernel/proc.c:110-127 | claiming a slot for a child keeps them |
| ProcessSteps.DispatchInv | xv6-labs-2024/kernel/proc.c:459-470 | switching to a process keeps them |
| ProcessSteps.SchedInv | xv6-labs-2024/kernel/proc.c:496-515 | switching to the scheduler keeps them |
| ProcessTheorems.StepInv | xv6-labs-2024/kernel/proc.c:280-622 | and the whole invariant: also what wait() has found out about children so far, and that a lock stays free while releasesleep wakes |
| ProcessTheorems.FlowIs | xv6-labs-2024/kernel/proc.c:280-622 | the path of every thread through the code, one step at a time, and that only kill marks it killed |
| ProcessTheorems.ParentMoves | xv6-labs-2024/kernel/proc.c:316-342 | parents change only under wait_lock: by fork, exit and wait |
| ProcessTheorems.BootInv | xv6-labs-2024/kernel/proc.c:233-256 | the state after userinit satisfies the invariant |
| ProcessTheorems.RunInv | xv6-labs-2024/kernel/proc.c:280-622 | so does every state of every run |
| ProcessTheorems.StepFrame | xv6-labs-2024/kernel/proc.c:280-622 | a step changes the slot of the thread that takes it, one target slot, and no other |
| ProcessTheorems.TargetIs | xv6-labs-2024/kernel/proc.c:331-622 | exactly what a step of another thread does to its target: dispatch, wake, reparent, reap, fork, kill, freeze or unfreeze it |
| ProcessTheorems.DispatchExclusive | xv6-labs-2024/kernel/proc.c:445-489 | while p->lock is free, p is RUNNING if and only if it is the current process of some CPU, and then of one only |
| ProcessTheorems.SchedNeverPanics | xv6-labs-2024/kernel/proc.c:496-515 | at sched() the CPU holds its process's lock and no other lock, and the state is not RUNNING |
| ProcessTheorems.LockCrossesSwtch | xv6-labs-2024/kernel/proc.c:463-477 | on both sides of swtch the CPU holds the process's lock, and a dead thread is never resumed |
| ProcessTheorems.NoLostExit | xv6-labs-2024/kernel/proc.c:391-436 | while wait_lock is free nobody sleeps in wait() with a zombie child |
| ProcessTheorems.ReapIsClean | xv6-labs-2024/kernel/proc.c:402-423 | a process is reaped only when no CPU runs it and its thread has ended; its slot is free and its pid gone afterwards |
| ProcessTheorems.ReapedOnce | xv6-labs-2024/kernel/proc.c:391-436 | no two calls of wait() return the same pid in any run |
| ProcessTheorems.ZombieWaits | xv6-labs-2024/kernel/proc.c:371-386 | a zombie keeps its pid and status until it is reaped |
| ProcessTheorems.WaitReturnsExit | xv6-labs-2024/kernel/proc.c:402-423 | wait() returns the pid and the status with which the process exited, however many steps lie between |
| ProcessTheorems.ParentsAreOlder | xv6-labs-2024/kernel/proc.c:316-342 | parent links lead to live processes with smaller pids |
| ProcessTheorems.SleepLockExclusive | xv6-labs-2024/kernel/sleeplock.c:21-55 | at most one process holds a sleep lock, and holdingsleep's test tells exactly that one |
| ProcessTheorems.NoLostRelease | xv6-labs-2024/kernel/sleeplock.c:21-41 | while the inner spinlock is free, a process asleep on the lock implies that some process holds it |
| KernelCalls.TestLockIs | xv6-labs-2024/kernel/sleeplock.c:21-31 | acquiresleep returns at its test if and only if the lock was free, and then the caller owns it; otherwise it goes to sleep on the lock |
| KernelCalls.AcquireReturns | xv6-labs-2024/kernel/sleeplock.c:21-31 | in every run: after a call of acquiresleep a process is next back with the lock its own and nobody else's, through sleep, preemption and wakeups of any cause |
| KernelCalls.ReleaseIs | xv6-labs-2024/kernel/sleeplock.c:33-41 | releasesleep frees the lock at once, and nobody owns it |
| KernelCalls.ReleaseWakesAll | xv6-labs-2024/kernel/sleeplock.c:33-41 | when it returns nobody is left asleep on the lock |
| KernelCalls.WaitGivesUp | xv6-labs-2024/kernel/proc.c:428-435 | wait() gives up if and only if the caller is killed or no slot has it as parent; otherwise it goes to sleep on itself with wait_lock held |
| KernelCalls.WaitReturns | xv6-labs-2024/kernel/proc.c:391-437 | in every run: when a process is next back from wait(), it has reaped a zombie child, is killed, or has no child |
| KernelCalls.ExitHandsOver | xv6-labs-2024/kernel/proc.c:331-386 | in every run: from exit()'s first step to its last, its children and no other processes become init's |
| KernelCalls.ForkReturns | xv6-labs-2024/kernel/proc.c:313-327 | when fork() returns the child is runnable, the caller's, and has a pid of its own |
| KernelCalls.KillIs | xv6-labs-2024/kernel/proc.c:603-622 | kill marks the slot and makes a sleeping victim runnable, and changes nothing else |
| KernelCalls.KillMissed | xv6-labs-2024/kernel/proc.c:428-434 | a process asleep in wait() is killed if and only if a kill reached it after wait()'s test of the flag and before it slept |
| Freezer.SleepsThroughKill | xv6-labs-2024/kernel/proc.c:428-434 | a run from boot in which init sleeps in wait() although killed |
| KernelCalls.FreezeIs | xv6-labs-2024/kernel/sysproc.c:109-130 | freeze succeeds if and only if the slot holds a live process that is not frozen, asleep or not, and changes only the flag |
| KernelCalls.UnfreezeIs | xv6-labs-2024/kernel/sysproc.c:132-157 | unfreeze clears the flag and makes a sleeper runnable, and changes nothing else |
| KernelCalls.WakesOnly | xv6-labs-2024/kernel/proc.c:584-598 | a turn of wakeup makes a slot runnable if and only if it is asleep on the channel |
| KernelCalls.NoDeadlock | xv6-labs-2024/kernel/proc.c:280-622 | in every reachable state in which a CPU runs a process some CPU can go on: p->lock, wait_lock and the locks in sleep locks are never waited for in a circle |
| KernelCalls.IdleDispatches | xv6-labs-2024/kernel/proc.c:459-470 | an idle CPU can take any runnable process that is not frozen and has left its CPU |
| Freezer.FlagOnlyBySyscall | xv6-labs-2024/kernel/sysproc.c:109-157 | only freeze and unfreeze of a slot change its flag; freeing and allocating the slot do not |
| Freezer.OthersMove | xv6-labs-2024/kernel/proc.c:584-622 | what others can do to a process that is off the CPU |
| Freezer.FrozenNotScheduled | xv6-labs-2024/kernel/proc.c:459-470 | from a freeze until an unfreeze of the slot the scheduler never picks it |
| Freezer.FrozenStaysOff | xv6-labs-2024/kernel/proc.c:459-470 | once off the CPU it stays off until unfrozen |
| Freezer.FrozenStandsStill | xv6-labs-2024/kernel/sysproc.c:109-157 | a frozen process off the CPU executes nothing, exits not and is not reaped; others can only wake it, mark it killed, reparent it or complete its fork |
| Freezer.Thawed | xv6-labs-2024/kernel/sysproc.c:132-157 | unfreeze clears the flag and leaves the process runnable, so any idle CPU can take it |
| Freezer.FrozenAtBirth | xv6-labs-2024/kernel/proc.c:156-173 | a new process starts frozen if and only if the slot's last occupant was reaped frozen, no freeze or unfreeze having reached the empty slot |
| Freezer.BornFrozen | xv6-labs-2024/kernel/proc.c:156-173 | a run from boot in which a process is born frozen although only its predecessor was ever frozen |
| Freezer.FreedEmpty | xv6-labs-2024/kernel/proc.c:157-173 | freeproc leaves the slot empty and not killed |
| Freezer.KilledAtBirth | xv6-labs-2024/kernel/proc.c:110-150 | a new process starts killed if and only if a kill has reached the slot since any earlier point at which it was empty and not killed, boot and freeproc included |
| Freezer.BornKilled | xv6-labs-2024/kernel/proc.c:603-622 | a run from boot in which a process is born killed although no live process was killed |
| ProcTable.Kill | xv6-labs-2024/kernel/proc.c:603-622 | marks and wakes the first slot with the pid, fails exactly when there is none, changes no other slot |
| ProcTable.Freeze | xv6-labs-2024/kernel/sysproc.c:109-130 | succeeds exactly when the first slot with the pid is live and not frozen, and sets only its flag |
| ProcTable.Unfreeze | xv6-labs-2024/kernel/sysproc.c:132-157 | succeeds exactly when the first slot with the pid is frozen; clears the flag, wakes a sleeper, changes no other slot |
| ProcTable.Wakeup | xv6-labs-2024/kernel/proc.c:584-598 | makes runnable exactly the other processes asleep on the channel |
| ProcTable.PidIsUnique | xv6-labs-2024/kernel/proc.c:93-103 | in every reachable state the scan for a live process's pid finds that process |
| ProcTable.ScansAreSteps | xv6-labs-2024/kernel/sysproc.c:109-157 | a scan that finds its process is the corresponding step of the machine, and succeeds exactly when the step is enabled |
| ProcTable.FreezeZeroFails | xv6-labs-2024/kernel/sysproc.c:116-128 | freeze(0) always fails |
| ProcTable.PrintTree | xv6-labs-2024/kernel/sysproc.c:185-207 | terminates on every ordered snapshot and lists the tree below p |
| ProcTable.ListsDescendantsOnce | xv6-labs-2024/kernel/sysproc.c:185-207 | the listing holds exactly the descendants of p, each once, at its distance from p |
| ProcTable.GoodIsOrdered | xv6-labs-2024/kernel/sysproc.c:185-207 | every reachable state is such a snapshot |
| ProcTable.AllDescendFromInit | xv6-labs-2024/kernel/sysproc.c:209-234 | every process that has been started descends from init, so ptree shows it |
| PageTable.TreeIsMap | xv6-labs-2024/kernel/vm.c:85-103 | following the tree from its root gives exactly the partial map from virtual pages to entries |
| PageTable.OnePath | xv6-labs-2024/kernel/vm.c:85-103 | no table page is reached by two paths |
| PageTable.IndicesUnique | xv6-labs-2024/kernel/riscv.h:393-395 | the three 9-bit indices determine the virtual page |
| PageTable.Recompose | xv6-labs-2024/kernel/riscv.h:393-395 | the three 9-bit indices are the digits of the page number |
| PageTable.UpCovers | xv6-labs-2024/kernel/riscv.h:370-371 | the pages that PGROUNDUP counts are exactly those with an address below the size |
| PageTable.TableAddedGood | xv6-labs-2024/kernel/vm.c:95-100 | adding a missing table changes no map of any root |
| PageTable.LeafPutGood | xv6-labs-2024/kernel/vm.c:163-165 | setting an entry changes the map at that page of that root and nowhere else |
| PageTable.TableDroppedGood | xv6-labs-2024/kernel/vm.c:281-293 | freeing an emptied table changes no map |
| PageTable.RolledBack | xv6-labs-2024/kernel/vm.c:244-253 | unmapping what was added leaves the maps as before and only tables allocated |
| PageTable.ForkUndone | xv6-labs-2024/kernel/proc.c:293-297 | undoing a failed fork restores the use of every page and every map |
| PageTable.SameFreeCount | xv6-labs-2024/kernel/sysproc.c:163-182 | memories with the same page uses have equally many free pages |
| VirtualMemory.Vm.constructor | xv6-labs-2024/kernel/kalloc.c:26-40 | kinit puts every page of the range on the free list once |
| VirtualMemory.Vm.Kalloc | xv6-labs-2024/kernel/kalloc.c:68-82 | takes the first free page, or returns 0 exactly when there is none; no map changes |
| VirtualMemory.Vm.Kfree | xv6-labs-2024/kernel/kalloc.c:46-63 | a page nothing refers to is free again; no map changes |
| VirtualMemory.Vm.Walk | xv6-labs-2024/kernel/vm.c:85-103 | finds the level-0 table of the page; with alloc it fails only when memory has run out, adds tables to this root only and changes no map; without alloc it changes nothing |
| VirtualMemory.Vm.MapPages | xv6-labs-2024/kernel/vm.c:143-172 | it succeeds if and only if the free list has a page for every missing table on the way to the range; the pages mapped are the longest prefix whose tables fit, mapped to consecutive pages; nothing is mapped exactly when those of the first page do not fit |
| PageTable.PrefixStays | xv6-labs-2024/kernel/vm.c:158-170 | a memory in which of two pages the first can be mapped and the second cannot |
| PageTable.FreeSpent | xv6-labs-2024/kernel/vm.c:95-100 | the free list is shorter by exactly the number of new tables |
| VirtualMemory.Vm.UvmUnmap | xv6-labs-2024/kernel/vm.c:177-199 | removes exactly the range, frees exactly its pages if asked to, reaches none of its panics |
| VirtualMemory.Vm.UvmCreate | xv6-labs-2024/kernel/vm.c:203-212 | a new root that maps nothing, on a page that was free |
| VirtualMemory.Vm.UvmAlloc | xv6-labs-2024/kernel/vm.c:232-256 | on success every address from the old size rounded up to the new size is readable, zero and writable as asked, on pages of its own; on failure every map is as before and only tables are kept; the bytes below the old size stay either way |
| VirtualMemory.Vm.UvmDealloc | xv6-labs-2024/kernel/vm.c:262-274 | unmaps and frees exactly the pages between the two sizes: no address from the new size rounded up to the old size is readable, and the bytes below the new size stay |
| VirtualMemory.Vm.UvmCopy | xv6-labs-2024/kernel/vm.c:312-340 | on success every address below the size reads in the child as in the parent, with the same permissions, on pages of its own; on failure the child's map is as before and only tables are kept; the parent's bytes stay either way |
| VirtualMemory.Vm.FreeWalk | xv6-labs-2024/kernel/vm.c:278-294 | frees exactly the tables of the subtree, each once, without the leaf panic |
| VirtualMemory.Vm.UvmFree | xv6-labs-2024/kernel/vm.c:298-304 | every page that served the root is free, everything else as before |
| VirtualMemory.Vm.ProcPagetable | xv6-labs-2024/kernel/proc.c:177-207 | a root that maps the trampoline and the trapframe only, or no change to the use of any page |
| VirtualMemory.Vm.ProcFreePagetable | xv6-labs-2024/kernel/proc.c:211-217 | every page that served the root is free, the two shared pages excepted |
| VirtualMemory.Vm.ForkMemory | xv6-labs-2024/kernel/proc.c:280-298 | after a successful fork every address below the size reads in the child as it did in the parent; a failed one leaves every page use and map as before; the parent's bytes stay either way |
| VirtualMemory.Vm.MemInfo | xv6-labs-2024/kernel/sysproc.c:163-182 | free pages in the upper 32 bits and the remaining ones in the lower, so that the two add up to the total |
| UserCopy.WalkAddr | xv6-labs-2024/kernel/vm.c:108-126 | the page behind the address exactly when the user may read it |
| UserCopy.CopyIn | xv6-labs-2024/kernel/vm.c:388-408 | the bytes of the range as read one by one, over any page crossings, exactly when all are readable; else those before the first page that is not |
| UserCopy.CopyOut | xv6-labs-2024/kernel/vm.c:358-383 | the source is in place exactly when the whole range is writable, else the part before the first page that is not; no other byte of any address space changes |
| UserCopy.RoundTrip | xv6-labs-2024/kernel/vm.c:358-408 | what copyout wrote copyin reads back |
| PageTable.GrownUserOwned | xv6-labs-2024/kernel/vm.c:232-340 | uvmalloc and uvmcopy keep every user-accessible page a page of its own address space |
| PageTable.NewSpaceUserOwned | xv6-labs-2024/kernel/proc.c:177-207 | so does proc_pagetable |
| PageTable.UnmappedUserOwned | xv6-labs-2024/kernel/vm.c:177-199 | so do uvmunmap and uvmdealloc |
| UserCopy.CopyInStr | xv6-labs-2024/kernel/vm.c:414-451 | succeeds exactly when a NUL occurs within max bytes before any unreadable page, and returns the string up to it |
| Virtio.SubmittedGood | xv6-labs-2024/kernel/virtio_disk.c:235-282 | publishing a request on three free descriptors keeps all of the ring and ownership invariants |
| Virtio.CompletedGood | xv6-labs-2024/kernel/virtio_disk.c:309-314 | the device completing any request it has taken keeps them |
| Virtio.RetiredGood | xv6-labs-2024/kernel/virtio_disk.c:284-290 | giving the chain back keeps them |
| Virtio.Slots | xv6-labs-2024/kernel/virtio_disk.c:272-277 | across the 16-bit wrap, up to NUM consecutive positions are different ring slots |
| Virtio.RoomFor | xv6-labs-2024/kernel/virtio_disk.c:272-277 | a new head always finds an unused ring slot |
| Virtio.DeviceSeesRequest | xv6-labs-2024/kernel/virtio_disk.c:235-277 | what the device reads from the avail ring is the head of a formatted chain in flight |
| Virtio.SectorIs | xv6-labs-2024/kernel/virtio_disk.c:218 | the sectors are the block's 1024 bytes if and only if the block number is below 2^31 |
| Virtio.SectorsApart | xv6-labs-2024/kernel/virtio_disk.c:218 | different blocks below 2^31 do not overlap; block 2^31 is block 0 |
| Virtio.ServedIs | xv6-labs-2024/kernel/virtio_disk.c:235-265 | a device that follows a formatted chain writes the buffer to its block, or reads the block into its buffer, and changes no other block and no other buffer |
| Virtio.UsedEntryIsLive | xv6-labs-2024/kernel/virtio_disk.c:312-320 | an unread used entry names a request in flight with its buffer recorded and status 0 |
| Virtio.ChainsDisjoint | xv6-labs-2024/kernel/virtio_disk.c:201-213 | two requests in flight share no descriptor |
| Virtio.Conserved | xv6-labs-2024/kernel/virtio_disk.c:156-213 | free descriptors and three per request add up to NUM |
| Virtio.AllRead | xv6-labs-2024/kernel/virtio_disk.c:312-324 | equal 16-bit indices mean that no finished request is unread |
| Virtio.Disk.AllocDesc | xv6-labs-2024/kernel/virtio_disk.c:156-166 | a free descriptor is taken, or -1 exactly when there is none |
| Virtio.Disk.FreeDesc | xv6-labs-2024/kernel/virtio_disk.c:169-182 | the descriptor is blank and free; its two panics are its preconditions, met by every caller |
| Virtio.Disk.FreeChain | xv6-labs-2024/kernel/virtio_disk.c:185-197 | the three descriptors of a chain are freed, each once |
| Virtio.Disk.Alloc3Desc | xv6-labs-2024/kernel/virtio_disk.c:201-213 | three different free descriptors, or no change at all when at most two are free |
| Virtio.Disk.Submit | xv6-labs-2024/kernel/virtio_disk.c:215-279 | the request is published, or nothing changes because fewer than three descriptors are free |
| Virtio.Disk.DeviceTake | xv6-labs-2024/kernel/virtio_disk.c:272-277 | the device takes the requests in order, each once, and the command it finds addresses exactly the bytes of the request's block |
| Virtio.Disk.DeviceComplete | xv6-labs-2024/kernel/virtio_disk.c:235-265 | following the chain moves exactly the request's block between disk and buffer, and the status goes where the third descriptor points |
| Virtio.Disk.Transfer | xv6-labs-2024/kernel/virtio_disk.c:215-292 | driver, device and interrupt together, on an otherwise idle disk: a write puts the buffer into its block, a read the block into its buffer, and nothing else changes |
| Virtio.Disk.IntrTurn | xv6-labs-2024/kernel/virtio_disk.c:312-324 | one finished request is acknowledged; the status panic is not reached |
| Virtio.Disk.Intr | xv6-labs-2024/kernel/virtio_disk.c:294-327 | exactly the finished requests are acknowledged |
| Virtio.Disk.Retire | xv6-labs-2024/kernel/virtio_disk.c:283-292 | a requester that sees b->disk == 0 has a finished request, and its three descriptors become free |
| UserHeap.AbsorbedGood | xv6-labs-2024/user/umalloc.c:33-35 | merging with the entry above keeps the list ordered, coalesced and the tiling exact |
| UserHeap.AppendedGood | xv6-labs-2024/user/umalloc.c:38-40 | so does merging with the entry below |
| UserHeap.InsertedGood | xv6-labs-2024/user/umalloc.c:36-42 | so does inserting between two entries |
| UserHeap.SplitGood | xv6-labs-2024/user/umalloc.c:78-82 | so does cutting the tail off an entry |
| UserHeap.TakenGood | xv6-labs-2024/user/umalloc.c:76-77 | so does handing out a whole entry |
| UserHeap.GrownGood | xv6-labs-2024/user/umalloc.c:54-58 | so does memory from sbrk above everything obtained so far |
| UserHeap.Circular | xv6-labs-2024/user/umalloc.c:30-32 | from every entry the links lead to every entry |
| UserHeap.FullyCoalesced | xv6-labs-2024/user/umalloc.c:33-43 | when everything has been freed, contiguous memory is one free block |
| UserHeap.Units | xv6-labs-2024/user/umalloc.c:69-69 | the least number of units that holds the header and the bytes |
| UserHeap.Heap.Free | xv6-labs-2024/user/umalloc.c:24-44 | terminates; the block is free and merged with its neighbours, no other allocated block changes in header or contents |
| UserHeap.Heap.MoreCore | xv6-labs-2024/user/umalloc.c:46-61 | fails exactly when sbrk does; otherwise an entry at freep or just after it has room, allocated blocks unchanged |
| UserHeap.Heap.Search | xv6-labs-2024/user/umalloc.c:74-89 | terminates, also when the new space is merged into its predecessor, and finds a large enough entry, growing the heap only if none fits |
| UserHeap.Heap.Malloc | xv6-labs-2024/user/umalloc.c:63-90 | returns a fresh block of enough units, or 0 exactly when no entry fits and sbrk fails; no allocated block changes |
| UserHeap.Heap.Store | xv6-labs-2024/user/umalloc.c:84-84 | whatever the program writes inside its blocks leaves the heap intact |

## Left out

- BufferCache.Cache.Bread: a process that must wait for the buffer's lock goes on with AcquireSleep and Fill in later steps; the sleep itself is not in this class.
- BufferCache.Cache.Bunpin: counts are unbounded, so the wrap-around of a 32-bit count is not modelled.
- Storage.StepRefines: one disk is modelled, as virtio_disk_rw ignores the device number; a bget that would panic for want of buffers is not a step.
- UserHeap.Heap.Malloc: assumes a request whose size in bytes fits sbrk's `int`; beyond that the argument to sbrk turns negative.
- FileSystem.Fs.Writei: assumes that the copy from user memory does not fail; a failing copy may leave a partly changed cached block that is not logged.
- FileSystem.Fs.Readi: assumes that the copy to user memory does not fail, for the same reason.
- FileSystem.Fs.IUpdate: the byte layout of an on-disk inode is not modelled, only which block it is in.
- LogProgress.CanCommit: speaks of the log and its map of cached blocks; that bget finds a buffer to recycle for the log's own blocks is not part of it, and holders of buffer locks are taken to release them.
- KernelCalls.NoDeadlock: locks outside proc.c and sleeplock.c are not part of the machine; sleeping forever for want of a wakeup is what NoLostExit, NoLostRelease and ReleaseWakesAll speak of.
- Virtio.Disk.DeviceComplete: the device reports success; a failing request panics by design.
- VirtualMemory.Vm.Walk: page-table entries are in decoded form; the packing of page number and flags into 64 bits is not modelled.
- ProcTable.PrintTree: lists a fixed snapshot; the original takes one slot's lock at a time, so the table may change under it.
- ProcTable.Kill: the scan is modelled on a table at rest; the interleaving of the scan's single steps is in the process machine.
- UserCopy.CopyIn: asks that every user-accessible page belong to its address space, as GrownUserOwned, NewSpaceUserOwned, UnmappedUserOwned and ForkMemory keep it; other mappings are not covered.
- UserCopy.CopyOut: asks the same.
- VirtualMemory.Vm.MemInfo: the free list is a sequence, so the walk over the links inside free pages is not modelled.
- ProcTable.Freeze: like Kill, a table at rest.
- ProcTable.Unfreeze: like Kill, a table at rest.
- ProcTable.Wakeup: like Kill, a table at rest.
- Virtio.Disk.FreeDesc: the wakeup of a requester waiting for descriptors is not modelled.
- AlmostFull.TenReached: gives the disk as a state in which every block in use belongs to a file; the calls that lead there from mkfs's image are not spelled out, and what the files mean (directories among them) is not modelled.
- Inode and link-count lifetime (ialloc, iget, iput), directories and path names are not modelled.
- Pipes, the console, exec's ELF loading, system-call argument fetching and trap handling are not modelled.
- Spinlock internals, interrupt nesting, memory fences and the swtch assembly are atomic steps here.
- Fairness and progress of the scheduler, and pid overflow, are not modelled.
- Printed output (printf, procdump, the text of ptree) is not modelled.
