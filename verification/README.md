# Models of the xv6 kernel and user programs

A Dafny model of the hard parts of this xv6 RISC-V fork, with proofs of what
they are for. Imperative code is modelled by classes and methods with the same
loops, branches and error returns, proved against specification functions.
Protocols between processes, with a device, or with a crash are modelled as
state machines over their atomic steps, and the theorems hold of every run.

`dafny verify dfyconfig.toml` checks the whole project.

The parts, each in a few modules:

- Crash-safe storage. `Blocks`, `LogDisk`, `LogRuns` (the redo log on disk and
  crashes), `LogOps` (reservations over all interleavings), `Bcache`, `LogPins`,
  `LogCommit`, `Log` (the buffer cache and the log on top of it), `Bitmap`, `FsTree`, `FsLog` (what an
  operation logs), `Fs`, `Mkfs`.
- Virtual memory. `PageTable` (the Sv39 tree of section 4.4 of the RISC-V
  Privileged Architecture, version 1.12), `Vm`, `VmFree`.
- Processes. `SleepWakeup` (sleep and wakeup step by step, for any client),
  and its clients `PipeRing`, `Pipes` and `PipeTrace` (whose bytes go where),
  `SleepLock`, `WaitExit`; `ProcTable`; `Scheduler`.
- The disk driver. `VirtioRing`, `VirtioHistory`, `Virtio` (the split virtqueue of
  section 2.6 of VIRTIO 1.1, with a device that completes in any order).
- User programs. `HeapRing` and `Malloc`; `Regexp` and `Grep`; `ShellLex`,
  `ShellGrammar`, `ShellMeaning` (what tokens mean, without a parser), `ShellParser`
  and `Shell`.
- `Counting` holds shared facts about wrapping counters and distinct numbers,
  `Options` the type of values that may be missing.

Things worth knowing when reading the contracts:

- A block is a sequence of 1024 bytes and a disk a sequence of blocks; a block
  write is atomic and a crash may happen between any two.
- A ghost field `plain` of the buffer cache is the block map that readers see;
  `Bread` returns its value and the log's operations say how it changes.
- A ghost field `held` of the log counts, for each buffer, the processes that
  hold it or wait for its lock; a buffer's reference count is that number, and
  one more if its block is logged. The log's methods are the steps of any number
  of processes.
- `Owns` maps each owned block to the one inode slot or indirect entry that
  points to it; `Pool` is the set of free and owned physical pages.
- In the process models a step is what the code does while it holds the
  relevant lock, or one step inside sleep or wakeup. kill() may wake anyone.
- Memory, the disk size, the number of processes and of buffers are arbitrary.
- Input that the code rejects by panic or -1 is an error result here. Calls on
  which the code would panic and which its callers exclude are preconditions.

Where the code does not do what one would expect, the exact condition is
proved: `LogOps.NeverPanicsIff`, `LogOps.FullPanic`, `Log.Log.Commit`,
`Mkfs.RootRounding`, `Pipes.NoLostWakeupIff`, `Malloc.AsksEnough` with
`Malloc.Heap.Malloc`, and `Grep.Grep`.

## Model

| member | source | states |
|---|---|---|
| LogRuns.CrashAtomicity | kernel/log.c:68-123 | for every run of commits, crashes between any two block writes of a commit or a recovery, and (interrupted) recoveries: recovering the disk gives exactly the home blocks of the transactions whose nonzero header write reached it, in order; an up machine already shows them |
| LogRuns.StepAtomic | kernel/log.c:146-203 | one event of such a run adds the whole transaction to the durable ones, or nothing of it |
| LogDisk.CrashInCommit | kernel/log.c:178-203 | after k block writes of commit, recovery yields the old blocks if k <= n and the whole transaction afterwards; the completed commit leaves a clear header and the transaction's blocks |
| LogDisk.CrashInRecovery | kernel/log.c:116-123 | after any number of block writes of a recovery, the next recovery restores the same home blocks, and ends with a clear header |
| LogDisk.CommitRecovers | kernel/log.c:193-203 | the header write is the commit point: from it on, installing the log equals applying the transaction directly |
| LogDisk.InstalledIsApplied | kernel/log.c:68-83 | copying the log home gives each block the value of its last entry, as applying the transaction in order does |
| LogDisk.RecoverAgrees | kernel/log.c:116-123 | disks that agree on the log area and differ only in blocks the header names recover to the same home blocks |
| LogDisk.WithHeader | kernel/log.c:102-114 | the header block written by write_head reads back as the same list of block numbers |
| LogOps.Reservation | kernel/log.c:126-175 | in every reachable state of any interleaving, logged blocks plus unspent reservations are at most LOGSIZE, logged numbers are distinct, and no operation is active during a commit |
| LogOps.StepInv | kernel/log.c:126-175 | every step keeps the reservation invariant; while a commit is in progress, block by block, only waiting begin_ops and the commit itself move, no operation opens, and the header in memory changes only when the commit erases it |
| LogOps.HeaderFixed | kernel/log.c:178-203 | in every run, from the end_op that starts a commit until the commit erases the header, the header in memory is the same, whatever the other processes do |
| LogOps.HeadNamesCopies | kernel/log.c:178-203 | in every reachable state the header on disk is empty, or names exactly the blocks whose copies the commit put into the log, in order |
| LogOps.CommitReaches | kernel/log.c:193-203 | the stages of a commit lead from its end_op to an empty header with no commit in progress |
| LogOps.UnusedPanic | kernel/log.c:214-235 | while its operation has logged fewer than MAXOPBLOCKS blocks, log_write of any block, new or logged before, panics exactly when the header already holds log.size - 1 blocks |
| LogOps.NeverPanicsIff | kernel/log.c:214-235 | operations that have not used up their reservation never panic, in any run, whatever they log, if and only if log.size is at least LOGSIZE + 1; the 30 set by mkfs is one short |
| LogOps.FullPanic | kernel/log.c:214-235 | with log.size at least LOGSIZE + 1, a log_write within the limit panics if and only if LOGSIZE blocks are logged; the block is then one its operation logged before, and every open operation has logged all its MAXOPBLOCKS |
| LogOps.AbsorptionCanPanic | kernel/log.c:214-235 | a run that ends so: log_write panics on a block that it would absorb, because the size test comes first |
| Bcache.BufferCache.constructor | kernel/bio.c:36-53 | an empty cache over a disk: ring linked, no buffer assigned, readers see the disk |
| Bcache.BufferCache.FindCached | kernel/bio.c:66-73 | the forward search finds the buffer of a block exactly when it is cached |
| Bcache.BufferCache.FindUnused | kernel/bio.c:77-87 | the backward search finds the unused buffer released longest ago, or there is none |
| Bcache.BufferCache.Bget | kernel/bio.c:58-89 | a hit takes one more reference; a miss recycles the least recently released unused buffer; it panics exactly when the block is not cached and every buffer is in use |
| Bcache.BufferCache.Lock | kernel/bio.c:92-103 | whoever gets the sleep lock of a buffer it has a reference to finds the latest value of its block, read from disk if need be |
| Bcache.BufferCache.Bread | kernel/bio.c:92-103 | the locked buffer holds the latest value written for the block |
| Bcache.BufferCache.Modify | kernel/bio.c:92-103 | writing a locked buffer's data changes what readers see of that block and nothing else |
| Bcache.BufferCache.Bwrite | kernel/bio.c:106-112 | exactly one block of the disk changes, to the buffer's contents |
| Bcache.BufferCache.MoveToFront | kernel/bio.c:128-134 | the list surgery keeps the doubly linked ring and its order by time of release |
| Bcache.BufferCache.Brelse | kernel/bio.c:116-137 | drops one reference and the lock; at zero references the buffer becomes the most recently released |
| Bcache.BufferCache.Bpin | kernel/bio.c:139-144 | one more reference, invariant kept |
| Bcache.BufferCache.Bunpin | kernel/bio.c:146-151 | one reference less, invariant kept |
| Bcache.Relink | kernel/bio.c:128-134 | unlinking a node and pushing it behind the head leaves next and prev inverse to each other along the new order |
| Bcache.RepresentsOne | kernel/bio.c:92-103 | cache and disk together stand for one block map only |
| LogCommit.WriteHead | kernel/log.c:102-114 | writes the header block through the cache; nothing else on disk changes; it panics exactly without a buffer |
| LogCommit.ReadHead | kernel/log.c:86-97 | returns the header's block numbers and changes nothing |
| LogPins.Readers | kernel/log.c:166-168 | while a commit runs, any number of readers take, lock and release any home blocks, logged ones included, in any order: every reference stays accounted for, logged blocks stay cached, and neither the disk nor what readers see changes |
| LogCommit.WriteLog | kernel/log.c:178-191 | with readers going on between any two of its writes, the disk passes through exactly the states of the first k writes of a commit; k falls short of n only when no buffer is free |
| LogCommit.InstallTrans | kernel/log.c:68-83 | of a commit, with readers going on: copies log blocks home one write at a time and drops exactly one pin per block; it falls short only when no buffer is free |
| LogCommit.InstallRecovered | kernel/log.c:68-83 | of a recovery: copies log blocks home one write at a time and leaves every reference as it was |
| LogCommit.RecoverFromLog | kernel/log.c:116-123 | the disk passes through exactly the write sequence of the recovery model and ends recovered |
| LogCommit.CommitBlocks | kernel/log.c:193-203 | the disk passes through exactly the first k disks of the commit model for the cached contents, all of them unless no buffer is free; then all pins are released and no other reference is |
| Log.Log.constructor | kernel/log.c:54-65 | recovers at boot, then the log is idle, no buffer is held and readers see the recovered disk |
| Log.Log.BeginOp | kernel/log.c:126-142 | an admitted operation makes the step of the reservation model: the blocks logged and the unspent reservations of all open operations, its own MAXOPBLOCKS included, fit LOGSIZE; otherwise one of the two waiting conditions holds |
| Log.Log.Bget | kernel/bio.c:58-89 | one more process holds or waits for a buffer of the block; every reference stays accounted for by a holder or by a pin, logged blocks stay cached; it panics exactly without a buffer |
| Log.Log.Lock | kernel/bio.c:92-103 | a process that waited gets the lock and the latest value of the block; the invariant is kept |
| Log.Log.Bread | kernel/bio.c:92-103 | the same in one step for a block that nobody has locked, with any other buffers held and locked |
| Log.Log.Update | kernel/log.c:205-213 | the holder of a buffer changes its block inside an operation: readers will see it, the disk does not change, the invariant is kept |
| Log.Log.LogWrite | kernel/log.c:214-235 | panics exactly when the header is full; otherwise makes the step of the reservation model and pins a new block, so that logged blocks stay cached and are not written home |
| Log.Log.Brelse | kernel/bio.c:116-137 | releases a buffer whose holder has logged its changes; every block that is neither logged nor locked is on disk as readers see it |
| Log.Log.WriteBlock | kernel/log.c:205-235 | a whole update while other buffers are held: readers see it at once, the disk does not, its block joins the header; it panics exactly without a buffer or with a full header |
| Log.Log.ReadBlock | kernel/bio.c:92-103 | a read while other buffers are held returns the latest value and changes neither disk nor what readers see; it panics exactly without a buffer |
| Log.Log.EndOp | kernel/log.c:146-175 | commits exactly when the last operation ends; the disk goes through the commit's write sequence while readers hold and release what they like |
| Log.Log.Commit | kernel/log.c:193-203 | with readers going on between any two block writes: k of the commit's writes are made, all of them unless a bread finds no free buffer, which is its only panic and certain if as many blocks are logged as there are buffers; when done the header is empty and readers see the same blocks |
| LogCommit.CrashDuringCommit | kernel/log.c:193-203 | a crash or panic after any j of the block writes that a commit made: recovery gives the old home blocks if j is at most the number of logged blocks, and what readers saw afterwards |
| LogCommit.ApplyIsPlain | kernel/log.c:178-203 | the transaction formed from the logged blocks turns the disk into what readers see |
| LogPins.SomeFree | kernel/log.c:178-191 | if fewer blocks are logged and buffers held than there are buffers, one is free for the commit |
| LogPins.NoneFree | kernel/log.c:178-191 | with as many logged blocks as buffers none is free, so the commit panics |
| LogPins.LogBlockFree | kernel/log.c:178-191 | nobody but the commit holds a block of the log, so a cached one is a free buffer |
| FsTree.BitIffOneOwner | kernel/fs.c:65-105 | a data block's bit is set if and only if an inode slot, indirect slot or indirect entry points to it, and then exactly one does |
| Bitmap.FirstClear | kernel/fs.c:65-88 | the scan finds the first clear bit below the size |
| Fs.FileSystem.Balloc | kernel/fs.c:65-88 | returns a zeroed block that nobody owned, or 0 exactly when every bit is set |
| Fs.FileSystem.Bfree | kernel/fs.c:91-105 | exactly the block in the given slot of the inode loses its bit, which was set, so bfree does not panic; the bits of all other owned blocks stay |
| Fs.FileSystem.Bmap | kernel/fs.c:382-421 | returns the block of a file offset, allocating data and indirect blocks as needed; no other pointer and no data changes; 0 only on a full disk; nothing changes if it was mapped |
| Fs.FileSystem.AllocInSlot | kernel/fs.c:388-406 | a fresh block goes into an inode slot and has that one owner |
| Fs.FileSystem.AllocInEntry | kernel/fs.c:407-416 | a fresh block goes into an indirect entry and has that one owner |
| Fs.FileSystem.WriteChunk | kernel/fs.c:516-528 | one round of writei splices its bytes into the file; other files are unchanged; it logs the block written and, for a new one, at most one bitmap block and what the indirect block costs |
| Fs.FileSystem.WriteChunks | kernel/fs.c:516-528 | the loop of writei: the bytes up to the count are spliced in, and the blocks logged are within the count by blocks touched |
| Fs.FileSystem.Writei | kernel/fs.c:505-539 | returning r, the file is the old bytes with the first r source bytes spliced in at the offset, every other file is unchanged, a short count means a full disk, and -1 is returned exactly for a bad offset or length, changing nothing; of the inodes only the size and block addresses of this one change, so its type and link count stay; it logs at most Worst(off, n) distinct blocks, and every block, bitmap block and inode block that changed is among them |
| Fs.FileSystem.Resize | kernel/fs.c:530-536 | a longer file has its new size, and the inodes on disk equal those in memory again; of the inodes only the size and addresses of this one change, and every inode block that changed was logged |
| Fs.FileSystem.Filewrite | kernel/file.c:187-215 | a write of any length is cut into operations of which none logs more than MAXOPBLOCKS distinct blocks; all its bytes are spliced in and their number returned, or a prefix of them and -1; -1 comes only from an offset beyond the file, a file that would grow too large, or a full disk, and the first two always give it; of the inodes only the size and addresses of this one change |
| FsLog.ShareFits | kernel/file.c:187-194 | the share of a write that goes into one operation, from whatever offset, logs at most MAXOPBLOCKS blocks |
| FsLog.UseMore | kernel/fs.c:516-528 | one more round of writei touches one more block, and takes a new one unless it starts in the middle of the last block of the file |
| Fs.FileSystem.Readi | kernel/fs.c:471-496 | returns the slice of the file at the offset and changes nothing |
| Fs.FileSystem.Itrunc | kernel/fs.c:425-453 | the file becomes empty, exactly the blocks it held lose their bits, other files stay; of the inodes only the size and addresses of this one change, and every block that changed was logged |
| Fs.FileSystem.FreeDirect | kernel/fs.c:432-437 | the first loop frees the direct blocks |
| Fs.FileSystem.FreeIndirect | kernel/fs.c:439-449 | frees every indirect entry and the indirect block |
| Fs.FileSystem.Iput | kernel/fs.c:336-362 | the last reference to an inode that was read and has no links clears the inode and frees every block it owned; any other call only drops the reference; no other inode changes, and every block that changed was logged |
| Fs.FileSystem.Ialloc | kernel/fs.c:198-219 | the first free inode gets the type, no links and no content, and nothing else changes; or 0 when there is none |
| Fs.FreedExactly | kernel/fs.c:425-453 | dropping an inode's owners from the bitmap clears exactly its blocks |
| Fs.ChunkData | kernel/fs.c:516-528 | overwriting part of the right block splices the bytes into the file |
| Fs.ChunkRead | kernel/fs.c:482-493 | a part of the right block is the matching slice of the file |
| Fs.ChunkFrame | kernel/fs.c:516-528 | writing a file's data block changes no pointer and no other file |
| Mkfs.Image.constructor | mkfs/mkfs.c:68-175 | an image with no files and all inodes clear |
| Mkfs.Image.Ialloc | mkfs/mkfs.c:222-234 | the next inode, as an empty file of the type with one link, and no other inode changes; overrun marks exactly the call that finds none left |
| Mkfs.Image.Iappend | mkfs/mkfs.c:254-296 | appends the bytes to one file and leaves the others; of the inodes only its size and addresses change; fails only for lack of blocks or beyond the largest file |
| Mkfs.Image.Locate | mkfs/mkfs.c:268-285 | finds or takes the direct or indirect block for a file block |
| Mkfs.Image.TakeSlot | mkfs/mkfs.c:270-278 | the next free block goes into an inode slot, as its only owner |
| Mkfs.Image.TakeEntry | mkfs/mkfs.c:279-283 | the next free block goes into an indirect entry, as its only owner |
| Mkfs.RootRounding | mkfs/mkfs.c:166-170 | rounding the root directory's size leaves a file without holes if and only if the size was not a multiple of BSIZE |
| Mkfs.FullRootHasHole | mkfs/mkfs.c:166-170 | a root directory of 64 entries fills its block, and no content of the rounded size fits the inode |
| Mkfs.Balloc | mkfs/mkfs.c:236-250 | the bitmap has a bit set exactly for the used blocks |
| Mkfs.Finish | mkfs/mkfs.c:166-175 | the finished image satisfies block ownership and the bitmap equivalence, and all files are whole if the root size was not a multiple of BSIZE |
| Mkfs.Mount | mkfs/mkfs.c:68-175 | the kernel's file-system invariant holds of the finished image |
| PageTable.MkPteFields | kernel/riscv.h:380-385 | an entry built from page and permissions gives them back |
| PageTable.PxAgrees | kernel/riscv.h:387-390 | the nine-bit indices of an address are those of its page number |
| PageTable.PutLeaf | kernel/vm.c:143-172 | writing one leaf entry changes the leaf of that page of that root only |
| PageTable.MapLeaf | kernel/vm.c:143-172 | a new leaf entry keeps the invariant: one tree per root, and each user page owned by the one address that maps it |
| PageTable.UnmapLeaf | kernel/vm.c:177-199 | clearing a leaf entry keeps the invariant, and the page it held was owned by exactly that address |
| PageTable.GrowSpace | kernel/vm.c:85-103 | hanging an empty page into the tree changes no translation |
| Vm.Memory.Kfree | kernel/kalloc.c:46-63 | the page leaves its owner, if any, for the front of the free list: pages free or owned stay so, each once, and pa joins them |
| Vm.Memory.Kalloc | kernel/kalloc.c:68-82 | takes the first free page, which nobody owns, or 0 exactly when the list is empty |
| Vm.Memory.Freerange | kernel/kalloc.c:33-40 | exactly the whole pages of the range become free |
| Vm.Memory.Walk | kernel/vm.c:85-103 | finds or builds the leaf page of an address; no translation changes, the pool of pages is constant, failure means fewer than two free pages |
| Vm.Memory.Walkaddr | kernel/vm.c:108-126 | the physical page of a valid user mapping, else 0; changes nothing |
| Vm.Memory.MapOne | kernel/vm.c:160-170 | one page gains its mapping, or no translation changes |
| Vm.Memory.Mappages | kernel/vm.c:143-172 | success adds exactly its range; failure maps a prefix and means pages ran out; no other address's translation moves |
| Vm.RangedTranslates | kernel/vm.c:143-172 | after mapping a range, each of its pages translates to the matching physical page with the permissions, and every other page as before |
| Vm.RangedUser | kernel/vm.c:108-126 | walkaddr finds a page that mappages mapped if and only if its permissions had PTE_U, and then the matching physical page |
| Vm.GrewUser | kernel/vm.c:232-256 | walkaddr finds every page that uvmalloc added: a zeroed page owned by that address |
| Vm.Memory.UnmapOne | kernel/vm.c:186-198 | one page loses its mapping, and goes to the free list if asked |
| Vm.Memory.Uvmunmap | kernel/vm.c:177-199 | removes exactly its range, freeing its pages if asked; free and owned pages together stay constant |
| Vm.Memory.Uvmalloc | kernel/vm.c:232-256 | grows by zeroed pages, or restores every translation and leaks no page; it fails only if fewer than three free pages per new page existed |
| Vm.Memory.Uvmdealloc | kernel/vm.c:262-274 | shrinks by exactly the pages above the new size |
| Vm.Memory.UndoGrowth | kernel/vm.c:243-252 | unmapping what was just mapped restores every translation |
| Vm.Memory.Uvmcopy | kernel/vm.c:312-340 | the child gets a copy of every page with equal contents and flags, or is restored; no page leaks and the parent is unchanged |
| Vm.UndoTranslates | kernel/vm.c:243-252 | growth undone leaves every address translating as before |
| VmFree.Uvmcreate | kernel/vm.c:203-212 | a fresh root with nothing mapped, or 0 exactly without free pages |
| VmFree.Freewalk | kernel/vm.c:278-294 | the recursion returns every page of the subtree to the free list exactly once |
| VmFree.TreeFreed | kernel/vm.c:278-294 | after the walk the tree's pages are free and every other address space is intact |
| VmFree.Uvmfree | kernel/vm.c:298-304 | user pages and interior pages all return to the free list; the pool is constant and other address spaces unchanged |
| SleepWakeup.StepKeeps | kernel/proc.c:824-869 | every step of sleep, wakeup, kill and their callers keeps: whoever is committed to sleep on a channel sleeps rightly or is owed a wakeup that has not passed it |
| SleepWakeup.NoLostWakeup | kernel/proc.c:824-869 | while the condition lock is free, every SLEEPING process sleeps on a channel whose condition still holds |
| SleepWakeup.ScansKeeps | kernel/proc.c:855-869 | every step of wakeup's scan keeps the invariant: a process passed by the scan cannot be on its way to sleep |
| SleepWakeup.SleepsKeeps | kernel/proc.c:824-851 | every step inside sleep keeps the invariant; the condition lock is released with p->lock held |
| SleepWakeup.ClientKeeps | kernel/proc.c:824-869 | what a caller does with the condition lock keeps the invariant, if a condition that stops holding is one it has woken or will wake before it releases |
| SleepWakeup.EarlyRelease | kernel/proc.c:824-869 | a release that skips an owed wakeup is harmless if and only if nobody is committed to a channel that stopped being good |
| SleepWakeup.InternalMoves | kernel/proc.c:824-869 | what a step inside sleep or wakeup can change for the caller |
| PipeRing.Tests | kernel/pipe.c:88-113 | with wrapping 32-bit counters the tests tell empty and full exactly |
| PipeRing.PutHolds | kernel/pipe.c:95-96 | storing a byte appends it to the bytes pending, across wrap-around |
| PipeRing.TakeHolds | kernel/pipe.c:121-123 | the byte taken is the oldest pending one, across wrap-around |
| Pipes.PipeOrder | kernel/pipe.c:76-130 | in every interleaving the bytes read are a prefix of the bytes written, with at most PIPESIZE pending |
| PipeTrace.WriterBytes | kernel/pipe.c:76-103 | at every point of every run, for every process: its bytes among those written are the first n bytes of the buffer of each of its calls, call by call in order, and those of the call it is in; the buffers are the ones it gave; n is the whole length exactly for a call that ended normally, and -1 means a closed read end or a killed writer |
| PipeTrace.ReaderBytes | kernel/pipe.c:105-130 | at every point of every run the reads split the bytes written between them: each has the next n bytes in its own buffer in order and nothing behind them, a byte whose copy failed is lost after them; a read comes short only on an empty pipe or a failed copy, and returns 0 for a nonempty buffer only after the write end was closed or a copy failed |
| PipeTrace.ReaderLengths | kernel/pipe.c:105-130 | in every run the buffers of a process's reads have the lengths it gave, in order |
| Pipes.NoLostWakeupIff | kernel/pipe.c:58-130 | in every run, all sleepers sleep rightly whenever the pipe lock is free if and only if no killed writer returned with unannounced bytes while a reader was committed to sleep |
| Pipes.Sleepers | kernel/pipe.c:58-130 | in such a run a SLEEPING reader means empty and write end open, a SLEEPING writer full and read end open |
| Pipes.KilledWriterLosesWakeup | kernel/pipe.c:84-87 | a concrete run in which a writer killed mid-write leaves a reader asleep on a non-empty pipe |
| Pipes.StepSound | kernel/pipe.c:58-130 | every step keeps the pipe invariant, except a silent abort, which breaks the property at once |
| SleepLock.MutualExclusion | kernel/sleeplock.c:21-41 | in every run at most one process owns the sleep lock, and locked and pid say so |
| SleepLock.NoSleeperOnUnlocked | kernel/sleeplock.c:21-41 | in every run, while the inner spinlock is free an unlocked sleep lock has no SLEEPING waiter |
| WaitExit.NoZombieUnnoticed | kernel/proc.c:389-494 | in every run of fork, exit and wait, while wait_lock is free no process SLEEPING in wait, init included, has a ZOMBIE child |
| WaitExit.ForestAlways | kernel/proc.c:316-494 | parent pointers form a forest at every point of every run |
| WaitExit.FreedOnce | kernel/proc.c:192-209 | in every run, two steps at which a slot stops being a ZOMBIE's free different processes |
| WaitExit.FreedByParent | kernel/proc.c:449-494 | in every run, a step at which a slot stops being a ZOMBIE's is a wait of the parent the process has at that moment, holding wait_lock; no running process loses its slot, and the clean-up of a failed fork frees no process that ever ran |
| WaitExit.ParentChanges | kernel/proc.c:316-494 | in every run a parent pointer changes only under wait_lock: to the forking process, from an exiting parent to init, or to none when a waiting parent reaps the ZOMBIE |
| WaitExit.StepSound | kernel/proc.c:316-494 | every step of fork, reparent, exit and wait keeps the invariant |
| WaitExit.EditsSound | kernel/proc.c:389-445 | giving a child to init, becoming ZOMBIE and reaping keep the invariant; the parent was woken before the child became ZOMBIE |
| ProcTable.AllocForest | kernel/proc.c:138-187 | allocating a slot with the next pid keeps the forest |
| ProcTable.AdoptForest | kernel/proc.c:389-400 | giving a process a live parent with a smaller pid keeps the forest |
| ProcTable.ZombieForest | kernel/proc.c:405-445 | a process without children may die |
| ProcTable.FreeForest | kernel/proc.c:192-209 | freeing a slot that is not live keeps the forest |
| ProcTable.RootIsInit | kernel/proc.c:389-400 | every line of ancestors ends in init |
| ProcTable.AncestorsFit | kernel/trap.c:270-289 | a process has fewer ancestors than the table has slots |
| ProcTable.LogTrap | kernel/trap.c:270-289 | the ancestor walk stays inside an array of NPROC entries and stores exactly the ancestors' pids |
| ProcTable.IsBelow | kernel/proc.c:1001-1014 | the inner walk decides whether a process descends from the caller |
| ProcTable.ChildProcesses | kernel/proc.c:992-1018 | lists exactly the descendants of the caller, each once, in table order; each entry has the pid and state of its process and the pid of that process's parent |
| Scheduler.Select | kernel/proc.c:619-655 | the process kept is exactly the one of Picked: with quotas in force it has the fewest ticks of any RUNNABLE process under its quota, and from the first such process on the earliest deadline at those ticks; without, the fewest ticks, then the earliest deadline; then the lowest slot. Quotas are in force afterwards if and only if they were before or some under-quota process has fewer ticks than every RUNNABLE one before it. No under-quota process precedes the kept one; at most two process locks are held, in the end only the kept one's |
| Scheduler.PickedUnique | kernel/proc.c:619-655 | at most one choice is Picked, so the selection is determined by the table and by whether quotas are in force |
| VirtioRing.PartitionMeans | kernel/virtio_disk.c:156-213 | a descriptor is free exactly when it is in no chain, and is never in two |
| VirtioRing.FollowFormed | kernel/virtio_disk.c:238-265 | a device following the chain finds the command, buffer and status byte of the request; the chain lets it write the status byte always, the buffer exactly for a read of the disk, and never the command |
| VirtioRing.Push | kernel/virtio_disk.c:272-277 | an entry stored at the wrapped index joins the ring's pending entries |
| VirtioRing.Pop | kernel/virtio_disk.c:312-323 | the entry at the wrapped index is the oldest pending one |
| VirtioHistory.RoomToPost | kernel/virtio_disk.c:272-277 | the avail ring never overflows |
| VirtioHistory.RoomToComplete | kernel/virtio_disk.c:309-314 | the used ring never overflows |
| VirtioHistory.ReleasedOnce | kernel/virtio_disk.c:294-327 | in every run of posting, taking, completing, releasing and freeing, two releases are of different requests |
| VirtioHistory.ReleasedInOrder | kernel/virtio_disk.c:215-327 | in every run, a release of a request's buffer comes after the device completed that request, that after the device took it, and that after the driver posted it |
| VirtioHistory.StepOK | kernel/virtio_disk.c:215-327 | each of these steps keeps the history consistent, and every count moves by at most one |
| Virtio.Disk.constructor | kernel/virtio_disk.c:61-153 | all descriptors free, no request |
| Virtio.Disk.AllocDesc | kernel/virtio_disk.c:156-166 | takes the first free descriptor, or none is free |
| Virtio.Disk.FreeDesc | kernel/virtio_disk.c:169-182 | panics exactly on a bad index or a free descriptor |
| Virtio.Disk.Alloc3 | kernel/virtio_disk.c:201-213 | three different free descriptors or none; fails exactly when fewer than three are free |
| Virtio.Disk.FreeChain | kernel/virtio_disk.c:185-197 | frees the three descriptors of a chain and never a free one |
| Virtio.Disk.Submit | kernel/virtio_disk.c:235-277 | the chain describes the request, the head is posted, the buffer is marked busy; the partition is kept |
| Virtio.Disk.TryStart | kernel/virtio_disk.c:215-281 | posts the request, or changes nothing when fewer than three descriptors are free |
| Virtio.Disk.DeviceTake | kernel/virtio_disk.c:271-281 | the device takes the oldest posted request, if any |
| Virtio.Disk.DeviceComplete | kernel/virtio_disk.c:309-314 | the device completes any request it holds, having found exactly the operation and buffer asked for, with leave to write the status byte and, for a read, the buffer |
| Virtio.Disk.IntrOne | kernel/virtio_disk.c:312-324 | no panic; releases exactly the buffer of the oldest completion not yet seen |
| Virtio.Disk.Intr | kernel/virtio_disk.c:294-327 | ends with every completion seen, even if the device goes on meanwhile |
| Virtio.Disk.Finish | kernel/virtio_disk.c:283-291 | once its buffer is released, the request's chain is freed without a panic and nothing else changes |
| HeapRing.FreeOK | user/umalloc.c:24-44 | free keeps the ring in address order with no two free blocks touching and every unit in exactly one block |
| HeapRing.TakeOK | user/umalloc.c:76-77 | unlinking a whole block keeps the heap in order |
| HeapRing.SplitOK | user/umalloc.c:78-82 | carving the end of a block keeps the heap in order |
| HeapRing.GrowOK | user/umalloc.c:46-61 | a fresh region above the heap joins it as one block |
| HeapRing.StopsBetween | user/umalloc.c:30-32 | the search of free stops exactly at the place of the block |
| Malloc.Heap.FindPlace | user/umalloc.c:30-32 | the search terminates at the free block after which the block belongs |
| Malloc.Heap.Join | user/umalloc.c:33-42 | the pointer work of free |
| Malloc.Heap.Free | user/umalloc.c:24-44 | the block leaves the blocks in use, other blocks and the heap's units stay, and its units end up in one free block |
| Malloc.Heap.Morecore | user/umalloc.c:46-61 | the heap gains exactly the granted units as free space, or nothing changes |
| Malloc.Heap.Carve | user/umalloc.c:75-84 | hands out exactly n units of a free block; blocks in use stay |
| Malloc.Heap.Malloc | user/umalloc.c:63-90 | terminates after growing the heap at most once, only if no free block is large enough; returns a new block that holds the requested bytes with less than a header to spare, and keeps all others; fails only if it must grow and cannot; fault holds exactly for requests beyond 2^31 - 32 bytes that must grow |
| Malloc.AsksEnough | user/umalloc.c:52-54 | sbrk's int argument is the number of bytes needed if and only if the request is at most 2^31 - 32 bytes |
| Malloc.WrapsBeyond | user/umalloc.c:52-54 | one byte more makes the argument negative |
| Regexp.MatchHere | user/grep.c:85-96 | true exactly when the pattern matches a prefix of the text |
| Regexp.MatchStar | user/grep.c:99-106 | true exactly when some run of the starred character is followed by a match of the rest |
| Regexp.Match | user/grep.c:72-82 | true exactly when the pattern's declarative reading matches somewhere, or at the start after ^ |
| Regexp.HereCons | user/grep.c:85-106 | a pattern matches here exactly when its first item takes some characters and the rest matches after them |
| Grep.FindNewline | user/grep.c:22 | the first newline of the string in the buffer, or none |
| Grep.PrintIf | user/grep.c:23-27 | prints the line with its newline exactly if it matches, and disturbs nothing after it |
| Grep.ScanLines | user/grep.c:21-29 | prints the matching complete lines of the buffer and stops at the incomplete one |
| Grep.Round | user/grep.c:18-33 | one read, its complete lines, and the move of the rest |
| Grep.Grep | user/grep.c:11-35 | prints exactly the matching newline-terminated lines, in order, of the input before its first line of 1023 or more characters, where it stops silently; however the input is delivered in pieces |
| Grep.PrintedAppend | user/grep.c:18-33 | what is printed for whole lines and for what follows adds up |
| ShellLex.GetToken | user/sh.c:266-309 | returns the code of the first token, its span if a word, and moves past it and the space around it |
| ShellLex.Peek | user/sh.c:311-321 | tells whether the next token is one of the symbols; skips only space |
| ShellLex.TokensText | user/sh.c:266-309 | the tokens of a line, one after the other, are its text without the spaces |
| ShellGrammar.LineSound | user/sh.c:345-360 | whatever is accepted is a syntax tree whose tokens were consumed |
| ShellGrammar.LineBack | user/sh.c:345-447 | every syntax tree within the argument limit, written as tokens, is parsed back to itself |
| ShellMeaning.LineMeans | user/sh.c:345-447 | the command built for a syntax tree is what its tokens mean: the first semicolon and the first pipe symbol outside parentheses split outermost, left part left and right part right, each ampersand puts what precedes it in the background, the last redirection is the outermost, and the words are the arguments in order |
| ShellMeaning.MeansIff | user/sh.c:345-447 | tokens mean a command if and only if some syntax tree within the argument limit is written so and stands for it |
| ShellMeaning.OneMeaning | user/sh.c:345-447 | tokens have at most one meaning |
| ShellParser.ParseRedirs | user/sh.c:375-398 | accepts exactly a sequence of redirections with file names |
| ShellParser.ParseSimple | user/sh.c:427-446 | accepts exactly words and redirections in any order, fewer than MAXARGS words |
| ShellParser.ParseExec | user/sh.c:416-447 | accepts exactly a block or a simple command, and returns the command that the tokens it consumed mean |
| ShellParser.ParseBlock | user/sh.c:400-414 | accepts exactly a parenthesised line with redirections, and returns the command that the tokens it consumed mean |
| ShellParser.ParsePipe | user/sh.c:362-373 | accepts exactly a pipe line, and returns the command that the tokens it consumed mean: what stands before the first pipe symbol feeds what stands after it |
| ShellParser.ParseBacks | user/sh.c:351-354 | wraps the command once per & |
| ShellParser.ParseLine | user/sh.c:345-360 | accepts exactly a line, and returns the command that the tokens it consumed mean; terminates on every input |
| Shell.LineWords | user/sh.c:328-447 | the strings of the command are the words of the line, each once |
| Shell.WordsOnce | user/sh.c:266-309 | every longest run of word characters occurs exactly once among the tokens of a line |
| Shell.WordsApart | user/sh.c:266-309 | different spans do not overlap |
| Shell.AcceptedIff | user/sh.c:328-447 | a token sequence is accepted with a tree and command if and only if that tree is written so |
| Shell.NulTerminate | user/sh.c:450-494 | writes a null byte at the end of every string of the command and nowhere else |
| Shell.AllReadBack | user/sh.c:450-494 | no null byte falls inside a span, so each string reads back as its word |
| Shell.ParseCmd | user/sh.c:328-343 | accepts a line exactly when its tokens mean a command, and returns that command, the only one; every word of the line becomes exactly one string, and each string reads back as its word after the cutting |

## Left out

- Directories, path lookup and link counts (kernel/fs.c:543-697): a global link-count invariant does not hold in all runs.
- iget and the inode cache's table; the file operations work on inode numbers, and `Iput` is given the reference count.
- The byte layout of bitmap bits and on-disk inodes; a bitmap block is a sequence of bits. The log header and the indirect blocks are modelled byte by byte.
- Device numbers: there is one disk, and every assigned buffer is on it.
- kvmmap, the kernel page table, copyin, copyout and copyinstr, exec, TLB flushes.
- Vm.Memory.Mappages: the range is given in page numbers, since unaligned addresses panic.
- VmFree.Freewalk: is proved for trees whose leaves are unmapped, which it demands with a panic.
- Mkfs.Image.Ialloc: does not model what the image becomes after an overrun.
- User copy failures in the middle of readi or writei. In pipewrite and piperead a copy may fail at any byte.
- Threads inside a process, the round-robin scheduler, quotas and deadlines beyond the selection loop, set_cpu_quota, drop_dead_processes.
- ProcTable.LogTrap: reads one snapshot of the table, although the code takes no lock.
- ProcTable.ChildProcesses: reads one snapshot of the table, although the code takes no lock; process names are not modelled.
- WaitExit.StepSound: fork may take any UNUSED slot, not only the first; yield and preemption are not steps, since they do not touch what wait_lock protects.
- WaitExit.FreedByParent: wait may reap any ZOMBIE child, not only the first in table order; that a ZOMBIE has switched away before it is freed, which p->lock ensures, is a guard of the model's step.
- pids do not wrap: nextpid is unbounded.
- The wait of virtio_disk_rw for descriptors and for its buffer: the critical sections before and after it are modelled; the sleeps follow the protocol of `SleepWakeup`.
- virtio feature negotiation, memory barriers and MMIO; the device succeeds on every request it takes.
- Malloc.Heap.Malloc: does not model what the program does after sbrk was asked for the wrong number of bytes; the result fault marks that case.
- The contents of allocated blocks, and programs that write outside them.
- Grep.Grep: is stated for input without null bytes.
- The open modes of redirections; a redirection keeps its symbol.
- runcmd, printing, console, UART, PLIC, boot and assembly; kernel/kfile.c and the crash reports' file output; system-call argument fetching.
