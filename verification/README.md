# xv6 with copy-on-write fork: a model and its proofs

xv6 is a small Unix-like kernel for RISC-V with a handful of user programs. This
project models the parts of it whose correctness is spread over many functions, and
proves what they promise over whole runs, whole interleavings or all inputs:

- **The log over the buffer cache** (`Bio`, `CrashSafety`, `Reservation`, `Log`,
  `LogRun`). A crash at any disk write, and at any disk write of any recovery after it,
  leaves the home blocks as of the last header write. Without a crash, cache and log are
  a plain map of blocks, and whether a request panics can be told from `struct log`.
- **Copy-on-write memory** (`Frames`, `Cow`, `Cost`, `Eager`, `Vm`). Over any run of
  fork, store, copyout, copyin, grow, shrink and free, each address space is what a
  kernel that copies every page at fork would have. A frame's counter is the number of
  references to it. Fork, growth and process creation succeed exactly when there are
  frames enough, and a failed fork gives every frame back.
- **The three-level page table** (`Sv39`). Pages of 512 words in memory refine a flat map
  from page number to entry, and the slot map used in `Vm`.
- **Files** (`Bytes`, `Inodes`, `Space`, `Fs`, `FsWitness`). Inodes, block maps and the
  bitmap refine flat byte sequences over any run, full disk included, and each block has at
  most one owner. How much of a write succeeds is told from the bitmap before it.
- **Processes** (`Proc`, `ProcLife`, `ProcWait`). The lock-level steps of scheduler, fork,
  exit, wait, sleep, wakeup and kill, interleaved by any number of CPUs. No exit is lost or
  waited for twice, and no entry of the process table is lost or handed out twice.
- **User programs** (`Umalloc`, `Shell`, `ShellGrammar`, `ShellPrint`, `ShellNul`, `Grep`).
  The heap allocator, down to the bytes it hands out; the shell's parser, which accepts
  exactly the lines of a grammar; and the pattern matcher of grep.

`Sets`, `Options` and `Spending` hold what several modules use. A function of the kernel
that updates things in place is a method of a class here, with the fields it updates; the
process state machine is a transition function, one step per lock operation. Integers are
unbounded, with the widths that matter written out: the 8-bit frame counter, 32-bit
file offsets, 64-bit addresses. Panics are results, or are shown not to happen.

`dafny verify dfyconfig.toml` checks the project.

## Findings

Where the code does not do what one would expect of it. Each finding has an input that shows
it and the exact condition, in terms of what a caller could check before the call.

- **log_write can panic on a block it would absorb.** The test for a full header
  (kernel/log.c:220) comes before the search for the block, so a call that rewrites a block
  it has already logged panics once the header is full, although it needs no room
  (`Reservation.AbsorbedWritePanics`). A step of a run panics if and only if it is a
  log_write on a header of LOGSIZE or `log.size - 1` blocks, whichever is less
  (`Reservation.PanicsExactly`). With `log.size > LOGSIZE`, calls that stop writing when
  their reservation is used up never meet it (`Reservation.ThriftyNeverPanics`).
- **A log of LOGSIZE blocks is one too small.** mkfs makes `nlog = LOGSIZE`
  (mkfs/mkfs.c:25), of which one block is the header, while begin_op admits LOGSIZE blocks
  (kernel/log.c:133). For every size up to LOGSIZE some run comes to a log_write that panics
  although its call has reservation left (`Reservation.SmallLogPanics`). For no size above
  LOGSIZE does any run (`Reservation.ThriftyNeverPanics`).
- **With a larger log a full header leaves no buffer.** LOGSIZE and NBUF are both 30, so
  with `log.size > LOGSIZE` three calls within their reservations can pin the whole cache,
  and the commit panics in bget (`LogRun.FullCommitPanics`). While no call is in the middle
  of a block, a commit finds a buffer if and only if the header names fewer than NBUF blocks
  (`Log.FreeExactly`). With `log.size <= LOGSIZE`, as mkfs makes it, this always holds,
  because log_write panics first (`LogRun.SmallLogCommits`).
- **Address 0 cannot be stored to after a fork.** The fault handler refuses `va == 0`
  (kernel/trap.c:233), so a store to a shared page at address 0 kills the process
  (`Vm.StoreAtZeroRefused`), and a copyout of at least one byte to address 0 fails.
  `Vm.Kernel.UserStore` states exactly when a store succeeds, and `Vm.Kernel.Copyout`
  exactly how far a copy gets.
- **A refused growth can keep page-table pages.** uvmalloc gives the user pages back but
  leaves the interior pages that walk added. A new process with two frames left that grows
  by one byte is refused and keeps one of them (`Vm.RefusedGrowthKeepsPage`). A refused
  growth gives back every frame if and only if the frames run out before the first page that
  lacks an interior page: there is none, or there are at most as many frames as pages up to
  and including it (`Vm.Kernel.Uvmalloc`, `Vm.Kernel.Growproc`). Nothing is lost for good:
  once the process is freed, the free frames and counters are those that freeing it at once
  would have left (`Vm.GrowThenReap`).
- **filewrite reports failure after writing a prefix.** It returns -1 on a full disk
  although a prefix is in the file (`FsWitness.FullDiskWrite`), and also on a write past the
  largest file: of 274433 bytes into an empty file it writes 273408 and returns -1
  (`FsWitness.OverlongWrite`). `Fs.FileSystem.Filewrite` states, from the file's size, the
  bitmap and the blocks that the file has, exactly when it returns -1, exactly when it has
  written something, and how many bytes.

## Model

| member | source | states |
|---|---|---|
| Bio.BufferCache.constructor | kernel/bio.c:37-53 | binit leaves a ring of all NBUF buffers, none valid or referenced, over the given disk |
| Bio.BufferCache.Bget | kernel/bio.c:59-89 | panics exactly when the block is not cached and every buffer is referenced; a hit only adds a reference; a miss takes an unreferenced buffer, and of those the one released longest ago; ring and uniqueness of cached blocks are kept |
| Bio.BufferCache.Bread | kernel/bio.c:93-103 | the buffer returned shows the cached contents if valid and the disk's otherwise, and no other buffer changes |
| Bio.BufferCache.Brelse | kernel/bio.c:117-137 | a last release moves exactly that buffer to the front of the ring, which stays a permutation of all buffers in order of release |
| Bio.MoveSorted | kernel/bio.c:126-134 | moving a buffer to the front keeps the ring duplicate-free and in order of release |
| Bio.UnlinkRing | kernel/bio.c:128-129 | the two pointer writes that unlink a buffer thread exactly the rest of the ring |
| Bio.PushRing | kernel/bio.c:130-133 | the four pointer writes that link a buffer behind the head thread it before the rest of the ring |
| CrashSafety.RecoveredAt | kernel/log.c:117-123 | what a recovery puts in each home block: the logged copy if the header names it, else what was there |
| CrashSafety.RecoveryStep | kernel/log.c:69-83 | a crash after any number of a recovery's disk writes does not change the home blocks that recovery yields |
| CrashSafety.ChainRecovers | kernel/log.c:117-123 | nor does any number of crashed recoveries in a row |
| CrashSafety.UncommittedStaysInLog | kernel/log.c:179-198 | until the header is written, a commit writes only to the log area, and the header is exactly write number n |
| CrashSafety.CommittedRecovers | kernel/log.c:194-203 | once the header is on disk, recovery yields the new contents |
| CrashSafety.CrashAtomicity | kernel/log.c:68-123 | after a crash at any disk write of a commit, and any number of crashes in recovery, the home blocks are exactly the old ones up to the header write and exactly the new ones from it on |
| Reservation.ReservationHolds | kernel/log.c:127-175 | in every interleaving of begin_op, log_write, end_op and commit: header entries are distinct, header plus unused reservations are at most LOGSIZE, and nothing is outstanding during a commit |
| Reservation.AdmitsExactly | kernel/log.c:127-142 | in every run begin_op lets a call in if and only if no commit runs and the header could take MAXOPBLOCKS blocks from this call and from each running one, were they all new; a call that sleeps changes nothing |
| Reservation.PendingExactly | kernel/log.c:147-235 | in every run the header names exactly the blocks logged since the last commit, and a commit is due exactly when calls have been let in since then and all have ended |
| Reservation.PanicsExactly | kernel/log.c:215-235 | for every size of the log, the next step of such a run panics if and only if it is a log_write on a header that holds LOGSIZE or log.size - 1 blocks, whichever is less |
| Reservation.ThriftyNeverPanics | kernel/log.c:215-235 | with log.size > LOGSIZE, calls that stop logging once their reservation is used up never panic |
| Reservation.SmallLogPanics | mkfs/mkfs.c:25 | with log.size <= LOGSIZE, some run within all reservations panics |
| Reservation.AbsorbedWritePanics | kernel/log.c:220-221 | however large the log (log.size > LOGSIZE), some run within all reservations panics on a block that its call has already logged |
| Log.FullHeaderLeavesNoBuffer | kernel/param.h:10-11 | a header of LOGSIZE blocks, which takes a log of more than LOGSIZE, pins every buffer of the cache |
| Log.FreeExactly | kernel/log.c:225-233 | if pins are the only references, a buffer is free exactly when the header names fewer than NBUF blocks, and a block can be read exactly when that is so or the header names it |
| Log.Log.constructor | kernel/log.c:55-65 | initlog recovers the disk that the last crash left, by exactly the writes of a recovery |
| Log.Log.RecoverFromLog | kernel/log.c:117-123 | the disk becomes the recovered disk, the log is empty, and no buffer stays referenced |
| Log.Log.WriteHead | kernel/log.c:103-114 | exactly one disk write, of a header that names lh; fails exactly when no buffer is free |
| Log.Log.WriteLog | kernel/log.c:179-191 | log block k gets the cached contents of the k-th block of lh, in order, and no home block is written |
| Log.Log.InstallTrans | kernel/log.c:69-83 | each home block gets its log block; a commit drops exactly one pin per block, a recovery none, and a recovery cannot fail |
| Log.Log.ReadHead | kernel/log.c:87-97 | the header in memory becomes the one on disk, with the cache still coherent and unreferenced |
| Log.Log.Commit | kernel/log.c:194-203 | makes exactly the writes of a commit in order, after which disk and logical contents agree, home blocks show what was logged, and every pin is dropped; fails exactly when there is something to write and no free buffer, and then nothing has been written |
| Log.Log.BeginOp | kernel/log.c:127-142 | admits the call exactly when no commit runs and the header, plus MAXOPBLOCKS for each outstanding call and for this one, is at most LOGSIZE; then one more call is outstanding, and else nothing changes |
| Log.Log.EndOp | kernel/log.c:147-175 | commits exactly when it is the last call out, with exactly the writes of a commit, and then the header is empty; the logical contents do not change |
| Log.Log.LogWrite | kernel/log.c:215-235 | the block shows the new data from now on, is named once in the header and pinned once; panics exactly when the header holds LOGSIZE or log.size - 1 blocks or no call is outstanding |
| Log.Log.Update | kernel/log.c:205-214 | bread, change, log_write, brelse changes the logical contents of that one block and writes nothing to disk |
| Log.Log.Read | kernel/bio.c:93-103 | bread of a home block returns its last logged contents, and fails exactly when it is not cached and no buffer is free |
| LogRun.ServeOne | kernel/log.c:127-235 | one request is served exactly when the plain map says so, with its answer; a crash at any of its disk writes is safe, and a request that panics has written nothing |
| LogRun.Serve | kernel/log.c:68-235 | every run of begin_op, reads, logged writes and end_op panics exactly where the plain map says and otherwise gives its answers; a crash at any disk write of the run, or the reboot after its panic, with any number of crashes in recovery, leaves the home blocks as of the last header write |
| LogRun.CommitIsSafe | kernel/log.c:194-203 | crash atomicity of a commit, from the state of the running log |
| LogRun.Booted | kernel/log.c:55-65 | what initlog leaves is a state such runs start from |
| LogRun.FullCommitPanics | kernel/log.c:147-175 | for every log of more than LOGSIZE blocks there is a legal run of begin_op, logged writes and end_op whose last end_op panics |
| LogRun.SmallLogCommits | kernel/log.c:220-221 | for every log of at most LOGSIZE blocks, no run comes to a commit that lacks a buffer |
| Frames.CounterBound | kernel/kalloc.c:30-49 | in every state that meets the invariant, a frame's counter is its number of references, at least 0 and at most NPROC |
| Frames.NoWrap | kernel/kalloc.c:36-49 | neither increase_count nor decrease_count of a referenced frame wraps its 8 bits, and the decremented count is never negative |
| Frames.TakeKeeps | kernel/kalloc.c:108-128 | kalloc keeps the invariant, and no address space changes |
| Frames.PlaceKeeps | kernel/vm.c:85-165 | putting an allocated frame in a free slot of a table keeps the invariant, and only that page changes |
| Frames.ShareKeeps | kernel/vm.c:327-332 | giving a child a read-only page of its parent and counting it keeps the invariant |
| Frames.ShareLooks | kernel/vm.c:327-332 | the child then sees the parent's page, and nobody else sees a difference |
| Frames.ProtectKeeps | kernel/vm.c:322-326 | turning a writable page copy-on-write keeps the invariant and is seen by nobody |
| Frames.DropKeeps | kernel/vm.c:171-192 | clearing a slot and freeing its frame keeps the invariant, also if the frame is still shared |
| Frames.DropLooks | kernel/vm.c:171-192 | and only that page disappears |
| Cow.PageShared | kernel/vm.c:305-350 | one turn of uvmcopy extends the child by one page, read-only in both tables, and changes nothing that the parent or others see |
| Cow.CopyMade | kernel/trap.c:255-270 | the handler's exchange of a shared frame for a private copy keeps the invariant and what everyone sees |
| Cow.PokeKeeps | kernel/trap.c:226-271 | a store through a writable entry is seen by one process only |
| Cow.NothingLeaks | kernel/proc.c:279-297 | two quiet states whose tables point at the same frames have the same counters and the same free frames |
| Cow.NoFrameLost | kernel/kalloc.c:76-128 | between operations every frame outside the free list is in some table |
| Cow.OnlyInteriorLeaks | kernel/vm.c:225-267 | after a failed uvmalloc, a frame that was free and no longer is must be an interior page that the table gained, and all other counters are as before |
| Cow.RefundedExactly | kernel/vm.c:225-267 | an attempt that only extended a table has given back every frame if and only if it left no interior page |
| Cow.ReapedAlike | kernel/proc.c:156-172 | freeing the process after such an attempt leaves the counters and free frames that freeing it at once would have |
| Cost.StaysExactly | kernel/vm.c:226-249 | a growth refused at some page has added no interior page if and only if the frames ran out before the first page that lacks one |
| Cow.PagesBounded | kernel/vm.c:225-249 | a process has no more pages than there are frames, so its memory never reaches the trapframe page |
| Cost.NodesCount | kernel/vm.c:85-103 | the interior pages above n user pages are one per 512 pages and one per 512 of those |
| Cost.ForkPrice | kernel/proc.c:279-297 | a fork of n user pages needs four frames and those interior pages, and none for the user pages |
| Eager.StoredTwice | kernel/vm.c:369-390 | storing in two pieces is storing at once |
| Eager.StoredBytes | kernel/vm.c:369-390 | a store is seen at exactly the addresses it covers, and changes no permission |
| Eager.ResizedSeen | kernel/proc.c:260-275 | what a resize of an address space shows at each address: byte and permissions kept in pages of both sizes, 0 and writable in pages added, nothing past the last page |
| Eager.GrowthSeen | kernel/proc.c:260-275 | the same of every growth and shrinking in every run of the eager machine |
| Vm.Kernel.constructor | kernel/kalloc.c:51-70 | kinit's counters end at 0 with exactly the pool's frames on the free list, each once, and the invariant holds |
| Vm.Kernel.Kalloc | kernel/kalloc.c:108-128 | fails exactly when the free list is empty, and otherwise hands out its head, counted once |
| Vm.Kernel.WalkAlloc | kernel/vm.c:86-103 | adds exactly the interior pages that are missing above the page, no mapping changes, and it fails exactly when there are fewer free frames than missing pages |
| Vm.Kernel.UvmUnmap | kernel/vm.c:171-192 | pages from a up are gone and their references dropped, and nothing below a or outside the process changes |
| Vm.Kernel.Uvmdealloc | kernel/vm.c:256-267 | shrinks to the new size if that is smaller, with nothing below it changed |
| Vm.Kernel.Uvmalloc | kernel/vm.c:226-249 | succeeds exactly when there are frames for the new pages and the interior pages they lack; then every byte of every new page is 0, with the permissions asked for; otherwise the old pages are as before, and every frame is back if and only if the frames ran out before the first missing interior page |
| Vm.Kernel.Growproc | kernel/proc.c:260-275 | the size changes by what was asked for, or stays if it would fall below 0; in pages of both sizes every address keeps its byte and permissions, in pages added it can be read and stored to and holds 0, past the last page nothing can be read; a refusal changes no address space; it grows exactly when there are frames enough, and a refusal gives every frame back exactly when uvmalloc does |
| Vm.RefusedGrowthKeepsPage | kernel/vm.c:242-246 | a new process with two frames left: a growth by one byte is refused, and not every frame is given back |
| Vm.GrowThenReap | kernel/proc.c:156-172 | after a refused growth and the freeing of the process, counters and free frames are those that freeing it at once would have left |
| Vm.Kernel.CowPageFaultHandler | kernel/trap.c:227-271 | succeeds exactly when the address is not 0, the address space allows the store, and the page is writable already or a frame is free; afterwards the page is writable and no address space has changed |
| Vm.Kernel.UserStore | kernel/trap.c:68-71 | a store instruction, with its fault, changes exactly one byte of one address space, or nothing; it succeeds exactly when the address space allows it and the page is writable or (address not 0) a frame is free |
| Vm.StoreAtZeroRefused | kernel/trap.c:233 | after a fork neither parent nor child can store at address 0, though both address spaces allow it |
| Vm.Kernel.Copyout | kernel/vm.c:369-390 | writes exactly a prefix of the source, across pages, into one address space; how far it gets is told from the state before: through each page that is writable, or copy-on-write while the free frames outnumber the shared copy-on-write pages before it, and not at all to address 0 |
| Vm.Kernel.Copyin | kernel/vm.c:396-415 | returns exactly the bytes of the address space, and stops only at an address that may not be read |
| Vm.Kernel.FreeWalk | kernel/vm.c:272-287 | frees exactly the pages at and below one page of the table, and nobody else's memory changes |
| Vm.Kernel.Uvmfree | kernel/vm.c:292-297 | nothing but the trapframe pointer is left of the table |
| Vm.Kernel.FreeProc | kernel/proc.c:156-172 | the process and all it held are gone, also if it was only half made, and no other address space changes |
| Vm.Kernel.ProcPagetable | kernel/proc.c:177-206 | a table with the two kernel pages and nothing else, exactly when there are three free frames; otherwise all is undone |
| Vm.Kernel.AllocProc | kernel/proc.c:110-150 | succeeds exactly when the process table has an unused entry and four frames are free; otherwise every table is as before |
| Vm.Kernel.Uvmcopy | kernel/vm.c:306-350 | the child sees the parent's pages, all read-only in both tables, exactly when there are frames for the interior pages it lacks; otherwise the child has none |
| Vm.Kernel.Fork | kernel/proc.c:280-326 | succeeds exactly when the process table has an unused entry and there are frames for the child's table, none for its pages; then the child's memory equals the parent's and its registers too but for a result of 0; otherwise memories, counters and free frames are as before |
| Vm.Kernel.Spawn | kernel/proc.c:110-150 | allocproc as userinit uses it: a process with no memory, exactly when there is an unused entry and four frames |
| Vm.Kernel.Reap | kernel/proc.c:156-172 | freeproc of a whole process removes its address space and its table, and leaves every frame with exactly the references of the other tables |
| Vm.Kernel.Step | kernel/vm.c:226-415 | one operation does to the address spaces what the eager machine does, and is refused only where it must be |
| Vm.Kernel.Execute | kernel/vm.c:305-350 | over any run the address spaces are those of a machine that copies every page at fork, and in each state of the run each operation succeeds, fails or stops exactly where the free list, the process table and the page tables before it say |
| Sv39.PageTable.constructor | kernel/vm.c:197-205 | uvmcreate's table maps nothing |
| Sv39.PageTable.Walk | kernel/vm.c:86-103 | finds the last-level entry of a page through three levels; with alloc it adds pages taken off the free list, each once, without changing the flat map |
| Sv39.PageTable.Mappages | kernel/vm.c:143-165 | exactly a run of pages gets consecutive frames, whole if it succeeds, and then the run ends with the page of the last byte; it fails only with an empty free list, and panics only on size 0, an address past the end or a page that is mapped |
| Sv39.PageTable.Uvmunmap | kernel/vm.c:171-192 | succeeds exactly when the address is aligned and every page of the run is mapped; exactly the run is cleared, and exactly its frames are handed to kfree |
| Sv39.PageTable.Freewalk | kernel/vm.c:272-287 | every page at or below the given one goes on the free list once, the rest of the table is untouched, and no leaf is met |
| Sv39.PageTable.Uvmfree | kernel/vm.c:292-297 | the whole table is handed back, each page once, and the user frames exactly |
| Sv39.EntryRoundTrip | kernel/riscv.h:341-356 | an entry written as a word reads back as that entry |
| Sv39.NodeLinkedFlat | kernel/vm.c:96-99 | linking a zeroed page changes no mapping |
| Sv39.LeafSet | kernel/vm.c:158 | writing a last-level word changes exactly one page of the flat map and keeps the table well formed |
| Sv39.NodeRepresented | kernel/vm.c:96-99 | linking an interior page in memory adds exactly its slot to the slot map that Vm works on |
| Sv39.LeafRepresented | kernel/vm.c:158 | writing a last-level word maps or unmaps exactly its page there |
| Inodes.MarkedIs | kernel/fs.c:75-79 | changing a bit of the bitmap changes that block's bit and no other |
| Inodes.GivenOwned | kernel/fs.c:383-421 | giving a free block to a place of an inode keeps ownership exact: bitmap, owners and block numbers agree |
| Inodes.ListedGiven | kernel/fs.c:407-416 | so does entering it in the indirect block, and every byte that was there stays |
| Inodes.WrittenBytes | kernel/fs.c:520-527 | a write into a block of a file changes exactly those bytes of that file and of no other |
| Inodes.TruncatedKeeps | kernel/fs.c:426-453 | after itrunc exactly that inode's blocks have no owner, the rest of every file is unchanged |
| Fs.FileSystem.constructor | mkfs/mkfs.c:235-248 | the bitmap that mkfs writes marks exactly the blocks before the data area |
| Fs.FileSystem.Balloc | kernel/fs.c:66-88 | the lowest free block, marked and zeroed, or 0 exactly when every bit is set |
| Fs.FileSystem.Bmap | kernel/fs.c:383-421 | finds or makes the block, exactly when there are clear bits for it and for the indirect block if that is missing; no byte of any file changes, ownership stays exact, and it logs every block it changes and a bounded number in all |
| Fs.FileSystem.Itrunc | kernel/fs.c:426-453 | the file is empty, exactly its blocks are given back, every block and inode it changes is logged, and the panic on freeing a free block does not happen |
| Fs.FileSystem.Readi | kernel/fs.c:472-496 | exactly the requested slice of the file clipped at its size, or nothing if the offset is past the end or wraps |
| Fs.FileSystem.Writei | kernel/fs.c:506-539 | fails exactly on an offset past the end or a range past the largest file; else writes exactly the largest number of bytes whose missing blocks are no more than the clear bits of the bitmap; the file is spliced with exactly those, no other file changes, and every block and inode that changes is logged |
| Fs.FileSystem.Filewrite | kernel/file.c:135-181 | from the state before: the exact number of bytes written, exactly when the result is -1, and exactly when something was written; those bytes are in the file, and no transaction logs more than MAXOPBLOCKS blocks |
| Fs.WroteMeans | kernel/file.c:154-175 | all is written if and only if the offset is in the file, the range within the largest file and the blocks can be had; some is if and only if the first byte can be held and the first chunk is not refused whole |
| FsWitness.OverlongWrite | kernel/file.c:158-173 | one byte more than the largest file into an empty one: 273408 bytes are in the file and the result is -1 |
| FsWitness.FullDiskWrite | kernel/file.c:158-173 | two blocks into an empty file on a disk with one free block: the first is in the file and the result is -1 |
| Space.HoldableTwice | kernel/file.c:154-174 | after a first part has filled what it needs, the rest can be held if and only if the whole could |
| Fs.ChunkBound | kernel/file.c:149-174 | no chunk of filewrite, at any offset, costs more than MAXOPBLOCKS blocks, counting data, bitmap, indirect and inode blocks |
| Fs.SplicedTwice | kernel/file.c:154-174 | writing in two chunks is writing at once |
| Fs.FileSystem.Step | kernel/fs.c:426-539 | one write, read or truncation does to the files what it does to flat byte sequences |
| Fs.FileSystem.Execute | kernel/fs.c:383-539 | over any run, full disk or not, the files are what flat byte sequences would be, each reply is the one that the files and the free blocks before it call for, and every block keeps at most one owner |
| Proc.StepKeeps | kernel/proc.c:279-580 | every lock-level step of every CPU keeps the invariant on locks, CPUs, forks and families |
| Proc.RunInv | kernel/proc.c:279-580 | it holds in every state of every interleaving from boot, for any number of CPUs |
| Proc.NoLostExit | kernel/proc.c:330-435 | whenever wait_lock is free, no process sleeps in wait, or is about to, while a child of its is a zombie |
| Proc.ParentIsAlive | kernel/proc.c:331-341 | every parent pointer names a process that is neither unused nor a zombie |
| Proc.OneCpu | kernel/proc.c:445-510 | no process is the current process of two CPUs, the hand-off of its lock included |
| Proc.ReapedIsOff | kernel/proc.c:404-422 | a zombie that wait is about to free is on no CPU, not even still in swtch |
| Proc.SchedChecks | kernel/proc.c:487-492 | when a process enters sched it holds its own lock and no other and is not RUNNING, so none of the first three panics of sched happens |
| ProcLife.StepFate | kernel/proc.c:279-600 | which steps change the life, the parent and the killed flag of a process, and to what; no other step of any CPU does |
| ProcLife.EachExitOnce | kernel/proc.c:345-422 | in every run, a process has exited as often as a wait has returned it, and once more if it is a zombie: no exit is waited for twice |
| ProcLife.EntriesConserved | kernel/proc.c:110-172 | in every run, fork has taken an entry as often as it was given back by a failed fork or a wait, and once more if it is in use (init apart) |
| ProcLife.ReapFrees | kernel/proc.c:404-422 | after the turn in which a wait returns a child, that child is UNUSED, without parent, channel and killed flag, and no other process has changed |
| ProcLife.ZombieLived | kernel/proc.c:345-386 | in every continuation of a run, an unused entry is a zombie only after a fork has taken it and then its process has exited |
| ProcLife.BetweenReaps | kernel/proc.c:391-422 | between two turns in which a wait returns the same entry, a fork takes it and its process exits |
| ProcWait.ReaperIsParent | kernel/proc.c:404-422 | in every run a wait frees a child of its caller only |
| ProcWait.WaitGivesUp | kernel/proc.c:425-429 | in every run a wait that finds no zombie returns only if its caller has no child or has been killed |
| ProcWait.WaitHasReason | kernel/proc.c:425-432 | in every run a wait goes to sleep only if its caller has a child, and none of its children is a zombie |
| ProcWait.RunAbed | kernel/proc.c:535-562 | in every state of every run a sleeping process is in sleep or wait, on the channel that it went to sleep on; a zombie has left exit, and a child being made has not run |
| ProcWait.WakeupWakes | kernel/proc.c:566-580 | in every run a wakeup makes runnable each process it looks at that went to sleep on its channel, and no other |
| ProcWait.KillWakes | kernel/proc.c:586-606 | in every run a kill leaves its target marked and not asleep |
| Umalloc.Allocator.Free | user/umalloc.c:25-44 | the block is no longer live, no unit is lost, a free block of its size is there, and the heap invariant is kept |
| Umalloc.Allocator.Morecore | user/umalloc.c:47-61 | the units from sbrk, at least 4096, join the heap as free space; nothing changes if sbrk refuses |
| Umalloc.Allocator.Malloc | user/umalloc.c:64-90 | a new live block of at least the bytes asked for and a header, and of less than one unit more; 0 only if nothing fits and sbrk refuses; memory is asked for only if nothing fits; the search ends |
| Umalloc.StopsAt | user/umalloc.c:30-32 | free's loop test holds at exactly one place of the ring, the last free block below |
| Umalloc.ReturnedGood | user/umalloc.c:33-43 | linking the block in and merging it with both neighbours keeps the heap tiled, rising and without touching free blocks |
| Umalloc.SplitGood | user/umalloc.c:78-82 | so does cutting the tail off a free block |
| Umalloc.GrownGood | user/umalloc.c:47-61 | so does adding memory from sbrk |
| Umalloc.Disjoint | user/umalloc.c:24-90 | in such a heap two blocks, free or live, share no unit, and two free blocks do not even touch |
| Umalloc.BytesApart | user/umalloc.c:64-90 | every byte handed out lies in memory from sbrk, is handed out to no other caller and is in no header of a block, free or live |
| Shell.Parser.ParseCmd | user/sh.c:329-343 | the parser with its cursor computes Parsed on every line, error cases included, and ends; ShellGrammar says what Parsed is |
| Shell.Parser.ParseExec | user/sh.c:417-447 | the same of a simple command, with words and redirections in any order and at most MAXARGS - 1 words, or a block |
| Shell.Parser.ParseLine | user/sh.c:346-360 | the same of a pipe, any number of &, and what follows a semicolon |
| ShellGrammar.LexesExactly | user/sh.c:266-309 | the tokens of a line are the one reading of its characters into words as long as possible and symbols, >> before > |
| ShellGrammar.ParseSound | user/sh.c:329-447 | every line that parses has the tokens of a tree of the grammar, each word one argument, each redirection and its file one redirection, each symbol once, in order, and parses to what the tree means |
| ShellGrammar.ParseComplete | user/sh.c:329-447 | every line with the tokens of a tree whose commands have fewer than MAXARGS words parses, to what the tree means |
| ShellGrammar.ParsesExactly | user/sh.c:329-447 | a line parses if and only if there is such a tree, and no two trees of a line mean different commands |
| ShellPrint.ParseInvertsRender | user/sh.c:266-447 | for every command tree with proper words, parsing its printed form gives the tree back |
| ShellNul.Input.NulTerminate | user/sh.c:451-494 | the buffer changes exactly at the ends of the command's words and file names, which become NUL |
| ShellNul.LineProper | user/sh.c:266-447 | every word and file name the parser returns is a whole word of the line |
| ShellNul.ParseAndTerminate | user/sh.c:329-343 | after parsing and nulterminate every argument and file name reads, as a C string, exactly its token |
| Grep.MatchHere | user/grep.c:85-96 | true exactly when some prefix of the text is in the language of the pattern |
| Grep.MatchStar | user/grep.c:99-106 | true exactly when the text is any number of the character followed by a match of the rest |
| Grep.Match | user/grep.c:73-82 | true exactly when some substring is in the language of the pattern without its anchors, at the start of the text if the pattern begins with ^ and at its end if it ends in $ |
| Grep.StarsExactly | user/grep.c:85-96 | how a pattern without anchors reads: a * makes a star of the character before it unless that is a star already, and this is the only such reading |
| Grep.ParseAnchor | user/grep.c:91-92 | a $ at the end of a pattern, and no other, is an anchor |

Reading notes. A process in `Frames` is a map from slots (root, interior pages, leaves,
trapframe) to entries; `Sv39.Represents` ties it to the words in memory. uvmunmap appears
in `Vm` once with do_free for user pages and once without for the two kernel pages.
parseexec collects its words and redirections and wraps them at the end, which gives the
tree that wrapping as it goes does (`ShellGrammar.Redirected` wraps as it goes). The second mapping of proc_pagetable needs no further
interior page, so it cannot fail. kfree's test for a negative count (kernel/kalloc.c:86) can
never be true of an 8-bit counter; it need not be, since no count is ever decremented below
0 (`Frames.NoWrap`). What lies outside the modelled code comes in as a
parameter: the answer of sbrk, the first contents of the frames, the failure of a copy in
wait.

## Left out

- kernel/virtio_disk.c: the descriptor ring; a block read or write is one atomic step of the disk.
- Sleep locks, and the spin locks of bio.c, log.c and fs.c: those calls run one at a time; only `Reservation` interleaves the log's, at the level of `struct log`.
- either_copyin failing inside writei: the content theorem is for copies that succeed.
- The byte layout of inodes on disk: iupdate copies an inode as a whole.
- Directories, path names, link counts, open files, pipes and devices.
- exec, uvmfirst, uvmclear and copyinstr, and the kernel's own page table.
- The TLB, and page permissions other than valid, read, write, execute, user and copy-on-write.
- Sv39.PageTable.Mappages: a perm without read, write and execute, which no caller passes and which would put a pointer to a table where a page belongs.
- Proc.SchedChecks: sched's check that interrupts are off, because interrupt flags are not modelled.
- Deadlock and fairness: the process results are safety results.
- pid allocation, and the working directory and open files that fork copies and exit drops.
- Umalloc.Allocator.Malloc: requests of 2 gigabytes and more, where the int that sbrk takes would wrap.
- runcmd, getcmd and the read loop of grep: system-call plumbing.
- console.c, uart.c, printf.c, plic.c, start.c and the assembly files.
