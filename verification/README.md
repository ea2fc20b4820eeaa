# A verified model of xv6's core

This project models, in Dafny, the parts of xv6 (for x86, with its small signal
framework) where most of its reasoning lives, and proves what they promise:

- the **redo log** and the **buffer cache** over a disk that loses power between any two
  block writes, also during recovery;
- the **inode content layer**: free map, direct and indirect blocks, the read, write and
  truncate loops, as byte strings that do not interfere;
- the two **allocators**: the circular free list of `malloc`, and page ownership under
  two-level page tables;
- the **process machine**: sleep and wakeup under two locks, exit, wait and fork, and pipes;
- the **shell parser**, with its in-place string termination;
- **link counts** of the directory tree;
- **signal delivery** through frames on the user stack;
- the **pattern matcher** of grep.

`dafny verify dfyconfig.toml` checks the whole project.

## How it is organised

| file | about |
|---|---|
| Disk, Recovery | blocks, single-block writes, the log header; recovery and one commit cut off anywhere |
| GroupCommit | modules `AtomicDisk` (what clients are promised) and `GroupCommit` (the log as a machine that refines it) |
| Reservation | when `begin_op`'s reservation keeps the log from overflowing |
| LogCode | log.c as code: loops and the `log` structure, proved to be runs of that machine |
| BufferCache | modules `Ring` (the doubly linked list) and `BufferCache` (bio.c as a class) |
| CacheCommit | the commit of log.c on that cache of 30 buffers: the same as the machine's, and exactly when it finds no buffer |
| CacheRace | the same commit while other processes read blocks and let them go between its writes |
| FsBytes, Inodes, FsCode | bytes and bits of a block; block ownership; fs.c as code |
| Heap | umalloc.c |
| PageTables | vm.c and kalloc.c |
| Sleep, ProcTable, Pipe | proc.c's two protocols and pipe.c |
| ShellGrammar, ShellText, ShellCode | sh.c: the parser on tokens and a printer, tokens and text, the code |
| ShellReading | what a line of the shell stands for and what is wrong with one, said without a parser |
| Links | sysfile.c and the directory part of fs.c |
| Signals | trap.c and the trampoline |
| Matcher | grep.c |

Protocols are machines with one step per lock operation, block write or critical section;
a run is any finite list of steps, and the main results are about every run. Code that
updates things in place is a method with loop invariants, on a class where the source has
an object; several loops work on values that the class then stores. Panics are outcomes,
not assumptions: a method returns a value that stands for the panic, or its `requires` is
what the source would otherwise panic about.

Some predicates are guarded by a trivially true predicate (`Look`, `LookAt`, `LookIn`,
`LookBufs`, `LookRace`, `LookRing`, `At` and the like); it changes nothing about what they say and only decides
where the verifier unfolds them.

## Where the code falls short of what one would expect

Each of these is stated as a lemma with the exact condition and, where it fails, a concrete case.

- `begin_op` reserves LOGSIZE blocks, `log_write` tests the fill level before it takes the
  lock, and mkfs makes a log of LOGSIZE blocks including the header. Operations within
  their quota can overflow the log; they cannot exactly when the log area is larger than
  LOGSIZE (`Reservation.ReservationSoundIff`).
- Even then they can halt the machine: the test comes before the search for the block, so
  a block that is in the log already meets "too big a transaction" when the log is full
  (`Reservation.PanicsIff`). No run within quota gets there exactly if no operation calls
  `log_write` more than MAXOPBLOCKS times, repeated blocks included (`Reservation.NoPanicIff`).
- A commit is atomic exactly when the log area has a data block for each block of the
  transaction (`Recovery.CommitAtomicIffLogFits`).
- The cache has as many buffers as a transaction may have blocks. If nobody else uses the
  cache meanwhile, a commit panics with "bget: no buffers" exactly if its first log block is
  not cached and no buffer is free (`CacheCommit.CommitOnCache`); with no other buffer in
  use, exactly if the transaction fills the cache (`CacheCommit.CommitFindsBufferIff`). So
  the log area larger than LOGSIZE that the reservation needs lets in transactions of 30
  blocks that can be logged and never committed (`CacheCommit.FullTransaction`). While
  others read blocks and let them go between its writes, it finds a buffer at every write of
  every run exactly if its blocks and the buffers others may hold at once are fewer than
  NBUF (`CacheRace.ServedIff`); a panic half way is a crash at that write
  (`CacheRace.RunIsCommit`).
- `malloc` rounds with a wrapping addition: the block is large enough exactly up to
  2^32 - 8 bytes (`Heap.NunitsExact`); and `sbrk` is asked for what the new header
  claims exactly below 2^28 units (`Heap.SbrkExact`).
- `deallocuvm` skips 4 MB from where it stands, not to the next page table, and can jump
  over mapped pages (`PageTables.ShrinksIff`, `PageTables.HoleLeavesPage`). exec and
  growproc never make such a space: they map memory without gaps, growing and shrinking
  keep it so (`PageTables.ContiguousAfterGrow`, `PageTables.ContiguousAfterShrink`), and
  there nothing is passed over (`PageTables.ContiguousShrinks`).
- A killed writer that fills a pipe leaves without waking the readers; that is exactly
  what leaves a reader asleep beside bytes (`Pipe.StepSleepers`, `Pipe.KillStrandsReader`).
- The pipe tests `killed` before `sleep` takes the lock kill holds. A kill that falls in
  between finds nobody asleep and is lost: the process sleeps on, marked. That happens
  exactly to kills in this window (`Pipe.MarkedAsleepIff`, `Pipe.KillLostIff`, `Pipe.KillIsLost`).
- `kill` does not ask whether an entry is in use, and `allocproc` does not clear `killed`. An
  unused entry is marked by exactly two steps: a kill whose pid an unused entry still has
  (pid 0, say), and a fork that gives up a child that was killed meanwhile. The next process
  made there is born killed (`ProcTable.Ptable.Kill`, `ProcTable.Ptable.AbandonFork`,
  `ProcTable.BornKilled`); otherwise none is (`ProcTable.Ptable.AllocProc`).
- Entries may be created in a directory that has been unlinked but is still in use. And
  `iput` lets its lock go while it frees an inode: its number is free on disk, and `ialloc`
  may give it out again, before the cached copy is marked invalid; or `link` may reach it
  through the `..` of an unlinked directory. Link counts stay right, whatever references are
  then taken and dropped, in exactly the runs that do neither (`Links.StepCountsIff`,
  `Links.RunSafeIff`; `Links.StrayFileMiscounted`, `Links.TakenNamesFree`, `Links.TwoNamesOneLink`).

Besides, the parser reads `>>` as `>`: there is no append (sh.c:388-393), and the model follows the code.

## Model

| member | source | states |
|---|---|---|
| Disk.HeadRoundTrip | log.c:84-113 | `read_head` returns the block list `write_head` wrote, whatever the header block held before |
| Recovery.CrashedRecovery | log.c:115-122 | recovery cut off after any number of its writes leaves an image that can be recovered and in which what is durable is unchanged |
| Recovery.RecoverySurvivesCrashes | log.c:115-122 | after any number of cut-off recoveries and a complete one, every home block holds what was durable at the first boot, and the log is empty |
| Recovery.CommitStep | log.c:175-200 | of all the writes of a commit only the header write changes what is durable, and it changes exactly the transaction's blocks |
| Recovery.CommitCrashAtomic | log.c:175-200 | a commit cut off after any number of writes leaves durable all the old home blocks (up to the header write) or all the new ones |
| Recovery.SpillIsNotAtomic | log.c:175-188 | a transaction larger than the log area can be cut off so that neither all old nor all new blocks are durable |
| Recovery.CommitAtomicIffLogFits | log.c:175-200 | a commit is atomic under every crash, for all disk contents, if and only if the log area has a data block for each block |
| AtomicDisk.ActiveIsOpen | log.c:125-172 | in the promised disk, the active operations are those begun and not ended or lost |
| AtomicDisk.CommitSplitsNoOperation | log.c:153-162 | no commit falls inside an operation, so no operation's writes are split across two commits |
| AtomicDisk.DurableIsLastCommit | log.c:99-113 | what is durable is the logical disk at the last commit of the trace |
| GroupCommit.EndOpNeverPanics | log.c:151-159 | in every run, while a commit is in progress no operation is open, and no `end_op` finds `log.committing` set |
| GroupCommit.CommitPoint | log.c:190-200 | at the header write, what clients see becomes durable; no other write of the commit changes what is durable |
| GroupCommit.CommitKeepsView | log.c:69-82 | no write of a commit changes what a reader of any home block sees |
| GroupCommit.HomeCaughtUp | log.c:190-200 | when a commit is done every home block on disk holds what clients see |
| GroupCommit.CommitReadsCurrent | log.c:175-200 | what each write of a commit copies is what the code's own reads return at that moment |
| GroupCommit.StepRefines | log.c:69-231 | every step of the log, its cache, a crash or recovery is a step of the atomic disk, and keeps the invariant |
| GroupCommit.RunRefines | log.c:69-231 | every run of any number of interleaved operations is a run of the atomic disk |
| GroupCommit.CrashAnywhere | log.c:69-231 | power lost at the end of any run, and any number of times during recovery: the recovered disk is the logical disk at the last commit, at which no operation was open |
| Reservation.ReservedStep | log.c:126-141 | log slots in use and slots owed to open operations never exceed LOGSIZE |
| Reservation.ReservationSuffices | log.c:126-141 | in a log area larger than LOGSIZE, every append of operations within their quota fits |
| Reservation.CrashAnywhereInQuota | log.c:69-231 | in a log area larger than LOGSIZE, operations within their quota are atomic under every crash, with no assumption about the fill level |
| Reservation.ReservationFallsShort | log.c:216-228 | in a log area of at most LOGSIZE blocks, a run within quota overflows it |
| Reservation.ReservationSoundIff | log.c:126-141 | the reservation guarantees every append of operations within their quota a slot if and only if the log area is larger than LOGSIZE |
| Reservation.PanicsIff | log.c:216-217 | in a log area larger than LOGSIZE and a run within quota, a call of `log_write` panics if and only if the log holds LOGSIZE blocks; then every open operation has used all its slots |
| Reservation.SlotsAreCalls | log.c:211-231 | an operation has taken no more slots than it has made calls of `log_write`, in every run |
| Reservation.CallTooMany | log.c:216-228 | in every log area larger than LOGSIZE, a run within quota in which the eleventh call of an operation, for a block already in the log, panics |
| Reservation.NoPanicIff | log.c:216-217 | in a log area larger than LOGSIZE, no run within quota with at most a given number of calls per operation panics in `log_write`, if and only if that number is at most MAXOPBLOCKS |
| LogCode.WriteLog | log.c:174-188 | the loop does exactly the log-block writes of the commit that the machine would do |
| LogCode.WriteHead | log.c:99-113 | the loop writes the count and the entries over the header block and leaves the rest of it |
| LogCode.InstallTrans | log.c:68-82 | the loop installs each log block at its home, in order |
| LogCode.InstallCommits | log.c:68-82 | after the header write, the install loop is the next part of the commit's writes |
| LogCode.InstallRecovers | log.c:68-82 | at boot, the install loop is the first part of recovery's writes |
| LogCode.Commit | log.c:190-200 | the body of `commit` does the commit's writes one by one, nothing for an empty transaction |
| LogCode.RecoverTurnIs | log.c:115-122 | what each write of recovery copies is what the code's own reads return |
| LogCode.Log.constructor | log.c:53-66 | `initlog` is the run boot, recovery writes, recovery done |
| LogCode.Log.ReadHead | log.c:84-96 | the in-memory header becomes the logged block list |
| LogCode.Log.BeginOp | log.c:125-141 | an operation is admitted exactly when the reservation holds, and the call is that step of the machine |
| LogCode.Log.LogWrite | log.c:211-231 | the call is a test and an append of the machine; it panics exactly on a full log or outside an operation |
| LogCode.Log.AddBlock | log.c:222-228 | a block already in the transaction is not listed again |
| LogCode.Log.EndOp | log.c:145-172 | the call is the machine's end step, followed by the whole commit if it was the last operation, and then everything written is at home on the disk; either way waiting operations are woken |
| LogCode.CommitBringsHome | log.c:190-200 | after a commit every home block on the disk holds what readers saw before it, and they still see that |
| LogCode.Log.CrashNow | log.c:145-172 | after any sequence of calls, a crash loses exactly what was not committed |
| Ring.Unlink | bio.c:132-133 | the two assignments take one buffer out of the linked ring |
| Ring.PushFront | bio.c:134-137 | the four assignments put a buffer at the front of the linked ring |
| Ring.MovedIsPermutation | bio.c:132-137 | moving a buffer to the front keeps the ring a permutation of all buffers |
| BufferCache.RecycleView | bio.c:78-91 | taking over a free, clean buffer changes what is read of no block |
| BufferCache.FindBuf | bio.c:69-76 | the walk forwards ends, at the block's buffer if there is one |
| BufferCache.FindFree | bio.c:81-91 | the walk backwards ends, at the last buffer of the ring that is free and clean if there is one |
| BufferCache.OldestFree | bio.c:81-91 | the last free buffer of the ring is the one whose last reference was dropped longest ago |
| BufferCache.MovedByRelease | bio.c:129-138 | moving a buffer to the front when its last reference is dropped keeps the ring in the order of those drops |
| BufferCache.Cache.constructor | bio.c:38-56 | `binit` links all buffers, the last one first, all free, and reads see the disk |
| BufferCache.Cache.Bget | bio.c:61-93 | the buffer that holds the block, or else, of the free and clean ones, the one that was let go longest ago, taken over; -1 exactly if there is neither |
| BufferCache.Cache.Fill | bio.c:102-105 | a buffer without data gets the disk's; fails exactly when `iderw` panics |
| BufferCache.Cache.Bread | bio.c:96-106 | yields the last contents given to the block, else the disk's; says exactly when it panics and which one buffer changes |
| BufferCache.Cache.Bwrite | bio.c:109-116 | the disk block becomes the buffer's contents, no other block changes, and no read does if the buffer was valid; fails exactly when the code panics |
| BufferCache.Cache.MoveToFront | bio.c:132-137 | the pointer assignments keep one ring of all buffers with this one first |
| BufferCache.Cache.ReleaseLock | bio.c:120-126 | lets go of the lock, panics exactly without it; the cache stays right if and only if the holder logged or wrote what it changed |
| BufferCache.Cache.Unreference | bio.c:128-140 | drops one reference, and at the last one makes the buffer most recent |
| CacheCommit.TrafficInvisible | bio.c:61-106 | the machine's cache steps, bringing a block in and letting a clean one go, do not show on the real cache |
| CacheCommit.SimStored | bio.c:109-116 | a `bwrite` on the cache is the machine's write-through |
| CacheCommit.LogWrite | log.c:202-231 | bread, change, log_write and brelse on the cache are the machine's append; no buffer exactly if the block is not cached and none is free |
| CacheCommit.LogBlock | log.c:181-186 | the body of the write_log loop stores the cached block in its log block; it fails exactly if there is no buffer for the log block |
| CacheCommit.InstallBlock | log.c:75-80 | the body of the install_trans loop stores the log block at home, which no longer waits for a commit |
| CacheCommit.WriteHead | log.c:101-113 | the header block holds the new block list, on disk and in the cache |
| CacheCommit.WriteLog | log.c:174-188 | with no use of the cache by others during the loop, it does the machine's writes; it fails exactly if its first bread does, with nothing written |
| CacheCommit.InstallTrans | log.c:68-82 | with no use of the cache by others during the loop, it does the machine's writes, and finds a buffer for each because the header write has left one |
| CacheCommit.CommitOnCache | log.c:190-200 | a commit of any run of the machine, on 30 buffers and with no use of the cache by others meanwhile, ends with the machine's disk, reads and dirty blocks; or panics, exactly if its first log block is not cached and no buffer is free |
| CacheCommit.CommitFindsBufferIff | param.h:10-12 | with no other buffer in use, a commit finds a buffer if and only if the transaction has fewer than NBUF blocks |
| CacheCommit.FullTransaction | param.h:10-12 | from a new cache, any 30 distinct blocks can be logged and their commit always panics |
| CacheRace.StepInv | log.c:174-200 | whatever other processes bread and brelse between two writes of a commit, its blocks stay cached and unused, no held block is written, and the commit is as far as the machine's |
| CacheRace.RunIsCommit | log.c:174-200 | in every run with others in between, disk, reads and dirty blocks after any number of the commit's writes are the machine's after as many |
| CacheRace.TookView | bio.c:95-106 | another process's bread changes what no block reads as, whichever free buffer it takes over |
| CacheRace.ServedIff | bio.c:61-92 | a commit finds a buffer at every write of every run if and only if its blocks and the buffers others may hold at once are fewer than NBUF; and then so do the others |
| CacheRace.ServedInTurn | bio.c:61-92 | nor does another process go without, while that holds, between the two breads for one write |
| CacheRace.CanStarve | bio.c:79-91 | with as many or more, a run in which others hold every buffer the transaction leaves when the commit first asks |
| CacheRace.CommitAmid | log.c:190-200 | the code with any calls of others before each write: it does not fail while those are fewer than NBUF; done, it has done the machine's commit; cut short, the disk is the machine's after as many writes |
| CacheRace.StarvedCommit | bio.c:79-91 | the starving run in the code: the commit fails with nothing written |
| Inodes.UsedBlockHasOneOwner | fs.c:56-96 | a bit of the free map is set exactly for metadata and for blocks named by a slot of an inode, and by one slot only |
| Inodes.OneOwnerSuffices | fs.c:56-96 | that, stated slot by slot, is all there is to consistency |
| Inodes.AllocOwned | fs.c:66-73 | taking a free block keeps ownership, with the new block in hand |
| Inodes.FreeOwned | fs.c:87-95 | giving back a block in hand keeps ownership |
| Inodes.AssignEntry | fs.c:373-376 | putting a block in hand into an empty indirect entry keeps ownership and every file's bytes |
| Inodes.PatchBytes | fs.c:485-488 | writing part of one file's block changes exactly those bytes of that file and no other |
| FsCode.Balloc | fs.c:56-78 | finds the first free block, marks it and zeroes it; fails exactly when none is free |
| FsCode.Bfree | fs.c:81-96 | clears the block's bit; panics exactly when it was clear |
| FsCode.Bmap | fs.c:354-382 | the disk block of a file block, allocating it and the indirect block if missing; consistency and all file contents kept; panics only out of range or on a full disk |
| FsCode.ReadBlocks | fs.c:449-462 | the block loop returns that stretch of the file's bytes; without holes it allocates nothing |
| FsCode.WriteBlocks | fs.c:484-490 | the block loop puts the bytes in place and changes no other byte of any file |
| FsCode.FreeEntries | fs.c:406-409 | the loop frees every block the indirect block names, each once, and no other |
| FsCode.TruncBlocks | fs.c:389-413 | every slot of the file is empty, exactly its blocks are free, no other file changes, and no block is freed twice |
| FsCode.WroteSpliced | fs.c:484-495 | bytes written are a splice of the file's byte string; every other file is unchanged |
| FsCode.WroteNoHoles | fs.c:484-495 | a file without holes has none after a write |
| FsCode.FileSystem.Readi | fs.c:432-463 | returns contents[off .. min(off + n, size)]; refuses exactly offsets past the end and wrapping lengths; no holes, no allocation |
| FsCode.FileSystem.Writei | fs.c:467-497 | splices the bytes in and extends the size exactly as needed; refuses exactly gaps and sizes over MAXFILE; the inode on disk agrees afterwards; no other inode or its contents change, also when the disk fills up, which leaves a beginning of the bytes in place |
| FsCode.FileSystem.Itrunc | fs.c:389-417 | the file is empty on disk and in memory and exactly its blocks are free; no other inode or its contents change |
| Heap.FindSlot | umalloc.c:30-32 | the walk ends, at the free block just below the one to be freed |
| Heap.CoalescedApart | umalloc.c:33-42 | after joining neighbours, no two free blocks touch |
| Heap.CoalescedCovers | umalloc.c:33-42 | exactly the units of the freed block become free |
| Heap.OneCycle | umalloc.c:24-44 | following `ptr` from `base` reaches every free block |
| Heap.Release | umalloc.c:24-44 | `free` keeps one address-ordered cycle of the joined blocks and touches no other header |
| Heap.NunitsExact | umalloc.c:69 | the block is large enough if and only if nbytes <= 2^32 - 8, and then at most one unit larger than needed |
| Heap.SbrkExact | umalloc.c:54 | `sbrk` is asked for what the header claims if and only if fewer than 2^28 units are asked for |
| Heap.CarvedCovers | umalloc.c:75-82 | exactly the units of the block handed out stop being free |
| Heap.Morecore | umalloc.c:46-61 | a new region of at least 4096 units joins the list; null exactly when `sbrk` fails |
| Heap.Allocate | umalloc.c:63-90 | the scan ends; `morecore` is called at most once and only when nothing fits; a block of the right size leaves the list |
| Heap.Allocator.Malloc | umalloc.c:63-90 | the block has at least the bytes asked for and fewer than eight more, up to 2^32 - 8; live blocks stay apart from each other and from free ones, and live and free units are together the units granted, at least 4096 at a time |
| Heap.Allocator.Free | umalloc.c:24-44 | the block leaves the live blocks and its units are free; nothing else changes |
| PageTables.DeallocUvm | vm.c:256-280 | unmaps exactly the pages from the first one found with a page table to `oldsz` and gives each back once; in bytes, every page with a byte below `newsz` or wholly above `oldsz` is mapped as before, and without gaps no page from `newsz` to `oldsz` is mapped |
| PageTables.PagesExact | mmu.h:133 | a page number is below the rounded-up size exactly if the page's first byte is below the size |
| PageTables.UnmappedBytes | vm.c:256-280 | what shrinking does to the page of every byte: kept below `newsz` and above `oldsz`, gone in between when memory has no gaps |
| PageTables.JumpedOver | vm.c:267-269 | pages the 4 MB skip passes over lie in the first table present, below the starting offset |
| PageTables.ShrinksIff | vm.c:256-280 | nothing stays mapped if and only if no mapping lies where the skip passes over it |
| PageTables.ContiguousShrinks | vm.c:256-280 | when memory is mapped without gaps nothing stays mapped |
| PageTables.HoleLeavesPage | vm.c:267-269 | a space with a hole whose shrinking leaves page 1024 mapped |
| PageTables.ContiguousAfterShrink | vm.c:256-280 | shrinking memory without gaps leaves memory without gaps |
| PageTables.ContiguousAfterGrow | vm.c:222-250 | growing memory without gaps, as exec and growproc do, leaves memory without gaps |
| PageTables.WalkPgdir | vm.c:44-64 | the page table is there afterwards unless one is missing and no page is free |
| PageTables.RolledBack | vm.c:236-246 | taking back the pages mapped so far restores exactly the mappings there were |
| PageTables.AllocUvm | vm.c:222-250 | succeeds exactly when there is a free page for each page and each missing table; every new byte is then in a mapped page, if the last old one was, and no other page is mapped or unmapped; otherwise all user pages go back and no mapping changes |
| PageTables.MappedBytes | vm.c:222-250 | what growing does to the page of every byte |
| PageTables.NeedExact | vm.c:222-250 | the pages it takes are one for each new page and one for each page table that is missing |
| PageTables.FreeVm | vm.c:284-299 | every user page, page table and the directory is on the free list once; kernel targets are not |
| Sleep.StepInv | proc.c:389-444 | each lock operation and each turn of the wakeup loop keeps: no sleeper on a true condition without a wakeup on its way |
| Sleep.NobodySleepsInVain | proc.c:389-444 | no lost wakeup, for any number of processes, locks and channels, in every run |
| Sleep.WakeupRousesAll | proc.c:427-444 | a wakeup that runs through makes runnable exactly the processes asleep on its channel |
| ProcTable.ExitedOk | proc.c:205-244 | exit keeps: live or zombie processes have live parents, and no process asleep in wait has a zombie child |
| ProcTable.ExitIsSeen | proc.c:224-243 | after exit the parent has the zombie to collect and is not asleep in wait |
| ProcTable.ReapedOk | proc.c:262-275 | a reaped pid has not been reaped before and the invariant is kept |
| ProcTable.SleptOk | proc.c:285-286 | going to sleep in wait is safe when no child is a zombie |
| ProcTable.Ptable.constructor | proc.c:96-131 | init alone, runnable with pid 1, in a table of unused entries, satisfies the invariant |
| ProcTable.Ptable.Wakeup1 | proc.c:427-435 | every process asleep on the channel, whatever it is, becomes runnable, and nothing else changes |
| ProcTable.Ptable.Wakeup | proc.c:437-444 | the same, keeping the invariant |
| ProcTable.Ptable.AllocProc | proc.c:34-69 | the first unused entry becomes an embryo with a fresh pid, not marked killed unless kill or fork has left a mark in an unused entry; none when the table is full |
| ProcTable.Ptable.AbandonFork | proc.c:168-173 | the entry is unused again; a mark is left behind exactly if the child had been killed |
| ProcTable.Ptable.SetParent | proc.c:173 | the unlocked write of the parent keeps the invariant |
| ProcTable.Ptable.FinishFork | proc.c:191-199 | the child is runnable, with a live parent and a pid not reaped |
| ProcTable.Ptable.Abandon | proc.c:229-236 | the loop hands every child to init and wakes init exactly if one is a zombie |
| ProcTable.Ptable.Exit | proc.c:205-244 | the panic exactly for init; else the process is a zombie, its children are init's, who waits for its parent's children is roused, and who waits for init's if it leaves a zombie; no other field of any entry changes |
| ProcTable.ExitedFields | proc.c:227-242 | that, field by field, of exit's critical section as a whole |
| ProcTable.Ptable.Wait | proc.c:249-288 | collects the first zombie child, at most once; gives up exactly without children or when killed; else sleeps |
| ProcTable.Ptable.Kill | proc.c:449-470 | the first entry with the pid is marked and, if asleep, made runnable; -1 exactly if there is none; an unused entry gets a mark exactly if it is the one |
| ProcTable.BornKilled | proc.c:449-467 | from a new table, kill of pid 0 and then a new process, which is marked killed |
| Pipe.TestsExact | pipe.c:85-114 | the code's tests for empty and full are exact across counter wraparound |
| Pipe.PutQueue | pipe.c:93 | a byte put in is appended to the queue, across wraparound |
| Pipe.DropQueue | pipe.c:116 | a byte taken out is the queue's first |
| Pipe.PipeBuffer.WriteTurn | pipe.c:78-98 | puts in as many bytes as fit, in order; returns the count exactly when all are in, -1 exactly when some are left and the read end is closed or the writer killed, else sleeps; wakes the readers unless it returns -1 |
| Pipe.PipeBuffer.ReadTurn | pipe.c:100-121 | takes out the first bytes, as many of n as there are, or waits on an empty pipe that can be written, -1 if killed |
| Pipe.PipeBuffer.Close | pipe.c:59-75 | closes one end and wakes the other; frees exactly when both are closed |
| Pipe.PipeIsFifo | pipe.c:77-121 | in every interleaving of any readers, writers and kills, bytes read followed by bytes buffered are the bytes written, at most 512 buffered |
| Pipe.StepSleepers | pipe.c:77-121 | a step keeps those asleep or about to sleep right (readers on empty, writers on full) if and only if it is not a killed writer that fills the pipe with a reader waiting |
| Pipe.KillAndWakeCommute | pipe.c:90 | a kill just before or just after a wakeup on the pipe leaves the same, so the wakeup may be part of the turn |
| Pipe.MarkedAsleepIff | pipe.c:86-91 | in every run, a process asleep in the pipe is marked if and only if its kill fell between its test of `killed` and its sleep |
| Pipe.KillLostIff | proc.c:449-467 | after any run, a kill of an unmarked process can be followed by steps that leave it asleep in the pipe, if and only if it comes in that window |
| Pipe.KillIsLost | pipe.c:105-111 | on any new pipe, a run in which a reader tests, is killed and goes to sleep all the same |
| Pipe.NoDeadlock | pipe.c:77-121 | readers and writers never wait together in such runs |
| Pipe.WithoutKillNeverStrands | pipe.c:86-89 | runs without kill are such runs |
| Pipe.KillStrandsReader | pipe.c:86-89 | a run with kill that leaves a reader asleep on a full pipe |
| ShellGrammar.LineRoundTrip | sh.c:344-446 | parsing the tokens of a printed command gives the command and stops at its end; `\|` and `;` to the right, later redirections outermost |
| ShellGrammar.LineEmits | sh.c:344-446 | whatever parses has fewer than MAXARGS arguments everywhere and only words of the input |
| ShellText.LexRender | sh.c:265-308 | text with every token set off by a space is read as those tokens |
| ShellText.TextRoundTrip | sh.c:327-446 | every command with ordinary words, typed out, is read back as itself |
| ShellText.ReadingIsStable | sh.c:327-446 | any line that is accepted means the same when its command is typed out again |
| ShellReading.LexIff | sh.c:265-308 | the tokens of a line are the ones it is spelled with: blanks between them, words as long as they can be, `>>` before `>` |
| ShellReading.LineIff | sh.c:344-446 | the parser returns a command and the tokens left over if and only if those it took are the tokens of a syntax tree that means the command and cannot go on; `<` opens for input, `>` and `>>` for output, arguments and redirections in any order |
| ShellReading.ComplainsIff | sh.c:344-446 | it panics with a complaint if and only if the tokens up to some place can go on and the next cannot stand there for that reason: a file missing, a tenth argument, a parenthesis among arguments or missing |
| ShellReading.MeaningIff | sh.c:328-342 | a line is read as a command if and only if it stands for it |
| ShellReading.PanicsIff | sh.c:328-342 | it panics if and only if the line stands for no command |
| ShellReading.ComplaintIff | sh.c:328-342 | and with exactly the complaint that is due, also about leftovers |
| ShellCode.ScanToken | sh.c:265-308 | the scanning loops return the next token, where it lies, and the cursor after it |
| ShellCode.Parser.GetToken | sh.c:265-308 | the cursor moves past exactly one token |
| ShellCode.Parser.Peek | sh.c:310-320 | tests the next token's first character and skips only blanks |
| ShellCode.Parser.ParseRedirs | sh.c:374-397 | the loop wraps the command in the redirections that follow, or complains of a missing file |
| ShellCode.Parser.ParseBlock | sh.c:399-413 | a parenthesised line and its redirections, or the complaint |
| ShellCode.Parser.ParseExec | sh.c:415-446 | arguments and redirections in any order, or the complaint |
| ShellCode.Parser.ParseArgs | sh.c:431-442 | the loop adds each argument and the redirections after it, up to the end of the command, or the complaint |
| ShellCode.Parser.ParsePipe | sh.c:361-372 | a pipeline, as the grammar says |
| ShellCode.Parser.ParseLine | sh.c:344-359 | a line, as the grammar says; it ends on every input |
| ShellCode.Nulterminate | sh.c:448-493 | a NUL at the end of every word of the tree and nowhere else |
| ShellCode.WordsSurvive | sh.c:448-493 | every word, read as a C string afterwards, is the word that was parsed |
| ShellCode.ParseCmd | sh.c:327-342 | returns the one command the line stands for, with every word of it a C string in place; or panics, exactly if the line stands for none, with the complaint that is due |
| Links.DirLookup | fs.c:510-534 | the first entry in use with the name, or none |
| Links.DirLink | fs.c:537-564 | a new entry in the first free slot or at the end, under which its name leads to the inode; what every other name leads to stays; refused exactly if the name is there |
| Links.AddedLeads | fs.c:537-564 | a name entered where it was not leads to its inode, and no other name leads elsewhere than before |
| Links.NamesStep | sysfile.c:117-283 | every step keeps names unique in each directory |
| Links.RunNames | sysfile.c:117-283 | in every run from a new file system no directory has a name twice |
| Links.CreateLookup | sysfile.c:240-283 | after create the name leads to the new inode, the dots of a new directory to it and its parent, and no other name elsewhere than before |
| Links.LinkLookup | sysfile.c:143-163 | after a link that writes its entry the name leads to the file, and no other name elsewhere than before |
| Links.UnlinkLookup | sysfile.c:183-238 | after unlink the name leads nowhere, and every other name where it did |
| Links.IsDirEmpty | sysfile.c:167-180 | true exactly when nothing but the dots is in use |
| Links.EmptyDirCounts | sysfile.c:210-228 | an empty directory has count one, and its parent keeps a link without it |
| Links.UnlinkTarget | sysfile.c:210-211 | an inode with an entry has a link, so the panic of unlink is unreachable |
| Links.StrayBreaksCounts | sysfile.c:240-283 | every step that writes an entry into an unlinked directory makes a count wrong: the parent's at once, or the file's when references are dropped |
| Links.TakenBreaksCounts | fs.c:186-204 | every create or link that takes up an inode whose last `iput` is under way makes a count wrong, at once or when the iput goes on |
| Links.StepCountsIff | sysfile.c:117-283 | from a right state, counts are right after a step and however references are then taken and dropped, if and only if the step writes no entry into an unlinked directory and takes up no inode whose last `iput` is under way; and then the tree is right too |
| Links.RunSafeIff | sysfile.c:117-283 | the runs from a new file system in which counts stay right are exactly those that write no entry into an unlinked directory and take up no inode whose last `iput` is under way |
| Links.LinkCountsRight | sysfile.c:117-283 | in such runs every count is the number of entries that count plus the links under way, and every named entry is for an inode that exists |
| Links.StrayFileMiscounted | sysfile.c:240-283 | three calls on a new file system after which, once references are dropped, a file keeps its count though no entry is left |
| Links.TakenNamesFree | fs.c:319-334 | a run from a new file system, into no unlinked directory, in which `ialloc` takes the number between the two halves of `iput`; it ends with a name for an inode that is free |
| Links.TwoNamesOneLink | fs.c:186-204 | going on from there, two names for one inode whose count is one |
| Links.Files.Iput | fs.c:319-334 | the first critical section: the inode is to be freed exactly when its last reference goes and it has no links; otherwise the reference is dropped |
| Links.Files.Erase | fs.c:326-328 | truncated and freed on disk with no lock held; the cached copy stays valid |
| Links.Files.IputEnd | fs.c:329-333 | the second critical section: the cached copy is no longer valid and the reference is dropped |
| Links.Files.SysUnlink | sysfile.c:183-238 | clears the entry, so that the name leads nowhere and every other name where it did, and lowers the counts; refuses dots, missing names and directories in use; says whether the inode is then to be freed |
| Links.Files.Create | sysfile.c:240-283 | a new inode of the kind asked for with one link, to which the name now leads, and a reference, or a reference to the file that is there, or the refusal; the panic without a free inode; counts stay right exactly in a linked directory and with a number whose last `iput` is over |
| Links.Files.LinkRaise | sysfile.c:126-141 | raises the count, except for directories; counts stay right exactly if the inode's last `iput` is not under way |
| Links.Files.LinkEnter | sysfile.c:143-163 | writes the entry, so that the name leads to the file, or takes the count back; counts stay right exactly in a linked directory |
| Signals.FramesPushed | trap.c:41-54 | each frame holds the trampoline, the signal number and where to go next; the stack above is untouched |
| Signals.BodyReturns | trap.c:41-54 | a handler that keeps to its part of the stack comes back to the trampoline, because that is what its frame holds |
| Signals.TrampolineReturns | trapasm.S:4-7 | control at an intact trampoline goes where the frame says, past the signal number, with deliveries before each instruction |
| Signals.HandlerReturns | trapasm.S:4-7 | a handler entered at its frame returns through the trampoline to where the frame says, with nested deliveries at any instruction; control is not lost |
| Signals.LostIff | trapasm.S:4-7 | a handler that keeps to its part of the stack, whatever it does and whatever is delivered while it runs, loses control if and only if its return address is not the trampoline or the trampoline is not intact when it is entered |
| Signals.DeliverUnwinds | trap.c:62-83 | each handler runs once with its own number, in descending order, control is never lost and returns to the same eip and esp with the stack above intact, whatever nests |
| Signals.Process.constructor | exec.c:96-101 | exec leaves the trampoline on the stack, above esp and intact, and nothing pending |
| Signals.UserSigsExact | trap.c:66-81 | exactly the pending signals with a user handler get a frame, each once |
| Signals.Process.PushHandlingSig | trap.c:41-54 | pushes one frame and enters the handler |
| Signals.Process.HandlingSignal | trap.c:62-83 | the loop pushes a frame per such signal in ascending order and leaves none pending |
| Matcher.HereMany | grep.c:98-106 | a starred character matches any number of fitting characters before the rest |
| Matcher.MatchHere | grep.c:84-96 | true exactly when a prefix of the text, or all of it under a final `$`, is one the pattern stands for |
| Matcher.MatchStar | grep.c:98-106 | the loop decides `c*` followed by the rest |
| Matcher.Match | grep.c:72-82 | sound and complete: 1 exactly when, for the one pattern that is written as the argument, a stretch of the text is one it stands for, in the place `^` and `$` ask for |
| Matcher.ShowRead | grep.c:84-96 | every string is how the pattern it is read as is written |
| Matcher.ReadShowIff | grep.c:84-96 | a pattern is read back from how it is written if and only if no character stands before a `*` that is not its star and none is a final `$` |
| Matcher.PatternIff | grep.c:72-82 | a string is read as a pattern, with its `^`, if and only if it is how that pattern is written |
| Matcher.PlainOccurs | grep.c:72-96 | a pattern without special characters is found exactly where it stands in the text |
| Matcher.DotsMean | grep.c:93-94 | k dots stand for the strings of length k |
| Matcher.StarMeans | grep.c:98-106 | a starred character stands for any number of itself, a starred dot for anything |

## Left out

- Boot, interrupts, device drivers, `swtch` and other assembly: hardware effects; a context switch is a step.
- `filewrite`'s chunking and the file-descriptor layer (file.c): only calls what is modelled.
- `setupkvm`, `copyuvm`, `loaduvm` and `mappages` over more than one page: these do not return every page when they fail.
- `kfree` and `kalloc` as pointer code: the free list is the sequence of its pages, last pushed last.
- `runcmd`, `printf` and the user programs other than the matcher: input and output.
- `uthread.c`: stack switching is inline assembly.
- `grep`'s buffering loop: it drops partial lines.
- Paths (`namex`, `skipelem`): link and unlink start from the directory and name they lead to.
- Weak memory: acquire and release are atomic steps.
- Disk.DecodeHead: a header whose count does not fit its block names nothing; the code would read past the block. Sound images exclude it.
- LogCode.Log.BeginOp: one pass of its loop; that the sleeper is woken is `Sleep`'s subject.
- LogCode.Log.LogWrite: takes the contents as an argument; the caller's change of the buffer and the call are one event here.
- BufferCache.Cache.Bread: requires that no other process holds the block's sleep lock, where the code would wait for it.
- CacheCommit.CommitOnCache: requires that no other process is using the log's or the transaction's buffers, where the code would wait; other buffers may be held. Others use the cache meanwhile in `CacheRace`.
- CacheCommit.LogWrite: requires that no other process is using the block's buffer, where the code would wait.
- CacheCommit.LogBlock: requires the same of both blocks' buffers; a commit keeps it, as `CacheRace.StepInv` says.
- CacheCommit.InstallBlock: requires the same of both blocks' buffers.
- CacheCommit.WriteHead: requires the same of the header's buffer.
- CacheCommit.WriteLog: nobody else uses the cache during the loop; `CacheRace` has the general case.
- CacheCommit.InstallTrans: nobody else uses the cache during the loop; `CacheRace` has the general case.
- CacheRace.CommitAmid: others act between two writes of the commit; between the two breads for one write there is only `CacheRace.ServedInTurn`, and the second bread always finds its block cached. They use blocks of their own and each block is used by one of them at a time; for any other block they or the commit would wait.
- FsCode.Bfree: requires a block number of the volume; the code would read past the free map, and no caller passes one.
- FsCode.FileSystem.Readi: devices are reported, not modelled; the volume is the logical disk above log and cache.
- FsCode.FileSystem.Writei: device writes are reported, not modelled.
- Heap.Allocator.Malloc: `sbrk` is a parameter that puts new memory above all earlier memory; headers are assumed not to be overwritten by users, and memory to be aligned to headers. Nothing is said after `sbrk` was asked for the wrong amount.
- PageTables.DeallocUvm: requires `oldsz` to be at most KERNBASE, as every caller passes; above it kernel targets would be freed.
- PageTables.WalkPgdir: the call with `alloc` set, for user addresses; without it the code only looks up.
- PageTables.AllocUvm: requires that nothing is mapped in the range, where the code would panic with "remap".
- ProcTable.Ptable.AllocProc: process numbers are unbounded, not 32-bit; the `killed` flag of a reused entry is left as the code leaves it.
- ProcTable.Ptable.Kill: says which entry is marked; the code does not ask whether that entry is in use, and neither does the model.
- Sleep.NobodySleepsInVain: safety only; that a wakeup on its way arrives needs a fair scheduler.
- Pipe.PipeBuffer.WriteTurn: the byte count is that of the buffer; negative counts are not modelled.
- ShellCode.Parser.ParseExec: nodes are values, so the argument array that the code fills behind the redirections is an update of the innermost node.
- Links.LinkCountsRight: names are taken to be at most 14 characters.
- Links.Files.Create: `ialloc`'s search is a parameter, any number that is free on disk; the directory is one the caller can have reached.
- Signals.DeliverUnwinds: memory is word by word; caller-saved registers and flags are not restored by the code and not claimed.
