# A verified model of xv6 with user-level threads

This project models the parts of the kernel and user library whose correctness depends on more than one
function or on more than one process, and proves what they promise for every input, every interleaving and
every crash point.

| file | what it models |
|---|---|
| LogSpec, LogDevice, GroupCommit, LogOverrun | the redo log: commit and recovery as sequences of single-block writes, the code that issues them, many processes sharing one log and a cache of NBUF buffers, with sleeping, waking and power failures at any moment, and what the size of the log area decides |
| BufferCache | the LRU list of buffers as a plain block map, and what least recently used means |
| Volume, FreeSpace, Files, FileWrite, Directory, Mkfs | bitmap, free blocks, inodes, direct and indirect blocks, reads, writes, truncation, chunked file writes, directories, and the builder of the first image |
| Semaphore, CountingSemaphore, BoundedBuffer | binary semaphores with hand-off, the counting semaphore built from two of them, and a producer/consumer client |
| SleepLock | sleep locks over sleep, wakeup and kill, for any number of processes |
| Pipe, PipeBuffer | pipes with 32-bit counters, over any interleaving, and the ring-buffer loops |
| PageTable, Vm | two-level page tables, the page free list, growing and shrinking an address space |
| Umalloc, Allocator | the K&R allocator of section 8.7 of The C Programming Language, 2nd edition |
| Shell, ShellGrammar, ShellParser | the shell's parser as functions, its grammar apart from any parser, and the parser's loops |
| Grep | the regular-expression matcher |
| Params, Sequences | the sizes of param.h, and sequences without repetition, shared by the other modules |

Code that updates state in place is a class whose methods follow the code's loops and branches; each method is
tied to a function of the old state, and what the code promises is proved about that function. Code whose
difficulty is concurrency is a state machine with one step per access to shared state. Panics are results, not
preconditions, except where a row says otherwise. Disk blocks of the log are sequences of words; disk blocks of
the file layer are sequences of bytes.

Where the merge markers in `uthread.c` and `sanity.c` leave two versions, the model follows the HEAD side.

Facts about the code that the proofs turn up:

- `log_write` panics exactly when the list already has `LOGSIZE` entries or fills the log area, even for a block
  that is already listed.
- What recovery restores is always the committed operations, on every run and with operations of any length, if and
  only if the log area has `LOGSIZE` blocks with its header (or is only a header). `mkfs` gives it exactly that. On a
  smaller area three concurrent operations within their budget can overwrite the block after the log.
- The list never outgrows the log header: `NBUF` equals `LOGSIZE`, and the cache runs out of buffers first.
- For the same reason three operations within their budget can list so many blocks that the commit panics in `bget`,
  before its first write. A commit that nobody disturbs goes through exactly when fewer than `NBUF` blocks are listed.
- `mkfs` leaves a hole in the root directory exactly when its size was a multiple of the block size.
- `writei`, `filewrite` and `dirlink` run into the panic of `balloc` exactly when fewer blocks are free than the file
  lacks. The panics of `log_write` and `bget` come on top: a write lists at least the data blocks it covers.
- `dirlink` stores inode numbers in 16 bits; a number that is 0 modulo 65536 binds nothing.
- `pipewrite` leaves sleeping readers asleep exactly when a write longer than the pipe takes the error exit.
- `malloc` computes too few units exactly for the seven largest 32-bit requests, and asks `sbrk` for the bytes it
  needs exactly when they fit a positive `int`.
- `allocuvm` succeeds exactly when the range is unmapped and the free list covers the new pages and the page tables
  they need; it panics exactly when a page of the range is mapped already and the free list lasts up to it.

## Model

| member | source | states |
|---|---|---|
| LogSpec.EncodeHeader | log.c:102-113 | the header block's count and list read back as what was written, and the words after the list are untouched |
| LogSpec.FillKeepsDurable | log.c:176-188 | writing a log block while the header is empty changes nothing recovery would yield |
| LogSpec.HeaderWriteCommits | log.c:102-113 | one header write turns the recoverable state into the old one overlaid with every logged block |
| LogSpec.ClearKeepsDurable | log.c:190-200 | once all copies are home, clearing the header changes nothing recoverable |
| LogSpec.FillTrace | log.c:176-188 | after any k log writes the old state is still what recovery yields and the first k copies are right |
| LogSpec.InstallTrace | log.c:70-82 | after any k installs the recoverable state is unchanged and the first k blocks are home |
| LogSpec.CommitIsAtomic | log.c:176-200 | a commit cut after any of its 2n+2 writes recovers to all old up to write n and all new after it; a finished commit has the new state in place and an empty header |
| LogSpec.RecoveryIsIdempotent | log.c:116-122 | a recovery cut after any write leaves the same recoverable state; a finished one has it in the home blocks |
| LogSpec.ChainKeepsDurable | log.c:116-122 | any number of interrupted recoveries in a row keep the recoverable state |
| LogSpec.CrashAtomicity | log.c:69-122 | a commit cut anywhere, then any number of cut recoveries, then one that completes: home blocks all old or all new, and all new exactly when the first header write reached the disk |
| LogDevice.Log.constructor | log.c:53-66 | initlog's recovery puts the recoverable state into the home blocks, and the recorded disk images are those of a recovery |
| LogDevice.Log.Bwrite | log.c:78-78 | one block of the disk changes and one image is recorded |
| LogDevice.Log.InstallTrans | log.c:70-82 | the disk and every intermediate image are those of the specification; exactly the listed buffers are unpinned |
| LogDevice.Log.ReadHead | log.c:86-96 | the in-memory list is the one on disk |
| LogDevice.Log.WriteHead | log.c:102-113 | the header block carries the in-memory list; one image is recorded |
| LogDevice.Log.WriteLog | log.c:176-188 | the log blocks hold the listed buffers, one image per write; panics in its first bread exactly when something is listed and every buffer is busy, and then nothing was written |
| LogDevice.Log.CommitRest | log.c:195-198 | the images after write_log: header, home blocks in order, cleared header; every buffer is unpinned |
| LogDevice.Log.CommitList | log.c:191-200 | the images recorded are the commit's, in order: log blocks, header, home blocks, cleared header; or all buffers were busy and nothing changed |
| LogDevice.Log.Commit | log.c:191-200 | the home blocks end up with what the kernel saw through its buffers; with nothing logged nothing is written; the bget panic exactly when something is listed and every buffer is busy, with the disk unchanged |
| LogDevice.Log.RecoverFromLog | log.c:116-122 | the home blocks end up with the recoverable state and the recorded images are a recovery's |
| LogDevice.Log.TryBeginOp | log.c:126-141 | an operation is admitted exactly when no commit runs and the reservation for one more fits |
| LogDevice.Log.EndOp | log.c:146-172 | what the kernel sees is unchanged; the last operation commits it; the panics are exactly a commit in progress, and a commit that finds every buffer busy |
| LogDevice.Log.LogWrite | log.c:212-231 | panics in the order of the code's checks; otherwise the list gains the block once, the kernel's view changes in that block alone, and no further buffer is needed |
| LogDevice.CommitCrashPoints | log.c:176-200 | every image Commit recorded recovers to the old state before the header write and to the new one from it on |
| LogDevice.RecoveryCrashPoints | log.c:116-122 | every image a recovery recorded has the same recoverable state |
| GroupCommit.CommittingIsQuiet | log.c:146-172 | while committing is set no operation is open and outstanding is 0 |
| GroupCommit.ControlNext | log.c:126-172 | every event of any process, a read, a crash and a kill of a sleeper included, keeps the counters, the single committer, a list without duplicates, and a reason to sleep for every sleeper |
| GroupCommit.ReservedNext | log.c:126-141 | every event that keeps each operation within MAXOPBLOCKS keeps the reservation |
| GroupCommit.BufferedNext | bio.c:62-93 | every event keeps pinned and referenced blocks within NBUF buffers, every listed block pinned until it is installed, and the list within NBUF entries |
| GroupCommit.CopyLeavesABuffer | log.c:180-188 | a commit that writes a copy has listed fewer than NBUF blocks |
| GroupCommit.DiskWriteHead | log.c:191-200 | the header write is the event that makes every gathered update recoverable at once |
| GroupCommit.DiskNext | log.c:69-122 | every event keeps the recoverable state equal to the initial one with the committed updates applied, if a copy is written only of a list that fits the log area |
| GroupCommit.OpsNext | log.c:126-172 | every event keeps committed, pending and lost updates in different operations |
| GroupCommit.RunInvariant | log.c:126-231 | counters, single committer, sleepers, buffers and whole operations hold in every state of every run, on a log of any size, with operations of any length and any number of processes, readers and crashes |
| GroupCommit.RunReserved | log.c:126-141 | the reservation holds in every state of every run as long as each operation keeps to MAXOPBLOCKS |
| GroupCommit.RunDisk | log.c:69-122 | the disk, the header and every stage of a commit or recovery are consistent in every state of every run, on a log of LOGSIZE blocks or more, and on a smaller one until a copy of an overfull list is written |
| GroupCommit.ListFitsHeader | log.c:36-39 | in every run, with operations of any length and a log of any size, the list has at most LOGSIZE entries |
| GroupCommit.SafeSizeFits | log.c:176-188 | on a log of LOGSIZE blocks or more a copy is written only if the whole list fits |
| GroupCommit.DurableStateIsWholeOperations | log.c:124-172 | in every state of every run on a log of LOGSIZE blocks or more (and on a smaller one until a copy of an overfull list is written), what recovery yields is the updates of whole operations: none of a running operation, none of one with pending or lost updates |
| GroupCommit.HistoriesAreEvents | log.c:204-231 | in every run the committed, pending and lost updates are exactly those of the log_write events: each has the block and the data of the last log_write its process called, in the operation its process began, committed when the header is written and lost when the power fails first |
| GroupCommit.ReadersSeeTheLatest | bio.c:97-106 | in every running state of every run on a safe log, at any stage of a commit, reading a block outside the log gives the initial state with all committed and pending updates applied in order |
| GroupCommit.FinishedIsDurable | log.c:157-170 | when the commit of the last end_op ends, nothing is pending, the log is empty and the home blocks hold every committed update |
| GroupCommit.RecoveryRestores | log.c:116-122 | when a recovery inside a run completes, the home blocks hold exactly that state |
| GroupCommit.NoWriteDuringCommit | log.c:212-231 | no log_write and no end_op can happen during a commit, and the list has no duplicates |
| GroupCommit.EndNeverPanics | log.c:146-155 | end_op never finds a commit in progress |
| GroupCommit.ReservationHolds | log.c:126-141 | if no operation has logged more than MAXOPBLOCKS blocks, used slots plus unused reservations never exceed LOGSIZE, also right after an append |
| GroupCommit.WritePanicsExactlyWhenFull | log.c:212-219 | on a log of any size log_write panics if and only if LOGSIZE blocks are listed or the list fills the log area; in the first case every open operation within budget has used it up |
| GroupCommit.ReadPanicsExactly | bio.c:62-93 | in every run a read panics if and only if its block is neither pinned nor referenced and NBUF other blocks are |
| GroupCommit.SleepersHaveAWaker | log.c:126-172 | in every state of every run a process asleep in begin_op would not be let in: a commit is in progress or one more reservation does not fit; and there is a committing process or an open operation to wake it |
| GroupCommit.RefusedNext | log.c:126-172 | every event keeps it that nobody sleeps in begin_op while begin_op would let it in |
| GroupCommit.EndsWakeEverybody | log.c:146-172 | in every run, after an end_op that starts no commit and after every commit nobody is asleep; end_op starts a commit exactly when it is the last one open |
| GroupCommit.KillWakes | proc.c:686-704 | a killed sleeper wakes, and no other process changes |
| GroupCommit.AdmittedExactly | log.c:126-141 | in every state of every run begin_op lets a process in exactly when no commit runs and the listed blocks with ten for each open operation and ten more fit LOGSIZE; otherwise, and only then, it sleeps |
| GroupCommit.CommitGoesOn | log.c:176-200 | a recovery and a commit always have a next step; a commit panics in bread exactly when all buffers are busy, and if nobody else reads exactly at its start and exactly when NBUF blocks are listed |
| LogOverrun.RaceToOverrun | log.c:212-231 | with one slot left and two buffers two operations both pass the size check and both append |
| LogOverrun.Overrun | log.c:212-231 | from the boot of any disk with 2 to NBUF log blocks, three operations within budget can list as many blocks as the area has with its header |
| LogOverrun.Damage | log.c:176-188 | on a log of 2 to LOGSIZE - 1 blocks some run within budget writes a copy on the block after the log before anything is committed, and recovery no longer restores the committed state |
| LogOverrun.LogAreaDecides | log.c:126-231 | with three processes or more and enough file blocks, what is recoverable is right on every run if and only if the log is only a header or has LOGSIZE blocks with it; the same holds for runs within budget alone |
| LogOverrun.MkfsImageIsSafe | mkfs.c:25-25 | on the 1000-block image mkfs makes it is right on every run, with any number of processes and operations of any length |
| LogOverrun.FullCommitPanics | log.c:180-181 | on a log of LOGSIZE blocks or more some run within budget lists NBUF blocks and ends in the bget panic of the commit's first bread |
| LogOverrun.AbsorbedWritePanics | log.c:216-217 | on every log of two blocks or more, some run within budget ends in the panic of a log_write whose block was already listed |
| BufferCache.Unlink | bio.c:132-133 | taking a buffer off leaves the links one circle through all the others in the same order |
| BufferCache.LinkFront | bio.c:134-137 | putting a buffer behind the head leaves the links one circle with it first |
| BufferCache.LastUsed | bio.c:128-138 | moving a buffer to the front when its last reference goes keeps the list in the order in which buffers went out of use |
| BufferCache.ViewOfRecycle | bio.c:81-91 | recycling a clean, unlocked buffer does not show in the block map |
| BufferCache.ViewOfFill | memide.c:57-59 | reading a block in does not show in the block map |
| BufferCache.ViewOfWrite | memide.c:54-56 | writing a buffer out does not show in the block map |
| BufferCache.ViewOfRawWrite | memide.c:54-56 | writing out a buffer that was never read in changes its block of the map and no other |
| BufferCache.ViewOfStore | bio.c:108-116 | storing into a held buffer changes that block of the map alone |
| BufferCache.OutOfBuffersExactly | bio.c:66-92 | bget can do nothing for a block exactly when it is not busy itself and as many blocks are busy as there are buffers |
| BufferCache.BreadContract | bio.c:97-106 | while no buffer holds an unlogged change, a read gives the pinned buffer of a block that has one and the disk otherwise: what log.c relies on |
| BufferCache.Cache.constructor | bio.c:39-56 | the cache starts as the disk, with all buffers on one list |
| BufferCache.Cache.Binit | bio.c:39-56 | the list holds every buffer once, last pushed first |
| BufferCache.Cache.GetRef | bio.c:62-93 | a hit has the device and block asked for; a miss proves no buffer has them and recycles, among the unreferenced clean buffers, the one whose last reference was dropped longest ago, never a dirty one; the panic is exactly that none exists, which is that other blocks keep NBUF buffers busy; the block map is unchanged; any device |
| BufferCache.Cache.FindCached | bio.c:69-76 | finds the block's buffer or proves there is none |
| BufferCache.Cache.FindVictim | bio.c:81-91 | finds an eligible buffer that went out of use no later than any other eligible one, the last in the list, or proves there is none |
| BufferCache.Cache.LockBuf | bio.c:73-73 | taking the sleep lock keeps refcnt equal to waiters, holder and leavers |
| BufferCache.Cache.Iderw | memide.c:39-60 | each panic exactly in its case; a dirty buffer goes to its block, an invalid one is read; the map changes in no block but that of a dirty buffer that was never read in |
| BufferCache.Cache.WriteOut | memide.c:54-56 | the write branch: the block on disk is the buffer and no other block of the map changes |
| BufferCache.Cache.ReadIn | bio.c:97-106 | the buffer holds the block map's contents, or the result is the panic iderw runs into; nothing else changes |
| BufferCache.Cache.Store | log.c:206-210 | the holder's change is one block of the map |
| BufferCache.Cache.Pin | log.c:229-229 | pinning keeps the map and makes the buffer ineligible for recycling |
| BufferCache.Cache.Bwrite | bio.c:110-116 | the buffer's block is on the disk and the buffer clean and valid, whether or not it was read in before; the panics are iderw's, each exactly in its case |
| BufferCache.Cache.Unlock | bio.c:121-126 | given that a changed buffer was logged or written, an unlocked clean buffer equals the disk |
| BufferCache.Cache.Drop | bio.c:128-141 | the last reference moves the buffer to the front of the same list and makes it the latest to go out of use, so the list stays in order of last use; the map is unchanged |
| BufferCache.Cache.MoveToFront | bio.c:132-137 | the list stays one circle of all buffers, with this one first |
| Volume.OneSlotPerBlock | fs.c:354-382 | no block is reachable from two slots of one inode or of two |
| Volume.ContentsAt | fs.c:345-350 | the file's bytes are where the block map says, across the direct and indirect boundary |
| Volume.PutSlotAt | fs.c:360-379 | putting a fresh block into an empty slot changes that slot alone, of all slots of all inodes |
| Volume.PutSlotOwned | fs.c:360-379 | it keeps every block owned by one slot and the bitmap exact |
| Volume.PutSlotKeeps | fs.c:360-379 | it changes no block of any file |
| Volume.WriteBlock | fs.c:485-488 | storing into a data block changes that block of that file and nothing else of any file |
| Volume.HoldsSpliced | fs.c:484-490 | a block-sized piece of a write splices the file's bytes |
| FreeSpace.FreeCountFull | fs.c:63-77 | no block is free exactly when every bit is set |
| FreeSpace.FreeCountSet | fs.c:65-68 | marking a free block takes one from the count of free blocks |
| FreeSpace.NeedMore | fs.c:484-490 | the blocks a range lacks are those its first part lacks and those the rest lacks once the first part is there, the indirect block counted once |
| FreeSpace.NeedNone | fs.c:354-382 | a file lacks no block where it has no hole |
| Files.FileSystem.Balloc | fs.c:57-78 | the first free block, marked and zeroed, with the blocks logged; the panic is exactly a full disk |
| Files.FileSystem.AllocSlot | fs.c:360-376 | a fresh block goes into the empty slot and one block fewer is free; ownership holds and no file changes; fails exactly when no block is free; the zeroed block, its bitmap block and a changed indirect block are logged |
| Files.FileSystem.EnsureSlot | fs.c:360-376 | the slot names a block afterwards, the same one if it had one; no other slot of the file changes; fails exactly when the slot is empty and no block is free |
| Files.FileSystem.BmapEntry | fs.c:365-379 | a block past the direct ones: fails exactly when fewer blocks are free than the entry and the indirect block lack |
| Files.FileSystem.Bmap | fs.c:355-382 | the file's bn-th block is mapped to the result, all files keep their blocks, ownership holds, the blocks it lacked come from the free ones; panics exactly past the last block or when fewer are free than it lacks; every block and every bitmap block that changed is logged |
| Files.FileSystem.ReadNext | fs.c:449-461 | one round reads the next bytes of the file and changes nothing |
| Files.FileSystem.Readi | fs.c:433-463 | the slice of the contents clipped at the size, the refusals exactly as the 32-bit checks say, nothing changed |
| Files.LogsAlloc | fs.c:360-376 | giving a fresh block to a slot changes the block, its bit and at most the indirect block |
| Files.FileSystem.WritePiece | fs.c:484-490 | one round splices the piece in and leaves every other file alone; fails exactly when the block cannot be paid for; every block and every bitmap block that changed is logged |
| Files.FileSystem.WriteLoop | fs.c:484-490 | the whole loop is one splice; it fails exactly when fewer blocks are free than the range lacks; every block and every bitmap block that changed is logged |
| Files.FileSystem.FinishWrite | fs.c:492-495 | the new size makes the spliced bytes the contents and goes to the disk inode; if the disk inode changed, its block is logged |
| Files.FileSystem.Writei | fs.c:468-497 | a splice that grows the size to max(size, off+n); other inodes and their contents unchanged; refusals exactly as checked; balloc's panic exactly when fewer blocks are free than the file lacks for the range; what it logs holds every data block of the range and is bounded, and the free blocks drop by exactly what it lacked; every block on disk that it changed is logged: data, indirect, zeroed, bitmap and inode blocks |
| Files.FileSystem.Bfree | fs.c:82-96 | clears that bit alone; the panic is exactly a block already free |
| Files.FileSystem.FreeDirect | fs.c:396-401 | frees exactly the direct blocks and never panics; the bitmap block of every bit it cleared is logged |
| Files.FileSystem.FreeEntries | fs.c:403-409 | frees exactly the blocks listed in the indirect block and never panics; the bitmap block of every bit it cleared is logged |
| Files.FileSystem.FreeIndirect | fs.c:403-413 | frees the indirect block and everything it lists, or nothing if there is none |
| Files.FileSystem.Itrunc | fs.c:390-417 | never panics; the file is empty; the bits cleared are exactly those of its direct, indirect and listed blocks; every other file is unchanged; every bitmap block and inode block on disk that it changed is logged |
| Files.WriteDone | fs.c:492-495 | after resizing, the contents are the splice and no other file's contents changed |
| Files.PieceWritten | fs.c:484-490 | copying into the mapped block keeps ownership, all slots and every other file |
| Files.PaidMore | fs.c:484-490 | writing a range and then the next costs exactly what the whole range lacked |
| Files.PaidShort | fs.c:77-77 | if a part of a write cannot be paid for, neither can the whole |
| Files.ListsAtLeast | fs.c:484-490 | the blocks a write logs are at least as many as the data blocks it covers |
| Files.TruncDone | fs.c:390-417 | with exactly the inode's blocks freed, ownership and the absence of holes hold again |
| FileWrite.ChunkFitsLog | file.c:127-145 | a chunk logs at most 14 data blocks and the indirect block besides the bitmap and inode blocks; with one bitmap block 17 distinct blocks, which fit the log |
| FileWrite.File.WriteChunk | file.c:140-145 | one transaction splices the chunk at the offset, moves the offset by it and logs at most 16 blocks and the bitmap blocks; refusals and balloc's panic exactly as writei; every block on disk that the transaction changed is in its list |
| FileWrite.File.WriteNextChunk | file.c:135-151 | another chunk extends the splice so far; every other file is as before the write; the transaction logs at most 16 blocks and the bitmap blocks |
| FileWrite.File.Filewrite | file.c:118-154 | all of the data spliced at the old offset when it returns n; otherwise exactly the whole chunks below the size limit; balloc's panic exactly when fewer blocks are free than those bytes lack; no other file changes and every transaction logs at most 16 blocks and the bitmap blocks; every block on disk that it changed was logged by one of its transactions |
| FileWrite.ShortOfBlocks | file.c:135-151 | a chunk that cannot be paid for decides that the whole write cannot |
| FileWrite.MoreLogged | file.c:135-151 | if each transaction lists what it changed, the transactions together list all that changed |
| Directory.Strncmp | string.c:59-66 | zero exactly when the strings agree up to a NUL or n characters |
| Directory.Strncpy | string.c:69-79 | n bytes whose name is the cut name, padded with zeros |
| Directory.MapAt | fs.c:519-531 | a name is bound exactly when a live entry carries it, and to that entry's inode |
| Directory.MapOfAdd | fs.c:551-560 | filling a free or new slot adds exactly one binding, or none for inode number 0; names stay unique |
| Directory.MapOfClear | sysfile.c:217-219 | clearing a live entry removes exactly its binding |
| Directory.EntriesSpliced | fs.c:560-560 | writing 16 bytes at an entry changes that entry or appends one |
| Directory.Dirlookup | fs.c:511-534 | agrees with the map, found and not found, with the entry's offset; nothing changes |
| Directory.FindFree | fs.c:551-556 | the first free entry, or the end |
| Directory.WriteEntry | fs.c:558-561 | the directory's entries change in that slot alone; it cannot fail inside the directory, and past its end fails exactly when the file is full or too few blocks are free; every block on disk that it changed is logged |
| Directory.Dirlink | fs.c:538-564 | refuses exactly a bound name and changes nothing, or adds exactly the binding of the cut name to the number modulo 65536; no other file changes; panics exactly for a non-directory, or when every entry is live and the directory cannot grow; every block on disk that it changed is logged |
| Directory.ClearEntry | sysfile.c:217-219 | exactly that binding goes, no other file changes, and the panic cannot happen |
| Mkfs.Builder.constructor | mkfs.c:68-130 | an all-zero image in which no inode is in use and no block is owned |
| Mkfs.Builder.Ialloc | mkfs.c:224-235 | the next inode number, empty and of the given type, or none exactly when all are taken |
| Mkfs.Builder.Claim | mkfs.c:271-286 | the slot names a block, the next unused one if it was empty; no other slot changes; fails exactly when the slot is empty and no block is left |
| Mkfs.Builder.ClaimBlock | mkfs.c:271-286 | the file block is mapped and no other file block of the inode changes; fails exactly when fewer blocks are left than it lacks |
| Mkfs.Builder.AppendLoop | mkfs.c:268-294 | the bytes are at the end of the file and no block lies past them; fails exactly when fewer blocks are left than they lack |
| Mkfs.Builder.Iappend | mkfs.c:256-297 | the contents grow by exactly the bytes given; other files are unchanged; fails exactly when the file would be too large or fewer blocks are left than it lacks |
| Mkfs.Builder.Finish | mkfs.c:158-165 | the image owns every block by one slot with an exact bitmap unless the root directory was of maximal size, and has no holes if and only if the root size was not a multiple of the block size |
| Mkfs.Balloc | mkfs.c:238-251 | a bitmap with exactly the first bits set |
| Mkfs.RoundedRoot | mkfs.c:158-163 | rounding the root size keeps ownership and opens a hole exactly on a block boundary |
| Mkfs.RoundingLeavesAHole | mkfs.c:158-163 | it happens: ialloc, iappend of 512 bytes and the rounding, on the layout mkfs uses, give an image with a hole |
| BinarySemaphore.TokenDown | uthread.c:401-417 | bsem_down takes the one token or joins the queue |
| BinarySemaphore.TokenUp | uthread.c:419-439 | a holder's bsem_up never takes the early return: with waiters it wakes the oldest one, leaves the rest in order and hands it the token; without, it raises the semaphore |
| BinarySemaphore.Bsem.constructor | uthread.c:368-384 | the semaphore starts with the token and no waiters |
| BinarySemaphore.Bsem.Down | uthread.c:401-417 | the ring of 64 holds the queue in order; the caller joins its end and sleeps exactly when the token is gone, and otherwise takes the token and leaves the queue as it is |
| BinarySemaphore.Bsem.Enqueue | uthread.c:410-414 | the caller joins the end of the queue in the ring |
| BinarySemaphore.Bsem.RoomForOneMore | uthread.c:410-414 | the ring never overflows |
| BinarySemaphore.Bsem.Up | uthread.c:419-439 | with waiters the first of the queue, and only it, becomes runnable and leaves the queue, whose rest stays in order; without waiters the token is put back, or was there already |
| BinarySemaphore.OrderUp | uthread.c:419-439 | as the threads see it, bsem_up wakes at most one thread, and that is the first of the queue |
| BinarySemaphore.OrderOfService | uthread.c:401-439 | if every step of a run changes the queue at its ends only, then over any stretch those asleep at its start and then those who fell asleep, in order, are those woken and then those still asleep |
| CountingSemaphore.InitInv | uthread.c:442-455 | csem_alloc establishes the invariant for every start value |
| CountingSemaphore.InvNext | uthread.c:464-482 | every atomic step of every thread keeps it |
| CountingSemaphore.RunInvariant | uthread.c:464-482 | it holds in every state of every run of any number of threads |
| CountingSemaphore.CountIsExact | uthread.c:464-482 | val is the start plus ups minus downs, never below zero from a non-negative start, and bsem_up's early return is never taken |
| CountingSemaphore.OneTokenIffPositive | uthread.c:464-482 | exactly one gate token exists, in s2 or with one thread, if and only if val is positive |
| CountingSemaphore.OneInside | uthread.c:464-482 | at most one thread is between bsem_down(s1) and bsem_up(s1) |
| CountingSemaphore.SleepersAreServed | uthread.c:464-482 | a waiter on s2 with val positive, or on s1, implies a thread that is mid-operation and able to run |
| CountingSemaphore.RefinesAtomicCounter | uthread.c:464-482 | each step is an atomic P on a positive count, an atomic V, or nothing |
| CountingSemaphore.ServedInOrder | uthread.c:401-482 | in every run and over any stretch of it, threads leave the queues of s1 and of s2 in exactly the order in which they joined, judged by where the threads stand |
| CountingSemaphore.EveryCallCounts | uthread.c:464-482 | in every run each call of down performs exactly one decrement and each call of up exactly one increment: calls so far are effects so far and calls that have not got there yet |
| BoundedBuffer.InvNext | sanity.c:14-47 | every step of every producer and consumer keeps the invariant over both semaphores, the mutex and the ring |
| BoundedBuffer.RunInvariant | sanity.c:14-47 | it holds in every state of every run |
| BoundedBuffer.Room | sanity.c:18-35 | a thread about to store has a free slot and one about to load has an item |
| BoundedBuffer.FirstInFirstOut | sanity.c:14-47 | what was consumed is a prefix of what was produced, and at most 100 items are in flight |
| BoundedBuffer.NoOverwrite | sanity.c:18-22 | no store hits an unread slot |
| BoundedBuffer.LoadsTheOldest | sanity.c:31-35 | every load finds the oldest unread item |
| BoundedBuffer.EveryItemOnce | sanity.c:14-23 | in every run each item handed to a producer goes into the buffer exactly once, in the order handed over; at most the last one is still on its way |
| BoundedBuffer.ServedInOrder | sanity.c:14-47 | in every run threads get the mutex in exactly the order in which they went to sleep on it |
| SleepLock.InvNext | sleeplock.c:22-42 | every access to shared state by any process, in acquiresleep, releasesleep, sleep, wakeup or kill, keeps the invariant |
| SleepLock.RunInvariant | proc.c:625-703 | it holds in every state of every run of any number of processes |
| SleepLock.OneHolder | sleeplock.c:22-42 | at most one process holds the lock, locked is set and lk->pid names it |
| SleepLock.NoLostWakeup | proc.c:625-680 | a sleeper on the lock implies a holder, or a process that has cleared locked and whose wakeup has not passed the sleeper |
| SleepLock.WakeupWakesAll | proc.c:663-680 | when the wakeup loop ends nobody sleeps on the lock or is about to |
| SleepLock.NoDeadlock | sleeplock.c:22-42 | if some process is inside an operation, some process can go on, unless the lock is held and that process is asleep waiting for it |
| SleepLock.PidNamesTheHolder | sleeplock.c:22-42 | in every run lk->pid is 0 unless its process is between noting itself in acquiresleep and clearing the note in releasesleep |
| SleepLock.KillWakes | proc.c:686-704 | the step of kill leaves its target awake and every other process as it was |
| SleepLock.KillAlone | proc.c:686-704 | kill undisturbed returns with its target awake and nothing else changed |
| SleepLock.AcquireAlone | sleeplock.c:22-31 | acquiresleep undisturbed on a free lock returns with the lock held and its holder noted |
| SleepLock.AcquireHeld | sleeplock.c:22-31 | acquiresleep undisturbed on a held lock ends asleep, with both spinlocks free, and goes no further |
| SleepLock.ReleaseAlone | sleeplock.c:34-42 | releasesleep undisturbed returns with the lock free, no holder noted and nobody asleep on it |
| Pipe.OkNext | pipe.c:79-121 | every stretch under the lock keeps 0 to 512 unread bytes, appends to what was stored and to what was read, and keeps a sleeping writer's pipe full with its read end open |
| Pipe.ReadersExactly | pipe.c:79-98 | the same promise for readers survives a step exactly when the step is not a write longer than 512 bytes that takes the error exit with readers asleep |
| Pipe.ReadersLeftAsleep | pipe.c:85-89 | such a step exists: a reader stays asleep on a full pipe |
| Pipe.RunOk | pipe.c:59-121 | the invariants hold in every state of every run, the readers' one as long as no such step was taken |
| Pipe.FirstInFirstOut | pipe.c:59-121 | over every run, what piperead returned in any first steps is a prefix of what the pipewrite calls handed over, read from the calls themselves, and at most 512 bytes are in between |
| Pipe.HistoriesAreEvents | pipe.c:79-121 | the bytes stored are the accepted parts of the buffers given to pipewrite, one after the other, and the bytes read are those piperead returned |
| Pipe.WholeWrite | pipe.c:79-98 | however often it sleeps and whoever runs in between, a pipewrite call puts in its buffer in order: all of it when it returns n, a proper prefix when it returns -1 |
| Pipe.StepMovesBytes | pipe.c:79-121 | a stretch of pipewrite takes as much of the rest of its buffer as there is room for; a stretch of piperead returns n bytes, or all there are |
| Pipe.KillWakes | proc.c:686-704 | kill wakes its target, nobody else, and touches no byte |
| PipeBuffer.WrappedTests | pipe.c:85-85 | the full and empty tests on wrapped counters are exact while at most 512 bytes are unread |
| PipeBuffer.Ring.constructor | pipe.c:23-37 | an empty pipe, both ends open |
| PipeBuffer.Ring.StoreByte | pipe.c:93-93 | the byte is stored and no unread byte is hit |
| PipeBuffer.Ring.Pipewrite | pipe.c:79-98 | stores exactly the bytes addr[first..i] behind what was stored; it is done exactly when i is the end of the buffer, and otherwise the pipe is full and it fails or sleeps as the read end and killed say; the whole state is that of the write step |
| PipeBuffer.Ring.CopyOut | pipe.c:113-117 | delivers the oldest unread bytes, as many as asked for or present |
| PipeBuffer.Ring.Piperead | pipe.c:101-121 | returns the oldest unread bytes, n of them or all there are, exactly when there are any or the write end is closed; the whole state is that of the read step |
| PipeBuffer.Ring.Pipeclose | pipe.c:60-75 | closes that end and no other, wakes the sleepers of the other end, and frees the page exactly when both are closed |
| PageTable.FramesJump | vm.c:270-274 | skipping such an entry gives the same list of freed pages as a scan page by page |
| PageTable.AllBack | vm.c:241-252 | freeing the range returns every page taken from the free list but the new tables and the page in hand, and no other page if nothing was mapped there before |
| PageTable.NeedStep | vm.c:239-253 | mapping one page costs one physical page and one more if its table was missing |
| PageTable.FirstMappedIs | vm.c:80-81 | the first mapped page of a range: all before it are unmapped |
| PageTable.SetPteLookup | vm.c:80-83 | setting one entry changes what one page is mapped to, with the permissions the processor grants by both levels: those of the entry |
| PageTable.NewTableLookup | vm.c:53-61 | a new table maps nothing and its directory entry restricts nothing |
| PageTable.ProgressNext | vm.c:239-253 | after one more page the range mapped so far is fresh, every page taken is accounted for, and what is left to take is what the rest needs |
| Vm.AddressSpace.Kalloc | kalloc.c:83-95 | pops the head of the list; null exactly when it is empty |
| Vm.AddressSpace.Kfree | kalloc.c:60-78 | pushes the page, filled with ones; panics exactly outside the memory the allocator manages |
| Vm.AddressSpace.Walkpgdir | vm.c:45-64 | the table of a page, allocated and cleared if allowed and possible; no mapping changes |
| Vm.AddressSpace.MapOne | vm.c:77-82 | one page: remap exactly when it was mapped, no memory exactly when its table is missing and no page is free, mapped otherwise |
| Vm.AddressSpace.Mappages | vm.c:70-89 | maps consecutive pages until a table cannot be had or a page is mapped already; exactly the pages done are mapped and nothing else changes; each ending exactly in its case |
| Vm.AddressSpace.FreePage | vm.c:275-282 | unmaps one page and frees what it was mapped to |
| Vm.AddressSpace.Deallocuvm | vm.c:262-285 | unmaps exactly the range, and the free list is what a page-by-page scan would leave, in order |
| Vm.AddressSpace.Allocuvm | vm.c:228-255 | panics exactly when a page of the range is mapped already and the free list lasts up to it; otherwise succeeds exactly when the free list covers pages and tables, and then the range is fresh zeroed writable pages and the rest is mapped as before; out of memory, the range is unmapped and no free page is lost but to new tables, and if nothing was mapped there every mapping and the free pages are as before |
| Umalloc.UnlinkNode | umalloc.c:76-77 | taking a block off leaves the links one circle |
| Umalloc.LinkNode | umalloc.c:36-42 | putting a block on leaves the links one circle |
| Umalloc.SplitTiles | umalloc.c:79-82 | cutting a block's tail off keeps every supplied unit in exactly one block |
| Umalloc.Neighbours | umalloc.c:30-33 | a block being freed lies between the free blocks around its place |
| Umalloc.AbsorbAbove | umalloc.c:33-35 | merging the block above keeps list order, gaps and the partition |
| Umalloc.ReturnBlock | umalloc.c:36-42 | so does putting a block that touches neither on the list |
| Umalloc.TakeTail | umalloc.c:79-82 | so does handing out a tail, which is a new block |
| Umalloc.AddCore | umalloc.c:52-59 | so does adding what sbrk returned |
| Umalloc.BlocksApart | umalloc.c:24-90 | no two blocks, free or in use, share a unit |
| Umalloc.UnitsConserved | umalloc.c:24-90 | the sizes of all blocks add up to the units sbrk supplied |
| Umalloc.StopsOnlyAtPlace | umalloc.c:30-32 | the tests that end free's search hold at the last node below the block and at no other |
| Umalloc.RoomForRequest | umalloc.c:69-69 | the units computed cover the request, without a unit to spare, exactly when the 32-bit sum does not wrap |
| Umalloc.SbrkAsksEnough | umalloc.c:52-55 | the byte count passed to sbrk is the one needed exactly when the units are below 2^28; from there on it is zero or negative |
| Allocator.Heap.constructor | umalloc.c:21-22 | no block and nothing supplied |
| Allocator.Heap.Conserved | umalloc.c:24-90 | the blocks in use and on the free list add up to the units sbrk has supplied |
| Allocator.Heap.FindPlace | umalloc.c:30-32 | within one lap the search stops at the last node below the block, whose successor is above it or is base |
| Allocator.Heap.MergeAbove | umalloc.c:33-37 | the block is ready to be linked, merged with the one above if they touch |
| Allocator.Heap.MergeBelow | umalloc.c:38-43 | the circle is closed, sorted, with no two free blocks touching |
| Allocator.Heap.Free | umalloc.c:25-44 | the block leaves the blocks in use, the others keep their sizes, every unit stays in exactly one block |
| Allocator.Heap.Take | umalloc.c:75-85 | hands out exactly n units that were free |
| Allocator.Heap.Morecore | umalloc.c:47-61 | at least 4096 new units are free, and freep or its successor is big enough; null exactly when sbrk fails |
| Allocator.Heap.Search | umalloc.c:74-89 | at most one call of morecore; the scan looks at no more nodes after it than the list has, plus one; null exactly when nothing fits and sbrk fails |
| Allocator.Heap.Malloc | umalloc.c:64-90 | null exactly when nothing fits and sbrk fails; otherwise a new block of exactly the units computed, with room for the request exactly unless it is one of the seven largest; sbrk is used exactly when nothing fits |
| Shell.WordToken | sh.c:266-308 | a word and a blank are read as that word |
| Shell.WordEnds | sh.c:295-306 | a word ends exactly at the next blank or symbol, or at the end of the text |
| Shell.SymbolAlone | sh.c:276-287 | a symbol is one token whatever follows it, unless it is > before another > |
| Shell.TwoMakeAppend | sh.c:288-294 | >> is one token whatever follows it |
| Shell.AppendIsOutput | sh.c:384-394 | >> gives the same redirection as > |
| Shell.MissingFile | sh.c:381-383 | a redirection without a word after it panics |
| Shell.TenWordsPanic | sh.c:436-440 | a command of ten words or more panics, whatever follows |
| Shell.UnmatchedClose | sh.c:328-340 | a valid line followed by a closing parenthesis panics |
| Shell.MissingClose | sh.c:407-410 | an opening parenthesis without a closing one panics |
| Shell.RedirsTrip | sh.c:375-397 | printed redirections parse back in order |
| Shell.ArgsTrip | sh.c:416-446 | printed words and redirections parse back, up to nine words |
| Shell.ExecTrip | sh.c:400-446 | a printed command, plain or in parentheses, parses back, whatever follows |
| Shell.PipeTrip | sh.c:362-372 | so does a printed pipeline |
| Shell.BackTrip | sh.c:345-353 | so does a pipeline with any number of & |
| Shell.LineTrip | sh.c:345-359 | so does a printed line |
| Shell.RoundTrip | sh.c:328-359 | printing any valid tree and parsing the text gives the tree |
| Shell.LineValid | sh.c:345-446 | every tree the parser builds is valid: proper words, at most nine to a command |
| Shell.ParsePrintParse | sh.c:328-446 | parsing, printing and parsing again gives the same tree |
| Shell.ParseLine | sh.c:345-359 | the parser terminates on every input and never gives back more text than it got |
| ShellGrammar.SpellingIsRead | sh.c:266-308 | every spacing of a token sequence, with any blanks or none where tokens can touch, is read as that sequence |
| ShellGrammar.TextIsSpelling | sh.c:266-308 | every text is such a spacing of the tokens found in it |
| ShellGrammar.TokenIsFront | sh.c:266-308 | gettoken takes blanks, one token as long as it can be, and blanks |
| ShellGrammar.PeekIs | sh.c:311-320 | peek sees the first character of the next token |
| ShellGrammar.LineComplete | sh.c:345-446 | every line of the grammar, before the end or a closing parenthesis, parses to the command it stands for |
| ShellGrammar.LineSound | sh.c:345-446 | whatever parses is a line of the grammar and stands for the command returned |
| ShellGrammar.ParsesExactly | sh.c:328-446 | parsecmd returns a command exactly for the texts whose tokens form a line of the grammar, and it is the command the line stands for; every other text panics |
| ShellGrammar.BlanksOnlySeparate | sh.c:262-308 | two spacings of the same tokens are the same command, or both are refused |
| ShellParser.NextToken | sh.c:266-308 | the scanning loops find the first token: blanks, then a symbol, >> or a word up to the next blank or symbol, and the text after it and its blanks |
| ShellParser.PeekAt | sh.c:311-320 | the next character is looked at with blanks skipped |
| ShellParser.ReadRedirs | sh.c:375-397 | the loop computes the grammar's redirections |
| ShellParser.ReadArgs | sh.c:431-442 | the loop computes the grammar's arguments and redirections, errors included |
| ShellParser.ReadBlock | sh.c:400-413 | the block in parentheses, or the panic |
| ShellParser.ReadExec | sh.c:416-446 | the grammar's command |
| ShellParser.ReadPipe | sh.c:362-372 | the grammar's pipeline |
| ShellParser.ReadBacks | sh.c:350-353 | the loop computes the commands put in the background |
| ShellParser.ReadLine | sh.c:345-359 | the grammar's line |
| ShellParser.ReadCmd | sh.c:328-342 | returns a command exactly when the tokens form a line of the grammar, and then the command it stands for, which is valid |
| Grep.FitsOne | grep.c:93-95 | a literal or dot matches exactly its character and then the rest |
| Grep.FitsStar | grep.c:89-90 | a star matches exactly some run of its character and then the rest |
| Grep.Match | grep.c:73-82 | true exactly when the pattern's language has a prefix of some suffix of the text, or of the text itself after a caret |
| Grep.MatchHere | grep.c:85-96 | true exactly when the pattern's language has a prefix of the text, all of it if the pattern ends in a dollar |
| Grep.MatchStar | grep.c:99-106 | true exactly when some run of the character is followed by a match |

## Left out

- LogDevice.Log.constructor: the header on disk is one this code wrote, or all zero; a corrupt one is not modelled.
- LogDevice.Log.TryBeginOp: one turn of begin_op's loop; sleeping and waking are in GroupCommit.
- LogDevice.Log.EndOp: the wakeups are in GroupCommit.
- GroupCommit.DurableStateIsWholeOperations: on a log of 2 to LOGSIZE - 1 blocks it holds only until a copy of an overfull list is written; LogOverrun.Damage is the run that breaks it.
- GroupCommit.ReadersSeeTheLatest: on a log of 2 to LOGSIZE - 1 blocks only until a copy of an overfull list is written, and so is FinishedIsDurable.
- GroupCommit.RunInvariant: waiting for a buffer's sleep lock is not modelled, a reference is what makes a buffer busy; that no buffer is kept across begin_op and end_op is how the callers of log.c use it.
- Directory.Dirlink: the panics of log_write and bget come on top, as for writei.
- LogDevice.Log.InstallTrans: that its buffers can be had is a precondition, which commit and recovery establish; so it is for WriteHead and ReadHead.
- GroupCommit.ReservationHolds: that each operation appends at most MAXOPBLOCKS blocks is a hypothesis, because nothing in log.c enforces it and a filewrite chunk can append up to 17.
- BufferCache.Cache.LockBuf: waiting for the sleep lock is the step itself; SleepLock proves the lock.
- BufferCache.Cache.Unlock: that a holder logs or writes what it changed is a precondition, as bio.c demands of its callers.
- Files.FileSystem.Writei: log_write's panic on a transaction that outgrows the log, and bget's, are not results here, because they depend on the other operations of the transaction; GroupCommit states them. What is on the disk after a panic is not stated; the kernel has stopped.
- iupdate: the bytes of the disk inode are not modelled, only its fields.
- FileWrite.File.Filewrite: pipes and the writable flag are dispatched by the caller; the panics of log_write and bget come on top, as for writei.
- Mkfs.Builder.Iappend: mkfs does not check that the image has room; the model returns false there, as it returns no inode when the numbers run out.
- Allocator.Heap.Malloc: a request that nothing fits and for which sbrk would be asked for no or negative bytes is excluded, because what sbrk then does to the heap is the kernel's affair; headers of blocks in use are assumed not to be overwritten.
- Vm.AddressSpace.FreePage: clears the entry before pushing the page; vm.c does it in the other order, with nothing in between.
- Vm.AddressSpace.Mappages: user pages only, of frames that are not in use.
- Vm.AddressSpace.Deallocuvm: oldsz up to KERNBASE; above it the pages are the kernel's and no caller passes them.
- Vm.AddressSpace.Kfree: addresses are page numbers, so the alignment check has no counterpart.
- BinarySemaphore.Bsem.constructor: running out of descriptors or memory in bsem_alloc is not modelled.
- PipeBuffer.Ring.constructor: running out of files or memory in pipealloc is not modelled.
- Vm.AddressSpace.Allocuvm: page tables allocated before a failure stay allocated, as in vm.c.
- SleepLock.RunInvariant: a process is its index in the process table, which also stands for its pid; sleeping on other channels is idleness.
- SleepLock.NoDeadlock: fairness of the spinlocks and of the scheduler is not modelled, so nothing is said about how long a process waits.
- Pipe.RunOk: a step is everything a process does while it holds the pipe's lock.
- ShellParser.ReadArgs: sh.c fills argv of a node already wrapped in redirections; the model collects both and wraps at the end.
- copyuvm, setupkvm and freevm: they do not return every page when they fail, so there is no conservation to state.
- Inode cache, file table, link counts, path names and the locks around inodes: counters and lookups next to the properties above.
- Device drivers, boot, traps, the scheduler, signals and uthread_schedule: port I/O, assembly and stack layout.
- runcmd and nulterminate, grep's line buffer, the console and the small user programs: input and output, or easy members.
