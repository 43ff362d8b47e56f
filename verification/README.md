# xv6-riscv, modelled and proved in Dafny

This project models the parts of the xv6 RISC-V kernel and of its user programs whose correctness
spans many calls, and proves what they promise: crash safety of the file system log, ownership of disk
blocks and of memory pages, the sleep/wakeup protocol, scheduling, the virtio driver's rings, the user
allocator, the shell's parser and grep. A `panic` is an outcome of the model: a result that stops the
run. Where a panic can be ruled out the contracts say so; where it cannot, they say exactly when it
happens.

| files | models |
|---|---|
| Words, LogDisk | the on-disk redo log: header format, the writes of a commit and of a recovery, crashes between any two writes |
| Ring, Bcache | the buffer cache: a doubly linked LRU ring of 30 buffers over arrays |
| Log | `log.c` on top of that cache, as a class |
| GroupCommit, Reservation, Unlogged | runs of any number of concurrent operations, commits, crashes and recoveries; the space reservation of `begin_op`; what becomes of a change that nobody logs |
| LogRefines | every call on the cache and the log is a run of that system |
| Bitmap, Inodes, Files, WorstChunk | block allocation, inodes with direct and indirect blocks, reading, writing and truncating files; the write that logs most |
| Links | `link`, `unlink`, `create` and `iput` by any number of processes |
| PageTable, TableCount, FreeTree, Vm | Sv39 page tables (section 4.4 of the RISC-V Privileged Architecture, version 20190608), the page allocator, `fork`, `sbrk`, `exec` and exit as they use memory |
| Image | the memory image that the segments of a program make, byte by byte |
| Processes | the memory of all processes together, under any sequence of those calls |
| Monitor, SleepLock, Pipe, PipeCalls, WaitExit | sleep and wakeup around a lock, and three users of it: sleep locks, pipes, `wait` with `exit`; which bytes each call on a pipe is responsible for |
| Sched | the scheduler, `fork`, `exit` and `wait` |
| Virtio | the disk driver and the device over the rings of section 2.6 of VirtIO 1.1 |
| Umalloc | the K&R allocator |
| Shell, ShellSyntax, ShellRoundTrip, ShellParser | the shell's grammar, the lines it accepts and what they mean, its round trip, and the parser that works in the line buffer |
| Grep | the regular expression matcher and the line loop |
| Basics | optional values and counting lemmas |

Code that updates fields in place is a class with `modifies` clauses and a ghost abstraction; code whose
meaning is in how the steps of several processes interleave is a transition system, one step per section
under a lock, with theorems about every point of every run.

## What the proofs say about the code

* The "too big a transaction" panic. `begin_op` reserves against LOGSIZE, but `log_write` also refuses
  at `log.size - 1`, and mkfs makes a log of LOGSIZE blocks, header included. So an operation within its
  quota can panic on that image. `Reservation.QuotaExact` gives the exact condition: it cannot happen if
  and only if `log.size - 1 >= LOGSIZE`. Even then `log_write` tests for a full log before it looks for a
  repeat, so that with every quota spent it panics on a write that would need no space.
* With NBUF equal to LOGSIZE, a commit can run out of buffers. Other processes take and release buffers
  between its rounds; it panics exactly at the first round that finds every buffer pinned or in use, with
  the writes before that round on the disk (`Log.Logger.Commit`). `fileread` begins no operation, so that a
  commit of 29 blocks panics when a reader has the last buffer (`Log.ReaderTakesLast`).
* `brelse` does not look whether a change to the buffer has been logged. If the block is in the group that
  commits next, the change goes to the disk with it: `Unlogged.UnloggedCommitted` is a run after which the
  block is what nobody logged. A commit makes durable exactly what was logged if and only if every listed
  block changed since it was logged holds what it was last logged with (`GroupCommit.CommitExact`). If the
  block is not listed, the change is gone once the buffer is recycled (`Bcache.UnloggedIsLost`).
* The killed return of `pipewrite` skips the wakeup of the reader. `Pipe.KilledReturn`: it loses a wakeup
  if and only if the writer has put bytes since its last wakeup and a reader waits. `Pipe.LostWakeup`
  builds a run in which it does, and `Pipe.PipeSafe` covers every run up to the first such return.
* `create` and `link` do not look whether the directory has been removed in the meantime. A step leaves
  every link count right if and only if it enters no name in a removed directory (`Links.NextExact`).
  `Links.WrongCount` is a run of four steps from a fresh image that ends with a wrong count.
* The comment at `uvmdealloc` says that the old size may exceed the process size. The code then panics
  in `uvmunmap`; the contract of `Vm.Memory.Uvmdealloc` follows the code.
* `growproc` computes in 32 bits: a request whose sum wraps around changes nothing and returns 0.
* A write chunk of `filewrite` can use the whole quota of ten blocks: `WorstChunk.WorstWrite` brings about
  a file system and a write that do. The bound holds because the first, partial block of an unaligned
  write is already there.
* When the bytes to write cannot all be read, `writei` stores those it got in a buffer that it does not
  log (`Files.FileSystem.Writei`); they fare as such a change does.
* Truncating a file logs its inode and every bitmap block that its blocks lie under. That is within an
  operation's quota exactly when those are fewer than ten, and so on every disk of up to 73728 blocks
  (`Inodes.TruncQuota`).
* `malloc` passes its request to `sbrk` as an `int`. The blocks it hands out lie in memory the process has
  if and only if the request, in bytes, and the process size are both below 2^31
  (`Umalloc.Heap.Malloc`). The largest request asks for sixteen bytes (`Umalloc.LargestAsksForSixteen`).
* The memory side of `exec` cannot panic on this machine (`Processes.ProcTable.Exec`). Growing into the trap
  frame takes more physical memory than there are pages below it; `loadseg` finds every page mapped, since
  the memory of the segment has been added before, and its 32-bit counter does not wrap, since memory ends
  below 4 GB.
* `uvmalloc` returns the new size, and `exec` takes a 0 for a failure. So a program whose first segment is
  empty and at address 0 is refused, although nothing is wrong with it (`Image.Loads`). Apart from that
  `exec` fails only for a bad segment or arguments that do not fit, or when fewer pages are free than the
  new address space takes beside the old one (`Processes.ProcTable.Exec`).
* The second error path of `proc_pagetable` is never taken: the trap frame is mapped by the table pages that
  the trampoline already has (`Vm.Memory.ProcPagetable`).
* `grep` stops writing at a line that does not fit its buffer or that has a NUL in it, and never looks
  at a last line without a newline.

## Model

| member | source | states |
|---|---|---|
| `Words.WriteWord` | kernel/log.c:103-114 | a stored 32-bit word reads back and every other word of the block is as before |
| `LogDisk.HeadRoundTrip` | kernel/log.c:86-114 | a header written over any stale header block reads back as the same list |
| `LogDisk.PartialRecovery` | kernel/log.c:67-83 | a recovery cut short anywhere before it clears the header leaves the same list, the same logical contents and the same remaining work, and touches only listed blocks |
| `LogDisk.FullRecovery` | kernel/log.c:116-123 | a completed recovery puts the logical contents into the home blocks, empties the log, and writes only listed blocks and the header |
| `LogDisk.Crashed` | kernel/log.c:67-123 | any series of recoveries, each cut short anywhere, preserves what the disk stands for |
| `LogDisk.DiskDuringIsAfter` | kernel/log.c:177-203 | the closed form of the disk in the middle of a commit is what its first k block writes produce |
| `LogDisk.BeforeCommitPoint` | kernel/log.c:177-203 | until the header is written the disk stands for the old contents |
| `LogDisk.AfterCommitPoint` | kernel/log.c:193-203 | from the header write until the log is cleared it stands for the new contents |
| `LogDisk.CommitAtomic` | kernel/log.c:177-203 | after any number of the commit's writes the disk stands for all old or all new contents, and no block outside the log and the list has changed |
| `LogDisk.CrashAtomicity` | kernel/log.c:67-203 | crash a commit after any write, crash any number of recoveries anywhere, let one finish: home blocks are all old or all new, decided by the header write, and the log is empty |
| `Ring.Unlink` | kernel/bio.c:128-129 | the two pointer writes take exactly one buffer out of the doubly linked ring |
| `Ring.InsertFront` | kernel/bio.c:130-133 | the four pointer writes put a buffer in front and keep both directions consistent |
| `Bcache.Cache.constructor` | kernel/bio.c:36-53 | the loop of `binit` builds a consistent ring of all buffers, and the cache stands for the disk |
| `Bcache.Cache.Bget` | kernel/bio.c:58-89 | the buffer that names the block, else the least recently released unused one, else none; at most one buffer per block; only a change that was neither logged nor written, to the block recycled, is lost |
| `Bcache.Cache.FindUnused` | kernel/bio.c:77-88 | scanning back from the head finds the unused buffer with the oldest release, or shows that none is unused |
| `Bcache.Cache.Bread` | kernel/bio.c:91-103 | a locked buffer holding the latest contents of the block, whatever the disk still has |
| `Bcache.Cache.Modify` | kernel/log.c:205-213 | changing a held buffer changes the latest contents of that block and of no other |
| `Bcache.Cache.Bwrite` | kernel/bio.c:105-112 | the disk gets the buffer's contents in one write; the latest contents stay |
| `Bcache.Cache.Brelse` | kernel/bio.c:114-137 | the last release puts the buffer first in recency order, and no other changes it; contents stay, logged or not |
| `Bcache.UnloggedIsLost` | kernel/bio.c:74-87 | a change neither logged nor written is gone once the buffer is recycled |
| `Bcache.Cache.Bpin` | kernel/bio.c:139-144 | a pin keeps the buffer from being recycled and changes no contents |
| `Bcache.Cache.Bunpin` | kernel/bio.c:146-151 | unpinning changes no contents |
| `Bcache.Cache.CopyBlock` | kernel/log.c:73-82 | a copying round of the log, whatever buffers others use, writes the latest contents of one block to another, leaves the buffers in use alone, loses at most changes that were neither logged nor in use, and says when buffers suffice and when they do not |
| `Bcache.ViewKept` | kernel/bio.c:58-112 | the condition under which changing one buffer and its disk block changes no block's latest contents |
| `Bcache.LeastRecent` | kernel/bio.c:75-87 | the ring order is the order of last release, so the backward scan is least-recently-used |
| `Log.FillHead` | kernel/log.c:102-114 | the loop stores exactly the encoded header |
| `Log.WriteHead` | kernel/log.c:102-114 | one disk write of the encoded header, through the cache; no buffer exactly when every one is pinned or in use, and then nothing is written |
| `Log.ReadHead` | kernel/log.c:85-97 | the loop copies the stored list |
| `Log.FindSlot` | kernel/log.c:225-228 | the scan stops at the block's entry or, if it has none, at the end |
| `Log.Interlude` | kernel/bio.c:58-137 | whatever others ask for and release between two rounds of a commit, the listed blocks keep their latest contents and stay pinned, and nothing is written |
| `Log.LogOne` | kernel/log.c:182-190 | one round of `write_log` succeeds if and only if some buffer is neither pinned nor in use, and then writes the listed block's latest contents to its log block |
| `Log.InstallOne` | kernel/log.c:72-82 | one round of `install_trans` succeeds under the same condition, and then writes the log block to its home block and unpins that |
| `Log.WriteLog` | kernel/log.c:177-191 | the loop issues the log writes of the commit in order while other processes take and release buffers between its rounds; it stops exactly at the first round that finds every buffer pinned or in use, with the writes before it done |
| `Log.IdleUnused` | kernel/bio.c:74-88 | when nobody uses a buffer, one is left exactly when fewer blocks are listed than there are buffers |
| `Log.ReaderTakesLast` | kernel/file.c:120-124 | with one block fewer listed, a reader of another block leaves none |
| `Log.InstallTrans` | kernel/log.c:67-83 | the same for the installing writes, and every listed buffer is unpinned |
| `Log.ReinstallTrans` | kernel/log.c:67-83 | the same loop at recovery, which unpins nothing |
| `Log.CommitCrashSafe` | kernel/log.c:193-203 | crash atomicity holds of the very writes that the commit method is proved to issue |
| `Log.CommitPlan` | kernel/log.c:193-203 | the writes of a commit, with disk and trace at each point |
| `Log.Logger.constructor` | kernel/log.c:54-63 | an idle log over a cache with nothing pinned |
| `Log.Logger.RecoverFromLog` | kernel/log.c:116-123 | recovery through the cache issues exactly the specified writes; every buffer is clean afterwards |
| `Log.Logger.EndOp` | kernel/log.c:144-175 | the last operation's return means the commit's writes are all on disk, and it panics exactly where the commit does; any other changes neither disk, list nor contents |
| `Log.Logger.LogWrite` | kernel/log.c:205-235 | the list absorbs repeats, listed buffers and only those are pinned, and the panic happens exactly for a full log or outside an operation |
| `Log.Logger.Commit` | kernel/log.c:193-203 | the trace of disk writes is exactly the commit program that crash atomicity is about; a panic happens exactly at the first round that finds every buffer pinned or in use, and then the trace is the writes before that round |
| `GroupCommit.NextKeeps` | kernel/log.c:125-235 | every step of operations, recycling, commit, crash and recovery keeps the invariant that ties disk, memory and groups together |
| `GroupCommit.EndStartsCommit` | kernel/log.c:144-175 | when the last operation ends, memory is the committed contents with the whole group's writes on top, and on top of those what changed in listed blocks without being logged |
| `GroupCommit.Recoverable` | kernel/log.c:116-123 | in every state a crash would recover to exactly the durable groups, each with its logged writes and what it took of unlogged changes |
| `GroupCommit.GroupCommitSafe` | kernel/log.c:125-235 | at every point of every run with crashes anywhere, recovery yields the boot contents with a prefix of the group commits applied, only the last group can be missing, and no group holds a logged write of an outstanding operation |
| `GroupCommit.CommitExact` | kernel/log.c:177-191 | a commit makes durable exactly the replay of its group's logged writes if and only if every listed block changed since it was logged holds what it was last logged with |
| `GroupCommit.LoggedWritesSafe` | kernel/log.c:125-235 | in every run whose commits all start so, a crash at any point recovers to a prefix of the groups' logged writes alone |
| `Unlogged.UnloggedCommitted` | kernel/fs.c:497-506 | a run, within all quotas, after which the recovered block is what an operation put there and released without logging it |
| `GroupCommit.DurableGrows` | kernel/log.c:116-203 | what is durable stays durable, across crashes |
| `GroupCommit.CommittedIsDurable` | kernel/log.c:144-175 | when a committing `end_op` returns, every operation that ended before it is durable, and stays so |
| `LogRefines.Recover` | kernel/log.c:116-123 | recovery through the cache is a run of the recovery steps of the concurrent system |
| `LogRefines.Begin` | kernel/log.c:125-142 | an operation begins exactly when the system has a step that begins it, and then listed blocks and all unspent quotas, the new one whole, fit LOGSIZE together |
| `LogRefines.Lock` | kernel/bio.c:91-103 | `bread` by an operation is a step that recycles and a step that takes the block's lock; the panic exactly when no buffer is left |
| `LogRefines.Read` | kernel/bio.c:91-103 | `bread` outside any operation is a step that recycles, and the buffer has the contents the system says |
| `LogRefines.Modify` | kernel/log.c:205-213 | changing a held buffer is the step of the system |
| `LogRefines.Unlock` | kernel/bio.c:114-137 | `brelse` is the step that gives up the lock, logged or not |
| `LogRefines.LogWrite` | kernel/log.c:205-235 | a logged write is the step of the system, or the panic exactly where the system says so |
| `LogRefines.EndLast` | kernel/log.c:144-203 | the last `end_op` is its end step followed by every step of the commit, with whatever is recycled meanwhile; at a panic, by the steps before it |
| `LogRefines.EndOther` | kernel/log.c:144-175 | any other `end_op` is the one end step |
| `Reservation.RoomForQuota` | kernel/log.c:125-142 | in every run within quotas, listed blocks plus the unused quota of an operation never exceed LOGSIZE |
| `Reservation.RunReserved` | kernel/log.c:125-235 | the same for all outstanding operations together, at every point of every such run |
| `Reservation.QuotaSuffices` | kernel/log.c:214-235 | with a log of LOGSIZE data blocks, no operation with quota left meets the panic |
| `Reservation.SmallLogPanics` | mkfs/mkfs.c:25 | with a smaller log, such as mkfs makes, a run reaches the panic within quota |
| `Reservation.QuotaExact` | kernel/log.c:220-221 | the quota rules the panic out if and only if the log has LOGSIZE data blocks |
| `Reservation.AbsorbedWritePanics` | kernel/log.c:220-229 | a run in which repeating a listed block panics although it needs no space |
| `Reservation.PanicSpent` | kernel/log.c:220-221 | and that needs a full log with every outstanding quota spent |
| `Bitmap.FlipAt` | kernel/fs.c:74-76 | setting or clearing a bit changes that bit of the byte and no other |
| `Bitmap.FlipMarks` | kernel/fs.c:88-103 | one bit operation moves exactly one block in or out of the set of used blocks |
| `Inodes.AttachDirect` | kernel/fs.c:383-393 | a fresh block in an empty direct or indirect-block slot moves no other pointer and no data |
| `Inodes.AttachEntry` | kernel/fs.c:394-401 | the same for an entry of the indirect block |
| `Inodes.AttachedPointers` | kernel/fs.c:378-405 | after attaching a free block, every used block still has exactly one slot that points to it |
| `Inodes.Detached` | kernel/fs.c:416-435 | an inode that lost its pointers leaves the other files' pointers and data alone |
| `Inodes.OverwriteData` | kernel/fs.c:497-506 | writing a file's block changes that block of that file and nothing else |
| `Files.FileSystem.constructor` | mkfs/mkfs.c:93-103 | a fresh image satisfies the ownership invariant: exactly the blocks before the data area are marked |
| `Files.FileSystem.Balloc` | kernel/fs.c:63-86 | the lowest free block, marked and zeroed, which no inode or indirect block points to; the panic means that none is free |
| `Files.FileSystem.Bfree` | kernel/fs.c:88-103 | exactly one block leaves the used set; the panic happens exactly for a free block |
| `Files.FileSystem.Bmap` | kernel/fs.c:375-405 | the block of a file, attached if missing, across the direct/indirect boundary; a mapped block changes nothing; what it logs |
| `Files.FileSystem.Itrunc` | kernel/fs.c:407-437 | exactly the inode's blocks become free, no panic can happen, every other file keeps its bytes; it logs exactly the inode's block and the bitmap blocks of those freed |
| `Files.FileSystem.Iput` | kernel/fs.c:325-358 | the last reference without links frees the inode and its blocks, and logs what truncation logs; any other changes only the count |
| `Inodes.TruncQuota` | kernel/fs.c:407-437 | truncation is within an operation's quota if and only if the file's blocks lie under fewer than MAXOPBLOCKS bitmap blocks, and so on every disk with no more than those |
| `Files.FileSystem.Readi` | kernel/fs.c:451-477 | exactly the slice of the file's bytes, up to the whole blocks that fit if the destination ends; nothing is allocated |
| `Files.FileSystem.WriteBlocks` | kernel/fs.c:497-506 | the loop stores the bytes it can read, counts the blocks whose copy did not fail, maps every block up to there, and says which blocks it adds and logs |
| `Files.FileSystem.Writei` | kernel/fs.c:479-517 | the file becomes its old bytes with the stored ones spliced in, for every offset and length and wherever reading them stops; other files keep theirs; no file gets a hole; the number of blocks logged |
| `Files.FileSystem.WriteOp` | kernel/file.c:157-173 | one chunk logs at most MAXOPBLOCKS blocks; which bytes count as written and which are stored |
| `Files.FileSystem.Filewrite` | kernel/file.c:148-175 | all chunks together splice exactly the bytes stored; the new offset counts the written ones; the answer is -1 if and only if the count is negative, a byte cannot be read, or the write would leave a gap or exceed the largest file; the panic needs a block that is missing and a full disk; each transaction is within its quota |
| `Files.WroteSplices` | kernel/fs.c:486-517 | the block-level description of a write is a splice of byte sequences, cut at the new size |
| `Files.ChunkFits` | kernel/file.c:149-155 | three blocks' length needs a fourth block only when the first is partial, so the bound holds at every offset |
| `WorstChunk.WorstWrite` | kernel/file.c:148-173 | the bound is tight: from a fresh image, writes alone fill a disk until a chunk succeeds and logs MAXOPBLOCKS blocks |
| `WorstChunk.TenLogged` | kernel/fs.c:375-405 | a chunk that takes the last four free blocks, each under its own bitmap block, logs ten blocks |
| `Links.PutKeeps` | kernel/fs.c:325-358 | an inode is freed if and only if no entry names it, no operation on it is under way and no other reference remains |
| `Links.FoundIsLinked` | kernel/sysfile.c:206-212 | the entry `unlink` finds names a counted inode: its panic cannot happen |
| `Links.EmptyHasOneLink` | kernel/sysfile.c:168-182 | an empty linked directory has link count 1 |
| `Links.UnlinkEntryKeeps` | kernel/sysfile.c:184-239 | removing an entry, file or empty directory, keeps counts and tree right while the rest of `unlink` is due |
| `Links.LinkExact` | kernel/sysfile.c:118-166 | entering a link leaves every link count right if and only if the directory is still linked |
| `Links.CreateExact` | kernel/sysfile.c:241-284 | so does creating a file or directory |
| `Links.NextExact` | kernel/sysfile.c:118-284 | a step leaves every link count right if and only if it enters no name in a removed directory, and then keeps the whole invariant |
| `Links.LinksSafe` | kernel/sysfile.c:118-284 | up to the first such step a link count is the number of entries naming the inode in linked directories, no entry names a free inode, a removed directory is empty; that step makes a count wrong |
| `Links.NoneLeaked` | kernel/fs.c:325-358 | in every run, right counts or not, an inode in use has a link or a reference |
| `Links.WrongCount` | kernel/sysfile.c:241-284 | a run from a fresh image in which a file is created in a removed directory and a count is wrong |
| `PageTable.Descend` | kernel/vm.c:81-98 | the table entries on the way down name the pages of the tree |
| `PageTable.AddTable` | kernel/vm.c:88-94 | linking a zeroed page adds one place to the tree and changes no mapping |
| `PageTable.LeafStore` | kernel/vm.c:149-153 | storing a leaf entry changes exactly one mapping |
| `PageTable.OtherSpace` | kernel/vm.c:80-187 | work on one address space leaves every other one as it is |
| `TableCount.TollSplit` | kernel/vm.c:70-98 | what a range of virtual pages takes, pages and missing tables, is what its two parts take one after the other |
| `TableCount.WaysCount` | kernel/vm.c:70-98 | the first n virtual pages need one table for every 512 of them, and one for every 512 of those |
| `TableCount.FirstToll` | kernel/proc.c:169-200 | what n user pages take in a new address space, in closed form |
| `Vm.Memory.constructor` | kernel/kalloc.c:26-40 | the loop of `freerange` makes every page free, once |
| `Vm.Memory.Kfree` | kernel/kalloc.c:42-63 | the page joins the free list and is filled with junk; the panic happens exactly outside the managed range |
| `Vm.Memory.Kalloc` | kernel/kalloc.c:65-82 | a page that nobody owns, or 0 exactly when none is free |
| `Vm.Memory.Walk` | kernel/vm.c:70-98 | finds the level-0 page, or adds exactly the missing table pages; out of memory exactly when fewer pages are free than tables are missing; no mapping changes even then |
| `Vm.Memory.Mappages` | kernel/vm.c:133-160 | adds exactly the mappings of its range and the tables they need, or those before memory ran out or before a panic, which it explains, also where the end of the range wraps around; out of memory exactly when fewer pages are free than tables are missing |
| `Vm.Memory.MapPage` | kernel/vm.c:133-160 | one page, as the callers ask for: mapped, refused exactly when it is mapped already, or out of memory, exactly when fewer pages are free than tables are missing, with no mapping changed |
| `Vm.AddRangeAt` | kernel/vm.c:133-160 | what a range of mappings is, page by page |
| `Vm.Memory.Uvmunmap` | kernel/vm.c:162-187 | removes exactly its range and frees exactly its data pages; panics exactly when unaligned or not mapped |
| `Vm.Memory.Uvmalloc` | kernel/vm.c:218-244 | the user memory becomes exactly the pages of the new size, the new ones zero, at the price of those pages and the tables missing; failure exactly when fewer pages are free than that, and then no data page is kept; the panic needs more physical pages than there are below the trap frame |
| `Vm.Memory.Uvmdealloc` | kernel/vm.c:246-262 | exactly the pages between the two sizes go, and no others; panics exactly when there are pages to give up that go beyond those there are |
| `Vm.Memory.Freewalk` | kernel/vm.c:264-282 | frees exactly the table pages of the subtree, each once; panics exactly when a leaf is left |
| `Vm.Memory.Uvmfree` | kernel/vm.c:284-292 | the address space owns no page afterwards; panics exactly when something above the user memory is mapped |
| `Vm.Memory.Uvmcopy` | kernel/vm.c:294-328 | the child gets a copy of every page with its flags; failure exactly when fewer pages are free than that takes, and then no data page is kept; the parent is untouched |
| `Vm.Memory.Uvmclear` | kernel/vm.c:330-341 | takes the user bit of one page and leaves everything else what it was; the panic happens exactly when no table reaches the page, so never for a mapped one |
| `Vm.Memory.Uvmcreate` | kernel/vm.c:189-200 | an empty tree of one page |
| `Vm.Memory.ProcPagetable` | kernel/proc.c:169-200 | exactly the trap frame and the trampoline are mapped, with three table pages; failure exactly when fewer than three are free, and then every page is given back; the trap frame's mapping cannot fail |
| `Vm.Memory.ProcFreepagetable` | kernel/proc.c:202-210 | no panic can happen and exactly the address space's pages become free |
| `Vm.DisownedAgain` | kernel/proc.c:202-210 | giving back what was taken restores the ownership of every page |
| `Vm.GaveBack` | kernel/vm.c:218-262 | undoing a failed growth leaves only table pages taken |
| `Vm.Memory.Growproc` | kernel/proc.c:250-268 | the user memory is exactly the pages of the resulting size whatever happens, with 32-bit wrap-around; -1 exactly for growth that takes more pages than are free; the mappings of an unchanged size, of the trap frame and of the trampoline stay |
| `Vm.RegionSmall` | kernel/kalloc.c:26-40 | a process never has more user pages than there are physical pages |
| `Vm.Memory.Allocproc` | kernel/proc.c:104-145 | a trap frame and a page table that maps it and the trampoline; or, exactly when fewer than four pages are free, every page is owned as before; all other processes keep their pages and contents |
| `Vm.Memory.ForkMemory` | kernel/proc.c:272-290 | the child's memory is a copy in pages of its own, with its trap frame and the trampoline mapped; failure exactly when fewer pages are free than that takes, and then every page is owned as before; all other processes keep their pages and contents |
| `Vm.Memory.Freeproc` | kernel/proc.c:147-167 | exactly the trap frame and the address space's pages become free; all other processes keep their pages and contents |
| `Image.PatchAt` | kernel/exec.c:145-149 | reading bytes to the start of a page changes exactly those bytes |
| `Image.PlacedAt` | kernel/exec.c:49-58 | placing a segment puts its file's bytes at its address, zeroes what is new besides, and leaves every other byte |
| `Image.ProgramAt` | kernel/exec.c:41-59 | a byte of the program is that of the last segment with file bytes there, and else zero |
| `Vm.Memory.Walkaddr` | kernel/vm.c:100-121 | the page mapped for the user at an address, or 0 exactly when there is none |
| `Vm.Memory.Loadseg` | kernel/exec.c:131-154 | the pages hold the file's bytes, and all else is as before; the panic happens only for a page beyond the user memory, and a failure only for a file that ends early |
| `Vm.Memory.LoadSegments` | kernel/exec.c:41-59 | the new user memory is, byte for byte, the program the segments make, with its size; no panic can happen; a failure means a segment that cannot be loaded or too few free pages, and leaves a space that can be freed |
| `Vm.Memory.ExecMemory` | kernel/exec.c:38-129 | a new space that holds the program, a guard page, the stack, the trap frame and the trampoline, and the old one owns no page; or failure, and every page is owned as before; success if and only if the arguments fit, the segments can be loaded and as many pages are free as that address space takes; no panic; all other processes keep their pages and contents |
| `Vm.KeptSpace` | kernel/proc.c:104-290 | a change to other address spaces and trap frames leaves a page table as it is |
| `Vm.KeptRegion` | kernel/proc.c:104-290 | and the user memory |
| `Processes.ProcTable.constructor` | kernel/proc.c:45-58 | no process, and the pages in use are the kernel's |
| `Processes.ProcTable.Alloc` | kernel/proc.c:104-145 | a new process keeps the table invariant: every live process has a sound page table with exactly its pages, its trap frame and the trampoline; no two share anything; every page is free, reserved, or some process's; failure exactly when fewer than four pages are free |
| `Processes.ProcTable.Fork` | kernel/proc.c:270-299 | `fork` keeps it; the child has the parent's memory and, but for `a0`, its trap frame; everybody's memory is as before; it succeeds if and only if as many pages are free as the child takes |
| `Processes.ProcTable.Sbrk` | kernel/proc.c:250-268 | `sbrk` keeps it; kept pages keep their contents, new ones are zero, no other process notices; -1 exactly for growth that takes more pages than are free |
| `Processes.ProcTable.Exec` | kernel/exec.c:13-129 | `exec` keeps it, and its memory side never panics; it succeeds if and only if the arguments fit, the segments can be loaded and enough pages are free for the new address space beside the old one, and then the process has one that holds the program; otherwise all is as before; no other process notices |
| `Processes.ProcTable.Reap` | kernel/proc.c:147-167 | freeing a dead process keeps it and frees exactly its pages; no other process notices |
| `Processes.NoSharing` | kernel/vm.c:218-328 | in every such table a page of user memory is mapped once, by one process, and is no table, no trap frame, no page of the kernel and not free |
| `Processes.AllBack` | kernel/proc.c:147-210 | whatever happened in between, when no process is left every page is free that the kernel did not reserve |
| `Processes.TableGains` | kernel/proc.c:270-299 | the invariant when a process joins and only free pages change hands |
| `Processes.TableChanges` | kernel/exec.c:110-121 | the invariant when a process changes its memory, perhaps for another address space |
| `Processes.TableLoses` | kernel/proc.c:147-167 | the invariant when a process goes |
| `Processes.SizeFits` | kernel/proc.c:250-268 | a process size fits the 32 bits that `growproc` keeps of it, when physical memory ends below 4 GB |
| `Monitor.NextKeeps` | kernel/proc.c:526-573 | every step of `sleep`, `wakeup`, `kill` and the scheduler keeps the wakeup invariant |
| `Monitor.NoLostWakeup` | kernel/proc.c:526-573 | in every interleaving, a sleeper whose condition holds has yet to be scanned by the holder of the condition lock |
| `Monitor.WokenExact` | kernel/proc.c:557-597 | in every run, a sleeper becomes runnable exactly when a `wakeup` of its channel looks at it or it is killed |
| `SleepLock.StepProper` | kernel/sleeplock.c:21-41 | sleep locks keep the discipline that the wakeup theorem asks for |
| `SleepLock.SleepLockSafe` | kernel/sleeplock.c:21-52 | mutual exclusion, `holdingsleep` tells the truth, and nobody sleeps on a free lock unless about to be woken |
| `WaitExit.StepProper` | kernel/proc.c:326-428 | `wait`, `exit` and `fork` keep the discipline of the wakeup theorem, although `exit` calls `wakeup` before it becomes a zombie |
| `WaitExit.WaitSafe` | kernel/proc.c:326-428 | in every run, a parent that sleeps in `wait` although a child is a zombie is about to be woken by the holder of `wait_lock`, and a process is a zombie exactly from the end of its `exit` until it is freed |
| `Pipe.TestsRight` | kernel/pipe.c:76-130 | the empty and full tests on the wrapped 32-bit counters are right about the true totals |
| `Pipe.PutOk` | kernel/pipe.c:88-95 | a byte put in the ring leaves every unread byte in its place |
| `Pipe.TakeOk` | kernel/pipe.c:119-126 | the byte taken is the next one written |
| `Pipe.BytesInOrder` | kernel/pipe.c:76-130 | in every run the bytes read are a prefix of the bytes written, at most PIPESIZE behind |
| `PipeCalls.CallsInOrder` | kernel/pipe.c:76-130 | in every run with any number of readers and writers, the bytes a call of `pipewrite` has put are, in the order sent, the beginning of those it was given, and the rest is what it has yet to put; no call of `piperead` takes more than it asked for |
| `PipeCalls.OneWriter` | kernel/pipe.c:76-99 | with one writing process, what is sent is what its calls have put, one after the other |
| `PipeCalls.EndOfFile` | kernel/pipe.c:104-130 | a read that goes through its loops and takes nothing of what it asked for has found the pipe empty and its write end closed |
| `Pipe.PipeSafe` | kernel/pipe.c:58-130 | up to the first killed return that abandons a waiting reader, no reader or writer sleeps although it could go on, unless about to be woken |
| `Pipe.KilledReturn` | kernel/pipe.c:84-87 | in every such run, the killed return loses a wakeup if and only if bytes were put since the last wakeup and a reader waits |
| `Pipe.LostWakeup` | kernel/pipe.c:84-99 | a run in which it does |
| `Sched.NextKeeps` | kernel/proc.c:272-503 | every step of scheduler, `sched`, `yield`, `sleep`, `wakeup`, `fork`, `exit` and `wait` keeps the invariant, with timer interrupts also between the steps of `fork` and wakeups from interrupts on idle CPUs |
| `Sched.SchedulingSafe` | kernel/proc.c:272-503 | a process is current on at most one CPU; with its lock free it is RUNNING exactly when it is current on one; no parent is a zombie or unused |
| `Sched.LifeCycle` | kernel/proc.c:104-597 | in every run, the state of a process changes only along its life cycle, by the call that is for it: only `wakeup` and `kill` end a sleep, only the scheduler runs what is runnable, only `exit` makes a zombie |
| `Sched.ReapSafe` | kernel/proc.c:381-428 | a process `wait` frees is a zombie, on no CPU and nobody's parent |
| `Sched.ReapExact` | kernel/proc.c:381-428 | in every run, a slot becomes free exactly when its parent's scan comes to it and finds a zombie, and that `wait` is then over |
| `Sched.WaitExact` | kernel/proc.c:381-428 | in every run, `wait` sleeps only when it has children and none is a zombie, and reports no children only when there are none |
| `Sched.FamilySafe` | kernel/proc.c:272-374 | in every run, every process but init that has been made has a living parent, and a new one has the process that forked it when it becomes runnable |
| `Virtio.TakeFinds` | kernel/virtio_disk.c:259-266 | the device finds the oldest waiting request in its next slot |
| `Virtio.DecodeFinds` | kernel/virtio_disk.c:226-257 | following the chain, the device decodes the very request that was made |
| `Virtio.InterruptFinds` | kernel/virtio_disk.c:282-315 | the handler finds the oldest posted request with its own buffer and the status the device reported for it, so that it panics exactly when the device reported a failure |
| `Virtio.FinishWhich` | kernel/virtio_disk.c:172-185 | `free_chain` releases exactly the three descriptors of the request |
| `Virtio.NextKeeps` | kernel/virtio_disk.c:203-315 | every step of driver, device and interrupt keeps the invariant, whatever order the device completes in |
| `Virtio.VirtioSafe` | kernel/virtio_disk.c:143-315 | in every run: a descriptor is in use exactly when one request has it; no ring slot is overwritten before it is consumed although the 16-bit indices wrap; each completion is for its own buffer, with its own status |
| `Virtio.Served` | kernel/virtio_disk.c:203-315 | in every run, the device finds the request as it was made until it is finished, and `virtio_disk_rw` finishes it only when the device has reported success for it |
| `Virtio.Driver.AllocDesc` | kernel/virtio_disk.c:143-154 | a descriptor that was free, or -1 exactly when none is |
| `Virtio.Driver.FreeDesc` | kernel/virtio_disk.c:156-170 | frees one descriptor; panics exactly when out of range or free already |
| `Virtio.Driver.Alloc3` | kernel/virtio_disk.c:187-201 | three distinct descriptors exactly when three are free; otherwise all is as before |
| `Virtio.Driver.FreeChain` | kernel/virtio_disk.c:172-185 | the loop frees exactly the three descriptors of a chain, without panic |
| `Umalloc.StopsAt` | user/umalloc.c:30-32 | the two tests of the loop in `free` hold exactly at the block's place in address order |
| `Umalloc.JoinTiled` | user/umalloc.c:33-42 | joining two touching blocks keeps all memory tiled by blocks |
| `Umalloc.SplitTiled` | user/umalloc.c:79-83 | so does cutting a block in two |
| `Umalloc.ExtendTiled` | user/umalloc.c:46-61 | so does adding what `sbrk` returned |
| `Umalloc.Disjoint` | user/umalloc.c:24-90 | blocks do not overlap |
| `Umalloc.GrantExact` | kernel/sysproc.c:41-53 | `sbrk` grants all that `morecore` asks for, at the address it returns, if and only if the request and the process size are both below 2^31 |
| `Umalloc.LargestAsksForSixteen` | user/umalloc.c:46-61 | the largest request becomes a call for sixteen bytes |
| `Umalloc.Heap.FindPlace` | user/umalloc.c:30-32 | the loop ends and finds the free block after which the freed one belongs |
| `Umalloc.Heap.Free` | user/umalloc.c:24-44 | exactly one block stops being allocated, and the ring is again circular, in address order, with no two free blocks touching |
| `Umalloc.Heap.Morecore` | user/umalloc.c:46-61 | the new block joins the free list, which then has one that is big enough; all blocks are still in memory if and only if the request fits; a refusal changes nothing |
| `Umalloc.Heap.Malloc` | user/umalloc.c:63-90 | a new block, disjoint from all allocated ones and large enough, for every `nbytes`; one call of `sbrk` exactly when no free block is big enough, and failure exactly when that is refused; all blocks are in memory if and only if that call was for a request that fits; otherwise nothing allocated changes |
| `ShellSyntax.Understood` | user/sh.c:327-446 | every line, with any number of words, redirections in any order, pipes, `&`s, `;`s and nested parentheses, and any white space between them, is parsed to the command it means: redirections with the first one innermost, pipelines and lists to the right |
| `ShellSyntax.Accepted` | user/sh.c:327-446 | every line the parser accepts is such a line |
| `ShellSyntax.ParseExact` | user/sh.c:327-446 | a line is parsed to a command if and only if it has a reading that means that command |
| `ShellSyntax.PiecesRound` | user/sh.c:374-446 | words and redirections, however they are mixed, are read in order, one redirection for every sign with its own file and kind |
| `ShellSyntax.LineRead` | user/sh.c:344-413 | the same within parentheses |
| `ShellRoundTrip.RoundTrip` | user/sh.c:327-446 | parsing the fully parenthesised printing of any command tree gives back the tree |
| `ShellRoundTrip.Reparses` | user/sh.c:327-446 | every line the parser accepts means a tree whose printing parses to the same tree |
| `ShellRoundTrip.LineRound` | user/sh.c:344-446 | the same for a command within a line, up to a closing parenthesis |
| `ShellParser.Parser.GetToken` | user/sh.c:265-308 | the cursor loop reads the token the grammar says, and skips what follows |
| `ShellParser.Parser.Peek` | user/sh.c:310-320 | the cursor stops at the next character that is no space |
| `ShellParser.Parser.ParseRedirs` | user/sh.c:374-397 | the loop reads the redirections the grammar says, or fails for a missing file |
| `ShellParser.Parser.ParseExec` | user/sh.c:415-446 | the loop collects words and redirections however they are interleaved, or fails for too many words |
| `ShellParser.Parser.ParseBlock` | user/sh.c:399-413 | a parenthesised line, or the error |
| `ShellParser.Parser.ParsePipe` | user/sh.c:361-372 | pipelines associate to the right |
| `ShellParser.Parser.ParseLine` | user/sh.c:344-359 | any number of `&` wrap the command before `;` continues the line |
| `ShellParser.Parser.ParseCmd` | user/sh.c:327-342 | parsing ends on every line, with the tree the grammar gives or an error |
| `ShellParser.LineTokens` | user/sh.c:344-446 | every range in a parsed command is a whole word of the line, and no simple command has more than nine |
| `ShellParser.NulTerminate` | user/sh.c:448-493 | a terminator after every word of the tree, and no character inside any word changes |
| `ShellParser.ParseInPlace` | user/sh.c:327-342 | after parsing in the line buffer, every argument and file name reads, as a C string, as its token |
| `Grep.MatchesStar` | user/grep.c:96-104 | a starred character accepts exactly the splits into fitting characters and a match of the rest |
| `Grep.MatchHere` | user/grep.c:82-94 | true exactly when the meaning of the pattern accepts a beginning of the text; the mutual recursion ends |
| `Grep.MatchStar` | user/grep.c:96-104 | the loop finds a split if there is one |
| `Grep.Match` | user/grep.c:70-80 | true exactly when the pattern's meaning accepts a substring in an allowed position |
| `Grep.Round` | user/grep.c:17-32 | one buffer's worth of lines is decided, and what is left over is moved to the front unchanged |
| `Grep.Run` | user/grep.c:10-34 | the output depends on the input alone, not on how `read` cuts it up |

## Left out

- One device: the buffer cache model serves the root device only, since the disk driver ignores the device number.
- On-disk inode layout: inodes are one copy each; `iupdate` records the block it logs, `ilock` and the inode table are not modelled.
- Directories as files: `dirlookup`, `dirlink`, `skipelem` and `namex` are not modelled; `Links` has a directory as a map from names to inodes, with "." and ".." its first two entries, and link counts do not wrap at 16 bits.
- Log.Logger.Commit: others run between the rounds of a commit, and not between the two `bread` calls of one round; a visit of another process that finds no buffer is not made, where the code would panic in that process.
- Concurrency inside `fs.c`: `Files` runs one call after another, as the inode and buffer locks make it; the log's concurrency is in `GroupCommit`.
- Vm.Memory.Kfree: the page must not be free already. The source does not look, and a second `kfree` would put the page on the list twice; no caller modelled here does it, and that is what the ownership proofs show.
- Vm.Memory.Mappages: the permissions must make a leaf, as all callers have it; an entry without R, W or X would be taken for a link to a table.
- Vm.Memory.Uvmdealloc: the old size must not go beyond the trap frame's address, as no caller's does; the source would then take the trap frame away, too.
- Vm.Memory.LoadSegments: the headers of the ELF file are given, as the segments to load with the bytes the file has for each.
- Vm.Memory.ExecMemory: the bytes of the argument stack are not modelled; the arguments either fit or not.
- Concurrency of memory calls: in `Vm` and `Processes` one call runs after another; in the code the calls of different processes interleave at every `kalloc` and `kfree`, and only the free list is shared.
- Processes.ProcTable.Alloc: the number of slots is not bounded by NPROC, and the process number is the caller's choice among the unused ones.
- The kernel page table, `copyin`, `copyout` and `copyinstr`.
- Open file reference counts (`filealloc`, `filedup`, `fileclose`), the console, the UART, trap entry and exit, and the fetching of system call arguments.
- Spin locks are atomic; `push_off` and `pop_off`, memory ordering, fairness and liveness are not modelled.
- The data that a virtio request transfers, and what follows the driver's panic on a failed request.
- Umalloc.Heap.Malloc: the program break is a multiple of a header's size, as it is when only `malloc` moves it; what happens after a request that does not fit is not followed further.
- The shell's `runcmd`, and its reading of a line.
