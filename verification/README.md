# xv6 kernel with FastIPC rings: a Dafny model

The project models the parts of the xv6 RISC-V kernel (with its shared-memory ring
buffers) whose correctness spans several functions, and proves what they promise:

* the storage stack: buffer cache, write-ahead log with a crash between any two disk
  writes, block allocation, file contents, inodes and free map as they lie in the disk's
  blocks, what is left of the file system after a crash, directories and link counts;
* virtual memory: page allocator, three-level page tables, growing, copying and tearing
  down address spaces, and the double mapping of a ring;
* concurrent protocols: exit/wait with sleep and wakeup, the pipe, the virtio disk queue,
  and the single-producer single-consumer ring counters;
* two user programs: the Kernighan and Ritchie allocator and the grep matcher.

Code that updates state in loops is written as classes and methods proved against
specifications on values. Protocols are machines whose steps are the stretches between
two points where another CPU, the device or a crash can interfere, with theorems about
every run from the initial state.

| file | source | main results |
|---|---|---|
| Common.dfy, Blocks.dfy, Bio.dfy | bio.c | cache transparency, one buffer per block, reference counts, least-recently-released order |
| LogProtocol.dfy, Log.dfy | log.c | crash atomicity, repeated recovery, reservation and its tightness; the code takes the machine's steps |
| FsState.dfy, FsImage.dfy, Fs.dfy | fs.c, file.c | single ownership of blocks, contents as byte sequences, inodes and free map in their blocks, transaction budget, truncation |
| FsCrash.dfy | fs.c over log.c | recovery from a crash anywhere leaves the consistent file system of the last commit |
| Tree.dfy, Dirs.dfy | sysfile.c, fs.c | link counts, unique names, one tree |
| PageTable.dfy, Vm.dfy, Uvm.dfy, Teardown.dfy | vm.c, kalloc.c, proc.c | page tables refine a flat map; no page is lost or freed twice; growing and copying fail exactly when memory is short |
| RingMap.dfy, FastIpc.dfy | ringbuf.c, fastipc.h | double mapping; counters stay in range although truncated to int |
| Proc.dfy, ProcWait.dfy | proc.c | no lost child, reaped once, no deadlock on the process locks; when wait gives up, and what fork, exit, kill and wakeup leave behind |
| Pipe.dfy, PipeCalls.dfy | pipe.c | first in first out across counter wrap; who may be asleep when; a call puts the bytes it was given, and why it ends |
| Virtio.dfy | virtio_disk.c | descriptors split into free ones and chains; requests return after completion |
| Umalloc.dfy | umalloc.c | ordered, coalesced free list; units conserved; next fit |
| Grep.dfy | grep.c | matcher decides the language of the pattern; driver output independent of read sizes |

The layers meet in `FsCrash.RecoveredFileSystem`. `Fs.Fs.Writei`, `Fs.Fs.FileWrite` and
`Fs.Fs.Itrunc` each lead from one consistent disk image to another and change only blocks
they log. In every run of the log protocol whose log_writes come from such operations, in
any interleaving and with crashes anywhere, recovery yields a consistent image: the one
reached by the operations that had finished at the last commit. Consistent means that a
data block is marked in use exactly when one file, in one place, refers to it.

Four promises turn out to hold only under a condition, which is proved exactly:

* A pipe reader may stay asleep over a non-empty pipe, because pipewrite's error return
  does not wake readers. `Pipe.ReadersKept` shows that a step breaks the rule for sleeping
  readers if and only if it is that return, after bytes were put, with a reader asleep;
  `Pipe.StrandedReader` is a run that does it.
* grep stops at a line that does not fit its 1023 bytes or holds a NUL.
  `Grep.AllPrinted` shows that every matching line is printed, for every pattern, if and
  only if each line of the input has fewer than 1023 bytes before its newline and no NUL;
  `Grep.OverlongLine` and `Grep.LineWithNul` are inputs whose line is missed.
* exit does not unmap the process's rings, because its call of the cleanup is commented
  out. `RingMap.TeardownNeedsNoRing` shows that the page table of a process that holds its
  own pages and any rings can be freed if and only if no ring is mapped;
  `RingMap.MappedRingBlocksTeardown` is the ring that makes freewalk panic.
* The disk driver computes sector numbers in 32 bits. `Virtio.SectorsApart` shows that two
  blocks share a sector if and only if their numbers are 2^31 apart.

The log reservation needs operations that add fewer than MAXOPBLOCKS blocks
(`LogProtocol.ReservationSuffices`); three operations of exactly MAXOPBLOCKS can panic
(`LogProtocol.FullOperationsPanic`). A filewrite chunk logs at most MAXOPBLOCKS blocks in
general and at most 7 with one free-map block (`Fs.Fs.FileWrite`).

## Model

| member | source | states |
|---|---|---|
| Blocks.WordRoundTrip | Xv6-Kernel/kernel/log.c:102-114 | writing a word of a block sets that word and no other |
| Bio.LinkFrontLinked | Xv6-Kernel/kernel/bio.c:45-51 | inserting after the head keeps the next/prev ring consistent, with the buffer first |
| Bio.UnlinkLinked | Xv6-Kernel/kernel/bio.c:128-129 | unlinking a buffer keeps the ring of the others consistent, in order |
| Bio.ListIsPermutation | Xv6-Kernel/kernel/bio.c:26-34 | the list contains every buffer exactly once |
| Bio.UnusedBufferExists | Xv6-Kernel/kernel/bio.c:75-88 | with fewer holders and logged blocks than buffers, some buffer has reference count zero, so bget cannot run out |
| Bio.Bcache.constructor | Xv6-Kernel/kernel/bio.c:36-53 | binit makes a valid cache that shows the disk |
| Bio.Bcache.Bget | Xv6-Kernel/kernel/bio.c:58-89 | returns the one buffer of a cached block, otherwise recycles the least recently released unused one; fails exactly when nothing is cached or unused |
| Bio.Bcache.Bread | Xv6-Kernel/kernel/bio.c:92-103 | the locked buffer holds the last contents given to the block |
| Bio.Bcache.Bwrite | Xv6-Kernel/kernel/bio.c:106-112 | the disk block becomes the buffer's data, nothing else changes |
| Bio.Bcache.Bpin | Xv6-Kernel/kernel/bio.c:139-144 | one more reference, counted for the log |
| Bio.Bcache.Bunpin | Xv6-Kernel/kernel/bio.c:146-151 | the log's reference is dropped; the count never goes below the holders |
| Bio.Bcache.Brelse | Xv6-Kernel/kernel/bio.c:116-137 | one holder less; a buffer nobody uses moves to the front, the rest keeps its order |
| LogProtocol.HeaderRoundTrip | Xv6-Kernel/kernel/log.c:86-114 | reading the header that write_head wrote gives back the list of blocks |
| LogProtocol.RecoveryInstalls | Xv6-Kernel/kernel/log.c:68-123 | a disk stands for contents m exactly when replaying its log yields m |
| LogProtocol.StepKeepsInv | Xv6-Kernel/kernel/log.c:68-235 | every disk write, operation step and crash keeps the log invariant |
| LogProtocol.CrashAtomicity | Xv6-Kernel/kernel/log.c:68-123 | in every run, recovery from a crash at any point yields the last committed contents, and only the header write changes what is committed, to all of the transaction |
| LogProtocol.CommittedWasQuiescent | Xv6-Kernel/kernel/log.c:193-203 | what is committed was the state at some moment with no operation in progress |
| LogProtocol.QuiescentIsDurable | Xv6-Kernel/kernel/log.c:145-203 | with no operation in progress and no commit running, everything written is on disk |
| LogProtocol.RepeatedRecovery | Xv6-Kernel/kernel/log.c:116-123 | any number of crashes during recovery leave the committed contents, which recovery then installs |
| LogProtocol.ReservationSuffices | Xv6-Kernel/kernel/log.c:126-175 | with operations below MAXOPBLOCKS blocks no run reaches the log-full panic, the list leaves two slots, committing means no operation, and an idle log is empty |
| LogProtocol.FullOperationsPanic | Xv6-Kernel/kernel/log.c:214-235 | three operations of exactly MAXOPBLOCKS blocks have a run that panics |
| Log.Log.constructor | Xv6-Kernel/kernel/log.c:54-65 | initlog and read_head start the machine's run at boot |
| Log.Log.WriteHead | Xv6-Kernel/kernel/log.c:102-114 | the header block on disk lists the logged blocks |
| Log.Log.ReadHead | Xv6-Kernel/kernel/log.c:86-97 | the in-memory list is the one in the header block |
| Log.Log.WriteLog | Xv6-Kernel/kernel/log.c:178-191 | takes one machine step per logged block and keeps what the cache shows, while others hold buffers of other blocks |
| Log.Log.InstallTrans | Xv6-Kernel/kernel/log.c:68-83 | takes one install step per logged block and keeps what is committed, while others hold buffers of other blocks |
| Log.Log.Commit | Xv6-Kernel/kernel/log.c:193-203 | takes exactly the commit steps, while others hold buffers of other blocks; afterwards cache, disk and committed contents agree |
| Log.Log.RecoverFromLog | Xv6-Kernel/kernel/log.c:116-123 | with two buffers or more, after recovery the disk shows what was committed and the log is empty |
| Log.Log.BeginOp | Xv6-Kernel/kernel/log.c:126-142 | starts exactly when the machine's reservation test allows it |
| Log.Log.EndOp | Xv6-Kernel/kernel/log.c:146-175 | the last operation out commits, and then its writes are durable; any other leaves cache and log as they are, whoever holds buffers |
| Log.Log.LogWrite | Xv6-Kernel/kernel/log.c:214-235 | records the block once, pins it, and publishes its data; fails exactly on the two panics, a full log and no operation in progress |
| PageTable.EntryParts | Xv6-Kernel/kernel/riscv.h:352-363 | an entry built from a page and flags gives both back |
| PageTable.TranslateIsFlat | Xv6-Kernel/kernel/riscv.h:366-374 | the three-level hardware walk equals lookup in the flat map |
| PageTable.AddMidOk | Xv6-Kernel/kernel/vm.c:91-101 | adding an empty level-1 table changes no translation |
| PageTable.AddLowOk | Xv6-Kernel/kernel/vm.c:91-101 | adding an empty level-0 table changes no translation |
| PageTable.SetLeafOk | Xv6-Kernel/kernel/vm.c:152-155 | writing a level-0 entry changes the mapping of exactly one page |
| Vm.Machine.FreeRange | Xv6-Kernel/kernel/kalloc.c:33-40 | exactly the whole pages of the range join those already free |
| Vm.Machine.Kfree | Xv6-Kernel/kernel/kalloc.c:46-63 | the page joins the front of the in-memory list, other pages are untouched |
| Vm.Machine.Kalloc | Xv6-Kernel/kernel/kalloc.c:68-82 | takes the first free page; zero exactly when there is none |
| Vm.Machine.Walk | Xv6-Kernel/kernel/vm.c:85-103 | finds the level-0 table; with alloc it adds just the missing tables, changes no translation, loses no page, and fails exactly when there are fewer free pages than missing tables |
| Vm.Machine.WalkAddr | Xv6-Kernel/kernel/vm.c:108-126 | the physical address of a user page, zero for anything else |
| Vm.Machine.MapPages | Xv6-Kernel/kernel/vm.c:142-162 | inserts a run of pages into the flat map, taking one page for each table missing over the range; it stops for want of memory exactly at the page whose tables can no longer be had, or at a mapped page |
| Vm.Machine.UvmUnmap | Xv6-Kernel/kernel/vm.c:167-189 | succeeds exactly when the range is aligned and mapped; removes it and frees each page once |
| Vm.Machine.MapNewPage | Xv6-Kernel/kernel/vm.c:233-243 | succeeds exactly when there is a free page for the new page and one for each table missing on its way; then that page, filled, is mapped there alone; otherwise no page is lost |
| Vm.OneMoreTable | Xv6-Kernel/kernel/vm.c:91-101 | the tables for one more page of a range are those missing on its way |
| Vm.PagesCover | Xv6-Kernel/kernel/riscv.h:349-350 | a page is below the rounded-up size exactly when it holds a byte below the size |
| Uvm.UvmDealloc | Xv6-Kernel/kernel/vm.c:252-264 | removes exactly the pages above the new size and conserves pages |
| Uvm.UvmAlloc | Xv6-Kernel/kernel/vm.c:222-246 | adds zeroed pages owned once; fails exactly when the free pages are fewer than the new pages and the tables missing for them, and then the mapping is as before and no page is lost |
| Uvm.UvmCopy | Xv6-Kernel/kernel/vm.c:302-330 | the child gets its own equal pages with equal flags and the parent is untouched; with the parent's pages there it runs out of memory exactly when the free pages are fewer than the copies and their missing tables, and then everything is undone; it panics only at a page below the size that the parent has not mapped |
| Teardown.FreeWalk | Xv6-Kernel/kernel/vm.c:268-284 | frees every table page once; succeeds exactly when no leaf is left |
| Teardown.NoLeafIsUnmapped | Xv6-Kernel/kernel/vm.c:268-284 | no leaf is left exactly when nothing is mapped |
| Teardown.UvmFree | Xv6-Kernel/kernel/vm.c:288-294 | succeeds exactly when the mapped pages are those below sz, and frees every owned page once |
| Teardown.UvmCreate | Xv6-Kernel/kernel/vm.c:193-202 | an empty table, or nothing taken; zero exactly when no page is free |
| Teardown.ProcPagetable | Xv6-Kernel/kernel/proc.c:171-200 | maps just trampoline and trapframe, with three pages; zero exactly when fewer are free, and then every page is back |
| Teardown.ProcFreePagetable | Xv6-Kernel/kernel/proc.c:204-210 | succeeds exactly for a process's leaves and frees each owned page exactly once |
| RingMap.WindowWraps | Xv6-Kernel/user/fastipc.h:4-7 | offsets k and k + BUF_SIZE reach the same byte, BOOKOFFSET reaches the book page, all below TRAPFRAME |
| RingMap.ProcessSpaceMapper | Xv6-Kernel/kernel/ringbuf.c:76-122 | fills the first free of ten slots with the ring twice and the book, and leaves every other mapping alone; fails only when all slots are taken or memory is short of the ring's pages and missing tables; with that memory no page of a new ring is null |
| RingMap.TeardownNeedsNoRing | Xv6-Kernel/kernel/proc.c:204-210 | a process table with rings in it can be freed if and only if no ring slot is mapped |
| RingMap.MappedRingBlocksTeardown | Xv6-Kernel/kernel/proc.c:342-349 | a ring that is still mapped, as after exit with its cleanup commented out, leaves leaves that freewalk panics on |
| FastIpc.WriteCountExact | Xv6-Kernel/user/fastipc.h:85-104 | the free space computed from truncated counters is the true one |
| FastIpc.ReadCountExact | Xv6-Kernel/user/fastipc.h:125-144 | the filled space computed from truncated counters is the true one |
| FastIpc.StepKeepsInv | Xv6-Kernel/user/fastipc.h:85-163 | each atomic load and store of producer or consumer keeps the counter invariant |
| FastIpc.CountersAreSafe | Xv6-Kernel/user/fastipc.h:22-28 | in every interleaving the totals stay within the buffer and returned counts never exceed the true space |
| FastIpc.TotalsAreFinished | Xv6-Kernel/user/fastipc.h:106-163 | in every interleaving the totals are the bytes passed to the finish calls, less those of a call under way |
| FsState.BitChanges | Xv6-Kernel/kernel/fs.c:76-77 | setting or clearing a block's bit touches no other |
| FsState.WriteBytes | Xv6-Kernel/kernel/fs.c:497-505 | writing a data block changes the bytes of the one file slot that owns it |
| FsState.SetRefOk | Xv6-Kernel/kernel/fs.c:383-400 | a new block reference keeps ownership single and all file contents |
| FsImage.InodeRoundTrip | Xv6-Kernel/kernel/fs.c:228-234 | an inode stored in a slot of an inode block decodes back, and the fifteen other inodes decode as before |
| FsImage.BitRead | Xv6-Kernel/kernel/fs.c:71-75 | the bit that balloc and bfree test in a map block is the bit of that block number |
| FsImage.BitWritten | Xv6-Kernel/kernel/fs.c:76-77 | flipping it there changes the free map in that bit only |
| FsImage.InodeOnDisk | Xv6-Kernel/kernel/fs.c:221-237 | writing one inode into its block changes that inode of the disk, no other and not the free map |
| FsImage.MetaFrame | Xv6-Kernel/kernel/fs.h:10-12 | writes to map and inode blocks change no block reference and no byte of any file |
| FsImage.Decoded | Xv6-Kernel/kernel/fs.h:31-55 | reading the map and inode blocks of an image gives back its free map and its inodes |
| Fs.Fs.Balloc | Xv6-Kernel/kernel/fs.c:64-86 | marks the first free block in its map block and zeroes it, owned by nobody; no other block changes; fails exactly on a full disk |
| Fs.Fs.Bfree | Xv6-Kernel/kernel/fs.c:89-103 | clears the bit in its map block and changes nothing else; fails exactly on a free block |
| Fs.Fs.Bmap | Xv6-Kernel/kernel/fs.c:377-405 | the block's address, allocating only what is missing, with no mapped byte of any file changed, exactly the blocks it logs, and no block marked that no file owns; panics only when no block is free |
| Fs.Fs.Readi | Xv6-Kernel/kernel/fs.c:455-477 | the requested slice of the contents clipped to the size, without allocating |
| Fs.Fs.Writei | Xv6-Kernel/kernel/fs.c:486-517 | replaces exactly the bytes written and extends the size; other files keep theirs; at most MAXOPBLOCKS blocks logged for a chunk, 7 with one free-map block; from a consistent image to a consistent image that differs in logged blocks only; panics only when no block is free |
| Fs.Fs.Iupdate | Xv6-Kernel/kernel/fs.c:221-237 | the inode decodes back from its slot of its block, the other slots decode as before, no other block changes, and every file keeps its contents |
| Fs.Fs.ReadInode | Xv6-Kernel/kernel/fs.c:289-313 | ilock reads the inode that iupdate last wrote; panics exactly on one without a type |
| Fs.Fs.FileWrite | Xv6-Kernel/kernel/file.c:148-175 | all of the data, or the chunks before the failing one, are in the file; each transaction keeps its budget and leads from a consistent image to the next; panics only when no block is free |
| Fs.SplicedTwice | Xv6-Kernel/kernel/file.c:155-174 | writing two pieces one after the other is writing their concatenation |
| Fs.Fs.Itrunc | Xv6-Kernel/kernel/fs.c:409-437 | frees exactly the blocks the inode owned, never a free one, and empties it, keeping type and links; other files keep their contents; only map blocks of freed blocks and the inode block change, from a consistent image to a consistent one |
| FsCrash.StepTracks | Xv6-Kernel/kernel/log.c:68-235 | every protocol step keeps the cache showing the image that the operations are heading for, but for the blocks still to be logged |
| FsCrash.RecoveredFileSystem | Xv6-Kernel/kernel/log.c:116-123 | in every run, recovery from a crash at any point yields a consistent file system with no lost block, namely the image of the finished operations at the last commit |
| FsCrash.FinishedOperationsSurvive | Xv6-Kernel/kernel/log.c:145-175 | once no operation is in progress and no commit runs, recovery would yield exactly the image those operations reached |
| FsCrash.WrittenBytesSurvive | Xv6-Kernel/kernel/fs.c:486-517 | after the operation of a writei has finished, the file decoded from the recovered disk holds the bytes written in the place asked for |
| FsCrash.LogTransaction | Xv6-Kernel/kernel/log.c:205-235 | an operation that logs all blocks of its transaction, in any order, is such a run, and the cache then shows the image of the transaction |
| Tree.LinkFileOk | Xv6-Kernel/kernel/sysfile.c:141-152 | one more name and one more link keep counts, names and tree |
| Tree.LinkDirOk | Xv6-Kernel/kernel/sysfile.c:270-279 | a new directory with its dots keeps counts, names and tree |
| Tree.UnlinkFileOk | Xv6-Kernel/kernel/sysfile.c:218-229 | removing a file's name keeps counts, names and tree; it had a link |
| Tree.UnlinkDirOk | Xv6-Kernel/kernel/sysfile.c:213-229 | an empty directory has exactly one link, and removing it keeps counts, names and tree |
| Tree.UnlinkedOk | Xv6-Kernel/kernel/fs.c:332-358 | a node without links is named by nobody and may be reused |
| Tree.ReachesRoot | Xv6-Kernel/kernel/sysfile.c:270-276 | from every linked directory ".." leads to the root |
| Tree.OneName | Xv6-Kernel/kernel/sysfile.c:270-279 | every linked directory but the root has exactly one name, in the directory its ".." names |
| Tree.FreshTree | Xv6-Kernel/mkfs/mkfs.c:118-129 | the tree mkfs makes satisfies the invariant |
| Dirs.Dirs.DirLookup | Xv6-Kernel/kernel/fs.c:529-553 | the first entry in use with the name |
| Dirs.Dirs.DirLink | Xv6-Kernel/kernel/fs.c:556-583 | adds the name in the first empty place exactly when it is not present |
| Dirs.Dirs.IsDirEmpty | Xv6-Kernel/kernel/sysfile.c:169-182 | nothing in use after the two dots |
| Dirs.EmptyHasNoNames | Xv6-Kernel/kernel/sysfile.c:169-182 | a directory counts as empty exactly when no name but the dots leads anywhere |
| Dirs.Dirs.Create | Xv6-Kernel/kernel/sysfile.c:241-284 | opens an existing file exactly when a file is asked for and the name is one, refuses exactly the other taken names, runs out exactly without a free inode, and otherwise makes an inode that the name then finds, keeping the tree invariant |
| Dirs.Dirs.Link | Xv6-Kernel/kernel/sysfile.c:118-166 | succeeds exactly for a non-directory and a new name; otherwise the count is back |
| Dirs.Dirs.Unlink | Xv6-Kernel/kernel/sysfile.c:184-239 | removes exactly the names that are no dots and no directory in use; the link-count panic is unreachable |
| Dirs.Dirs.Iput | Xv6-Kernel/kernel/fs.c:332-358 | frees the inode exactly when this is the last reference and it has no links |
| Dirs.Dirs.LinkThenUnlink | Xv6-Kernel/kernel/sysfile.c:118-239 | on a valid tree, linking a file and unlinking the new name goes through exactly when the link does, restores every link count, and leaves each name pointing where it did |
| Proc.StepKeepsInv | Xv6-Kernel/kernel/proc.c:325-433 | every step of fork, exit, wait, sleep, wakeup, kill and the scheduler keeps the invariant |
| Proc.NoLostChild | Xv6-Kernel/kernel/proc.c:389-433 | in every run, with wait_lock free, nobody sleeps in wait over a zombie child and every parent is alive |
| Proc.ReapedOnce | Xv6-Kernel/kernel/proc.c:342-417 | every exited process is a zombie or was reaped once, with the status it passed to exit |
| Proc.ReapedIsOffCpu | Xv6-Kernel/kernel/proc.c:402-418 | wait frees a child only after it has left its CPU and stack |
| ProcWait.KidsKept | Xv6-Kernel/kernel/proc.c:400-407 | every step keeps havekids equal to whether a child has been passed in the scan |
| ProcWait.WaitGivesUp | Xv6-Kernel/kernel/proc.c:424-431 | in every run, at the end of a scan wait returns -1 if and only if the process is killed or has no child, and otherwise goes to sleep |
| ProcWait.WaitResult | Xv6-Kernel/kernel/proc.c:409-428 | in every run wait returns a pid exactly when it reaps that child, and -1 only for want of children, after a kill, or when a zombie's status cannot be copied out |
| ProcWait.ReapedStatusIsExits | Xv6-Kernel/kernel/proc.c:342-417 | in every run the status wait hands out was passed to exit by the process of that pid |
| ProcWait.TakenIsForked | Xv6-Kernel/kernel/proc.c:273-321 | in every run a slot that is taken but not runnable is being set up by one fork in progress |
| ProcWait.ForkStartsChild | Xv6-Kernel/kernel/proc.c:311-319 | fork ends by making the child it set up runnable, with the forking process as parent |
| ProcWait.KilledIsAwake | Xv6-Kernel/kernel/proc.c:584-602 | kill marks the process, leaves it awake and touches no other |
| ProcWait.WakeupWakes | Xv6-Kernel/kernel/proc.c:565-578 | wakeup on a channel wakes those asleep on it and nobody asleep on another |
| Proc.NoDeadlock | Xv6-Kernel/kernel/proc.c:533-578 | the holder of any process lock can go on, and the holder of wait_lock can go on or waits for one that can |
| Proc.HolderLetsGo | Xv6-Kernel/kernel/proc.c:325-384 | every step of the wait_lock holder brings its release nearer |
| Pipe.FullAndEmpty | Xv6-Kernel/kernel/pipe.c:88-113 | the wrapped counters tell full from empty and keep the place in the ring |
| Pipe.StepKeepsInv | Xv6-Kernel/kernel/pipe.c:58-130 | every step of readers, writers, kills and closes keeps the invariant |
| Pipe.FirstInFirstOut | Xv6-Kernel/kernel/pipe.c:76-130 | in every run the bytes taken are a prefix of those put, at most PIPESIZE are under way, in order across wrap, and a reader gets consecutive ones |
| PipeCalls.WritersPutTheirSource | Xv6-Kernel/kernel/pipe.c:76-102 | in every run the bytes a call of pipewrite has put are the first ones of its source: exactly the first r when it returned r |
| PipeCalls.WriteEnds | Xv6-Kernel/kernel/pipe.c:98-102 | a call that leaves its loop has put all of its source and returns its length |
| PipeCalls.OneWriterInOrder | Xv6-Kernel/kernel/pipe.c:76-102 | with one writing process the bytes in the pipe are those of its calls, call after call |
| PipeCalls.WriteDecides | Xv6-Kernel/kernel/pipe.c:83-97 | a turn of pipewrite fails exactly on a closed read end or a kill, sleeps exactly over a full pipe, stops exactly at a byte it cannot read, and else puts the next byte |
| PipeCalls.ReadDecides | Xv6-Kernel/kernel/pipe.c:113-119 | piperead sleeps exactly over an empty pipe open for writing, and fails there exactly when killed |
| PipeCalls.CopyDecides | Xv6-Kernel/kernel/pipe.c:120-129 | piperead returns exactly with n bytes, an empty pipe or a failed copy, and no byte only at the end of file, a failed copy or n = 0 |
| Pipe.AsleepWriterMeansFull | Xv6-Kernel/kernel/pipe.c:88-99 | with the lock free a sleeping writer means a full pipe open for reading |
| Pipe.AsleepReaderMeansEmpty | Xv6-Kernel/kernel/pipe.c:113-119 | on runs without a stranding step a sleeping reader means an empty pipe open for writing |
| Pipe.ReadersKept | Xv6-Kernel/kernel/pipe.c:84-87 | a step keeps the rule for sleeping readers if and only if it is not an error return after bytes were put with a reader asleep |
| Pipe.StrandedReader | Xv6-Kernel/kernel/pipe.c:84-87 | a run in which a killed writer leaves a reader asleep over a byte |
| Virtio.DescriptorsConserved | Xv6-Kernel/kernel/virtio_disk.c:143-201 | free descriptors and three per request make up all NUM, so at most two requests are under way |
| Virtio.Disk.AllocDesc | Xv6-Kernel/kernel/virtio_disk.c:144-154 | takes the first free descriptor, -1 exactly when there is none |
| Virtio.Disk.FreeDesc | Xv6-Kernel/kernel/virtio_disk.c:157-170 | frees and clears the descriptor and wakes waiters; fails exactly on its two panics |
| Virtio.Disk.FreeChain | Xv6-Kernel/kernel/virtio_disk.c:173-185 | following the links frees just the request's three descriptors, without panic |
| Virtio.Disk.Alloc3 | Xv6-Kernel/kernel/virtio_disk.c:189-201 | three distinct free descriptors exactly when there are three, otherwise none taken |
| Virtio.Disk.Submit | Xv6-Kernel/kernel/virtio_disk.c:203-274 | waits exactly when fewer than three descriptors are free, otherwise queues a request for the block's two sectors, in the direction asked for, on a chain of its own |
| Virtio.SectorsApart | Xv6-Kernel/kernel/virtio_disk.c:206 | two blocks share a sector if and only if their numbers are 2^31 apart |
| Virtio.Disk.DeviceTake | Xv6-Kernel/kernel/virtio_disk.c:220-269 | the chain the device finds describes the submitted request, in submission order: a block of its buffer, to be filled exactly for a read, and its status byte |
| Virtio.Disk.DeviceFinish | Xv6-Kernel/kernel/virtio_disk.c:297-302 | a completion with any status is added to the used ring without overwriting an unseen one |
| Virtio.Disk.InterruptTurn | Xv6-Kernel/kernel/virtio_disk.c:300-312 | the next used entry names a request in progress with its buffer; it panics exactly when the device reported an error |
| Virtio.Disk.Interrupt | Xv6-Kernel/kernel/virtio_disk.c:282-315 | every completion in the ring is consumed and no other request changes; it panics exactly when one of them is an error |
| Virtio.Disk.Finish | Xv6-Kernel/kernel/virtio_disk.c:271-280 | a request returns exactly when the device finished it and the handler saw it; its descriptors are free again |
| Umalloc.FreedOrdered | Xv6-Kernel/user/umalloc.c:24-44 | insertion with coalescing keeps the list ordered, with no two blocks adjacent |
| Umalloc.FreedSum | Xv6-Kernel/user/umalloc.c:33-42 | coalescing conserves units |
| Umalloc.FreedLinked | Xv6-Kernel/user/umalloc.c:33-43 | free's pointer assignments build the list with the block inserted |
| Umalloc.Heap.Free | Xv6-Kernel/user/umalloc.c:24-44 | the block leaves the live ones and is inserted and coalesced; disjointness and conservation hold |
| Umalloc.Heap.MoreCore | Xv6-Kernel/user/umalloc.c:46-61 | fresh units join the list, or nothing changes when sbrk fails |
| Umalloc.Heap.Malloc | Xv6-Kernel/user/umalloc.c:63-90 | a block disjoint from all live ones, by next fit; morecore is called at most once, exactly when nothing fits; fails exactly when sbrk fails then |
| Grep.MatchHere | Xv6-Kernel/user/grep.c:83-94 | true exactly when some prefix of the text is in the language of the pattern |
| Grep.MatchStar | Xv6-Kernel/user/grep.c:97-104 | true exactly when some number of accepted characters can be skipped before a match |
| Grep.Match | Xv6-Kernel/user/grep.c:70-80 | true exactly when the text contains a match, at its start under a leading ^ |
| Grep.BeginsCons | Xv6-Kernel/user/grep.c:82-104 | a match is a match of the first item followed by a match of the rest |
| Grep.Run | Xv6-Kernel/user/grep.c:10-34 | the output depends on the input only, not on how the reads split it |
| Grep.WantedSplit | Xv6-Kernel/user/grep.c:17-33 | the matching lines are the printed ones and those of the unseen rest |
| Grep.AllPrinted | Xv6-Kernel/user/grep.c:17-33 | all matching lines are printed for every pattern if and only if every line has fewer than 1023 bytes before its newline and no NUL |
| Grep.OverlongLine | Xv6-Kernel/user/grep.c:17-20 | for an input whose first line does not fit the buffer, nothing is printed although that line matches the empty pattern |
| Grep.LineWithNul | Xv6-Kernel/user/grep.c:18-27 | the same for an input whose first line holds a NUL |
| Grep.StopsAtBadLine | Xv6-Kernel/user/grep.c:17-33 | the unseen rest has a complete line exactly when some line of the input is too long or holds a NUL |

## Left out

- Assembly, traps, boot, interrupt controller and console: hardware behaviour; the context switch is one step.
- Memory-model fences: sequential consistency is assumed, and each short spinlock section is one step.
- createbuf, closebuf, ringbufCleanup and the user-level ring table: they keep no invariant over the name table.
- RingMap.ProcessSpaceMapper: does not model the cleanup after a failed mapping, only that failure means no memory or no free slot.
- FastIpc.CountersAreSafe: is about the counters, not the bytes in the ring, because the returned address is always the start of the buffer.
- copyin, copyout and mymemmove: user copies are parameters or assumed to succeed; a copy that fails inside writei or readi is not modelled.
- Fs.Fs.Writei: does not model a failing user copy, which would leave a cached buffer changed but unlogged.
- Fs.Fs.Readi: does not model a failing user copy and its -1 either.
- Fs.Fs.ReadInode: is the copy that ilock makes; its sleep lock and valid flag are not modelled.
- FsCrash.RecoveredFileSystem: operations are any that lead from a consistent image to a consistent image and log what they change; that directory operations do so through writei, iupdate and itrunc is not spelt out.
- Fs.Fs.Balloc: returns 0 for its out-of-blocks panic; after that panic nothing is claimed about contents.
- Bio.Bcache.Bread: waiting for another holder's sleep lock is not modelled; the block's lock is free at the call.
- Bio.Bcache.Bget: models one device, ROOTDEV; buffers of device 0 are the unused ones.
- Bio.Bcache.Bunpin: is called, as in install_trans, on a buffer just written home; unpinning an unwritten block would lose it.
- Bio.Bcache.Brelse: the buffer was written or logged if it was changed, as fs.c does; changes released otherwise may vanish from the cache.
- Log.Log.Commit: others may hold buffers, of blocks that are neither logged nor in the log area (log_write pins the logged ones, and only log.c touches the log area), and there are enough buffers left, so that bread neither waits nor runs out; the same holds for WriteLog, InstallTrans and the last EndOp.
- Vm.Machine.Kfree: its address-range panic becomes a precondition; freeing a free page is not detected by the code either.
- Vm.Machine.MapPages: requires a size of at least one byte, as its callers do; the loop of the code does not end sensibly for zero.
- growproc, exec, uvminit, uvmclear and the kernel's own page table: more callers of the modelled operations.
- Umalloc.Heap.Malloc: takes sbrk's answer as a parameter and requires sizes that do not overflow.
- Proc.StepKeepsInv: any number of processes may run at once; process ids do not overflow; allocproc's memory failures, which panic in fork, are not steps.
- kill of pid 0 and the race between kill and sleep are steps of the machine, but nothing is claimed about a killed process exiting.
- Virtio.Disk.DeviceFinish: the device completes each request once; data transfer is not modelled.
- Virtio.Disk.Interrupt: the loop is run without further completions in between; those are InterruptTurn after DeviceFinish, in any order.
- Dirs.Dirs.Create: link counts are unbounded, and directories may grow without the MAXFILE limit; running out of inodes is a result, not a panic.
- Dirs.Dirs.Link: parents still have a link, and each call is one transaction; path walking (namex, skipelem) is not modelled, and Iput takes the reference count as a parameter.
- Pipe.StepKeepsInv: pipealloc's failure paths and the freeing of the pipe page are not modelled; an end is closed only when no call on it is in progress, as file reference counts ensure.
