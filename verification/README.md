# A verified model of xv6 for RISC-V

This project models the parts of xv6 whose correctness is hard to see from the code: the crash-safe
file system stack, page tables and page allocation, the sleep/wakeup protocol and its clients, the
virtio disk driver, and three user-level algorithms (`malloc`, the shell parser, `grep`). Operations
that the C code performs by updating memory are methods that update fields or arrays; each is proved
against a function of the old state or an outright property. Protocols between processes are state
machines whose steps are the statements between which other processes can run. The main results are
about every input, every run or every interleaving.

`dafny verify dfyconfig.toml` checks everything.

## How the parts fit

| files | subject | main results |
|---|---|---|
| CrashLog | redo log | a crash after any block write, and any number of crashes during recovery, leaves the old or the new state; runs with crashes equal serial runs |
| CrashSafe | the whole stack | from the mkfs image on, any run of transactions with crashes leaves a consistent file system with the files of the committed ones, and stops exactly where blocks or log run out |
| GroupCommit | concurrent transactions | reserved log space never runs out; exact condition for the `log_write` panic |
| Bcache, LogCache | buffer cache and the log over it | a least-recently-used ring; reads are the disk overlaid with the pinned blocks of the log; the block writes are those of CrashLog |
| FsDisk, Fs, FsOps, FileRuns | inodes, bitmap, block maps | every run of reads, writes and truncations behaves as on byte strings; every block in use has one owner |
| FileWrite, TightBudget | chunked writes | every transaction logs at most ten blocks; disks on which ten, and with a hole eleven, are logged |
| Mkfs | the initial image | the image satisfies the file system invariant; exact conditions on the input for its holes and for its failure |
| LinkCounts | directories | over every sequence of calls, names resolve as the calls say, link counts equal the number of names, and every inode in use has a name or a reference |
| PageTree, Vm, ProcMem, SysMem | page tables, page allocation, `fork`, all processes | the tree refines a flat map; pages are conserved on every failure path; in every run each page is free or held by one process |
| SleepWakeup, SleepLock, PipeFifo, ExitWait | sleeping and waking | no lost wakeup in any interleaving, nobody woken unasked, and what it means for each client |
| Virtqueue, DiskSleep | disk driver and device | rings are never overrun, buffers are released once; no process waits for the disk in vain |
| Umalloc, Shell, ShellGrammar, Grep | user programs | coalesced, conserved heap; the shell parser accepts exactly its grammar and returns exactly the trees it means; matcher equals its declarative meaning |

Conventions. A disk is a sequence of blocks and a crash lets a prefix of the block writes through.
In the file system a byte is a natural number below 256 and the disk formats are encoded byte by
byte. A run of the scheduler is any sequence of steps of any processes, each of which executes a
program: the lines of the C functions as a relation between places in the code. Where C code calls `panic`,
the model has either a precondition, or a result (`ok` is false) with the exact circumstances.
`sbrk`, `read`, the device, other processes and the contents of user memory are parameters.

## What the code does, where it may surprise

- `log_write` tests for a full log before it looks for the block in it, and it allows `log.size - 1`
  blocks (kernel/log.c:220), while `begin_op` reserves against `LOGSIZE` and `mkfs` makes a log of
  `LOGSIZE` blocks. Three operations that keep to the documented budget of ten blocks can panic.
  `GroupCommit.PanicExactly` gives the exact condition for every size of the log,
  `GroupCommit.SmallLogPanics` and `GroupCommit.FullLogPanics` give runs that reach the panic.
- There are as many buffers as `LOGSIZE`. A transaction that pins all of them leaves `commit` no buffer
  for the log blocks; `LogCache.Log.Commit` says exactly when, `LogCache.RunTransaction` reaches it
  from power-on. A log of `LOGSIZE` blocks, with its one slot fewer, just avoids this.
- The bound of ten blocks per transaction in `filewrite` needs files without holes
  (`FileWrite.OpFits`, `TightBudget.ElevenReached`).
- `mkfs` rounds the size of the root directory up even from a block boundary, which leaves a hole.
  By `Mkfs.MakeImage` this happens if and only if the entries fill whole blocks;
  `Mkfs.HoledImage` is such an image, with 64 entries.
- `growproc` computes the new size in 32 bits. A size that wraps around leaves the process as it is,
  and the call succeeds (`SysMem.ProcTable.GrowProc`).
- A process can have a removed directory as its current directory and create a file there. The file
  then has a link and no name; `LinkCounts.NewFileExactly` says exactly when,
  `LinkCounts.RemovedDirReached` is a run that gets there.
- `grep` stops at the first line that contains a NUL or does not fit its buffer; `Grep.GrepFile` is
  exact for all input.
- `pipewrite` in a killed process can return after storing bytes without a wakeup.
  `PipeFifo.OwingExactly` says exactly when, `PipeFifo.StrandedReader` is a run that leaves a reader
  asleep on a pipe that is not empty.
- `malloc` passes `nu * sizeof(Header)` through an `int`. `Umalloc.SbrkArgExact` says for which
  requests this is exact, `Umalloc.HugeRequestsAreNarrowed` what happens to others.
- `binit` leaves all buffers with device 0 and block 0, so the uniqueness of cached blocks is for
  devices other than 0.

## Model

| member | source | states |
|---|---|---|
| `CrashLog.CrashAtomicity` | kernel/log.c:68-123 | stopping commit() after any number of its block writes, then recovering through any number of further crashes inside recovery, always ends with an empty log and exactly the old or exactly the new home blocks; the new ones if and only if the header write reached the disk |
| `CrashLog.RunIsSerial` | kernel/log.c:178-203 | after any sequence of complete and crashed transactions the home blocks are those of applying, one after the other, exactly the transactions whose header was written |
| `CrashLog.RepeatedCrashes` | kernel/log.c:116-123 | recovery restarted after crashes at arbitrary points still ends in the committed state |
| `CrashLog.CommittedRecovery` | kernel/log.c:68-83 | recovery of a committed transaction, cut off anywhere, leaves a disk from which the same transaction is recovered |
| `CrashLog.CleanRecovery` | kernel/log.c:116-123 | recovery with nothing committed changes no home block, wherever it is cut off |
| `CrashLog.CrashBeforeCommit` | kernel/log.c:178-191 | before the header write no home block has changed and nothing is committed |
| `CrashLog.CrashWhileInstalling` | kernel/log.c:193-203 | between header write and header erasure the log holds the whole transaction, whatever part of it was copied home |
| `CrashLog.CompleteCommit` | kernel/log.c:193-203 | an uninterrupted commit leaves the new home blocks and an empty log |
| `CrashLog.EncodeDecode` | kernel/log.c:86-114 | the header block read back gives the block numbers written, over any previous contents |
| `LogCache.Log.constructor` | kernel/log.c:54-65 | at power-on nothing is cached, pinned or logged in memory, and reads return the disk |
| `LogCache.Log.LogWrite` | kernel/log.c:214-235 | accepts exactly when the log has room by both tests and an operation is outstanding; a block already logged is absorbed, a new one appended and its buffer pinned; neither reads nor the disk change |
| `LogCache.Log.WriteLog` | kernel/log.c:178-191 | issues exactly the writes of the cached blocks to the slots, in order; without other holders of buffers it runs out of them exactly if the log pins them all |
| `LogCache.Log.WriteHead` | kernel/log.c:102-114 | issues one header write that replaces count and numbers and keeps the rest of the block |
| `LogCache.Log.InstallTrans` | kernel/log.c:68-83 | issues exactly the writes of the slots to the home blocks, in order, and unpins every buffer it installs |
| `LogCache.Log.ReadHead` | kernel/log.c:86-97 | loads the block numbers the on-disk header names |
| `LogCache.Log.RecoverFromLog` | kernel/log.c:116-123 | issues exactly the recovery writes about which the crash lemmas speak, and at boot never runs out of buffers |
| `LogCache.Log.Commit` | kernel/log.c:193-203 | issues exactly the commit writes about which the crash lemmas speak; afterwards the disk holds what reads returned and nothing is pinned; with no other holders it succeeds if and only if the log does not pin all buffers |
| `LogCache.Log.Update` | kernel/log.c:205-235 | bread, change, log_write and brelse of a block: reads see the new contents, the disk does not, and the discipline is kept |
| `LogCache.Log.Bread` | kernel/bio.c:92-103 | returns a buffer with what reads return, and fails exactly if the block is not cached and all buffers are referenced |
| `LogCache.Log.Brelse` | kernel/bio.c:116-137 | a client that has logged or written its change never drops the last reference to a modified buffer |
| `LogCache.ReadsAreOverlay` | kernel/log.c:205-235 | what reads return is the disk overlaid with the pinned blocks and those still being changed |
| `LogCache.DirtyIsKept` | kernel/log.c:205-235 | a buffer that differs from the disk is pinned by the log or still being changed, so it is referenced |
| `LogCache.AllBusy` | kernel/bio.c:58-89 | when no client holds a buffer, all are in use if and only if the log pins as many blocks as there are buffers |
| `LogCache.RunTransaction` | kernel/log.c:178-235 | from power-on, over the buffer cache: every transaction that fits the log is logged block by block, and commit() then issues exactly the commit writes about which the crash lemmas speak, if and only if the transaction has fewer blocks than there are buffers |
| `LogCache.BuffersRunOut` | kernel/log.c:178-191 | with a log of more than LOGSIZE blocks there are transactions with as many blocks as buffers |
| `CrashSafe.RunTransactions` | kernel/log.c:68-203 | any sequence of transactions of file operations, each completed or stopped after any number of block writes of its commit and recovered through any number of crashes: the disk after each is that of its commit writes up to the stop and the recovery after it, and holds a consistent file system whose files are those of the transactions whose header was written, in order; the run stops only at an operation that needs more blocks than are free in the state reached, or a transaction that logs more than the log holds |
| `CrashSafe.Transact` | kernel/log.c:193-203 | one transaction: what its operations log, the order in which the log holds it, the disk that commit or recovery leaves, and all of its operations or none, exactly by whether the header write, which follows one write for each logged block, reached the disk |
| `CrashSafe.BootAndRun` | mkfs/mkfs.c:68-173 | the same from the image that mkfs makes; it has no image if and only if the blocks needed are not there, and an image with a hole if and only if the entries of the root directory fill whole blocks |
| `CrashSafe.LogIrrelevant` | kernel/fs.c:409-517 | whatever the log blocks hold, consistency and all files are the same |
| `CrashSafe.LoggedIs` | kernel/log.c:178-203 | logging the changed blocks with their contents asks the log for exactly the disk the operations see |
| `CrashSafe.NeverTooBig` | kernel/file.c:149-167 | a transaction of chunks of filewrite(), reads and truncations never logs more than the log holds if the log has room for one budget of MAXOPBLOCKS for each |
| `CrashSafe.SmallStep` | kernel/file.c:149-167 | each of these operations adds at most MAXOPBLOCKS blocks to the log |
| `GroupCommit.LogSafe` | kernel/log.c:126-175 | in every interleaving of processes executing begin_op(), log_write() and end_op() within their budget, logged blocks plus unspent budgets of outstanding operations are at most LOGSIZE, logged numbers are distinct, and committing implies that nothing is outstanding |
| `GroupCommit.IdleLog` | kernel/log.c:126-175 | with nothing outstanding or committing the log is empty and, with log.lock free, nobody sleeps in begin_op() |
| `GroupCommit.SleepersMustWait` | kernel/log.c:126-142 | with log.lock free, whoever sleeps in begin_op() faces a commit, or |blocks| + (outstanding + 1) * MAXOPBLOCKS > LOGSIZE |
| `GroupCommit.ActsExactly` | kernel/log.c:126-235 | in every run begin_op() adds an operation exactly if no commit is going on and |blocks| + (outstanding + 1) * MAXOPBLOCKS <= LOGSIZE, and sleeps otherwise; log_write() adds its block unless it is logged; end_op() takes the operation away and starts a commit exactly if it was the last; the commit empties the log |
| `GroupCommit.WakeupsSuffice` | kernel/log.c:146-175 | only the two updates that end_op() follows with wakeup() can let an operation begin |
| `GroupCommit.ActKeeps` | kernel/log.c:126-175 | beginning, writing, ending and finishing a commit each keep the log invariant |
| `GroupCommit.ClearKeeps` | kernel/log.c:193-203 | emptying the log without log.lock is invisible to begin_op(), because the committing flag is set |
| `GroupCommit.PanicExactly` | kernel/log.c:214-235 | for every size of the log, a write within budget panics if and only if the blocks fill the log on disk or number LOGSIZE; for a block not yet logged only the first can happen |
| `GroupCommit.FullLogPanics` | kernel/log.c:214-235 | a run of the three functions that ends where absorbing a block panics, in a log of more than LOGSIZE blocks |
| `GroupCommit.SmallLogPanics` | kernel/log.c:214-235 | for every log of at most LOGSIZE blocks, a run that ends where logging a new block within budget panics |
| `GroupCommit.BeginStep` | kernel/log.c:126-142 | three operations can begin, one after the other, on an empty log |
| `GroupCommit.FillStep` | kernel/log.c:214-235 | three operations within budget can log one block after the other |
| `GroupCommit.FillRun` | kernel/log.c:126-235 | a run of the code from the empty log to every stage of the filling log |
| `GroupCommit.PaysItsDebts` | kernel/log.c:126-175 | every instruction of the three functions keeps to the wakeup discipline: the two updates that can let an operation begin are followed by wakeup() before log.lock is released, and begin_op() sleeps only if it cannot begin |
| `GroupCommit.HolderGoesOn` | kernel/log.c:126-175 | the process that holds log.lock always has a next instruction, so the runs are not cut short |
| `Bcache.UnlinkRing` | kernel/bio.c:116-137 | the two stores that unlink a buffer leave a well-formed doubly linked ring without it |
| `Bcache.PushRing` | kernel/bio.c:116-137 | the four stores that push a buffer leave a well-formed ring with it in front |
| `Bcache.OneBuffer` | kernel/bio.c:58-89 | at most one buffer is for a block of a real device |
| `Bcache.DirtyInUse` | kernel/bio.c:116-151 | a buffer that differs from the disk is in use, unless its last reference was dropped with the change in it |
| `Bcache.RecycleOk` | kernel/bio.c:58-89 | recycling an idle buffer loses nothing a client could see |
| `Bcache.Bio.Init` | kernel/bio.c:36-53 | the ring holds exactly the NBUF buffers, last first |
| `Bcache.Bio.Bget` | kernel/bio.c:58-89 | returns the one buffer that caches the block, or of the idle ones that which brelse() left idle the longest time ago; fails exactly if the block is not cached and all buffers are in use |
| `Bcache.Bio.Bread` | kernel/bio.c:92-103 | the buffer holds the disk overlaid with pending changes, as a cacheless system would show, unless the block is loose; no other buffer changes |
| `Bcache.Bio.Bwrite` | kernel/bio.c:106-112 | the disk gets the buffer's data and nothing that clients see changes |
| `Bcache.Bio.Modify` | kernel/log.c:205-214 | a client that holds a buffer changes what everyone sees for its block, and the disk stays |
| `Bcache.Bio.Brelse` | kernel/bio.c:116-137 | drops a reference, which makes the block loose exactly if it was the last one to a modified buffer; an idle buffer moves to the front and the time is noted, the others keep their order |
| `Bcache.Bio.Bpin` | kernel/bio.c:139-144 | adds a reference and keeps the cache invariant |
| `Bcache.Bio.Bunpin` | kernel/bio.c:146-151 | drops a reference, with the same account of loose blocks |
| `FsDisk.InodeRoundTrip` | kernel/fs.h:32-39 | an inode written byte by byte reads back as itself |
| `FsDisk.InodeFormat` | kernel/fs.h:32-39 | the places of the fields of struct dinode in its 64 bytes |
| `FsDisk.DiskLayout` | kernel/fs.h:42-51 | inodes lie one after the other from inodestart on, and the bits of the blocks from bmapstart on |
| `FsDisk.InodePut` | kernel/fs.h:42-45 | storing one inode of a block leaves the others |
| `FsDisk.EntryPut` | kernel/fs.h:27-29 | storing one entry of an indirect block leaves the others |
| `FsDisk.MapBitPut` | kernel/fs.h:48-51 | setting or clearing a bitmap bit by byte arithmetic changes that bit only |
| `FsDisk.UsedSet` | kernel/fs.c:64-103 | on the whole disk, changing the bit of one block changes the bit of no other |
| `FsDisk.InoSet` | kernel/fs.c:221-237 | on the whole disk, storing one inode changes no other |
| `Fs.AllocateOk` | kernel/fs.c:64-86 | marking and zeroing a free block keeps the invariant and every file |
| `Fs.ReleaseOk` | kernel/fs.c:89-103 | freeing a block nothing links to keeps the invariant, and its bit was set |
| `Fs.LinkDirect` | kernel/fs.c:383-387 | a zeroed block in an empty direct slot changes no contents |
| `Fs.LinkIndirect` | kernel/fs.c:390-393 | a zeroed indirect block changes no contents |
| `Fs.WriteData` | kernel/fs.c:486-517 | writing a block of a file changes that part of that file and no other file |
| `Fs.DetachOk` | kernel/fs.c:409-437 | an inode without addresses affects no other file |
| `FsOps.FileSys.LogWrite` | kernel/log.c:205-235 | a changed block is on record as logged and no other block changes |
| `FsOps.FileSys.Balloc` | kernel/fs.c:64-86 | takes the lowest free block, zeroed, with no other effect; fails exactly when the bitmap is full |
| `FsOps.FileSys.Bfree` | kernel/fs.c:89-103 | clears exactly one bit, which is always set, so "freeing free block" cannot happen |
| `FsOps.FileSys.Bmap` | kernel/fs.c:377-405 | returns the block at this place of the file, the same as before if there was one; no file's contents change; the logged blocks are exactly the new blocks, their bitmap blocks and the indirect block |
| `FsOps.FileSys.Iupdate` | kernel/fs.c:221-237 | afterwards the inode on disk is the one in memory, and nothing else changed |
| `FsOps.FileSys.Readi` | kernel/fs.c:455-477 | returns the clipped slice of the file's bytes for every offset and count, across blocks and the direct/indirect boundary; without holes it changes nothing |
| `FsOps.FileSys.Writei` | kernel/fs.c:486-517 | refuses exactly as the source does; otherwise succeeds if and only if as many blocks are free as the file lacks in the range, with its indirect block; then splices the bytes at the offset, extends the size, changes no other file, takes exactly these blocks, lowest first, and logs exactly the inode block and what the touched blocks need |
| `FsOps.FileSys.Itrunc` | kernel/fs.c:409-437 | frees exactly the blocks of the inode, whatever its size; no other inode or file changes; logged are exactly the inode block and the bitmap blocks of what was freed |
| `FsOps.WriteConsistent` | kernel/fs.c:486-517 | a write without holes before leaves no file with holes after |
| `FileRuns.BlockOwnership` | kernel/fs.c:64-103 | set bits are exactly the metadata blocks and the blocks reachable from inodes; blocks of different inodes are disjoint |
| `FileRuns.BlocksDistinct` | kernel/fs.c:377-405 | no two places of a file share a block, and none is its indirect block |
| `FileRuns.OwnerReaches` | kernel/fs.c:377-405 | a block is reachable from an inode if and only if that inode owns it |
| `FileRuns.TruncFrees` | kernel/fs.c:409-437 | the bits cleared by itrunc() are exactly those of the blocks of its inode |
| `FileRuns.RunOp` | kernel/fs.c:409-517 | one read, write or truncation acts on the files as on byte sequences and returns what they give, logs and takes exactly what it must, and fails if and only if it needs more blocks than are free |
| `FileRuns.RunOps` | kernel/fs.c:377-517 | every sequence of reads, writes and truncations behaves as on plain byte sequences, logs exactly what its operations log, and stops only at an operation that needs more blocks than are free in the state reached |
| `FileRuns.ReadAfterWrite` | kernel/fs.c:455-517 | what an accepted write stores is what a read of the same place returns; bytes before it and other files read as before; a truncated file reads empty |
| `FileWrite.BudgetExact` | kernel/file.c:149-160 | the worst case of a chunk is within the budget if and only if its first block exists already, or it touches at most three blocks |
| `FileWrite.UnalignedMapped` | kernel/fs.c:486-517 | without holes the block of an unaligned offset exists already |
| `FileWrite.OpFits` | kernel/file.c:149-160 | under that condition, on every disk, what a chunk logs is at most MAXOPBLOCKS distinct blocks |
| `TightBudget.TenBlocks` | kernel/file.c:149-160 | a chunk of four blocks of which three and the indirect block are new, all under different bitmap blocks, logs ten |
| `TightBudget.ElevenBlocks` | kernel/file.c:149-160 | with a hole at its unaligned start it logs eleven |
| `TightBudget.TakesLowest` | kernel/fs.c:64-86 | the m blocks a write takes are the m lowest free blocks |
| `TightBudget.TenLogged` | kernel/file.c:149-167 | from any state whose four lowest free blocks are under different bitmap blocks, a chunk across the end of the direct blocks logs exactly ten |
| `TightBudget.ElevenLogged` | kernel/file.c:149-167 | with a hole and five such blocks it logs exactly eleven |
| `TightBudget.TenReached` | kernel/file.c:149-167 | a consistent state (the body builds it by mkfs, writei() and itrunc()) from which one chunk is written and logs exactly ten blocks: the inode block and what its blocks need |
| `TightBudget.ElevenReached` | kernel/file.c:149-167 | the same write where the root directory has the hole that mkfs leaves after eleven full blocks: the state is not consistent, and the write logs exactly eleven blocks |
| `TightBudget.HoledSpread` | mkfs/mkfs.c:163-168 | from that image, writei() and itrunc() reach a disk whose lowest free blocks are far apart; the hole is still there |
| `TightBudget.PutBlock` | kernel/fs.c:486-517 | a write of part of one new direct block takes exactly the lowest free block, with or without a hole elsewhere |
| `FileWrite.WriteOp` | kernel/file.c:162-167 | one begin_op/end_op section writes its chunk, logs exactly what it must and at most ten blocks; it fails if and only if more blocks are needed than free |
| `FileWrite.Write` | kernel/file.c:134-181 | the bytes appear at the file offset, which moves past them, chunk by chunk: the number of transactions is that of the chunks, each logs exactly what its chunk must, at most ten blocks; a short write happens only where writei() refuses, in a transaction that logs nothing, or where the next chunk needs more blocks than are free |
| `Mkfs.Image.constructor` | mkfs/mkfs.c:93-117 | the empty image satisfies the invariant as if the bitmap were written |
| `Mkfs.Image.Ialloc` | mkfs/mkfs.c:220-232 | the next inode, empty with one link; no other inode changes |
| `Mkfs.Image.Winode` | mkfs/mkfs.c:184-196 | stores one inode and no other |
| `Mkfs.Image.Iappend` | mkfs/mkfs.c:252-294 | appends exactly the bytes to the file, through the indirect block where needed; every file keeps exactly the blocks its size asks for; takes exactly the blocks this needs and fails if and only if they are not there |
| `Mkfs.Image.FixRoot` | mkfs/mkfs.c:163-168 | the rounded root directory has a hole if and only if its size was a block multiple |
| `Mkfs.Image.Balloc` | mkfs/mkfs.c:234-248 | the bitmap written last makes the image a consistent file system whose blocks in use are exactly those handed out |
| `Mkfs.MakeImage` | mkfs/mkfs.c:68-173 | the whole program: the image holds the super block, the entries and the contents of all files with their types and links, every file has exactly the blocks it needs, every block in use has one owner, the log is empty; it is made if and only if the blocks needed exist and one bitmap block covers them; it is a consistent file system if and only if the entries do not end on a block boundary |
| `Mkfs.HoledImage` | mkfs/mkfs.c:163-168 | with xv6's own geometry and 64 entries the image has a hole |
| `Mkfs.SnugAt` | mkfs/mkfs.c:262-279 | at the end of a file the next block exists already if and only if the end is not on a block boundary, and the indirect block if and only if the file is longer than its direct blocks |
| `Mkfs.BitmapBytes` | mkfs/mkfs.c:234-248 | the byte loop sets exactly the first bits |
| `LinkCounts.NoFreeNamed` | kernel/sysfile.c:119-284 | no entry of a directory that has not been removed names a free inode |
| `LinkCounts.NewDirOk` | kernel/sysfile.c:241-284 | making a directory keeps every count right: the parent gains a link for "..", the directory none for "." |
| `LinkCounts.EmptyOneLink` | kernel/sysfile.c:184-239 | an empty directory has exactly one link |
| `LinkCounts.ParentLives` | kernel/sysfile.c:184-239 | the parent of a removed directory keeps a link, and is the directory it is removed from |
| `LinkCounts.RemoveDirOk` | kernel/sysfile.c:184-239 | removing an empty directory keeps every count right and leaves it without links |
| `LinkCounts.UnlinkFileOk` | kernel/sysfile.c:184-239 | removing a name of a file keeps every count right |
| `LinkCounts.NewLinkOk` | kernel/sysfile.c:119-166 | another name for a file keeps every count right |
| `LinkCounts.NewFileOk` | kernel/sysfile.c:241-284 | a new file or device keeps every count right |
| `LinkCounts.ReapOk` | kernel/fs.c:332-358 | freeing an inode without links leaves no entry that names it |
| `LinkCounts.DirLookup` | kernel/fs.c:529-553 | the first used entry with the name, or none exists |
| `LinkCounts.DirLink` | kernel/fs.c:556-583 | refuses exactly the names present; otherwise fills the first empty slot or appends, after which the name is found with the inode and every other name as before |
| `LinkCounts.LinkedNames` | kernel/fs.c:556-583 | a new entry is found under its name, all other names as before, and names stay unique |
| `LinkCounts.ClearedNames` | kernel/sysfile.c:214-216 | a cleared entry's name is absent, all other names are found as before |
| `LinkCounts.IsDirEmpty` | kernel/sysfile.c:169-182 | true exactly if no entry after "." and ".." is in use |
| `LinkCounts.FileTree.Create` | kernel/sysfile.c:241-284 | makes an inode exactly if the name is absent and an inode is free, otherwise changes nothing; afterwards the name is found with the new inode and every other name as before, and a new directory has exactly its dots; for a name that exists it returns the inode if a file is asked for and it is a file or device, else 0; the invariant is kept |
| `LinkCounts.FileTree.Ialloc` | kernel/fs.c:195-215 | the first free inode, or none is free |
| `LinkCounts.FileTree.Link` | kernel/sysfile.c:119-166 | succeeds exactly for a non-directory and an absent name, after which the name is found with the inode and every other name as before; a failed call undoes its count; the invariant is kept |
| `LinkCounts.FileTree.Unlink` | kernel/sysfile.c:184-239 | fails exactly for dots, absent names and non-empty directories, changing nothing; otherwise the name is absent and every other name is found as before, and the inode is freed exactly if no name and no reference is left; "unlink: nlink < 1" cannot happen |
| `LinkCounts.FileTree.Iput` | kernel/fs.c:332-358 | drops a reference, and frees the inode exactly if it was the last one and no name is left; the invariant is kept |
| `LinkCounts.FileTree.Iget` | kernel/fs.c:242-285 | one more reference, and nothing else |
| `LinkCounts.DroppedOk` | kernel/fs.c:332-358 | freeing an inode when the last reference goes and no name is left keeps the counts and leaves no inode without name and reference |
| `LinkCounts.DirGone` | kernel/sysfile.c:184-239 | removing an empty directory and dropping its reference keeps counts and references right |
| `LinkCounts.FileGone` | kernel/sysfile.c:184-239 | removing a name of a file and dropping its reference keeps counts and references right |
| `LinkCounts.NewFileExactly` | kernel/sysfile.c:241-284 | a file made in a directory keeps the counts right if and only if the directory has not been removed |
| `LinkCounts.RemovedDirReached` | kernel/sysfile.c:184-284 | a sequence of calls after which a removed directory is still referenced, and a new file in it would have a link and no name |
| `LinkCounts.RunCalls` | kernel/sysfile.c:119-284 | over every sequence of calls from a lone root directory, inodes, references and results are those of the calls one after the other, and after each call every link count is the number of names other than "." in directories not removed, no directory has a name twice, no free inode is named or referenced, and every inode in use has a name or a reference |
| `PageTree.PxInjective` | kernel/riscv.h:351-354 | the three table indices determine the virtual page |
| `PageTree.PokeLeaf` | kernel/vm.c:137-187 | storing a leaf entry changes the translation of one page and of no other |
| `PageTree.AddMid` | kernel/vm.c:80-98 | a blank table below the root changes no translation |
| `PageTree.AddLow` | kernel/vm.c:80-98 | a blank level-0 table changes no translation |
| `PageTree.TreeFrame` | kernel/vm.c:80-98 | memory outside the table pages is irrelevant to translation |
| `Vm.Kernel.Kalloc` | kernel/kalloc.c:68-82 | takes the head of the free list, or returns 0 exactly if it is empty |
| `Vm.Kernel.Kfree` | kernel/kalloc.c:46-63 | puts the page at the head of the list and touches no other page |
| `Vm.Kernel.Walk` | kernel/vm.c:80-98 | finds the level-0 table of the page; with alloc it adds at most two tables, changes no translation, and fails only with an empty free list |
| `Vm.Kernel.MapPages` | kernel/vm.c:137-160 | on success the flat map gains exactly the range; on failure a prefix of it, and the free list is empty; every other translation is kept |
| `Vm.Kernel.Unmap` | kernel/vm.c:165-187 | the flat map loses exactly the range; freed are exactly its frames, if asked |
| `Vm.Kernel.Uvmalloc` | kernel/vm.c:220-244 | on success new zeroed frames at exactly the new pages; on failure the old translations, all frames free again, and fewer than three free pages per new page at the start |
| `Vm.Kernel.Uvmdealloc` | kernel/vm.c:250-262 | removes and frees exactly the pages between the two rounded sizes |
| `Vm.Kernel.Uvmcopy` | kernel/vm.c:300-328 | on success the new space has copies of all user pages with the same flags in frames of its own; on failure its translations are as before and all frames are free again |
| `Vm.Kernel.FreeWalk` | kernel/vm.c:266-282 | frees every table page of the subtree exactly once and touches nothing else |
| `Vm.Kernel.Uvmcreate` | kernel/vm.c:191-200 | an empty space from one page, or 0 exactly if no page is free |
| `Vm.Kernel.Uvmfree` | kernel/vm.c:286-292 | frees exactly the user frames and the table pages |
| `Vm.RunUndone` | kernel/vm.c:220-328 | unmapping a run of added pages restores the translations and the page account of its start |
| `ProcMem.ProcPagetable` | kernel/proc.c:171-200 | a space with trampoline and trapframe only, or every page it took is free again |
| `ProcMem.ProcFreePagetable` | kernel/proc.c:204-210 | frees user frames and tables but neither trampoline nor trapframe |
| `ProcMem.FreeProc` | kernel/proc.c:150-167 | gives back exactly the pages a slot holds, whether its creation finished or not |
| `ProcMem.AllocProc` | kernel/proc.c:104-145 | a trapframe and an empty space, or nothing |
| `ProcMem.Fork` | kernel/proc.c:272-319 | a failed fork leaves the set of free pages unchanged and had fewer than 3n+6 of them for n user pages; a successful one gives the child exactly the pages taken, a copy of the parent's memory with the same permissions and its registers with a0 cleared; the parent keeps its memory |
| `SysMem.FreeRange` | kernel/kalloc.c:33-40 | puts exactly the whole pages of the range on the free list, each once |
| `SysMem.ProcTable.constructor` | kernel/kalloc.c:26-40 | after boot no slot holds a page and every page of the range is free |
| `SysMem.ProcTable.Create` | kernel/proc.c:104-145 | the first unused slot gets a process, or there is no unused slot, or at most five pages were free; every process keeps its memory and every page is free or held by one process |
| `SysMem.ProcTable.ForkFrom` | kernel/proc.c:272-319 | the same for fork() into the first unused slot, with the copy of the parent's memory; a failed call changes no slot |
| `SysMem.ProcTable.Free` | kernel/proc.c:150-167 | the slot is unused again and its pages are free; the invariant of all processes is kept |
| `SysMem.ProcTable.GrowProc` | kernel/proc.c:252-268 | grows by zeroed pages, shrinks by freeing pages, or fails for want of pages leaving the memory as it was; the size is computed in 32 bits, and one that wraps around changes nothing; the invariant of all processes is kept |
| `SysMem.RunKeeps` | kernel/proc.c:104-319 | in every state of every run of these operations each process owns its tables, frames and trapframe, no two share a page, and every page is free or held |
| `SysMem.StepKeeps` | kernel/proc.c:104-319 | every operation, successful or not, keeps this for all slots |
| `SysMem.ExchangeKeeps` | kernel/proc.c:104-319 | pages that go between the free list and one slot leave every other process as it is and the account complete |
| `SysMem.EveryPageOnce` | kernel/kalloc.c:46-82 | the pages of a process are its trapframe, its tables and its user frames, all different, none of them free and none of another process |
| `SysMem.OthersUntouched` | kernel/proc.c:104-319 | an operation on one slot changes no page of any other process |
| `SleepWakeup.NoLostWakeup` | kernel/proc.c:528-573 | in every interleaving of processes executing any program with sleep(), wakeup() and kill(), if its instructions keep to a discipline of waking what they make ready, then with lk free nobody sleeps on a channel whose condition holds |
| `SleepWakeup.SleepersOwed` | kernel/proc.c:528-597 | in every run of every program, a process asleep on a channel whose condition holds is owed a wakeup: the condition became true, or was true when it went to sleep, and nobody called wakeup() since |
| `SleepWakeup.StateChange` | kernel/proc.c:528-597 | a step changes whether a process sleeps only if it is its own way into or out of sleep(), kill() of it, or a wakeup() of the channel it sleeps on; wakeup() of another channel leaves it asleep |
| `SleepWakeup.ResumeIsWoken` | kernel/proc.c:528-597 | in every run of every program a process returns from sleep(c) only if, since it went to sleep, a wakeup(c) or a kill() has woken it |
| `SleepWakeup.StepKeeps` | kernel/proc.c:528-597 | every single step of sleep(), wakeup() and kill() keeps the protocol invariant, also between the release of lk and the switch |
| `SleepLock.LockSafe` | kernel/sleeplock.c:21-41 | in every run of acquiresleep() and releasesleep() the lock is locked exactly while it has an owner, and every process is where the code says |
| `SleepLock.SleeperMeansLocked` | kernel/sleeplock.c:21-41 | with the inner lock free, a process asleep in acquiresleep() implies that another process is between the two functions and owns the lock |
| `SleepLock.MutualExclusion` | kernel/sleeplock.c:21-41 | at most one process at a time is between acquiresleep() and releasesleep() |
| `SleepLock.PaysItsDebts` | kernel/sleeplock.c:21-41 | every instruction keeps to the wakeup discipline: clearing locked is followed by wakeup(), and acquiresleep() sleeps only while the lock is locked |
| `SleepLock.HolderGoesOn` | kernel/sleeplock.c:21-41 | the process that holds the inner lock always has a next instruction |
| `PipeFifo.Counters` | kernel/pipe.c:76-130 | the 32-bit counters tell empty and full apart and address the right slots however often they have wrapped |
| `PipeFifo.PutKeeps` | kernel/pipe.c:91-97 | a byte stored overwrites nothing still to be read |
| `PipeFifo.GetKeeps` | kernel/pipe.c:120-126 | the byte taken is the oldest one not yet taken |
| `PipeFifo.FifoAlways` | kernel/pipe.c:58-130 | in every interleaving the bytes taken out are a prefix of those put in and the counters differ by at most PIPESIZE modulo 2^32 |
| `PipeFifo.PipeSleepers` | kernel/pipe.c:58-130 | with pi->lock free a sleeping reader means an empty pipe with writers, a sleeping writer a full pipe with readers, in every run of the three functions in which no killed writer has left owing a wakeup |
| `PipeFifo.OwingExactly` | kernel/pipe.c:76-103 | a process gives up pi->lock with the readers a wakeup short if and only if it is a writer that stops at the test for killed and has put a byte into an empty pipe with writers since it got the lock |
| `PipeFifo.PaysItsDebts` | kernel/pipe.c:58-130 | every instruction keeps to the wakeup discipline except exactly that exit |
| `PipeFifo.StrandedReader` | kernel/pipe.c:84-87 | a run that ends with pi->lock free, a reader asleep and a byte in the pipe |
| `PipeFifo.HolderGoesOn` | kernel/pipe.c:58-130 | the process that holds pi->lock always has a next instruction that is not that exit |
| `PipeFifo.Call.PipeWrite` | kernel/pipe.c:76-103 | as instructions of the same program: all bytes go in, in order, unless a copy fails, the process is killed or no reader is left, with the number written as result; it is found killed exactly at the first test that can find it so, of one before each byte and one before each sleep; it sleeps only on a full pipe with readers |
| `PipeFifo.Call.PipeRead` | kernel/pipe.c:105-130 | as instructions of the same program: returns the oldest bytes, short only if the pipe is then empty or a copy fails, which loses one byte; -1 exactly at the first test before a sleep that finds it killed; it sleeps only on an empty pipe with writers |
| `PipeFifo.Call.PipeClose` | kernel/pipe.c:58-74 | closes one end, keeps the contents, and frees the pipe exactly if both ends are closed |
| `ExitWait.TreeAlways` | kernel/proc.c:272-428 | in every interleaving of fork, exit and wait the process tree is in order: parents are live and older, pids are unique and increasing, no pid is reaped twice |
| `ExitWait.ActsExactly` | kernel/proc.c:272-428 | in every run fork() takes an unused slot with the next pid, makes the caller its parent and starts it, or gives the slot back; exit() gives the children to init one by one and becomes a zombie when it has none; wait() frees a zombie child of the caller; nothing else changes a slot |
| `ExitWait.WaitersHaveNoZombies` | kernel/proc.c:339-428 | with wait_lock free no process asleep in wait() has a zombie child |
| `ExitWait.PaysItsDebts` | kernel/proc.c:272-428 | every instruction keeps to the wakeup discipline: init is woken after each child it gets, the parent before the process becomes a zombie, and wait() sleeps only without zombie children |
| `ExitWait.HolderGoesOn` | kernel/proc.c:272-428 | the process that holds wait_lock always has a next instruction |
| `ExitWait.ParentsLive` | kernel/proc.c:323-428 | no parent pointer names a zombie or unused slot, and no two wait() calls return the same child |
| `ExitWait.ReachesInit` | kernel/proc.c:323-334 | following parents strictly decreases the pid and ends at init |
| `ExitWait.ActKeeps` | kernel/proc.c:272-428 | every update of the process table keeps the tree in order |
| `ExitWait.NewlyReady` | kernel/proc.c:323-379 | only passing a zombie to init and dying give somebody a zombie child, and these are the processes that exit() wakes |
| `ExitWait.LocklessSilent` | kernel/proc.c:272-319 | updates made without wait_lock give nobody a zombie child |
| `ExitWait.Call.GiveToInit` | kernel/proc.c:323-334 | as instructions of the same program: exactly the children of the process get init as parent |
| `ExitWait.Call.Exit` | kernel/proc.c:339-379 | as instructions of the same program: the process is a zombie without children, and init has them |
| `ExitWait.Call.Wait` | kernel/proc.c:383-428 | as instructions of the same program: frees one zombie child and returns its pid; -1 only without children, at the first test that finds it killed, or if the exit status cannot be copied, which leaves the zombie; it sleeps only with children none of which is a zombie |
| `Virtqueue.RunOk` | kernel/virtio_disk.c:144-315 | in every interleaving of driver, interrupt handler and a device completing in any order the protocol invariant holds |
| `Virtqueue.ReleasedOnce` | kernel/virtio_disk.c:203-315 | each request's buffer is released at most once and only after its own completion; descriptors are free or in exactly one three-element chain |
| `Virtqueue.IndicesMean` | kernel/virtio_disk.c:255-315 | the 16-bit indices tell whether entries are pending and where the next goes, across wrap-around |
| `Virtqueue.AvailRoom` | kernel/virtio_disk.c:255-265 | a request with its own head descriptor always finds an avail slot that is not pending |
| `Virtqueue.UsedRoom` | kernel/virtio_disk.c:282-315 | a completion always finds a used slot the driver has already seen |
| `Virtqueue.SubmitOk` | kernel/virtio_disk.c:203-269 | submitting overwrites no pending entry |
| `Virtqueue.CompleteOk` | kernel/virtio_disk.c:282-315 | completing, in any order, overwrites no entry the driver has not seen |
| `Virtqueue.IntrOk` | kernel/virtio_disk.c:282-315 | the handler releases the busy buffer of a request that is complete and was not released before |
| `Virtqueue.FinishOk` | kernel/virtio_disk.c:271-280 | freeing a finished chain frees its three descriptors and no others |
| `Virtqueue.Driver.AllocDesc` | kernel/virtio_disk.c:144-154 | the lowest free descriptor, or none is free |
| `Virtqueue.Driver.FreeDesc` | kernel/virtio_disk.c:157-170 | marks one descriptor free and clears it |
| `Virtqueue.Driver.Alloc3` | kernel/virtio_disk.c:189-201 | three different free descriptors, or fewer than three are free and all stay free |
| `Virtqueue.Driver.SubmitRequest` | kernel/virtio_disk.c:203-269 | the code up to the wait performs exactly one submit step of the protocol, filling three free descriptors, info and the avail ring and nothing else, or has to sleep because fewer than three descriptors are free |
| `Virtqueue.Driver.FinishRequest` | kernel/virtio_disk.c:271-280 | the code after the wait performs exactly one finish step: the three descriptors are free, info is cleared, nothing else changes |
| `Virtqueue.Driver.FreeChain` | kernel/virtio_disk.c:173-185 | following the links frees exactly the chain |
| `Virtqueue.Driver.Interrupt` | kernel/virtio_disk.c:282-315 | exactly the buffers of the used entries not yet seen are released and the handler catches up with the device; descriptors, info, rings and requests stay as they are; each round is one step of the protocol |
| `DiskSleep.DiskSafe` | kernel/virtio_disk.c:144-315 | in every interleaving of virtio_disk_rw(), the interrupt handler and the device, with sleep() and wakeup(), each descriptor is free or of exactly one process, no two processes use a buffer, and a buffer with the device has its process waiting |
| `DiskSleep.SleepersMustWait` | kernel/virtio_disk.c:203-315 | with disk.vdisk_lock free, a process asleep for descriptors faces fewer than three free ones, and one asleep for its buffer has a request that the interrupt handler has not seen |
| `DiskSleep.SomeoneWillFree` | kernel/virtio_disk.c:203-280 | with disk.vdisk_lock free and a process asleep for descriptors, another process has a request, and it is awake or its request is not yet seen by the interrupt handler |
| `DiskSleep.ReturnsWhenDone` | kernel/virtio_disk.c:203-315 | in every run virtio_disk_rw() goes on from its wait only if, since it submitted its request with three different descriptors, the interrupt handler has taken its buffer, which the device had finished; then it frees these descriptors |
| `DiskSleep.AllocExactly` | kernel/virtio_disk.c:144-201 | in every run alloc3_desc() takes the lowest free descriptor each time, and without a third one gives back what it has and sleeps |
| `DiskSleep.PaysItsDebts` | kernel/virtio_disk.c:144-315 | every instruction keeps to the wakeup discipline: freeing a descriptor and clearing b->disk are followed by wakeup(), and a failed alloc3_desc() sleeps with fewer than three descriptors free, also after giving back what it had |
| `DiskSleep.HolderGoesOn` | kernel/virtio_disk.c:144-315 | the process that holds disk.vdisk_lock always has a next instruction |
| `Umalloc.RunsKeepArena` | user/umalloc.c:24-90 | over every run of malloc() and free() with correct frees, the free list is address-ordered and coalesced, and every unit sbrk granted is in exactly one block, free or live |
| `Umalloc.StepKeeps` | user/umalloc.c:24-90 | each call keeps that, changes the live blocks by exactly its block, and a block handed out overlaps no live one |
| `Umalloc.InsertCovers` | user/umalloc.c:24-44 | free() makes exactly the units of its block free |
| `Umalloc.InsertWellFormed` | user/umalloc.c:24-44 | after free() the list is still ordered, disjoint and coalesced |
| `Umalloc.TakeCovers` | user/umalloc.c:63-90 | malloc() removes exactly the units it hands out |
| `Umalloc.FreeLinks` | user/umalloc.c:24-44 | the header stores of free(), in all four merge cases, link the coalesced list |
| `Umalloc.TakeLinks` | user/umalloc.c:63-90 | the header stores of malloc() link the shortened list |
| `Umalloc.FreeOwned` | user/umalloc.c:24-44 | free() of a live or newly granted block conserves units |
| `Umalloc.TakeOwned` | user/umalloc.c:63-90 | malloc() conserves units |
| `Umalloc.FullCircle` | user/umalloc.c:63-90 | a walk back at freep has seen every block |
| `Umalloc.SbrkArgExact` | user/umalloc.c:46-61 | sbrk() is asked for the bytes the new header claims if and only if there are fewer than 2^27 units |
| `Umalloc.HugeRequestsAreNarrowed` | user/umalloc.c:46-61 | malloc(2^31) asks sbrk() to shrink memory, malloc(2^32-1) for one header |
| `Umalloc.Heap.Search` | user/umalloc.c:24-44 | the search of free() terminates from any freep, at the last block below the one freed |
| `Umalloc.Heap.Free` | user/umalloc.c:24-44 | the heap afterwards is the old list with the block merged in: exactly its units become free, and freep is the last block below it |
| `Umalloc.Heap.MoreCore` | user/umalloc.c:46-61 | calls sbrk() once; returns 0 exactly if it fails, otherwise there is a block large enough |
| `Umalloc.Heap.Scan` | user/umalloc.c:63-90 | terminates; finds the next fit from freep, or no block is large enough |
| `Umalloc.Heap.Malloc` | user/umalloc.c:63-90 | calls sbrk() at most once and exactly when no block is large enough; returns 0 if and only if that fails; otherwise hands out the tail of the next fit, and exactly these units stop being free |
| `ShellGrammar.ParsesAll` | user/sh.c:327-446 | every line of the grammar, however it is laid out with white space, is parsed to the tree it means: simple commands with redirections before, between and after their words (the first innermost), blocks, pipelines, lists and background commands |
| `ShellGrammar.ParsesOnly` | user/sh.c:327-446 | whatever the parser accepts is a line of the grammar laid out with white space, and the tree is what that line means; so all else is a panic |
| `ShellGrammar.WordsRead` | user/sh.c:415-446 | the words of a simple command and the redirections behind each are read in order, whatever was read before them |
| `ShellGrammar.RedirsRead` | user/sh.c:374-397 | redirections are read in order, each with its own mode and file |
| `ShellGrammar.LaidOut` | user/sh.c:265-308 | tokens laid out with white space, at least where two of them would merge, are what gettoken() returns one after the other |
| `ShellGrammar.LayoutOf` | user/sh.c:265-308 | every text is such a layout of the tokens gettoken() returns |
| `ShellGrammar.RoundTrip` | user/sh.c:327-446 | parsing the printed form of any well-formed command tree gives that tree back |
| `Shell.LineSpans` | user/sh.c:344-446 | the words of any parsed line are non-empty spans of word characters, each followed by a character that is no part of a word |
| `Shell.LineApart` | user/sh.c:344-446 | no two words or file names of a parsed line share a character, and none occurs twice in the tree |
| `Shell.ReadsBack` | user/sh.c:449-493 | once the ends are overwritten by NUL, the string at each word's start is exactly that word |
| `Shell.GetToken` | user/sh.c:265-308 | the loops find the token of the grammar and stop behind the following space |
| `Shell.Peek` | user/sh.c:310-320 | the cursor moves to the next non-space, and the answer is whether it is one of the characters |
| `Shell.RunLine` | user/sh.c:344-359 | the parser terminates on every string and computes the parse about which ShellGrammar speaks |
| `Shell.RunPipe` | user/sh.c:361-372 | likewise for pipelines |
| `Shell.RunRedirs` | user/sh.c:374-397 | likewise for redirections, a missing file name being a panic |
| `Shell.RunBlock` | user/sh.c:399-413 | likewise for parenthesised blocks, a missing parenthesis being a panic |
| `Shell.RunExec` | user/sh.c:415-446 | computes the parse about which ShellGrammar speaks: the words of a simple command in order, with the redirections before, between and after them; too many words are a panic |
| `Shell.NulTerminate` | user/sh.c:449-493 | exactly the ends of words and file names become NUL |
| `Shell.ReadCommand` | user/sh.c:327-342 | after parsing and terminating in place, every argument and file name reads back as exactly what was typed |
| `Grep.Match` | user/grep.c:70-80 | true if and only if the pattern occurs in the text, by the declarative meaning of ^ . * $ |
| `Grep.MatchHere` | user/grep.c:83-94 | true if and only if some prefix of the text is in the pattern's language, the whole text before a final $ |
| `Grep.MatchStar` | user/grep.c:97-104 | true if and only if some number of hits is followed by a match of the rest |
| `Grep.HereStar` | user/grep.c:97-104 | the meaning of a star as an iteration agrees with its meaning as a language |
| `Grep.MatchingSplit` | user/grep.c:10-34 | the output for whole lines followed by more text is the concatenation of the outputs |
| `Grep.ScanLines` | user/grep.c:20-28 | the inner loop outputs exactly the matching lines of the buffer up to the first NUL and leaves the rest of it as it was |
| `Grep.Round` | user/grep.c:17-33 | one read() outputs exactly the lines it completes and carries the rest over |
| `Grep.GrepFile` | user/grep.c:10-34 | for all input, however read() splits it, the output is exactly the newline-terminated lines in which the pattern occurs, up to the first line that contains a NUL or does not fit the buffer; without such a line it is that of the whole input |
| `Grep.AllReached` | user/grep.c:10-34 | if no line contains a NUL or is too long, nothing is left out |

## Left out

- Boot, traps, assembly, console, UART, PLIC and printf: device registers and register saving.
- Memory ordering, TLB flushes and spinlocks: steps are interleaved with sequential consistency and lock operations are atomic.
- The scheduler and fairness: a run is any interleaving, so nothing is said about progress.
- `walkaddr`, `copyin`, `copyout`, `copyinstr`, `uvminit` with `userinit`, `uvmclear` and the kernel page table: they would only add easy members over the page-table refinement.
- `exec`, system call argument handling and the small user programs: plumbing over the modelled operations.
- Path resolution (`namex`, `skipelem`) and the 14-character limit of names: operations get the directory, which has not been removed.
- The slots of the inode table and inode locks (`ilock`), and the file table (`filealloc`, `filedup`, `fileclose`): easy invariants; references to inodes are counted in LinkCounts.
- Buffer sleep-locks: a client of the cache holds its buffer by its reference.
- The group of operations in one transaction: `CrashSafe` runs the operations of a transaction one after the other, while `GroupCommit` is about their concurrency.
- Data, sector numbers and status bytes of disk requests, and the set-up of the device.
- `runcmd` and the prompt of the shell.
- Link counts and pids are unbounded; 16-bit and 32-bit overflow of these is not modelled.
- `sys_open`, `sys_mkdir`, `sys_mknod` and `sys_chdir`: thin callers of `create` and path lookup.
- Vm.Kernel.Walk: addresses of MAXVA or more, a panic in the source, are excluded; so are remapping and unmapping what is not mapped.
- Vm.Kernel.Uvmalloc: the bound on free pages in the failing case is not the least one, because pages can share tables.
- FsOps.FileSys.Readi: copies to user memory succeed; a hole is read as zeros and may get a block, as in the source; the exact set of logged blocks is stated for `Writei` and `Itrunc` only.
- FsOps.FileSys.Writei: copies from user memory succeed; after a fault the source releases a buffer that may be partly changed without logging it, which is the loose block of `Bcache`.
- FsOps.FileSys.LogWrite: the capacity of the log and absorption are the subject of `LogCache.Log.LogWrite` and `GroupCommit.PanicExactly`.
- FileWrite.Write: the branches for pipes and devices, and other operations that run between two transactions of one call, are not modelled.
- LogCache.Log.Brelse: a client that drops a changed buffer it has neither logged nor written is excluded here; `Bcache.Bio.Brelse` covers it.
- LinkCounts.FileTree.Iput: the calls are atomic, so the lock dance around the truncation is not modelled.
- LinkCounts.FileTree.Create: running out of inodes, a panic in the source, is a result without effect; blocks of directories never run out.
- Virtqueue.Driver.FreeDesc: the wakeup is in DiskSleep.
- Virtqueue.Driver.SubmitRequest: the sleep for descriptors is in DiskSleep.
- Virtqueue.Driver.Interrupt: the wakeup is in DiskSleep; a device that reports an error, a panic in the source, is excluded.
- DiskSleep.DiskSafe: the interrupt handler takes finished requests in any order, of which the order of the used ring is one.
- CrashSafe.BootAndRun: a run does not go on from an image with a hole, because reading a hole makes bmap() allocate a block for an inode that readi() does not write back.
- Umalloc.Heap.Malloc: requests whose size is not exact in `SbrkArg` are excluded, because what sbrk() grants then does not match the header; addresses are counted in header-sized units, so the break is assumed to be aligned.
- Shell.RunRedirs: the depth of recursion and the memory for command nodes are unlimited.
