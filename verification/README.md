# xv6-vfs, modelled and verified in Dafny

xv6-vfs is a small RISC-V kernel whose file system sits behind a VFS layer, with a user-level
allocator, a shell and a grep. This project models the parts of it where the reasoning is hard and
proves what they promise. `dafny verify dfyconfig.toml` checks everything; no module depends on
anything outside the project.

## What is modelled

- **File system.** `Codec`, `FsLayout` and `FsOwnership` give the on-disk format and the global
  invariant: a map from used data blocks to the one slot (direct, indirect block, or entry of an
  indirect block) that names each. `Fs` is the block and inode layer as a class that updates a disk
  in place; files behave like independent byte sequences. `FsSpace` counts free blocks and what a
  reader of a file with holes makes the kernel allocate, and `FsReload` says what becomes of those
  blocks when the inode is loaded again. `VfsFile` is the file layer above it,
  `Dir` shows that directories behave like finite maps on 14-byte names, and `Mkfs` that the image
  builder produces what the kernel expects.
- **Address spaces.** `Riscv`, `Kalloc`, `PageTable`, `Freewalk`, `Vm` and `UserCopy`: three-level
  Sv39 trees (section 4.4 of the RISC-V Privileged Architecture manual) refine a flat map from
  virtual page to entry. An accounting map says of every physical page whether it is free, held by
  the kernel, a table of one tree, or a page owned by one mapping of one tree.
- **Processes and locks.** `ProcMachine` is one transition system for scheduler, yield, sleep,
  wakeup, exit, wait, fork, kill, sleep locks, and any number of further conditions, each with a
  channel and guarded by a spinlock of its choice. It has any number of processes, CPUs, locks and
  conditions. A condition is made true by a thread or by a device interrupt, which runs on a CPU
  with interrupts enabled, in the middle of whatever runs there. A step is what one CPU does between
  two lock operations. Each CPU has its interrupt flag, its count of push_off and its saved flag,
  and sched saves and restores that flag. `ProcInvariant` states the invariant, `ProcSteps` what
  each operation may do, `ProcFrame`, `ProcPlaces`, `ProcMine`, `ProcKept`, `ProcHandlers` and
  `ProcQuiet` prove that every step keeps the invariant, `ProcRuns` and `ProcOutcomes` draw the
  consequences for all runs, and `ProcProgress` shows that the kernel does not deadlock on spinlocks.
  `Spinlock` goes below that, to single memory accesses and interrupts, and shows that acquire and
  release behave as if they were atomic.
- **Buffer cache and disk queue.** `Lru` is what bcache.lock protects: the doubly linked list,
  search, recycling and release. `BufferCache` is the cache in concurrent use. `VirtioDesc` is the
  descriptor table of the disk driver. `VirtioMem` is the memory that driver and device share and
  what each write to it keeps, and `VirtioQueue` the protocol: any number of threads and interrupt
  handlers run the driver write by write, sleep and are woken, while the device, which takes no
  lock, makes its own writes one by one between any two of theirs (sections 2.6 and 5.2 of Virtio 1.1).
- **User programs.** `Umalloc` is the allocator, `Shell`, `ShellParser`, `ShellStrings` and
  `ShellPrint` the parser of the shell, `ShellGrammar` its language as a derivation relation, and
  `Grep` the matcher of grep.

Each `panic` of the modelled code is a state shown unreachable, a condition that a caller is shown to
meet, a stated precondition, or an outcome that is returned with the exact condition under which it
comes about: a directory that is read or scanned (`Dir.DirLookup`, `Dir.Link`, `Dir.IsDirEmpty`,
`Dir.Unlink`), an inode without type (`Fs.Xv6fs.ReadBlock`), no buffer left (`Lru.Bcache.Bget`).
Block and page sizes, the numbers of direct and indirect blocks, the page-table fan-out and the
number of descriptors are the real ones; the numbers of processes, CPUs, locks, buffers, inodes and
disk blocks are arbitrary. Unsigned 32-bit offsets, 16-bit ring indices and the truncation of inode
numbers to 16 bits in directory entries are modelled as they are.

Six observations about the code came out of the proofs:

- mkfs rounds the size of the root directory up to the next block even when it already ends on a
  block boundary. The root then has a hole, exactly when the number of files is 62 modulo 64. The
  kernel reads a hole by allocating a block for it, and if the disk is full it panics: on a new
  image, looking up a name in the root panics if and only if there are that many files, the name is
  none of theirs, and they leave no room for the hole (`Mkfs.RootLookup`, `Mkfs.BuildAndLookup`). 62
  empty files on a disk of 39 blocks are such a case (`Mkfs.FullRootPanics`).
- readi does not write the inode back when it has allocated blocks for holes, and iget may drop the
  copy in memory. If the disk held the inode as it was, the next load then loses a block, which stays
  marked and is in no file, if and only if the inode itself, rather than its indirect block, lacked
  an address in the range read and a block was free (`FsReload.ReadThenLoad`).
- The argument of sbrk is an int, so malloc of more than 2147483616 bytes asks for a different
  amount of memory than it uses (`Umalloc.RequestExact`). At 2147483617 bytes the amount is
  negative, the new size wraps around above the old one, and sbrk succeeds without giving memory
  (`Umalloc.RequestTruncated`).
- kill(0) marks an UNUSED slot, because such slots have pid 0 (`ProcRuns.KillMarksAndWakes`);
  allocproc does not clear the mark.
- sched restores the saved interrupt flag of the process it returns to, so the flag that the
  scheduler finds is that of the process which gave up the CPU. Only the processes get theirs back
  (`ProcRuns.InterruptsRestored`, `ProcRuns.BeforeStays`).
- A parent is alive at all times, not only while wait_lock is free (`ProcRuns.NoOrphans`).

## Model

| member | source | states |
|---|---|---|
| `FsLayout.BitmapSet` | kernel/fs/xv6fs/fs.c:123-147 | setting the bit of one block marks that block and no other, through the block, byte and bit arithmetic of the bitmap |
| `FsLayout.BitmapClear` | kernel/fs/xv6fs/fs.c:150-164 | clearing the bit of one block unmarks that block and no other |
| `FsLayout.InodeRoundTrip` | kernel/fs/xv6fs/fs.h:34-41 | an inode encoded in its 64 bytes decodes to the same inode |
| `FsLayout.StoreInodeReads` | kernel/fs/xv6fs/fs.c:200-218 | storing one inode changes that inode on disk and none of the fifteen that share its block |
| `FsLayout.InodePlace` | kernel/fs/xv6fs/fs.h:44-48 | on the disk as one sequence of bytes, the inodes follow one another, 64 bytes each, from the first inode block on |
| `FsLayout.InodeFormat` | kernel/fs/xv6fs/fs.h:34-41 | type, major, minor and nlink are 16-bit and size and thirteen block numbers 32-bit integers, in this order, low bytes first |
| `FsLayout.IndirectFormat` | kernel/fs/xv6fs/fs.c:243-256 | an entry of the indirect block is the 32-bit integer at four times its index, low bytes first |
| `FsLayout.BitmapFormat` | kernel/fs/xv6fs/fs.h:50-54 | the bits of the blocks follow one another, low bits first, from the first bitmap block on |
| `FsOwnership.AllocateOwned` | kernel/fs/xv6fs/fs.c:123-147 | an allocated block keeps the ownership invariant, with that block in hand, and no file changes |
| `FsOwnership.InstallAddr` | kernel/fs/xv6fs/fs.c:220-262 | a block in hand put in an empty direct slot, or as the indirect block, is owned by exactly that slot |
| `FsOwnership.InstallEntry` | kernel/fs/xv6fs/fs.c:220-262 | a block in hand put in an empty entry of an indirect block is owned by exactly that entry, and no byte of any file changes |
| `FsOwnership.WriteData` | kernel/fs/xv6fs/fs.c:352-364 | changing one data block changes the bytes of that block of the one file that owns it, and nothing else |
| `FsOwnership.RemoveDirect` | kernel/fs/xv6fs/fs.c:266-297 | emptying a direct slot leaves its block without owner and all others owned as before |
| `FsOwnership.RemoveIndirect` | kernel/fs/xv6fs/fs.c:266-297 | emptying the indirect slot leaves the indirect block and every block it lists without owner |
| `FsOwnership.FreeOwned` | kernel/fs/xv6fs/fs.c:150-164 | freeing a block that no slot names keeps the ownership invariant |
| `Fs.Xv6fs.Balloc` | kernel/fs/xv6fs/fs.c:123-147 | returns an unused data block, now zeroed and marked, with all other blocks and bits as before; returns 0 only when every block is in use |
| `FsSpace.FreeTaken` | kernel/fs/xv6fs/fs.c:123-147 | an allocation leaves exactly one free block less |
| `Fs.Xv6fs.Bfree` | kernel/fs/xv6fs/fs.c:150-164 | clears exactly the bit of the block; the panic for freeing a free block is unreachable |
| `Fs.Xv6fs.Bmap` | kernel/fs/xv6fs/fs.c:220-262 | returns the block of slot bn, allocating it and the indirect block as needed, and 0 if and only if fewer blocks are free than that needs; it takes exactly that many, the ownership invariant holds, no file changes as readers see it, and owners only gain entries |
| `FsSpace.MissingStep` | kernel/fs/xv6fs/fs.c:220-262 | what a range of blocks lacks is what its first block lacks plus what the rest lacks once that block is there, although the indirect block is charged to whichever comes first |
| `FsSpace.HoleNeeds` | kernel/fs/xv6fs/fs.c:220-262 | a range with a hole lacks at least one block |
| `Fs.Xv6fs.Iupdate` | kernel/fs/xv6fs/fs.c:200-218 | the disk holds the in-memory inode afterwards, and every other inode, file and bit is unchanged |
| `Fs.Xv6fs.ReadBlock` | kernel/fs/xv6fs/fs.c:71-96 | an inode not yet loaded becomes what the disk holds, a loaded one stays; panics if and only if it had to be loaded and has type 0; loading keeps the ownership invariant if and only if the disk's copy names the same blocks and has a legal size |
| `Fs.Xv6fs.Readi` | kernel/fs/xv6fs/fs.c:304-329 | returns exactly the bytes off .. min(off+n, size) of the file, nothing when off+n wraps around 32 bits, -1 only when the copy-out fails; short if and only if fewer blocks are free than the holes in the range need; where no block of the range is missing it changes nothing at all |
| `FsReload.ReadMoves` | kernel/fs/xv6fs/fs.c:304-329 | a read changes the addresses in the inode, which it does not write back, if and only if a block is free and the inode itself lacks an address in the range |
| `FsReload.ReadThenLoad` | kernel/fs/vfs.c:52-76 | a read followed by a load from disk keeps the ownership invariant if and only if the read changed no address in the inode, as told by the state before; otherwise a block is marked that no inode names |
| `Fs.Xv6fs.Writei` | kernel/fs/xv6fs/fs.c:338-373 | turns content C into C[..off] + src[..r] + C[off+r..]; -1 exactly when the write would leave a gap or exceed the largest file; complete if and only if as many blocks are free as the range lacks, which it then takes, and otherwise it ends at the first block that cannot be paid for, at a block boundary; no hole appears and every other file is untouched |
| `Fs.Xv6fs.Itrunc` | kernel/fs/xv6fs/fs.c:266-297 | exactly the blocks owned by the file become free, the file is empty, and every other file, inode and owner is as before |
| `VfsFile.File.Read` | kernel/fs/vfs.c:283-302 | returns the bytes at the file offset and advances it by their number, without changing any file; -1 only when not readable or the copy-out fails; short only at a hole of a file on a full disk |
| `VfsFile.File.Write` | kernel/fs/vfs.c:304-335 | a write in chunks that returns n has the effect of one writei of all n bytes at the old offset; otherwise a prefix was written and the reason is a gap, the size limit or a full disk; a file without holes stays without |
| `VfsFile.WriteThenRead` | kernel/fs/vfs.c:283-335 | what was written at an offset is what a read at that offset returns |
| `Dir.Strncmp` | kernel/string.c:60-68 | is zero over 14 bytes exactly when both strings stand for the same directory name |
| `Dir.Strncpy` | kernel/string.c:70-81 | stores in 14 bytes the name that the string stands for |
| `Dir.SlotStored` | kernel/fs/xv6fs/fs.c:421-467 | a 16-byte entry stored in a slot, or behind the last one, changes that slot only |
| `Dir.EntryFormat` | kernel/fs/xv6fs/fs.h:56-62 | a directory entry is a 16-bit inode number, low byte first, and 14 bytes of name |
| `Dir.SlotFormat` | kernel/fs/xv6fs/fs.h:56-62 | slot s is read from bytes 16s to 16s + 15 in that format |
| `Dir.Bind` | kernel/fs/xv6fs/fs.c:421-467 | filling a free slot adds exactly one binding to the map the directory stands for |
| `Dir.Unbind` | kernel/fs/xv6fs/fs.c:506-508 | zeroing a live slot removes exactly its binding |
| `Dir.DirLookup` | kernel/fs/xv6fs/fs.c:385-419 | agrees with the map: found if and only if the name is bound, with its inode number and the offset of its entry; panics if and only if fewer blocks are free than the holes need up to the entry, or to the end; changes no file |
| `Dir.ReadEntry` | kernel/fs/xv6fs/fs.c:396-398 | reads the inode number and name of one slot; falls short if and only if the block of the slot is missing and cannot be allocated |
| `Dir.Link` | kernel/fs/xv6fs/fs.c:421-467 | adds exactly the one binding or leaves the directory unchanged; if some slot is free, the first free one is filled, even on a full disk, every other slot is as it was and the directory does not grow; fails if the name is bound, else only for a full disk or directory; panics exactly when the lookup does; every other file is untouched |
| `Dir.IsDirEmpty` | kernel/fs/xv6fs/fs.c:530-547 | true if and only if no slot beyond the first two is live; panics if and only if fewer blocks are free than the holes need up to the first live slot beyond them, or to the end |
| `Dir.FindEntry` | kernel/fs/xv6fs/fs.c:492-504 | tells whether the entry may be removed, and where it is, without changing any file; the two scans together panic if and only if fewer blocks are free than their holes need |
| `Dir.EmptyDirectory` | kernel/fs/xv6fs/fs.c:530-547 | with "." and ".." in slots 0 and 1, that test holds if and only if nothing else is bound |
| `Dir.MakeDots` | kernel/fs/xv6fs/fs.c:592-596 | a new directory binds exactly "." and "..", in slots 0 and 1; it fails only on a full disk, and then binds nothing or only "."; every other file is untouched |
| `Dir.Unlink` | kernel/fs/xv6fs/fs.c:484-508 | removes exactly the one binding, and succeeds if and only if the name is bound, is neither "." nor "..", and is no directory with entries; "." and ".." stay in front; panics if and only if fewer blocks are free than the holes of the two directories it scans need |
| `Dir.ClearSlot` | kernel/fs/xv6fs/fs.c:506-508 | zeroing an entry of a block that is there cannot fall short, and removes exactly its binding |
| `Mkfs.BitmapBlock` | mkfs/mkfs.c:235-249 | in the bitmap block exactly the first n bits are set |
| `Mkfs.ImageUsed` | mkfs/mkfs.c:235-249 | in the image as the kernel will see it, the blocks in use are exactly those below freeblock |
| `Mkfs.SuperRoundTrip` | mkfs/mkfs.c:93-117 | the kernel reads back the super block that was written to block 1 |
| `Mkfs.Builder.constructor` | mkfs/mkfs.c:93-117 | the empty image: boot block, super block, 30 blocks of log, inode blocks, bitmap and data follow one another without gap or overlap; every inode is blank, no data block handed out, and the ownership invariant of the kernel holds |
| `Mkfs.RegionsApart` | mkfs/mkfs.c:93-117 | no inode and no bit of the bitmap is in the log, in each other's blocks or in the data |
| `Mkfs.Builder.Winode` | mkfs/mkfs.c:185-197 | stores one inode and changes no other inode and no file |
| `Mkfs.Builder.Iappend` | mkfs/mkfs.c:253-295 | the file, read through the kernel's direct and indirect lookup, grows by exactly the data; each block taken has one owner; no other file changes; freeblock grows by the number of blocks the new bytes need |
| `Mkfs.Builder.Ialloc` | mkfs/mkfs.c:221-233 | the next inode number, with the given type, one link and no contents |
| `Mkfs.Builder.Balloc` | mkfs/mkfs.c:235-249 | the disk becomes the image with exactly the blocks below freeblock marked |
| `Mkfs.Builder.AddFile` | mkfs/mkfs.c:146-160 | a new file inode with exactly the given contents, and one new entry in the root directory |
| `Mkfs.Builder.Build` | mkfs/mkfs.c:119-174 | for all files that fit, the finished image satisfies the kernel's ownership invariant, holds every file, marks exactly the blocks below freeblock, and leaves no hole in any file; the regions are laid out as at first, with the super block intact and the log zero; the root has a hole if and only if the number of files is 62 modulo 64; with distinct names the root is a proper directory that binds ".", ".." and exactly the files |
| `Mkfs.RootIsDirectory` | mkfs/mkfs.c:122-161 | with distinct names the root is a proper directory that maps each name to its inode |
| `Mkfs.PaddedDirectory` | mkfs/mkfs.c:163-168 | rounding the size up adds only free slots: the bindings are unchanged |
| `Mkfs.RootMissing` | mkfs/mkfs.c:163-168 | the finished root lacks one block, or two when that is the first one behind the indirect block, exactly when its entries end on a block boundary |
| `Mkfs.RootLookup` | mkfs/mkfs.c:163-168 | on an image the lookup of a name in the root runs out of space if and only if the number of files is 62 modulo 64, the name is none of theirs, and no block is left for the hole |
| `Mkfs.BuildAndLookup` | mkfs/mkfs.c:119-174 | mkfs followed by the kernel's lookup: the name of file number i leads to inode 2 + i, which holds its contents, "." and ".." to the root, and other names are not found; the panic comes if and only if the number of files is 62 modulo 64, the name is none of theirs and the files leave no room for the hole |
| `Mkfs.FullRootPanics` | mkfs/mkfs.c:119-174 | 62 empty files on a disk of 39 blocks with 64 inodes: looking up a name that is none of theirs panics |
| `Grep.Match` | user/grep.c:71-81 | true if and only if some start position (only the first after ^) has a prefix in the language of the pattern |
| `Grep.MatchHere` | user/grep.c:84-95 | true if and only if the text has a prefix in the language of the pattern |
| `Grep.MatchStar` | user/grep.c:98-105 | true if and only if some run of the starred character is followed by text that the rest of the pattern matches |
| `Grep.MatchesCons` | user/grep.c:84-105 | a pattern with one item in front matches exactly when the item takes some word off the text and the rest matches after it |
| `Riscv.PteRoundTrip` | kernel/riscv.h:352-356 | an entry is a page number above ten bits of flags, and gives back the page and the flags it was made of |
| `Riscv.IndicesDistinct` | kernel/riscv.h:359-361 | two different pages below MAXVA differ in some index, so they reach different entries |
| `PageTable.LeafIsHardware` | kernel/vm.c:71-102 | the flat map of a tree gives for every address below MAXVA what the hardware finds there, going through three tables by nine bits each |
| `Kalloc.Kmem.Kfree` | kernel/kalloc.c:46-63 | pushes the page on the free list, threaded through the pages themselves |
| `Kalloc.Kmem.Kalloc` | kernel/kalloc.c:68-82 | takes the first free page, or 0 if and only if there is none |
| `Kalloc.Kmem.Freerange` | kernel/kalloc.c:33-40 | frees exactly the whole pages between the two addresses |
| `PageTable.SetLeaf` | kernel/vm.c:141-164 | storing an entry of a lowest-level table changes exactly one translation of one tree |
| `PageTable.NewTable` | kernel/vm.c:84-102 | hanging a zeroed page into a tree makes it a table of that tree and changes no translation of any tree |
| `Freewalk.WholeTree` | kernel/vm.c:270-286 | the pages below a root are exactly the pages accounted to it as tables |
| `Freewalk.SubtreesApart` | kernel/vm.c:270-286 | subtrees under different entries share no page |
| `Freewalk.FreeTables` | kernel/vm.c:270-286 | the recursion frees every table of the subtree once and touches nothing else |
| `Vm.Spaces.Walk` | kernel/vm.c:84-102 | finds the entry of the page in the flat map the tree stands for; with alloc it may add tables, and preserves every translation of every tree; fails only when it may not allocate or memory is out |
| `Vm.Spaces.Walkaddr` | kernel/vm.c:107-125 | the page number of the entry times 4096 if the address is below MAXVA and bits 0 (valid) and 4 (user) of the entry are set, else 0 |
| `Vm.Spaces.Mappages` | kernel/vm.c:141-164 | maps exactly the pages of the range, or a prefix of them when memory is out, and changes no other translation of any tree, also for physical addresses that are not aligned |
| `Vm.Spaces.Uvmunmap` | kernel/vm.c:169-191 | unmaps exactly the pages of the range, and gives back exactly the pages they own if asked to |
| `Vm.Spaces.Uvmcreate` | kernel/vm.c:195-204 | a new tree that translates nothing |
| `Vm.Spaces.Uvmalloc` | kernel/vm.c:224-248 | maps fresh zeroed pages for exactly the new range; fails only when memory is out, and then every data page is given back and no translation has changed, with only table pages kept |
| `Vm.Spaces.Uvmdealloc` | kernel/vm.c:254-266 | unmaps exactly the pages beyond the new size and frees them |
| `Vm.Spaces.Uvmfree` | kernel/vm.c:290-296 | every page the tree owned, data and tables, is free again, each once; no other page changes hands |
| `Vm.Spaces.Uvmcopy` | kernel/vm.c:304-332 | every page of the child has the flags and the bytes of the parent's, on a fresh page; fails only when memory is out, and then every data page is given back and no translation has changed |
| `Vm.PagesExact` | kernel/vm.c:224-332 | the pages of a size are just those that hold the bytes below it |
| `UserCopy.CopyIn` | kernel/vm.c:375-395 | equals one flat copy; succeeds if and only if every address is below MAXVA with bits 0 and 4 of its entry set and a page number other than 0; each byte is the one at that page and offset |
| `UserCopy.CopyOut` | kernel/vm.c:350-370 | equals one flat byte-by-byte store, and succeeds under the same condition; on failure a prefix was stored; each byte lands at the page and offset that its entry gives, and a page that no entry in the range opens to user code is left alone |
| `UserCopy.CopyInStr` | kernel/vm.c:401-438 | succeeds if and only if a NUL is reached within max bytes through entries as for copyin, with the bytes up to it |
| `UserCopy.OwnPages` | kernel/vm.c:350-438 | in an address space as the page accounting has it, no two user pages share memory and none is a page table, which is what the copies rely on |
| `UserCopy.GuardPage` | kernel/vm.c:335-370 | a page mapped without the user bit, such as the guard page below the stack, is one that copyout leaves alone |
| `UserCopy.PageStore` | kernel/vm.c:350-370 | stores within one page are one store into the physical page |
| `UserCopy.StoredThenRead` | kernel/vm.c:350-395 | what copyout stores is what copyin reads back |
| `ProcInvariant.OffCpu` | kernel/proc.c:442-469 | a process whose lock another thread holds is on no CPU unless it is RUNNING |
| `ProcInvariant.BaseKept` | kernel/proc.c:442-496 | every step keeps who runs where and which CPU holds which lock |
| `ProcPlaces.AtStable` | kernel/proc.c:279-432 | what wakeup, exit, wait and fork know in the middle of their loops survives every step of every other process |
| `ProcMine.WakeHaveAt` | kernel/proc.c:565-578 | when wakeup has passed a process, that process no longer waits on the channel |
| `ProcKept.KinKept` | kernel/proc.c:279-432 | every step leaves every parent alive and every process that has run with a parent |
| `ProcKept.PidsKept` | kernel/proc.c:93-172 | pids in use stay distinct, and every pid that wait has returned is of a process that exited and is in use no more |
| `ProcKept.WakeupsKept` | kernel/proc.c:534-578 | whoever waits for something that has happened is about to be woken by a thread or interrupt handler in wakeup that still holds the lock, on every channel |
| `ProcKept.StillOwes` | kernel/proc.c:565-578 | who has to wake up a channel goes on having to until its wakeup has passed every process |
| `ProcHandlers.HandlerWakeups` | kernel/trap.c:135-162 | the same for an interrupt that makes a condition true and calls wakeup, and leaves out only the process it interrupted |
| `ProcHandlers.InterruptedAwake` | kernel/proc.c:565-578 | that process, which wakeup skips, waits on nothing |
| `ProcHandlers.HandlerKept` | kernel/trap.c:135-162 | every step of an interrupt handler keeps the whole invariant |
| `ProcQuiet.SchedKept` | kernel/proc.c:442-469 | every step of the scheduler keeps the whole invariant |
| `ProcRuns.InvKept` | kernel/proc.c:279-602 | every step of every CPU, in a process, the scheduler or an interrupt, keeps the whole invariant |
| `ProcRuns.RunInv` | kernel/proc.c:279-602 | the invariant holds in every state of every run, for any number of processes, CPUs, sleep locks and conditions |
| `ProcRuns.OneCpuPerProcess` | kernel/proc.c:442-529 | whenever p->lock is free, p is RUNNING if and only if a CPU has it as its process, and then exactly one has |
| `ProcRuns.SchedNeverPanics` | kernel/proc.c:479-496 | sched is always called with p->lock held, noff 1, p not RUNNING and interrupts off |
| `ProcRuns.LocksNeverPanic` | kernel/spinlock.c:21-72 | acquire never asks for a lock its own CPU holds, and only the holder releases |
| `ProcRuns.HandlersNeverPanic` | kernel/trap.c:135-162 | an interrupt comes only on a CPU without locks, and its handler neither asks for a lock its CPU holds nor drops one it does not |
| `ProcRuns.InterruptsOffUnderLocks` | kernel/spinlock.c:88-110 | a CPU with interrupts enabled holds no lock |
| `ProcRuns.InterruptsRestored` | kernel/proc.c:479-496 | the release that leaves a process without locks leaves interrupts as they were when it took its first, also when it has slept or yielded in between and is now on another CPU |
| `ProcRuns.BeforeStays` | kernel/proc.c:493-495 | no other CPU, process or interrupt changes what a process that is off its CPU will restore |
| `ProcRuns.NoLostWakeup` | kernel/proc.c:534-578 | for every channel: a process SLEEPING on it while its lock is free sleeps because what it waits for has not happened |
| `ProcRuns.NoLostWakeupOnCondition` | kernel/proc.c:534-578 | for any spinlock and any condition under it whose setters call wakeup before they let go of it: while the lock is free and the condition true, nobody is SLEEPING on its channel |
| `ProcRuns.NoLostWakeupOnDisk` | kernel/virtio_disk.c:227-285 | an instance of the row above: two conditions under one spinlock, as the waits of the disk driver are; that the driver's own steps wake its sleepers is `VirtioQueue.NoLostWakeup` |
| `ProcRuns.NoLostWakeupOnSleepLock` | kernel/sleeplock.c:21-41 | a process SLEEPING on a sleep lock whose inner lock is free sleeps because the lock is held |
| `ProcRuns.NoLostWakeupInWait` | kernel/proc.c:346-432 | a process SLEEPING in wait while wait_lock is free has no ZOMBIE child |
| `ProcRuns.NoOrphans` | kernel/proc.c:330-383 | no process ever has an UNUSED, USED or ZOMBIE parent, every zombie has a live parent, and init never exits |
| `ProcRuns.WaitedOnce` | kernel/proc.c:388-432 | over a whole run wait returns each pid at most once, and only pids of processes that exited |
| `ProcRuns.WaitReapsAChild` | kernel/proc.c:388-423 | the pid that wait returns is that of a ZOMBIE child of the caller, whose slot becomes UNUSED |
| `ProcRuns.WaitFailsWithoutChildren` | kernel/proc.c:399-429 | after its scan wait gives up for want of children if and only if the caller has none |
| `ProcOutcomes.WaitGivesUp` | kernel/proc.c:388-432 | whenever wait gives up, the caller has no child, or is killed, or has an exited child whose status cannot be copied out |
| `ProcOutcomes.WaitSleeps` | kernel/proc.c:425-431 | whenever wait goes to sleep, the caller is not killed, has a child, and none that has exited |
| `ProcOutcomes.StateChanges` | kernel/proc.c:110-602 | every change of a process's state is one of nine: the scheduler runs it; its own yield, sleep or exit; a wakeup of its channel or a kill of its pid; fork takes, starts or gives back its slot; its parent waits for it |
| `ProcOutcomes.ParentChanges` | kernel/proc.c:279-432 | a parent is set by fork to the forking process, changed to init when that parent exits, and cleared when the slot is freed |
| `ProcOutcomes.MarkChanges` | kernel/proc.c:584-602 | a process is marked only by a kill of its pid, and the mark goes when its slot is freed |
| `ProcOutcomes.KillEnds` | kernel/proc.c:584-602 | over a run, a kill ends only after it has marked and woken a slot with its pid, or has found each slot, at some point, with another |
| `ProcOutcomes.AllocEnds` | kernel/proc.c:110-127 | over a run, allocproc ends with a slot that is UNUSED, or after it has found each slot, at some point, in use |
| `ProcOutcomes.ForkEnds` | kernel/proc.c:279-325 | a fork that has a slot ends with a RUNNABLE child that has a pid and the caller as parent, or with the slot free again |
| `ProcOutcomes.SchedulerRuns` | kernel/proc.c:452-466 | a scheduler that has a RUNNABLE process in hand runs it, from where it was |
| `ProcRuns.KillMarksAndWakes` | kernel/proc.c:584-602 | kill leaves the slot with the given pid marked and not SLEEPING, and changes no other state of it; the slot is in use if and only if the pid is not 0 |
| `ProcRuns.HoldingSleepExact` | kernel/sleeplock.c:43-52 | the test of holdingsleep is true for a live process exactly when it owns the sleep lock |
| `ProcRuns.SleepLockExcludes` | kernel/sleeplock.c:21-41 | a sleep lock passes from nobody to its acquirer and back, never from one process to another |
| `ProcProgress.WantsHigher` | kernel/proc.c:279-602 | a thread that holds a spinlock and wants another wants one of higher rank |
| `ProcProgress.NoDeadlock` | kernel/proc.c:279-602 | whenever a spinlock is held, by a thread or an interrupt handler, some CPU that holds one can take its next step |
| `Spinlock.RunInv` | kernel/spinlock.c:21-110 | the invariant holds in every state of every run with any number of CPUs and locks |
| `Spinlock.MutualExclusion` | kernel/spinlock.c:21-72 | two CPUs never hold a lock at once, and a CPU that holds one has interrupts off and noff positive |
| `Spinlock.HoldingExact` | kernel/spinlock.c:76-82 | holding, whose two reads may be apart, is true exactly for the CPU that has the lock |
| `Spinlock.OutermostRestores` | kernel/spinlock.c:99-110 | the pop_off that undoes the outermost push_off on a CPU leaves interrupts as that push_off found them |
| `Spinlock.BeforeIsKept` | kernel/spinlock.c:88-110 | until then the remembered interrupt state does not change, whatever is nested inside |
| `Spinlock.Refines` | kernel/spinlock.c:21-72 | the machine of single memory accesses refines the one in which acquire and release are atomic |
| `Lru.Inserted` | kernel/fs/xv6fs/bio.c:44-53 | the four assignments link a buffer in behind the head, in both directions |
| `Lru.Removed` | kernel/fs/xv6fs/bio.c:128-130 | the two assignments link a buffer out, in both directions |
| `Lru.Released` | kernel/fs/xv6fs/bio.c:125-135 | moving a buffer to the front on its final release keeps the list complete and ordered by release |
| `Lru.Bcache.constructor` | kernel/fs/xv6fs/bio.c:37-54 | the links thread all buffers exactly once |
| `Lru.Bcache.Find` | kernel/fs/xv6fs/bio.c:66-74 | finds a buffer with the block if and only if there is one |
| `Lru.Bcache.FindUnused` | kernel/fs/xv6fs/bio.c:76-88 | finds the unused buffer whose final release is oldest, or none if and only if all are in use |
| `Lru.Bcache.Bget` | kernel/fs/xv6fs/bio.c:59-90 | a cached block gets one more user; otherwise the least recently released unused buffer is given to it; panics if and only if the block is not cached and no buffer is unused |
| `Lru.Bcache.Brelse` | kernel/fs/xv6fs/bio.c:117-138 | one user less; the last one moves the buffer to the front |
| `BufferCache.MissKept` | kernel/fs/xv6fs/bio.c:76-88 | recycling an unused buffer leaves at most one buffer per block and nobody with the wrong one |
| `BufferCache.RunInv` | kernel/fs/xv6fs/bio.c:59-138 | in every state of every run refcnt is the number of users, each user has the block it asked for, no block has two buffers, and clean buffers agree with the disk |
| `BufferCache.BreadReturnsTheBlock` | kernel/fs/xv6fs/bio.c:92-104 | what bread returned is the disk's block, and no other thread has that block locked |
| `BufferCache.HoldersBlockIsStable` | kernel/fs/xv6fs/bio.c:59-138 | while a thread holds a block nobody else changes it, in the cache or on the disk |
| `BufferCache.OnlyBwriteWrites` | kernel/fs/xv6fs/bio.c:106-113 | a block changes on disk only by bwrite of the thread that holds it, to what it has in its buffer |
| `BufferCache.HolderMayWrite` | kernel/fs/xv6fs/bio.c:106-121 | whoever calls bwrite or brelse after bread holds the lock of that buffer, so neither panics |
| `BufferCache.NoBuffersNeedsUsers` | kernel/fs/xv6fs/bio.c:59-90 | bget can run out of buffers only with at least as many threads as buffers |
| `VirtioDesc.Table.AllocDesc` | kernel/virtio_disk.c:154-165 | takes the lowest free descriptor, or none if and only if none is free |
| `VirtioDesc.Table.FreeDesc` | kernel/virtio_disk.c:167-181 | clears and frees exactly the one descriptor, and wakes whoever sleeps for want of descriptors |
| `VirtioDesc.Table.FreeChain` | kernel/virtio_disk.c:183-196 | frees exactly the descriptors of the chain, which it follows to its end, and wakes whoever sleeps for want of them |
| `VirtioDesc.Table.Alloc3Desc` | kernel/virtio_disk.c:198-212 | three different free descriptors if and only if three are free, otherwise no change at all to the table; wakes sleepers if and only if it had to give some back |
| `VirtioMem.SectorExact` | kernel/virtio_disk.c:217 | the sector of a block is where its bytes are, if and only if the block number is below 2147483648 |
| `VirtioMem.RingSlot` | kernel/virtio_disk.c:271 | writing the next ring slot overwrites no entry the device has not read, however far the 16-bit index has wrapped |
| `VirtioMem.RingPush` | kernel/virtio_disk.c:270-276 | raising the index publishes exactly the entry written before, if at most one other is unread |
| `VirtioMem.RingPop` | kernel/virtio_disk.c:308-323 | the reader finds the oldest entry, and sees the ring as empty exactly when it is |
| `VirtioMem.RoomForOne` | kernel/virtio_disk.c:198-212 | three free descriptors leave room for at most one request, so the rings cannot overflow |
| `VirtioMem.AllocatedKept` | kernel/virtio_disk.c:227-232 | three free descriptors become one request, apart from all others |
| `VirtioMem.WrittenKept` | kernel/virtio_disk.c:237-271 | each single write that fills in a request changes nothing the device may be reading |
| `VirtioMem.PublishedKept` | kernel/virtio_disk.c:273-276 | when the index is raised the request is complete, and the device will read it as it was meant |
| `VirtioMem.TakeFirst` | kernel/virtio_disk.c:270-276 | whenever the device sees a new index, between any two writes of the driver, it finds the oldest published request |
| `VirtioMem.ChainIsReadable` | kernel/virtio_disk.c:237-264 | the chain the device follows describes exactly the request: a header of 16 bytes with the sector of the buffer's block, 1024 bytes of data to be written by the device only for a read, and a status byte |
| `VirtioMem.CarriesOutTheRequest` | kernel/virtio_disk.c:237-264 | the device writes the buffer to its block, or reads its block into it, then reports success, then writes its slot of the used ring, each in a step of its own that changes nothing else |
| `VirtioMem.CarriesKept` | kernel/virtio_disk.c:308-313 | each of these writes keeps all other requests, and overwrites no completion that the handler has yet to read |
| `VirtioMem.CompletedEntry` | kernel/virtio_disk.c:308-323 | when the device raises its index the entry behind it is complete: data moved, status 0, slot written |
| `VirtioMem.FreeNeverPanics` | kernel/virtio_disk.c:167-196 | at each step of free_chain the descriptor is one in use, and its next field leads to the next of the three |
| `VirtioMem.FreedKept` | kernel/virtio_disk.c:175-179 | each descriptor freed leaves all other requests and the rest of the chain as they were |
| `VirtioMem.ModifiedKept` | kernel/fs/xv6fs/bio.c:59-113 | a buffer in no request may get any contents and any block |
| `VirtioQueue.SeenWhenClear` | kernel/virtio_disk.c:283-287 | a thread that finds b->disk clear has a request that the device finished with status 0, and a buffer that holds what its sector held when the data had been moved |
| `VirtioQueue.HandlerNeverPanics` | kernel/virtio_disk.c:311-320 | the interrupt handler, which reads index and entry in separate steps, finds a complete request: status 0, its buffer, and the data in it |
| `VirtioQueue.DropNeverPanics` | kernel/virtio_disk.c:167-196 | each free_desc that free_chain calls is on a descriptor that exists and is in use |
| `VirtioQueue.InvKept` | kernel/virtio_disk.c:154-326 | every step of every thread, handler and the device keeps the invariant |
| `VirtioQueue.RunInv` | kernel/virtio_disk.c:154-326 | all of this holds in every state of every run: any number of threads and handlers, each at any of its writes, and the device between any two of them |
| `VirtioQueue.InFlight` | kernel/virtio_disk.c:214-291 | at most two requests are in flight |
| `VirtioQueue.NoLostWakeup` | kernel/virtio_disk.c:227-285 | while vdisk_lock is free, a thread asleep for descriptors lacks three free ones, and a thread asleep on its buffer has an unfinished request |
| `VirtioQueue.HolderMoves` | kernel/virtio_disk.c:214-326 | the thread or handler that holds vdisk_lock can always take its next step |
| `VirtioQueue.DiskClearedOnlyWhenFinished` | kernel/virtio_disk.c:311-323 | b->disk drops to 0 only for a buffer whose request the device has finished with status 0 |
| `VirtioQueue.InFlightDataIsStable` | kernel/virtio_disk.c:214-291 | although the holder of a buffer may change it at any other time, the data of a buffer in a request changes only when the device moves the data of that request, and only if it is a read |
| `VirtioQueue.InFlightBlockIsStable` | kernel/virtio_disk.c:214-291 | nor does the buffer get another block while it is in a request |
| `Umalloc.AtPlace` | user/umalloc.c:30-32 | the two tests of the search together hold exactly at the free block behind which the freed block belongs |
| `Umalloc.Disjoint` | user/umalloc.c:24-90 | blocks, live or free, do not overlap |
| `Umalloc.NewListed` | user/umalloc.c:33-43 | after free the list is again circular and ordered by address |
| `Umalloc.NewSpaced` | user/umalloc.c:33-43 | after free no two free blocks are adjacent |
| `Umalloc.FreedOwned` | user/umalloc.c:33-43 | after free every unit obtained from sbrk is still in exactly one block |
| `Umalloc.TakenListed` | user/umalloc.c:74-85 | a free block taken whole leaves the list circular, ordered and without adjacent blocks |
| `Umalloc.CutOwned` | user/umalloc.c:74-85 | a tail cut off a free block leaves every unit in exactly one block |
| `Umalloc.RequestExact` | user/umalloc.c:46-61 | morecore asks sbrk, whose argument is a 32-bit int, for the memory it goes on to use if and only if the request is at most 2147483616 bytes |
| `Umalloc.RequestTruncated` | user/umalloc.c:46-61 | a request of 2147483617 bytes makes it ask for a negative amount; the new size wraps around above the old one, so sbrk gives no memory and succeeds |
| `Umalloc.Heap.Search` | user/umalloc.c:30-32 | the search ends, wherever freep points, at the place of the block |
| `Umalloc.Heap.Free` | user/umalloc.c:24-44 | the block joins the free list, merged with its free neighbours; every other live block keeps its size and its units; the freed units are found at freep or behind it |
| `Umalloc.Heap.Morecore` | user/umalloc.c:46-61 | at least 4096 and at least the units asked for are new and free, and the block that holds them is freep or the one behind it |
| `Umalloc.Heap.Malloc` | user/umalloc.c:63-90 | the search ends after at most one call of sbrk; a returned block has the bytes asked for and less than 16 more besides its header, and none of its units belonged to a live block; null only when no free block is large enough and sbrk fails |
| `Shell.Skip` | user/sh.c:276-277 | the first position that is not white space |
| `Shell.WordEnd` | user/sh.c:300-302 | the end of the word |
| `ShellParser.GetToken` | user/sh.c:269-312 | the loops compute the token, its bounds and the position behind it |
| `ShellParser.Peek` | user/sh.c:314-324 | skips white space and tells whether the next character is one of the given ones |
| `ShellParser.Redirs` | user/sh.c:378-401 | the loop reads redirections in order, and reports a missing file |
| `ShellParser.SimpleCmd` | user/sh.c:430-449 | the loop of parseexec collects words and redirections, and reports a syntax error or a tenth argument |
| `ShellParser.BlockCmd` | user/sh.c:403-417 | a parenthesised line with its redirections, or the missing parenthesis |
| `ShellParser.PipeCmd` | user/sh.c:365-376 | computes what the recursive-descent function gives, and ends on every input |
| `ShellParser.LineCmd` | user/sh.c:348-363 | computes what the recursive-descent function gives, and ends on every input |
| `ShellGrammar.ParsesTheLanguage` | user/sh.c:331-450 | for every input and every command tree: the parser accepts the whole input with that tree if and only if the tree is derivable for it in a grammar stated without the parser, in which each redirection puts one node around the tree of those before it |
| `ShellGrammar.AcceptsTheLanguage` | user/sh.c:331-346 | the parser succeeds exactly on the inputs that are derivable |
| `ShellGrammar.DerivesOnce` | user/sh.c:331-450 | the grammar is unambiguous |
| `ShellGrammar.WrapChain` | user/sh.c:378-401 | the tree of a command with n redirections has exactly n redirection nodes around it, the first innermost, each with its file and mode |
| `ShellStrings.LineOk` | user/sh.c:348-450 | every word kept by the parser is a whole word of the input, and no command has more than nine arguments |
| `ShellStrings.NulTerminate` | user/sh.c:452-497 | exactly the ends of the words are overwritten with NUL |
| `ShellStrings.EndOutside` | user/sh.c:452-497 | the end of a word is never inside a word |
| `ShellStrings.WordsBecomeStrings` | user/sh.c:452-497 | afterwards the C string at the start of every word is that word |
| `ShellStrings.ParseCommand` | user/sh.c:331-346 | parsecmd accepts exactly what the recursive-descent function accepts in full, leaves the buffer alone on an error, and otherwise turns every word into a C string |
| `ShellPrint.ArgsParse` | user/sh.c:433-448 | printed arguments parse to exactly those words |
| `ShellPrint.OneRedir` | user/sh.c:378-401 | a printed redirection parses to that redirection |
| `ShellPrint.LineParses` | user/sh.c:348-450 | the printing of a command tree, wherever a line may end behind it, parses to that tree and nothing more |
| `ShellPrint.RoundTrip` | user/sh.c:331-450 | for every command tree with at most nine arguments per command and legal words, parsing its fully parenthesised printing gives the tree back |

## Left out

- Umalloc.Heap.Malloc: takes the memory that sbrk returns to be as long as morecore goes on to use; `Umalloc.RequestExact` shows that this is what was asked for exactly up to 2147483616 bytes.
- Umalloc.Heap.Morecore: takes the address that sbrk returns as a parameter, above `base` and apart from all memory obtained before; alignment of that address to 16 bytes is part of counting in units.
- Fs.Xv6fs.Writei: the user copy-in succeeds; when it fails the source leaves a buffer changed and not written.
- FsReload.ReadThenLoad: gives its condition for reads of at least one byte whose copy-out succeeds.
- VfsFile.File.Read: files of type FD_DEVICE are not modelled, because the branch only calls the device's own routine.
- VfsFile.File.Write: the same, and the copy-in succeeds as for writei.
- ProcRuns.NoOrphans: init does not call exit in the model; the source panics if it does, so a run ends there.
- ProcRuns.RunInv: a process owns no sleep lock when it calls exit; the source does not check this.
- ProcRuns.WaitReapsAChild: the exit status that wait copies out is not modelled.
- ProcOutcomes.MarkChanges: setkilled, by which a process marks itself after a fault, is not modelled; it has the effect of a kill of its own pid.
- ProcRuns.WaitedOnce: pids are unbounded numbers; the source's counter is a 32-bit int that would wrap.
- ProcRuns.HoldingSleepExact: is about the test that holdingsleep makes under the inner lock, not about the steps of the call, and rests on exit being called without sleep locks.
- ProcRuns.NoLostWakeupOnCondition: a condition is a fact that its setters turn true under the lock and follow with wakeup before they release it; that the code of a particular setter does so is shown for the disk driver, the sleep locks, exit and reparent.
- ProcRuns.InterruptsRestored: is about processes; the scheduler itself sets its own flag at each turn.
- Spinlock.OutermostRestores: has no context switch; `ProcRuns.InterruptsRestored` carries it across sched.
- BufferCache.RunInv: device numbers are positive, because every buffer starts as block 0 of device 0; threads call brelse only on buffers they have not changed since bread or bwrite, as the file system does.
- VirtioQueue.RunInv: the device reports success and each buffer is in at most one request, since its caller holds the buffer's sleep lock; the four fields of a descriptor are written in one step, and so are going to sleep and waking up, whose steps are those of `ProcRuns.NoLostWakeup`.
- VirtioMem.CarriesOutTheRequest: the device transfers a block in one step, and writes one slot of the used ring at a time.
- Dir.Unlink: path lookup, link counts and the inodes' reference counts are not part of it.
- Dir.ClearSlot: takes the block of the entry to be there, as the lookup before it leaves it.
- Crash safety: log blocks are reserved on disk, but the tree has no logging code.
- Path walks, inode reference counts, create and open error paths: their conservation is not a property of the code as it stands.
- Locks of the inode and file tables: the VFS layer takes none, so the file layer is modelled sequentially.
- Pipes: the bodies are commented out in the source.
- Weak memory: every memory access is sequentially consistent and the fences are taken as given.
- Liveness beyond spinlocks: fairness of the scheduler, and that a woken process runs in the end.
- Statistics, console, system-call plumbing, exec, hardware set-up, assembly and the other user programs: they would add easy members only.
- uvmfirst, uvmclear and the kernel page table: special cases of the operations modelled.
- Failing malloc in the shell's constructors: the source does not check for it.
