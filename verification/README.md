# A verified model of the kernel, its disk image and its user library

This project models the hardest parts of a small RISC-V teaching kernel in Dafny and proves what
they promise. `dafny verify dfyconfig.toml` checks everything. The parts are independent of each
other except where a file imports another.

**Virtual memory.** `Sv39`, `PageTable` and `Space` describe three-level page tables over real
table pages and prove that a table refines a finite map from page number to frame and flags, as the
hardware walk sees it. `Vm`, `CopyUser`, `AddressSpace`, `Exec` and `KernelMemory` run the page allocator,
`walk`, `mappages`, `uvmunmap`, `uvmalloc`, `uvmdealloc`, `freewalk`, `uvmcopy`, `copyout`, `copyin`,
`copyinstr`, `growproc`, `kfork` and `kexec` on that memory. Over every run of creating, growing,
shrinking, copying, replacing, writing to and freeing address spaces, wherever memory runs out, every
page is in exactly one place, teardown returns every page, and the kernel refines the machine of
`PrivateMemory`, in which every process has a memory of its own. How many pages an operation takes is exact,
and with it when it fails: `kfork` or `kexec` gives up if and only if the pages the new tables and memory
need are more than are free (or the program is not one).

**Processes.** `Scheduler` is a transition system whose steps are what one CPU does between two
points where another could notice: `scheduler`, `sched`, `yield`, `sleep`, `wakeup`, `kexit`,
`kwait`, `kkill`, the hand-over steps of `kfork`, sleep locks, and timer and device interrupts, whether
they find a process on the CPU or not. `SchedulerSafety`, `SchedulerLocks`, `SchedulerDevices`,
`SchedulerWait`, `SchedulerKill`, `SchedulerMissed` and `SchedulerRuns` prove, for any number of processes, CPUs and
locks and every interleaving, that no process runs twice, that no wakeup is lost, that when a driver's
wakeup returns nobody is left asleep on its channel, that no exited child is missed or reaped twice, and
that a process is killed just when `kkill` found it. `SchedulerAlone` proves that the steps of each operation,
gone through without interference, add up to what the operation promises.

**The disk image.** `FsFormat`, `FsTree`, `FsFile`, `FsBitmap`, `Mkfs`, `FsRead`, `FsDir`,
`FsPath` and `FsBuild` follow the bytes of an image from the builder to the kernel: whatever inodes are
made and bytes appended, in whatever order, the inodes have the types given and the kernel's reads return
exactly those bytes; and of a finished image, blocks are never shared, the bitmap is exact, and a path
string leads to the file given by that name.

**Devices and caches.** `Virtio` is the disk driver with its device; `VirtioRuns` proves that its descriptors
and wrapping rings refine plain queues of requests, in which a read that completes has the bytes of the last
write to its block. `Bio` is the buffer cache, which `BioRuns` proves to be as good as no cache but for
changes that were never written. `Console` is the console's input ring. `Fpu` is the lazy handing over of
floating-point registers, which refines a machine with a register file per process over every run. `FileRefs`
has open files and their reference counts over every run from the empty tables, what each call does, and when
one panics; `FileCalls` puts it on top of the bytes of an image.

**User programs.** `Umalloc` is the heap allocator, whose blocks `UmallocRuns` proves to be as good as
separate over every run. `Bpe` is the tokenizer of the language model, `Shell` the command line parser.
`MachineWords` has the word sizes they share.

**What fails.** Some properties do not hold of the code everywhere; each is stated with the exact
condition under which it does, and with a case where it does not.

- A process asleep in `kwait` is killed if and only if `kkill` found it between its test of killed and the taking
  of its lock in `sleep`; it then sleeps on (`SchedulerRuns.KillMissed`, `SchedulerRuns.MissHappens`).
- The builder rounds the root directory's size up past its last block when the entries fill that block,
  and then a lookup of a missing name panics (`FsBuild.RootLookup`, `FsBuild.MissingPanics`).
- A file's inode survives the writing of the bitmap if and only if it is one of the first 205
  (`FsBuild.FirstSurvive`, `FsBuild.LastFileLost`).
- An illegal instruction with a floating-point opcode puts the process's registers back to what they were
  at its last switch (`Fpu.TrapKeeps`, `Fpu.IllegalReverts`, `Fpu.LossHappens`).
- An instruction that uses the floating-point unit with an opcode the handler does not know, such as a
  compressed load or an access to the status register, kills the process if and only if it is the first
  since the process was switched to (`Fpu.Machine.Unknown`, `Fpu.KillHappens`).
- When the line being typed lies across the end of the 32-bit indices, backspace erases nothing and ^U
  never ends (`Console.Cons.Intr`, `Console.HangHappens`).
- A console read loses a byte if and only if the destination has less room than asked for and the line goes
  on past it (`Console.Cons.Read`, `Console.LossHappens`).
- A file call panics over a path that meets a directory that reads short, or with the inode table full of
  other inodes, and neither happens on an image of at most 48 files (`FileRefs.Boot`, `FileCalls.NeverPanics`).
- `malloc` of more than an `int` of bytes asks `sbrk` for something else (`Umalloc.Heap.Malloc`,
  `Umalloc.SbrkShrinks`).

Objects whose fields the source updates in place are classes; loops are loops; ghost fields carry
what the state means. Where several parties act at once, each method is one step, and a `Run`
method or a lemma over runs covers every interleaving.

## Model

| member | source | states |
|---|---|---|
| `Sv39.SlotsAreDistinct` | kernel/riscv/riscv.h:304-311 | two page numbers below MAXVA have the same three table indices only if they are equal |
| `Sv39.PteRoundTrip` | kernel/riscv/riscv.h:293-302 | an entry made from a frame and permissions gives back exactly that frame and those permissions, and is valid |
| `Sv39.ClearUserKeeps` | kernel/mm/vm.c:316-323 | clearing the user bit keeps frame, validity and leafness and takes user access away |
| `PageTable.ViewIsTranslation` | kernel/mm/vm.c:84-112 | the finite map carried with a table is what the hardware walk of its pages computes, for every address |
| `PageTable.LinkNodeOk` | kernel/mm/vm.c:100-110 | linking a fresh zeroed table page changes no binding of the table |
| `PageTable.SetEntryOk` | kernel/mm/vm.c:166-167 | writing one leaf entry changes exactly that page's binding |
| `PageTable.WfFrame` | kernel/mm/vm.c:96-112 | memory outside the table's own pages does not matter to it |
| `Space.AddLeaf` | kernel/mm/vm.c:140-173 | binding an unused page to an unused frame keeps frames and table pages apart and adds exactly one page |
| `Space.DropLeaf` | kernel/mm/vm.c:189-208 | unbinding a page removes exactly it and frees exactly its frame |
| `Vm.Machine.constructor` | kernel/mm/kalloc.c:36-41 | the free list holds exactly the whole pages between two addresses |
| `Vm.Machine.Kalloc` | kernel/mm/kalloc.c:67-79 | takes the head of the list and fills the page, or returns 0 just when the list is empty |
| `Vm.Machine.Kfree` | kernel/mm/kalloc.c:47-62 | puts a page of the arena that is not free at the head of the list |
| `Vm.Machine.Kfreemem` | kernel/mm/kalloc.c:85-95 | following the links counts every free page once |
| `Vm.Machine.Walk` | kernel/mm/vm.c:96-112 | reaches the slot of the page; without allocation it changes nothing; with it exactly the table pages missing on the way are added and no binding changes; it fails if and only if they are more than the free pages |
| `Vm.Machine.Mappages` | kernel/mm/vm.c:140-173 | binds consecutive pages to consecutive frames and takes exactly the table pages missing on their ways; fails if and only if these are more than the free pages, with exactly a prefix bound |
| `Vm.Machine.Uvmunmap` | kernel/mm/vm.c:189-208 | removes exactly the bindings of the range, gives back exactly their frames if asked, and keeps the other pages' bytes |
| `Vm.Machine.GrowPages` | kernel/mm/vm.c:219-234 | adds zeroed pages one by one until the size is covered or, just when they and the missing table pages are more than the free pages, memory runs out |
| `Vm.Machine.Uvmalloc` | kernel/mm/vm.c:212-236 | grows by zeroed pages with the given permissions, or leaves memory as it was, if and only if the pages and the table pages missing on their ways are more than the free pages |
| `Vm.Machine.Uvmdealloc` | kernel/mm/vm.c:242-252 | removes exactly the pages between the two sizes; asking for more changes nothing |
| `Vm.Machine.Freewalk` | kernel/mm/vm.c:256-270 | frees exactly the table pages at and below a node of a table without leaves; the leaf panic is unreachable |
| `Vm.Machine.Uvmfree` | kernel/mm/vm.c:274-278 | returns every page of an address space |
| `Vm.Machine.Uvmcopy` | kernel/mm/vm.c:286-312 | the child gets the parent's bytes and flags on its own frames, or no page at all, if and only if the pages and the table pages they need are more than the free pages; the parent is unchanged |
| `Vm.PagesFit` | kernel/mm/vm.c:212-236 | mapped user pages take distinct frames, so an address space never has more pages than the arena |
| `CopyUser.Walkaddr` | kernel/mm/vm.c:117-133 | gives the frame of a page just when user code can access it |
| `CopyUser.Copyout` | kernel/mm/vm.c:328-356 | writes exactly the longest prefix of the bytes whose addresses, across pages, lie on pages the user may write, and nothing else; succeeds just when that is all of them |
| `CopyUser.Copyin` | kernel/mm/vm.c:361-379 | returns the bytes at the address, across pages, or fails just when one is not readable |
| `CopyUser.Copyinstr` | kernel/mm/vm.c:385-420 | returns the string at the address with its NUL, or fails just when there is none within the limit and readable memory |
| `CopyUser.CopyRoundTrip` | kernel/mm/vm.c:328-379 | what was copied out is what is read back, whatever page boundaries it crosses |
| `CopyUser.Uvmclear` | kernel/mm/vm.c:316-323 | takes one page away from user code, keeping its frame and bytes |
| `AddressSpace.Uvmcreate` | kernel/mm/vm.c:177-184 | an empty table on one page, or nothing |
| `AddressSpace.ProcPagetable` | kernel/proc/proc.c:163-193 | a table with just the trampoline and trapframe, or every page given back, if and only if fewer than three pages are free |
| `AddressSpace.ProcFreepagetable` | kernel/proc/proc.c:197-201 | gives back every page of an address space but the trapframe's and the trampoline's |
| `AddressSpace.Replace` | kernel/proc/proc.c:219-236 | changing one process's memory keeps the layout of all processes and the bytes of the others |
| `AddressSpace.ExactlyOnePlace` | kernel/mm/kalloc.c:36-79 | every page of the pool is in exactly one place: the free list, or one process's table node, user page or trapframe |
| `AddressSpace.AllReturned` | kernel/proc/proc.c:141-159 | with no process left every page is free again |
| `Exec.Flags2perm` | kernel/proc/exec.c:13-20 | the page is executable just when flag 1, and writable just when flag 2, is set |
| `Exec.Loadseg` | kernel/proc/exec.c:148-171 | fills memory with the file's bytes; succeeds just when the file has them all; its panic is unreachable |
| `Exec.LoadSegment` | kernel/proc/exec.c:52-71 | memory reaches the segment's end, zero where the file has no bytes for it, and holds the file's bytes elsewhere; fails if and only if the header is bad, the file too short or the pages too few |
| `Exec.LoadAll` | kernel/proc/exec.c:52-71 | all segments of the program, taking exactly the pages and table pages they need; fails only for a bad program or if the whole image needs more than the free pages |
| `Exec.MakeStack` | kernel/proc/exec.c:78-89 | a guard page user code cannot touch and above it a writable page; the program's pages are unchanged |
| `Exec.PushArgs` | kernel/proc/exec.c:91-112 | every argument string is on the stack, and an aligned array of 8-byte little-endian numbers: the addresses of the strings in order and a zero; fails just when they do not fit the stack page |
| `Exec.BuildImage` | kernel/proc/exec.c:48-112 | a complete image of the program, its stack and its arguments from free pages if and only if the program is good, the arguments fit and the pages for the tables, the program and the stack are free; else every page put back |
| `KernelMemory.Kernel.Allocproc` | kernel/proc/proc.c:97-136 | a process with empty memory, or nothing changed, if and only if fewer than four pages are free |
| `KernelMemory.Kernel.Freeproc` | kernel/proc/proc.c:141-159 | all the process's pages are free again, the other processes untouched |
| `KernelMemory.Kernel.Growproc` | kernel/proc/proc.c:219-236 | the new size and the memory resized with zeroed pages, the trapframe as it was; or -1 and the memory as it was, if and only if the size passes the limit or the pages and missing table pages are more than the free pages |
| `KernelMemory.Kernel.Kfork` | kernel/proc/proc.c:240-267 | the child has the parent's memory on its own pages and every byte of its trapframe but those of a0, which are zero; or there is no child and no page lost, if and only if the pages for its trapframe, tables and memory are more than the free pages |
| `KernelMemory.Kernel.Kexec` | kernel/proc/exec.c:25-142 | the process has the new program and its arguments, and in its trapframe the entry point and the stack pointer as little-endian numbers and nothing else changed; or nothing changed and -1, if and only if the file is no program, is a bad one, the arguments do not fit or the pages do not suffice |
| `KernelMemory.Kernel.Store` | kernel/mm/vm.c:328-356 | a copyout to one process keeps the layout, changes the bytes written and not the trapframe, and nothing any other process sees |
| `KernelMemory.Kernel.Apply` | kernel/proc/proc.c:97-267 | one operation does to the process it names what it does where every process has a memory of its own, succeeds exactly when it does there, and changes no other process |
| `KernelMemory.Kernel.Run` | kernel/proc/proc.c:97-267 | any run of these operations and of copyouts is a run of the machine where every process has its own memory and trapframe, with the same outcomes; and when no process is left every page is back |
| `KernelMemory.Kernel.ForkAndRun` | kernel/proc/proc.c:240-267 | a fork succeeds if and only if there are enough pages, and then, whatever is done to one of the two processes, by copyout or otherwise, is invisible to the other |
| `PrivateMemory.RunKeeps` | kernel/proc/proc.c:97-267 | in every run of the machine with private memories a process changes only by operations on it |
| `PrivateMemory.ForkParts` | kernel/proc/proc.c:240-267 | in every run, after a fork each of the two has the memory of that moment until something is done to it |
| `SchedulerSafety.StepKeepsBase` | kernel/proc/proc.c:404-578 | every step of every CPU, with or without a process, keeps the agreement of process states, current processes, saved contexts and held locks |
| `SchedulerSafety.InterruptedKeeps` | kernel/proc/trap.c:150-175 | a timer or device interrupt at any point where a thread holds no lock keeps the agreement |
| `SchedulerSafety.IdleKeeps` | kernel/proc/proc.c:544-556 | a device interrupt on a CPU without a process, whose wakeup visits every process, keeps the agreement |
| `SchedulerLocks.StepKeepsSleep` | kernel/sync/sleeplock.c:19-35 | every step keeps, for each sleep lock, its recorded holder and that sleepers on it will be woken |
| `SchedulerLocks.OneHolder` | kernel/sync/sleeplock.c:19-27 | two holders of a sleep lock are the same process, the recorded one |
| `SchedulerLocks.NoLostWakeup` | kernel/proc/proc.c:515-556 | while the inner spinlock is free, a process asleep on a sleep lock, or on its way, means the lock is held |
| `SchedulerDevices.StepKeepsDevices` | kernel/proc/proc.c:515-556 | every step keeps that nobody the wakeup of a device's channel has passed, on a process's CPU or an idle one, is asleep there or past the last test before it |
| `SchedulerKill.KillHits` | kernel/proc/proc.c:566-570 | a kill marks its target and makes it RUNNABLE if it was SLEEPING; no other process changes |
| `SchedulerKill.StepMarks` | kernel/proc/proc.c:137-159 | no step but a kill marks a process, and no step unmarks one but by freeing its slot |
| `SchedulerWait.StepKeepsWait` | kernel/proc/proc.c:294-395 | every step keeps parents alive, exits and reapings matched, waiting parents without exited children, and the scan of kwait right about which children it has passed |
| `SchedulerWait.NoZombieMissed` | kernel/proc/proc.c:348-395 | while wait_lock is free, a process blocked in kwait has no exited child |
| `SchedulerWait.Parenthood` | kernel/proc/proc.c:294-344 | a parent is alive, every started process but init has one, and a process is a zombie just when it has one more exit than reapings |
| `SchedulerRuns.EveryState` | kernel/proc/proc.c:204-578 | all these invariants, of sleep locks, device channels, parents and children, hold in every state of every run from boot, interrupts included |
| `SchedulerRuns.OneCpu` | kernel/proc/proc.c:404-476 | no process runs on two CPUs; with its lock free it is RUNNING just when a CPU has it as current, and if RUNNABLE or SLEEPING its context is saved and unused |
| `SchedulerRuns.SchedChecks` | kernel/proc/proc.c:450-467 | the checks of sched hold: p->lock is held and nothing else, and the state is no longer RUNNING |
| `SchedulerRuns.SleepLockSafety` | kernel/sync/sleeplock.c:19-35 | in every run a sleep lock has one holder and no one sleeps on a free one |
| `SchedulerRuns.WaitSafety` | kernel/proc/proc.c:308-395 | in every run no exited child is missed, parents are alive, and each exit is reaped at most once |
| `SchedulerRuns.WaitSeesChildren` | kernel/proc/proc.c:348-395 | in every run kwait stops only over the caller's children, and at the end of its scan it has seen some just when there are some |
| `SchedulerRuns.DeviceSafety` | kernel/proc/proc.c:515-556 | in every run nobody a wakeup of a device's channel has passed is asleep on that channel or on the way |
| `SchedulerRuns.WakeupReturns` | kernel/proc/proc.c:544-556 | in every run, when a driver's or a handler's wakeup returns, no other process is asleep on the channel |
| `SchedulerRuns.KilledForGood` | kernel/proc/proc.c:558-578 | in every run a process is killed if and only if kkill found it and its slot was not freed since |
| `SchedulerRuns.KillMissed` | kernel/proc/proc.c:387-393 | in every run a process asleep in kwait, or past its test of killed on the way there, is killed if and only if kkill found it between that test and the taking of its lock by sleep |
| `SchedulerRuns.MissHappens` | kernel/proc/proc.c:387-393 | from any start with two slots and two CPUs a run leads to a state where init is killed and asleep in kwait |
| `SchedulerAlone.WakeAlone` | kernel/proc/proc.c:544-556 | wakeup, without interference, makes exactly the other sleepers on the channel runnable and returns to where it was called |
| `SchedulerAlone.SleepAlone` | kernel/proc/proc.c:515-540 | sleep leaves the process asleep on its channel, the lock it came with free and its CPU back in the scheduler loop |
| `SchedulerAlone.AcquireAlone` | kernel/sync/sleeplock.c:19-27 | acquiresleep takes a free lock, and on one that is held falls asleep |
| `SchedulerAlone.ReleaseAlone` | kernel/sync/sleeplock.c:29-35 | releasesleep frees the lock and makes exactly those asleep on it runnable |
| `SchedulerAlone.ResumeAlone` | kernel/sync/sleeplock.c:19-27 | a process that slept on a lock which is now free, dispatched, has the lock |
| `SchedulerAlone.ForkAlone` | kernel/proc/proc.c:240-290 | kfork with an unused slot makes it a runnable child of the caller that starts afresh |
| `SchedulerAlone.ExitAlone` | kernel/proc/proc.c:308-344 | kexit gives every child to init, which is woken if there is one, wakes the parent and leaves a zombie and a free CPU |
| `SchedulerAlone.WaitAlone` | kernel/proc/proc.c:348-395 | kwait with an exited child frees the slot of the first and changes nothing else |
| `SchedulerAlone.WaitSleeps` | kernel/proc/proc.c:348-395 | kwait with children of which none has exited falls asleep on the caller's channel with wait_lock free, unless it is killed |
| `SchedulerAlone.YieldAlone` | kernel/proc/proc.c:470-476 | a timer interrupt wherever a process holds no lock leaves it runnable, to go on where it was, with the CPU free |
| `SchedulerAlone.DispatchAlone` | kernel/proc/proc.c:404-441 | the scheduler loop runs a runnable process, with its lock held |
| `SchedulerAlone.GoOnAlone` | kernel/proc/proc.c:470-476 | a process that yielded, dispatched on any CPU, goes on where it was |
| `SchedulerAlone.DeviceAlone` | kernel/proc/proc.c:544-556 | a driver that wakes its channel makes exactly the others asleep there runnable |
| `SchedulerAlone.HandlerAlone` | kernel/proc/trap.c:150-175 | a device's interrupt in the middle of kfork, or before sleep takes its lock again, makes exactly the others asleep on the channel runnable, and the process goes on where it was |
| `SchedulerAlone.InterruptAlone` | kernel/proc/trap.c:150-175 | a device's interrupt on a CPU without a process makes exactly those asleep on the channel runnable |
| `FsFormat.GetPutU32` | tools/mkfs.c:60-68 | a little-endian word reads back as written and other words are not disturbed |
| `FsTree.SetPtrAt` | tools/mkfs.c:263-299 | storing a fresh zeroed block in an empty place of a pointer tree changes that pointer and no other, at any depth |
| `FsTree.AllocTree` | tools/mkfs.c:223-229 | allocating a block for a place keeps the whole image a tree: used blocks each serve one place, the rest are zero |
| `FsTree.NoSharing` | tools/mkfs.c:248-310 | two places, of one inode or two, never share a block |
| `FsFile.FillBytes` | tools/mkfs.c:263-299 | allocating index or data blocks changes no byte of any file |
| `FsFile.WriteByte` | tools/mkfs.c:300-303 | rewriting a data block changes those bytes of that file and no byte of another file |
| `Mkfs.NodeRoundTrip` | tools/mkfs.c:179-200 | an inode reads back as written, and the others in its block are not disturbed |
| `Mkfs.InodeFits` | include/fs.h:47-50 | inode numbers below 208, and no others, are within the inode blocks; those below 352, and no others, before the first data block |
| `Mkfs.Builder.constructor` | tools/mkfs.c:91-115 | a zeroed image whose superblock holds the layout |
| `Mkfs.Builder.Ialloc` | tools/mkfs.c:209-221 | the next inode has the given type and device numbers, one link, size zero and no blocks, also where it lies in the bitmap; no other inode and no file changes |
| `Mkfs.Builder.BlockFor` | tools/mkfs.c:263-299 | finds or allocates the block of a position with its index blocks; fails just when too few blocks are left; other files unchanged |
| `Mkfs.Builder.AppendPiece` | tools/mkfs.c:260-307 | one turn of the append loop extends the file by the piece |
| `Mkfs.Builder.Iappend` | tools/mkfs.c:248-310 | the file is its old contents followed by the bytes, no other file changes, exactly the needed blocks are used; fails just when size or blocks do not suffice |
| `FsBitmap.SetBitIs` | tools/mkfs.c:240 | setting a bit sets that bit and no other |
| `FsBitmap.Balloc` | tools/mkfs.c:231-244 | the bitmap blocks hold exactly the bits of the blocks below the first free one, and only they are written |
| `FsRead.BmapIsPtr` | kernel/fs/fs.c:225-262 | the kernel's block lookup finds the pointer at that place of the tree, or leaves the disk just when a pointer on the way does |
| `FsRead.Readi` | kernel/fs/fs.c:278-301 | of any inode, delivers the file's bytes from the offset, clipped to its size, up to the first block that is missing, off the disk or beyond the largest file; returns -1 just when the caller's memory ends before that |
| `FsRead.ReadableReturns` | kernel/fs/fs.c:225-301 | a read of an inode whose blocks are on the disk and whose size a file can have never panics |
| `FsDir.DirentRoundTrip` | include/fs.h:63-66 | a directory entry reads back as written |
| `FsDir.NamecmpIsSame` | kernel/fs/fs.c:305 | two name fields compare equal just when they spell the same name |
| `FsDir.Dirlookup` | kernel/fs/fs.c:309-331 | the first matching entry; without one, missing, or a panic just when the size reaches a missing block |
| `FsPath.Skipelem` | kernel/fs/fs.c:347-368 | takes the first of the path's elements into the name field and leaves the others; fails just when there is none |
| `FsPath.ElementAt` | kernel/fs/fs.c:355-357 | a stretch without slashes that ends at a slash or the end is one element |
| `FsPath.FieldMatches` | kernel/fs/fs.c:358-364 | a lookup takes a name field, whatever it held before, for the element cut to 14 characters |
| `FsPath.InodeOfIs` | kernel/fs/fs.c:309-331 | the inode a name stands for is the first with that name in the root directory |
| `FsPath.Namei` | kernel/fs/fs.c:371-398 | on a finished image a path string leads where its elements lead from the root, nowhere, or to a panic just when a name is missing from a full root directory |
| `FsPath.PathFinds` | kernel/fs/fs.c:371-398 | the path of a slash and a name leads to the first file given by that name, whose bytes are those given |
| `FsBuild.ReadExact` | kernel/fs/fs.c:278-301 | for every offset, length and room a read of a built file is exactly that slice, across all block boundaries, and fails just when the room is short |
| `FsBuild.Finished` | tools/mkfs.c:160-167 | rounding the root's size and writing the bitmap leave every file readable and the root's entries in place |
| `FsBuild.MakeImage` | tools/mkfs.c:70-170 | succeeds if and only if there are at most 349 files and names, file sizes and total blocks fit; the image then has the first 205 files under their names with their types, one link each and their bytes, the root directory, an exact bitmap, no shared blocks and exactly the blocks the files need; tells exactly when a 350th file is reached |
| `FsBuild.BuildAny` | tools/mkfs.c:209-310 | any sequence of new inodes and appends to them succeeds if and only if blocks and sizes suffice throughout, and then each inode has the type and device numbers given and the kernel reads in it exactly what was appended to it |
| `FsBuild.BitmapExact` | tools/mkfs.c:231-244 | a block outside the metadata is marked just when some inode's pointer tree has it |
| `FsBuild.RootLookup` | tools/mkfs.c:160-165 | a lookup finds the first file of that name; for a missing name it panics if and only if the number of entries is a multiple of 64 |
| `FsBuild.MissingPanics` | tools/mkfs.c:160-165 | an image of 62 files is made, and looking up a name it does not have panics |
| `FsBuild.PastInodeBlocks` | tools/mkfs.c:209-244 | what the bitmap leaves in the place of an inode from 208 to 351 is never a file's inode |
| `FsBuild.FirstSurvive` | tools/mkfs.c:209-244 | in a finished image a file's inode and bytes survive if and only if it is one of the first 205 |
| `FsBuild.LastFileLost` | tools/mkfs.c:209-244 | an image of 206 files is made, and the last is lost |
| `FsBuild.OverrunHappens` | tools/mkfs.c:209-221 | 350 files whose names and blocks fit reach the place of the root directory's entries |
| `FsBuild.Rounding` | tools/mkfs.c:163 | the rounded size stays within the allocated blocks if and only if the last block is not full |
| `Virtio.Disjoint` | kernel/dev/virtio_disk.c:193-203 | requests in flight own disjoint chains of descriptors, none of them free |
| `Virtio.RingPut` | kernel/include/virtio.h:58-89 | publishing an entry overwrites no unread one, also when the 16-bit indices wrap |
| `Virtio.RingGet` | kernel/dev/virtio_disk.c:298-300 | the indices differ just when there is an entry, and the entry read is the oldest |
| `Virtio.Driver.constructor` | kernel/dev/virtio_disk.c:118-144 | everything free, both rings empty |
| `Virtio.Driver.AllocDesc` | kernel/dev/virtio_disk.c:154-162 | the first free descriptor, or -1 just when there is none |
| `Virtio.Driver.Alloc3Desc` | kernel/dev/virtio_disk.c:193-203 | three free descriptors, or none taken just when there are not three |
| `Virtio.Driver.FreeChain` | kernel/dev/virtio_disk.c:165-189 | frees exactly the three descriptors of a chain; neither panic is reachable |
| `Virtio.Driver.Begin` | kernel/dev/virtio_disk.c:205-221 | the caller has three descriptors if and only if fewer than two requests are in flight, and else sleeps |
| `Virtio.Driver.Format` | kernel/dev/virtio_disk.c:226-257 | the descriptors describe the request, the device may write its data exactly if it is a read, and its buffer is marked; requests in flight are not disturbed |
| `Virtio.Driver.PostEntry` | kernel/dev/virtio_disk.c:260 | the head is in the ring's next entry, no unread entry lost |
| `Virtio.Driver.PostIndex` | kernel/dev/virtio_disk.c:265 | the request is in flight, last in the queue |
| `Virtio.Driver.Take` | kernel/include/virtio.h:58-89 | the device takes the oldest request not taken |
| `Virtio.Driver.Complete` | kernel/include/virtio.h:58-89 | in any order, the device, obeying the flags of the descriptors, transfers exactly between the buffer and the block its caller named, or reports an error, and then at most those two are left with anything; either is added to the history |
| `Virtio.Driver.IntrStep` | kernel/dev/virtio_disk.c:298-310 | the oldest completion clears the flag of exactly its own buffer; panics if and only if the device reported an error for it |
| `Virtio.Driver.Intr` | kernel/dev/virtio_disk.c:282-313 | the completions up to the first with an error are seen, in order, and exactly their buffers are cleared; it panics if and only if there is one with an error |
| `Virtio.Driver.Finish` | kernel/dev/virtio_disk.c:271-280 | the caller returns only with its request complete without error, its buffer holding the bytes the history has for it |
| `VirtioRuns.Run` | kernel/dev/virtio_disk.c:205-313 | any interleaving of driver and device steps is a run of plain queues of requests, each step with that effect and possible exactly when it is there, until the driver panics over an error the device reported; every read that completed has the bytes of the last write to its block that did, or what the block had at the start |
| `VirtioRuns.LogGrows` | kernel/include/virtio.h:58-89 | in every run of the queues nothing the device has carried out is undone |
| `Umalloc.NoOverlap` | user/lib/umalloc.c:24-84 | two blocks of the heap never overlap |
| `Umalloc.LinkRing` | user/lib/umalloc.c:35-40 | linking a block in keeps the ring ordered by address with one wrap |
| `Umalloc.MergeRing` | user/lib/umalloc.c:31-38 | joining two neighbours keeps the ring and leaves no further pair touching |
| `Umalloc.MergeTiled` | user/lib/umalloc.c:31-38 | joining two neighbours keeps the blocks an exact tiling of the memory |
| `Umalloc.SbrkExact` | user/lib/umalloc.c:50 | sbrk is asked for the bytes meant if and only if their number fits an int |
| `Umalloc.SbrkShrinks` | user/lib/umalloc.c:50 | a request of the largest int asks sbrk to shrink memory |
| `Umalloc.Units` | user/lib/umalloc.c:63 | the fewest header units that hold the bytes and a header |
| `Umalloc.Heap.constructor` | user/lib/umalloc.c:21-22 | an empty heap whose list is not set up |
| `Umalloc.Heap.Search` | user/lib/umalloc.c:28-30 | the search ends, at the node after which the block goes |
| `Umalloc.Heap.Free` | user/lib/umalloc.c:24-42 | the block is free and joined to its neighbours; ring, tiling and the other blocks' bytes are kept |
| `Umalloc.Heap.Morecore` | user/lib/umalloc.c:44-57 | the memory from sbrk is in the list, at or just after the returned node, or nothing changed |
| `Umalloc.Heap.Carve` | user/lib/umalloc.c:69-78 | takes a block whole or its tail, leaving ring and tiling in order |
| `Umalloc.Heap.Seek` | user/lib/umalloc.c:68-83 | the search ends; it takes a block just when one is large enough, and asks for more memory at most once |
| `Umalloc.Heap.Malloc` | user/lib/umalloc.c:59-84 | a block no one has, of the units asked; sbrk is called at most once and only when no free block fits, and with the wrong number if and only if the units then needed pass its int argument; the search ends; the other blocks' bytes are kept |
| `Umalloc.Heap.Write` | user/lib/umalloc.c:24-84 | a program that writes inside a block it has disturbs no header and no other block |
| `UmallocRuns.Run` | user/lib/umalloc.c:24-84 | any run of a program that frees and writes only blocks it has is a run of separate blocks: each allocation gives a new one just large enough, and nothing done to one block changes another |
| `UmallocRuns.BlockLasts` | user/lib/umalloc.c:24-84 | in every run a block holds what was last written to it until it is given back |
| `Bio.PushOk` | kernel/fs/bio.c:119-122 | putting a buffer in after the head keeps the list ordered and both directions in agreement |
| `Bio.UnlinkOk` | kernel/fs/bio.c:117-118 | taking a buffer out keeps the rest of the list |
| `Bio.Permutation` | kernel/fs/bio.c:25-50 | the list is always a permutation of all buffers, most recently released first |
| `Bio.OneBuffer` | kernel/fs/bio.c:55-84 | only one buffer holds a caller's block, and it is referenced |
| `Bio.Bcache.constructor` | kernel/fs/bio.c:35-50 | the list has all buffers, none in use |
| `Bio.Bcache.FindCached` | kernel/fs/bio.c:60-68 | the buffer with the block, or none just when there is none |
| `Bio.Bcache.FindVictim` | kernel/fs/bio.c:70-82 | the unreferenced buffer released longest ago, or none just when all are in use |
| `Bio.Bcache.Bget` | kernel/fs/bio.c:55-84 | a reference to the block's buffer, recycled only if unreferenced and released longest ago, unwritten changes lost; panics just when all are in use and the block is not cached |
| `Bio.Bcache.Acquire` | kernel/fs/bio.c:65-66 | the caller holds the buffer, which is still its block's |
| `Bio.Bcache.Fetch` | kernel/fs/bio.c:87-96 | the holder of an unmodified buffer has the disk's bytes |
| `Bio.Bcache.Bwrite` | kernel/fs/bio.c:99-103 | the disk has the buffer's bytes |
| `Bio.Bcache.Unlock` | kernel/fs/bio.c:107-111 | the lock is free and the reference still counted, whether or not the buffer was written |
| `Bio.Bcache.Drop` | kernel/fs/bio.c:113-125 | one reference less, and a buffer without any is now the most recently released |
| `BioRuns.Run` | kernel/fs/bio.c:35-126 | any interleaving of callers is a run of a store of blocks without a cache: a caller sees the last change of its block; unwritten changes of a block nobody uses may be forgotten when another is asked for, never others; two callers never hold a block; and asking for a block panics if and only if thirty others are in use |
| `BioRuns.ShownUntilChanged` | kernel/fs/bio.c:55-126 | in every run of the store a block shows the same to every caller until it is changed, as long as it is in use or what it shows is on the disk |
| `BioRuns.SomeFree` | kernel/fs/bio.c:70-82 | with an unreferenced buffer fewer than thirty blocks are in use |
| `BioRuns.AllInUse` | kernel/fs/bio.c:83 | with every buffer referenced thirty blocks are in use |
| `Fpu.OneActive` | kernel/proc/fpu.c:9-28 | an active process is on a CPU whose registers are its own, so no CPU has two |
| `Fpu.TrapKeeps` | kernel/proc/fpu.c:19-28 | the trap leaves a process what it had if and only if its registers are not in the CPU or are unchanged since they were saved |
| `Fpu.SwitchesHidden` | kernel/proc/fpu.c:9-28 | with only instructions the handler knows, what a process sees depends on what it wrote and not on when it was switched |
| `Fpu.IllegalReverts` | kernel/proc/trap.c:80-81 | an illegal instruction undoes what the process wrote since its last switch |
| `Fpu.LossHappens` | kernel/proc/trap.c:80-81 | from the start: a process writes its registers, reads back what it wrote, executes an illegal instruction and reads 33 zeros |
| `Fpu.KillHappens` | kernel/proc/trap.c:25-36 | from the start: an instruction the handler does not know is carried out after one that it does, but kills the process if that was switched in between |
| `Fpu.Machine.constructor` | kernel/include/proc.h:120-122 | every process starts from zero registers with its unit off, on no CPU |
| `Fpu.Machine.Save` | kernel/proc/fpu.c:9-17 | the process's registers are saved if they were in the CPU, and its private values are unchanged |
| `Fpu.Machine.HandleTrap` | kernel/proc/fpu.c:19-28 | the CPU's registers and the process's private values become what was last saved, zero the first time |
| `Fpu.Machine.Return` | kernel/proc/trap.c:137-142 | the unit is on in user code just when the process is active |
| `Fpu.Machine.Execute` | kernel/proc/trap.c:25-36 | an instruction with one of the seven opcodes sees what this process last wrote, and changes only its private values |
| `Fpu.Machine.Illegal` | kernel/proc/trap.c:80-81 | an instruction that is illegal even with the unit on puts the process's values back to its last switch |
| `Fpu.Machine.Unknown` | kernel/proc/trap.c:87-92 | an instruction with another opcode kills the process if and only if its registers are not in the CPU; else it sees what the process last wrote |
| `Fpu.Machine.Deschedule` | kernel/proc/proc.c:450-467 | leaving a CPU loses no register of any process and takes a snapshot of the process's |
| `Fpu.Machine.Dispatch` | kernel/proc/proc.c:404-441 | a process can be resumed on any CPU with its registers intact |
| `Fpu.Machine.Fork` | kernel/proc/proc.c:258-264 | the child starts with the parent's values, the parent keeps its own |
| `Fpu.Machine.Free` | kernel/proc/proc.c:150-152 | the slot's next process starts from zero |
| `Fpu.Machine.Run` | kernel/proc/fpu.c:9-28 | over any actions the machine with one register file per CPU is in the state of the machine with one per process, and every instruction sees what it would see there |
| `FileRefs.Counts` | kernel/fs/file.c:25-68 | between calls a file's count is the number of descriptors naming it and an inode's that of files in use on it plus working directories |
| `FileRefs.TouchOk` | kernel/fs/file.c:25-68 | a step that accounts for what it touches keeps every count right |
| `FileRefs.Tables.constructor` | kernel/fs/fs.c:115-122 | empty tables and no process |
| `FileRefs.Tables.Iget` | kernel/fs/fs.c:129-158 | one more reference to the only entry of the inode; panics just when there is no entry for it and none free |
| `FileRefs.Tables.Idup` | kernel/fs/fs.c:162-167 | one more reference to that inode |
| `FileRefs.Tables.Iput` | kernel/fs/fs.c:207-211 | one reference less to that inode |
| `FileRefs.Tables.Start` | kernel/fs/fs.c:374-377 | a reference to the root or to the working directory; fails just when the table is full of other inodes |
| `FileRefs.Tables.Namex` | kernel/fs/fs.c:371-393 | a reference to the inode the path leads to; if it leads nowhere no count has changed; panics only with the table full of inodes other than one asked for, or where the path meets an inode without a type or a directory that reads short |
| `FileRefs.Tables.Filealloc` | kernel/fs/file.c:25-38 | the first unused file with one reference, or failure just when all are in use |
| `FileRefs.Tables.Fileclose` | kernel/fs/file.c:51-68 | one reference less; the last releases the inode |
| `FileRefs.Tables.FreeFd` | kernel/fs/sysfile.c:40-51 | the lowest unused descriptor, or -1 just when all are used |
| `FileRefs.Tables.Dup` | kernel/fs/sysfile.c:53-63 | a second descriptor, the lowest unused one, for the file with its own reference, or nothing changed |
| `FileRefs.Tables.Close` | kernel/fs/sysfile.c:90-99 | the descriptor is gone with its reference, or nothing changed |
| `FileRefs.Tables.Open` | kernel/fs/sysfile.c:123-172 | a new file on the inode the path leads to, a device file just when that is a device, readable and writable as the mode says, in the lowest unused descriptor; fails only if the path, its type, the mode or the tables do not allow it, and then changes no count |
| `FileRefs.Tables.Fork` | kernel/proc/proc.c:269-273 | the child has the parent's descriptors and directory, each with a reference of its own |
| `FileRefs.Tables.Exit` | kernel/proc/proc.c:314-324 | every descriptor closed and the working directory released |
| `FileRefs.Tables.Userinit` | kernel/proc/proc.c:204-215 | the first process starts in the root directory with one reference to it; fails just when there is no entry |
| `FileRefs.Tables.Exec` | kernel/proc/exec.c:35-75 | reading a program leaves every count as it was |
| `FileRefs.Tables.Apply` | kernel/fs/sysfile.c:53-172 | a call that returns has done what that call does to the descriptors and files, kept the counts exact and every file of the kind of its inode; it panics over a path that cannot be followed, or with the table full of inodes other than one asked for |
| `FileRefs.Tables.Run` | kernel/fs/sysfile.c:53-172 | over any calls of any processes each that returns has the effect of that call and between calls every count is the number of its holders and every file is of the kind of its inode, up to the first that panics, and that is over such a path or such a table |
| `FileRefs.SoundWalk` | kernel/fs/fs.c:371-393 | where every entry leads to an inode with a type and no directory reads short, no path panics |
| `FileRefs.CrowdedIs` | kernel/fs/fs.c:129-158 | the table can be full of inodes other than one asked for only if the image has more inodes than the table |
| `FileRefs.NothingLeft` | kernel/fs/file.c:51-68 | with no process left no file and no inode is referenced |
| `FileRefs.Boot` | kernel/proc/proc.c:204-215 | from the empty tables and the first process without files, any calls have their effects, keep the counts exact and files of their inodes' kinds, and leave none when every process is gone; a call panics only over such a path or table, and none does if every path can be followed and the image has at most 50 inodes |
| `FileCalls.SameWalk` | kernel/fs/fs.c:371-393 | a path leads to the same place over the table of names as over the bytes of the image |
| `FileCalls.SoundImage` | tools/mkfs.c:160-165 | every path over a finished image can be followed if and only if the number of root entries is not a multiple of 64 |
| `FileCalls.NeverPanics` | kernel/fs/sysfile.c:53-172 | on an image of at most 48 files no file call of any process in any run panics, and each has its effect |
| `Bpe.Rank` | user/lib/llm.c:493-502 | the first merge of a pair |
| `Bpe.Pick` | user/lib/llm.c:455-467 | the longest special piece that starts the text, the first listed of the longest |
| `Bpe.StartsWith` | user/lib/llm.c:425-431 | whether a piece without NUL starts the text, reading no further than the NUL after it |
| `Bpe.SplitFlat` | user/lib/llm.c:451-484 | when every byte has its token, the pieces of the cut text spell the text |
| `Bpe.GreedyUnique` | user/lib/llm.c:486-512 | merging the lowest-ranked leftmost pair until none is left has one result |
| `Bpe.MergesFlat` | user/lib/llm.c:505-511 | when merging joins pieces, greedy merging keeps the text and a leading marker, and never adds tokens |
| `Bpe.FillTokens` | user/lib/llm.c:451-484 | the array holds the cut text, or fails just when a byte has no token or the array is too short |
| `Bpe.FindBest` | user/lib/llm.c:487-504 | the lowest-ranked leftmost pair, or none just when no pair can be merged |
| `Bpe.Replace` | user/lib/llm.c:505-511 | the pair is replaced by its merge in the array |
| `Bpe.MergeAll` | user/lib/llm.c:486-512 | the loop ends with the result of greedy merging and no mergeable pair |
| `Bpe.Encode` | user/lib/llm.c:433-520 | the tokens are those of greedy merging of the cut text with the markers; fails just when a byte has no token or the array is too short |
| `Bpe.RoomSuffices` | user/bin/next.c:54-60 | an array as long as the text plus the markers always suffices |
| `Bpe.SpellsText` | user/lib/llm.c:433-520 | with consistent pieces the tokens after the marker spell the text |
| `Console.Cons.constructor` | kernel/dev/console.c:45-55 | an empty ring |
| `Console.Compares` | kernel/dev/console.c:57-69 | comparing two indices less than a ring apart in 32 bits goes wrong if and only if they lie across a multiple of 2^32 |
| `Console.HangHappens` | kernel/dev/console.c:215-227 | from an empty ring, typing and reading lines leads to a line that lies so, and there ^U never ends |
| `Console.SlotIs` | kernel/dev/console.c:158 | the place of an index in the ring is the same with the index cut to 32 bits |
| `Console.Cons.CharLen` | kernel/dev/console.c:57-69 | the bytes of the last character of the line, none just when the line lies across the end of the indices |
| `Console.Cons.Erase` | kernel/dev/console.c:229-237 | removes the last character of the line, unless that lies across the end of the indices, and no committed byte |
| `Console.Cons.KillLine` | kernel/dev/console.c:215-227 | removes the whole line; never ends just when that lies across the end of the indices |
| `Console.EraseWhole` | kernel/dev/console.c:57-69 | erasing after a whole UTF-8 character, of one to four bytes in their ranges, leaves the line before it |
| `Console.Cons.TypeAndErase` | kernel/dev/console.c:194-260 | a UTF-8 character that fits, typed and erased, leaves the line as it was, if that does not lie across the end of the indices |
| `Console.Cons.Intr` | kernel/dev/console.c:194-260 | the line becomes what the key makes of it: a character less, none, or one more and committed at its end, at ^D, when full or in raw mode, also while the indices wrap; hangs just for ^U across their end |
| `Console.Cons.ReadStep` | kernel/dev/console.c:158-181 | the next committed byte goes to the reader, ^D ends the read and is kept if there is something to return |
| `Console.Cons.Read` | kernel/dev/console.c:140-186 | successive reads deliver the committed stream without ^D, but for a byte that is lost if and only if the destination has less room than was asked for and the line goes on past it; a read ends at its length, at a newline or at ^D, which ends the next read instead if this one has bytes to return; the mode may change while it waits, and it never ends just when a key typed meanwhile hangs |
| `Console.LossHappens` | kernel/dev/console.c:169-172 | from an empty ring, a read of three bytes with room for one delivers a byte and loses the next |
| `Shell.CopyWord` | user/bin/sh.c:374-385 | one argument copied down without its quotes, the unread text undisturbed |
| `Shell.WordsOf` | user/bin/sh.c:366-389 | the arguments of a line are its first word and those of the rest |
| `Shell.LineWords` | user/bin/sh.c:366-389 | a line of words written with spaces or tabs between and with any stretches of each in single or double quotes is parsed into exactly those words |
| `Shell.Parsecmd` | user/bin/sh.c:361-392 | each argument's address holds that argument of the original line; panics just when there are too many |

## Left out

- Memory ordering, boot, FDT parsing, assembly and device registers: `swtch` and saving or restoring registers are atomic steps, and interrupts come where the model has no lock held.
- The kernel's own page table (`kvmmake`) and the stubs `vmfault`, `sys_vmstat` and `sys_filemap`.
- Allocation by other CPUs in the middle of a memory operation: `kalloc` fails exactly when the list is empty, and the order of the list is the model's.
- Liveness: that a sleeper is scheduled, or that a caller of the disk driver gets descriptors. Process identifiers: `kkill` picks any process.
- The scheduler is modelled on values, as a transition system over process, CPU and lock states, not as objects updated in place.
- KernelMemory.Kernel.Kexec: takes a 64-bit entry point, fewer than 32 arguments shorter than a page and a file no longer than the file system allows, which the types and the system call guarantee.
- Vm.Machine.constructor: takes memory that ends below the last page of user addresses; `kvmmake` maps all memory at its own address below the stacks and the trampoline, so a kernel with more does not boot. This is why growth past that page, which `kexec` does not check for, runs out of memory first.
- Exec.Loadseg: its 32-bit file positions do not wrap because of the bound on file length.
- Mkfs.Builder.Ialloc: takes an inode number below 352; the source does not check this, and would write a later inode over a data block.
- FsBuild.MakeImage: stops at the 350th file, whose inode would go over the root directory's entries; the names are those after the directory part and the leading underscore are dropped; reading the input files and the host's file system calls are not modelled.
- FsRead.Readi: what the driver does when asked for a block that the disk does not have is not modelled, only that the read then comes to that; the buffer cache is taken to hold the disk's bytes, which `Bio` proves of buffers without unwritten changes.
- Virtio.Driver.Complete: the device completes a request in one step. Feature negotiation is not modelled.
- Umalloc.Heap.Malloc: stops where sbrk would be asked for the wrong number; addresses are aligned to headers; sizes are not cut to 32 bits.
- `bpin` and `bunpin` have no caller and are not modelled.
- FileRefs.Tables.Namex: the path is given as its elements and the directories as a table of names; `FsPath.Namei` goes from the string to the inode on the bytes of an image, and `FileCalls.SameWalk` proves the two walks the same. System calls are taken one at a time.
- Umalloc.Heap.Write: stands for what programs do with their memory; a run has only programs that free and write blocks they have.
- Fpu.Machine.Unknown: a process is killed only by its own instruction; `kkill` is in `Scheduler`.
- PrivateMemory.Does: growing fails there only for a positive amount; `Growproc` has the exact condition, which depends on table pages left by earlier shrinking.
- Console.Cons.Intr: takes a console whose handler is not stuck in the endless ^U.
- Echoing and cursor widths on the console.
- Floating-point arithmetic (`llm_forward`, `math.c`), `printf`, line editing, history and completion.
