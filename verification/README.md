# A verified model of the JOS kernel, its user library and the prime pipeline

These modules model the parts of the repository that are protocols or algorithms over shared, mutable
state, and prove what those parts are for. Each module models one component and can be read alone.

| module | component |
|---|---|
| `Cow` | copy-on-write fork, as steps of several environments, against eager copying |
| `Pmap` | physical pages, 16-bit reference counts, two-level page tables, creation and teardown of address spaces |
| `BootMap` | the kernel's static mappings with 4 KB and with 4 MB pages |
| `Smp` | several CPUs, the big kernel lock, the environment table, the round-robin scheduler |
| `EnvIds` | environment ids, their reuse, and the list of free environments |
| `Pfentry` (with `LittleEndian`) | delivery of user page faults and the assembly path back, nested to any depth |
| `Ipc` | blocking receive, send, and the library calls around them |
| `PipeRefs` | who still has a pipe open, decided from page reference counts |
| `PipeRing` | the bytes of a pipe, one reader and one writer |
| `Fs` | free-block bitmap and byte-range reads, writes and truncations of files |
| `Indirect` (with `LittleEndian`) | the slots of an indirect block as the code addresses them |
| `BlockCache` | the write-back cache under the file system |
| `Stab` | binary search of debugging symbols |
| `InitStack` (with `LittleEndian`) | the argument page of a spawned program |
| `Chain` (with `Sieve`) | the prime sieve as a chain of processes |

Protocols whose steps interleave (`Cow`, `Smp`, `Ipc`, `PipeRefs`, `PipeRing`, `Chain`) are state machines:
`Enabled` says when a step can be taken, `Step` what it does, `Inv` what every step keeps, and the main
results are about every sequence of steps. Code that one processor runs from beginning to end is a class or
a method with the loops of the source, proved against the functions that the lemmas are about. Contents of
registers and memory that a component does not choose (which frame is free, whether memory is left, what a
handler does) are parameters. `Options` holds the type of values that may be absent.

`dafny verify dfyconfig.toml` checks everything.

## What turned out

Where the code does not do what its comments say, the model follows the code, and the property is stated
with the exact condition under which it holds.

- `page_lookup` does not look at the entry it finds (tps/kern/pmap.c:585), so an empty entry of an existing
  page table names physical page 0, which `page_init` keeps out of circulation and whose count nobody keeps.
  Unmapping such an address lowers that count; from 0 it takes 65536 such unmaps until page 0 is on the free
  list (`Pmap.UnmapEmptyHarmless`, `Pmap.UnmapEmptyLeaks`). But mapping such an address somewhere counts page
  0 once, and then one unmap of the copy, or the exit of the environment, is enough
  (`Pmap.EmptyMapThenUnmap`, `Pmap.EmptyMapThenExit`). The contracts of the system calls and of `env_free`
  say for every input exactly when memory stays in order: when no entry that goes names an unmanaged page
  whose count says it is the last. `env_free` panics if such a page's count passes zero twice, unless there was
  no free page (`Pmap.Kernel.EnvFree`).
- `pp_ref` has 16 bits. A page's count is right exactly as long as fewer than 65536 places refer to it
  (`Pmap.WriteKeeps`); with 65537 an unmap frees the page while 65536 entries still map it
  (`Pmap.OverflowFreesMapped`).
- With no current environment the scheduler never looks at the last slot: an environment there that is the
  only runnable one is never started (`Smp.LastSlotStarves`).
- `sys_env_set_status` on an environment that runs elsewhere or waits for a message, and a second destroy of
  a dying one, break the environment table; these are the only calls that do (`Smp.ServeKeepsExactly`,
  `Ipc.SetStatusExactly`, `Ipc.WokenReadsStale`), and `Smp.ForbiddenCallReached` is a run from boot to one.
- The return from a user fault restores everything except when the interrupted stack pointer was exactly the
  top of the exception stack (`Pfentry.Cpu.TakeFault`, `Pfentry.ReturnsExactly`). A handler whose stack
  pointer has dropped below the exception page when it faults is not destroyed, as the comment in
  tps/kern/trap.c:369-371 promises, but given a frame at the top of the page, over the outermost live frame
  (`Pfentry.Cpu.Deliver`, `Pfentry.DroppedOverwrites`).
- On one CPU `_pipeisclosed` tells the truth (`PipeRefs.AnswerRightOnOneCpu`); on two CPUs `env_runs` does
  not detect that somebody else closed a descriptor between its two loads (`PipeRefs.AnswerWrongOnTwoCpus`).
- A reader can report the end of the stream while bytes are left, even if every answer of `_pipeisclosed` is
  right: the writer's last write and close may fall between its two tests (`PipeRing.EofCanMissBytes`). A
  write that finds the pipe full and the reader gone returns 0 although it stored bytes. Duplicating a
  descriptor onto itself closes it.
- `alloc_block` takes every free block of one bitmap word (`Fs.ClearedIs`), so the disk has room for one
  allocation per word; a full disk makes the server panic instead of returning an error
  (`Fs.FileSystem.FileWrite` says exactly when).
- Indirect slots overlap, because the code addresses them by byte: a file with two neighbouring indirect blocks
  has a wrong second or a wrong first one (`Indirect.SecondBlockSpoils`).
- `stab_binsearch` signals "none" by crossed bounds only when the region holds no stab of the type; when all
  of them lie above the address the bounds it leaves are not crossed (`Stab.StabBinsearch`,
  `Stab.BoundsOfNoStab`).
- `init_stack` accepts arguments between 4 MB and 4 GB too long, because its addresses wrap round, and then
  stores outside its page (`InitStack.OversizeExactly`, `InitStack.Init`).

## Model

| member | source | states |
|---|---|---|
| Cow.RunRefinesEager | tps/lib/fork.c:14-175 | over every interleaving of system calls, stores, byte copies, forks and exits of any number of environments, what they see equals a machine in which `duppage` copies the page at once; a frame mapped writable has no other mapping, but for the two windows inside `duppage` and `pgfault` |
| Cow.EveryLoadIsEager | tps/lib/fork.c:14-175 | from boot, in any interleaving, every byte a load can return is the byte the eager machine holds at that address |
| Cow.StepIsIsolated | tps/lib/fork.c:59-76 | no step of one environment, whether a store, a fault in progress or a fork, changes a page another running environment sees |
| Cow.StepKeepsInv | tps/kern/syscall.c:194-293 | every single system call and every byte of `memcpy` keeps: a writable mapping is the only mapping of its frame (but for those windows), a copy in progress holds exactly the bytes copied so far, the exception stack is never copy-on-write |
| Cow.TempIsPrivate | tps/lib/fork.c:36-41 | while a page is being copied, the frame it is copied to is mapped nowhere else, in any address space |
| Cow.ArmedStays | tps/lib/fork.c:59-175 | an environment with its upcall set and its own writable exception stack keeps both, whatever it or anybody else does, until it unmaps or replaces that stack itself |
| Cow.ArmedStoreGoesOn | tps/kern/trap.c:392-413 | such an environment survives a store to any page it may write in the eager machine |
| Cow.FreshPage | tps/kern/syscall.c:195-220 | `sys_page_alloc` gives a page of zeros, writable as asked for |
| Cow.StackIsPrivate | tps/lib/fork.c:158 | the frame of a writable exception stack is mapped nowhere else, in any address space |
| Cow.Machine.StoreByte | tps/lib/fork.c:15-45 | a store to a page, with the fault it may take, amounts to exactly one write to the environment's own copy; it is fatal exactly if the page may not be written, or needs a fault and the environment cannot take one |
| Cow.Machine.Pgfault | tps/lib/fork.c:15-45 | the fault handler makes the page writable and changes nothing that any environment sees |
| Cow.Machine.Duppage | tps/lib/fork.c:59-76 | the child gets the page as if copied; afterwards neither parent nor child can write it without a fault |
| Cow.Machine.SetHandler | tps/lib/pgfault.c:24-40 | afterwards the environment has an upcall and, if it had none before, an exception stack; nothing that any environment sees changes |
| Cow.Machine.Fork | tps/lib/fork.c:143-175 | after `fork` the child owns a copy of every page of the parent except the exception stack, it has an upcall and a writable exception stack whose frame is mapped nowhere else, and nobody else's memory or state changed |
| Cow.Machine.ChildStores | tps/lib/fork.c:143-175 | a store by a new child to any page its parent could write goes through and changes the child's copy alone |
| Pmap.WriteKeeps | tps/kern/pmap.c:541-559 | storing the entry in `page_insert` completes the invariant (counts equal references, free list holds exactly the unreferenced pages) exactly when the page's references fit in 16 bits |
| Pmap.DecrefCounts | tps/kern/pmap.c:426-431 | dropping one reference keeps every count right and frees the page exactly when nothing refers to it any more |
| Pmap.RemoveStrayKeeps | tps/kern/pmap.c:572-616 | removing an entry that names an unmanaged page keeps all that concerns managed pages, and keeps the free list free of others exactly when that page's count is not 1 |
| Pmap.UnmapEmptyHarmless | tps/kern/pmap.c:572-616 | up to 65535 unmaps of an empty entry keep the invariant and run the count of page 0 backwards modulo 2^16 |
| Pmap.UnmapEmptyLeaks | tps/kern/pmap.c:572-616 | the 65536th puts physical page 0 on the free list |
| Pmap.EmptyMapThenUnmap | tps/kern/syscall.c:239-293 | mapping a page from an empty entry keeps everything in order, but unmapping that one page then puts physical page 0 on the free list |
| Pmap.EmptyMapThenExit | tps/kern/env.c:414-461 | nor does the state then meet the condition under which `env_free` keeps memory in order |
| Pmap.OverflowFreesMapped | tps/kern/pmap.c:426-559 | from any state in order: map a page at so many empty entries that it has 65537 references, unmap one, and it is on the free list while 65536 places refer to it |
| Pmap.AddTableWalk | tps/kern/pmap.c:455-477 | creating a page table changes no translation in any address space |
| Pmap.PteWalks | tps/kern/pmap.c:541-616 | writing one table entry changes the translation of one page of one address space and no other |
| Pmap.AddressDecodes | tps/inc/mmu.h:16-42 | the two indices of a page address are in range and give the address back, so different addresses have different entries |
| Pmap.ChangedAddress | tps/kern/pmap.c:455-477 | changing the entry an address decodes to changes what that address translates to and no other address in any address space |
| Pmap.SamePage | tps/kern/pmap.c:541-559 | counting a page and removing its mapping at the same address leaves all counts and the free list as they were |
| Pmap.AppendChain | tps/kern/pmap.c:329-376 | linking a page behind the last one extends the list by exactly that page, without a cycle |
| Pmap.PopLinks | tps/kern/pmap.c:390-406 | taking the first page leaves an acyclic list of exactly the others |
| Pmap.NothingLeft | tps/kern/env.c:414-461 | after a teardown a managed page is free exactly when all its references came from the address space that went, and every other reference is still there |
| Pmap.RemovedDrains | tps/kern/env.c:442-445 | each entry removed lowers the count of the unmanaged page it names by one, modulo 2^16, puts it on the free list when it passes zero, and concerns no other unmanaged page |
| Pmap.LastDrained | tps/kern/env.c:432-450 | once all entries are gone the free list holds managed pages only exactly if no unmanaged page was named as often as its count, taken as 65536 if it is 0 |
| Pmap.Kernel.PageInit | tps/kern/pmap.c:329-376 | the list holds exactly the pages that are neither page 0, nor the I/O hole and kernel, nor the CPU entry page, each once |
| Pmap.Kernel.PageAlloc | tps/kern/pmap.c:390-406 | returns an unreferenced page, zeroed, or none exactly when the list is empty |
| Pmap.Kernel.PageFree | tps/kern/pmap.c:412-420 | panics exactly on a page with references or a link; otherwise puts the page in front, and the list stays one without a cycle exactly if the page was not on it |
| Pmap.Kernel.PgdirWalk | tps/kern/pmap.c:455-477 | finds or creates the table; returns none exactly if there is none and it may not or cannot create one, and then changes nothing; no translation changes |
| Pmap.Kernel.PageLookup | tps/kern/pmap.c:572-586 | finds nothing exactly when there is no table; an empty entry of a table yields page 0 |
| Pmap.Kernel.PageRemove | tps/kern/pmap.c:602-616 | the page translates to nothing afterwards, every other page as before, counts and free list follow; an unmanaged page comes on the free list exactly when its count was 1; panics only if it is there already |
| Pmap.Kernel.PageInsert | tps/kern/pmap.c:541-559 | on success exactly this translation changes, and memory stays in order exactly if the count has room and the replaced entry spares the free list; on failure nothing changes at all; re-inserting a page at its own address changes no count and never frees it |
| Pmap.Kernel.SysPageAlloc | tps/kern/syscall.c:195-220 | the user sees a zeroed page from the free list at exactly this address with exactly the rights asked for, every other address of every address space translates as before; memory stays in order exactly if the replaced entry does not name an unmanaged page with count 1; any failure leaves all translations and the invariant intact and gives the page back, and each error has its exact condition |
| Pmap.Kernel.SysPageMap | tps/kern/syscall.c:239-269 | the page the source address translates to appears at exactly the destination address with exactly these permissions, every other address of every address space translates as before; exactly when memory stays in order; the exact condition of each error, and nothing changes in them |
| Pmap.Kernel.SysPageUnmap | tps/kern/syscall.c:279-293 | exactly this address translates to nothing afterwards, every other one of every address space as before; memory stays in order exactly if the entry does not name an unmanaged page with count 1 |
| Pmap.Kernel.EnvSetupVm | tps/kern/env.c:159-195 | a new, empty user address space with a counted directory, the kernel's entries above it, and its own directory, readable by the user, at UVPT; or no change without memory |
| Pmap.Kernel.EnvFree | tps/kern/env.c:414-461 | for every address space: every managed page that only this environment referred to is free afterwards, no other managed page became free, no other address space changed; memory is in order exactly if no unmanaged page was mapped there as often as its count; the kernel panics, if there was a free page before, exactly if one was mapped 65536 times more than that |
| BootMap.BootMapRegion | tps/kern/pmap.c:489-514 | every page of the region translates to its physical page with the given rights and no other page's translation changes, with 4 MB pages or without, as soon as the empty directory entries of the region do not outnumber the free pages |
| BootMap.PageDecodes | tps/inc/mmu.h:16-42 | the two indices of a page are in range and give the page back |
| BootMap.BothBuilds | tps/kern/pmap.c:957-971 | run on the same directory with enough pages, the routine built with 4 MB pages and the one built without give every page of the address space the same translation |
| BootMap.LargeGoesOn | tps/kern/pmap.c:499-511 | one step of 4 MB keeps what the steps of 4 KB keep |
| Smp.RunIsSafe | tps/kern/trap.c:276-332 | in every run of any number of CPUs from boot: at most one is in the kernel, none finds that it already holds the lock it takes or lacks the lock it releases, and an environment is RUNNING or DYING exactly when it is current on exactly one CPU |
| Smp.ServeKeepsExactly | tps/kern/syscall.c:66-148 | serving a call keeps the invariant exactly when it is not a destroy of a dying environment nor a status change of one that runs elsewhere or would wake a receiver |
| Smp.ForbiddenCallReached | tps/kern/syscall.c:121-141 | a run from boot, with one CPU and two environments, to a status change that wakes a receiver, after which the invariant is gone |
| Smp.LockStepKeeps | tps/kern/spinlock.c:60-116 | each of the separate steps of taking and releasing the lock keeps mutual exclusion, with the recorded owner set only between the exchange that takes it and the one that gives it back |
| Smp.StepKeepsInv | tps/kern/env.c:468-550 | every step of every CPU keeps the environment table and the lock consistent |
| Smp.BoundedWaiting | tps/kern/sched.c:33-43 | while a slot stays runnable and unchosen, a CPU with a current environment gives way fewer times than that slot lies ahead of its current one, whatever the other CPUs do |
| Smp.SchedYieldRunsSomething | tps/kern/sched.c:12-47 | the exact condition under which `sched_yield` starts an environment instead of halting, with and without a current one |
| Smp.LastSlotStarves | tps/kern/sched.c:33-39 | if only the last slot is runnable and no CPU has a current environment, no run of any length ever starts it |
| Smp.Search | tps/kern/sched.c:33-39 | the loop returns the first runnable slot in circular order, and misses only the current slot, or the last one when there is none |
| Smp.Machine.SchedYield | tps/kern/sched.c:12-47 | the nearest runnable environment after the current one, going round the table, is started and the current one becomes runnable; or the current one goes on, if it is running and no other is runnable; or the CPU halts or drops into the monitor |
| Smp.Machine.SchedHalt | tps/kern/sched.c:53-81 | the CPU drops into the monitor exactly if no environment is runnable, running or dying, and otherwise halts without a current one; no environment changes |
| Smp.Machine.EnvRun | tps/kern/env.c:518-550 | the environment is RUNNING and current here, the one that ran here before is RUNNABLE, nothing else changes, and the invariant is restored if the environment was RUNNABLE or is the one that ran here |
| Smp.Machine.EnvDestroy | tps/kern/env.c:468-485 | an environment that runs elsewhere is DYING, any other FREE; the caller goes on, unless it has destroyed itself, when the scheduler takes over; no other environment and no other CPU's record changes; the invariant holds unless the target was DYING |
| Smp.Machine.Trap | tps/kern/trap.c:290-331 | what each call of a running environment leaves of the table, and who goes on: a child of `exofork` waits to be set up, a successful send leaves its target runnable and the caller running, `recv` blocks the caller, `set_status` gives the target exactly that status, a refused call changes nothing; a current environment that was destroyed from elsewhere is FREE afterwards and not resumed; the invariant holds exactly if the call is allowed |
| EnvIds.NthIdIdentifies | tps/kern/env.c:218-223 | an id is positive and names its slot; two ids are equal exactly when slot and allocation number modulo 2^19-1 are |
| EnvIds.StaleIdResolvesExactly | tps/kern/env.c:72-106 | whatever happens after an id was issued, it finds the slot exactly when the slot is in use and was allocated a multiple of 2^19-1 times since; in between it finds nothing |
| EnvIds.LiveIdsDistinct | tps/kern/env.c:205-268 | live environments have different, positive ids |
| EnvIds.LookupFindsExactlyTheLive | tps/kern/env.c:77-92 | an id finds a slot exactly when the slot is live under that id |
| EnvIds.ChildObeysExactly | tps/kern/env.c:94-102 | in any run after an environment was created, while it lives, a live environment may manipulate it exactly if it is that environment itself or its creator, or a later tenant of the creator's slot after a multiple of 2^19-1 allocations of it |
| EnvIds.EnvTable.constructor | tps/kern/env.c:114-126 | `env_init` links all slots in order, none of them in use |
| EnvIds.EnvTable.EnvAlloc | tps/kern/env.c:205-268 | takes the first free slot, gives it the next id of that slot and its parent, and leaves all others alone; fails without any change when there is no slot or no memory |
| EnvIds.EnvTable.EnvFree | tps/kern/env.c:457-460 | the slot becomes the first of the free list and keeps its id |
| EnvIds.EnvTable.Envid2Env | tps/kern/env.c:72-106 | finds a slot exactly when it is live under that id and, if asked to check, is the caller's own or that of its child; 0 names the caller |
| Pfentry.Cpu.TakeFault | tps/lib/pfentry.S:34-93 | a fault with faults nested in its handler and between the instructions of the upcall to any depth: the environment survives exactly if all frames fit, and then registers, flags, stack pointer and program counter come back, exactly unless the trap-time stack ended at the top of the exception stack; live frames and all bytes no handler stored to are unchanged but for one scratch word |
| Pfentry.Cpu.Deliver | tps/kern/trap.c:392-413 | the fault address, the error code, the registers, eip, eflags and esp lie at their offsets from the new stack pointer, which is that of the frame, and nothing else changed; or the frame is refused, exactly because it starts below the page or there is no upcall |
| Pfentry.Cpu.EnterHandler | tps/lib/pfentry.S:34-41 | the handler starts with a pointer to the frame as its argument, through which it reads the fault address and the error code |
| Pfentry.ReturnsExactly | tps/lib/pfentry.S:65-93 | the last two pops end up at the trap-time stack and instruction exactly unless the stack ended at the top of the exception stack |
| Pfentry.ScratchStored | tps/lib/pfentry.S:65-69 | the word stored below the trap-time stack overlaps no word of the frame, unless that stack ends at the top of the exception stack, where it overwrites the saved stack pointer |
| Pfentry.SixtyFourLevelsFit | tps/kern/trap.c:392-401 | the exception page holds exactly 64 levels of handlers that fault at once |
| Pfentry.DroppedOverwrites | tps/kern/trap.c:392-411 | the frame for a handler whose stack has dropped below the page is accepted and replaces the outermost live frame word by word |
| Ipc.DeliveredOnceInOrder | tps/kern/syscall.c:333-393 | in every run a receiver's calls return exactly the successful sends to it, once and in order, less at most one not yet read; an environment's finished `ipc_send` calls are exactly its successful sends |
| Ipc.StepKeepsInv | tps/lib/ipc.c:22-54 | every system call and every single load of `ipc_recv` keeps the bookkeeping behind that |
| Ipc.UnreadStays | tps/kern/syscall.c:340-366 | a delivered message is not overwritten before its receiver has read all three fields |
| Ipc.FailedSendHarmless | tps/kern/syscall.c:333-360 | a failed send changes nothing of any other environment but the permission field of a receiver that still waits |
| Ipc.PermTellsPage | tps/kern/syscall.c:342-361 | the receiver sees a nonzero permission exactly when a page came along, and it is the sender's page, where the receiver asked, writable only if the sender's was |
| Ipc.SetStatusExactly | tps/kern/syscall.c:121-141 | setting a status is harmless to the protocol exactly when it does not make a waiting receiver runnable |
| Ipc.WokenReadsStale | tps/kern/syscall.c:121-141 | if it does, the receiver returns with a message that was never sent |
| Ipc.AttemptExactly | tps/lib/ipc.c:46-54 | an attempt of `ipc_send`: a live target that does not receive leaves everything as it was and the sender still sending, a missing one makes it panic, and a waiting one with good arguments gets exactly this message, which the log gains |
| Ipc.Kernel.SysIpcTrySend | tps/kern/syscall.c:333-368 | the exact condition of each result, and what the receiver gets: the value, the sender, the page where it asked for it and the permission; nothing in the error cases but the cleared permission field |
| Ipc.RecvExactly | tps/lib/ipc.c:22-36 | a receive waits, with the address it was given, exactly if that is page-aligned or no user address; otherwise nothing happens |
| Ipc.StepTouches | tps/kern/syscall.c:333-393 | a step changes the environment that takes it and, if it sends, the one it sends to, and no other |
| Ipc.Kernel.SysIpcRecv | tps/kern/syscall.c:380-393 | blocks the caller, or refuses an unaligned address without any change |
| PipeRefs.CountsInEveryRun | tps/lib/fd.c:100-119 | in every interleaving of the single map and unmap calls of `dup` and `close`, on any number of CPUs: the data page has at least as many references as both kinds of descriptor pages together, a consistent comparison never says closed while the other end is open, and at rest it says closed exactly when no descriptor of the other end is left |
| PipeRefs.ClosedExactly | tps/lib/pipe.c:82-86 | the comparison is equal exactly when no descriptor of the other end is left and none is half-way through `dup` or `close` |
| PipeRefs.AnswerRightOnOneCpu | tps/lib/pipe.c:75-89 | on one CPU the `env_runs` test makes the answer exact at the moment it is given |
| PipeRefs.AnswerWrongOnTwoCpus | tps/lib/pipe.c:75-89 | a run on two CPUs in which it says closed while a writer is open |
| PipeRefs.StepKeepsInv | tps/lib/fd.c:173-201 | because data is mapped first and unmapped last, every mapped descriptor page has its data page mapped, after every single call, also when one fails |
| PipeRefs.DupDone | tps/lib/fd.c:173-201 | a `dup` that no other environment disturbs makes an exact second descriptor of the same end, or closes the target, if memory runs out at either mapping or they are the same; no other descriptor changes |
| PipeRefs.AloneIsRun | tps/lib/fd.c:173-201 | such an undisturbed sequence of system calls is one of the runs the other results are about |
| PipeRefs.CloseDone | tps/lib/pipe.c:185-190 | an undisturbed `close` removes exactly its descriptor and its data page |
| PipeRefs.StepTouches | tps/lib/fd.c:173-201 | no step touches any descriptor but the one its own procedure is for, and the end of an environment takes exactly its own |
| PipeRefs.Table.Dup | tps/lib/fd.c:173-201 | the code of `dup`: an exact second descriptor or a closed target; onto itself it closes |
| PipeRing.BytesInOrder | tps/lib/pipe.c:104-172 | in every interleaving of one reader and one writer at each check, byte and increment, whatever `_pipeisclosed` answers: the positions stay within 32 of each other, what was read is a prefix of what was written, and nothing is missing but what is in the buffer |
| PipeRing.ReadReturns | tps/lib/pipe.c:104-137 | a read of n bytes never holds more than n, returns exactly when it has n or has some and finds the pipe empty, and reports the end of the stream exactly when it wants some, has none and is told that nobody writes |
| PipeRing.WriteReturns | tps/lib/pipe.c:139-172 | a write returns exactly when all its bytes are stored, or the pipe is full and it is told that nobody reads |
| PipeRing.EofMisses | tps/lib/pipe.c:118-130 | the bytes lost at a reported end of stream, rightly or wrongly reported, are exactly those written since the pipe was last found empty |
| PipeRing.EofCanMissBytes | tps/lib/pipe.c:118-130 | and a run in which there are some although every answer of `_pipeisclosed` is right when it is given |
| PipeRing.Pipe.DevpipeRead | tps/lib/pipe.c:104-137 | undisturbed, a read takes exactly the first bytes of what is unread, and waits only when there are none and the pipe is open |
| PipeRing.Pipe.DevpipeWrite | tps/lib/pipe.c:139-172 | undisturbed, a write adds exactly the bytes that fit, in order |
| Fs.ClearedIs | tps/fs/fs.c:57-73 | allocating a block makes every block of its bitmap word unavailable and no other |
| Fs.TakesOnlyOneExactly | tps/fs/fs.c:57-73 | exactly one block leaves the free set exactly when no other block of its word was free |
| Fs.FileSystem.AllocBlock | tps/fs/fs.c:57-73 | returns the lowest free block, or none exactly when there is none |
| Fs.FileSystem.FileGetBlock | tps/fs/fs.c:173-186 | the slot holds a block afterwards, all other slots and all contents as before, or the server panics, exactly when the slot is empty and nothing is free; the invariant is kept exactly if the block lies within the file's size |
| Fs.FileSystem.FileRead | tps/fs/fs.c:350-374 | returns the bytes last written, clipped to the size; allocates blocks for holes and panics exactly when they do not fit; no slot that held a block changes |
| Fs.FileSystem.FileWrite | tps/fs/fs.c:379-400 | the file shows exactly the bytes written where they were written and what it showed before elsewhere, no other file's size, blocks or bytes change; panics exactly when the holes do not fit |
| Fs.FileSystem.FileTruncateBlocks | tps/fs/fs.c:429-445 | exactly the blocks past the new end become free, each of them not free before, and the rest of the file shows what it did |
| Fs.FileSystem.FileSetSize | tps/fs/fs.c:448-456 | a shorter file shows its beginning, a longer one nothing new; the freed blocks are exactly those past the end |
| Fs.FileSystem.FreeBlock | tps/fs/fs.c:40-47 | exactly that block becomes free and no other block's state changes; panics, without any change, exactly on block 0 |
| Fs.DroppedKeepsInv | tps/fs/fs.c:405-418 | freeing a dropped block keeps: no block is held by two slots, none is free while held, none of the reserved blocks is either |
| Fs.TakenKeepsInv | tps/fs/fs.c:173-186 | so does giving a free block to an empty slot |
| Fs.StoredKeepsInv | tps/fs/fs.c:389-397 | storing into one block of one file leaves what every other file and every other position shows |
| Fs.RoomCleared | tps/fs/fs.c:57-73 | each allocation uses up exactly one of the bitmap words that had a free block |
| Fs.FileSystem.WriteThenRead | tps/fs/fs.c:350-400 | writing a range and reading it back returns the bytes written, unless the write panics |
| Indirect.SlotKeptExactly | tps/fs/fs.c:147-163 | a store into one slot of an indirect block leaves another as it was exactly if the bytes they share do not change; slots four apart share none |
| Indirect.SecondBlockSpoils | tps/fs/fs.c:173-186 | of two neighbouring indirect blocks the second is never allocated, if the first has a number from 256 up, or its number goes into the slot of the first as well |
| Indirect.Numbers | tps/fs/fs.c:161 | what those slots are as block numbers: the first divided by 256, and unharmed only by multiples of 2^24 |
| BlockCache.RunAgrees | tps/fs/bc.c:29-100 | over any run of loads, stores, faults, flushes, syncs and unmaps of clean blocks every block shows what a plain disk would hold, and every mapped clean block equals its disk copy |
| BlockCache.EveryByteIsLastStored | tps/fs/bc.c:29-100 | at every place a program sees the byte last stored there, or the one that was there before the run |
| BlockCache.SyncWritesAll | tps/fs/fs.c:481-487 | after `fs_sync` the disk itself holds the last stores of every block from 1 up; block 0 is left as it was |
| BlockCache.UnmapExactly | tps/fs/bc.c:113-123 | unmapping a page preserves what is seen exactly when the page equals the disk; a clean one always does |
| BlockCache.Cache.Pgfault | tps/fs/bc.c:29-74 | the block comes in clean with what the disk has, and every block looks as before, or it panics: exactly outside the map, on a block that does not exist, or on one that the bitmap calls free |
| BlockCache.Cache.FlushBlock | tps/fs/bc.c:80-100 | for any address inside the block: the disk then has what was visible, the page is clean, every block looks as before and no other is touched; a block that is unmapped or clean is not written |
| BlockCache.BlockNoOfAddr | tps/fs/bc.c:6-12 | the addresses of a block are exactly those that name it, for every block but 0 that exists |
| BlockCache.Cache.FsSync | tps/fs/fs.c:481-487 | the loop writes every block from 1 up as it was visible and leaves its page clean; other blocks of the disk and all that is visible stay as they were |
| Stab.StabBinsearch | tps/kern/kdebug.c:59-106 | ends on every input; bounds cross exactly when the region has no stab of the type; when those stabs ascend and none is one byte after one at the address, the bounds are those of a linear scan: the last stab at or below the address and the one before the next above it; also what it leaves when all lie above |
| Stab.BoundsOfNoStab | tps/kern/kdebug.c:38-41 | an input whose stabs of the type all lie above the address |
| InitStack.Init | tps/lib/spawn.c:196-275 | at the stack pointer the child finds argc and a pointer to the words after it, and following them in its own addresses gives back exactly the arguments, with a null pointer after them; the stack pointer is the highest multiple of 4 that leaves room for them; exactly when it refuses, and exactly when it stores outside the page |
| InitStack.ArgumentsFound | tps/lib/spawn.c:246-257 | following the words the code leaves in the page recovers the list of strings |
| InitStack.StringFound | tps/lib/spawn.c:246-250 | a copied string is read back up to its null |
| InitStack.OversizeExactly | tps/lib/spawn.c:206-223 | the size test is passed exactly by arguments that fit and by arguments so long that the addresses wrap |
| Chain.PrintsThePrimes | fork/primes.c:12-74 | in every interleaving of the processes what is printed is a prefix of the ascending primes below n, all of them once every process has ended, and no second call of `filter` ever finds a number |
| Chain.NeverStuck | fork/primes.c:12-74 | as long as some process has not ended, some process can take a step, whatever the capacity of the pipes |
| Chain.StepWorks | fork/primes.c:12-74 | every step of any process leaves less work to the processes there are and those still to be started |
| Chain.EveryRunFinishes | fork/primes.c:12-74 | no run takes more than a fixed number of steps, and one that cannot go on has printed all the primes below n and ended every process |
| Chain.StepKeepsInv | fork/primes.c:12-74 | every read, write, print, fork, close and wait keeps: each pipe holds exactly the next part of what its reader is still to receive, and only its writer can keep it open |
| Chain.SecondKeepsInv | fork/primes.c:29-35 | the second call of `filter`, in a child and in all frames it inherited, sees only a closed descriptor or the end of the stream |
| Sieve.SiftedIsPrimes | fork/primes.c:12-48 | repeatedly taking the first number and dropping its multiples yields exactly the primes, in order |
| Sieve.FilterIsRough | fork/primes.c:38-44 | what one filter passes on is exactly the numbers without a divisor up to and including its prime |

## Left out

- The page table is not walked through the recursive mapping at UVPT; TLB invalidation, caches, memory
  ordering and the instruction set beyond `pfentry.S` are not modelled. An exchange on the lock is atomic.
- Cow: `fork_v0`, `dup_or_share`, PTE_SHARE (which `duppage` ignores), and failures of system calls inside
  `fork` and `pgfault` other than ending the environment. The contents of the exception stack and of PFTEMP
  are not compared with the eager machine: they are each environment's own.
- Pmap.Kernel.EnvFree: the state after a panic is not described; where the free list was empty before, a panic
  needs a count that passes zero twice, but a page that is alone on the list can be put there again.
- Pmap.Kernel.SysPageMap: permission to name another environment (`envid2env`) is in `EnvIds`, not here.
- BootMap.BootMapRegion: directory entries in the region must be empty or tables, not large pages; where no
  page is left for a table the code skips the page silently, and so does the model.
- Smp: what a CPU does between recording that it holds the lock and releasing it is one step, which
  `RunIsSafe` justifies. Traps from kernel mode, panics and the monitor's commands are not modelled.
- Smp.BoundedWaiting: for a CPU whose current environment does not destroy itself or get collected while it
  has the kernel; after that the search starts from slot 0.
- EnvIds: `env_create`, `load_icode`.
- Pfentry.Cpu.TakeFault: handlers are C code that keeps its stack on the exception page and leaves its
  caller's frame alone; the page below the exception page is unmapped; the word below an interrupted user
  stack is writable, or becomes so by a nested fault. Bits of eflags a user program may not change.
- Ipc: sending the page that `page_lookup` finds behind an empty entry; the reuse of ids.
- PipeRefs: `pipe` itself, whose pages are private until they are shared, and sharing across `fork`.
- PipeRing: several readers or writers at once; more than 2^31-1 bytes, after which the signed positions
  overflow.
- Fs: directories and paths. Which bytes a newly allocated block shows is left open: the code does not clear it.
- Fs.FileSystem.FileGetBlock: within the direct blocks; the state after a panic of the server is not described.
- Fs.FileSystem.FileWrite: for writes that end within the direct blocks; `Indirect` shows what the code makes
  of the slots after them.
- Fs.FileSystem.FileSetSize: for sizes within the direct blocks, for the same reason.
- BlockCache: `alloc_block` flushes only the first block of the bitmap, so for blocks from 32768 up the
  bitmap reaches the disk later; failures of the disk.
- Stab: the layers of `debuginfo_eip` above the search.
- InitStack.Init: argument strings are in memory, so there are fewer than 2^30 of them.
- Chain: failures of `pipe`, `fork` and `write`.
- `serve_read`, `serve_write`, `devfile_write`, `sys_env_set_trapframe`, `copy_shared_pages` and `sfork` are
  not implemented in the repository. Boot code, drivers, the Unix shell, and the programs in `fork/` other
  than the sieve are not part of this model.
