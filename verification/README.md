# A verified model of the JOS kernel's memory, processes and user-level fork

JOS (labs 1 to 4) is a small 32-bit kernel: physical pages with reference counts, two-level page
tables, environments (processes), system calls, a big kernel lock over several CPUs, synchronous
IPC, and user libraries for copy-on-write fork, page-fault handling and printing. This project
models that behaviour in Dafny and proves what the kernel relies on.

`dafny verify dfyconfig.toml` checks the whole project.

## How it is built

- **Values and code.** Each imperative C file has a value-level description (functions on an immutable
  state, in `Paging`, `Kernel`, `CowFork`) and code with the original's loops, fields and early returns
  (classes `Pmap.Memory`, `Syscall.System`, `CowForkCode.Machine`, methods in `Boot`, `KernelLayout`,
  `StabSearch`, `Numbers`, `Formatting`, `Sinks`, `ExceptionStack`), proved to do exactly what the value-level function
  says. The theorems are about the functions, so they hold of the code.
- **Physical memory** (`Paging.Mem`). A page frame is kept as the 1024 entries it holds when it is used as a
  table. One function, `Slot`, gives the entry at a *site*: an environment's directory pointer, a
  directory entry, or a page-table entry. `Refs(m, p)` is the set of sites that refer to page p, and is
  what `pp_ref` is meant to count. `kern` are the pages taken at boot, counted once. `lost` is an observer's record
  of pages that left the free list for good.
- **The invariant** `PagingInvariant.Inv`: every count is exact and fits 16 bits; a page is on the duplicate-free free list
  exactly when nothing refers to it and it is not lost; no table or directory is shared or mapped as a page; and directory entries leave a page's rights to its own entry.
- **Runs.** `KernelTheorems` applies any sequence of system calls by any environments; `Smp` interleaves CPUs one
  atomic step at a time; `CowFork` interleaves environments one system call or memory access at a time; `PrimeSieve` interleaves processes.
- **Links.** `KernelRefinesFlat` shows that each page call does to the flat memory under `CowFork` what it does to the kernel's two-level memory, and
  `KernelRunsFork` that every run of `CowFork` is a run of the kernel's calls and switches, if memory lasts;
  `SmpRefinesKernel` that the status changes under `Smp` are the kernel's system calls; `KernelStart` that booting establishes the kernel's invariant.

| file | module | about |
|---|---|---|
| Paging.dfy | Paging | pages, tables and the operations of kern/pmap.c on values |
| PagingInv.dfy, PagingOps.dfy | PagingInvariant, PagingOps | the invariant and what each operation does to it |
| EnvFree.dfy | AddressSpaceTeardown | env_free |
| KernelHalf.dfy | KernelHalfOfSpaces | address spaces above UTOP |
| Pmap.dfy | Pmap | kern/pmap.c and the walks of kern/env.c as code on arrays |
| Boot.dfy, Layout.dfy | Boot, KernelLayout | page_init, boot_map_region, mem_init, per-CPU stacks, device memory |
| UserCheck.dfy | UserMemory | user_mem_check |
| Kernel.dfy, KernelRuns.dfy, KernelTheorems.dfy | Kernel, KernelRuns, KernelTheorems | system calls and their runs |
| Access.dfy | HardwareAccess | what the processor lets user code read and write, over runs |
| Refusals.dfy | Refusals | when system calls refuse, and with which code |
| Isolation.dfy | KernelIsolation | who can change an address space |
| EnvIds.dfy | EnvironmentIds | environment ids and stale ids |
| Syscall.dfy, Start.dfy | Syscall, KernelStart | kern/syscall.c and kern/env.c as code; the first kernel state |
| Fork.dfy, ForkSteps.dfy, ForkRuns.dfy, ForkCode.dfy | CowFork, CowForkSteps, CowForkRuns, CowForkCode | copy-on-write fork against eager copying |
| KernelFork.dfy, KernelForkRuns.dfy | KernelRefinesFlat, KernelRunsFork | fork on the kernel's page tables |
| Sched.dfy, Smp.dfy, SmpInv.dfy, SmpProgress.dfy, SmpTwice.dfy, SmpKernel.dfy | Scheduling, Smp, SmpInvariant, SmpProgress, SmpRunsTwice, SmpRefinesKernel | the scheduler and several CPUs under one lock |
| Ipc.dfy, IpcPages.dfy | IpcDelivery, IpcPages | IPC over runs of the kernel, ipc_send and ipc_recv, and the pages they move |
| Sieve.dfy, SieveRuns.dfy | PrimeSieve, SieveRuns | the concurrent prime sieve |
| UxStack.dfy | ExceptionStack | page-fault frames, nested and unwound |
| Stabs.dfy | StabSearch | the search in the debug table |
| Numbers.dfy, Format.dfy, Conversions.dfy, ReadBack.dfy, Sinks.dfy | Numbers, Formatting, Conversions, ReadBack, Sinks | printing and parsing, and printing against parsing |

## Where the code departs from its comments

The model follows the code. Each departure below is either the exact condition of an if-and-only-if, or a lemma that exhibits it.

- `page_lookup` does not test PTE_P (kern/pmap.c:591-598): unmapping an empty entry of an existing table decrements page 0.
  `PagingOps.RemoveCorrect` and `KernelRuns.UnmapOk` show the invariant survives exactly when this is avoided.
- `pp_ref` has 16 bits (inc/memlayout.h:187): `PagingOps.InsertCorrect` and `KernelRuns.PageMapOk` show the counts stay exact exactly when the count does not wrap.
- `sys_page_alloc` keeps the page when `page_insert` fails (kern/syscall.c:198-201): `KernelRuns.AllocAndMapOk` shows exactly when that page is lost.
- `sys_ipc_try_send` inserts the page even at a dstva of UTOP (kern/syscall.c:371-373): `KernelRuns.SendOk` and `KernelRuns.InsertAtUtopBreaks`.
- `sys_ipc_try_send` looks up srcva even above UTOP (kern/syscall.c:364), where `pa2page` panics on a page the machine does not have (kern/pmap.h:77-83):
  `KernelRuns.SendPanicsIff` says exactly when, `KernelStart.SendAboveMemoryPanics` gives such an address.
- A send without a page leaves `env_ipc_perm` as it was (kern/syscall.c:371-378), though lib/ipc.c:10-12 expects 0: `IpcDelivery.WordLeavesOldPermission`.
- `sys_ipc_try_send` has no alignment check on srcva (it is commented out, kern/syscall.c:351-353): `KernelRuns.UnalignedSend` shows it sends the page srcva is in.
- The exception-stack copy in `fork` goes from PFTEMP to the parent's own stack (lib/fork.c:177): `CowForkRuns.ExceptionStackIsCleared`.
- `env_alloc` keeps the receive flag of the slot's last owner (kern/env.c:275), `sys_env_set_status` ignores the current status
  (kern/syscall.c:127) and `env_destroy` does not look for DYING (kern/env.c:506): `SmpInvariant.DispatchKeeps` gives the exact guard, and
  `SmpRefinesKernel.GuardByStatus` puts it in terms of the target's status; `SmpRunsTwice.UnguardedStatusRunsTwice` is a run without it.
- `boot_map_region` counts in a signed int and returns silently without memory (kern/pmap.c:514-519): `Boot.BootMapRegion` says how many pages it mapped.
- `user_mem_check` works on whole pages between ends rounded in 32 bits (kern/pmap.c:717-718): `UserMemory.UserMemCheck` says for every range what its verdict is, and
  `UserMemory.VerdictRightIff` exactly when that is the right one. It is not for a non-empty range that reaches into the last page of the address space, which is accepted; for an
  empty range at an unaligned address of a forbidden page, which is refused; and for a range past the end of the address space, which is accepted unless it comes round to its own first page and that is forbidden.
- `duppage` maps the child's page before it marks the parent's own (lib/fork.c:101-108), and the parent runs on a stack it is duplicating: what it stores in between is in the
  child's page too. `CowForkRuns.CowRefinesEager` holds with these stores, the copy being made at the second mapping; `CowForkRuns.WriteBetweenTheMappings` gives the exact effect.
- The return path puts the return address just below the trap-time esp (lib/pfentry.S:64-70). For the four values from UXSTACKTOP on that is over the frame's own esp word (`ExceptionStack.ClearUnlessAtTheTop`), and the
  state comes back iff the two words agree where they overlap (`ExceptionStack.Unwind`): for UXSTACKTOP itself iff the trap-time eip was UXSTACKTOP - 4 (`ExceptionStack.AtTheTop`).
- `user_mem_check` looks at page-table entries only (kern/pmap.c:722-724): `HardwareAccess.MayIsAccess` shows that this is what the processor allows, but that in the UVPT
  window, which no user can write, it lets a write through to every table except the directory.
- `sys_page_map` does not see that nothing is mapped at srcva if there is a page table (kern/syscall.c:248-251): `Refusals.MapRefuses`.
- The `-` flag pads a number in front, with `-` characters (lib/printfmt.c:47-48): `Conversions.UnsignedConversion`. A precision of 0 cannot be written, since its 0 is taken for a flag: `Conversions.ScanReadsFlags`.
- `%d` and `%p` pad between the sign or 0x and the digits (lib/printfmt.c:193-222): `ReadBack.PrintThenRead` says exactly which printed numbers strtol then does not read.
- `mmio_map_region` tests its sum in 32 bits (kern/pmap.c:676-681): `KernelLayout.DeviceWindow.MapRegion` says for every size when it panics, what it maps, and that the window survives iff the sum does not wrap.
- `stab_binsearch` goes on with addr + 1 after an exact match (kern/kdebug.c:89), and so can run on to the next entry, or overflow. With increasing entries `StabSearch.Found` holds of its result iff
  `StabSearch.Clean`, which looks at the entries still to be searched when the match is compared (`StabSearch.Search`); `StabSearch.NeighbourCompared` and `StabSearch.LargestAddress` are tables it fails on.
  With all entries above addr the search leaves a non-empty interval, against its comment; `Found` states which.

## Model

| member | source | states |
|---|---|---|
| PagingOps.RemoveCorrect | kern/pmap.c:619-630 | page_remove unmaps exactly its virtual page and keeps every count exact, if and only if it is not aimed at an empty entry of an existing table |
| PagingOps.RemoveNothing | kern/pmap.c:591-598 | aimed at such an empty entry it breaks the invariant: page 0 loses a count without losing a reference |
| PagingOps.InsertCorrect | kern/pmap.c:552-572 | page_insert maps exactly its page, replacing what was there (also the same page again), or changes nothing for want of a page table; counts stay exact iff the 16-bit count does not wrap |
| PagingOps.InsertCounts | kern/pmap.c:552-572 | all counts and the free list after a successful page_insert: a new page table is counted once; pp gains one, modulo 2^16, unless it was mapped there already; a replaced page loses one and is freed at zero |
| PagingInvariant.AllocKeeps | kern/pmap.c:401-416 | a page taken from the free list is referred to by nothing, and everything else stays in order while it is in transit |
| PagingInvariant.AddTable | kern/pmap.c:486-490 | linking a fresh page table keeps the invariant and changes no translation |
| PagingInvariant.DropTable | kern/env.c:479-482 | dropping an emptied page table returns its page and keeps the invariant |
| PagingInvariant.DropPage | kern/pmap.c:625-628 | unmapping a present page keeps the invariant; its page becomes free exactly when that was the last reference |
| PagingInvariant.AddDir | kern/env.c:169-209 | env_setup_vm adds an address space that is empty below UTOP and keeps the invariant |
| PagingInvariant.OnlyReference | kern/pmap.c:474-496 | a table or directory has exactly one reference, so its count is 1 |
| Paging.SixteenBits | inc/memlayout.h:187 | a count runs from 0 to 65535 and round again |
| AddressSpaceTeardown.EnvFreeConserves | kern/env.c:445-493 | env_free lowers each page's count by exactly the references the environment held, frees exactly the pages it alone held, and leaves every other translation alone |
| AddressSpaceTeardown.FreeEntriesClears | kern/env.c:473-477 | the inner loop empties exactly the entries of its table |
| AddressSpaceTeardown.FreeTablesClears | kern/env.c:463-482 | the outer loop empties exactly the user half of its directory |
| KernelHalfOfSpaces.EnvFreeShared | kern/env.c:445-493 | teardown leaves every other address space identical to the kernel's above UTOP |
| KernelHalfOfSpaces.SetupShared | kern/env.c:196-206 | a new directory agrees with the kernel's above UTOP except for its self-map entry |
| KernelHalfOfSpaces.InsertUpper | kern/pmap.c:552-572 | no insert below UTOP changes anything above it |
| Pmap.Pop | kern/pmap.c:405-411 | taking the head of the linked free list leaves a list of exactly the other pages |
| Pmap.Push | kern/pmap.c:434-435 | linking a page in front gives the list with it first, acyclic and without duplicates |
| Pmap.Memory.PageAlloc | kern/pmap.c:401-416 | the head of the free list, zeroed if asked, or NULL exactly when the list is empty |
| Pmap.Memory.PageFree | kern/pmap.c:422-436 | on an unreferenced, unlinked page: it becomes the head of the list |
| Pmap.Memory.PageDecref | kern/pmap.c:442-447 | the count goes down modulo 2^16 and the page is freed exactly at zero |
| Pmap.Memory.PgdirWalk | kern/pmap.c:474-496 | the page table of an address, created when asked for and possible |
| Pmap.Memory.PageLookup | kern/pmap.c:588-599 | the page named by the entry, present or not, or NULL without a table |
| Pmap.Memory.PageRemove | kern/pmap.c:618-630 | in-place code does what the function of PagingOps.RemoveCorrect does |
| Pmap.Memory.PageInsert | kern/pmap.c:552-572 | in-place code does what the function of PagingOps.InsertCorrect does |
| Pmap.Memory.EnvSetupVm | kern/env.c:168-209 | in-place code does what the function of PagingInvariant.AddDir does |
| Pmap.Memory.UnmapTable | kern/env.c:473-477 | the loop over one table does what the function of FreeEntriesClears does |
| Pmap.Memory.DropTables | kern/env.c:463-482 | the loop over the directory does what the function of FreeTablesClears does |
| Pmap.Memory.EnvFree | kern/env.c:445-488 | the whole teardown does what the function of EnvFreeConserves does |
| Boot.PageInit | kern/pmap.c:333-386 | the free list is exactly the usable pages, highest first; all others are counted once; the invariant holds |
| Boot.InitPages | kern/pmap.c:361-385 | the loop, page by page, with its branches for page 0, MPENTRY_PADDR, the I/O hole and boot_alloc's pages |
| Boot.KeptBack | kern/pmap.c:361-385 | by page number which pages are kept back: 0, 7, the I/O hole, the kernel's and boot_alloc's |
| Boot.FirstState | kern/pmap.c:333-386 | with no environment, one count per boot page and the rest free is the invariant |
| Boot.KernelWalkKeeps | kern/pmap.c:474-496 | creating a kernel page table changes no kernel mapping; it fails only with no free page |
| Boot.BootMapRegion | kern/pmap.c:510-524 | the loop, for every 32-bit size, maps [va, va+size) to [pa, pa+size), changes no other page outside the UVPT window, and stops early only without memory; past the end of the address space it goes on at 0 |
| KernelLayout.MemInitMp | kern/pmap.c:285-314 | the per-CPU loop lays each CPU's stack at its own place |
| KernelLayout.MemInit | kern/pmap.c:132-251 | after mem_init the invariant holds and the kernel's address space is exactly the layout |
| KernelLayout.StacksAreGuarded | kern/pmap.c:289-301 | every CPU's stack pages map its own memory, kernel-writable, above eight unmapped guard pages |
| KernelLayout.LayoutIsProtected | kern/pmap.c:184-240 | physical memory appears at KERNBASE for the kernel only, user-readable kernel pages are read-only, the device region is unmapped |
| KernelLayout.ArraysAreVisible | kern/pmap.c:200-220 | of the kernel's pages a user may read exactly those of the page structures at 0xEF000000 and of the environments at 0xEEC00000, each showing its own page of the array |
| KernelLayout.EveryStructIsVisible | kern/pmap.c:200-220 | so every byte of every page structure and of every environment is readable where inc/memlayout.h puts it |
| KernelLayout.DeviceWindow.MapRegion | kern/pmap.c:649-687 | for every 32-bit size: panics iff the 32-bit sum exceeds MMIOLIM; without wrap-around successive calls map disjoint regions inside the window; with it the window moves down, and nothing is mapped or the kernel's directory is spoilt |
| UserMemory.UserMemCheck | kern/pmap.c:713-735 | for every range the verdict on the pages between its rounded ends in 32 bits; for a range below the last page that is every address, and on failure the first refused one is reported |
| UserMemory.VerdictRightIff | kern/pmap.c:713-735 | for every va and len the verdict is the right one iff: for a range within the address space, it ends before the last page; for the empty one, va is aligned, in the last page or allowed; past the end, it comes round to va's page and that is refused |
| UserMemory.EndIsRounded | kern/pmap.c:717-718 | without wrap-around the rounded end covers exactly the pages the range touches |
| UserMemory.GrantsIsMask | kern/pmap.c:720-724 | the test of one entry is the mask test, bit by bit, with P and U added |
| KernelRuns.ExoforkOk | kern/syscall.c:75-99 | a child is made iff a slot and a page are free: its id, parent, registers with result 0, cleared upcall and runs, and an empty address space; otherwise nothing changes |
| KernelRuns.EnvAllocOk | kern/env.c:219-283 | env_alloc leaves a runnable slot with a cleared frame, interrupts on, the stack below UTOP and no upcall, whatever its last owner left; only the receive flag and message stay |
| KernelRuns.AllocAndMapOk | kern/syscall.c:194-202 | sys_page_alloc maps a fresh page at exactly its place, or, exactly when the last free page was taken and a table is missing, loses the page |
| KernelRuns.AllocatedIsZero | kern/syscall.c:194-202 | the page sys_page_alloc maps is full of zeros |
| KernelRuns.PageMapOk | kern/syscall.c:221-270 | sys_page_map maps exactly the looked-up page at dstva or changes nothing; the invariant survives iff the count does not wrap |
| KernelRuns.UnmapOk | kern/syscall.c:279-295 | sys_page_unmap empties exactly its entry; the invariant survives iff it is not aimed at an empty entry of an existing table |
| KernelRuns.SendOk | kern/syscall.c:335-387 | a failed send changes nothing; which sends fail; a send keeps the invariant iff it maps no page, or cannot for want of a page table, or maps it below UTOP without wrapping its count |
| KernelRuns.SendPanicsIff | kern/syscall.c:364 | a send panics iff it gets to the lookup and the entry at srcva names a page the machine does not have, which needs srcva >= UTOP |
| KernelRuns.UnalignedSend | kern/syscall.c:351-353 | an unaligned srcva below UTOP gives exactly the send of its page |
| KernelRuns.InsertAtUtopBreaks | kern/syscall.c:371-373 | a page sent to a receiver that asked for none breaks the invariant |
| KernelRuns.ReleaseOk | kern/env.c:445-493 | freeing an environment keeps the kernel in order, empties its address space only, and puts its slot first on the free list |
| KernelTheorems.StepOk | kern/syscall.c:425-474 | any system call keeps the invariant if and only if it is safe, a condition on its arguments, its targets and the state before it |
| KernelTheorems.RunsKeepCountsExact | kern/pmap.c:401-496 | after every safe run counts are exact, free means unreferenced and not lost, and no table or directory is mapped or shared |
| KernelTheorems.WritePermissionNeverAmplified | kern/syscall.c:168-270 | a page in use that nobody can write stays so through every run until its count reaches 0 |
| KernelTheorems.StepGivesNoWrite | kern/syscall.c:354-378 | no single call, sends included, gives write access to such a page |
| HardwareAccess.LeafDecides | kern/pmap.c:486-490 | below UTOP directory entries have P, W and U, so that the processor's two-level check is that of the page-table entry |
| HardwareAccess.StepLeaves | kern/syscall.c:188-193 | no call maps a page below UTOP without P and U, or with a bit outside PTE_SYSCALL |
| HardwareAccess.AccessOverRuns | kern/syscall.c:168-295 | after every safe run user code can read exactly what its environment has mapped below UTOP, write exactly what is mapped with W, and write nothing above UTOP |
| HardwareAccess.NoUserWriteAboveUtop | kern/env.c:196-206 | no environment can write above UTOP, the UVPT window included |
| HardwareAccess.WindowShowsTables | kern/env.c:203-206 | through the window user code reads exactly the tables its directory has |
| HardwareAccess.UvptShowsEntries | lib/fork.c:157 | uvpd is the directory and uvpt[pn] the entry of page pn; fork's test of both is whether the page is mapped |
| HardwareAccess.MayIsAccess | kern/pmap.c:713-735 | user_mem_check's answer for an address is the processor's, below ULIM, except for writes in the window, where it is exactly whether the table shown is there |
| Refusals.EnvidFinds | kern/env.c:75-109 | an id finds the one live environment that has it, with the check only the caller or its child, 0 the caller |
| Refusals.ExoforkRefuses | kern/syscall.c:75-99 | -5 iff no slot is free, -4 iff one is and no page; nothing changes then |
| Refusals.SetStatusRefuses | kern/syscall.c:102-129 | -3 iff the status is not one of the two, else -2 iff no such target; otherwise exactly that status changes |
| Refusals.AllocateRefuses | kern/syscall.c:152-203 | -2, -3 and -4 iff the documented reasons hold: target; address or permission word; pages |
| Refusals.MapRefuses | kern/syscall.c:205-270 | -2, -3 and -4 iff target, address, permission word, missing source table, write right, or missing table memory are the reason |
| Refusals.UnmapRefuses | kern/syscall.c:272-295 | -2 iff no such target, -3 iff the address is not a page's below UTOP |
| Refusals.DestroyRefuses | kern/syscall.c:46-66 | -2 iff no such target; otherwise it is marked dying if it runs elsewhere, and free if not |
| Refusals.RecvRefuses | kern/syscall.c:399-408 | -3 iff the address is below UTOP and unaligned |
| Refusals.SendRefuses | kern/syscall.c:318-387 | -2, -7, -3 and -4 iff the documented reasons hold, an unaligned srcva not being one |
| Refusals.NamesOfErrors | inc/error.h:6-23 | the codes and the names %e prints for them, with either sign |
| KernelIsolation.CallIsIsolated | kern/syscall.c:425-474 | any call, also one that breaks the invariant, by an environment that is neither x nor x's parent leaves x's address space alone, unless it sends to x while x waits |
| EnvironmentIds.ClosedForm | kern/env.c:233-237 | the n-th allocation of a slot gives a positive id with the slot's index and generation (n - 1) mod 524287 + 1 |
| EnvironmentIds.RepeatsWithPeriod | kern/env.c:233-237 | a slot repeats an id exactly after multiples of 524287 allocations |
| EnvironmentIds.IdsFollowAllocations | kern/env.c:219-283 | over any run each slot's id has moved on by exactly its number of allocations |
| EnvironmentIds.StaleIdsAreRejected | kern/env.c:75-109 | after any run envid2env accepts an old id iff the slot is in use and was reallocated a multiple of 524287 times |
| EnvironmentIds.LiveIdsAreDistinct | kern/env.c:84-108 | live ids are positive, distinct, and find their own slot |
| Syscall.System.EnvInit | kern/env.c:119-133 | the descending loop leaves the free list in slot order |
| Syscall.System.EnvidToEnv | kern/env.c:75-109 | the slot of an id or failure, with the parent check |
| Syscall.System.EnvAlloc | kern/env.c:219-283 | in-place code does what the value-level env_alloc does: a new id, cleared registers, upcall and run count, the old receive flag |
| Syscall.System.EnvFree | kern/env.c:445-493 | address space, status and free list change as the value-level env_free says |
| Syscall.System.SysExofork | kern/syscall.c:79-99 | in-place code does what the function of ExoforkOk does, the parent's registers with result 0 included |
| Syscall.System.SysEnvSetStatus | kern/syscall.c:108-129 | checks in order, then only the target's status changes |
| Syscall.System.SysPageAlloc | kern/syscall.c:168-203 | in-place code, with its error order, does what the function of AllocAndMapOk does |
| Syscall.System.SysPageMap | kern/syscall.c:221-270 | in-place code, with its error order, does what the function of PageMapOk does |
| Syscall.System.SysPageUnmap | kern/syscall.c:279-295 | in-place code does what the function of UnmapOk does |
| Syscall.System.SysEnvDestroy | kern/syscall.c:52-66 | a victim running elsewhere is only marked dying, any other is freed; says whether the caller is gone, so that its CPU clears curenv and reschedules |
| Syscall.System.SysIpcRecv | kern/syscall.c:400-421 | the receiver's fields, or an error for an unaligned address |
| Syscall.System.SysIpcTrySend | kern/syscall.c:335-387 | in-place code, with its error order and the lookup at any srcva, does what the function of SendOk does |
| KernelStart.StartKernel | kern/init.c:36-40 | memory and environment initialisation leave a kernel in order with all physical addresses mapped and the two arrays readable to users, if there was memory for its page tables; the pages to be kept back are |
| KernelStart.SendAboveMemoryPanics | kern/syscall.c:364 | on a machine with less than 256 MB, a send to a waiting target with srcva right above the mapped memory panics |
| KernelStart.KernelHalfAccess | kern/env.c:196-206 | an environment reads of the kernel's half exactly what the kernel's own entries show to users |
| KernelStart.KeptPagesStayOut | kern/pmap.c:333-386 | after any safe run a page kept back at boot is not free, not a table, and, but for page 0, mapped by nobody |
| CowForkRuns.CowRefinesEager | lib/fork.c:14-198 | for every tree of forks and every interleaving of reads, writes and faults, the parent's writes inside duppage included, all environments' pages on [UTEXT, UXSTACKTOP-PGSIZE) equal those of the machine that copies in duppage |
| CowForkRuns.SeesTheEagerPages | lib/fork.c:155-160 | an environment outside its handler sees the same pages and bytes, and may write exactly where the eager machine lets it |
| CowForkRuns.EagerForkIsASnapshot | lib/fork.c:153-160 | the child of an eager fork gets the parent's pages at fork time, but for those the parent itself writes meanwhile, whatever other environments do |
| CowForkRuns.HandlerGoesForward | lib/fork.c:14-69 | a faulting environment's handler only advances, whatever the others do, maps at the faulting page one that nobody else maps, and ends with it writable |
| CowForkRuns.ForkGoesForward | lib/fork.c:133-198 | whatever the others do, every step of fork brings the parent closer to its end, where both run; it dies only if the copy of the exception stack faults |
| CowForkRuns.EveryStepLeadsOn | lib/fork.c:14-198 | no step that can be taken is missing from the runs: it leads to a state in order |
| CowForkRuns.WriteBetweenTheMappings | lib/fork.c:101-112 | what the parent stores between duppage's two mappings is in the child's page; copying at the first mapping would agree iff the store changes nothing |
| CowForkRuns.ExceptionStackIsCleared | lib/fork.c:163-177 | fork clears the parent's exception stack, and the child's is zero, not the parent's |
| CowForkRuns.PageBytes | kern/pmap.c:401-416 | what pages hold for both machines: zeros when new, and after a store the byte stored and the others |
| CowForkRuns.StepKeeps | lib/fork.c:14-198 | one step of any environment keeps both the sharing invariant and the agreement with the eager machine |
| CowForkSteps.StoredKeeps | lib/fork.c:21-32 | a store through a writable mapping reaches no other environment's page |
| CowForkSteps.DupFirstKeeps | lib/fork.c:89-106 | after the first mapping the child shares the page; a page that was not writable is copied here |
| CowForkSteps.DupSecondKeeps | lib/fork.c:107-113 | marking the parent's own page is where the child of the eager machine gets a writable page |
| CowForkSteps.MoveKeeps | lib/fork.c:57-61 | moving the private copy into place keeps every environment's view |
| CowForkSteps.StackKeeps | lib/fork.c:163-195 | setting up the child's exception stack touches nothing in the range, if PFTEMP is still mapped; otherwise the parent ends |
| CowForkCode.Machine.Pgfault | lib/fork.c:14-69 | the calls in order map a fresh page with the old bytes at the faulting page, unmap PFTEMP, leave every other mapping and everyone's bytes; only an error word without the write bit panics, which the kernel does not give |
| CowForkCode.Machine.Write | lib/fork.c:21-32 | a store, with the fault it takes on a copy-on-write page, is to the eager machine one store |
| CowForkCode.Machine.Duppage | lib/fork.c:82-115 | with the parent's stores between the two calls: to the eager machine those stores and a copy of the page, the copy last if the page was writable |
| CowForkCode.Machine.CopySpace | lib/fork.c:153-160 | the loop, with the parent's stores at every page, is to the eager machine the copies of the mapped pages in order and those stores |
| CowForkCode.Machine.ForkAll | lib/fork.c:133-198 | with the parent's stores around every call: the child shows the parent's pages at the call of fork, but for those the parent stores to on its way, and everyone else sees what they saw |
| KernelRefinesFlat.MapIsFlat | kern/syscall.c:221-270 | the kernel's sys_page_map does to all address spaces what the flat map says, refuses exactly a writable mapping of a read-only page, and keeps the invariant iff the count fits |
| KernelRefinesFlat.AllocIsFlat | kern/syscall.c:168-203 | the kernel's sys_page_alloc maps a page no environment maps |
| KernelRefinesFlat.UnmapIsFlat | kern/syscall.c:279-295 | the kernel's sys_page_unmap of a mapped page is sound and does what the flat map says |
| KernelRunsFork.StepIsFlat | lib/fork.c:14-198 | every step of a forking program is a system call, or none, after which the kernel's page tables and environments are those of the flat machine |
| KernelRunsFork.StepIsSafe | lib/fork.c:82-115 | no such step breaks the kernel's invariant, given memory and an unmap only of mapped pages |
| KernelRunsFork.CountIsSmall | kern/pmap.c:563-570 | fork alone maps a page at most twice per environment, so its count is at most 2 NENV + 1 and never wraps |
| KernelRunsFork.KernelForkRefinesEager | lib/fork.c:14-198 | over every run of forking programs and CPU switches, with steps only by running environments, the kernel stays in order and agrees with the flat machine, and that with the eager one |
| KernelRunsFork.ChildRunsOnceForked | lib/fork.c:192-197 | over every such run a child is not runnable until its parent has finished fork, and from then on it is runnable, running or dying, unless it waits in a receive; so is every other environment |
| KernelRunsFork.ForkStartsChild | lib/fork.c:192-197 | fork's last call makes the waiting child runnable and changes nothing else; the next switch to it runs it |
| KernelRunsFork.ForkCopiesTheUserPart | lib/fork.c:156 | the pages fork copies are those from 0x800000 up to the exception stack |
| KernelRunsFork.KernelShowsEagerPages | lib/fork.c:155-160 | an environment outside its handler can, by the processor's check, read exactly the eager machine's pages, finds their bytes, and can write, at once or after a fault, exactly where the eager machine may |
| Scheduling.Scan | kern/sched.c:36-57 | the loop finds the first runnable slot in cyclic order after the current one, or none |
| Scheduling.DistanceIs | kern/sched.c:47-52 | cyclic distance, the measure of the scan, in the ring of 1024 slots |
| Scheduling.FirstIsUnique | kern/sched.c:36-57 | the scan has one possible result |
| Scheduling.PassedOverGetsCloser | kern/sched.c:47-57 | a runnable environment that is passed over is strictly closer to the CPU's turn |
| Scheduling.ChosenWithinNenvYields | kern/sched.c:12-68 | an environment runnable at NENV consecutive yields of a CPU is chosen at one of them |
| SmpInvariant.StepKeeps | kern/trap.c:295-352 | a step of any CPU keeps the invariant iff it changes no status under another CPU |
| SmpInvariant.DispatchKeeps | kern/env.c:500-517 | the same for system calls, where the guard is needed |
| SmpInvariant.LockKeeps | kern/spinlock.c:60-116 | taking and releasing the lock step by step reaches neither panic and lets one CPU in |
| SmpInvariant.OutsideKeeps | kern/trap.c:308-311 | the exchange of cpu_status takes the lock exactly for a halted CPU |
| SmpInvariant.BootKeeps | kern/init.c:79-103 | starting CPUs one at a time gives each its own stack pointer |
| SmpInvariant.RunKeeps | kern/env.c:573-587 | env_run hands a CPU from one environment to another without sharing either |
| SmpInvariant.NoEnvironmentRunsTwice | kern/trap.c:306-351 | from power-on: no environment on two CPUs, user mode only with a running or dying one, halted CPUs own none, no lock panic, one CPU in the kernel |
| SmpRunsTwice.UnguardedStatusRunsTwice | kern/syscall.c:127 | without the guard: one status change under another CPU and the caller's own next yield put one environment in user mode on two CPUs |
| SmpInvariant.OccupiedIffCurrent | kern/sched.c:84-96 | whenever the lock is free the running and dying environments are exactly the CPUs' current ones |
| SmpProgress.StepsLeadOut | kern/trap.c:295-352 | every step of a CPU's own in the kernel brings it closer to leaving it, by a number that says how close, unless it waits for the lock or a starting CPU or creates an environment |
| SmpProgress.LockedIffInside | kern/spinlock.c:60-116 | in every run from power-on the lock is taken exactly while some CPU is between its two exchanges |
| SmpProgress.MonitorOnlyWhenQuiet | kern/sched.c:78-90 | in every run a CPU is in the monitor only when no environment is runnable, running or dying, and nothing changes any more |
| SmpProgress.HaltEndsIdle | kern/sched.c:92-114 | otherwise a halting CPU is, after three steps of its own and whatever the others do, in the hlt loop without an environment, with the lock free |
| SmpProgress.AllCpusAreUp | kern/init.c:90-102 | in every run all CPUs are up when the first goes on from boot_aps |
| SmpProgress.StatusMoves | kern/env.c:573-582 | every way a status changes: run, preempted but runnable, freed by its own CPU when dying, created, or target of a call |
| SmpProgress.TrapReturns | kern/trap.c:345-351 | a trap that leaves its environment running goes back to it |
| SmpProgress.YieldRuns | kern/sched.c:47-58 | a yielding CPU goes to the environment its scan found, and the one it leaves stays runnable |
| SmpRefinesKernel.DispatchIsTheCall | kern/syscall.c:425-474 | the status changes of a CPU's dispatch are those of the kernel's system call |
| SmpRefinesKernel.RunIsTheSwitch | kern/env.c:573-582 | env_run on a CPU is the kernel's switch: old one runnable, new one running, its run count up by one |
| SmpRefinesKernel.EnterIsTheReap | kern/trap.c:323-328 | what trap does with a dying environment is the kernel's release of it |
| SmpRefinesKernel.CreateIsTheAlloc | kern/env.c:219-283 | what start-up creates is what env_alloc gives: a runnable environment in the first free slot |
| SmpRefinesKernel.GuardByStatus | kern/syscall.c:108-129 | a status change or delivery is harmless iff its target is not running or dying, or is the caller |
| IpcDelivery.ExactlyOnceInOrder | kern/syscall.c:335-421 | after any run as many messages were sent to a receiver as it completed receives, and its fields hold the last: the k-th receive gets the k-th send |
| IpcDelivery.ReceiveReturnsItsMessage | kern/syscall.c:335-421 | between a receive and the receiver's next turn exactly one message was sent to it, its fields hold it, and the call's result is 0 |
| IpcDelivery.RoundsDeliver | kern/syscall.c:335-421 | on one CPU any number of rounds of receive, switch, send and switch is such a run, and the receiver gets every value in order |
| IpcDelivery.IpcSend | lib/ipc.c:66-87 | the retry loop: all tries but the last find the target not waiting and change nothing; it ends with a delivery or panics on any other error |
| IpcDelivery.IpcRecv | lib/ipc.c:22-55 | an unaligned address is an error with zeros; otherwise, over any fair run to the caller's next turn, it returns the value and sender of the one message sent to it |
| IpcPages.IpcMovesThePage | lib/ipc.c:22-87 | if ipc_send succeeds on a receiver in ipc_recv, after any fair run in between, the sender's page is mapped at the receiver's address, with the permission sent, readable at once, and nowhere else, exactly if both name one; otherwise no memory changes |
| IpcPages.ReceiverKeepsItsAddress | kern/syscall.c:405-421 | over any fair run a waiting receiver keeps the address it gave, or UTOP if that was not below it |
| IpcDelivery.WordLeavesOldPermission | kern/syscall.c:371-378 | a send without a page leaves the receiver's permission word from the last page |
| IpcDelivery.IpcStep | kern/syscall.c:335-421 | how any one call moves a receiver's IPC fields |
| IpcDelivery.FailedSendChangesNothing | kern/syscall.c:344-350 | a send succeeds only on a waiting receiver, and otherwise changes nothing at all, a panic included |
| IpcDelivery.ForcedReceiverReadsStale | kern/syscall.c:108-129 | a waiting receiver made runnable by its parent is run with the old message in its fields and nothing sent: its receive completes |
| SieveRuns.SieveIsSafe | user/primes.c:13-52 | under any schedule the printed numbers are the first primes in order, and stage k has received exactly the integers no earlier prime divides |
| SieveRuns.NeverStuck | user/primes.c:13-52 | under no schedule do the processes come to a stop: below the limits on ints and environments some process can go on |
| PrimeSieve.NextPrime | user/primes.c:18-21 | the first number that no earlier prime divides is the next prime |
| PrimeSieve.FilterExactly | user/primes.c:30-35 | a stage passes on exactly the survivors its own prime does not divide, in order |
| SieveRuns.SendKeeps | lib/ipc.c:66-87 | a hand-over to the right neighbour keeps the chain's invariant |
| ExceptionStack.PushFrame | kern/trap.c:403-428 | the frame holds the trap-time state at the right place, nothing else changes, and the upcall runs on it; the environment is destroyed iff it has no upcall or may not write the whole frame |
| ExceptionStack.Unwind | lib/pfentry.S:64-101 | the instruction sequence restores all registers, eflags, eip and esp from the frame and changes two words only, iff the return address is clear of the frame or agrees with the esp word it overlaps |
| ExceptionStack.NestedFaultIsInvisible | lib/pfentry.S:34-101 | at any depth a nested fault's frame and spare word lie right below the trap-time esp, every register comes back and nothing above is touched |
| ExceptionStack.FirstFaultIsInvisible | kern/trap.c:405-411 | the outermost fault restores every register whatever was nested in its handler |
| ExceptionStack.ClearUnlessAtTheTop | kern/trap.c:405-411 | the return address never overwrites the frame, unless esp was in the word above the stack's top |
| ExceptionStack.AtTheTop | lib/pfentry.S:64-70 | for a trap-time esp of UXSTACKTOP the state comes back iff the eip was UXSTACKTOP - 4 |
| StabSearch.Search | kern/kdebug.c:59-103 | terminates on every table; with increasing entries, left is the last entry at or below addr and right ends before the next, iff the search is clean |
| StabSearch.NoNeighbourIsClean | kern/kdebug.c:85-90 | it is clean whenever addr + 1 does not overflow and is not in the table |
| StabSearch.NeighbourCompared | kern/kdebug.c:85-90 | 5 is not found in the table 5, 6, but is in 5, 6, 7, where 6 is cut off first |
| StabSearch.LargestAddress | kern/kdebug.c:85-90 | nor is the largest address in a table that holds it |
| StabSearch.Turn | kern/kdebug.c:65-89 | one iteration shrinks the interval or makes an exact match that cannot recur at once |
| Numbers.Sink.PrintNum | lib/printfmt.c:37-52 | the recursive printer emits the digits padded to the width |
| Numbers.DigitsSpell | lib/printfmt.c:37-52 | the digits printed spell the number |
| Numbers.Strtol | lib/string.c:239-284 | blanks, sign and prefix are skipped, as many digits as there are are read, and their value, wrapped to 32 bits, returned with the end |
| Numbers.PrintThenParse | lib/string.c:239-284 | parsing what was printed gives the number back, for n below 2^31, bases 2 to 16, any width, space or zero padding; the length is max(width, digits) |
| Formatting.VPrintFmt | lib/printfmt.c:84-245 | the scanner terminates on every format and prints the format's text |
| Formatting.UnknownEscapeIsVerbatim | lib/printfmt.c:237-242 | an unknown escape is printed literally, flags and all |
| Formatting.PrintStr | lib/printfmt.c:174-188 | the three loops of a string field |
| Formatting.FieldLength | lib/printfmt.c:174-188 | a string field is as long as its width or its contents |
| Conversions.UnsignedConversion | lib/printfmt.c:203-231 | %x, %u and %o print the argument modulo 2^32, or 2^64 with ll, as its digits in base 16, 10 or 8 without a leading zero, padded in front to the width, and take one argument |
| Conversions.SignedConversion | lib/printfmt.c:193-200 | %d prints the two's complement of the argument: a minus sign if negative, then its size, padded behind the sign |
| Conversions.PointerConversion | lib/printfmt.c:216-222 | %p prints 0x and the 32-bit address in base 16, padded between the two |
| Conversions.CharConversion | lib/printfmt.c:161-163 | %c prints the character of the argument's low byte; %% prints a percent sign and takes no argument |
| Conversions.StringConversion | lib/printfmt.c:177-190 | %s prints as much of its string as the precision lets through, question marks for what # hides, padded on the proper side; "(null)" for a null pointer |
| Conversions.ErrorConversion | lib/printfmt.c:166-174 | %e prints an unknown error as its number in decimal, without its sign |
| Conversions.ScanReadsFlags | lib/printfmt.c:100-158 | the scanner takes from an escape exactly the padding, width (digits or star), precision, # and l's it was written with |
| ReadBack.PrintThenRead | lib/string.c:239-284 | printf with any flags and width, then strtol: the argument comes back as 32-bit two's complement, all read; but 0, the digits unread, iff blanks stand between a sign or 0x and the digits |
| ReadBack.StrtolReads | lib/string.c:239-284 | strtol reads a number behind blanks and tabs, with a sign or none, behind 0x in base 16 or 0, behind 0 as octal in base 0, as decimal there otherwise |
| ReadBack.DigitMeans | lib/string.c:263-270 | digits count from 0, small and capital letters both from 10 |
| Sinks.VSnprintf | lib/printfmt.c:271-286 | the buffer holds the first n - 1 characters and a NUL, the result is the full length; no buffer or no room is an error |
| Sinks.VCprintf | lib/printf.c:26-48 | the chunks written to the console join to the whole text and none exceeds the buffer |

## Left out

- Loading programs, trap frames' contents outside page faults, console, interrupt controllers, port I/O, the monitor and the kernel's own test functions.
- TLB and CR3: page_insert and page_remove invalidate entries, which the model does not have.
- The address conversions of kern/pmap.h: pages are numbers here, and their range checks appear as bounds on page numbers.
- A permission word is a record of its flag bits plus the set of its other bits; a data page's bytes appear only in the copy-on-write model.
- CowForkRuns.CowRefinesEager: assumes memory does not run out and environments share pages by fork only; what is on the exception stacks and at PFTEMP is not compared (the copy in lib/fork.c:177 goes from PFTEMP to the parent's own stack, and the model does the same).
- CowForkRuns.EagerForkIsASnapshot: the eager machine keeps each page's permission, while dumbfork makes every copy writable.
- CowForkCode.Machine.ForkAll: the stores made while the child's exception stack is set up are to pages stored to at the end of the loop, as stack pushes are; CowRefinesEager has any stores anywhere.
- KernelRunsFork.StepIsSafe: a fault of the parent's between the stack copy and the unmap of PFTEMP takes PFTEMP away, and the unmap then aims at an empty entry (see KernelRuns.UnmapOk): such a step is not covered; nor is an exception stack's page shared 65534 times before the fork.
- CowForkCode.Machine.Pgfault: the words the handler itself pushes on its exception stack are not modelled.
- The handler is assumed to be installed where fork uses it.
- Of the environment structure, `env_type`, `env_cpunum` and the segment registers; the result register of the calling environment, which trap_dispatch sets, and `sys_env_set_pgfault_upcall`.
- KernelTheorems.RunsKeepCountsExact: a panic leaves the state as it is, where the machine would stop.
- HardwareAccess.AccessOverRuns: user accesses only; what can be read above UTOP is stated for the state StartKernel leaves and for every directory that shares it (KernelHalfAccess).
- SmpProgress.HaltEndsIdle: that a CPU takes its steps at all is up to the machine; no fairness between CPUs is assumed or claimed.
- SieveRuns.NeverStuck: some process can always go on; that every one does is a matter of the scheduler.
- AddressSpaceTeardown.EnvFreeConserves: `env_link` and the console message are not part of it; pa2page and KADDR cannot panic under the invariant.
- KernelLayout.MemInit: at most 2^19 pages, so that the page array fits its 4 MB window; i386_detect_memory and boot_alloc are parameters.
- SmpInvariant.NoEnvironmentRunsTwice: assumes, as the guard, that no status is changed under another CPU; panicstr and the monitor loop end the story.
- SmpInvariant.StepKeeps: the code between lock and unlock runs as a few steps per trap; interrupts are off there.
- Scheduling.ChosenWithinNenvYields: while the CPU's current environment is not reset to none.
- IpcDelivery.ExactlyOnceInOrder: environments make calls only while running, as they do; assumes the receiver is not destroyed, and while waiting not forced to another status.
- IpcDelivery.IpcSend: the kernel states at its tries are given; that the loop ends needs a receiver that waits, so termination is not claimed.
- SieveRuns.SieveIsSafe: below integer overflow of the generator and below NENV processes, where the model stops; fork is one step, as the fork theorems allow.
- ExceptionStack.Unwind: a trap-time esp below 4, with which the return address would go to the kernel's memory and fault.
- ExceptionStack.NestedFaultIsInvisible: a handler that has run off its page and faults again is not followed further: the next frame goes to the top of the stack, over the first.
- Formatting.VPrintFmt: arguments are of the kinds the format asks for, widths do not overflow an int, and the sink takes the characters after the scanner instead of during it; `%e` prints its number directly instead of through a second format.
- kern/printf.c, lib/readline.c, the rest of debuginfo_eip, and memset and memmove, which are primitives here.
