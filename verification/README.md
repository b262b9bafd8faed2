# Proofs about the JOS kernel and its user library

A Dafny model of the parts of the JOS teaching kernel (lab 4) whose correctness is a matter of whole runs:
copy-on-write fork, user-level page faults, message passing and the prime sieve on top of it, the scheduler, the
spinlock, the stabs search, and the arithmetic under them (the self-mapped page directory, the boot loader, printing
and reading numbers). `dafny verify dfyconfig.toml` checks everything.

## How it is laid out

* `Types`, `Layout`, `Ipc`, `Permissions`, `Kernel`: addresses, the environment fields, and each system call of `kern/syscall.c` as a function
  of the kernel state. `Machine` is the kernel as an object whose methods update page contents, page tables and
  environments, each proved to do what its function says; `SysCalls` says what that is, field by field.
* `ForkLib`: `fork`, `pgfault`, `duppage`, `set_pgfault_handler` and `dumbfork` as the calling environment runs them.
* `Cow`, `CowInvariant`, `CowRuns`, `CowRefinement`, `CowTheorems`: the same code as a transition system of any number
  of environments, one memory access or system call at a time, and what holds in every run. `CowLibrary`: an undisturbed
  run of that system is the library's fork and pgfault. `Frozen`: read-only pages under arbitrary system calls.
* `UserFault`, `FaultNesting`, `FaultMachine`: the frame the kernel pushes for a user page fault, the return through
  `_pgfault_upcall`, faults nested to any depth, and both ends as assignments and instructions.
* `IpcRuns`, `IpcLib`, `Primes`, `Sieve`, `SieveRuns`: message passing, `ipc_send`, and `user/primes.c`.
* `Sched`, `Spinlock`, `StabSearch`, `SelfMap`, `Boot`, `Numbers`.

Page tables are a map from (environment, page number) to (physical page, set of permission flags); physical pages are
abstract ids with 4096 bytes of content. Choices the kernel makes inside code that is only used here
through its contract (which page `page_alloc` returns, whether a page table could be allocated, which environment id
is new) are parameters: theorems hold for every choice.

## Where the code and its description differ

The model follows the code. Each of these is a lemma, or a case of one, in the table below.

* `pgfault` leaves PFTEMP mapped writable to the page it copied last, and `duppage` does not know: once the page is
  shared again, a store of the environment's own at PFTEMP changes what the others see (`CowTheorems.PfMapLeavesAlias`,
  `CowTheorems.StoreThroughPftemp`). A store at PFTEMP is harmless if and only if the byte is there already or nobody's
  memory shows the page (`CowRefinement.StepRefines`); theorems about contents are about runs of harmless stores.
* A handler that faults while on a stack other than the exception stack has its outermost frame overwritten
  (`FaultNesting.OffStackFault`).
* `user_mem_check` accepts any range whose end wraps past 2^32 (`FaultMachine.Processor.UserMemCheck`).
* A fault with the exception stack emptied to its very top (esp == UXSTACKTOP) does not return: the kernel treats it as
  non-recursive, and the planted eip overwrites the saved esp (`UserFault.RoundTripExactly`).
* `stab_binsearch` goes wrong when it hits both `addr` and `addr + 1` (`StabSearch.NeighboursFail`); when every match is
  above `addr` it does not return left > right, as its comment says, but a range that starts at no match
  (`StabSearch.StabBinsearch`, second case of `Answers`).
* `sched_yield` never chooses the RUNNING current environment again, although its comment allows it
  (`Sched.LoneYield`); from a null curenv it always starts at slot 1, so others can starve (`Sched.NullCurenvStarves`).
* `%d` with blank padding puts the blanks between sign and digits, and `strtol` stops there (`Numbers.NegativeRoundTrip`).
* Waking a blocked receiver with `sys_env_set_status` makes its `ipc_recv` return a message nobody sent
  (`IpcRuns.ForcedWakeBreaksIt`).
* A page sent to a receiver that asked for it at or above UTOP is mapped there: `sys_ipc_recv` accepts any such address
  (`ipc_recv` itself passes UTOP for every non-null `pg`), and `sys_ipc_try_send` maps without looking. The page lands
  in page tables all environments share, at UTOP in place of the environment table, or at UVPT in the page directory.
  Such a send is the only call that leaves user page tables (`Frozen.BelowExactly`); the failing input is
  `Frozen.HighSend`, and the theorems about page tables and messages exclude exactly it.
* `sys_page_alloc` and `sys_page_map` test stray permission bits with a signed comparison, so any word with bit 31, PTE_U
  and PTE_P set passes, and the bit goes into the page address (`Permissions.PageCallAcceptsFlags`,
  `Permissions.SignMovesThePage`).
* `pgfault` on a copy-on-write page mapped at PFTEMP itself replaces it by zeros (`ForkLib.ResolvedAtPftemp`).
* `sys_page_alloc` does not test that `va` is page-aligned, although its comment lists that error (`Machine.Kernel.SysPageAlloc`).
* `bootmain` reads `p_memsz` bytes of the image for each segment, so the part past `p_filesz` holds whatever follows in
  the file, not zeros (`Boot.BootIsCorrect` says exactly that).

## Model

| member | source | states |
|---|---|---|
| CowRefinement.CowRefinesEager | lib/fork.c:14-127 | In every run from boot of loads and stores to any mapped page, faults, forks, messages and exits by any number of environments, without a harmful store through PFTEMP, each environment's memory in [UTEXT, UXSTACKTOP - PGSIZE), and every value read there on the way, is what a machine with private memories has after the same stores and exits and with each page copied on the spot. |
| CowRefinement.StepRefines | lib/fork.c:14-127 | One step of the copy-on-write system is one event of the eager machine if and only if it is no harmful store through PFTEMP, and then the next state is consistent again; pgfault's steps are no events. |
| CowRefinement.TraceMeans | user/dumbfork.c:25-79 | The eager run has one event per action, that of the action in the state it finds. |
| CowRefinement.EmitMeans | user/dumbfork.c:25-79 | Which event each action is: loads and stores in the range are the same loads, with the byte read, and stores; each duppage is one page copy, at its first call or, if the page was writable, its second; an exit is an exit; nothing else is an event. |
| CowRefinement.ViewMeans | lib/fork.c:112-116 | What the comparison is about: every mapped page of the range with its contents in memory, but for the child's side of a page in flight. |
| CowTheorems.SharedPagesAreReadOnly | lib/fork.c:38-74 | A physical page in the regions of two environments is writable nowhere, but for a PFTEMP mapping left by pgfault and the parent's own mapping of the page in flight in its duppage. |
| CowTheorems.NoPartialChild | lib/fork.c:99-127 | In every reachable state a forked environment that is RUNNABLE or RUNNING has all its parent's user pages, an exception-stack page nobody else maps there, and its upcall, counting every write to env_status. |
| CowTheorems.ChildStarts | lib/fork.c:122-124 | fork's last call makes the child RUNNABLE, it can be run, and it is whole. |
| CowLibrary.ForkIsLibraryFork | lib/fork.c:95-127 | From any consistent state, undisturbed and with memory enough, the caller's own steps of fork can be taken to the end, and leave exactly what the library's Fork leaves. |
| CowLibrary.ForkStep | lib/fork.c:95-127 | Whatever page tables a fork in progress stands at, its next step does its part of that. |
| CowLibrary.PgfaultIsLibraryPgfault | lib/fork.c:14-45 | Likewise a fault, the allocation, the copy byte by byte, and the remapping leave exactly what the library's PgFault leaves. |
| CowTheorems.DuppageSnapshot | lib/fork.c:58-77 | Even if the parent stores between duppage's two calls, the child's page is the parent's page at one instant between them, and which instant that is; for a page the parent has shared before, if nobody stores harmfully through PFTEMP meanwhile. |
| CowTheorems.ForkIsSnapshot | lib/fork.c:95-127 | A parent that stores nothing during its fork gives the child its memory as of the exofork, whatever all others do meanwhile short of a harmful store through PFTEMP. |
| CowTheorems.Isolation | lib/fork.c:14-77 | Over any run without a harmful store through PFTEMP an environment's memory changes only by its own stores and its exit. |
| CowTheorems.PfMapLeavesAlias | lib/fork.c:38-43 | After pgfault the faulting page and PFTEMP are one page, writable through both. |
| CowTheorems.StoreThroughPftemp | lib/fork.c:64-74 | The failing input: once duppage has shared such a page, its owner's store at PFTEMP is possible and changes the child's memory, whichever byte it changes. |
| CowTheorems.OnlyMemoryFails | lib/fork.c:14-127 | No call that fork or pgfault makes is ever refused except for lack of memory or of environments. |
| CowRuns.Keep | lib/fork.c:14-127 | The invariant behind these (single writer, progress of faults and forks, whole children) is kept by every step, harmful stores included. |
| Frozen.FrozenPage | kern/syscall.c:166-249 | A page nobody maps with PTE_W gets no writable mapping by any sequence of system calls, page sends included, until page_alloc hands it out again, if no page is sent to a receiver that wants it at or above UTOP. |
| Frozen.FrozenWhileMapped | kern/syscall.c:166-249 | So it stays read-only as long as it stays mapped, whatever is called short of such a send. |
| Frozen.BelowExactly | kern/syscall.c:328-348 | A call takes mappings out of the user's page tables, to UTOP or above, if and only if it is a successful page send to a receiver whose env_ipc_dstva is there. |
| Frozen.HighSend | kern/syscall.c:369-382 | From any state: a receiver asking at UTOP, then a page sent to it, and the sender's page is mapped at UTOP. |
| Frozen.CallsDoNotWrite | kern/syscall.c:166-197 | No system call short of a send to UTOP or above changes the contents of a page that is mapped somewhere. |
| Frozen.CallsAreConfined | kern/syscall.c:109-272 | Of an environment that is neither the caller nor its child no system call changes page tables or fields, but for a message to one that is blocked for it, and short of a send to UTOP or above. |
| Frozen.SendsAreConfined | kern/syscall.c:328-348 | A send below UTOP changes at most the one page-table entry its receiver named: no other is changed, removed or created. |
| ForkLib.Memmove | lib/fork.c:34-40 | pgfault's page copy through PFTEMP, byte by byte. |
| ForkLib.PgFault | lib/fork.c:14-45 | Succeeds exactly for a write to a copy-on-write page below UTOP when memory is left, and then has put a private writable page in its place and left PFTEMP mapped to it; with the contents of the old page, unless that was PFTEMP itself. |
| ForkLib.ResolvedMeans | lib/fork.c:14-45 | After it, for any page but PFTEMP, the environment's memory reads as before everywhere but at PFTEMP, the page is writable, and nobody else maps it. |
| ForkLib.ResolvedAtPftemp | lib/fork.c:34-40 | A copy-on-write page at PFTEMP is lost to zeros; the rest of memory stays. |
| ForkLib.DupPage | lib/fork.c:58-77 | The page tables after duppage: child first, then parent, both {U, P, COW} for a writable or copy-on-write page; {U, P} in the child and nothing in the parent otherwise. |
| ForkLib.SetPgfaultHandler | lib/pgfault.c:24-40 | The first time only, a zeroed exception stack {U, P, W} and the upcall, and nothing else. |
| ForkLib.Fork | lib/fork.c:95-127 | With memory enough it succeeds, and then every user page of the region is shared without write permission, the child has a fresh exception stack and the upcall and is runnable, and nothing else has changed. |
| ForkLib.ForkedMeans | lib/fork.c:95-127 | The child reads the parent's memory, no other memory changes, neither side can write a shared page, and the child maps nothing else. |
| ForkLib.ForkedPerms | lib/fork.c:58-77 | Exactly which permissions fork leaves: copy-on-write on both sides of a page that was writable or copy-on-write, read-only in the child otherwise, and every other entry of everybody as it was. |
| ForkLib.ForkedEnvs | lib/fork.c:99-127 | The child is RUNNABLE, the caller's, returns 0 and has the upcall; no other environment changes. |
| ForkLib.FirstStore | lib/fork.c:14-77 | After fork, pgfault's condition holds on either side of such a page, and it leaves that side a writable page of its own that reads as the parent's did, while the other side reads on. |
| ForkLib.DumbDupPage | user/dumbfork.c:25-38 | dumbfork's page copy through UTEMP. |
| ForkLib.DumbFork | user/dumbfork.c:40-79 | With pages enough it succeeds, and then the child has new pages holding the data and stack pages' contents, and is runnable. |
| ForkLib.DumbForkedMeans | user/dumbfork.c:40-79 | The child has the data pages and the stack page, writable and new, reads there what the parent had, and is RUNNABLE and the caller's; the parent keeps what it had but for UTEMP. |
| ForkLib.ForkMatchesDumbfork | user/dumbfork.c:40-79 | From one state, every page dumbfork gives its child reads the same in fork's child, and neither changes the parent's memory but for UTEMP. |
| Machine.Kernel.SysExofork | kern/syscall.c:78-100 | E_NO_FREE_ENV, then E_NO_MEM, else the new environment is NOT_RUNNABLE, not receiving, returns 0, has no upcall, and no mapping changes. |
| Machine.Kernel.SysEnvSetStatus | kern/syscall.c:109-128 | Errors in the source's order, else one status written. |
| Machine.Kernel.SysEnvSetPgfaultUpcall | kern/syscall.c:138-148 | The upcall of the caller or its child. |
| Machine.Kernel.SysPageAlloc | kern/syscall.c:166-197 | Every error case for a permission word with bit 31 clear, else a zeroed page mapped. |
| Machine.Kernel.SysPageMap | kern/syscall.c:215-249 | Every error case for a permission word with bit 31 clear, among them write permission from a read-only page, else one entry written. |
| Machine.Kernel.SysPageUnmap | kern/syscall.c:258-272 | Every error case, else one entry gone. |
| Machine.Kernel.SysIpcTrySend | kern/syscall.c:312-356 | Refused with no change unless the receiver is blocked and empty; else message delivered, page mapped if both sides want one (as one entry, below UTOP), receiver runnable. |
| Machine.Kernel.SysIpcRecv | kern/syscall.c:369-382 | The caller is marked receiving with from == 0 and not runnable. |
| SysCalls.ExoforkMeans | kern/syscall.c:78-100 | When it fails and how; else the new environment's parent, status, receiving flag, return value 0 and absent upcall, with every other environment, entry and page as it was. |
| SysCalls.SetStatusMeans | kern/syscall.c:109-128 | E_INVAL for another status, then E_BAD_ENV outside the family; else that one status. |
| SysCalls.SetUpcallMeans | kern/syscall.c:138-148 | E_BAD_ENV outside the family; else that one upcall. |
| SysCalls.PageAllocMeans | kern/syscall.c:166-197 | The errors in order; else the one entry maps the page with the permissions asked for, the page is all zero, and no other entry or page changes. |
| SysCalls.PageMapMeans | kern/syscall.c:215-249 | The errors in order; else the one entry maps the source's page with the permissions asked for, write permission only if the source has it. |
| SysCalls.PageUnmapMeans | kern/syscall.c:258-272 | The errors in order; else the one entry is gone. |
| SysCalls.TrySendMeans | kern/syscall.c:312-356 | The errors in order; else the receiver is RUNNABLE with the sender, the value and return value 0, and the page is mapped where it asked exactly if both want one. |
| SysCalls.IpcRecvMeans | kern/syscall.c:369-382 | E_INVAL for an unaligned address below UTOP; else the caller is blocked, empty, with its address recorded. |
| Permissions.PageCallAcceptsFlags | kern/syscall.c:179-183 | The permission words sys_page_alloc and sys_page_map accept: those whose flags are allowed, and every word with PTE_U, PTE_P and bit 31. |
| Permissions.SendAcceptsFlags | kern/syscall.c:328-335 | sys_ipc_try_send's unsigned test accepts exactly the words whose flags are allowed. |
| Permissions.SignMovesThePage | kern/syscall.c:188-191 | The entry written for an accepted word maps the page asked for if and only if bit 31 is clear. |
| FaultNesting.NestedRoundTrip | lib/pfentry.S:34-89 | Whatever nests between a fault and the return that pops its frame, if handlers keep their frame and all above it, the return restores eip, esp, eflags and the seven registers of the fault, to the code it interrupted, with every outer frame live as before. |
| FaultNesting.Keep | lib/pfentry.S:34-89 | The invariant of the exception stack is kept by faults, handler code, and each half of the tail, also when the tail's own store faults. |
| FaultNesting.TailWritesBelowEsp | lib/pfentry.S:56-66 | Outside the exception stack the tail changes only the word below the trap-time esp. |
| FaultNesting.ExceptionStackDiscipline | kern/trap.c:402-424 | Live frames are disjoint, inside the one page, each nested one a scratch word below the esp it interrupted, and at most 73. |
| FaultNesting.BoundIsTight | kern/trap.c:402-424 | Frames as high as can be: the next one is accepted if and only if there are fewer than 73. |
| FaultNesting.BoundIsReached | kern/trap.c:402-424 | From any program on its own stack with an upcall there is a run to n live frames, for each n up to 73. |
| FaultNesting.AcceptedExactly | kern/trap.c:404-415 | With the exception-stack page writable and the page below it not, the frames that fit in the page are exactly those page_fault_handler's check accepts. |
| FaultNesting.OffStackFault | kern/trap.c:404-410 | A handler that faults on another stack has its outermost frame overwritten, and it serves no more unless both interrupted states have the same words. |
| UserFault.RoundTripExactly | lib/pfentry.S:34-89 | For every trap-time stack in user memory one fault and return is exact if and only if esp was not UXSTACKTOP (or eip is by chance the address of the colliding word). |
| FaultMachine.Processor.UserMemCheck | kern/trap.c:411-415 | Page by page, it accepts a range if and only if every byte is below ULIM and in a writable page, or the end of the range wraps past 2^32. |
| FaultMachine.Processor.PageFaultHandler | kern/trap.c:402-431 | The thirteen words of the frame in order, the new eip and esp, with nothing else changed; or, without an upcall or room, the environment destroyed and nothing written. |
| FaultMachine.Processor.StoreFrame | kern/trap.c:416-421 | The six assignments, the register block among them, leave exactly the words of a struct UTrapframe. |
| FaultMachine.Processor.UpcallTail | lib/pfentry.S:65-89 | The instructions of the tail, run on the frame of a fault, return to it exactly, with the one exception above. |
| IpcRuns.ExactlyOnce | kern/syscall.c:312-382 | For any senders and interleaving in which nobody sets a blocked receiver RUNNABLE or sends a page to UTOP or above, destroyed receivers included, the results of each ipc_recv loop are its successful sends in order with at most one unread, and a receiving environment is NOT_RUNNABLE with from == 0. |
| IpcRuns.NoOverwrite | kern/syscall.c:324-326 | While a message is unread every send to its receiver is refused and changes nothing. |
| IpcRuns.DeliveredIsReceived | kern/syscall.c:349-354 | After a send that goes through, its receiver can run, and comes out of ipc_recv with everything ever sent to it, this message last. |
| IpcRuns.Rendezvous | kern/syscall.c:369-382 | After a call of ipc_recv the next send to the caller goes through. |
| IpcRuns.ForcedWakeBreaksIt | kern/syscall.c:109-128 | The proviso is needed in every reachable state: setting a blocked receiver RUNNABLE makes it return a message with from == 0 that nobody sent. |
| IpcLib.IpcSend | lib/ipc.c:47-63 | Delivered once, by the first attempt that finds the receiver blocked and empty; earlier attempts change nothing; it panics only for a receiver that does not exist. |
| IpcLib.IpcRecv | lib/ipc.c:21-42 | It leaves the caller blocked and empty, and if a send is all that happens to it before it next runs, returns that send's sender and value. |
| Sieve.SievePrintsPrimes | user/primes.c:13-52 | In every interleaving the printed lines are the first primes in order, line k by process k, the stream into process k is a prefix of the integers >= 2 not divisible by the first k - 1 primes, and no process panics. |
| SieveRuns.PrintsAnyNumber | user/primes.c:13-52 | For every n there is a run of the sieve that prints n lines. |
| SieveRuns.Travels | user/primes.c:32-36 | From a chain at rest, a number sent down it is dropped by a process that divides it, or printed at the end, and the chain comes to rest again. |
| Sieve.KeepStep | user/primes.c:13-52 | Every step of every process and of the scheduler keeps the sieve's invariant, over the message channel. |
| Sieve.StreamIn | user/primes.c:32-36 | By induction along the chain: what was sent to a process is what the filters before it let through, up to a bound. |
| Primes.FilterSurvivors | user/primes.c:32-36 | Filtering the survivors of a list of filters is surviving one filter more. |
| Primes.NextPrime | user/primes.c:20-21 | The least integer >= 2 that no earlier prime divides is the next prime. |
| Primes.FirstPrimesUnique | user/primes.c:20-21 | There is one list of the first k primes, so its last entry is the k-th prime. |
| Sched.Cpu.SchedYield | kern/sched.c:32-52 | It runs the first RUNNABLE slot after the current one going round 1..NENV-1, slot 0 only if there is none, else enters the monitor; that slot is RUNNING, the one it replaces RUNNABLE if it was RUNNING, every other status as it was. |
| Sched.PickUnique | kern/sched.c:32-45 | That description leaves one choice. |
| Sched.BoundedWaiting | kern/sched.c:32-45 | An environment that stays RUNNABLE is run within its distance in the cycle, at most NENV - 1 picks, if no pick starts from a null curenv. |
| Sched.BoundIsMet | kern/sched.c:32-45 | With everyone always RUNNABLE it is not run earlier. |
| Sched.StaysOneRunning | kern/sched.c:32-45 | A context switch leaves exactly one RUNNING slot if there was one, the slot it replaces RUNNABLE, and the others as they were. |
| Sched.EveryoneRunsAgain | kern/sched.c:32-45 | While everybody only yields, each table being what the last switch left, every environment of the cycle, the running one included, runs again within NENV - 1 picks. |
| Sched.NullCurenvStarves | kern/sched.c:32-36 | The proviso is needed: from a null curenv slot 1 wins whenever it is ready. |
| Sched.LoneYield | kern/sched.c:41-52 | A lone RUNNING environment that yields loses the CPU to slot 0 or the monitor. |
| StabSearch.StabBinsearch | kern/kdebug.c:59-103 | Terminates on every table; no match gives right == left - 1; on a table sorted by address it brackets the address if and only if the search, as a function of its inputs, has at most one exact hit, and none at the top address (with the wrap-around case exact too); all matches above give the clipped range before the first. |
| StabSearch.BracketsMeans | kern/kdebug.c:26-47 | A bracket is unique and has exactly the matches <= addr at or before left and the others after right. |
| StabSearch.CleanWithoutNeighbour | kern/kdebug.c:80-90 | Below the top address, without an entry at addr or without one at addr + 1, the search is right. |
| StabSearch.NeighboursFail | kern/kdebug.c:84-90 | It is wrong on every range from an entry at addr to the next match, at addr + 1, whatever other entries lie between. |
| Spinlock.MutualExclusion | kern/spinlock.c:40-120 | With any number of CPUs, each access a step: one CPU inside at most, holding false outside whenever its two loads happen and true inside, pcs the holder's own, no check panics. |
| Spinlock.EntriesAreAtomic | kern/spinlock.c:60-120 | The accesses to kernel data are those of whole kernel entries one after the other, then those of the one CPU inside. |
| Spinlock.EntryCompletes | kern/spinlock.c:60-120 | Whatever the other CPUs are doing, a free lock can be taken, any kernel entry be made under it, and the lock be free again. |
| SelfMap.UvptReadsPte | inc/memlayout.h:149-166 | A load of uvpt[PGNUM(va)] reaches exactly the table entry of va if its directory entry is usable, and faults if not. |
| SelfMap.UvpdReadsPde | inc/memlayout.h:149-166 | A load of uvpd[PDX(va)] reaches the directory entry of va and never faults. |
| SelfMap.ForkTestIsSafe | lib/fork.c:112-116 | fork's test never faults and tells whether user code can read the page, unless a present directory entry is not user-readable, when it does fault. |
| SelfMap.OrderMatters | lib/fork.c:112-116 | Without looking at the directory first it would fault wherever a page table is missing. |
| SelfMap.AddressRoundTrip | inc/mmu.h:29-42 | PGADDR and PDX, PTX, PGOFF are inverse in both directions. |
| Boot.Machine.ReadSeg | boot/main.c:71-96 | What memory holds after it, sector rounding at both ends and 32-bit end address included, and when it does not return. |
| Boot.Machine.Boot | boot/main.c:43-67 | The loop over program headers, each read from memory in its turn, does what its specification says, bad magic and hanging included. |
| Boot.BootLoadsKernel | boot/main.c:43-96 | Over struct Elf and struct Proghdr as bytes of the image: with p_pa congruent to p_offset, in increasing order and clear of the header page, bootmain enters e_entry with each byte of [p_pa, p_pa + p_memsz) equal to the image byte at p_offset plus its distance, whatever was in memory. |
| Boot.BootIsCorrect | boot/main.c:43-96 | With congruent segments in increasing order that spare the header page, the kernel is entered with every byte of every segment as in the image. |
| Boot.SegmentCorrectIff | boot/main.c:71-96 | For congruent segments in any order, a segment survives the loads after it if and only if each of those that reach into it brings the same bytes. |
| Boot.OneDistanceIsCorrect | boot/main.c:71-96 | So segments that keep one distance from file offset to address are right in any order and with any overlap of their sectors. |
| Boot.LastLoadWins | boot/main.c:71-96 | Each byte of memory is that of the last load over it, or untouched. |
| Boot.FetchedShift | boot/main.c:78-82 | A segment that is not congruent is loaded shifted by its misalignment. |
| Numbers.Output.PrintNum | lib/printfmt.c:37-52 | Emits the padded numeral. |
| Numbers.PaddedLength | lib/printfmt.c:37-52 | Which is max(width, digits) characters long. |
| Numbers.NumeralIsUnique | lib/printfmt.c:37-52 | The numeral is lower-case, without leading zeros, and the only such one for its number. |
| Numbers.Output.PrintSigned | lib/printfmt.c:192-231 | %d: sign, then padding, then digits. |
| Numbers.StrtolLoop | lib/string.c:239-284 | The loops of strtol compute its specification, 32-bit wrap-around included. |
| Numbers.StrtolReads | lib/string.c:239-284 | Behind blanks and tabs, a sign, and a base prefix that fits the base argument, strtol reads the numeral, and stops at the first character that is no digit. |
| Numbers.RoundTrip | lib/string.c:239-284 | In base 10 or 16, padded with blanks or zeros to any width, strtol reads to the end and returns the number modulo 2^32 as a long, so the number itself if and only if it is below 2^31. |
| Numbers.PositiveRoundTrip | lib/printfmt.c:192-200 | %d of a number from 0 to 2^31 - 1 reads back exactly. |
| Numbers.NegativeRoundTrip | lib/printfmt.c:192-200 | %d of a negative number down to -2^31 reads back exactly with zero padding or none, and as 0, ended after the sign, with blanks. |

## Left out

* Internals of `kern/pmap.c` and `kern/env.c`, the page allocator and the environment table: `page_alloc` is "some page no table maps", and reference
  counts, freed page tables and the reuse of environment slots show only in what a new environment inherits.
* Machine.Kernel.SysExofork: of the trap frame copied from the caller only eax is in the state; that the child goes on
  with the caller's registers shows in `Cow` and `Sieve` as its program and variables.
* Boot.BootIsCorrect: segments over the loader's own code at 0x7C00 or the stack below it, which would overwrite the
  running loader, are not excluded; the machine code of the loader is not in the model.
* Machine.Kernel.SysPageAlloc: permissions are sets of flags; a word with bit 31 set, which the code accepts, maps a
  page in the upper half of physical memory, of which the kernel has none.
* Machine.Kernel.SysPageMap: likewise for words with bit 31 set.
* Machine.Kernel.SysIpcTrySend: a page mapped at or above UTOP is an ordinary entry of the receiver's; what it does to
  the tables shared there is not modelled, and the theorems exclude such sends.
* In `Cow`, environments exit but are not destroyed by others, and an environment that is forking does not exit;
  `Frozen` and `IpcRuns` have destruction. Environment ids are taken to be new when an environment is.
* In `Cow`, loads and stores of user programs outside [UTEXT, UXSTACKTOP - PGSIZE), and the page-fault handler's on the
  exception stack, are possible steps, but those pages are not part of the memory compared; system calls other than
  those of fork, pgfault, value messages and exit are not made.
* Page transfer through `ipc_recv`: its test of `pg` is inverted, so a receiver that asks for a page has it mapped at
  UTOP, not at `pg`, and one that passes null asks with address 0, which means none.
* `ipc_find_env`, and liveness of `ipc_send`, which may try for ever.
* CowRefinement.CowRefinesEager: about runs in which no environment panics for lack of memory; a panicking environment
  is one that takes no further step.
* SieveRuns.PrintsAnyNumber: a run exists; that every fair run goes on printing is not claimed.
* Sieve.SievePrintsPrimes: integers do not wrap at 2^32, and fork always finds a free environment.
* FaultNesting.NestedRoundTrip: the C handler is arbitrary code that keeps its frame and what is above it, and faults
  only on the exception stack at or below its frame; the push of
  its argument, the call, and the pop are part of that code. Addresses within four bytes of 2^32 do not wrap.
* `sched_halt`, several CPUs in `sched_yield`, and environments marked ENV_DYING on another CPU.
* `debuginfo_eip` around the search, the monitor, `vprintfmt`'s parsing of formats, precision, octal and floating point.
* Port I/O: the disk is a sequence of bytes and reads past its end return 0.
* Mixed JOS versions in the sources: PTE_USER is read as PTE_SYSCALL, vpd and vpt as uvpd and uvpt, page_alloc(&p) as
  allocate or fail; `syscall()` itself, which dispatches only four calls, is not modelled.
* Spinlock.EntriesAreAtomic: memory is sequentially consistent.
