# MulOS: a verification model

MulOS is a small multiprocessor kernel in three layers: intrusive queues and a process tree over fixed pools
(phase1), a nucleus of system calls, interrupt handlers and a scheduler (phase2), and a support level with a demand
pager and device routines for up to eight user processes, the U-procs (phase3). This project models the three layers
in Dafny and proves what they promise, in every state of every run where that is what is promised.

`dafny verify dfyconfig.toml` checks everything. MAXPROC, NCPU, the number of U-procs, the number of TLB slots and
the initial values of the semaphores are symbolic; the page table size (32) and the device numbering (8 devices a line,
48 semaphores) are the kernel's.

## The three cores

**Kernel objects on the heap** (`ListX`, `Pcb`, `PcbPool`, `AslSpec`, `Asl`, `Store`). `ListHead` objects with `next`
and `prev` fields are relinked in place. A ghost `Family` maps each list head to the sequence its list stands for;
`Rings` says that the pointers realise all these sequences at once and that the lists share no node. `list_add_tail` is
append and `list_del` is remove-at-position on one list, and every other list keeps its sequence and its links. On top
of that the PCB pool keeps free list and child lists apart, with `p_parent` agreeing with the lists, and the active
semaphore list stands for a map from semaphore address to a FIFO queue, although the same `s_link` field is a circular,
doubly linked list node while a descriptor is free and a NULL-terminated, singly linked one while it is active. `Store`
puts pool, semaphore list and ready queue together: they are one family, so a `p_list` is in use for one purpose at
most.

**The nucleus, as code and as a step machine.** `NucleusState` gives the state and what each lock-held section does to
it, as functions. `Nucleus` is the code, working on the linked lists of `Store`: each method is proved to do what the
function of its section says, among them the mutually recursive freeing of a subtree along `p_child` and `p_sib`.
`NucleusInv` and `Termination` show that every section keeps the invariant. `Machine` runs any interleaving of sections
on any number of CPUs from boot, and `KernelRuns` shows that the code carries out every such run, from static storage
through main. `BootRuns` has the runs in which the CPUs that main has started already work while it starts the others,
`Capacity` says when createProcess finds an entry, `DeviceIndex` which semaphore a device register has. `SemaphoreLaw`,
`RoundRobin`, `SemaphoreFifo`, `ClockWait`, `Halt` and `Descriptors` prove the laws of those runs, `Interludes` what
other CPUs may do where a handler releases the lock before it calls the scheduler. `Witnesses` and `DescriptorLeak` are
runs from boot in which a law fails because its condition does.

A section that uses the NULL slot of its own CPU (a P that would block, TERMPROCESS(0), the time-slice handler) has no
defined effect in C, so runs do not contain it; createProcess does not use the slot, and they do. A CPU whose time-slice
handler has requeued its process is `due`: the slot still names it, the scheduler call is yet to come. A CPU whose
process another CPU terminated is `adrift`: its slot is NULL and it goes on executing.

**Pager and support level.** `SwapMemory` has the swap table, page tables, frames, flash devices and TLB as one value;
`Pager` is the code that updates them in place; `Paging` and `PagingRuns` prove that paging cannot be observed, that
swap table and page tables are inverse and that the TLB is coherent, whatever U-procs and flash devices do, short of two
events that the code does not survive; `StaleTlb` and `LostPage` are runs with those. `Semaphores` is one semaphore by
itself, as the nucleus implements it. `Support` is the protocol of up to eight U-procs and the instantiator on
SwapPoolSemaphore, MasterSemaphore and the device semaphores; `SupportInv` and `SupportRuns` prove it over all
interleavings, `SupportEnds` that it can always come to its end, and `SupportCode` is the loop of terminateUProc over
the device semaphores.

## What is false of the code, and exactly when it holds

- terminateProcess always ends in the scheduler, which overwrites the caller's CPU slot, and between the two the lock is
  free. Device interrupts aside, whatever the other CPUs do in between, nobody is lost, if and only if the caller is the
  target or below it, or everything else is deserted: nobody outside the target's subtree is ready, no other CPU
  executes anything, and none that could take a clock interrupt finds a survivor waiting for the clock
  (`Interludes.KillThenScheduleIff`). A parent that terminates one of two children and so disappears itself is
  `Witnesses.ParentLost`; one that is lost only because a child on another CPU creates a process in between is
  `Witnesses.LostInBetween`. Runs take the step only when the caller dies.
- terminateProcess clears the slots of other CPUs that execute a victim, but does not stop them. createProcess on such a
  CPU makes a process without a parent: it keeps the tree rooted if and only if the slot is not NULL or no entry is free
  (`Halt.CreateKeepsRootedIff`). A termination adds no such CPU if and only if no victim of it runs on another CPU
  (`Halt.NobodyAdriftIff`); the tree is sure to stay rooted afterwards if and only if, besides, no other CPU goes on
  executing a victim of an earlier one (`Halt.KillStaysRootedIff`). Terminating the initial
  process makes the scheduler halt if and only if everybody descends from it (`Halt.RootTakesAllIff`);
  `Witnesses.OrphanBorn` is a run in which an orphan is created after the initial process is gone.
- The time-slice handler requeues the process, releases the lock and calls the scheduler. Sections of other CPUs may
  come between; nothing is lost or doubled if and only if the scheduler then finds somebody ready or the process was
  terminated meanwhile (`Interludes.TimeSliceApartIff`). In a state that a run from boot reaches, that is sure to be so
  if and only if NCPU is 1: another CPU can make all who are ready block (`Interludes.TimeSliceHarmlessIff`). In general
  the scheduler is harmless exactly as `Machine.DispatchKeepsIff` says; `Witnesses.DispatchedTwice` is a run that ends
  with one process in two slots.
- The three callers of insertBlocked ignore its answer. Blocking keeps every process accounted for if and only if the
  semaphore has a descriptor or one is free (`Machine.BlockKeepsIff`). Without terminations that always holds
  (`Descriptors.NeverOutOfDescriptors`); with them descriptors leak, because outBlocked never recycles one, and on every
  machine with MAXPROC >= NCPU + 2 there is a run from boot in which a process vanishes (`DescriptorLeak.ProcessLost`).
  Runs take a blocking step only when it finds a descriptor.
- handleDeviceInterrupt appends the first waiter of the device's semaphore to the ready queue while it is still linked
  into that semaphore's queue. The lists are in order afterwards, and the state is as before, if and only if nobody
  waits there; otherwise the queue head in that semaphore's active descriptor is the head of no list
  (`NucleusCode.Nucleus.HandleDeviceInterrupt`). `Witnesses.DeviceAwaited` is a run to a state in which somebody waits,
  and `KernelRuns.DeviceAnswers` comes to the broken lists from static storage. Runs do not contain the interrupt.
- main starts the other CPUs while it still takes entries off the free list, and panics when there is none. It is sure
  to find them, with at most n processes alive until it is done, if and only if NCPU <= 2 or n + NCPU <= MAXPROC + 1
  (`BootRuns.NeverPanicsIff`).
- test does not look at what CREATEPROCESS answers. All of n U-procs are sure to find an entry if and only if
  MAXPROC >= NCPU + n (`Capacity.EnoughForAllIff`); the instantiator ends in no run in which one did not
  (`SupportRuns.EndsOnlyIfGranted`), and never deadlocks when all did (`SupportRuns.NeverDeadlocked`).
- outBlockedPID never answers "not found": when no blocked process has the pid its walk visits every active descriptor
  and then steps onto NULL, never back to the list head (`Asls.Asl.FindBlockedPid`). The "not found" return of
  terminateProcess is therefore unreachable; the methods here return null and false where the walk runs off.
- freePcb takes any entry that is on no list; the pool is in order afterwards if and only if the entry had no parent and
  no children (`PcbPools.PcbPool.FreePcb`).
- GET_PAGE_INDEX is a round trip exactly on the pages that _initSupport makes entries for (`PageIndex.IndexThenVpn`);
  the next page collides with the stack page (`PageIndex.FirstIllegalPageCollides`). A refill for such a page writes
  another page's entry into the TLB. That keeps the TLB coherent if and only if no other slot has the entry already
  (`Paging.RefillSoundIff`); otherwise a U-proc can come to read a frame that belongs to another one
  (`StaleTlb.StaleRead`: a load from 0x80100000).
- _flashIO ends in terminateUProc when the device reports an error, and the swap table keeps the row of a victim whose
  entry is invalid by then. The tables of the remaining U-procs stay consistent if and only if the frame was free or
  held a page of the U-proc that ends (`Paging.FailureSoundIff`); all their page contents stay, but for the page whose
  write-back failed (`Paging.FailureContent`). `LostPage.PageLost` is a run in which a U-proc loses a page to the error
  of another.
- The project's documentation calls the active semaphore list sorted; the code appends (phase1/asl.c:38-45), and so does
  the model. The comments of passeren and verhogen speak of 0 and 1 as blocked and unblocked values; the code hands a
  semaphore over to the first waiter, of either kind, without changing the value.

## Model

| member | source | states |
|---|---|---|
| ListX.InitListHead | headers/listx.h:93-96 | the node is alone in its own circle |
| ListX.InitRing | headers/listx.h:93-96 | a fresh head joins the family as an empty list; all other lists keep their sequences |
| ListX.SpliceIn | headers/listx.h:105-110 | the four pointer writes put the node between two neighbours and keep all other neighbours |
| ListX.ListAddTail | headers/listx.h:132-134 | append to the one list; every other list of the family keeps its sequence and its links |
| ListX.SpliceOut | headers/listx.h:144-160 | the neighbours of the node become neighbours; the node is left alone in its own circle |
| ListX.NotARing | headers/listx.h:105-110 | a head whose first node does not lead back to it is the head of no list, whatever the members |
| ListX.ListDel | headers/listx.h:156-160 | the node at position k of a list that is not named leaves that list and no other list changes |
| ListX.WalkStart | headers/listx.h:232 | the walk of list_for_each starts at the first element, or ends at once on an empty list |
| ListX.WalkStep | headers/listx.h:232 | a step goes to the next element, and from the last one back to the head |
| Pcbs.InsertProcQ | phase1/pcb.c:78-80 | the process is the last of the queue; other lists unchanged |
| Pcbs.HeadProcQ | phase1/pcb.c:82-86 | the owner of the first element, or NULL on an empty queue |
| Pcbs.RemoveProcQ | phase1/pcb.c:88-94 | returns the FIFO head and leaves the rest of the queue in order |
| Pcbs.ScanProcQ | phase1/pcb.c:96-106 | finds the first process with the pid, or none has it |
| Pcbs.OutProcQ | phase1/pcb.c:96-106 | removes the first process with the same pid, wherever it is, or changes nothing |
| PcbPools.PcbPool.InitPcbs | phase1/pcb.c:49-54 | the free list is the table in order, and the pool is valid |
| PcbPools.PcbPool.FreePcb | phase1/pcb.c:56-58 | any entry on no list joins the tail of the free list; the pool is in order afterwards exactly if it had no parent and no children |
| PcbPools.PcbPool.AllocPcb | phase1/pcb.c:36-68 | takes the tail of the free list and resets it with the next pid; NULL exactly when the list is empty; no node outside the pool changes |
| PcbPools.PcbPool.InsertChild | phase1/pcb.c:112-117 | the child is the youngest of the parent and nothing else moves; a NULL argument changes nothing |
| PcbPools.PcbPool.OutChild | phase1/pcb.c:136-142 | the process leaves its own position among its parent's children, without a walk, and has no parent |
| PcbPools.PcbPool.RemoveChild | phase1/pcb.c:119-134 | the oldest child leaves and has no parent; NULL exactly when there is none |
| Asls.Asl.InitASL | phase1/asl.c:48-57 | all descriptors are free, none is active, and the structure stands for the empty map |
| Asls.Asl.FindSemd | phase1/asl.c:19-29 | the walk finds the active descriptor of the address, or there is none |
| Asls.Asl.AllocSem | phase1/asl.c:11-17 | takes the tail of the free list, stores the address, empties the queue |
| Asls.Asl.InsertSem | phase1/asl.c:31-46 | the new descriptor, with its one waiter, is the last of the NULL-terminated chain |
| Asls.Asl.InsertBlocked | phase1/asl.c:59-73 | the structure goes from map m to Insert(m); the result is 1 exactly when no descriptor was left |
| Asls.Asl.RemoveBlocked | phase1/asl.c:75-92 | the structure goes from m to Remove(m); the FIFO head is returned and an emptied descriptor is free again |
| Asls.Asl.OutBlocked | phase1/asl.c:94-99 | removes exactly p if p is blocked anywhere, and changes nothing otherwise, even when p_semAdd is stale |
| Asls.Asl.HeadBlocked | phase1/asl.c:101-111 | the first waiter, or NULL when nobody waits there |
| Asls.Asl.FindBlockedPid | phase1/asl.c:114-128 | the walk finds the first process with the pid; if none is blocked, and only then, it has visited all descriptors and steps onto NULL |
| Asls.Asl.OutBlockedPID | phase1/asl.c:114-128 | some blocked process has the pid: one such leaves its queue and nothing else changes; none has it: nothing changes |
| AslShapes.BlockedWhereItSays | phase1/asl.c:59-73 | a blocked process is on the queue of the semaphore its p_semAdd names and on no other |
| AslShapes.ContentsSize | phase1/asl.c:6-8 | the map has as many addresses as there are active descriptors, so none is free exactly when it is full |
| Asls.Asl.WaitOnce | phase1/asl.c:59-73 | nobody waits on two semaphores, or twice on one |
| AslSpec.RemoveTakes | phase1/asl.c:75-92 | whom removeBlocked returns waits nowhere any more, and nobody else starts to |
| AslSpec.OutTakes | phase1/asl.c:94-99 | so it is with outBlocked, for a process that waits on the semaphore it names |
| Stores.Store.OneFamily | phase1/pcb.c:6-7 | free list, children lists, ready queue, semaphore queues and descriptor free list are one family that shares no node |
| Stores.Store.LooseIff | phase1/pcb.c:78-106 | a p_list is unused exactly if its process is neither free nor ready nor blocked |
| Stores.Store.NewProcess | phase2/exceptions.c:154-174 | allocPcb, insertProcQ and insertChild on the pointers: one entry leaves the free list, is ready, and is the caller's youngest child |
| Stores.Store.InsertProcQ | phase1/pcb.c:78-80 | on the ready queue: the process is its last, and pool and semaphore list stay |
| Stores.Store.RemoveProcQ | phase1/pcb.c:88-94 | on the ready queue: its head leaves and is then on no list |
| Stores.Store.Block | phase2/exceptions.c:258-263 | p_semAdd and insertBlocked on the pointers: Insert on the map, one field in the table, nothing else |
| Stores.Store.RemoveBlocked | phase1/asl.c:75-92 | Remove on the map; the process returned is on no list, ready to be queued |
| Stores.Store.Discard | phase2/exceptions.c:109-122 | outChild, outProcQ, outBlocked and freePcb on the pointers: the process leaves tree and queues and is the last free entry |
| Stores.Store.FirstChild | phase2/exceptions.c:101-102 | what p_child.next leads to, unless emptyChild holds, is the oldest child |
| Stores.Store.NextSibling | phase2/exceptions.c:105-106 | what p_sib.next leads to, unless list_is_last holds, is the next sibling |
| Stores.Store.Init | phase2/initial.c:191-197 | initPcbs, initASL and the empty ready queue, on zeroed storage: all entries free, nobody ready or blocked |
| AslSpec.WithoutAt | phase1/pcb.c:96-106 | removing the first occurrence is removing at its position |
| ProcessTree.DoomedExact | phase2/exceptions.c:97-130 | the child-and-sibling recursion reaches the listed processes' descendants-or-selves and nothing else |
| ProcessTree.DoomedOnce | phase2/exceptions.c:97-130 | it frees nobody twice |
| ProcessTree.DoomedFrame | phase2/exceptions.c:97-130 | whom it frees, and in which order, depends only on the children lists of those freed |
| ProcessTree.SubtreeExact | phase2/exceptions.c:192-239 | terminateProcess's order lists exactly the target and its descendants |
| ProcessTree.SubtreeOnce | phase2/exceptions.c:192-239 | each of them once |
| ProcessTree.DoomedInOrder | phase2/exceptions.c:97-130 | nobody is freed before a descendant of it, and of two siblings the younger goes first |
| ProcessTree.OneBranch | phase1/pcb.c:112-142 | siblings have no common descendant |
| NucleusCode.Nucleus.CreateProcess | phase2/exceptions.c:149-184 | does what Create says, on every CPU, also one with a NULL slot; -1 exactly when the pool is empty, else the new pid |
| NucleusCode.Nucleus.Passeren | phase2/exceptions.c:249-289 | does what NucleusState.Passeren says |
| NucleusCode.Nucleus.Verhogen | phase2/exceptions.c:300-339 | does what NucleusState.Verhogen says |
| NucleusCode.Nucleus.DoIo | phase2/exceptions.c:349-378 | the command register is written and the caller blocks on the semaphore that getDeviceSemaphoreIndex finds, whatever its value |
| DeviceIndex.OneSemaphoreEach | phase2/interrupts.c:105-135 | each device and terminal half has a semaphore of its own, and each of the 48 belongs to one |
| DeviceIndex.InRangeIff | phase2/interrupts.c:105-135 | for any 32-bit address the index is in range exactly in the plain devices' registers and at the terminals' command registers |
| DeviceIndex.InNumbers | phase2/interrupts.c:105-135 | the indices of all command registers, by address |
| NucleusCode.Nucleus.WaitForClock | phase2/exceptions.c:384-387 | P on the pseudo-clock semaphore |
| NucleusCode.Nucleus.Scheduler | phase2/scheduler.c:31-60 | dispatches the head of the ready queue; HALT exactly on an empty queue and count 0 |
| NucleusCode.Nucleus.RequeueCurrent | phase2/interrupts.c:243-252 | the lock-held part: the process joins the end of the ready queue, and the slot keeps it |
| NucleusCode.Nucleus.HandleProcessLocalTimerInterrupt | phase2/interrupts.c:242-254 | with no other CPU in between: the running process goes to the end of the ready queue and the head runs |
| NucleusCode.Nucleus.HandlePseudoClockInterrupt | phase2/interrupts.c:272-285 | the loop makes every waiter ready, in order, and gives the descriptor back |
| NucleusCode.Nucleus.HandleDeviceInterrupt | phase2/interrupts.c:199-219 | the lists are in order afterwards, and the state unchanged, exactly if nobody waits on the device's semaphore; otherwise that is 1, its first waiter is linked as the last that is ready, and its queue head is the head of no list |
| NucleusCode.Nucleus.ClearSlots | phase2/exceptions.c:125-129 | every CPU slot that names the process is NULL, the others are unchanged |
| NucleusCode.Nucleus.FreeTarget | phase2/exceptions.c:109-129 | one process leaves tree, ready queue, semaphore queue and CPU slots and joins the free list |
| NucleusCode.Nucleus.TerminateProcessSubTree | phase2/exceptions.c:97-130 | terminates, and frees the target, its later siblings and all their descendants, and nothing else |
| NucleusCode.Nucleus.FindPcb | phase2/exceptions.c:65-88 | for every pid: the target if there is one, and a blocked one has then left its queue; otherwise nothing changes and nobody is the target |
| NucleusCode.Nucleus.TerminateProcess | phase2/exceptions.c:192-235 | for every pid: Kill of the target, although a blocked target was unlinked first; without a target nothing changes |
| NucleusCode.Nucleus.RunnerIsLoose | phase2/exceptions.c:258-263 | the process that a CPU executes is on no list, so it may be queued |
| NucleusCode.Nucleus.PidIsIdentity | phase1/pcb.c:100-103 | allocated pids are unique, so the search by pid in outProcQ finds the process itself |
| NucleusCode.Nucleus.StartKernel | phase2/initial.c:185-218 | the globals after main are Boot: one process ready, an entry for every other CPU, the rest free |
| KernelRuns.EnabledIsCallable | phase2/exceptions.c:149-387 | wherever the machine allows a section, what its code asks of the lists holds |
| KernelRuns.Perform | phase2/exceptions.c:149-387 | every section's code, on the pointers, takes the machine's step and leaves the lists well linked |
| KernelRuns.BootAndRun | phase2/initial.c:185-218 | from zeroed storage through main, the code carries out every run of the machine |
| NucleusInv.CreateInv | phase2/exceptions.c:149-184 | createProcess keeps the invariant, on every CPU |
| NucleusInv.BlockInv | phase2/exceptions.c:252-270 | blocking keeps the invariant when a descriptor is to be had |
| NucleusInv.UnblockInv | phase2/exceptions.c:280-285 | letting the first waiter go, or setting the value, keeps the invariant |
| NucleusInv.TickInv | phase2/interrupts.c:272-285 | the clock tick keeps the invariant |
| NucleusInv.DispatchInv | phase2/scheduler.c:31-60 | a dispatch on a CPU with a NULL or outdated slot keeps the invariant |
| NucleusInv.RequeueInv | phase2/interrupts.c:243-252 | so does the lock-held part of the time-slice handler |
| NucleusInv.BootInv | phase2/initial.c:185-218 | it holds after boot |
| Termination.FreeOneIsPurge | phase2/exceptions.c:109-129 | outChild, outProcQ, outBlocked and the sweep remove a childless process from everywhere it can be |
| Termination.AfterSiblings | phase2/exceptions.c:100-129 | after both recursive calls, freeing the target completes exactly the closed form |
| Termination.PurgePurge | phase2/exceptions.c:97-130 | freeing one batch and then another is freeing both |
| Termination.PurgeInv | phase2/exceptions.c:97-130 | freeing a set closed under children keeps the invariant |
| Termination.UnlinkedFirst | phase2/exceptions.c:204-222 | that findPcb unlinks a blocked target early makes no difference in the end |
| Termination.OneTarget | phase2/exceptions.c:67-88 | a pid names at most one process |
| Termination.TargetIff | phase2/exceptions.c:65-88 | a pid names the live process that has it, ready or blocked, but not one that a CPU executes; pid 0 names the one in the caller's slot |
| Termination.TargetExistsIff | phase2/exceptions.c:192-209 | terminateProcess(pid) finds a target exactly if such a process lives |
| Termination.TerminateExact | phase2/exceptions.c:192-239 | exactly the target's descendants-or-self die, once each and none before a descendant; survivors keep place and order; the count falls by as many |
| Termination.TerminateSlots | phase2/exceptions.c:124-129 | a slot is cleared exactly if it named a victim, and its CPU is then adrift exactly if it executed that victim |
| Machine.StepInv | phase2/exceptions.c:149-387 | every section keeps the invariant, also on a CPU that goes on executing a dead process |
| Machine.RunInv | phase2/exceptions.c:149-387 | so does every run |
| Machine.OnePlace | phase2/initial.c:185-218 | a PCB is in exactly one of free list, ready queue, semaphore queue, CPU slot, boot reserve |
| Machine.CountIsExact | phase2/exceptions.c:174-174 | ProcessCount is the number of ready, blocked and running processes |
| Machine.Conservation | phase2/initial.c:185-218 | both hold in every state of every run from boot, and ProcessCount + free = MAXPROC - (NCPU - 1) |
| BootRuns.NextStage | phase2/initial.c:109-123 | with nobody in between, a turn of main's loop takes the entry for the next CPU |
| BootRuns.MoveInv | phase2/initial.c:109-123 | a turn keeps the invariant, and so does every section of a CPU already started |
| BootRuns.ConservationFromStart | phase2/initial.c:109-123 | conservation from main's first entry on, while the CPUs already started run |
| BootRuns.NeverPanicsIff | phase2/initial.c:109-112 | main is sure to find its entries, with at most n processes alive, exactly if NCPU <= 2 or n + NCPU <= MAXPROC + 1 |
| Capacity.CreateExact | phase2/exceptions.c:149-184 | the new process has a larger pid than any before, is the caller's youngest child and the last that is ready; nobody else notices |
| Capacity.CreateSucceedsIff | phase2/exceptions.c:149-184 | in every run createProcess finds an entry exactly if ProcessCount + NCPU <= MAXPROC |
| Capacity.EnoughForAllIff | phase3/initProc.c:99-110 | n U-procs are sure to find an entry each exactly if MAXPROC >= NCPU + n |
| Machine.BlockKeepsIff | phase2/exceptions.c:261-268 | ignoring insertBlocked's answer is harmless if and only if a descriptor was to be had |
| Machine.DispatchKeepsIff | phase2/scheduler.c:31-60 | the scheduler is harmless exactly if the slot is NULL, or requeued and overwritten, or in use and kept |
| Interludes.KillThenScheduleIff | phase2/exceptions.c:192-239 | after any sections of the other CPUs, device interrupts aside, the final scheduler call is harmless exactly if the caller died or everything else is deserted |
| Interludes.TimeSliceApartIff | phase2/interrupts.c:242-254 | with any sections of the other CPUs in between, harmless exactly if somebody is ready or the requeued process is gone |
| Interludes.TimeSliceAlone | phase2/interrupts.c:242-254 | on one CPU always harmless |
| Interludes.TimeSliceHarmlessIff | phase2/interrupts.c:242-254 | in every state that a run from boot reaches it is sure to be harmless exactly if NCPU is 1 |
| SemaphoreLaw.LawStep | phase2/exceptions.c:249-339 | every section keeps the law, and the value changes only when nobody waits |
| SemaphoreLaw.TwoSidedLaw | phase2/exceptions.c:249-339 | in every run: value = initial + completed V's - completed P's, in {0, 1}; only P-callers wait at 0, only V-callers at 1 |
| SemaphoreFifo.JoinsLast | phase2/exceptions.c:252-270 | whoever blocks on a semaphore is the last in its queue |
| SemaphoreFifo.PassesFirst | phase2/exceptions.c:280-285 | a P or V that does not block makes the first waiter the last that is ready, or sets the value if nobody waits |
| SemaphoreFifo.FifoRelease | phase1/asl.c:59-92 | with n waiters ahead of it, a process is let go by the (n + 1)-th P or V that does not block, unless terminated |
| ClockWait.TickWakesAll | phase2/interrupts.c:272-285 | a clock interrupt leaves nobody waiting for the clock; all who were are ready, in order, behind everybody who was |
| ClockWait.WokenByTick | phase2/interrupts.c:272-285 | in every run, whoever waits for the clock is ready by the next clock interrupt, unless terminated |
| ClockWait.ClockBlocks | phase2/initial.c:191-197 | clock and device semaphores are 0 after boot, and in runs without a V on it a P on the clock's always blocks |
| ClockWait.SleepsUntilTick | phase2/exceptions.c:384-387 | in such runs a process that waits for the clock sleeps until the next clock interrupt |
| RoundRobin.NeverBack | phase2/scheduler.c:52-52 | no section that does not dispatch moves a ready process back |
| RoundRobin.DispatchStep | phase2/scheduler.c:52-52 | a dispatch moves everybody up by one and makes the first run |
| RoundRobin.TimeOutLast | phase2/interrupts.c:243-252 | whose time slice ends is behind everybody who is ready |
| RoundRobin.BoundedWaiting | phase2/scheduler.c:31-60 | with n ahead of it a process runs by the (n + 1)-th dispatch, unless terminated before |
| Halt.HaltsIff | phase2/scheduler.c:33-41 | the scheduler's HALT test holds exactly when nothing is ready, blocked or running |
| Halt.HaltsInEveryRun | phase2/scheduler.c:33-41 | in every run from boot the test holds exactly when nobody lives |
| Halt.CreateKeepsRootedIff | phase1/pcb.c:112-117 | createProcess keeps the tree rooted exactly if the caller's slot is not NULL or nothing is free |
| Halt.NobodyAdriftIff | phase2/exceptions.c:124-129 | a termination adds no CPU that executes a dead process exactly if no victim ran on another CPU |
| Halt.StaysRootedIff | phase1/pcb.c:112-117 | every run without terminations stays rooted exactly if no CPU executes a dead process or nothing is free |
| Halt.KillStaysRootedIff | phase2/exceptions.c:124-129 | after a termination the tree is sure to stay rooted exactly if no other CPU executes a victim of it or of an earlier one |
| Halt.BelowRoot | phase1/pcb.c:112-142 | in a rooted state every live process descends from the initial one |
| Halt.AlwaysRooted | phase1/pcb.c:112-142 | in every run from boot whose terminations meet that condition the live processes are one tree below the initial one |
| Halt.RootTakesAllIff | phase2/exceptions.c:192-239 | terminating the initial process makes the scheduler halt exactly if everybody descends from it |
| Halt.RootTakesAll | phase2/exceptions.c:192-239 | in a rooted state it leaves all queues and slots empty and the count 0 |
| Descriptors.RoomWhileRunning | phase1/asl.c:59-73 | when no queue is empty, fewer than MAXPROC descriptors are active while somebody runs |
| Descriptors.ServedWithoutKills | phase1/asl.c:59-92 | every run without terminations is served and keeps the invariant |
| Descriptors.NeverOutOfDescriptors | phase1/asl.c:59-92 | in such runs from boot insertBlocked always succeeds |
| Witnesses.ParentLost | phase2/exceptions.c:192-239 | on every machine with room, a run from boot after which terminating one child loses the parent |
| Witnesses.LostInBetween | phase2/exceptions.c:237-238 | a run after which the parent is lost only because another CPU creates a process in between |
| Witnesses.OrphanBorn | phase2/exceptions.c:171-171 | a run after which the initial process is gone, HALT is due, and a process without a parent is created |
| Witnesses.DispatchedTwice | phase2/interrupts.c:252-253 | a run after which one process is in two slots |
| Witnesses.DeviceAwaited | phase2/exceptions.c:349-378 | a run after which a process waits for any given device |
| KernelRuns.DeviceAnswers | phase2/interrupts.c:199-219 | from static storage, for any device: code that comes to its interrupt and to lists that are no lists |
| DescriptorLeak.ProcessLost | phase1/asl.c:94-99 | whenever MAXPROC >= NCPU + 2: a run from boot, with terminations, after which a P loses its caller |
| PageIndex.IndexThenVpn | phase3/headers/vmSupport.h:19-19 | page to entry to label is the identity exactly on the legal pages |
| PageIndex.VpnThenIndex | phase3/initProc.c:79-84 | every entry is found under the page number it is labelled with |
| PageIndex.InNumbers | phase3/headers/vmSupport.h:19-19 | pages 0x80000 to 0x8001E have entries 0 to 30, 0xBFFFF has 31, no other has one; elsewhere the index is the lowest byte |
| PageIndex.FirstIllegalPageCollides | phase3/headers/vmSupport.h:19-19 | the page after the text area maps to the stack page's entry |
| PagerCode.Pager.constructor | phase3/initProc.c:99-110 | nothing in the pool, every page of every U-proc labelled and invalid |
| PagerCode.Pager.InitSwapStructs | phase3/vmSupport.c:92-98 | every row is free |
| PagerCode.Pager.InitSupport | phase3/initProc.c:79-84 | the 32 entries of one U-proc, labelled 0x80000 + i and, the last, 0xBFFFF, invalid; the others' tables unchanged |
| PagerCode.Pager.GetFreeSwapFrameIndex | phase3/vmSupport.c:23-37 | the cyclic scan's frame; the static index moves only when a free frame was found |
| PagerCode.Pager.UpdateTlbProbe | phase3/vmSupport.c:123-131 | an entry that is present takes the new value, otherwise the TLB is unchanged |
| PagerCode.Pager.FlashIO | phase3/vmSupport.c:51-66 | one command, block to frame or frame to block; on an error the target may hold anything and the answer is negative |
| PagerCode.Pager.AlreadyLoaded | phase3/vmSupport.c:165-180 | the loop is Lookup: it stops at the first row with the page whose entry is valid |
| PagerCode.Pager.EvictFrame | phase3/vmSupport.c:186-198 | invalidates, updates the TLB, writes back, or fails to; nothing when the frame is free |
| PagerCode.Pager.LoadPage | phase3/vmSupport.c:200-213 | reads the page in and enters it in swap table, page table and TLB; on an error it enters nothing |
| PagerCode.Pager.TlbHandler | phase3/vmSupport.c:159-213 | the guarded section does what Fault says, for all answers of the flash device, up to the sweep of terminateUProc |
| PagerCode.Pager.RefillHandler | phase2/exceptions.c:39-55 | the page's entry in the slot the hardware chose |
| PagerCode.Pager.ReleaseFrames | phase3/sysSupport.c:48-54 | the U-proc's rows become free, the others stay |
| Paging.Inverse | phase3/vmSupport.c:203-210 | a row holds a live U-proc's page exactly if the page's entry is valid and names the frame |
| Paging.OneFrameEach | phase3/vmSupport.c:203-210 | no two live pages share a frame and no page has two |
| Paging.LookupExact | phase3/vmSupport.c:165-180 | the search succeeds exactly if the entry is valid, and then changes nothing |
| Paging.HandleSound | phase3/vmSupport.c:159-213 | a fault keeps swap table, page tables and TLB consistent and makes the page valid |
| Paging.FaultOutcome | phase3/vmSupport.c:159-213 | the U-proc goes on, with the page valid, exactly if it was valid or every flash command that is needed succeeds |
| Paging.FaultCommands | phase3/vmSupport.c:186-201 | the flash commands of a fault, in order, whatever the devices answer |
| Paging.FaultTakesVictim | phase3/vmSupport.c:182-213 | a fault takes the frame that the scan yields and touches no other row, frame or entry |
| Paging.AccessServed | phase3/vmSupport.c:141-221 | after a refill on a miss and a fault on an invalid page every access to a legal page is translated to the page's frame |
| Paging.SweepSound | phase3/sysSupport.c:48-54 | so does a termination, for the U-procs that remain |
| Paging.RefillSoundIff | phase2/exceptions.c:39-55 | a refill, for any page number with an entry, keeps all tables consistent exactly if no other slot has that entry |
| Paging.FailureSoundIff | phase3/vmSupport.c:63-65 | a flash error keeps the others' tables consistent exactly if the frame was free or held a page of the U-proc that ends |
| Paging.FailureContent | phase3/vmSupport.c:63-65 | it changes no other U-proc's page, but for one whose write-back failed |
| Paging.TranslateRight | phase3/vmSupport.c:123-131 | a valid TLB entry leads to the frame that the page table and the swap table give |
| Paging.FaultIsTransparent | phase3/vmSupport.c:159-213 | a fault changes no page's content, with or without an eviction |
| Paging.StoreContent | phase3/vmSupport.c:123-131 | a store through the TLB changes one word of one page |
| PagingRuns.PagingIsTransparent | phase3/vmSupport.c:141-221 | in every such run every read yields what flat memory yields, and the pages end up with what flat memory holds |
| PagingRuns.TlbNeverStale | phase3/vmSupport.c:188-212 | in every run without a doubling refill or a flash error on another's page, translation never leads to a frame of another page |
| PagingRuns.TablesAgree | phase3/vmSupport.c:165-213 | in every such run swap table and page tables are inverse and every TLB entry of a live U-proc is current |
| PagingRuns.OrdinaryRun | phase3/initProc.c:79-84 | runs on the pages that _initSupport made entries for, without flash errors, are such runs |
| PagingRuns.VictimIsFreeIff | phase3/vmSupport.c:23-37 | the scan's frame is free exactly if some frame is; otherwise it is frame 1 |
| PagingRuns.VictimIsNearest | phase3/vmSupport.c:23-37 | of the free frames it is the nearest, cyclically, to where the last scan ended |
| PagingRuns.NoWriteBack | phase3/vmSupport.c:165-206 | faults on at most as many pages as frames, and nobody ends: no flash write, and no page read twice |
| StaleTlb.StaleRead | phase2/exceptions.c:46-51 | a run from the start in which a load from 0x80100000 doubles a TLB entry and a U-proc then reads another's page |
| LostPage.PageLost | phase3/vmSupport.c:63-65 | a run from the start in which a U-proc loses a page, and its page gets two rows, because another's fault ended in a flash error |
| Semaphores.PasserenIsP | phase2/exceptions.c:249-289 | on the nucleus state, on any CPU, P acts on its own semaphore as DoP does and on no other |
| Semaphores.VerhogenIsV | phase2/exceptions.c:300-339 | and V as DoV |
| Support.DevIndexApart | phase3/initProc.c:22-25 | getDeviceSemIndex is in range and injective for lines 3 to 8 and eight devices |
| Support.InNumbers | phase3/initProc.c:22-25 | (line - 3) * 8 + dev, and the lines 3, 6 and 8 |
| SupportCode.DeviceSemaphores.ReleaseDevices | phase3/sysSupport.c:41-46 | from any subset held, all six semaphores end at 1, no V blocks, nobody else's changes |
| SupportInv.VKeepsHolder | phase3/vmSupport.c:215-217 | the V of whoever is inside does not block and hands the section to the first waiter |
| SupportInv.TakeKeepsMaster | phase3/initProc.c:113-115 | the instantiator's P keeps the account of MasterSemaphore |
| SupportInv.SignalKeepsMaster | phase3/sysSupport.c:61-61 | so does a terminating U-proc's V |
| SupportEnds.TakeExact | phase3/initProc.c:113-115 | the instantiator's P is completed exactly if MasterSemaphore is 1, and then completes the V of the first U-proc waiting there; at 0 it blocks |
| SupportRuns.StepGood | phase3/sysSupport.c:39-63 | every step of the support level keeps its invariant |
| SupportEnds.ControlFlow | phase3/sysSupport.c:39-190 | every step takes its U-proc to the next place of its code, in every reachable state |
| SupportEnds.EndingStep | phase3/sysSupport.c:39-63 | whoever is in terminateUProc stays there, and each step of its own brings it nearer to its V on MasterSemaphore |
| SupportEnds.TerminateUProc | phase3/sysSupport.c:39-63 | in every run, after TERMINATE or a flash error a U-proc never comes back to user mode, and calls that V within nine steps of its own |
| SupportRuns.PagerMutex | phase3/vmSupport.c:151-217 | in every run at most one U-proc is inside, AsidInSwapPool names nobody else, and the V's never block |
| SupportRuns.OutByOneV | phase3/vmSupport.c:151-217 | the section is left by exactly one V, of TLB_Handler or of terminateUProc |
| SupportRuns.DeviceOwnership | phase3/sysSupport.c:39-190 | in every run a device semaphore is 0 exactly while its U-proc is in the routine; terminateUProc leaves all six at 1 |
| SupportRuns.OthersDevicesUntouched | phase3/sysSupport.c:41-46 | no step changes another U-proc's device semaphores |
| SupportRuns.GracefulShutdown | phase3/initProc.c:112-117 | the last P is completed only after every V; once all V's are called the instantiator is not blocked |
| SupportEnds.ShutdownReachable | phase3/initProc.c:99-118 | from every state of a granted run some continuation, without errors, comes to the instantiator's end |
| SupportRuns.NeverDeadlocked | phase3/initProc.c:99-118 | if test's CREATEPROCESS calls were granted, somebody can take a step until the instantiator has ended |
| SupportRuns.EndsOnlyIfGranted | phase3/initProc.c:99-118 | the instantiator ends in no run in which one of them was not |

## Left out

- What follows a device interrupt that finds a waiter: the semaphore's queue is no list any more. In runs DOIO ends
  where the caller blocks, and at the support level a device operation is an atomic success or failure. How the handler
  finds the interrupting device, and the status registers that it reads, are not modelled.
- Processor state, program counters, LDST and LDCXT: a dispatch is only "who runs". Handlers resume from p_s, which need
  not be the interrupted state.
- CPU-time accounting, timers, the IRT, TPR, WAIT and interrupt masking.
- Interleavings inside lock-held sections. The scheduler's test of ProcessCount after it has released the lock is part
  of its section.
- Per-CPU TLBs: one TLB is modelled. Races of the pager with the unlocked sweep of terminateUProc: for the memory
  properties pager sections are atomic, and a section that ends in a flash error includes the sweep.
- NucleusCode.Nucleus.StartKernel: with no other CPU in between. BootRuns has the interleavings, on values, with each
  turn of main's loop atomic although it allocates without the lock.
- NucleusCode.Nucleus.HandleProcessLocalTimerInterrupt: with no other CPU between its two sections; Interludes has the
  rest.
- Interludes.KillThenScheduleIff: the sections of other CPUs contain no device interrupt, because one that finds a
  waiter leaves no lists to go on with.
- Pids are unbounded integers: next_pid never wraps.
- Page numbers whose index is 32 or more: the refill handler reads past the page table.
- The cause check at the start of TLB_Handler, syscall dispatch, the character loops of the device routines and address
  checks. In the protocol a trap can come at any point of user code or of a device routine.
- What happens once outBlockedPID has stepped onto NULL.
- The support level's U-procs are not tied to the nucleus's processes beyond single semaphore operations (Semaphores).
- Support.Step: in terminateUProc the test of a device semaphore and the V on it are one step, as are the test and the
  clearing of AsidInSwapPool; by the ownership theorems nobody else writes either in between.
- klog.c, the testers, p1test.c and p2test.c, and machine configuration.
