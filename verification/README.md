# A verified model of the kernel

This project models a small multiprocessor kernel in Dafny and proves what its design relies on. It covers the nucleus (process control blocks, process tree, active semaphore list, system calls, interrupts, scheduler), the demand pager of the support level, the mutexes of the support level and the ring log.

`dafny verify dfyconfig.toml` checks everything.

## How it is built

The nucleus has three layers, each proved against the one above it.

1. `listx.dfy`: circular doubly linked lists of `headers/listx.h` on a memory of `next` and `prev` fields. A memory means a map from list heads to sequences; each pointer operation refines an operation on one of the sequences and leaves the others alone.
2. `kerneltypes.dfy`, `kernelstate.dfy`: the nucleus as a state machine. `K` holds the free list, the ready queue, `current_process`, the queues of the active semaphores, the semaphore words, the process tree and the remaining PCB fields. A section under `global_lock` is one step (`Next`), where the machine admits it: TERMPROCESS on a subtree that satisfies the guard, Scheduler on a CPU that runs nothing. `kernelinv.dfy`, `kernelterm.dfy`, `kernelwalk.dfy` and `kernelrun.dfy` give the invariant, the removal of process subtrees, the recursion that does it and the runs; `readyqueue.dfy`, `semaphores.dfy`, `devices.dfy` and `resume.dfy` the theorems about whole runs; `sections.dfy` says what each step does to queues, CPUs, values and saved states, without the step functions; `exactness.dfy` says exactly when the sections the machine does not admit keep the invariant, and `reachable.dfy` runs the machine from the initial state to where they do not.
3. `kernelstore.dfy`, `pcb.dfy`, `asl.dfy`, `exceptions.dfy`, `terminate.dfy`, `interrupts.dfy`, `initial.dfy`: the code itself as methods over the static tables (`Store`), with the loops and the recursion of the source. Each handler is proved to perform exactly its step of the state machine and to keep the invariant (`Entry`).

`mutex.dfy` interleaves `getMutex` and `releaseMutex` at the granularity of single P, V and `holder_pid` accesses; its P and V are the ones `Semaphores.PHere` and `Semaphores.VHere` prove of the nucleus. `pager.dfy` is the paging state machine and its refinement of flat memory; `pagersystem.dfy` interleaves it with the mutex and derives that only one process at a time is in the pager. `vmsupport.dfy` is the pager's code on words, tables and TLB, and `words.dfy` the bitwise operators it uses. `klog.dfy` is the ring log.

## What the code does not do

Where a law fails, the code is modelled as it is and the law is given its exact condition.

- `p_semAdd` is never reset when a process is woken. `terminateSubtree` keeps the invariant from its first step to its last if and only if no member of the subtree carries an address while it is ready or running on another CPU: `Exactness.TerminationSoundExactlyWhenGuarded`. On the memory itself, freeing such a ready process links one node into two rings, after which the links represent no two lists at all: `TerminateC.ReapProcess`, `ListX.DoubleInsertRuins`. A run of five steps leads there: `Reachable.GuardFailsInReach`. The signal sent for a process that carries an address without waiting is one too many: `Exactness.BalancedExactlyWhenWaiting`, reached by `Reachable.SignalTooManyInReach`.
- Terminations disturb a binary semaphore exactly when they hit a process that carries its address without being blocked in a P on it: `Semaphores.BinarySemaphoreExactly`. If such a process does not wait, value = initial + Vs - Ps + terminated waiters fails; if it waits in a V, the value no longer tells the length of the queue: `Semaphores.WhatTerminationBreaks`, reached by `Reachable.SignalTooManyInReach` and `Reachable.VWaiterTerminatedInReach`.
- `termProc` frees of a subtree exactly the processes that were ready or were ever blocked, so TERMPROCESS on itself by a process that never blocked returns to it: `Exactness.FreedExactlyWhenEverQueued`, `Exactness.CallerSurvivesExactlyWhenNeverBlocked`.
- `passUpordie` without a support structure calls `Scheduler` after `termProc(0)`. A process that was never blocked keeps its CPU, and `Scheduler` overwrites its slot, so it is lost if a process outside its subtree is ready. Given the guard on the subtree, that is the only way the branch fails: `Exactness.DieExactlyWhenBlockedBefore`, reached by `Reachable.DeathLosesProcessInReach`.
- `findDeviceIndex` maps the eight bytes above the device registers to the semaphore of the pseudo-clock: `Devices.IndexInRange`.
- `releaseMutex` clears `holder_pid` after its V, when the next owner may have written it already; that owner then never releases the mutex. Mutual exclusion survives; the release works exactly when nobody cleared the field in between (`Mutex.ReleaseWorksIff`, `Mutex.LeakExample`); otherwise nobody ever enters again (`Mutex.StuckForever`).
- Page number 0x8001F yields the table index of the stack page, whose tag never matches it: `VmSupport.RefillMatchesOnlyLayout`.
- `klog_print_dec` writes only a sign for the least integer: `Klog.DecimalIsCanonicalExceptMinimum`. The comment above it in `klog.c` promises 0 to 99 only; the code does all others.
- The comment on `insertBlocked` asks for an appropriate position in the ASL; the code appends, and the model follows the code.

## Model

| member | source | states |
|---|---|---|
| ListX.TraversalsAreMutualReverses | headers/listx.h:231-239 | forward traversal of a ring meets its sequence and returns to the head; backward traversal meets the reverse |
| ListX.LinkedIsUnique | headers/listx.h:231-252 | the links determine the sequence they represent |
| ListX.InsertRefines | headers/listx.h:104-109 | `__list_add` between two neighbours is insertion into that one sequence; all other lists stay linked |
| ListX.RemoveRefines | headers/listx.h:143-159 | `list_del` deletes one element, self-links it, and leaves all other lists linked |
| ListX.InitRefines | headers/listx.h:92-95 | self-linking an unlinked node keeps every list and makes it an empty head |
| ListX.DoubleInsertRuins | headers/listx.h:104-121 | adding a node that is linked on another list leaves links that represent no two sequences behind the two heads |
| ListX.ListMem.ListAdd | headers/listx.h:119-121 | prepends an unlinked node to the sequence of the head; ruins both lists when the node is linked on another |
| ListX.ListMem.ListAddTail | headers/listx.h:131-133 | appends to the sequence of the head |
| ListX.ListMem.ListDel | headers/listx.h:155-159 | removes the element from its sequence and unlinks it |
| ListX.ListMem.ListEmpty | headers/listx.h:180-182 | tells whether the sequence is empty |
| ListX.ListMem.ListNext | headers/listx.h:192-197 | yields the first element, or nothing for an empty sequence |
| KernelInv.InsertBlockedNeverFails | phase1/asl.c:50-53 | for a running process a descriptor is always available, so the unchecked calls always block and CLOCKWAIT never panics |
| KernelInv.DescriptorsSuffice | phase1/asl.c:5-13 | as long as one process is not blocked, fewer than MAXPROC semaphores are active |
| KernelInv.EveryPcbInOnePlace | phase1/pcb.c:3-34 | under the invariant every PCB is in exactly one of free list, ready queue, one semaphore queue, one CPU, and once |
| KernelRun.StepKeepsInv | phase2/exceptions.c:74-249 | every admitted step keeps the invariant: CREATEPROCESS, PASSEREN, VERHOGEN, DOIO, CLOCKWAIT, timer and device interrupts always, TERMPROCESS on guarded subtrees, Scheduler on idle CPUs |
| KernelRun.BootInv | phase2/initial.c:35-61 | the state built by main satisfies it |
| KernelRun.EveryPcbInOnePlaceAlways | phase2/exceptions.c:74-249 | in every state of every run, with guarded terminations and Scheduler on idle CPUs, the PCBs are partitioned and `process_count` is MAXPROC minus the length of the free list |
| KernelRun.TreeIsForestAlways | phase1/pcb.c:133-174 | in every run parents agree with child lists, siblings are listed once, live pids differ, pids grow downwards, nobody is its own ancestor |
| KernelRun.HaltMeansAllFree | phase2/scheduler.c:11-23 | HALT is reached only with every PCB free, no CPU busy and no semaphore active |
| Sections.StepIs | phase2/exceptions.c:74-249 | every admitted step, said of queues, CPUs, values and PCBs alone: who leaves a CPU and for which queue, who becomes ready, which saved state changes, and that nothing else does; of TERMPROCESS, as much as `Exactness.TerminatedByPid` says |
| KernelTerm.RemovedKeepsInv | phase2/exceptions.c:349-370 | removing any guarded set of processes, with its tree links, keeps the invariant |
| KernelTerm.RemovedTwice | phase2/exceptions.c:351-354 | terminating disjoint sets one after the other is terminating their union: order kept, counts and signals added up |
| KernelTerm.ReapIsRemoval | phase2/exceptions.c:356-369 | the end of `terminateSubtree` removes exactly the one process |
| KernelTerm.UnderUnique | phase1/pcb.c:133-156 | subtrees of different children are disjoint |
| KernelWalk.CutRooted | phase2/exceptions.c:351-353 | a child cut loose roots the same subtree as before, guarded or not as before |
| Exactness.ReapExactlyWhenGuarded | phase2/exceptions.c:356-369 | reaping one childless process keeps the invariant if and only if no old semaphore address sends it, ready or running elsewhere, down the wrong branch |
| Exactness.TerminationEnds | phase2/exceptions.c:349-370 | the recursion on any live process comes to an end, or to the loss of the invariant |
| Exactness.TerminationSoundExactlyWhenGuarded | phase2/exceptions.c:349-370 | all of its steps keep the invariant if and only if the whole subtree satisfies the guard; then exactly the subtree is removed, otherwise the last step reaps a member without guard |
| Reachable.GuardFailsInReach | phase2/exceptions.c:116-174 | a run from the initial state to a termination request whose subtree does not satisfy the guard and whose recursion loses the invariant |
| Exactness.FreedExactlyWhenEverQueued | phase2/exceptions.c:356-369 | of the terminated subtree exactly the processes that were ready or carry an address are freed |
| Exactness.CallerSurvivesExactlyWhenNeverBlocked | phase2/exceptions.c:102-113 | TERMPROCESS on the caller leaves it running, and not freed, if and only if it was never blocked |
| Exactness.FoundByPid | phase2/exceptions.c:325-338 | a live process that no CPU runs, with a pid other than 0, is what TERMPROCESS finds for its pid, and nothing else is, wherever it is queued |
| Exactness.TerminatedByPid | phase2/exceptions.c:317-347 | a guarded TERMPROCESS frees the process off the CPUs that has the pid, and of its tree exactly the processes off the CPUs or ever blocked; with no such process nothing changes |
| Reachable.SignalTooManyInReach | phase2/exceptions.c:356-359 | a run in which a woken process terminates itself and raises a semaphore nobody waits on: the value law fails, the queue law holds |
| Reachable.VWaiterTerminatedInReach | phase2/exceptions.c:146-162 | a run in which a process blocked in a V is terminated: the value is 3 and the queue empty, so the queue law fails while the value law holds |
| Reachable.DeathLosesProcessInReach | phase2/exceptions.c:294-299 | a run to a death after which Scheduler loses the process |
| Exactness.DispatchExactlyWhenIdle | phase2/scheduler.c:35-45 | Scheduler keeps the invariant if and only if its CPU runs nothing or nothing is ready |
| Exactness.DieExactlyWhenBlockedBefore | phase2/exceptions.c:294-299 | the die branch keeps the invariant throughout if and only if the caller's subtree satisfies the guard, and the caller was blocked before or every ready process is in its subtree |
| Exactness.BalancedExactlyWhenWaiting | phase2/exceptions.c:356-359 | terminating processes keeps value plus queue length of a semaphore if and only if each of them that carries its address is waiting in its queue |
| ReadyQueue.NoStarvation | phase2/scheduler.c:35-45 | a process at position k is dispatched or terminated before more than k other dispatches happen, and k is below MAXPROC |
| ReadyQueue.LeavesByDispatchOrDeath | phase1/pcb.c:81-105 | a process leaves the ready queue only onto a CPU or onto the free list |
| Resume.ResumesWhereItLeft | phase2/scheduler.c:35-45 | in every run, a process that a P, V, DOIO, CLOCKWAIT or timer interrupt took off its CPU and that is not terminated waits in that queue until a step on the same semaphore wakes it, first come first served or by the tick, and its next dispatch loads the state it left with, a0 replaced by the status if and only if an interrupt woke it |
| Resume.ResumesUnchanged | phase2/exceptions.c:120-134 | after a timer interrupt, a CLOCKWAIT or a P or V on a semaphore other than the kernel's, exactly the state saved is loaded |
| Resume.ResumesWithStatus | phase2/exceptions.c:200-215 | after a DOIO, exactly the state saved is loaded but for a0, which is the status of the interrupt that answered this call |
| Reachable.ResumptionInReach | phase2/exceptions.c:176-216 | a run from the initial state in which the first process calls DOIO, its interrupt answers, and it resumes with that status as result |
| Resume.ClockWaitEndsAtNextTick | phase2/interrupts.c:186-193 | in every run a process in CLOCKWAIT is queued until the next tick, right after which it is ready with the state of its call |
| Resume.CreatedStartsInGivenState | phase2/exceptions.c:78-95 | in every run the process made by CREATEPROCESS takes a free PCB, is last in the ready queue, and its first dispatch loads the state given to the call |
| Resume.FirstProcessStartsInGivenState | phase2/initial.c:51-61 | in every run from the initial state the first dispatch of the first process loads the state main gave it |
| Semaphores.BinarySemaphore | phase2/exceptions.c:116-174 | at every point of every run whose terminated processes carry the address only while blocked in a P: value = initial + Vs - Ps issued + waiters terminated, queue length max(-v, v-1, 0), all waiters of one kind, completed operations give the value clamped to {0,1} |
| Semaphores.TerminationHere | phase2/exceptions.c:356-359 | a termination takes the waiters in the target's subtree out of the queue, in order, and signals once for each member of the subtree that carries the address; value plus queue length grows by those that did not wait |
| Semaphores.WhatTerminationBreaks | phase2/exceptions.c:356-359 | after a termination the value law holds if and only if no terminated process carried the address without waiting, and then the queue law if and only if none waited in a V |
| Semaphores.BinarySemaphoreExactly | phase2/exceptions.c:116-174 | the whole law holds at every point of a run if and only if every terminated process carried the address only while blocked in a P |
| Semaphores.PHere | phase2/exceptions.c:116-144 | P lowers the value by one and joins the queue, pops its head or leaves it, by the old value alone |
| Semaphores.VHere | phase2/exceptions.c:146-174 | the same for V |
| Semaphores.StepElsewhere | phase2/exceptions.c:74-249 | a step that operates on another semaphore, or terminates processes that do not carry this one, changes neither value nor queue |
| Devices.IndexInRange | phase2/exceptions.c:375-384 | an address gets the index of a device semaphore if and only if it lies in the device registers, the pseudo-clock's exactly in the eight bytes above, and any other an index past the array |
| Devices.IndexOfCommand | phase2/exceptions.c:375-384 | the index of a command register is that of its (sub)device |
| Devices.IndexIsBijective | phase2/exceptions.c:375-384 | different (sub)devices have different semaphores and every device semaphore has its own |
| Devices.InterruptAgreesWithDoIO | phase2/interrupts.c:87-128 | the handler signals the semaphore on which DOIO blocked the callers of that (sub)device, with that sub-device's status |
| Devices.InterruptSignals | phase2/interrupts.c:98-138 | lines 3 to 6 always signal their device; on line 7 the transmitter is signalled if and only if its status byte is 2, 3, 4 or 5, the receiver if and only if its own is and the transmitter's is not, and nothing changes if and only if neither is; the first waiter becomes ready with the status |
| Devices.InterruptHere | phase2/interrupts.c:129-138 | an interrupt raises the value by one and makes the first waiter ready with the status as result |
| Devices.DevicesAreFifo | phase2/interrupts.c:87-138 | in every run, whatever is terminated, the calls answered followed by the calls waiting are in call order exactly the calls whose callers were not terminated while they waited, and the queue holds the callers of the waiting ones in that order |
| Devices.ValueCountsSignals | phase2/interrupts.c:129-132 | in every run value plus queue length counts the interrupts that found nobody and the signals terminations sent for processes that did not wait |
| Devices.KthInterruptServesKthCaller | phase2/exceptions.c:176-216 | the k-th interrupt with a waiter answers the k-th of those calls: its caller, the same process since the call, becomes ready with the status of that interrupt as its result |
| PcbC.OutProcQ | phase1/pcb.c:112-126 | removes exactly the given PCB and keeps the order of the others, or reports its absence |
| PcbC.AllocPcb | phase1/pcb.c:34-69 | takes the first free PCB, gives it a new pid and empty tree links; nothing when none is free |
| PcbC.FreePcb | phase1/pcb.c:27-27 | puts a PCB at the head of the free list; if it is still on the ready queue, ruins both |
| PcbC.InsertChild | phase1/pcb.c:133-136 | makes the PCB the first child of its parent, in both directions |
| PcbC.RemoveChild | phase1/pcb.c:141-151 | detaches the first child, in both directions |
| PcbC.OutChild | phase1/pcb.c:157-174 | detaches the PCB from wherever it is among its siblings, keeping their order |
| AslC.InsertBlocked | phase1/asl.c:37-68 | appends to the queue of the key, creating it if needed; TRUE, and nothing changed, exactly when no descriptor is left |
| AslC.RemoveBlocked | phase1/asl.c:78-96 | pops the head of the queue of the key; the key disappears exactly when its queue empties |
| AslC.OutBlocked | phase1/asl.c:138-161 | deletes one PCB from the queue of its key, which disappears exactly when it empties |
| AslC.GetProc | phase1/asl.c:98-113 | finds a blocked PCB with the pid, or none exists |
| AslC.OutBlockedPid | phase1/asl.c:115-136 | deletes a blocked PCB with the pid from its queue, or none exists |
| AslC.HeadBlocked | phase1/asl.c:163-171 | the head of the queue of the key, or nothing |
| InterruptsC.DescriptorsShared | phase1/asl.c:15-161 | active and free descriptors share out the table, and one is active for each semaphore with waiters |
| ExceptionsC.CreateProcess | phase2/exceptions.c:75-100 | replies -1 and changes nothing when no PCB is free; otherwise the first free PCB gets the state given, a pid above those of all processes, which is the reply, no semaphore address and no children, and is the last one ready and the first child of the caller |
| ExceptionsC.Passeren | phase2/exceptions.c:116-144 | lowers the value by one; from 0 or less the caller leaves its CPU for the end of the queue with its state saved, from 2 or more the first waiter becomes ready, from 1 nobody moves; keeps the invariant |
| ExceptionsC.Verhogen | phase2/exceptions.c:146-174 | raises the value by one; from 1 or more the caller leaves its CPU for the end of the queue with its state saved, from -1 or less the first waiter becomes ready, from 0 nobody moves; keeps the invariant |
| ExceptionsC.DoIo | phase2/exceptions.c:176-216 | replies -1 for a NULL address; otherwise lowers the value of the device, and the caller leaves its CPU for the end of its queue with its state saved |
| ExceptionsC.ClockWaitCall | phase2/exceptions.c:233-249 | the caller leaves its CPU for the end of the queue of the pseudo-clock with its state saved; the PANIC is unreachable |
| TerminateC.TerminateSubtree | phase2/exceptions.c:349-370 | terminates, frees exactly the subtree's queued or blocked members, lowers `process_count` by their number, keeps the order of all queues, raises each semaphore by the number of members carrying it, detaches the root if it frees it |
| TerminateC.ReapProcess | phase2/exceptions.c:355-370 | without any guard: performs the reap on the tables, except that a ready process with an old semaphore address leaves links that mean nothing |
| TerminateC.TermProc | phase2/exceptions.c:317-347 | pid 0 terminates the caller's tree, any other pid that of the process off the CPUs that has it, wherever it is queued, and nothing changes when there is none; of the tree exactly the processes off the CPUs or ever blocked are freed |
| InterruptsC.PltHandler | phase2/interrupts.c:59-68 | moves the running process to the end of the ready queue with its state saved |
| InterruptsC.UnblockClockPcbs | phase2/interrupts.c:186-193 | moves the whole pseudo-clock queue to the ready queue in its order; it is empty afterwards, and nothing else changes |
| InterruptsC.IntHandler | phase2/interrupts.c:87-148 | lines 3 to 6 signal their device; line 7 the transmitter if its status byte is 2 to 5, else the receiver if its is, else nothing changes; the first waiter of the signalled device becomes ready with that status in a0 |
| InterruptsC.Scheduler | phase2/scheduler.c:9-47 | dispatches the head of the ready queue, halts exactly with nothing ready and no process, waits otherwise; the tables stay sound exactly when the CPU runs nothing or nothing is ready |
| InterruptsC.Die | phase2/exceptions.c:294-299 | for a caller whose subtree satisfies the guard: TERMPROCESS(0) and then Scheduler, which leave the tables sound exactly when the caller was blocked before or every ready process is in its subtree |
| InterruptsC.HaltFreesEverything | phase2/scheduler.c:11-23 | at HALT all PCBs and all descriptors are linked on their free lists |
| InitialC.InitPcbs | phase1/pcb.c:18-24 | links all PCBs on the free list |
| InitialC.InitAsl | phase1/asl.c:15-24 | links all descriptors on their free list; no semaphore is active |
| InitialC.Boot | phase2/initial.c:35-61 | builds the initial state: one process, ready in the state given, without parent or children, all other PCBs free, no CPU busy, every device semaphore 0 |
| Mutex.MutualExclusion | phase3/initProc.c:95-123 | under every interleaving at most one process is inside, a process reaches its V only if it was granted the mutex, and that V never blocks |
| Mutex.ReleaseWorksIff | phase3/initProc.c:106-109 | a release reaches its V if and only if nobody cleared `holder_pid` since the owner wrote it; otherwise the mutex is stuck |
| Mutex.StuckForever | phase3/initProc.c:95-110 | from a stuck state, under every interleaving, nobody enters or leaves and every caller of getMutex waits |
| Mutex.LeakExample | phase3/initProc.c:106-109 | a run with two processes to a stuck state |
| PagerSystem.ClaimFindsPagerFree | phase3/vmSupport.c:37-39 | a process past getMutex always finds the pager free |
| PagerSystem.StepKeepsInv | phase3/vmSupport.c:37-73 | every step of pager, mutex and processes, interleaved, keeps: whoever is past getMutex holds the mutex, and the pager is busy exactly for its owner |
| PagerSystem.LoadReturnsLastStore | phase3/vmSupport.c:37-99 | in every run of the pager under its mutex a load returns the last store to its address, or the word loaded from flash |
| Pager.StepKeepsInv | phase3/vmSupport.c:37-75 | every step of the pager, the refill handler and the running processes keeps the paging invariant |
| Pager.StepRefinesFlat | phase3/vmSupport.c:37-99 | every step leaves every page of every process as it was, but for a store, which changes one word |
| Pager.LoadReturnsLastStore | phase3/vmSupport.c:37-99 | in every run a load returns the last store to its address, or the word loaded from flash |
| Pager.TablesInverse | phase3/vmSupport.c:39-71 | between uses of the pager a frame's entry names a page if and only if that page's entry holds the frame, and each TLB entry is unique and equals the page table entry |
| Pager.VictimIsOldest | phase3/vmSupport.c:110-128 | the frame chosen is the number of earlier page-ins mod 16 |
| Pager.EvictionIsFifo | phase3/vmSupport.c:95-128 | in every run the n-th page-in uses frame n mod 16 and evicts the page read in 16 page-ins earlier |
| Pager.RefillKeeps | phase2/exceptions.c:414-422 | a refill into any TLB slot keeps entries unique and equal to the page tables |
| VmSupport.PageIndexExact | phase3/vmSupport.c:20-30 | the index computed for a page number is j if and only if the number is entry j's, or it is 0x8001F and j the stack page's |
| VmSupport.RefillMatchesOnlyLayout | phase2/exceptions.c:398-422 | the entry loaded for a page number matches it if and only if it is not 0x8001F |
| VmSupport.EntryHiInjective | phase3/initProc.c:68-72 | tags of different pages differ |
| VmSupport.MappedEncodes | phase3/vmSupport.c:62-69 | the word built for a frame is a valid entry of that frame, and an invalid one after clearing |
| Words.OrBits | phase3/vmSupport.c:69-69 | the model's bitwise or has a bit exactly where one of its operands has |
| Words.AndNotBits | phase3/vmSupport.c:48-48 | the model's and-not has a bit exactly where the first operand has and the second has not |
| VmSupport.MappedWordIsBits | phase3/vmSupport.c:62-69 | the mapped word is the shift, cut and or of the code and fits 32 bits |
| VmSupport.ClearedIsBits | phase3/vmSupport.c:48-48 | clearing is the mask of the code, for every word |
| VmSupport.TagIsBits | phase3/initProc.c:69-70 | the tag is the shifts and or of the code, fits 32 bits, and shifted back gives the page number and its index |
| VmSupport.WordsAreBits | phase3/vmSupport.c:48-69 | on machine words the or of shifts is the mapped word, and the mask clears the bit |
| VmSupport.Memory.GetSwapFrame | phase3/vmSupport.c:121-128 | returns the first free frame, otherwise the hand, which moves on by one mod 16 |
| VmSupport.Memory.Unmap | phase3/vmSupport.c:45-48 | clears the valid bit of the victim's owner's entry and nothing else |
| VmSupport.Memory.UpdateTlbEntry | phase3/vmSupport.c:101-108 | makes the TLB entry of the page, if any, its page table entry, and leaves the others |
| VmSupport.Memory.Install | phase3/vmSupport.c:59-72 | records the page in the swap pool table, maps it and updates the TLB |
| VmSupport.Memory.PageFault | phase3/vmSupport.c:15-76 | traps exactly on a modification or an index out of range; otherwise maps the page into the frame whose turn it is and changes no page of any process |
| VmSupport.Memory.RefillHandler | phase2/exceptions.c:388-426 | for every page number: passes the process on exactly when the index is out of range, else loads that entry into the given slot, with the reference's tag exactly when it is not 0x8001F; on a miss of a page of the layout this is the refill step |
| VmSupport.Memory.constructor | phase3/initProc.c:22-72 | all frames free, all entries tagged with their page and invalid |
| Klog.Buffer.Print | klog.c:18-31 | the lines are those before and then the text up to the NUL, split at its line ends and wrapped after 42 characters, its first row continuing the current line; the buffer shows the last 64 lines, line k in row k mod 64 |
| Klog.Buffer.NextLine | klog.c:105-112 | the next row, cyclically, becomes blank with the cursor at its start; all other rows stay |
| Klog.Buffer.PrintDec | klog.c:37-65 | appends the text of `DecimalText`, within the 11 scratch cells |
| Klog.Buffer.PrintHex | klog.c:69-94 | appends the text of `HexText`, within the 8 scratch cells |
| Klog.WritingKeepsCharacters | klog.c:18-31 | wrapping loses, adds and reorders no character |
| Klog.LinesAreChunksOfSegments | klog.c:18-31 | the lines written are the segments of the text between its line ends, each cut after every 42 characters; the first one continues the current line |
| Klog.SegmentsAreTheSplit | klog.c:20-24 | the segments contain no line end and, joined by line ends, are the text |
| Klog.DecimalIsCanonicalExceptMinimum | klog.c:37-65 | the text is a canonical numeral that reads back as the argument if and only if the argument is not the least integer |
| Klog.HexIsCanonical | klog.c:69-94 | for every word the text is 0, or 0x and digits without leading zero that read back as the word |
| Klog.DigitsFit | klog.c:54-58 | a number below base^k has at most k digits |

## Left out

- Resume.ResumesWithStatus: no explicit P or V is made on the device's semaphore; `Resume.ResumesWhereItLeft` covers runs in which one is.
- Resume.ClockWaitEndsAtNextTick: no explicit P or V is made on the semaphore of the pseudo-clock before the tick.
- ExceptionsC.DoIo: requires the command address to be NULL or to have an index within `device_semaphores`; for any other address (`Devices.IndexInRange` says which) the code writes past the array.
- TerminateC.TermProc: requires the guard of `Exactness.TerminationSoundExactlyWhenGuarded` on the whole subtree; without it the recursion loses the invariant, and what the code does to the tables afterwards is not described.
- KernelRun.StepKeepsInv: TERMPROCESS on other subtrees, and Scheduler on a CPU that runs a process as in the die branch of `passUpordie`, are no steps of the machine; `Exactness` and `InterruptsC.Die` say what becomes of them.
- TerminateC.TerminateSubtree: raises the semaphore for V waiters, clock waiters and woken processes as the code does; what a balanced value would be for V and clock waiters is not claimed.
- Semaphores.BinarySemaphore: after a termination that breaks the law (`Semaphores.WhatTerminationBreaks`) nothing is claimed of the rest of the run.
- Devices.DevicesAreFifo: no explicit P or V is made on the device's semaphore.
- InterruptsC.Die: requires the guard on the caller's subtree; without it `termProc` has already lost the invariant.
- Pager.StepRefinesFlat: assumes successful flash transfers, pages of the layout, a single CPU (`updateTLB` touches the local TLB only) and that no process is terminated while it is in the pager.
- VmSupport.Memory.PageFault: runs with no other process between its sections; interleavings are the subject of `Pager`.
- Mutex.MutualExclusion: processes are not terminated from outside while they use the mutex; progress is not claimed, since it fails (`Mutex.StuckForever`).
- Klog.DecimalIsCanonicalExceptMinimum: negating the least integer is undefined in C; the model takes the wrap-around of the target.
- Pids, semaphore values, `process_count` and page-in counts are unbounded integers; 32-bit overflow of the counters is not modelled.
- PASSEREN and VERHOGEN on NULL: an address of a semaphore is not NULL, since a `p_semAdd` of NULL means none.
- A semaphore word that was never written reads as 0 in the state machine.
- Device registers, timers, priorities, WAIT, HALT, LDST and the start of the other CPUs are hardware effects; dispatching and waiting appear as state changes.
- The test-and-set loop of `ACQUIRE_LOCK` comes from a library; locked sections are atomic steps.
- The terminal register layout comes from the platform's headers, which are not part of this model; word 0 and 1 are taken as receiver status and command, 2 and 3 as transmitter status and command.
- `getdevNo`'s scan of the interrupt bitmap: the device number is a parameter of the handler.
- The state an event carries is the one the handler saves, with `pc_epc` already past the call; loading a state is what `Scheduler` returns.
- CPU time (`p_time`), GETTIME, GETSUPPORTPTR, GETPROCESSID, the pass-up context switch and `p_supportStruct`.
- The pass of control after a refill out of range, and the loads that follow an endless refill of 0x8001F.
- `phase3/sysSupport.c`: terminal and printer calls of the support level.
- Calls of the log inside kernel and pager, which do not touch the modelled state.
- `memcpy`, `list_prev`, `list_is_last` and the backward entry loops, which would only add easy members.
