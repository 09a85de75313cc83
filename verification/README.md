# Cortex-A-OS, verified

A Dafny model of the Cortex-A-OS kernel, a preemptive single-core ARMv7-A kernel with
`NUM_PROCESSES` address spaces of `THREADS_PER_PROC` threads each. Both numbers are
parameters of the model (`Config`), so every statement holds for every table size.

The pieces, from the scheduler outwards:

* **The kernel as a transition system** (`KernelSpec`). One step is one trap out of user
  mode (timer, receive interrupt, other interrupt, system call, fault) up to the next
  return to user mode. Interrupts stay masked in between, so a step is atomic. A context
  switch is a coroutine transfer: each thread carries the place where its kernel code will
  go on. `KernelInvariant` holds what every step keeps, `KernelSteps` the closed form of
  every step, `KernelProperties`, `KernelQueue` and `KernelRuns` what follows for single
  steps and for whole runs, `KernelCalls` what each trap means to the thread that takes it,
  `KernelFifo` when sleeping readers are served in order, and
  `KernelExamples` concrete runs that mark the edges.
* **The kernel's code** (`Kernel`, `WaitQueue`, `RxRing`): classes with the source's
  globals, whose methods and loops are proved to compute the transition system.
* **The word-level machine** (`SwitchMachine`, `SwitchProofs`, `Cpu`, `ThreadInit`):
  banked registers, one kernel stack per thread, trap frames, saved contexts, the fault
  stack, TTBR0 and a TLB; `Cpu` is the entry code and `context_switch` as in-place updates.
* **Address spaces** (`PageTable`, `AddressSpace`, `UserPointer`, `Isolation`): the table
  builders, the hardware's translation of every 32-bit address, and image loading;
  `Devices` has the kernel's own mappings; `Boot`
  puts the boot sequence together.
* **Everything together** (`WholeSystem`, `SystemRuns`, `Progress`, `Delivery`): over every
  run from boot the machine refines the transition system. A step of the transition system
  lists its events in order: context switches, stores into and prints from the caller's
  buffer, results stored for the caller. The kernel's code is proved to leave exactly this
  list in its trace, and the machine's runs perform exactly this list between entry and
  exit, with any C code in between. A thread that comes back to user mode then has its own
  registers, with its own call's result in r0.
* **Memory** (`Memory`, `MemoryRuns`, `MemoryProgress`): physical RAM and the console beside
  the machine. The memory of a process is its program image as changed by its own stores
  and its own finished calls, and by nothing else.
* **Text** (`Text`, `Writers`, `PsReading`): number formatting, the writers that truncate,
  and what a reader of the `ps` listing learns from it.

## Findings

* *Waking one reader per interrupt can leave a reader asleep on input.* The comment at
  kernel/include/scheduler.h:21-23 speaks of one wake-up per byte; the drivers drain a
  whole burst and then wake one reader. `KernelExamples.BurstCanLoseWakeup` is a run from
  boot with three threads in which a reader sleeps although a byte is waiting for it.
  `KernelRuns.NoLostWakeups` gives the exact condition, over all runs: this never happens
  if and only if each interrupt that wakes a reader leaves no more in the ring than that
  reader asked for, or leaves nobody else asleep.
* *DEAD is not quite permanent.* The last thread can exit, keep the CPU because nobody
  else can run, and then read from the empty ring, which overwrites DEAD with BLOCKED
  (`KernelExamples.LastThreadCanUndie`). `KernelProperties.DeadStaysDead` shows that this
  is the only way, and that such a read never returns to user mode.
* Thread 0 runs in state READY until it is first switched out, so the invariant is "at
  most one thread is RUNNING, and it is the current one", not "exactly one".
* *Readers are not always served in the order in which they called.* A reader woken by an
  interrupt that brought no byte goes back to sleep within the same step, at the end of the
  queue. This is the only case with two context switches (`KernelProperties.StepEnds`), and
  it contradicts the comment at kernel/sched/scheduler.c:51-52 that the thread that blocked
  first gets the first byte. `KernelExamples.FirstReaderCanStarve` gives runs from boot in
  which the first caller never gets a byte while the second gets any number of them.
  `KernelFifo.OrderOverRuns` gives the exact condition: the order of the sleepers is kept
  over a run if and only if no interrupt without input finds two or more of them. In such
  runs reads finish in call order (`ServedInOrder`), and a reader with n ahead of it is
  served by the (n+1)-th interrupt that brings input (`ServedWithin`).
* The pseudo-code for schedule and sys_read in docs/os-design.md differs from the source;
  the model follows the source.

## Model

| member | source | states |
|---|---|---|
| `SystemRuns.MachineRefinesKernel` | kernel/arch/arm/exception/exception_handlers.c:210-227 | over every run in which the machine performs the kernel's own events in their order, with any user code, C code and TLB traffic in between, it ends in the thread, trap modes and address space that the transition system says, and has used exactly one fault frame per user fault |
| `SystemRuns.ComesBackWithOwnResult` | kernel/syscall/syscall.c:280-292 | however long a thread was away and whatever others did, back in user mode r1-r12, pc, cpsr, sp and lr are as it left them and its kernel stack is empty; r0 is unchanged after an interrupt, and after a call it is the result of that very call, answered exactly once, as a 32-bit number (a negative result v reads 2^32 + v) |
| `SystemRuns.CallComesBack` | kernel/syscall/syscall.c:280-292 | end to end: the call whose number was in r7 and whose arguments were in r0-r2 puts into r0 the answer to exactly these registers; a read stored between 1 and r2 bytes at the address in r1 |
| `SystemRuns.PreemptedComesBack` | kernel/arch/arm/exception/exception_handlers.c:220-227 | a preempted thread finds every register as it was |
| `WholeSystem.AsWordIsLow32` | kernel/syscall/syscall.c:289-291 | the stored word is the result modulo 2^32: itself if not negative, 2^32 plus it if negative |
| `SystemRuns.BootRelated` | kernel/proc/thread.c:114-143 | boot and first entry establish the agreement of kernel and machine, with every thread's first user context as promised |
| `Boot.Kmain` | kernel/main.c:92-126 | the boot sequence, from what start.S hands over, establishes every assumption of the statements about runs from boot: tables built, images loaded, frames in place, and the first switch taken |
| `Boot.InitTables` | kernel/main.c:92-105 | process tables, then thread tables, then the identity map dropped, each leaving the others intact |
| `SystemRuns.FaultStackNeverOverrun` | kernel/arch/arm/exception/exception_entry.S:36-71 | in every state a run from boot can reach, one more fault, the one that halts the kernel included, leaves at most 60 bytes per process on the fault stack, hence at most 1 KB for up to 17 processes, although no fault pops its frame |
| `Progress.EveryTrapRuns` | kernel/arch/arm/exception/exception_handlers.c:210-227 | for every trap that the transition system brings back to user mode the machine has a run that carries it out |
| `Progress.BootRuns` | kernel/arch/arm/exception/exception_entry.S:124-126 | from the state thread_init_all leaves the machine has a run that drains the initial frame into user mode |
| `WholeSystem.RunRefines` | kernel/arch/arm/proc/context_switch.S:45-133 | what a machine run does to the threads' contexts depends only on its traps, switches, results and exits, not on C code and TLB refills in between |
| `WholeSystem.SkeletonIsStep` | kernel/sched/scheduler.c:162-211 | the events that the kernel code leaves in its trace, performed by the machine between entry and exit, lead to the thread the step chose, with each finished call's result in its own caller's r0 |
| `WholeSystem.SkeletonForm` | kernel/syscall/syscall.c:280-292 | the order of a trap's operations: the switch to a woken reader, then the stored result, then the switch of the final reschedule |
| `Delivery.ReadsStayInWindow` | kernel/syscall/syscall.c:122-148 | over every run no finished read or ps has stored outside the user window, although a read's pointer was checked when the call was made and used when input arrived |
| `Delivery.StoredInCallersSlot` | kernel/syscall/syscall.c:136-145 | when a read is answered the caller's own address space is live, and every byte lands in the caller's own physical slot at the offset it asked for |
| `MemoryRuns.MemoryIsPrivate` | kernel/arch/arm/mm/pgtable.c:95-125 | over every run the physical slot of a process holds exactly what its own user stores and its own finished calls made of it, byte for byte, whatever other processes store, call or switch in between |
| `MemoryRuns.MemoryFromBoot` | kernel/proc/process.c:105-143 | the same from boot, starting from the process's own program image followed by zeros |
| `MemoryRuns.WorldRefinesIdeal` | kernel/syscall/syscall.c:59-73 | RAM and console together behave like one private memory per process and a console that received the buffers of accepted writes as their own callers had filled them |
| `MemoryRuns.FeedsFollowReturns` | kernel/drivers/uart/uart_core.c:57-62 | every line feed on the console has a carriage return in front of it |
| `MemoryRuns.TextGoesOut` | kernel/drivers/uart/uart_core.c:57-62 | apart from carriage returns the console receives the caller's bytes as they are |
| `MemoryRuns.WriteSendsBuffer` | kernel/syscall/syscall.c:59-73 | an accepted write sends out exactly the caller's buffer, with a carriage return in front of each line feed |
| `MemoryRuns.FinishedCallInMemory` | kernel/syscall/syscall.c:136-145 | the bytes of a finished read or ps are in the caller's own memory at the address of its buffer when the step is over |
| `MemoryRuns.FillStores` | kernel/syscall/syscall.c:144-144 | a filled buffer holds its bytes from its address on and nothing else changes |
| `MemoryRuns.PutStores` | kernel/arch/arm/mm/pgtable.c:117-120 | a user store puts its byte at its own offset of the window and changes no other byte |
| `MemoryRuns.RetiredMemoryFrozen` | kernel/arch/arm/exception/exception_handlers.c:107-138 | the physical slot of a process that is DEAD and off the CPU is never written again |
| `MemoryRuns.KernelMemoryUntouched` | kernel/arch/arm/mm/pgtable.c:95-125 | over every run no user store and no system call changes RAM outside the slots, where the kernel's image, tables and stacks lie |
| `MemoryRuns.KernelIsTame` | kernel/syscall/syscall.c:40-49 | in every reachable state, whatever trap is taken, the kernel touches user memory only inside the window |
| `MemoryProgress.EveryRoundRuns` | kernel/arch/arm/exception/exception_handlers.c:210-227 | after any user stores, every trap that returns can be carried out by processor and memory |
| `Memory.ActsRefine` | kernel/arch/arm/mm/pgtable.c:95-125 | any run of processor and memory does to the slots and the console what its stores and prints do to private memories, C code and TLB refills aside |
| `Memory.ActRefines` | kernel/drivers/uart/uart_core.c:57-62 | one store or print through the live MMU reaches the current process's slot, or nothing if user code strays outside the window |
| `Memory.ActKeepsOutside` | kernel/arch/arm/mm/pgtable.c:95-125 | one act leaves all RAM outside the slots alone |
| `Memory.StoreInSlot` | kernel/proc/process.c:118-141 | a byte stored in one slot changes no other slot |
| `KernelRuns.BoundaryInvariant` | kernel/sched/scheduler.c:162-211 | at every return to user mode of every run from boot: flag and hint clear, the current thread runnable or nobody is, at most the current thread RUNNING, all sleepers queued, only sleepers and corpses queued, no duplicates, the queue not full |
| `KernelRuns.RunKeepsInv` | kernel/sched/scheduler.c:79-211 | the full invariant is kept over every run |
| `KernelInvariant.BootInv` | kernel/proc/thread.c:114-143 | the state after thread_init_all satisfies it |
| `KernelInvariant.SweepNearest` | kernel/sched/scheduler.c:195-208 | the ring walk finds the nearest runnable thread after prev, and finds one whenever there is one |
| `KernelSpec.RingNextIsMod` | kernel/sched/scheduler.c:195-198 | the ring position is the source's (start + i) % NUM_THREADS |
| `Tasks.PidIsQuotient` | kernel/proc/thread.c:104-119 | pid and index of a thread are quotient and remainder by THREADS_PER_PROC |
| `Tasks.FirstIsProduct` | kernel/include/platform.h:42-44 | the table has NUM_PROCESSES * THREADS_PER_PROC threads |
| `KernelInvariant.SwitchEffect` | kernel/sched/scheduler.c:162-174 | handing the CPU to a runnable thread keeps the invariant: only a RUNNING thread is demoted, no DEAD or BLOCKED one is resurrected |
| `KernelInvariant.ScheduleEffect` | kernel/sched/scheduler.c:176-211 | schedule() switches exactly when another thread can run, prefers the woken reader, otherwise takes the nearest thread, and keeps the invariant |
| `KernelInvariant.RunningTestNeverFires` | kernel/sched/scheduler.c:203-204 | the walk with and without the RUNNING test on candidates is the same |
| `KernelInvariant.BlockQueues` | kernel/sched/scheduler.c:79-91 | by pigeonhole the "queue full" branch is never taken: a blocking thread is always appended |
| `KernelInvariant.WakeEffect` | kernel/sched/scheduler.c:130-160 | the wake-up drops exactly the corpses in front and wakes exactly the first live waiter, if there is one |
| `KernelInvariant.WakeSwitch` | kernel/sched/scheduler.c:184-193 | a woken reader is the next thread on the CPU, ahead of the round robin |
| `KernelInvariant.RxWakes` | kernel/drivers/uart/pl011.c:68-80 | a receive interrupt with a live waiter hands the CPU to that waiter inside its read, in the same step |
| `KernelInvariant.RxIdle` | kernel/drivers/uart/ns16550.c:78-88 | a receive interrupt without a live waiter only fills the ring and clears the queue of corpses |
| `KernelInvariant.ReadBlocks` | kernel/syscall/syscall.c:136-142 | a read on the empty ring queues its caller and gives the CPU away, or spins if nobody else can run |
| `KernelInvariant.ReadGets` | kernel/syscall/syscall.c:136-147 | a read that finds input returns to user mode at once and keeps the invariant |
| `KernelInvariant.KillKeepsBase` | kernel/syscall/syscall.c:243-250 | killing a process keeps the queue invariant although its sleepers stay queued |
| `KernelSteps.StepTwoPhase` | kernel/arch/arm/exception/exception_handlers.c:107-227 | every step is the handler's own effect followed by at most one ring walk: closed form of state, outcome, finished calls and the order of switches, buffer accesses and stored results |
| `KernelProperties.StepEnds` | kernel/sched/scheduler.c:106-128 | at most two switches per trap, and two exactly when an interrupt without input wakes a reader while the interrupted thread can go on; the kernel halts exactly on a fault that leaves nobody to run, and spins exactly when a reader finds no input and nobody else can run |
| `KernelProperties.SpinIsFixedPoint` | kernel/syscall/syscall.c:136-145 | any number of further turns of a spinning reader leaves the whole kernel state unchanged, with the reader queued once |
| `KernelProperties.DeadStaysDead` | kernel/sched/scheduler.c:106-128 | a DEAD thread stays DEAD if and only if it is not the current thread reading from the empty ring, and that read never returns |
| `KernelProperties.DeadNeverDispatched` | kernel/sched/scheduler.c:162-211 | a DEAD thread off the CPU never gets it |
| `KernelProperties.DiesExactlyWhenFatal` | kernel/syscall/syscall.c:101-111 | a live thread dies exactly of its own exit, or of a kill or fault of its own process |
| `KernelProperties.FaultRetires` | kernel/arch/arm/exception/exception_handlers.c:107-138 | a user fault kills the whole process and the step returns to another one |
| `KernelProperties.BadBufferRejected` | kernel/syscall/syscall.c:59-73 | write, read and ps answer E_FAULT and change nothing exactly when the buffer does not lie in the user window, except that a read of length 0 is answered with 0 whatever its pointer |
| `KernelProperties.WakeupKeptIffBurstFits` | kernel/drivers/uart/pl011.c:68-80 | a step keeps "nobody sleeps while there is input" exactly when its burst fits the woken reader or nobody else sleeps |
| `KernelRuns.NoLostWakeups` | kernel/sched/scheduler.c:130-193 | over every run from boot nobody ever sleeps at a return to user mode while there is input, if and only if every burst fits |
| `KernelExamples.BurstCanLoseWakeup` | kernel/drivers/uart/ns16550.c:78-88 | a run from boot in which a two-byte burst leaves a reader asleep with a byte in the ring |
| `KernelExamples.LastThreadCanUndie` | kernel/syscall/syscall.c:101-111 | a run from boot in which a DEAD thread becomes BLOCKED, in a step that never returns |
| `KernelRuns.DeadForever` | kernel/syscall/syscall.c:220-254 | DEAD is permanent over every run that returns to user mode |
| `KernelQueue.LiveIsIdeal` | kernel/sched/scheduler.c:79-160 | seen through its live entries the queue behaves like one from which killed waiters vanish at once |
| `KernelQueue.HeadIsServed` | kernel/sched/scheduler.c:130-160 | an interrupt with input serves exactly the head of the live queue: that thread ends the step on the CPU with its own read finished |
| `KernelRuns.QueueIsIdeal` | kernel/sched/scheduler.c:79-160 | over every run, kills included, the live waiters are the ideal queue, in which only an interrupt without input moves anybody back |
| `KernelFifo.OrderKeptIff` | kernel/sched/scheduler.c:46-56 | a step keeps the order of the sleeping readers if and only if it is not an interrupt without input that finds at least two of them |
| `KernelFifo.OrderOverRuns` | kernel/sched/scheduler.c:46-56 | over every run no later sleeper gets ahead of an earlier one, if and only if there is no such interrupt |
| `KernelFifo.ServedInOrder` | kernel/sched/scheduler.c:46-56 | over every run without such interrupts, of two sleeping reads the later call is never answered before the earlier, unless the earlier caller dies |
| `KernelFifo.ServedWithin` | kernel/sched/scheduler.c:130-160 | over every run without such interrupts, a reader with n sleepers ahead of it is answered by the (n+1)-th interrupt that brings input, unless it dies |
| `KernelFifo.LeavesServedOrDead` | kernel/sched/scheduler.c:130-160 | a sleeper stops sleeping only as the head whose read finishes, or by dying |
| `KernelExamples.FirstReaderCanStarve` | kernel/syscall/syscall.c:136-145 | runs from boot in which the reader that called first gets nothing while the second gets n bytes, for every n |
| `KernelRuns.BytesConserved` | kernel/syscall/syscall.c:122-148 | over every run the bytes of finished reads in order, followed by the ring, are the accepted input: nothing lost, duplicated or reordered |
| `KernelRuns.ReadIsContiguous` | kernel/syscall/syscall.c:136-147 | each read got one contiguous piece of the input, starting where the reads before it stopped, whichever threads they belonged to |
| `KernelRuns.EveryCallAnsweredOnce` | kernel/syscall/syscall.c:280-292 | per thread, calls issued equal calls answered plus the read still pending |
| `KernelRuns.TicksCountTimers` | kernel/drivers/timer/timer_core.c:39-44 | over every run the counter that sys_ticks reports advances once per timer interrupt |
| `KernelRuns.AdvanceWraps` | kernel/drivers/timer/timer_core.c:39-44 | advancing n times adds n, wrapped at 2^32 |
| `KernelRuns.FaultsBounded` | kernel/arch/arm/exception/exception_handlers.c:107-138 | user faults plus processes already retired never exceed the number of processes |
| `KernelRuns.AbortStackBounded` | kernel/linker/kernel_qemu.ld:118-124 | hence at most 60 bytes of fault frames per process over every run from boot |
| `KernelRuns.RoomForAFault` | kernel/arch/arm/exception/exception_handlers.c:107-138 | while a run still returns to user mode, fewer faults than processes have happened |
| `KernelRuns.CountersMean` | kernel/arch/arm/exception/exception_handlers.c:107-138 | the counters of a run: its faults are its fault traps, and its wake-ups at most its receive interrupts |
| `KernelRuns.StepApproaches` | kernel/sched/scheduler.c:195-208 | each ring walk brings the CPU closer to a waiting thread; only a wake-up can move it away, by less than a turn |
| `KernelRuns.WalksBounded` | kernel/sched/scheduler.c:184-208 | the same over runs: walks so far are fewer than the ring distance plus N-1 for each wake-up |
| `KernelRuns.BoundedWaiting` | kernel/sched/scheduler.c:184-208 | while a runnable thread still waits, fewer than (w+1)(N-1) ring walks have happened in a run with w wake-ups |
| `KernelCalls.TimerPreempts` | kernel/drivers/timer/timer_core.c:39-44 | a timer interrupt counts one tick, does one ring walk and hands the CPU to the nearest runnable thread after the current one, if there is another |
| `KernelCalls.PreemptionReachesAll` | kernel/sched/scheduler.c:34-37 | a thread that stays runnable is dispatched within (w+1)(N-1) timer interrupts in a run with w wake-ups, within N-1 without any |
| `KernelCalls.TimersAreWalks` | kernel/sched/scheduler.c:34-37 | every timer interrupt of a run is one of its ring walks |
| `KernelCalls.OtherIrqIgnored` | kernel/arch/arm/exception/exception_handlers.c:220-227 | any other interrupt changes nothing |
| `KernelCalls.CallAnswers` | kernel/syscall/syscall.c:57-111 | the answer of every call that does not sleep, by its number, and exactly which calls reschedule: yield, exit and the kill of a live process; all others leave the kernel as it was |
| `KernelCalls.YieldHandsOver` | kernel/syscall/syscall.c:84-91 | a yield hands the CPU to the nearest runnable thread |
| `KernelCalls.ReadRemembered` | kernel/syscall/syscall.c:133-144 | a reader that goes to sleep keeps the very buffer and length of its call |
| `KernelCalls.SleeperKeepsRequest` | kernel/syscall/syscall.c:133-144 | no step changes the buffer or length of a read that goes on sleeping |
| `KernelCalls.ReadsAnswerTheirCalls` | kernel/syscall/syscall.c:122-148 | over every run from boot each finished read answers its caller's own last read trap: 0 for length 0, -2 for a bad buffer, otherwise between 1 and a2 bytes at a1, counted |
| `Kernel.Kernel.constructor` | kernel/proc/thread.c:114-143 | the tables start as the transition system's boot state |
| `Kernel.Kernel.RequestResched` | kernel/sched/scheduler.c:34-44 | raises the flag and changes nothing else |
| `Kernel.Kernel.TimerTick` | kernel/drivers/timer/timer_core.c:39-44 | counts the tick and raises the flag |
| `Kernel.Kernel.PerformSwitch` | kernel/sched/scheduler.c:162-174 | new thread states and current thread of a switch, and the call of context_switch in the trace |
| `Kernel.Kernel.FindNext` | kernel/sched/scheduler.c:195-208 | the loop over the ring computes the walk |
| `Kernel.Kernel.Schedule` | kernel/sched/scheduler.c:176-211 | the code computes the transition system's schedule |
| `Kernel.Kernel.BlockOnInput` | kernel/sched/scheduler.c:106-128 | blocking: state, queue, flag and the switch that follows |
| `Kernel.Kernel.WakeReader` | kernel/sched/scheduler.c:130-160 | the popping loop computes the wake-up |
| `Kernel.Kernel.KillThreads` | kernel/syscall/syscall.c:247-250 | the loop over a process's thread slots makes exactly its threads DEAD |
| `Kernel.Kernel.AnyAlive` | kernel/syscall/syscall.c:228-234 | the counting loop decides whether the process has a live thread |
| `Kernel.Kernel.SysKill` | kernel/syscall/syscall.c:220-254 | result and effect of kill: out of range, already gone, retired |
| `Kernel.Kernel.SysExit` | kernel/syscall/syscall.c:101-111 | result and effect of exit |
| `Kernel.Kernel.SysWrite` | kernel/syscall/syscall.c:59-73 | the loop prints exactly the accepted buffer, byte by byte in order, and returns its length |
| `Kernel.Kernel.SysPs` | kernel/syscall/syscall.c:159-211 | stores exactly the clipped listing of the current thread table into the accepted buffer and returns its length |
| `Kernel.Kernel.ListTable` | kernel/syscall/syscall.c:174-208 | the listing of the current thread table, cut off at the buffer |
| `Kernel.Kernel.TableRows` | kernel/syscall/syscall.c:174-178 | one row per thread: owner's name, index and state |
| `Kernel.Kernel.Dispatch` | kernel/syscall/syscall.c:280-292 | the result goes to the saved r0 after the handler's buffer accesses and before any switch |
| `Kernel.Kernel.CopyInput` | kernel/syscall/syscall.c:136-147 | the copy loop takes exactly the first min(len, available) bytes off the ring and stores them at consecutive addresses |
| `Kernel.Kernel.SysRead` | kernel/syscall/syscall.c:122-148 | the blocking read, across its switches, computes the transition system's read and its events in order |
| `Kernel.Kernel.Sleep` | kernel/syscall/syscall.c:138-142 | blocking on the empty ring, up to the next return to user mode of whoever runs |
| `Kernel.Kernel.AnswerRead` | kernel/syscall/syscall.c:289-291 | a finished read's result is stored without a further switch |
| `Kernel.Kernel.Resume` | kernel/sched/scheduler.c:114-128 | a thread switched back in goes on where its kernel code left off |
| `Kernel.Kernel.Tail` | kernel/arch/arm/exception/exception_handlers.c:210-227 | the schedule() at the end of a handler, on to whoever returns to user mode |
| `Kernel.Kernel.RxIrq` | kernel/drivers/uart/pl011.c:68-80 | drain, then wake one reader |
| `Kernel.Kernel.UserFaultKill` | kernel/arch/arm/exception/exception_handlers.c:107-138 | the fault path: retire the process, switch away or halt |
| `Kernel.Kernel.Condemn` | kernel/arch/arm/exception/exception_handlers.c:109-132 | the whole process of the faulting thread becomes DEAD and a reschedule is requested |
| `Kernel.Kernel.LeaveForGood` | kernel/arch/arm/exception/exception_handlers.c:132-138 | the faulting thread switches away, or the kernel halts if nobody else can run |
| `Kernel.Kernel.QuickCall` | kernel/syscall/syscall.c:59-111 | results, effects and buffer accesses of the calls that return at once, unknown numbers included |
| `Kernel.Kernel.HandleTrap` | kernel/arch/arm/exception/exception_handlers.c:210-227 | one whole trap computes one step of the transition system, and the trace of context switches, buffer accesses and stored results that the code leaves is the step's event list, in order |
| `WaitQueue.Queue.Push` | kernel/sched/scheduler.c:79-91 | appends to the plain sequence of waiters unless already there or full, across all wraps of the head |
| `WaitQueue.Queue.Pop` | kernel/sched/scheduler.c:94-104 | removes the oldest waiter, or reports that there is none |
| `RxRing.Ring.TestsAgree` | kernel/drivers/uart/uart_core.c:31-49 | the masked full test and the unmasked empty test agree with the length for all index values, wrapped or not |
| `RxRing.Ring.Push` | kernel/drivers/uart/uart_core.c:31-38 | appends to a FIFO of capacity 127 and drops the byte only when full |
| `RxRing.Ring.IsEmpty` | kernel/drivers/uart/uart_core.c:40-40 | true exactly when the FIFO is empty |
| `RxRing.Ring.Pop` | kernel/drivers/uart/uart_core.c:42-49 | takes the oldest byte, or reports that there is none |
| `RxRing.DrainKeepsPrefix` | kernel/drivers/uart/pl011.c:68-80 | draining a burst keeps its longest prefix that fits |
| `RxRing.DrainTakes127` | kernel/drivers/uart/uart_core.c:24-38 | after a burst the ring holds the first 127 bytes of old content and burst |
| `SwitchProofs.SwitchKeepsContexts` | kernel/arch/arm/proc/context_switch.S:45-133 | a context switch preserves every thread's r4-r11, lr, SP_svc, SP_usr, LR_usr and stack contents, the leaving and the coming thread included |
| `SwitchProofs.SwitchKeepsUsers` | kernel/arch/arm/proc/context_switch.S:45-133 | a context switch preserves every thread's user context |
| `SwitchProofs.OpKeepsUsers` | kernel/arch/arm/exception/exception_entry.S:36-126 | every operation keeps all kernel stacks in order and changes at most the current thread's user context, as its own code, result or fault demands |
| `SwitchProofs.BystanderContextKept` | kernel/arch/arm/proc/context_switch.S:54-65 | nothing the running thread does touches another thread's saved kernel context |
| `SwitchProofs.ContextSurvives` | kernel/arch/arm/proc/context_switch.S:45-133 | the same over any run in which other threads trap, work, switch and return |
| `SwitchProofs.UserContextIsPrivate` | kernel/arch/arm/exception/exception_entry.S:79-106 | over every run a thread's user context is what its own user code, results and faults made of it |
| `SwitchProofs.EnterKeepsUser` | kernel/arch/arm/exception/exception_entry.S:79-103 | the frame pushed on entry holds the interrupted user context |
| `SwitchProofs.FrameLayout` | kernel/arch/arm/exception/exception_entry.S:13-17 | every word of the SVC, IRQ and fault frames, and which stack they go to |
| `SwitchProofs.SaveLayout` | kernel/arch/arm/proc/context_switch.S:54-65 | every word the save side pushes and stores |
| `SwitchProofs.LeaveKeepsUser` | kernel/arch/arm/exception/exception_entry.S:86-106 | the exit restores it and leaves SP_svc at the top of the thread's own stack |
| `SwitchProofs.ResultSetsR0` | kernel/syscall/syscall.c:289-291 | storing the result changes r0 of the caller's user context and nothing else |
| `SwitchProofs.OpKeepsMmu` | kernel/arch/arm/proc/context_switch.S:67-108 | every operation keeps TTBR0 and the TLB right for the current process, with or without the skip |
| `SwitchProofs.MmuAlwaysRight` | kernel/arch/arm/proc/context_switch.S:67-108 | over every run TTBR0 is the current process's table with the walk attributes and every TLB entry agrees with that table |
| `SwitchProofs.SkipRefinesAlways` | kernel/arch/arm/proc/context_switch.S:67-108 | skipping the MMU work between siblings and always doing it go through the same states except for the TLB, and every access sees the same entry |
| `SwitchProofs.AlwaysUsr` | kernel/arch/arm/exception/exception_handlers.c:102-105 | over every run each return to user mode restores a USR-mode CPSR, and each frame on the fault stack passes the fault_from_user test, so no user fault takes the panic branch |
| `SwitchMachine.ModeBits` | kernel/arch/arm/exception/exception_handlers.c:102-105 | masking the low five bits is the remainder by 32 |
| `Isolation.UserModeFromBoot` | kernel/arch/arm/exception/exception_handlers.c:102-105 | the same in every run from boot |
| `SwitchMachine.OrIsAdd` | kernel/arch/arm/proc/context_switch.S:98-101 | on an aligned table address OR-ing the walk attributes is adding them, and masking recovers the address |
| `Cpu.Cpu.SvcEntry` | kernel/arch/arm/exception/exception_entry.S:79-84 | the pushes of SVC entry build the frame |
| `Cpu.Cpu.IrqEntry` | kernel/arch/arm/exception/exception_entry.S:100-104 | the pushes of IRQ entry build the frame |
| `Cpu.Cpu.FaultEntry` | kernel/arch/arm/exception/exception_entry.S:36-71 | the pushes of fault entry go to the fault stack and leave the kernel stack alone |
| `Cpu.Cpu.SvcExit` | kernel/arch/arm/exception/exception_entry.S:86-88 | the pops of SVC exit |
| `Cpu.Cpu.IrqExit` | kernel/arch/arm/exception/exception_entry.S:105-126 | the pops of IRQ exit and of first entry |
| `Cpu.Cpu.SaveContext` | kernel/arch/arm/proc/context_switch.S:54-65 | pushes and stores of the save side |
| `Cpu.Cpu.LoadContext` | kernel/arch/arm/proc/context_switch.S:110-133 | loads and pops of the load side |
| `Cpu.Cpu.ContextSwitch` | kernel/arch/arm/proc/context_switch.S:54-133 | save side, same-process test, MMU path and load side compute the machine's switch |
| `Cpu.Cpu.FirstSwitch` | kernel/arch/arm/proc/context_switch.S:49-52 | with prev == NULL: nothing saved, MMU work unconditional, load side; computes the first run |
| `Cpu.Cpu.SwitchTable` | kernel/arch/arm/proc/context_switch.S:97-103 | TTBR0 and TLB of the cross-process path |
| `ThreadInit.BuildInitialFrame` | kernel/proc/thread.c:77-102 | writes exactly the 25-word initial frame at the top of the thread's stack |
| `ThreadInit.ThreadInitAll` | kernel/proc/thread.c:114-143 | every thread gets its own frame and saved registers; building one disturbs no other |
| `ThreadInit.FirstRunStarts` | kernel/arch/arm/exception/exception_entry.S:124-126 | the first switch establishes the machine invariant, with the 16-word exit frame left and every thread's user context the promised one |
| `ThreadInit.StackSlicesDisjoint` | kernel/proc/thread.c:130-133 | user stacks of siblings are disjoint slices of the window |
| `Isolation.FirstEntryDelivered` | kernel/arch/arm/exception/exception_entry.S:113-126 | whenever a thread first reaches user mode, r0 is tid % THREADS_PER_PROC and r1-r12 are 0, pc is its process's entry, cpsr is 0x10, sp is 64 KB times its index below the top of the window, and its kernel stack is empty |
| `Isolation.RunningThreadIsConfined` | kernel/arch/arm/mm/pgtable.c:95-125 | in every run from boot, for every 32-bit address, the running thread's user accesses reach exactly its own process's slot through the window and fault elsewhere |
| `Isolation.KernelStoresForCaller` | kernel/syscall/syscall.c:136-145 | a kernel store through a checked pointer goes to the current process's slot |
| `UserPointer.ValidUserPtrIsContainment` | kernel/syscall/syscall.c:40-49 | with wrapping addition the check accepts exactly the ranges inside the window |
| `AddressSpace.UserReachesOwnSlot` | kernel/arch/arm/mm/pgtable.c:95-125 | for every 32-bit address a user access succeeds exactly in the window and lands at the same offset of the process's slot |
| `AddressSpace.SlotsDisjoint` | kernel/proc/process.c:118-141 | slots of distinct processes are disjoint, in RAM, and above the kernel |
| `AddressSpace.NoSharedByte` | kernel/proc/process.c:118-141 | no two addresses give two processes a common physical byte |
| `AddressSpace.CheckedPointerIsOwn` | kernel/syscall/syscall.c:40-49 | every byte of an accepted range translates into the caller's own slot |
| `AddressSpace.KernelHalfAgrees` | kernel/arch/arm/mm/pgtable.c:104-115 | outside the user section all tables translate alike; the NULL section and the identity range fault |
| `AddressSpace.KernelAlias` | kernel/arch/arm/mm/pgtable.c:55-80 | the kernel's high alias translates the same in the boot table and every process table, for the kernel only |
| `Devices.DevicesReachable` | kernel/arch/arm/mm/pgtable.c:71-76 | every byte of a peripheral window is read and written by the kernel at its physical address and never by user code, in the boot table before and after the identity map is dropped and in every process table |
| `Devices.RamIdentity` | kernel/arch/arm/mm/pgtable.c:61-64 | RAM is reached by the kernel at its physical addresses in the boot table, and by nobody once the identity map is dropped |
| `Devices.DevicesNotExecutable` | kernel/include/mmu.h:42-48 | peripheral sections are execute-never, the kernel alias is executable |
| `Devices.BoardDevices` | kernel/platform/qemu/periph_map.c:21-25 | console, tick timer and interrupt controller of both boards answer at their addresses |
| `AddressSpace.SlotPlacement` | kernel/platform/qemu/board.h:19-45 | the slots lie 2 MB above the start of RAM and 1 MB apart, behind the place where the kernel is loaded on either board |
| `AddressSpace.DropOrderIrrelevant` | kernel/arch/arm/mm/mmu.c:95-101 | a process table is the same whether mmu_drop_identity ran before or after it was built |
| `AddressSpace.Kmemset` | kernel/proc/process.c:70-75 | fills exactly the range |
| `AddressSpace.Kmemcpy` | kernel/proc/process.c:62-68 | copies exactly the range |
| `AddressSpace.ProcessInitAll` | kernel/proc/process.c:105-143 | every process gets its control block, its image followed by zeros in its own slot, and its own translation table; RAM below the slots is untouched |
| `AddressSpace.LoadImage` | kernel/proc/process.c:134-136 | filling one slot disturbs no other |
| `AddressSpace.UserSeesOwnImage` | kernel/proc/process.c:125-141 | what user code reads at its window is its own program |
| `PageTable.PgtableMapRange` | kernel/arch/arm/mm/pgtable.c:39-53 | the loop writes exactly the sections of the range |
| `PageTable.SectionIsOr` | kernel/arch/arm/mm/pgtable.c:39-43 | OR-ing attributes below bit 20 to a section base is adding them |
| `PageTable.MmuBuildBootPgd` | kernel/arch/arm/mm/pgtable.c:55-80 | the boot table from identity map, high alias and peripherals |
| `PageTable.PgtableBuildForProc` | kernel/arch/arm/mm/pgtable.c:95-125 | each entry of a process table: user section, mirrored entry, or fault |
| `PageTable.MmuDropIdentity` | kernel/arch/arm/mm/mmu.c:95-101 | clears exactly the identity range |
| `PageTable.Decode` | kernel/include/mmu.h:28-50 | type, domain and permission fields of a section descriptor come from its attribute word alone, the base from the address |
| `PageTable.AttributeWords` | kernel/include/mmu.h:36-48 | the three attribute words field by field: type, bufferable, cacheable, execute-never, domain, access permission |
| `PageTable.BoardsValid` | kernel/platform/qemu/board.h:16-44 | both boards' RAM and peripherals satisfy the layout assumptions, disjointness included |
| `Text.Atoi` | user/libc/ulib.c:202-210 | the value of the leading digits |
| `Text.AtoiInvertsDec` | user/libc/ulib.c:38-54 | atoi inverts the decimal writer, whatever follows the number |
| `Text.WordHasTenDigits` | kernel/drivers/uart/uart_core.c:91-106 | ten digits are enough for every 32-bit number |
| `Text.DecHasNoLeadingZero` | user/libc/ulib.c:38-54 | no superfluous zero in front |
| `Text.NumbersOnConsole` | kernel/drivers/uart/uart_core.c:91-106 | a few numbers exactly as they are printed |
| `Text.IntTextRoundTrip` | kernel/drivers/uart/uart_core.c:108-116 | every signed 32-bit number reads back as itself, the smallest included |
| `Text.HexRoundTrip` | user/libc/ulib.c:58-71 | hexadecimal text reads back as the number, with eight digits when padded and no leading zero otherwise |
| `Writers.PutCh` | user/libc/ulib.c:23-27 | the buffer holds the wanted text cut off at the capacity |
| `Writers.PutStr` | user/libc/ulib.c:29-36 | the same for a string, a missing one included |
| `Writers.PutDec` | user/libc/ulib.c:38-54 | the same for a decimal number |
| `Writers.PutHex` | user/libc/ulib.c:58-71 | the same for a hexadecimal number |
| `Writers.PutConverted` | user/libc/ulib.c:87-117 | the same for each conversion of ulib_printf |
| `Writers.UlibPrintf` | user/libc/ulib.c:73-123 | the line written is exactly the first 192 characters of the ideal text, for every format and matching arguments, a lone % at the end included |
| `Writers.ConversionsRead` | user/libc/ulib.c:87-117 | what each conversion prints, read back: %u decimal, %x hexadecimal without leading zeros, %p 0x and eight digits, %s the string or (null), %c the character |
| `Writers.AfterPercent` | user/libc/ulib.c:86-117 | a doubled percent sign prints one, an unknown conversion is copied, a known one takes the next argument |
| `Writers.AfterPlainText` | user/libc/ulib.c:80-84 | text in front of a conversion is copied |
| `Writers.PlainText` | user/libc/ulib.c:80-84 | a format without percent signs is printed as it stands |
| `Writers.EmitLine` | kernel/syscall/syscall.c:174-208 | one row of the listing, cut off at the room left |
| `Writers.SysPs` | kernel/syscall/syscall.c:159-211 | writes exactly the first min(total, size-1) bytes of the full listing, none for size 0 |
| `PsReading.PsReportsTable` | kernel/syscall/syscall.c:159-211 | the bytes ps stores, read line by line, name exactly the first threads of the table in tid order, each with its process's name, its index and its present state; all of them if the buffer is longer than the listing; and they are min(total, size-1) bytes |
| `PsReading.CutListingReads` | kernel/syscall/syscall.c:174-208 | however a listing is cut off, its complete lines are the first rows |
| `PsReading.LineReads` | kernel/syscall/syscall.c:180-207 | a row reads back as its name, index and state, the state words being READY, RUNNING, BLOCKED and DEAD |
| `PsReading.BodyParts` | kernel/syscall/syscall.c:183-207 | the columns of a row: name padded to seven, then " t", the digit, two blanks, seven characters of state |

## Left out

- Chip drivers: register access, clock gating and interrupt controllers; a receive interrupt is "drain these bytes, then wake one reader".
- Boot assembly, linker scripts and build files; their layout facts are assumptions: images of at most 1 MB, the kernel below the first user slot, 16 KB aligned and distinct tables, and translation tables that do not change after boot.
- Caches and barriers; of the MMU's caches only the TLB is modelled.
- C code inside the kernel, at word level: any code that stays on its own kernel stack, leaves the trap frame alone and has unwound its frames before it returns (`SwitchMachine.Enabled`).
- What user code reads: user code is arbitrary, so only its stores and its registers appear. A user store outside the window changes nothing; the fault it raises is a trap of its own.
- Kernel memory as RAM: the kernel's tables, stacks and queues are separate state, not bytes of the modelled RAM.
- A lone blocked reader: the kernel spins with interrupts masked, so only the fixed point is stated, not that input ever arrives.
- Undefined-instruction faults push on a stack of their own; the model puts all faults on one stack, which can only overstate its use.
- Kernel-mode faults, FIQ and the panic dump: they halt.
- uart_printf's format handling, the shell, counter and runaway programs, and crt0: they would add only easy members.
- The log lines that exit, kill and faults print; the modelled console holds only what sys_write sends.
- Kernel.Kernel.SysPs: the listing is built in a scratch array and then stored, byte for byte in the source's order.
- Text.Atoi: requires the value to fit INT_MAX, because beyond it the source's signed arithmetic is undefined.
- ThreadInit.StartOk: requires the stack slices of a process to fit its 1 MB window, as kernel/include/platform.h:37-40 demands.
- Index arithmetic on table sizes near 2^32: thread and process numbers are unbounded.
- PageTable.MmuBuildBootPgd: requires the zeroed table that start.S provides.
