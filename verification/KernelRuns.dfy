/** Whole runs: any sequence of traps, each taken from the user mode the previous one
    returned to. A run ends early when a step halts or spins. Since every prefix of a
    run is a run, a statement about the last state of all runs is a statement about
    every return to user mode. */
module KernelRuns {
  import opened Tasks
  import opened RxRing
  import opened KernelSpec
  import opened KernelInvariant
  import opened KernelSteps
  import opened KernelProperties
  import opened KernelQueue

  /** The last state, how the run ended, and what happened along it: finished calls,
      ring walks, wake-ups, input taken from the chip, and user faults. */
  datatype Run = Run(k: Kern, outcome: Outcome, done: seq<Done>, sweeps: nat, wakes: nat,
                     input: seq<Byte>, faults: nat)

  function InputOf(k: Kern, trap: Trap): seq<Byte>
    requires |k.ring| <= RX_CAP
  {
    if trap.RxIrq? then Accepted(k.ring, trap.bytes) else []
  }

  ghost function Exec(c: Config, k: Kern, traps: seq<Trap>): Run
    requires Inv(c, k)
    decreases |traps|
  {
    if traps == [] then Run(k, ToUser, [], 0, 0, [], 0)
    else
      var r := OnTrap(c, k, traps[0]);
      var wakes, input, faults := Wakes(k, traps[0]), InputOf(k, traps[0]), Bit(traps[0].Fault?);
      if !r.outcome.ToUser? then Run(r.k, r.outcome, r.done, r.sweeps, wakes, input, faults)
      else
        StepTwoPhase(c, k, traps[0]);
        var rest := Exec(c, r.k, traps[1..]);
        Run(rest.k, rest.outcome, r.done + rest.done, r.sweeps + rest.sweeps, wakes + rest.wakes,
            input + rest.input, faults + rest.faults)
  }

  /** The boundary invariant holds at every return to user mode. */
  lemma {:induction false} RunKeepsInv(c: Config, k: Kern, traps: seq<Trap>)
    requires Inv(c, k)
    ensures Exec(c, k, traps).outcome.ToUser? ==> Inv(c, Exec(c, k, traps).k)
    decreases |traps|
  {
    if traps != [] {
      StepTwoPhase(c, k, traps[0]);
      var r := OnTrap(c, k, traps[0]);
      if r.outcome.ToUser? {
        RunKeepsInv(c, r.k, traps[1..]);
      }
    }
  }

  ghost function FromBoot(c: Config, traps: seq<Trap>): Run
    requires c.Valid()
  {
    BootInv(c);
    Exec(c, Boot(c), traps)
  }

  /** The same, spelled out for runs from boot. The queue is never full, so no waiter is
      ever dropped. */
  lemma BoundaryInvariant(c: Config, traps: seq<Trap>)
    requires c.Valid() && FromBoot(c, traps).outcome.ToUser?
    ensures var k := FromBoot(c, traps).k;
            && Shape(c, k)
            && !k.resched && k.hint == None
            && (Runnable(k.states[k.current]) || NobodyRunnable(k))
            && (forall t :: 0 <= t < c.Threads() && k.states[t].Running? ==> t == k.current)
            && (forall t :: 0 <= t < c.Threads() && k.states[t].Blocked? ==> t in k.waitq)
            && (forall t :: t in k.waitq ==> k.states[t].Blocked? || k.states[t].Dead?)
            && NoDup(k.waitq) && |k.waitq| < c.Threads()
  {
    BootInv(c);
    RunKeepsInv(c, Boot(c), traps);
    BlockQueues(c, FromBoot(c, traps).k, 0, 1);
  }

  /** Over a run that returns to user mode, DEAD is permanent. */
  lemma {:induction false} DeadForever(c: Config, k: Kern, traps: seq<Trap>, t: nat)
    requires Inv(c, k) && t < c.Threads() && k.states[t].Dead?
    requires Exec(c, k, traps).outcome.ToUser?
    ensures var k' := Exec(c, k, traps).k; t < |k'.states| && k'.states[t].Dead?
    decreases |traps|
  {
    if traps != [] {
      StepTwoPhase(c, k, traps[0]);
      DeadStaysDead(c, k, traps[0], t);
      DeadForever(c, OnTrap(c, k, traps[0]).k, traps[1..], t);
    }
  }

  // ------------------------------------------------------------- lost wake-ups

  /** Every burst of the run fits its reader, or leaves nobody else waiting. */
  ghost predicate BurstsFit(c: Config, k: Kern, traps: seq<Trap>)
    requires Inv(c, k)
    decreases |traps|
  {
    traps == [] || !OnTrap(c, k, traps[0]).outcome.ToUser? ||
    (&& BurstFits(c, k, traps[0])
     && (StepTwoPhase(c, k, traps[0]);
         BurstsFit(c, OnTrap(c, k, traps[0]).k, traps[1..])))
  }

  /** At no return to user mode of the run does anybody sleep while there is input. */
  ghost predicate NobodyOversleeps(c: Config, k: Kern, traps: seq<Trap>)
    requires Inv(c, k)
    decreases |traps|
  {
    && NoLostWakeup(k)
    && (traps == [] || !OnTrap(c, k, traps[0]).outcome.ToUser? ||
        (StepTwoPhase(c, k, traps[0]);
         NobodyOversleeps(c, OnTrap(c, k, traps[0]).k, traps[1..])))
  }

  /** Over every run from boot: no wake-up is lost exactly when every burst fits. */
  lemma NoLostWakeups(c: Config, traps: seq<Trap>)
    requires c.Valid()
    ensures Inv(c, Boot(c))
    ensures NobodyOversleeps(c, Boot(c), traps) <==> BurstsFit(c, Boot(c), traps)
  {
    BootInv(c);
    OversleepingIffMisfit(c, Boot(c), traps);
  }

  lemma {:induction false} OversleepingIffMisfit(c: Config, k: Kern, traps: seq<Trap>)
    requires Inv(c, k) && NoLostWakeup(k)
    ensures NobodyOversleeps(c, k, traps) <==> BurstsFit(c, k, traps)
    decreases |traps|
  {
    if traps != [] && OnTrap(c, k, traps[0]).outcome.ToUser? {
      StepTwoPhase(c, k, traps[0]);
      WakeupKeptIffBurstFits(c, k, traps[0]);
      var k' := OnTrap(c, k, traps[0]).k;
      if NoLostWakeup(k') {
        OversleepingIffMisfit(c, k', traps[1..]);
      }
    }
  }

  // ---------------------------------------------------------------- FIFO order

  /** The ideal queue at the end of the run, starting from `live`. */
  ghost function IdealQueue(c: Config, k: Kern, traps: seq<Trap>, live: seq<nat>): seq<nat>
    requires Inv(c, k)
    decreases |traps|
  {
    if traps == [] then live
    else
      var r := OnTrap(c, k, traps[0]);
      if !r.outcome.ToUser? then live
      else
        StepTwoPhase(c, k, traps[0]);
        IdealQueue(c, r.k, traps[1..], IdealNext(c, k, live, traps[0]))
  }

  /** Over every run the live waiters are exactly the ideal queue: corpses never get in
      the way, and only an interrupt without input moves anybody back. */
  lemma {:induction false} QueueIsIdeal(c: Config, k: Kern, traps: seq<Trap>)
    requires Inv(c, k) && Exec(c, k, traps).outcome.ToUser?
    ensures Live(Exec(c, k, traps).k) == IdealQueue(c, k, traps, Live(k))
    decreases |traps|
  {
    if traps != [] {
      StepTwoPhase(c, k, traps[0]);
      LiveIsIdeal(c, k, traps[0]);
      QueueIsIdeal(c, OnTrap(c, k, traps[0]).k, traps[1..]);
    }
  }

  // --------------------------------------------------------- byte conservation

  /** What the finished reads among these calls stored. */
  function BytesOf(done: seq<Done>): seq<Byte> {
    if done == [] then []
    else (if done[0].num == SYS_READ then done[0].bytes else []) + BytesOf(done[1..])
  }

  lemma {:induction false} BytesOfConcat(a: seq<Done>, b: seq<Done>)
    ensures BytesOf(a + b) == BytesOf(a) + BytesOf(b)
  {
    if a == [] {
      assert a + b == b;
    } else {
      assert (a + b)[1..] == a[1..] + b;
      BytesOfConcat(a[1..], b);
    }
  }

  /** Input is neither lost, duplicated nor reordered: what finished reads stored, in
      order, followed by what is left in the ring, is what the ring took in. */
  lemma {:induction false} BytesConserved(c: Config, k: Kern, traps: seq<Trap>)
    requires Inv(c, k)
    ensures var r := Exec(c, k, traps);
            BytesOf(r.done) + r.k.ring == k.ring + r.input
    decreases |traps|
  {
    if traps != [] {
      StepTwoPhase(c, k, traps[0]);
      StepConservesBytes(c, k, traps[0]);
      var s := OnTrap(c, k, traps[0]);
      if s.outcome.ToUser? {
        var rest, input := Exec(c, s.k, traps[1..]), InputOf(k, traps[0]);
        BytesConserved(c, s.k, traps[1..]);
        BytesOfConcat(s.done, rest.done);
        Glue(BytesOf(s.done), BytesOf(rest.done), k.ring, s.k.ring, rest.k.ring, input, rest.input);
      }
    }
  }

  lemma Glue(d1: seq<Byte>, d2: seq<Byte>, r0: seq<Byte>, r1: seq<Byte>, r2: seq<Byte>, i1: seq<Byte>, i2: seq<Byte>)
    requires d1 + r1 == r0 + i1 && d2 + r2 == r1 + i2
    ensures d1 + d2 + r2 == r0 + (i1 + i2)
  {
    assert d1 + d2 + r2 == d1 + (d2 + r2);
    assert d1 + (r1 + i2) == (d1 + r1) + i2;
    assert (r0 + i1) + i2 == r0 + (i1 + i2);
  }

  lemma StepConservesBytes(c: Config, k: Kern, trap: Trap)
    requires Inv(c, k)
    ensures var r := OnTrap(c, k, trap);
            BytesOf(r.done) + r.k.ring == k.ring + InputOf(k, trap)
  {
    StepTwoPhase(c, k, trap);
    EffectConservesBytes(c, k, trap);
  }

  lemma EffectConservesBytes(c: Config, k: Kern, trap: Trap)
    requires Inv(c, k)
    ensures BytesOf(DoneBy(c, k, trap)) + Effect(c, k, trap).ring == k.ring + InputOf(k, trap)
  {
    if trap.RxIrq? {
      DrainKeepsPrefix(k.ring, trap.bytes);
      if SomeoneWaits(k) {
        RxWakes(c, k, trap.bytes);
        var m := WokenBy(c, k, trap.bytes);
        ReadConservesBytes(c, m, m.kont[m.current].addr, m.kont[m.current].len);
      }
    } else if BlockingRead(trap) {
      ReadConservesBytes(c, k, trap.a1, trap.a2);
    } else if trap.Svc? {
      QuickTakesNoInput(c, k, trap);
    }
  }

  lemma QuickTakesNoInput(c: Config, k: Kern, trap: Trap)
    requires Shape(c, k) && trap.Svc? && !BlockingRead(trap)
    ensures BytesOf([QuickCall(c, k, trap).done]) == []
  {
    assert [QuickCall(c, k, trap).done][1..] == [];
  }

  lemma ReadConservesBytes(c: Config, k: Kern, addr: Word, len: Count)
    requires Shape(c, k)
    ensures BytesOf(ReadDone(k, addr, len)) + ReadEffect(c, k, addr, len).ring == k.ring
  {
    var n := Taken(k, len);
    assert k.ring[..n] + k.ring[n..] == k.ring;
    if k.ring != [] {
      assert ReadDone(k, addr, len)[1..] == [];
    }
  }

  /** Hence each finished read got one contiguous piece of the input, beginning where
      the reads before it stopped, whichever threads they belonged to. */
  lemma ReadIsContiguous(c: Config, k: Kern, traps: seq<Trap>, i: nat)
    requires Inv(c, k) && i < |Exec(c, k, traps).done| && Exec(c, k, traps).done[i].num == SYS_READ
    ensures var r := Exec(c, k, traps);
            var from := |BytesOf(r.done[..i])|;
            && from + |r.done[i].bytes| <= |k.ring + r.input|
            && r.done[i].bytes == (k.ring + r.input)[from..from + |r.done[i].bytes|]
  {
    var r := Exec(c, k, traps);
    BytesConserved(c, k, traps);
    Piece(r.done, i, r.k.ring);
  }

  lemma Piece(done: seq<Done>, i: nat, ring: seq<Byte>)
    requires i < |done| && done[i].num == SYS_READ
    ensures var from := |BytesOf(done[..i])|; var all := BytesOf(done) + ring;
            && from + |done[i].bytes| <= |all|
            && done[i].bytes == all[from..from + |done[i].bytes|]
  {
    BytesOfConcat(done[..i], done[i..]);
    assert done == done[..i] + done[i..];
    assert done[i..][1..] == done[i + 1..];
    Middle(BytesOf(done[..i]), done[i].bytes, BytesOf(done[i + 1..]), ring);
  }

  lemma Middle(a: seq<Byte>, b: seq<Byte>, c: seq<Byte>, d: seq<Byte>)
    ensures |a| + |b| <= |(a + (b + c)) + d|
    ensures ((a + (b + c)) + d)[|a|..|a| + |b|] == b
  {
  }

  // ------------------------------------------------------- call accounting

  function DoneCount(done: seq<Done>, t: nat): nat {
    if done == [] then 0 else Bit(done[0].tid == t) + DoneCount(done[1..], t)
  }

  lemma {:induction false} DoneCountConcat(a: seq<Done>, b: seq<Done>, t: nat)
    ensures DoneCount(a + b, t) == DoneCount(a, t) + DoneCount(b, t)
  {
    if a == [] {
      assert a + b == b;
    } else {
      assert (a + b)[1..] == a[1..] + b;
      DoneCountConcat(a[1..], b, t);
    }
  }

  /** System calls issued by thread t along the run. */
  ghost function Calls(c: Config, k: Kern, traps: seq<Trap>, t: nat): nat
    requires Inv(c, k)
    decreases |traps|
  {
    if traps == [] then 0
    else
      var r := OnTrap(c, k, traps[0]);
      Bit(traps[0].Svc? && k.current == t) +
      (if !r.outcome.ToUser? then 0
       else StepTwoPhase(c, k, traps[0]); Calls(c, r.k, traps[1..], t))
  }

  ghost function Pending(k: Kern, t: nat): nat
    requires t < |k.kont|
  {
    Bit(k.kont[t].InRead?)
  }

  /** Every system call is answered exactly once, and to its own caller; the only
      unanswered ones are reads still asleep (or killed in their sleep). */
  lemma {:induction false} EveryCallAnsweredOnce(c: Config, k: Kern, traps: seq<Trap>, t: nat)
    requires Inv(c, k) && t < c.Threads()
    ensures var r := Exec(c, k, traps);
            && Shape(c, r.k)
            && Calls(c, k, traps, t) + Pending(k, t) == DoneCount(r.done, t) + Pending(r.k, t)
    decreases |traps|
  {
    if traps != [] {
      StepTwoPhase(c, k, traps[0]);
      StepAnswers(c, k, traps[0], t);
      var s := OnTrap(c, k, traps[0]);
      if s.outcome.ToUser? {
        EveryCallAnsweredOnce(c, s.k, traps[1..], t);
        DoneCountConcat(s.done, Exec(c, s.k, traps[1..]).done, t);
      }
    }
  }

  lemma StepAnswers(c: Config, k: Kern, trap: Trap, t: nat)
    requires Inv(c, k) && t < c.Threads()
    ensures var r := OnTrap(c, k, trap);
            && Shape(c, r.k)
            && Bit(trap.Svc? && k.current == t) + Pending(k, t) == DoneCount(r.done, t) + Pending(r.k, t)
  {
    StepTwoPhase(c, k, trap);
    EffectAnswers(c, k, trap, t);
  }

  lemma EffectAnswers(c: Config, k: Kern, trap: Trap, t: nat)
    requires Inv(c, k) && t < c.Threads()
    ensures var p := Effect(c, k, trap);
            && |p.kont| == c.Threads()
            && Bit(trap.Svc? && k.current == t) + Pending(k, t) == DoneCount(DoneBy(c, k, trap), t) + Pending(p, t)
  {
    if trap.RxIrq? && SomeoneWaits(k) {
      RxWakes(c, k, trap.bytes);
      var m := WokenBy(c, k, trap.bytes);
      ReadAnswers(c, m, m.kont[m.current].addr, m.kont[m.current].len, t);
    } else if BlockingRead(trap) {
      ReadAnswers(c, k, trap.a1, trap.a2, t);
    }
  }

  /** A read either answers its caller or leaves it pending. */
  lemma ReadAnswers(c: Config, k: Kern, addr: Word, len: Count, t: nat)
    requires Shape(c, k) && t < c.Threads()
    ensures var p := ReadEffect(c, k, addr, len);
            && |p.kont| == c.Threads()
            && DoneCount(ReadDone(k, addr, len), t) + Pending(p, t) ==
                 if t == k.current then 1 else Pending(k, t)
  {
    assert DoneCount([], t) == 0;
  }

  // ------------------------------------------------------------------ ticks

  function Timers(traps: seq<Trap>): nat {
    if traps == [] then 0 else Bit(traps[0].TimerIrq?) + Timers(traps[1..])
  }

  /** The counter after n timer interrupts. */
  function Advance(ticks: Word, n: nat): Word {
    if n == 0 then ticks else NextTick(Advance(ticks, n - 1))
  }

  /** ... which is a sum, wrapped at 2^32. */
  lemma {:induction false} AdvanceWraps(ticks: Word, n: nat)
    ensures Advance(ticks, n) == (ticks + n) % WORD
  {
    if n > 0 {
      AdvanceWraps(ticks, n - 1);
      WrapSucc(ticks + n - 1);
    }
  }

  lemma WrapSucc(x: nat)
    ensures (x % WORD + 1) % WORD == (x + 1) % WORD
  {
    var q, r := x / WORD, x % WORD;
    if r + 1 < WORD {
      ModUnique(x + 1, WORD, q, r + 1);
    } else {
      ModUnique(x + 1, WORD, q + 1, 0);
    }
  }

  lemma {:induction false} AdvanceFirst(ticks: Word, n: nat)
    ensures Advance(NextTick(ticks), n) == Advance(ticks, n + 1)
  {
    if n > 0 {
      AdvanceFirst(ticks, n - 1);
    }
  }

  /** What sys_ticks reports is the number of timer interrupts. */
  lemma {:induction false} TicksCountTimers(c: Config, k: Kern, traps: seq<Trap>)
    requires Inv(c, k) && Exec(c, k, traps).outcome.ToUser?
    ensures Exec(c, k, traps).k.ticks == Advance(k.ticks, Timers(traps))
    decreases |traps|
  {
    if traps != [] {
      StepTwoPhase(c, k, traps[0]);
      StepTicks(c, k, traps[0]);
      var k1 := OnTrap(c, k, traps[0]).k;
      TicksCountTimers(c, k1, traps[1..]);
      TickFirst(traps, k.ticks, k1.ticks);
    }
  }

  lemma TickFirst(traps: seq<Trap>, start: Word, next: Word)
    requires traps != [] && next == if traps[0].TimerIrq? then NextTick(start) else start
    ensures Advance(next, Timers(traps[1..])) == Advance(start, Timers(traps))
  {
    AdvanceFirst(start, Timers(traps[1..]));
  }

  lemma StepTicks(c: Config, k: Kern, trap: Trap)
    requires Inv(c, k)
    ensures OnTrap(c, k, trap).k.ticks == if trap.TimerIrq? then NextTick(k.ticks) else k.ticks
  {
    StepTwoPhase(c, k, trap);
    EffectTicks(c, k, trap);
  }

  lemma EffectTicks(c: Config, k: Kern, trap: Trap)
    requires Inv(c, k)
    ensures Effect(c, k, trap).ticks == if trap.TimerIrq? then NextTick(k.ticks) else k.ticks
  {
    if trap.RxIrq? && SomeoneWaits(k) {
      RxWakes(c, k, trap.bytes);
    }
  }

  // ------------------------------------------------------- what a run counts

  function Receives(traps: seq<Trap>): nat {
    if traps == [] then 0 else Bit(traps[0].RxIrq?) + Receives(traps[1..])
  }

  function FaultTraps(traps: seq<Trap>): nat {
    if traps == [] then 0 else Bit(traps[0].Fault?) + FaultTraps(traps[1..])
  }

  /** The counters of a run: a wake-up takes a receive interrupt of its own, and the faults
      are the fault traps. */
  lemma {:induction false} CountersMean(c: Config, k: Kern, traps: seq<Trap>)
    requires Inv(c, k) && Exec(c, k, traps).outcome.ToUser?
    ensures Exec(c, k, traps).wakes <= Receives(traps) && Exec(c, k, traps).faults == FaultTraps(traps)
    decreases |traps|
  {
    if traps != [] {
      StepTwoPhase(c, k, traps[0]);
      CountersMean(c, OnTrap(c, k, traps[0]).k, traps[1..]);
    }
  }

  // ------------------------------------------------------------ user faults

  /** All threads of process p are DEAD and off the CPU. */
  ghost predicate IsRetired(c: Config, k: Kern, p: nat)
    requires Shape(c, k)
  {
    && p != c.Pid(k.current)
    && forall t :: 0 <= t < |k.states| && c.Pid(t) == p ==> k.states[t].Dead?
  }

  /** How many of the first n processes are retired. */
  ghost function Retired(c: Config, k: Kern, n: nat): nat
    requires Shape(c, k)
  {
    if n == 0 then 0 else Bit(IsRetired(c, k, n - 1)) + Retired(c, k, n - 1)
  }

  lemma {:induction false} RetiredCount(c: Config, k: Kern, n: nat)
    requires Shape(c, k)
    ensures Retired(c, k, n) <= n
    ensures c.Pid(k.current) < n ==> Retired(c, k, n) < n
  {
    if n > 0 {
      RetiredCount(c, k, n - 1);
    }
  }

  lemma {:induction false} RetiredMonotone(c: Config, k: Kern, k': Kern, n: nat, q: nat)
    requires Shape(c, k) && Shape(c, k')
    requires forall p :: 0 <= p < n && IsRetired(c, k, p) ==> IsRetired(c, k', p)
    ensures Retired(c, k, n) <= Retired(c, k', n)
    ensures q < n && !IsRetired(c, k, q) && IsRetired(c, k', q) ==> Retired(c, k, n) < Retired(c, k', n)
  {
    if n > 0 {
      RetiredMonotone(c, k, k', n - 1, q);
    }
  }

  lemma StepRetires(c: Config, k: Kern, trap: Trap)
    requires Inv(c, k) && OnTrap(c, k, trap).outcome.ToUser?
    ensures var k' := OnTrap(c, k, trap).k;
            && Shape(c, k')
            && (forall p :: IsRetired(c, k, p) ==> IsRetired(c, k', p))
            && (trap.Fault? ==> IsRetired(c, k', c.Pid(k.current)))
  {
    StepTwoPhase(c, k, trap);
    var k' := OnTrap(c, k, trap).k;
    forall t | 0 <= t < |k.states| && k.states[t].Dead?
      ensures k'.states[t].Dead? && (t != k.current ==> k'.current != t)
    {
      DeadStaysDead(c, k, trap, t);
      if t != k.current {
        DeadNeverDispatched(c, k, trap, t);
      }
    }
    if trap.Fault? {
      FaultRetires(c, k);
    }
  }

  /** Faults never pop their frame off the abort stack, but each one retires a process
      that had not faulted before. */
  lemma {:induction false} FaultsBounded(c: Config, k: Kern, traps: seq<Trap>)
    requires Inv(c, k)
    ensures Exec(c, k, traps).faults + Retired(c, k, c.procs) <= c.procs
    decreases |traps|
  {
    PidInRange(c, k.current);
    RetiredCount(c, k, c.procs);
    if traps != [] {
      StepTwoPhase(c, k, traps[0]);
      var r := OnTrap(c, k, traps[0]);
      if r.outcome.ToUser? {
        StepRetires(c, k, traps[0]);
        RetiredMonotone(c, k, r.k, c.procs, c.Pid(k.current));
        FaultsBounded(c, r.k, traps[1..]);
      }
    }
  }

  /** One more trap at the end of a run that returned. */
  lemma {:induction false} OneMoreFault(c: Config, k: Kern, traps: seq<Trap>, trap: Trap)
    requires Inv(c, k) && Exec(c, k, traps).outcome.ToUser?
    ensures Exec(c, k, traps + [trap]).faults == Exec(c, k, traps).faults + Bit(trap.Fault?)
    decreases |traps|
  {
    var all := traps + [trap];
    StepTwoPhase(c, k, all[0]);
    if traps == [] {
      assert all[1..] == [];
    } else {
      assert all[1..] == traps[1..] + [trap];
      OneMoreFault(c, OnTrap(c, k, traps[0]).k, traps[1..], trap);
    }
  }

  /** While a run still returns to user mode there is room for one more fault. */
  lemma RoomForAFault(c: Config, k: Kern, traps: seq<Trap>)
    requires Inv(c, k) && Exec(c, k, traps).outcome.ToUser?
    ensures Exec(c, k, traps).faults + 1 <= c.procs
  {
    OneMoreFault(c, k, traps, Fault);
    FaultsBounded(c, k, traps + [Fault]);
  }

  /** A fault frame is 15 words. The 1 KB abort stack is never overrun, for up to 17 processes. */
  lemma AbortStackBounded(c: Config, traps: seq<Trap>)
    requires c.Valid()
    ensures FromBoot(c, traps).faults * 60 <= c.procs * 60
    ensures c.procs <= 17 ==> FromBoot(c, traps).faults * 60 <= 0x400
  {
    BootInv(c);
    FaultsBounded(c, Boot(c), traps);
  }

  // --------------------------------------------------------- bounded waiting

  ghost predicate Waiting(k: Kern, t: nat) {
    t < |k.states| && t != k.current && Runnable(k.states[t])
  }

  /** At every return to user mode of the run, t is runnable but not on the CPU. */
  ghost predicate StaysWaiting(c: Config, k: Kern, traps: seq<Trap>, t: nat)
    requires Inv(c, k)
    decreases |traps|
  {
    && Waiting(k, t)
    && (traps == [] ||
        (StepTwoPhase(c, k, traps[0]);
         var r := OnTrap(c, k, traps[0]);
         r.outcome.ToUser? && StaysWaiting(c, r.k, traps[1..], t)))
  }

  lemma SweptCloser(c: Config, p: Kern, k': Kern, t: nat)
    requires Swept(c, p, k') && Waiting(p, t) && t != k'.current
    ensures var n := c.Threads();
            Distance(k'.current, t, n) + 1 <= Distance(p.current, t, n)
  {
  }

  lemma EffectKeepsWaiting(c: Config, k: Kern, trap: Trap, t: nat)
    requires Inv(c, k) && Waiting(k, t)
    ensures var p := Effect(c, k, trap);
            && p.current != t
            && (Wakes(k, trap) == 0 ==> p.current == k.current)
  {
    if trap.RxIrq? && SomeoneWaits(k) {
      RxWakes(c, k, trap.bytes);
    }
  }

  /** Each ring walk brings the CPU closer to t; only a wake-up can move it away, and
      then by less than a full turn. */
  lemma StepApproaches(c: Config, k: Kern, trap: Trap, t: nat)
    requires Inv(c, k) && Waiting(k, t)
    requires OnTrap(c, k, trap).outcome.ToUser? && Waiting(OnTrap(c, k, trap).k, t)
    ensures var r := OnTrap(c, k, trap); var n := c.Threads();
            && Shape(c, r.k)
            && Distance(r.k.current, t, n) + r.sweeps <= Distance(k.current, t, n) + Jumps(c, Wakes(k, trap))
  {
    StepTwoPhase(c, k, trap);
    EffectKeepsWaiting(c, k, trap, t);
    PhasesApproach(c, trap, Effect(c, k, trap), OnTrap(c, k, trap), t);
    assert Jumps(c, 1) == c.Threads() - 1 + Jumps(c, 0);
  }

  /** What w wake-ups can cost: w turns of the ring, less one place each. */
  ghost function Jumps(c: Config, w: nat): int {
    if w == 0 then 0 else c.Threads() - 1 + Jumps(c, w - 1)
  }

  lemma {:induction false} JumpsAdd(c: Config, w: nat, w': nat)
    ensures Jumps(c, w + w') == Jumps(c, w) + Jumps(c, w')
  {
    if w > 0 {
      assert w + w' - 1 == (w - 1) + w';
      JumpsAdd(c, w - 1, w');
    }
  }

  lemma {:induction false} JumpsValue(c: Config, w: nat)
    ensures Jumps(c, w) == w * (c.Threads() - 1)
  {
    if w > 0 {
      JumpsValue(c, w - 1);
      Distribute(w - 1, 1, c.Threads() - 1);
    }
  }

  lemma PhasesApproach(c: Config, trap: Trap, p: Kern, r: Step, t: nat)
    requires TwoPhase(c, trap, p, r) && p.current != t && r.outcome.ToUser? && Waiting(r.k, t)
    ensures Distance(r.k.current, t, c.Threads()) + r.sweeps <= Distance(p.current, t, c.Threads())
  {
    if p.resched {
      assert !OthersIdle(p);
      assert Runnable(p.states[t]);
      SweptCloser(c, p, r.k, t);
    }
  }

  /** The run took fewer walks than d, not counting what its wake-ups cost. */
  ghost predicate WalksWithin(c: Config, r: Run, d: int) {
    r.sweeps < d + Jumps(c, r.wakes)
  }

  lemma {:induction false} WalksBounded(c: Config, k: Kern, traps: seq<Trap>, t: nat)
    requires Inv(c, k) && StaysWaiting(c, k, traps, t)
    ensures WalksWithin(c, Exec(c, k, traps), Distance(k.current, t, c.Threads()))
    decreases |traps|
  {
    if traps == [] {
      assert Exec(c, k, traps).sweeps == 0 && Exec(c, k, traps).wakes == 0;
    } else {
      StepTwoPhase(c, k, traps[0]);
      var s := OnTrap(c, k, traps[0]);
      assert s.outcome.ToUser? && StaysWaiting(c, s.k, traps[1..], t);
      WalksBounded(c, s.k, traps[1..], t);
      StepApproaches(c, k, traps[0], t);
      AddWalks(c, Distance(k.current, t, c.Threads()), s.sweeps, Wakes(k, traps[0]),
               Distance(s.k.current, t, c.Threads()), Exec(c, s.k, traps[1..]), Exec(c, k, traps));
    }
  }

  lemma AddWalks(c: Config, d: int, sweeps: nat, wakes: nat, d': int, rest: Run, r: Run)
    requires d' + sweeps <= d + Jumps(c, wakes) && WalksWithin(c, rest, d')
    requires r.sweeps == sweeps + rest.sweeps && r.wakes == wakes + rest.wakes
    ensures WalksWithin(c, r, d)
  {
    JumpsAdd(c, wakes, rest.wakes);
  }

  lemma LessThanATurn(c: Config, k: Kern, t: nat)
    requires Inv(c, k) && Waiting(k, t)
    ensures Distance(k.current, t, c.Threads()) <= c.Threads() - 1
  {
  }

  /** The run took fewer walks than (w + 1)(n - 1), w being its wake-ups. */
  ghost predicate WithinTurns(r: Run, n: nat) {
    r.sweeps < (r.wakes + 1) * (n - 1)
  }

  lemma TurnsFromJumps(c: Config, r: Run, d: int)
    requires WalksWithin(c, r, d) && d <= c.Threads() - 1
    ensures WithinTurns(r, c.Threads())
  {
    JumpsValue(c, r.wakes + 1);
  }

  /** A thread that stays runnable is dispatched within (w + 1)(N - 1) ring walks of a
      run with w wake-ups; with none, within N - 1. Contrapositive form: while it is
      still waiting, fewer walks than that have happened. */
  lemma BoundedWaiting(c: Config, k: Kern, traps: seq<Trap>, t: nat)
    requires Inv(c, k) && StaysWaiting(c, k, traps, t)
    ensures WithinTurns(Exec(c, k, traps), c.Threads())
  {
    WalksBounded(c, k, traps, t);
    LessThanATurn(c, k, t);
    TurnsFromJumps(c, Exec(c, k, traps), Distance(k.current, t, c.Threads()));
  }

  lemma Distribute(a: int, b: int, n: int)
    ensures (a + b) * n == a * n + b * n
  {
  }
}
