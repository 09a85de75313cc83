/** What each trap means to the thread that takes it, in the numbers of the system-call
    interface: who runs after a timer interrupt, what every call answers, and that a read
    answers the very request its caller made, however long it slept. */
module KernelCalls {
  import opened Tasks
  import opened RxRing
  import opened UserPointer
  import opened KernelSpec
  import opened KernelInvariant
  import opened KernelSteps
  import opened KernelProperties
  import opened KernelRuns

  // -------------------------------------------------------------- preemption

  /** k' runs the nearest runnable thread after k's on the ring, or k's own if there is
      no other. */
  ghost predicate NextInLine(k: Kern, k': Kern) {
    && k.current < |k.states| && k'.current < |k.states|
    && (OthersIdle(k) ==> k'.current == k.current)
    && (!OthersIdle(k) ==>
          && k'.current != k.current && Runnable(k.states[k'.current])
          && forall t :: 0 <= t < |k.states| && t != k.current && Runnable(k.states[t]) ==>
               Distance(k.current, k'.current, |k.states|) <= Distance(k.current, t, |k.states|))
  }

  /** A timer interrupt counts one tick and hands the CPU to the next thread in line. */
  lemma TimerPreempts(c: Config, k: Kern)
    requires Inv(c, k)
    ensures var r := OnTrap(c, k, TimerIrq);
            && r.outcome.ToUser? && r.sweeps == 1 && r.done == []
            && r.k.ticks == (k.ticks + 1) % 0x1_0000_0000
            && NextInLine(k, r.k)
            && r.events == (if OthersIdle(k) then [] else [SwitchTo(r.k.current)])
            && r.k.waitq == k.waitq && r.k.ring == k.ring && r.k.kont == k.kont
  {
    StepTwoPhase(c, k, TimerIrq);
    assert OthersIdle(Tick(k)) <==> OthersIdle(k);
  }

  /** An interrupt that is neither timer nor receive changes nothing. */
  lemma OtherIrqIgnored(c: Config, k: Kern)
    requires Inv(c, k)
    ensures OnTrap(c, k, OtherIrq) == Step(k, ToUser, 0, [], [])
  {
    StepTwoPhase(c, k, OtherIrq);
  }

  /** Every timer interrupt of a run is one of its ring walks. */
  lemma {:induction false} TimersAreWalks(c: Config, k: Kern, traps: seq<Trap>)
    requires Inv(c, k) && Exec(c, k, traps).outcome.ToUser?
    ensures Timers(traps) <= Exec(c, k, traps).sweeps
    decreases |traps|
  {
    if traps != [] {
      StepTwoPhase(c, k, traps[0]);
      if traps[0].TimerIrq? {
        TimerPreempts(c, k);
      }
      TimersAreWalks(c, OnTrap(c, k, traps[0]).k, traps[1..]);
    }
  }

  lemma {:induction false} WaitingReturns(c: Config, k: Kern, traps: seq<Trap>, t: nat)
    requires Inv(c, k) && StaysWaiting(c, k, traps, t)
    ensures Exec(c, k, traps).outcome.ToUser?
    decreases |traps|
  {
    if traps != [] {
      StepTwoPhase(c, k, traps[0]);
      WaitingReturns(c, OnTrap(c, k, traps[0]).k, traps[1..], t);
    }
  }

  ghost predicate TimersWithin(timers: nat, wakes: nat, n: nat) {
    timers < (wakes + 1) * (n - 1)
  }

  lemma FewerTimers(timers: nat, r: Run, n: nat)
    requires timers <= r.sweeps && WithinTurns(r, n)
    ensures TimersWithin(timers, r.wakes, n)
  {
  }

  /** A thread that stays runnable is dispatched within N - 1 timer interrupts if there
      are no wake-ups, and within (w + 1)(N - 1) of them in a run with w wake-ups. Said
      the other way round: while it still waits, fewer have happened. */
  lemma PreemptionReachesAll(c: Config, k: Kern, traps: seq<Trap>, t: nat)
    requires Inv(c, k) && StaysWaiting(c, k, traps, t)
    ensures TimersWithin(Timers(traps), Exec(c, k, traps).wakes, c.Threads())
  {
    WaitingReturns(c, k, traps, t);
    TimersAreWalks(c, k, traps);
    BoundedWaiting(c, k, traps, t);
    FewerTimers(Timers(traps), Exec(c, k, traps), c.Threads());
  }

  // ------------------------------------------------------ the calls that return

  predicate InUserWindow(addr: Word, len: Word) {
    0x4000_0000 <= addr && addr + len <= 0x4010_0000
  }

  ghost predicate HasLiveThread(c: Config, k: Kern, p: nat)
    requires c.Valid()
  {
    exists t :: 0 <= t < |k.states| && c.Pid(t) == p && !k.states[t].Dead?
  }

  /** The calls that ask for a reschedule: yield, exit, and the kill of a live process. */
  ghost predicate GivesUpCpu(c: Config, k: Kern, trap: Trap)
    requires c.Valid() && trap.Svc?
  {
    || trap.num == 2 || trap.num == 3
    || (trap.num == 6 && trap.a0 < c.procs && HasLiveThread(c, k, trap.a0))
  }

  /** The answer of every call that does not sleep, by number: write, getpid, yield, exit,
      read, ps, kill, ticks. Negative answers are -1 for a bad call and -2 for a bad
      buffer. */
  ghost predicate AnswerIs(c: Config, k: Kern, trap: Trap, d: Done)
    requires c.Valid() && trap.Svc?
  {
    && d.tid == k.current && d.num == trap.num
    && (trap.num == 0 ==> d.result == if InUserWindow(trap.a1, trap.a2) then trap.a2 else -2)
    && (trap.num == 1 ==> d.result == k.current / c.perProc)
    && (trap.num == 2 || trap.num == 3 ==> d.result == 0)
    && (trap.num == 4 ==> d.result == if trap.a2 == 0 then 0 else -2)
    && (trap.num == 5 ==> if InUserWindow(trap.a0, trap.a1) then d.result == |d.bytes| && d.addr == trap.a0
                          else d.result == -2 && d.bytes == [])
    && (trap.num == 6 ==> d.result == if trap.a0 < c.procs then 0 else -1)
    && (trap.num == 7 ==> d.result == k.ticks)
    && (trap.num >= 8 ==> d.result == -1)
    && (trap.num != 5 ==> d.bytes == [])
  }

  /** Every call that does not sleep is answered at once; it reschedules exactly if it is
      one of those that give up the CPU, and otherwise leaves the kernel as it was. */
  lemma CallAnswers(c: Config, k: Kern, trap: Trap)
    requires Inv(c, k) && trap.Svc?
    requires !(trap.num == 4 && trap.a2 != 0 && InUserWindow(trap.a1, trap.a2))
    ensures var r := OnTrap(c, k, trap);
            && |r.done| == 1 && AnswerIs(c, k, trap, r.done[0])
            && r.sweeps == Bit(GivesUpCpu(c, k, trap))
            && (!GivesUpCpu(c, k, trap) ==> r.k == k && r.outcome.ToUser?)
  {
    ValidUserPtrIsContainment(trap.a1, trap.a2);
    ValidUserPtrIsContainment(trap.a0, trap.a1);
    StepTwoPhase(c, k, trap);
    QuickAnswers(c, k, trap);
  }

  lemma QuickAnswers(c: Config, k: Kern, trap: Trap)
    requires Shape(c, k) && !k.resched && trap.Svc? && !BlockingRead(trap)
    ensures var q := QuickCall(c, k, trap);
            && AnswerIs(c, k, trap, q.done)
            && (q.k.resched <==> GivesUpCpu(c, k, trap)) && (!q.k.resched ==> q.k == k)
  {
    ValidUserPtrIsContainment(trap.a1, trap.a2);
    ValidUserPtrIsContainment(trap.a0, trap.a1);
    PidIsQuotient(c, k.current);
    assert HasLiveThread(c, k, trap.a0) <==> Alive(c, k, trap.a0);
  }

  /** A yield hands the CPU to the next thread in line. */
  lemma YieldHandsOver(c: Config, k: Kern, trap: Trap)
    requires Inv(c, k) && trap.Svc? && trap.num == 2
    ensures NextInLine(k, OnTrap(c, k, trap).k)
  {
    StepTwoPhase(c, k, trap);
    var p := QuickCall(c, k, trap).k;
    assert OthersIdle(p) <==> OthersIdle(k);
  }

  // ---------------------------------------------------------- reads that sleep

  /** The trap is a read of at least one byte into the caller's window. */
  predicate ReadsWindow(trap: Trap) {
    trap.Svc? && trap.num == 4 && trap.a2 != 0 && InUserWindow(trap.a1, trap.a2)
  }

  lemma ReadsWindowIsBlocking(trap: Trap)
    ensures ReadsWindow(trap) <==> BlockingRead(trap)
  {
    if trap.Svc? {
      ValidUserPtrIsContainment(trap.a1, trap.a2);
    }
  }

  /** A reader that goes to sleep remembers the very buffer and length it was called
      with. */
  lemma ReadRemembered(c: Config, k: Kern, trap: Trap)
    requires Inv(c, k) && ReadsWindow(trap) && k.ring == [] && OnTrap(c, k, trap).outcome.ToUser?
    ensures var k' := OnTrap(c, k, trap).k;
            Shape(c, k') && k'.states[k.current].Blocked? && k'.kont[k.current] == InRead(trap.a1, trap.a2)
  {
    ReadsWindowIsBlocking(trap);
    StepTwoPhase(c, k, trap);
  }

  /** A sleeper's request does not change while it sleeps. */
  lemma SleeperKeepsRequest(c: Config, k: Kern, trap: Trap, t: nat)
    requires Inv(c, k) && t < c.Threads() && k.states[t].Blocked?
    requires Shape(c, OnTrap(c, k, trap).k) && OnTrap(c, k, trap).k.states[t].Blocked?
    ensures OnTrap(c, k, trap).k.kont[t] == k.kont[t]
  {
    StepTwoPhase(c, k, trap);
    EffectKeepsRequest(c, k, trap, t);
    WalkKeepsSleepers(c, trap, Effect(c, k, trap), OnTrap(c, k, trap), t);
  }

  lemma WalkKeepsSleepers(c: Config, trap: Trap, p: Kern, r: Step, t: nat)
    requires TwoPhase(c, trap, p, r) && t < c.Threads() && Shape(c, r.k) && r.k.states[t].Blocked?
    ensures p.states[t].Blocked? && r.k.kont == p.kont
  {
  }

  lemma EffectKeepsRequest(c: Config, k: Kern, trap: Trap, t: nat)
    requires Inv(c, k) && t < c.Threads() && k.states[t].Blocked?
    ensures var p := Effect(c, k, trap); Shape(c, p) && (p.states[t].Blocked? ==> p.kont[t] == k.kont[t])
  {
    if trap.RxIrq? && SomeoneWaits(k) {
      RxWakes(c, k, trap.bytes);
    }
  }

  /** The last read request of every thread: buffer and length, from its own trap. */
  type Requests = seq<Option<(Word, Word)>>

  function Ask(asked: Requests, k: Kern, trap: Trap): (asked': Requests)
    ensures |asked'| == |asked|
  {
    if trap.Svc? && trap.num == 4 && k.current < |asked| then asked[k.current := Some((trap.a1, trap.a2))] else asked
  }

  /** Sleeping reads sleep on their own requests. */
  ghost predicate AskedOk(c: Config, k: Kern, asked: Requests) {
    && |k.kont| == |asked| == c.Threads()
    && forall t :: 0 <= t < |asked| && k.kont[t].InRead? ==> asked[t] == Some((k.kont[t].addr, k.kont[t].len))
  }

  /** The answer to read(addr, len): 0 for length 0, -2 for a bad buffer, and otherwise
      between 1 and len bytes at addr, counted. */
  predicate Honours(d: Done, addr: Word, len: Word) {
    if len == 0 then d.result == 0 && d.bytes == []
    else if !InUserWindow(addr, len) then d.result == -2 && d.bytes == []
    else d.addr == addr && 1 <= |d.bytes| <= len && d.result == |d.bytes|
  }

  ghost predicate AllHonoured(done: seq<Done>, asked: Requests) {
    forall d :: d in done && d.num == 4 ==>
      d.tid < |asked| && asked[d.tid].Some? && Honours(d, asked[d.tid].value.0, asked[d.tid].value.1)
  }

  lemma StepHonours(c: Config, k: Kern, trap: Trap, asked: Requests)
    requires Inv(c, k) && AskedOk(c, k, asked) && SleepersChecked(k)
    ensures var r := OnTrap(c, k, trap);
            AllHonoured(r.done, Ask(asked, k, trap)) && AskedOk(c, r.k, Ask(asked, k, trap)) && SleepersChecked(r.k)
  {
    StepTwoPhase(c, k, trap);
    EffectHonours(c, k, trap, asked);
    assert OnTrap(c, k, trap).k.kont == Effect(c, k, trap).kont;
  }

  /** Every sleeping read has a buffer in the window. */
  ghost predicate SleepersChecked(k: Kern) {
    forall t :: 0 <= t < |k.kont| && k.kont[t].InRead? ==> InUserWindow(k.kont[t].addr, k.kont[t].len)
  }

  lemma EffectHonours(c: Config, k: Kern, trap: Trap, asked: Requests)
    requires Inv(c, k) && AskedOk(c, k, asked) && SleepersChecked(k)
    ensures var p, asked' := Effect(c, k, trap), Ask(asked, k, trap);
            AllHonoured(DoneBy(c, k, trap), asked') && AskedOk(c, p, asked') && SleepersChecked(p)
  {
    ReadsWindowIsBlocking(trap);
    if trap.RxIrq? && SomeoneWaits(k) {
      RxWakes(c, k, trap.bytes);
      var m := WokenBy(c, k, trap.bytes);
      ReadHonours(c, m, m.kont[m.current].addr, m.kont[m.current].len, asked);
    } else if BlockingRead(trap) {
      ReadHonours(c, k, trap.a1, trap.a2, Ask(asked, k, trap));
    } else if trap.Svc? {
      QuickAnswers(c, k, trap);
    }
  }

  lemma ReadHonours(c: Config, k: Kern, addr: Word, len: Count, asked: Requests)
    requires Shape(c, k) && |asked| == c.Threads() && asked[k.current] == Some((addr, len)) && InUserWindow(addr, len)
    requires forall t :: 0 <= t < |asked| && t != k.current && k.kont[t].InRead? ==>
               asked[t] == Some((k.kont[t].addr, k.kont[t].len)) && InUserWindow(k.kont[t].addr, k.kont[t].len)
    ensures var p := ReadEffect(c, k, addr, len);
            AllHonoured(ReadDone(k, addr, len), asked) && AskedOk(c, p, asked) && SleepersChecked(p)
  {
  }

  /** At every step of the run each read that finishes answers its caller's last
      request. */
  ghost predicate EachReadHonoured(c: Config, k: Kern, traps: seq<Trap>, asked: Requests)
    requires Inv(c, k)
    decreases |traps|
  {
    traps == [] ||
    var r := OnTrap(c, k, traps[0]); var asked' := Ask(asked, k, traps[0]);
    && AllHonoured(r.done, asked')
    && (r.outcome.ToUser? ==> (StepTwoPhase(c, k, traps[0]); EachReadHonoured(c, r.k, traps[1..], asked')))
  }

  lemma {:induction false} ReadsHonoured(c: Config, k: Kern, traps: seq<Trap>, asked: Requests)
    requires Inv(c, k) && AskedOk(c, k, asked) && SleepersChecked(k)
    ensures EachReadHonoured(c, k, traps, asked)
    decreases |traps|
  {
    if traps != [] {
      StepHonours(c, k, traps[0], asked);
      StepTwoPhase(c, k, traps[0]);
      if OnTrap(c, k, traps[0]).outcome.ToUser? {
        ReadsHonoured(c, OnTrap(c, k, traps[0]).k, traps[1..], Ask(asked, k, traps[0]));
      }
    }
  }

  /** Over every run from boot: for every read that finishes, however long it slept, the
      bytes go to the buffer of the caller's own last read trap, and are no more than it
      asked for. */
  lemma ReadsAnswerTheirCalls(c: Config, traps: seq<Trap>)
    requires c.Valid()
    ensures Inv(c, Boot(c)) && EachReadHonoured(c, Boot(c), traps, seq(c.Threads(), _ => None))
  {
    BootInv(c);
    ReadsHonoured(c, Boot(c), traps, seq(c.Threads(), _ => None));
  }

  // ------------------------------------------------------------ one caller's view

  /** Thread t is off the CPU whenever a trap of the run is taken. */
  ghost predicate OffCpuThroughout(c: Config, k: Kern, traps: seq<Trap>, t: nat)
    requires Inv(c, k)
    decreases |traps|
  {
    traps == [] ||
    (&& k.current != t
     && (OnTrap(c, k, traps[0]).outcome.ToUser? ==>
           (StepTwoPhase(c, k, traps[0]); OffCpuThroughout(c, OnTrap(c, k, traps[0]).k, traps[1..], t))))
  }

  ghost predicate OnlyHonours(done: seq<Done>, t: nat, addr: Word, len: Word) {
    forall d :: d in done && d.tid == t ==> d.num == 4 && Honours(d, addr, len)
  }

  /** While a thread is off the CPU, only its pending read can be answered, and only as
      requested. */
  lemma {:induction false} PendingReadHonoured(c: Config, k: Kern, traps: seq<Trap>, asked: Requests, t: nat,
                                               addr: Word, len: Word)
    requires Inv(c, k) && AskedOk(c, k, asked) && SleepersChecked(k) && OffCpuThroughout(c, k, traps, t)
    requires t < c.Threads() && asked[t] == Some((addr, len))
    ensures OnlyHonours(Exec(c, k, traps).done, t, addr, len)
    decreases |traps|
  {
    if traps != [] {
      StepHonours(c, k, traps[0], asked);
      OthersOnlyRead(c, k, traps[0], t);
      StepTwoPhase(c, k, traps[0]);
      var s := OnTrap(c, k, traps[0]);
      if s.outcome.ToUser? {
        PendingReadHonoured(c, s.k, traps[1..], Ask(asked, k, traps[0]), t, addr, len);
        assert Exec(c, k, traps).done == s.done + Exec(c, s.k, traps[1..]).done;
      }
    }
  }

  lemma OthersOnlyRead(c: Config, k: Kern, trap: Trap, t: nat)
    requires Inv(c, k) && t != k.current
    ensures forall d :: d in OnTrap(c, k, trap).done && d.tid == t ==> d.num == 4
  {
    StepTwoPhase(c, k, trap);
    if trap.RxIrq? && SomeoneWaits(k) {
      RxWakes(c, k, trap.bytes);
    }
  }
}
