/** What one trap step guarantees: how it can end, what it does to thread states, the
    wait queue, the ring and pending system calls. */
module KernelProperties {
  import opened Tasks
  import opened RxRing
  import opened KernelSpec
  import opened KernelInvariant
  import opened KernelSteps
  import opened UserPointer

  // -------------------------------------------------------- how a step can end

  ghost predicate ProcessAlone(c: Config, k: Kern)
    requires Shape(c, k)
  {
    forall t :: 0 <= t < |k.states| && c.Pid(t) != c.Pid(k.current) ==> !Runnable(k.states[t])
  }

  /** A receive interrupt without input wakes a reader while nobody else can run. */
  ghost predicate WakesForNothing(k: Kern, trap: Trap) {
    && trap.RxIrq? && Drain(k.ring, trap.bytes) == [] && SomeoneWaits(k)
    && k.current < |k.states| && k.states[k.current].Dead?
  }

  /** A step halts exactly on a user fault that leaves nobody to run, and spins exactly
      when a reader finds no input and nobody else can run. Otherwise it returns to
      user mode. It never takes more than two context switches, and takes two exactly
      when an interrupt without input wakes a reader who goes back to sleep. */
  lemma StepEnds(c: Config, k: Kern, trap: Trap)
    requires Inv(c, k)
    ensures var r := OnTrap(c, k, trap);
            && Switches(r.events) <= 2
            && (Switches(r.events) == 2 <==>
                  trap.RxIrq? && SomeoneWaits(k) && Drain(k.ring, trap.bytes) == [] && !k.states[k.current].Dead?)
            && (r.outcome.Halts? <==> trap.Fault? && ProcessAlone(c, k))
            && (r.outcome.Spins? <==> (BlockingRead(trap) && k.ring == [] && OthersIdle(k)) || WakesForNothing(k, trap))
  {
    StepTwoPhase(c, k, trap);
    EffectEnds(c, k, trap);
    SwitchCount(c, k, trap);
  }

  lemma {:induction false} SwitchesConcat(a: seq<Event>, b: seq<Event>)
    ensures Switches(a + b) == Switches(a) + Switches(b)
  {
    if a == [] {
      assert a + b == b;
    } else {
      assert (a + b)[1..] == a[1..] + b;
      SwitchesConcat(a[1..], b);
    }
  }

  lemma {:induction false} NoSwitches(events: seq<Event>)
    requires forall i :: 0 <= i < |events| ==> !events[i].SwitchTo?
    ensures Switches(events) == 0
  {
    if events != [] {
      NoSwitches(events[1..]);
    }
  }

  lemma HopSwitches(switch: bool, next: nat)
    ensures Switches(HopTo(switch, next)) == Bit(switch)
  {
    assert Switches([]) == 0;
    assert [SwitchTo(next)][1..] == [];
  }

  lemma SwitchCount(c: Config, k: Kern, trap: Trap)
    requires Inv(c, k)
    ensures var p, n := Effect(c, k, trap), Switches(OnTrap(c, k, trap).events);
            && n == Wakes(k, trap) + Bit(p.resched && !OthersIdle(p))
            && (n == 2 <==> trap.RxIrq? && SomeoneWaits(k) && Drain(k.ring, trap.bytes) == []
                            && !k.states[k.current].Dead?)
  {
    StepTwoPhase(c, k, trap);
    var p, r := Effect(c, k, trap), OnTrap(c, k, trap);
    HandlerSwitchesNot(c, k, trap);
    CountParts(Wakes(k, trap) > 0, p.current, EventsBy(c, k, trap), p.resched && !OthersIdle(p), r.k.current);
    if trap.RxIrq? && SomeoneWaits(k) {
      WokenAlone(c, k, trap.bytes);
    }
  }

  lemma CountParts(wake: bool, w: nat, mid: seq<Event>, switch: bool, next: nat)
    requires Switches(mid) == 0
    ensures Switches(HopTo(wake, w) + mid + HopTo(switch, next)) == Bit(wake) + Bit(switch)
  {
    HopSwitches(wake, w);
    HopSwitches(switch, next);
    SwitchesConcat(HopTo(wake, w), mid);
    SwitchesConcat(HopTo(wake, w) + mid, HopTo(switch, next));
  }

  lemma HandlerSwitchesNot(c: Config, k: Kern, trap: Trap)
    requires Inv(c, k)
    ensures Switches(EventsBy(c, k, trap)) == 0
  {
    var events := EventsBy(c, k, trap);
    assert forall i :: 0 <= i < |events| ==> !events[i].SwitchTo?;
    NoSwitches(events);
  }

  lemma EffectEnds(c: Config, k: Kern, trap: Trap)
    requires Inv(c, k)
    ensures var p := Effect(c, k, trap);
            && (p.resched && OthersIdle(p) && p.states[p.current].Blocked? <==>
                  (BlockingRead(trap) && k.ring == [] && OthersIdle(k)) || WakesForNothing(k, trap))
            && (trap.Fault? ==> p.resched && !p.states[p.current].Blocked?
                                && (OthersIdle(p) <==> ProcessAlone(c, k)))
  {
    var p := Effect(c, k, trap);
    match trap
    case RxIrq(bytes) =>
      if SomeoneWaits(k) {
        WokenAlone(c, k, bytes);
      }
    case Svc(_, _, a1, a2) =>
      if BlockingRead(trap) && k.ring == [] {
        BlockOthers(c, k, a1, a2);
      }
    case Fault =>
      assert forall t :: 0 <= t < |k.states| && c.Pid(t) != c.Pid(k.current) ==> p.states[t] == k.states[t];
      assert OthersIdle(p) <==> ProcessAlone(c, k);
    case _ =>
  }

  lemma WokenAlone(c: Config, k: Kern, bytes: seq<Byte>)
    requires Inv(c, k) && SomeoneWaits(k)
    ensures var m := WokenBy(c, k, bytes); var p := Effect(c, k, RxIrq(bytes));
            && p.current == m.current
            && (p.resched <==> m.ring == [])
            && (p.resched ==> p.states[p.current].Blocked? && (OthersIdle(p) <==> k.states[k.current].Dead?))
  {
    RxWakes(c, k, bytes);
    var m := WokenBy(c, k, bytes);
    WokenIdle(k.(ring := Drain(k.ring, bytes)), FirstLive(k.states, k.waitq));
    BlockOthers(c, m, m.kont[m.current].addr, m.kont[m.current].len);
  }

  lemma WokenIdle(k: Kern, i: nat)
    requires i < |k.waitq| && k.waitq[i] < |k.states| && k.current < |k.states| && k.waitq[i] != k.current
    requires k.states[k.waitq[i]].Blocked? && !k.states[k.current].Blocked?
    requires Runnable(k.states[k.current]) || NobodyRunnable(k)
    ensures OthersIdle(Woken(k, i)) <==> k.states[k.current].Dead?
  {
    var m := Woken(k, i);
    assert Runnable(m.states[k.current]) <==> Runnable(k.states[k.current]);
    assert forall t :: 0 <= t < |k.states| && t != m.current && t != k.current ==> m.states[t] == k.states[t];
  }

  /** One more turn of a spinning reader's loop: look at the ring, and if it is still
      empty block and reschedule. */
  function Retry(c: Config, k: Kern): (s: Switch)
    requires Shape(c, k) && k.kont[k.current].InRead?
    ensures Shape(c, s.k)
  {
    var kont := k.kont[k.current];
    if k.ring != [] then Switch(k, false, false)
    else Schedule(c, Block(c, k, kont.addr, kont.len))
  }

  ghost function RetryTimes(c: Config, k: Kern, n: nat): Kern
    requires Shape(c, k)
    decreases n
  {
    if n == 0 || !k.kont[k.current].InRead? then k else RetryTimes(c, Retry(c, k).k, n - 1)
  }

  ghost predicate Stuck(c: Config, k: Kern) {
    && Shape(c, k) && k.kont[k.current].InRead? && k.states[k.current].Blocked?
    && k.ring == [] && !k.resched && k.hint == None
    && NoDup(k.waitq) && k.current in k.waitq && NobodyRunnable(k)
  }

  /** A spinning step is stuck for good: with interrupts masked the ring stays empty,
      and any number of further turns leaves the whole kernel state as it is, with
      the reader queued exactly once. */
  lemma SpinIsFixedPoint(c: Config, k: Kern, trap: Trap, n: nat)
    requires Inv(c, k) && OnTrap(c, k, trap).outcome.Spins?
    ensures var k' := OnTrap(c, k, trap).k;
            Stuck(c, k') && !Retry(c, k').switched && RetryTimes(c, k', n) == k'
  {
    StepTwoPhase(c, k, trap);
    EffectEnds(c, k, trap);
    var k' := OnTrap(c, k, trap).k;
    assert Stuck(c, k') by {
      var p := Effect(c, k, trap);
      assert p.ring == [] by {
        if trap.RxIrq? {
          RxWakes(c, k, trap.bytes);
        }
      }
    }
    StuckStays(c, k', n);
  }

  lemma {:induction false} StuckStays(c: Config, k: Kern, n: nat)
    requires Stuck(c, k)
    ensures !Retry(c, k).switched && RetryTimes(c, k, n) == k
  {
    var kont := k.kont[k.current];
    var b := Block(c, k, kont.addr, kont.len);
    assert b == k.(resched := true);
    assert Retry(c, k) == Switch(k, false, true);
    if n > 0 {
      StuckStays(c, k, n - 1);
    }
  }

  // ------------------------------------------------------------- thread states

  /** DEAD is permanent, with one exception: a thread that died on the CPU because
      nobody else could run, and then issues a read on an empty ring. That read never
      returns. */
  lemma DeadStaysDead(c: Config, k: Kern, trap: Trap, t: nat)
    requires Inv(c, k) && t < c.Threads() && k.states[t].Dead?
    ensures var r := OnTrap(c, k, trap);
            && Shape(c, r.k)
            && (r.k.states[t].Dead? <==> !(t == k.current && BlockingRead(trap) && k.ring == []))
            && (!r.k.states[t].Dead? ==> r.outcome.Spins?)
  {
    StepTwoPhase(c, k, trap);
    EffectOnDead(c, k, trap, t);
    EffectEnds(c, k, trap);
  }

  lemma EffectOnDead(c: Config, k: Kern, trap: Trap, t: nat)
    requires Inv(c, k) && t < c.Threads() && k.states[t].Dead?
    ensures var p := Effect(c, k, trap);
            && Shape(c, p)
            && p.states[t] == (if t == k.current && BlockingRead(trap) && k.ring == [] then Blocked else Dead)
            && (t != k.current ==> p.current != t)
            && (p.current == t && p.states[t].Blocked? ==> p.resched && OthersIdle(p))
  {
    if trap.RxIrq? && SomeoneWaits(k) {
      RxWakes(c, k, trap.bytes);
    }
  }

  /** Nobody is resurrected: a thread that was DEAD and off the CPU never gets it. */
  lemma DeadNeverDispatched(c: Config, k: Kern, trap: Trap, t: nat)
    requires Inv(c, k) && t < c.Threads() && k.states[t].Dead? && t != k.current
    ensures OnTrap(c, k, trap).k.current != t
  {
    StepTwoPhase(c, k, trap);
    EffectOnDead(c, k, trap, t);
  }

  /** A fault retires the whole process, and its threads never run again. */
  lemma FaultRetires(c: Config, k: Kern)
    requires Inv(c, k)
    ensures var r := OnTrap(c, k, Fault);
            && Shape(c, r.k)
            && (forall t :: 0 <= t < c.Threads() && c.Pid(t) == c.Pid(k.current) ==> r.k.states[t].Dead?)
            && (r.outcome.ToUser? ==> c.Pid(r.k.current) != c.Pid(k.current))
  {
    FaultTwoPhase(c, k);
    CondemnedBase(c, k);
  }

  /** The traps that are fatal to thread t. */
  predicate Fatal(c: Config, k: Kern, trap: Trap, t: nat)
    requires c.Valid()
  {
    || (trap.Fault? && c.Pid(t) == c.Pid(k.current))
    || (trap.Svc? && trap.num == SYS_EXIT && t == k.current)
    || (trap.Svc? && trap.num == SYS_KILL && trap.a0 < c.procs && c.Pid(t) == trap.a0)
  }

  /** A live thread dies exactly of its own exit, or of a kill or a fault of its own
      process. */
  lemma DiesExactlyWhenFatal(c: Config, k: Kern, trap: Trap, t: nat)
    requires Inv(c, k) && t < c.Threads() && !k.states[t].Dead?
    ensures Shape(c, OnTrap(c, k, trap).k)
    ensures OnTrap(c, k, trap).k.states[t].Dead? <==> Fatal(c, k, trap, t)
  {
    StepTwoPhase(c, k, trap);
    EffectFatal(c, k, trap, t);
  }

  lemma EffectFatal(c: Config, k: Kern, trap: Trap, t: nat)
    requires Inv(c, k) && t < c.Threads() && !k.states[t].Dead?
    ensures Shape(c, Effect(c, k, trap))
    ensures Effect(c, k, trap).states[t].Dead? <==> Fatal(c, k, trap, t)
  {
    match trap
    case RxIrq(bytes) =>
      RxNotFatal(c, k, bytes, t);
    case Svc(_, _, a1, a2) =>
      if BlockingRead(trap) {
        ReadNotFatal(c, k, a1, a2, t);
      } else {
        QuickFatal(c, k, trap, t);
      }
    case _ =>
  }

  lemma RxNotFatal(c: Config, k: Kern, bytes: seq<Byte>, t: nat)
    requires Inv(c, k) && t < c.Threads() && !k.states[t].Dead?
    ensures var p := Effect(c, k, RxIrq(bytes)); Shape(c, p) && !p.states[t].Dead?
  {
    if SomeoneWaits(k) {
      RxWakes(c, k, bytes);
      var m := WokenBy(c, k, bytes);
      ReadNotFatal(c, m, m.kont[m.current].addr, m.kont[m.current].len, t);
    }
  }

  lemma ReadNotFatal(c: Config, k: Kern, addr: Word, len: Count, t: nat)
    requires Shape(c, k) && t < c.Threads() && !k.states[t].Dead?
    ensures var p := ReadEffect(c, k, addr, len); Shape(c, p) && !p.states[t].Dead?
  {
  }

  lemma QuickFatal(c: Config, k: Kern, trap: Trap, t: nat)
    requires Shape(c, k) && t < c.Threads() && !k.states[t].Dead? && trap.Svc? && !BlockingRead(trap)
    ensures QuickCall(c, k, trap).k.states[t].Dead? <==> Fatal(c, k, trap, t)
  {
  }

  /** Every call that takes a buffer fails with E_FAULT exactly when the buffer does not
      lie inside the user window, and then it changes nothing. A read of length 0 is
      answered with 0 whatever its pointer. */
  lemma BadBufferRejected(c: Config, k: Kern, trap: Trap, addr: Word, len: Word)
    requires Inv(c, k) && trap.Svc? && trap.num in {SYS_WRITE, SYS_READ, SYS_PS}
    requires (addr, len) == if trap.num == SYS_PS then (trap.a0, trap.a1) else (trap.a1, trap.a2)
    ensures var r := OnTrap(c, k, trap);
            && (!(USER_VIRT_BASE <= addr && addr + len <= USER_STACK_TOP) && !(trap.num == SYS_READ && len == 0) <==>
                r == Step(k, ToUser, 0, [Done(k.current, trap.num, E_FAULT, 0, [])], [Answer(E_FAULT)]))
            && (trap.num == SYS_READ && len == 0 ==>
                r == Step(k, ToUser, 0, [Done(k.current, trap.num, 0, 0, [])], [Answer(0)]))
  {
    ValidUserPtrIsContainment(addr, len);
    StepTwoPhase(c, k, trap);
  }

  // ------------------------------------------------------------- lost wake-ups

  /** Nobody sleeps while there is input. */
  ghost predicate NoLostWakeup(k: Kern) {
    forall t :: 0 <= t < |k.states| && k.states[t].Blocked? ==> k.ring == []
  }

  ghost predicate NoOtherWaiter(k: Kern, w: nat) {
    forall t :: 0 <= t < |k.states| && t != w ==> !k.states[t].Blocked?
  }

  /** The burst is no larger than the woken reader's request, or nobody else waits. */
  ghost predicate BurstFits(c: Config, k: Kern, trap: Trap)
    requires Inv(c, k)
  {
    trap.RxIrq? && SomeoneWaits(k) ==>
      var w := k.waitq[FirstLive(k.states, k.waitq)];
      || (k.kont[w].InRead? && |Drain(k.ring, trap.bytes)| <= k.kont[w].len)
      || NoOtherWaiter(k, w)
  }

  /** A step keeps "nobody sleeps while there is input" exactly when its burst fits:
      the wake, the switch and the resumed read are one uninterruptible step. */
  lemma WakeupKeptIffBurstFits(c: Config, k: Kern, trap: Trap)
    requires Inv(c, k) && NoLostWakeup(k) && OnTrap(c, k, trap).outcome.ToUser?
    ensures NoLostWakeup(OnTrap(c, k, trap).k) <==> BurstFits(c, k, trap)
  {
    StepTwoPhase(c, k, trap);
    FinalKeepsWakeup(c, trap, Effect(c, k, trap), OnTrap(c, k, trap));
    EffectOnWakeup(c, k, trap);
  }

  lemma FinalKeepsWakeup(c: Config, trap: Trap, p: Kern, r: Step)
    requires TwoPhase(c, trap, p, r) && r.outcome.ToUser?
    ensures NoLostWakeup(r.k) <==> NoLostWakeup(p)
  {
    assert r.k.ring == p.ring;
    assert forall t :: 0 <= t < |p.states| ==> (r.k.states[t].Blocked? <==> p.states[t].Blocked?);
  }

  lemma EffectOnWakeup(c: Config, k: Kern, trap: Trap)
    requires Inv(c, k) && NoLostWakeup(k)
    ensures NoLostWakeup(Effect(c, k, trap)) <==> BurstFits(c, k, trap)
  {
    var p := Effect(c, k, trap);
    if trap.RxIrq? {
      if SomeoneWaits(k) {
        RxOnWakeup(c, k, trap.bytes);
      } else {
        assert forall t :: 0 <= t < |k.states| ==> !k.states[t].Blocked?;
      }
    } else if BlockingRead(trap) {
    } else {
      assert p.ring == k.ring;
    }
  }

  lemma RxOnWakeup(c: Config, k: Kern, bytes: seq<Byte>)
    requires Inv(c, k) && SomeoneWaits(k)
    ensures NoLostWakeup(Effect(c, k, RxIrq(bytes))) <==> BurstFits(c, k, RxIrq(bytes))
  {
    RxWakes(c, k, bytes);
    var m := WokenBy(c, k, bytes);
    ReadOnWakeup(c, m, m.kont[m.current].addr, m.kont[m.current].len);
    WokenWaiters(k.(ring := Drain(k.ring, bytes)), FirstLive(k.states, k.waitq));
  }

  lemma WokenWaiters(k: Kern, i: nat)
    requires i < |k.waitq| && k.waitq[i] < |k.states| && k.current < |k.states|
    ensures NoOtherWaiter(Woken(k, i), k.waitq[i]) <==> NoOtherWaiter(k, k.waitq[i])
  {
    var m := Woken(k, i);
    assert forall t :: 0 <= t < |k.states| && t != m.current ==> (m.states[t].Blocked? <==> k.states[t].Blocked?);
  }

  /** After a read, nobody else sleeps on input exactly when it emptied the ring. */
  lemma ReadOnWakeup(c: Config, m: Kern, addr: Word, len: Count)
    requires Shape(c, m) && Runnable(m.states[m.current])
    ensures NoLostWakeup(ReadEffect(c, m, addr, len)) <==>
            |m.ring| <= len || NoOtherWaiter(m, m.current)
  {
    var p := ReadEffect(c, m, addr, len);
    assert p.ring == [] <==> |m.ring| <= len;
    assert forall t :: 0 <= t < |m.states| && t != m.current ==> p.states[t] == m.states[t];
  }
}
