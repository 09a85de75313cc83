/** A trap step in closed form. Every step from a state satisfying the boundary
    invariant is the handler's own effect, followed by at most one walk of the ring;
    the recursion through blocked readers never goes deeper. */
module KernelSteps {
  import opened Tasks
  import opened RxRing
  import opened KernelSpec
  import opened KernelInvariant

  // -------------------------------------------------------- the two phases

  function Taken(k: Kern, len: Count): nat {
    if len < |k.ring| then len else |k.ring|
  }

  /** sys_read's own effect: take input, or join the queue. */
  function ReadEffect(c: Config, k: Kern, addr: Word, len: Count): Kern
    requires Shape(c, k)
  {
    if k.ring == [] then Block(c, k, addr, len)
    else k.(ring := k.ring[Taken(k, len)..], kont := k.kont[k.current := AtTail])
  }

  function ReadDone(k: Kern, addr: Word, len: Count): seq<Done> {
    if k.ring == [] then []
    else [Done(k.current, SYS_READ, Taken(k, len), addr, k.ring[..Taken(k, len)])]
  }

  function ReadEvents(k: Kern, addr: Word, len: Count): seq<Event> {
    if k.ring == [] then []
    else Stores(addr, k.ring[..Taken(k, len)]) + [Answer(Taken(k, len))]
  }

  ghost predicate SomeoneWaits(k: Kern) {
    FirstLive(k.states, k.waitq) < |k.waitq|
  }

  /** The earliest live waiter just after a receive interrupt switched it in. */
  ghost function WokenBy(c: Config, k: Kern, bytes: seq<Byte>): Kern
    requires Inv(c, k) && SomeoneWaits(k)
  {
    Woken(k.(ring := Drain(k.ring, bytes)), FirstLive(k.states, k.waitq))
  }

  /** The kernel state once the handler has done its work. */
  ghost function Effect(c: Config, k: Kern, trap: Trap): Kern
    requires Inv(c, k)
  {
    match trap
    case TimerIrq => Tick(k)
    case RxIrq(bytes) =>
      if SomeoneWaits(k) then
        RxWakes(c, k, bytes);
        var m := WokenBy(c, k, bytes);
        ReadEffect(c, m, m.kont[m.current].addr, m.kont[m.current].len)
      else k.(ring := Drain(k.ring, bytes), waitq := [])
    case OtherIrq => k
    case Svc(_, _, a1, a2) =>
      if BlockingRead(trap) then ReadEffect(c, k, a1, a2) else QuickCall(c, k, trap).k
    case Fault => Condemned(c, k)
  }

  ghost function DoneBy(c: Config, k: Kern, trap: Trap): seq<Done>
    requires Inv(c, k)
  {
    match trap
    case RxIrq(bytes) =>
      if SomeoneWaits(k) then
        RxWakes(c, k, bytes);
        var m := WokenBy(c, k, bytes);
        ReadDone(m, m.kont[m.current].addr, m.kont[m.current].len)
      else []
    case Svc(_, _, a1, a2) =>
      if BlockingRead(trap) then ReadDone(k, a1, a2)
      else [QuickCall(c, k, trap).done]
    case _ => []
  }

  /** What the handler itself does to the machine, between the switch to a woken reader
      and the final one. */
  ghost function EventsBy(c: Config, k: Kern, trap: Trap): seq<Event>
    requires Inv(c, k)
  {
    match trap
    case RxIrq(bytes) =>
      if SomeoneWaits(k) then
        RxWakes(c, k, bytes);
        var m := WokenBy(c, k, bytes);
        ReadEvents(m, m.kont[m.current].addr, m.kont[m.current].len)
      else []
    case Svc(_, _, a1, a2) =>
      if BlockingRead(trap) then ReadEvents(k, a1, a2)
      else
        var q := QuickCall(c, k, trap);
        q.io + [Answer(q.done.result)]
    case _ => []
  }

  function HopTo(switch: bool, next: nat): seq<Event> {
    if switch then [SwitchTo(next)] else []
  }

  ghost function Wakes(k: Kern, trap: Trap): nat {
    Bit(trap.RxIrq? && SomeoneWaits(k))
  }

  /** The ring walk from p ended with k' on the CPU: the nearest runnable thread. */
  ghost predicate Swept(c: Config, p: Kern, k': Kern) {
    && Base(c, p) && SwitchedStates(p, k')
    && k'.current != p.current && Runnable(p.states[k'.current])
    && k' == p.(resched := false, states := k'.states, current := k'.current)
    && forall t :: 0 <= t < |p.states| && t != p.current && Runnable(p.states[t]) ==>
         Distance(p.current, k'.current, |p.states|) <= Distance(p.current, t, |p.states|)
  }

  /** r is the handler effect p followed by the walk, if p asks for one. */
  ghost predicate TwoPhase(c: Config, trap: Trap, p: Kern, r: Step) {
    && Base(c, p) && p.hint == None
    && (r.outcome.ToUser? ==> Inv(c, r.k))
    && (!p.resched ==> r.k == p && r.outcome.ToUser? && r.sweeps == 0)
    && (p.resched ==> r.sweeps == 1)
    && (p.resched && OthersIdle(p) ==>
          && r.k == p.(resched := false)
          && r.outcome == if p.states[p.current].Blocked? then Spins else if trap.Fault? then Halts else ToUser)
    && (p.resched && !OthersIdle(p) ==> r.outcome.ToUser? && Swept(c, p, r.k))
  }

  lemma ReadTwoPhase(c: Config, k: Kern, addr: Word, len: Count, trap: Trap)
    requires Mid(c, k) && (Runnable(k.states[k.current]) || NobodyRunnable(k))
    ensures var r := ReadLoop(c, k, addr, len); var p := ReadEffect(c, k, addr, len);
            && TwoPhase(c, trap, p, r)
            && r.done == ReadDone(k, addr, len)
            && r.events == ReadEvents(k, addr, len) + HopTo(p.resched && !OthersIdle(p), r.k.current)
  {
    if k.ring == [] {
      ReadBlocks(c, k, addr, len);
      var b := Block(c, k, addr, len);
      BlockQueues(c, k, addr, len);
      BlockOthers(c, k, addr, len);
      ScheduleEffect(c, b);
    } else {
      ReadGets(c, k, addr, len);
    }
  }

  lemma TailTwoPhase(c: Config, k: Kern, done: seq<Done>, events: seq<Event>, trap: Trap)
    requires Mid(c, k.(resched := false)) && k.kont[k.current].AtTail? && !trap.Fault?
    requires !k.resched ==> Inv(c, k)
    ensures var r := Tail(c, k, done, events);
            && TwoPhase(c, trap, k, r) && r.done == done
            && r.events == events + HopTo(k.resched && !OthersIdle(k), r.k.current)
  {
    if k.resched {
      TailEffect(c, k, done, events);
      ScheduleEffect(c, k);
    }
  }

  lemma QuickKeepsMid(c: Config, k: Kern, trap: Trap)
    requires Inv(c, k) && trap.Svc? && !BlockingRead(trap)
    ensures var q := QuickCall(c, k, trap).k;
            && Mid(c, q.(resched := false))
            && (!q.resched ==> q == k)
  {
    if trap.num == SYS_KILL {
      KillKeepsBase(c, k, trap.a0);
    }
  }

  lemma FaultTwoPhase(c: Config, k: Kern)
    requires Inv(c, k)
    ensures var r := OnTrap(c, k, Fault); var dead := Condemned(c, k);
            && TwoPhase(c, Fault, dead, r) && r.done == []
            && r.events == HopTo(!OthersIdle(dead), r.k.current)
  {
    CondemnedBase(c, k);
    ScheduleEffect(c, Condemned(c, k));
    var s := Schedule(c, Condemned(c, k));
    if s.switched {
      assert Resume(c, s.k) == Step(s.k, ToUser, 0, [], []);
    }
  }

  lemma CondemnedBase(c: Config, k: Kern)
    requires Inv(c, k)
    ensures Base(c, Condemned(c, k)) && Condemned(c, k).states[k.current].Dead?
  {
    KillKeepsBase(c, k, c.Pid(k.current));
  }

  lemma RxTwoPhase(c: Config, k: Kern, bytes: seq<Byte>)
    requires Inv(c, k) && SomeoneWaits(k)
    ensures var r := OnTrap(c, k, RxIrq(bytes)); var p := Effect(c, k, RxIrq(bytes));
            && TwoPhase(c, RxIrq(bytes), p, r)
            && r.done == DoneBy(c, k, RxIrq(bytes))
            && r.events == HopTo(true, p.current) + EventsBy(c, k, RxIrq(bytes))
                           + HopTo(p.resched && !OthersIdle(p), r.k.current)
  {
    RxWakes(c, k, bytes);
    var m := WokenBy(c, k, bytes);
    var addr, len, p := m.kont[m.current].addr, m.kont[m.current].len, Effect(c, k, RxIrq(bytes));
    ReadTwoPhase(c, m, addr, len, RxIrq(bytes));
    var r := ReadLoop(c, m, addr, len);
    EventsAside(c, RxIrq(bytes), p, r, [SwitchTo(m.current)] + r.events);
    InFront(SwitchTo(m.current), ReadEvents(m, addr, len), HopTo(p.resched && !OthersIdle(p), r.k.current));
  }

  lemma EventsAside(c: Config, trap: Trap, p: Kern, r: Step, events: seq<Event>)
    requires TwoPhase(c, trap, p, r)
    ensures TwoPhase(c, trap, p, r.(events := events))
  {
  }

  lemma InFront(e: Event, a: seq<Event>, b: seq<Event>)
    ensures [e] + (a + b) == [e] + a + b
  {
  }

  lemma RxIdleTwoPhase(c: Config, k: Kern, bytes: seq<Byte>)
    requires Inv(c, k) && !SomeoneWaits(k)
    ensures var r := OnTrap(c, k, RxIrq(bytes)); var p := Effect(c, k, RxIrq(bytes));
            TwoPhase(c, RxIrq(bytes), p, r) && !p.resched && r.done == [] && r.events == []
  {
    RxIdle(c, k, bytes);
    assert forall t :: 0 <= t < |k.states| ==> !k.states[t].Blocked?;
  }

  lemma QuickTwoPhase(c: Config, k: Kern, trap: Trap)
    requires Inv(c, k) && trap.Svc? && !BlockingRead(trap)
    ensures var r := OnTrap(c, k, trap); var q := QuickCall(c, k, trap);
            && TwoPhase(c, trap, q.k, r)
            && r.done == [q.done]
            && r.events == q.io + [Answer(q.done.result)] + HopTo(q.k.resched && !OthersIdle(q.k), r.k.current)
  {
    QuickKeepsMid(c, k, trap);
    var q := QuickCall(c, k, trap);
    TailTwoPhase(c, q.k, [q.done], q.io + [Answer(q.done.result)], trap);
  }

  /** The normal form of a step: state, finished calls and events. */
  ghost predicate StepForm(c: Config, k: Kern, trap: Trap)
    requires Inv(c, k)
  {
    var r, p := OnTrap(c, k, trap), Effect(c, k, trap);
    && TwoPhase(c, trap, p, r)
    && r.done == DoneBy(c, k, trap)
    && r.events == HopTo(Wakes(k, trap) > 0, p.current) + EventsBy(c, k, trap)
                   + HopTo(p.resched && !OthersIdle(p), r.k.current)
  }

  lemma IrqForm(c: Config, k: Kern, trap: Trap)
    requires Inv(c, k) && (trap.TimerIrq? || trap.OtherIrq?)
    ensures StepForm(c, k, trap)
  {
    TailTwoPhase(c, if trap.TimerIrq? then Tick(k) else k, [], [], trap);
  }

  lemma RxForm(c: Config, k: Kern, bytes: seq<Byte>)
    requires Inv(c, k)
    ensures StepForm(c, k, RxIrq(bytes))
  {
    if SomeoneWaits(k) {
      RxTwoPhase(c, k, bytes);
    } else {
      RxIdleTwoPhase(c, k, bytes);
    }
  }

  lemma SvcForm(c: Config, k: Kern, trap: Trap)
    requires Inv(c, k) && trap.Svc?
    ensures StepForm(c, k, trap)
  {
    if BlockingRead(trap) {
      ReadTwoPhase(c, k, trap.a1, trap.a2, trap);
    } else {
      QuickTwoPhase(c, k, trap);
    }
  }

  lemma FaultForm(c: Config, k: Kern)
    requires Inv(c, k)
    ensures StepForm(c, k, Fault)
  {
    FaultTwoPhase(c, k);
  }

  /** Every step is the handler's own effect, followed by at most one ring walk. */
  lemma StepTwoPhase(c: Config, k: Kern, trap: Trap)
    requires Inv(c, k)
    ensures var r := OnTrap(c, k, trap); var p := Effect(c, k, trap);
            && TwoPhase(c, trap, p, r)
            && r.done == DoneBy(c, k, trap)
            && r.events == HopTo(Wakes(k, trap) > 0, p.current) + EventsBy(c, k, trap)
                           + HopTo(p.resched && !OthersIdle(p), r.k.current)
  {
    assert StepForm(c, k, trap) by {
      match trap
      case RxIrq(bytes) => RxForm(c, k, bytes);
      case Svc(_, _, _, _) => SvcForm(c, k, trap);
      case Fault => FaultForm(c, k);
      case _ => IrqForm(c, k, trap);
    }
  }
}
