/** The kernel as a transition system. A step is one trap out of user mode, up to the
    next return to user mode; interrupts stay masked throughout, so a step is atomic.
    context_switch is a coroutine transfer: each thread remembers where in the kernel
    it left off (`kont`), and a switch resumes the other thread's continuation. */
module KernelSpec {
  import opened Tasks
  import opened RxRing
  import opened UserPointer
  import opened Writers
  import WaitQueue

  /** Where a thread continues when it is switched back in. */
  datatype Kont =
    | AtTail                           // nothing left to do but return to user mode
    | InRead(addr: Word, len: Count)    // inside sys_read with no byte copied yet
    | InFault                          // inside user_fault_kill, about to panic

  datatype Kern = Kern(
    states: seq<TaskState>,
    current: nat,
    resched: bool,          // need_reschedule
    hint: Option<nat>,      // wake_hint
    waitq: seq<nat>,
    ring: seq<Byte>,
    kont: seq<Kont>,
    ticks: Word)            // tick_count

  datatype Trap =
    | TimerIrq
    | RxIrq(bytes: seq<Byte>)          // the chip hands over this burst
    | OtherIrq                         // spurious or unregistered line
    | Svc(num: Word, a0: Word, a1: Word, a2: Word)
    | Fault

  /** A system call that finished: its caller and number, the value stored in the
      caller's saved r0, and the bytes stored at addr onwards. */
  datatype Done = Done(tid: nat, num: Word, result: int, addr: Word, bytes: seq<Byte>)

  /** What the kernel does to the machine, in the order in which its code does it. All
      but SwitchTo are done on behalf of the thread on the CPU. */
  datatype Event =
    | SwitchTo(next: nat)              // context_switch
    | Store(va: Word, v: Byte)         // a byte into the caller's buffer
    | Print(va: Word)                  // a byte of the caller's buffer to the console
    | Answer(value: int)               // ctx->r[0] = ret

  /** The stores that fill a buffer, and the console output that empties one. */
  function Stores(addr: Word, bytes: seq<Byte>): seq<Event> {
    seq(|bytes|, i requires 0 <= i < |bytes| => Store((addr + i) % WORD, bytes[i]))
  }

  function Prints(addr: Word, len: nat): seq<Event> {
    seq(len, i requires 0 <= i < len => Print((addr + i) % WORD))
  }

  datatype Outcome = ToUser | Halts | Spins

  /** `sweeps` counts the reschedules served by the ring walk rather than by the wake
      hint. */
  datatype Step = Step(k: Kern, outcome: Outcome, sweeps: nat, done: seq<Done>, events: seq<Event>)

  /** The number of context switches. */
  function Switches(events: seq<Event>): nat {
    if events == [] then 0 else Bit(events[0].SwitchTo?) + Switches(events[1..])
  }

  const SYS_WRITE := 0
  const SYS_GETPID := 1
  const SYS_YIELD := 2
  const SYS_EXIT := 3
  const SYS_READ := 4
  const SYS_PS := 5
  const SYS_KILL := 6
  const SYS_TICKS := 7

  const E_BADCALL := -1
  const E_FAULT := -2

  ghost predicate Shape(c: Config, k: Kern) {
    && c.Valid()
    && |k.states| == |k.kont| == c.Threads()
    && k.current < c.Threads()
    && (k.hint.Some? ==> k.hint.value < c.Threads())
    && forall i :: 0 <= i < |k.waitq| ==> k.waitq[i] < c.Threads()
  }

  /** thread_init_all: every thread READY at its first entry, thread 0 current. */
  function Boot(c: Config): (k: Kern)
    requires c.Valid()
    ensures Shape(c, k)
  {
    Kern(seq(c.Threads(), _ => Ready), 0, false, None, [], [], seq(c.Threads(), _ => AtTail), 0)
  }

  // ---------------------------------------------------------------- scheduler

  /** The thread i places after prev on the ring. */
  function RingNext(prev: nat, i: nat, n: nat): (idx: nat)
    requires prev < n && i < n
    ensures idx < n
  {
    var start := if prev + 1 < n then prev + 1 else 0;
    if start + i < n then start + i else start + i - n
  }

  /** (start + i) % NUM_THREADS with start == (prev->tid + 1) % NUM_THREADS. */
  lemma RingNextIsMod(prev: nat, i: nat, n: nat)
    requires prev < n && i < n
    ensures RingNext(prev, i, n) == ((prev + 1) % n + i) % n
  {
    ModOnce(prev + 1, n);
    ModOnce((prev + 1) % n + i, n);
  }

  function NextTick(ticks: Word): Word {
    (ticks + 1) % WORD
  }

  /** timer_tick: count, and ask for a reschedule. */
  function Tick(k: Kern): Kern {
    k.(ticks := NextTick(k.ticks), resched := true)
  }

  /** The round-robin walk: the first runnable thread other than prev. */
  function Sweep(states: seq<TaskState>, prev: nat, i: nat): (r: Option<nat>)
    requires prev < |states|
    ensures r.Some? ==> r.value < |states| && r.value != prev && Runnable(states[r.value])
    decreases |states| - i
  {
    if i >= |states| then None
    else
      var idx := RingNext(prev, i, |states|);
      if idx != prev && Runnable(states[idx]) then Some(idx) else Sweep(states, prev, i + 1)
  }

  function PerformSwitch(c: Config, k: Kern, cand: nat): (r: Kern)
    requires Shape(c, k) && cand < c.Threads()
    ensures Shape(c, r)
  {
    var s := if k.states[k.current].Running? then k.states[k.current := Ready] else k.states;
    k.(states := s[cand := Running], current := cand)
  }

  datatype Switch = Switch(k: Kern, switched: bool, swept: bool)

  function Schedule(c: Config, k: Kern): (r: Switch)
    requires Shape(c, k)
    ensures Shape(c, r.k)
    ensures r.switched ==> r.k.states[r.k.current].Running?
  {
    if !k.resched then Switch(k, false, false)
    else
      var k1 := k.(resched := false, hint := None);
      if k.hint.Some? && k.hint.value != k.current && Runnable(k.states[k.hint.value]) then
        Switch(PerformSwitch(c, k1, k.hint.value), true, false)
      else
        match Sweep(k.states, k.current, 0)
        case Some(cand) => Switch(PerformSwitch(c, k1, cand), true, true)
        case None => Switch(k1, false, true)
  }

  /** scheduler_block_on_input up to its call of schedule(). */
  function Block(c: Config, k: Kern, addr: Word, len: Count): (r: Kern)
    requires Shape(c, k)
    ensures Shape(c, r)
  {
    k.(states := k.states[k.current := Blocked],
       kont := k.kont[k.current := InRead(addr, len)],
       waitq := WaitQueue.Enqueue(k.waitq, k.current, c.Threads()),
       resched := true)
  }

  /** scheduler_wake_reader: drop corpses from the front, wake the first live waiter. */
  function WakeReader(c: Config, k: Kern): (r: Kern)
    requires Shape(c, k)
    ensures Shape(c, r)
    decreases |k.waitq|
  {
    if k.waitq == [] then k
    else
      var t := k.waitq[0];
      var k1 := k.(waitq := k.waitq[1..]);
      if !k.states[t].Blocked? then WakeReader(c, k1)
      else k1.(states := k.states[t := Ready], hint := Some(t), resched := true)
  }

  function KillProcess(c: Config, states: seq<TaskState>, p: nat): (r: seq<TaskState>)
    requires c.Valid()
    ensures |r| == |states|
  {
    seq(|states|, t requires 0 <= t < |states| => if c.Pid(t) == p then Dead else states[t])
  }

  // -------------------------------------------------- resuming a continuation

  ghost function Awake(states: seq<TaskState>): set<nat> {
    set t | 0 <= t < |states| && !states[t].Blocked?
  }

  function Bit(b: bool): nat {
    if b then 1 else 0
  }

  /** Run the current thread's continuation until somebody returns to user mode. */
  function Resume(c: Config, k: Kern): Step
    requires Shape(c, k) && !k.resched && !k.states[k.current].Blocked?
    decreases Awake(k.states), 1
  {
    match k.kont[k.current]
    case AtTail => Step(k, ToUser, 0, [], [])
    case InRead(addr, len) => ReadLoop(c, k, addr, len)
    case InFault => Step(k, Halts, 0, [], [])
  }

  /** The loop of sys_read with nothing copied yet, up to the next return to user
      mode. On an empty ring the caller blocks; if no other thread can run it keeps
      the CPU and retries for ever (Spins). */
  function ReadLoop(c: Config, k: Kern, addr: Word, len: Count): Step
    requires Shape(c, k) && !k.resched && !k.states[k.current].Blocked?
    decreases Awake(k.states), 0
  {
    if k.ring == [] then
      var s := Schedule(c, Block(c, k, addr, len));
      if s.switched then
        BlockShrinksAwake(c, k, addr, len);
        var r := Resume(c, s.k);
        r.(sweeps := r.sweeps + Bit(s.swept), events := [SwitchTo(s.k.current)] + r.events)
      else Step(s.k, Spins, 1, [], [])
    else
      // The copy loop empties the ring or fills the buffer, and the schedule() at
      // the tail of handle_svc finds the flag clear.
      var n := if len < |k.ring| then len else |k.ring|;
      Step(k.(ring := k.ring[n..], kont := k.kont[k.current := AtTail]), ToUser, 0,
           [Done(k.current, SYS_READ, n, addr, k.ring[..n])],
           Stores(addr, k.ring[..n]) + [Answer(n)])
  }

  lemma BlockShrinksAwake(c: Config, k: Kern, addr: Word, len: Count)
    requires Shape(c, k) && !k.states[k.current].Blocked?
    requires Schedule(c, Block(c, k, addr, len)).switched
    ensures !Schedule(c, Block(c, k, addr, len)).k.resched
    ensures Awake(Schedule(c, Block(c, k, addr, len)).k.states) < Awake(k.states)
  {
    var k' := Schedule(c, Block(c, k, addr, len)).k;
    assert k.current in Awake(k.states) && k.current !in Awake(k'.states);
    assert Awake(k'.states) <= Awake(k.states);
  }

  /** schedule() at the tail of handle_svc or handle_irq, then whoever runs next; `done`
      and `events` are what the handler did before. */
  function Tail(c: Config, k: Kern, done: seq<Done>, events: seq<Event>): Step
    requires Shape(c, k)
  {
    var s := Schedule(c, k);
    if s.switched then
      var r := Resume(c, s.k);
      Step(r.k, r.outcome, r.sweeps + Bit(s.swept), done + r.done, events + [SwitchTo(s.k.current)] + r.events)
    else Step(s.k, ToUser, Bit(s.swept), done, events)
  }

  // -------------------------------------------------------------------- traps

  predicate BlockingRead(trap: Trap) {
    trap.Svc? && trap.num == SYS_READ && trap.a2 != 0 && ValidUserPtr(trap.a1, trap.a2)
  }

  predicate Alive(c: Config, k: Kern, p: nat)
    requires c.Valid()
  {
    exists t :: 0 <= t < |k.states| && c.Pid(t) == p && !k.states[t].Dead?
  }

  function RowOf(c: Config, k: Kern, t: nat): Row
    requires Shape(c, k) && t < c.Threads()
  {
    PidInRange(c, t);
    Row(c.names[c.Pid(t)], c.Index(t), k.states[t])
  }

  function Rows(c: Config, k: Kern): seq<Row>
    requires Shape(c, k)
  {
    seq(c.Threads(), t requires 0 <= t < c.Threads() => RowOf(c, k, t))
  }

  /** What sys_ps puts into a buffer of this size. */
  function PsText(c: Config, k: Kern, size: Word): seq<Byte>
    requires Shape(c, k)
  {
    Bytes(Clip(Listing(Rows(c, k)), PsRoom(size)))
  }

  /** What a handler that does not block leaves: the new state, the finished call, and
      its accesses to the caller's buffer. */
  datatype Reply = Reply(k: Kern, done: Done, io: seq<Event>)

  function Value(k: Kern, k': Kern, trap: Trap, v: int): Reply
    requires trap.Svc?
  {
    Reply(k', Done(k.current, trap.num, v, 0, []), [])
  }

  function QuickCall(c: Config, k: Kern, trap: Trap): (r: Reply)
    requires Shape(c, k) && trap.Svc? && !BlockingRead(trap)
    ensures Shape(c, r.k) && r.k.kont == k.kont && r.k.current == k.current && r.k.ring == k.ring
    ensures r.done.tid == k.current && r.done.num == trap.num
  {
    if trap.num == SYS_WRITE then
      if ValidUserPtr(trap.a1, trap.a2)
      then Value(k, k, trap, trap.a2).(io := Prints(trap.a1, trap.a2))
      else Value(k, k, trap, E_FAULT)
    else if trap.num == SYS_GETPID then
      Value(k, k, trap, c.Pid(k.current))
    else if trap.num == SYS_YIELD then
      Value(k, k.(resched := true), trap, 0)
    else if trap.num == SYS_EXIT then
      Value(k, k.(states := k.states[k.current := Dead], resched := true), trap, 0)
    else if trap.num == SYS_READ then
      Value(k, k, trap, if trap.a2 == 0 then 0 else E_FAULT)
    else if trap.num == SYS_PS then
      if ValidUserPtr(trap.a0, trap.a1) then
        var text := PsText(c, k, trap.a1);
        Reply(k, Done(k.current, trap.num, |text|, trap.a0, text), Stores(trap.a0, text))
      else Value(k, k, trap, E_FAULT)
    else if trap.num == SYS_KILL then
      if trap.a0 >= c.procs then Value(k, k, trap, E_BADCALL)
      else if !Alive(c, k, trap.a0) then Value(k, k, trap, 0)
      else Value(k, k.(states := KillProcess(c, k.states, trap.a0), resched := true), trap, 0)
    else if trap.num == SYS_TICKS then
      Value(k, k, trap, k.ticks)
    else
      Value(k, k, trap, E_BADCALL)
  }

  /** user_fault_kill up to its call of schedule(): the whole process is retired. */
  function Condemned(c: Config, k: Kern): (r: Kern)
    requires Shape(c, k)
    ensures Shape(c, r)
  {
    k.(states := KillProcess(c, k.states, c.Pid(k.current)),
       kont := k.kont[k.current := InFault],
       resched := true)
  }

  /** One trap taken by the current thread while it runs in user mode. */
  function OnTrap(c: Config, k: Kern, trap: Trap): Step
    requires Shape(c, k) && !k.resched && k.kont[k.current].AtTail? && !k.states[k.current].Blocked?
  {
    match trap
    case TimerIrq => Tail(c, Tick(k), [], [])
    case RxIrq(bytes) => Tail(c, WakeReader(c, k.(ring := Drain(k.ring, bytes))), [], [])
    case OtherIrq => Tail(c, k, [], [])
    case Svc(_, _, a1, a2) =>
      if BlockingRead(trap) then ReadLoop(c, k, a1, a2)
      else
        var q := QuickCall(c, k, trap);
        Tail(c, q.k, [q.done], q.io + [Answer(q.done.result)])
    case Fault =>
      var s := Schedule(c, Condemned(c, k));
      if s.switched then
        var r := Resume(c, s.k);
        r.(sweeps := r.sweeps + Bit(s.swept), events := [SwitchTo(s.k.current)] + r.events)
      else Step(s.k, Halts, 1, [], [])
  }
}
