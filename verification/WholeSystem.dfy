/** The kernel's transition system and the word-level machine together. The machine
    runs user code, the entry code, context_switch and C code in between; which switches
    and results a trap leads to is what KernelSpec says. Seen from user mode, the machine
    is then the abstract kernel with one private register set per thread. */
module WholeSystem {
  import opened Tasks
  import KS = KernelSpec
  import KI = KernelInvariant
  import KT = KernelSteps
  import SM = SwitchMachine
  import SP = SwitchProofs

  // ------------------------------------------------- the machine, seen from outside

  /** What matters of the machine: who runs, who is inside which trap, everybody's user
      context, and how much of the fault stack is used up. */
  datatype Abs = Abs(current: nat, mode: seq<SM.Mode>, users: seq<SM.User>, abt: nat)

  ghost function AbsOf(b: SM.Board, m: SM.Mach): Abs
    requires SM.Stacks(b, m)
  {
    Abs(m.current, m.mode, Users(b, m), |m.abt|)
  }

  ghost function Users(b: SM.Board, m: SM.Mach): (us: seq<SM.User>)
    requires SM.Stacks(b, m)
    ensures |us| == b.cfg.Threads() && UsersOk(us)
    ensures forall t :: 0 <= t < |us| ==> us[t] == SM.UserOf(b, m, t)
  {
    seq(b.cfg.Threads(), t requires 0 <= t < b.cfg.Threads() => SM.UserOf(b, m, t))
  }

  ghost predicate UsersOk(us: seq<SM.User>) {
    forall t :: 0 <= t < |us| ==> |us[t].r| == 13
  }

  ghost predicate AbsOk(a: Abs) {
    a.current < |a.mode| == |a.users| && UsersOk(a.users)
  }

  function ModeAfter(op: SM.Op, mode: SM.Mode): SM.Mode {
    match op
    case Trap(entry) => (match entry case SvcEntry => SM.InSvc case IrqEntry => SM.InIrq case FaultEntry => SM.InFault)
    case Return => SM.InUser
    case _ => mode
  }

  ghost function AbsApply(a: Abs, op: SM.Op): Abs
    requires AbsOk(a)
  {
    Abs(if op.Switch? then op.next else a.current,
        a.mode[a.current := ModeAfter(op, a.mode[a.current])],
        a.users[a.current := SP.UserAfter(op, a.users[a.current])],
        if op.Trap? && op.entry.FaultEntry? then a.abt + SM.SVC_FRAME else a.abt)
  }

  /** One operation of the machine is one operation of the view. */
  lemma ApplyRefines(b: SM.Board, m: SM.Mach, op: SM.Op)
    requires SM.Stacks(b, m) && SM.Enabled(b, m, op)
    ensures SM.Stacks(b, SM.Apply(b, m, op, true))
    ensures AbsOf(b, SM.Apply(b, m, op, true)) == AbsApply(AbsOf(b, m), op)
  {
    SP.OpKeepsUsers(b, m, op, true, m.current);
    var m' := SM.Apply(b, m, op, true);
    var us, us' := Users(b, m), AbsApply(AbsOf(b, m), op).users;
    forall t | 0 <= t < b.cfg.Threads()
      ensures Users(b, m')[t] == us'[t]
    {
      SP.OpKeepsUsers(b, m, op, true, t);
    }
    assert Users(b, m') == us';
    ModesFollow(b, m, op);
  }

  lemma ModesFollow(b: SM.Board, m: SM.Mach, op: SM.Op)
    requires SM.Stacks(b, m) && SM.Enabled(b, m, op)
    ensures var m', a := SM.Apply(b, m, op, true), AbsApply(AbsOf(b, m), op);
            m'.mode == a.mode && m'.current == a.current && |m'.abt| == a.abt
  {
  }

  /** C code inside the kernel and TLB refills leave the view alone. */
  predicate Quiet(op: SM.Op) {
    op.Work? || op.TlbFill?
  }

  function Erase(ops: seq<SM.Op>): seq<SM.Op> {
    if ops == [] then []
    else if Quiet(ops[0]) then Erase(ops[1..])
    else [ops[0]] + Erase(ops[1..])
  }

  ghost predicate AbsRunOk(a: Abs, ops: seq<SM.Op>)
    decreases |ops|
  {
    AbsOk(a) && (ops == [] || AbsRunOk(AbsApply(a, ops[0]), ops[1..]))
  }

  ghost function AbsRun(a: Abs, ops: seq<SM.Op>): Abs
    requires AbsRunOk(a, ops)
    decreases |ops|
  {
    if ops == [] then a else AbsRun(AbsApply(a, ops[0]), ops[1..])
  }

  ghost predicate Runs(a: Abs, ops: seq<SM.Op>, a': Abs) {
    AbsRunOk(a, ops) && AbsRun(a, ops) == a'
  }

  /** A machine run does to the view what its operations do, C code and TLB traffic
      erased. */
  lemma {:induction false} RunRefines(b: SM.Board, m: SM.Mach, ops: seq<SM.Op>)
    requires SM.Stacks(b, m) && SP.RunOk(b, m, ops, true)
    ensures Runs(AbsOf(b, m), Erase(ops), AbsOf(b, SP.RunOps(b, m, ops, true)))
    decreases |ops|
  {
    if ops != [] {
      var op := ops[0];
      ApplyRefines(b, m, op);
      var m' := SM.Apply(b, m, op, true);
      RunRefines(b, m', ops[1..]);
      assert SP.RunOps(b, m, ops, true) == SP.RunOps(b, m', ops[1..], true);
      FirstOp(AbsOf(b, m), op, AbsOf(b, m'), ops, AbsOf(b, SP.RunOps(b, m', ops[1..], true)));
    }
  }

  lemma FirstOp(a: Abs, op: SM.Op, a1: Abs, ops: seq<SM.Op>, end: Abs)
    requires AbsOk(a) && a1 == AbsApply(a, op) && ops != [] && ops[0] == op && Runs(a1, Erase(ops[1..]), end)
    ensures Runs(a, Erase(ops), end)
  {
    if Quiet(op) {
      assert a1 == a;
    } else {
      assert Erase(ops)[1..] == Erase(ops[1..]);
    }
  }

  lemma {:induction false} Chain(a: Abs, x: seq<SM.Op>, a': Abs, y: seq<SM.Op>, a'': Abs)
    requires Runs(a, x, a') && Runs(a', y, a'')
    ensures Runs(a, x + y, a'')
    decreases |x|
  {
    if x == [] {
      assert x + y == y;
    } else {
      assert (x + y)[1..] == x[1..] + y;
      Chain(AbsApply(a, x[0]), x[1..], a', y, a'');
    }
  }

  lemma OneRun(a: Abs, op: SM.Op, a': Abs)
    requires AbsOk(a) && AbsOk(a') && AbsApply(a, op) == a'
    ensures Runs(a, [op], a')
  {
    assert [op][1..] == [];
  }

  // ------------------------------------------------------- what one trap leads to

  function EntryOf(trap: KS.Trap): SM.Entry {
    match trap
    case Svc(_, _, _, _) => SM.SvcEntry
    case Fault => SM.FaultEntry
    case _ => SM.IrqEntry
  }

  /** ctx->r[0] = (uint32_t)ret */
  function AsWord(v: int): Word {
    v % WORD
  }

  /** w is v as a 32-bit register holds it. */
  predicate Low32(w: int, v: int) {
    && 0 <= w < 0x1_0000_0000 && (w - v) % 0x1_0000_0000 == 0
    && (0 <= v < 0x1_0000_0000 ==> w == v)
    && (-0x1_0000_0000 <= v < 0 ==> w == 0x1_0000_0000 + v)
  }

  lemma AsWordIsLow32(v: int)
    ensures Low32(AsWord(v), v)
  {
  }

  function Hop(switch: bool, next: nat): seq<SM.Op> {
    if switch then [SM.Switch(next)] else []
  }

  function Results(done: seq<KS.Done>): seq<SM.Op> {
    if done == [] then [] else [SM.SetResult(AsWord(done[0].result))] + Results(done[1..])
  }

  /** An event of the kernel as an operation of the processor; accesses to user memory
      leave the registers alone. */
  function OpsOf(events: seq<KS.Event>): seq<SM.Op> {
    if events == [] then []
    else
      (match events[0]
       case SwitchTo(next) => [SM.Switch(next)]
       case Answer(v) => [SM.SetResult(AsWord(v))]
       case _ => [])
      + OpsOf(events[1..])
  }

  /** The operations a trap that returns to user mode performs, C code left aside: entry,
      the kernel's own events in their order, exit. */
  ghost function Skeleton(c: Config, k: KS.Kern, trap: KS.Trap): seq<SM.Op>
    requires KI.Inv(c, k)
  {
    [SM.Trap(EntryOf(trap))] + OpsOf(KS.OnTrap(c, k, trap).events) + [SM.Return]
  }

  lemma {:induction false} OpsOfConcat(x: seq<KS.Event>, y: seq<KS.Event>)
    ensures OpsOf(x + y) == OpsOf(x) + OpsOf(y)
  {
    if x == [] {
      assert x + y == y;
    } else {
      assert (x + y)[1..] == x[1..] + y;
      OpsOfConcat(x[1..], y);
    }
  }

  lemma {:induction false} AccessesLeaveCpu(io: seq<KS.Event>)
    requires forall i :: 0 <= i < |io| ==> io[i].Store? || io[i].Print?
    ensures OpsOf(io) == []
  {
    if io != [] {
      AccessesLeaveCpu(io[1..]);
    }
  }

  lemma OneOp(e: KS.Event)
    ensures e.SwitchTo? ==> OpsOf([e]) == [SM.Switch(e.next)]
    ensures e.Answer? ==> OpsOf([e]) == [SM.SetResult(AsWord(e.value))]
  {
    assert [e][1..] == [];
  }

  lemma CallOps(io: seq<KS.Event>, d: KS.Done)
    requires forall i :: 0 <= i < |io| ==> io[i].Store? || io[i].Print?
    ensures OpsOf(io + [KS.Answer(d.result)]) == Results([d])
  {
    OpsOfConcat(io, [KS.Answer(d.result)]);
    AccessesLeaveCpu(io);
    OneOp(KS.Answer(d.result));
    assert [d][1..] == [];
  }

  lemma ReadOps(k: KS.Kern, addr: Word, len: Count)
    ensures OpsOf(KT.ReadEvents(k, addr, len)) == Results(KT.ReadDone(k, addr, len))
  {
    if k.ring != [] {
      var n := KT.Taken(k, len);
      CallOps(KS.Stores(addr, k.ring[..n]), KT.ReadDone(k, addr, len)[0]);
    }
  }

  lemma HandlerOps(c: Config, k: KS.Kern, trap: KS.Trap)
    requires KI.Inv(c, k)
    ensures OpsOf(KT.EventsBy(c, k, trap)) == Results(KT.DoneBy(c, k, trap))
  {
    match trap
    case RxIrq(bytes) =>
      if KT.SomeoneWaits(k) {
        KI.RxWakes(c, k, bytes);
        var m := KT.WokenBy(c, k, bytes);
        ReadOps(m, m.kont[m.current].addr, m.kont[m.current].len);
      }
    case Svc(_, _, a1, a2) =>
      if KS.BlockingRead(trap) {
        ReadOps(k, a1, a2);
      } else {
        var q := KS.QuickCall(c, k, trap);
        CallOps(q.io, q.done);
      }
    case _ =>
  }

  /** In closed form: the switch to a woken reader, the result if a call finishes, the
      switch of the final reschedule. */
  lemma SkeletonForm(c: Config, k: KS.Kern, trap: KS.Trap)
    requires KI.Inv(c, k)
    ensures var p, r := KT.Effect(c, k, trap), KS.OnTrap(c, k, trap);
            Skeleton(c, k, trap) ==
              [SM.Trap(EntryOf(trap))] + Hop(KT.Wakes(k, trap) > 0, p.current) + Results(r.done)
              + Hop(p.resched && !KI.OthersIdle(p), r.k.current) + [SM.Return]
  {
    KT.StepTwoPhase(c, k, trap);
    HandlerOps(c, k, trap);
    var p, r := KT.Effect(c, k, trap), KS.OnTrap(c, k, trap);
    var wake, w, switch, next := KT.Wakes(k, trap) > 0, p.current, p.resched && !KI.OthersIdle(p), r.k.current;
    ThreeParts(wake, w, KT.EventsBy(c, k, trap), switch, next);
    Flatten([SM.Trap(EntryOf(trap))], Hop(wake, w), Results(r.done), Hop(switch, next), [SM.Return]);
  }

  lemma Flatten(v: seq<SM.Op>, w: seq<SM.Op>, x: seq<SM.Op>, y: seq<SM.Op>, z: seq<SM.Op>)
    ensures v + (w + x + y) + z == v + w + x + y + z
  {
  }

  lemma ThreeParts(wake: bool, w: nat, mid: seq<KS.Event>, switch: bool, next: nat)
    ensures OpsOf(KT.HopTo(wake, w) + mid + KT.HopTo(switch, next)) == Hop(wake, w) + OpsOf(mid) + Hop(switch, next)
  {
    OpsOfConcat(KT.HopTo(wake, w), mid);
    OpsOfConcat(KT.HopTo(wake, w) + mid, KT.HopTo(switch, next));
    OneOp(KS.SwitchTo(w));
    OneOp(KS.SwitchTo(next));
  }

  function Answered(u: SM.User, v: int): SM.User
    requires |u.r| == 13
  {
    u.(r := [AsWord(v)] + u.r[1..])
  }

  /** Every finished call puts its result into its own caller's r0. */
  ghost function Deliver(us: seq<SM.User>, done: seq<KS.Done>): (us': seq<SM.User>)
    requires UsersOk(us)
    ensures |us'| == |us| && UsersOk(us')
    decreases |done|
  {
    if done == [] then us
    else
      var t := done[0].tid;
      Deliver(if t < |us| then us[t := Answered(us[t], done[0].result)] else us, done[1..])
  }

  /** A parked thread's trap frame is of the kind its continuation needs. */
  predicate ModeFits(kont: KS.Kont, mode: SM.Mode) {
    && !mode.InUser?
    && (kont.InRead? ==> mode.InSvc?)
    && (kont.InFault? <==> mode.InFault?)
  }

  ghost predicate ModesOk(k: KS.Kern, mode: seq<SM.Mode>) {
    && k.current < |mode| == |k.kont| && mode[k.current].InUser?
    && forall t :: 0 <= t < |mode| && t != k.current ==> ModeFits(k.kont[t], mode[t])
  }

  /** At most one call finished, and it was t's. */
  ghost predicate AtMostOne(done: seq<KS.Done>, t: nat) {
    |done| <= 1 && forall d :: d in done ==> d.tid == t
  }

  /** Whose code runs when the result is stored. */
  lemma DoneIsCurrents(c: Config, k: KS.Kern, trap: KS.Trap)
    requires KI.Inv(c, k)
    ensures var p, done := KT.Effect(c, k, trap), KS.OnTrap(c, k, trap).done;
            && p.current < c.Threads()
            && (KT.Wakes(k, trap) == 0 ==> p.current == k.current)
            && (KT.Wakes(k, trap) > 0 ==> p.current != k.current && k.kont[p.current].InRead?)
            && AtMostOne(done, p.current)
  {
    KT.StepTwoPhase(c, k, trap);
    DoneByCurrent(c, k, trap);
  }

  lemma DoneByCurrent(c: Config, k: KS.Kern, trap: KS.Trap)
    requires KI.Inv(c, k)
    ensures var p := KT.Effect(c, k, trap);
            && (KT.Wakes(k, trap) == 0 ==> p.current == k.current)
            && (KT.Wakes(k, trap) > 0 ==> p.current != k.current && k.kont[p.current].InRead?)
            && AtMostOne(KT.DoneBy(c, k, trap), p.current)
  {
    if trap.RxIrq? && KT.SomeoneWaits(k) {
      KI.RxWakes(c, k, trap.bytes);
    }
  }

  ghost predicate Boundary(c: Config, k: KS.Kern, a: Abs) {
    && KI.Inv(c, k) && AbsOk(a) && |a.users| == c.Threads()
    && a.current == k.current && ModesOk(k, a.mode)
  }

  /** The view after user code of the current thread reached u and took this trap. */
  ghost function NextView(c: Config, k: KS.Kern, a: Abs, u: SM.User, trap: KS.Trap): Abs
    requires Boundary(c, k, a) && |u.r| == 13 && KS.OnTrap(c, k, trap).outcome.ToUser?
  {
    KT.StepTwoPhase(c, k, trap);
    var r := KS.OnTrap(c, k, trap);
    After(a, u, EntryOf(trap), r.done, r.k.current)
  }

  /** Through the view, a round of user code and one trap is one step of KernelSpec. */
  lemma SkeletonIsStep(c: Config, k: KS.Kern, a: Abs, u: SM.User, trap: KS.Trap)
    requires Boundary(c, k, a) && |u.r| == 13 && KS.OnTrap(c, k, trap).outcome.ToUser?
    ensures Runs(a, [SM.UserRun(u)] + Skeleton(c, k, trap), NextView(c, k, a, u, trap))
    ensures forall d :: d in KS.OnTrap(c, k, trap).done ==>
              d.tid < |a.users| && Low32(NextView(c, k, a, u, trap).users[d.tid].r[0], d.result)
  {
    KT.StepTwoPhase(c, k, trap);
    SkeletonForm(c, k, trap);
    DoneIsCurrents(c, k, trap);
    var p, r := KT.Effect(c, k, trap), KS.OnTrap(c, k, trap);
    SegmentRuns(a, u, EntryOf(trap), KT.Wakes(k, trap) > 0, p.current, r.done,
                p.resched && !KI.OthersIdle(p), r.k.current);
    DeliveredOne(Entered(a, u, EntryOf(trap)).users, r.done, p.current);
  }

  lemma DeliveredOne(us: seq<SM.User>, done: seq<KS.Done>, t: nat)
    requires UsersOk(us) && AtMostOne(done, t) && t < |us|
    ensures forall d :: d in done ==> d.tid == t && Low32(Deliver(us, done)[t].r[0], d.result)
  {
    if done != [] {
      AsWordIsLow32(done[0].result);
      assert done == [done[0]] && done[1..] == [];
      var us' := us[t := Answered(us[t], done[0].result)];
      assert done[0] in done;
      assert Deliver(us', done[1..]) == us';
    }
  }

  lemma NextBoundary(c: Config, k: KS.Kern, a: Abs, u: SM.User, trap: KS.Trap)
    requires Boundary(c, k, a) && |u.r| == 13 && KS.OnTrap(c, k, trap).outcome.ToUser?
    ensures Boundary(c, KS.OnTrap(c, k, trap).k, NextView(c, k, a, u, trap))
  {
    KT.StepTwoPhase(c, k, trap);
    ModesKept(c, k, a.mode, trap);
  }

  lemma SegmentRuns(a: Abs, u: SM.User, entry: SM.Entry, wake: bool, w: nat, done: seq<KS.Done>,
                    switch: bool, next: nat)
    requires AbsOk(a) && |u.r| == 13 && a.mode[a.current].InUser?
    requires w < |a.mode| && (wake || w == a.current) && next < |a.mode| && (switch || next == w)
    requires AtMostOne(done, w)
    ensures Runs(a,
                 [SM.UserRun(u)]
                 + ([SM.Trap(entry)] + Hop(wake, w) + Results(done) + Hop(switch, next) + [SM.Return]),
                 After(a, u, entry, done, next))
  {
    var a1 := Entered(a, u, entry);
    StartRuns(a, u, entry);
    HopRuns(a1, wake, w);
    var a2 := a1.(current := w);
    ResultRuns(a2, done);
    var a3 := a2.(users := Deliver(a2.users, done));
    HopRuns(a3, switch, next);
    ReturnRuns(a3.(current := next));
    Join(a, [SM.UserRun(u)] + [SM.Trap(entry)], a1, Hop(wake, w), a2, Results(done), a3,
         Hop(switch, next), a3.(current := next), [SM.Return], After(a, u, entry, done, next));
    Bracket(SM.UserRun(u), SM.Trap(entry), Hop(wake, w), Results(done), Hop(switch, next), [SM.Return]);
  }

  lemma StartRuns(a: Abs, u: SM.User, entry: SM.Entry)
    requires AbsOk(a) && |u.r| == 13 && a.mode[a.current].InUser?
    ensures Runs(a, [SM.UserRun(u)] + [SM.Trap(entry)], Entered(a, u, entry))
  {
    var a0 := a.(users := a.users[a.current := u]);
    assert AbsApply(a, SM.UserRun(u)) == a0;
    OneRun(a, SM.UserRun(u), a0);
    var us := a.users[a.current := if entry.FaultEntry? then SM.GONE else u];
    assert AbsApply(a0, SM.Trap(entry)).users == us;
    OneRun(a0, SM.Trap(entry), Entered(a, u, entry));
    Chain(a, [SM.UserRun(u)], a0, [SM.Trap(entry)], Entered(a, u, entry));
  }

  lemma ReturnRuns(a: Abs)
    requires AbsOk(a)
    ensures Runs(a, [SM.Return], a.(mode := a.mode[a.current := SM.InUser]))
  {
    assert AbsApply(a, SM.Return).users == a.users;
    OneRun(a, SM.Return, a.(mode := a.mode[a.current := SM.InUser]));
  }

  lemma Join(a: Abs, v: seq<SM.Op>, a1: Abs, w: seq<SM.Op>, a2: Abs, x: seq<SM.Op>, a3: Abs,
             y: seq<SM.Op>, a4: Abs, z: seq<SM.Op>, a5: Abs)
    requires Runs(a, v, a1) && Runs(a1, w, a2) && Runs(a2, x, a3) && Runs(a3, y, a4) && Runs(a4, z, a5)
    ensures Runs(a, v + w + x + y + z, a5)
  {
    Chain(a, v, a1, w, a2);
    Chain(a, v + w, a2, x, a3);
    Chain(a, v + w + x, a3, y, a4);
    Chain(a, v + w + x + y, a4, z, a5);
  }

  lemma Bracket(o1: SM.Op, o2: SM.Op, w: seq<SM.Op>, x: seq<SM.Op>, y: seq<SM.Op>, z: seq<SM.Op>)
    ensures [o1] + [o2] + w + x + y + z == [o1] + ([o2] + w + x + y + z)
  {
  }

  /** The view just after user code reached u and trapped. */
  ghost function Entered(a: Abs, u: SM.User, entry: SM.Entry): (a1: Abs)
    requires AbsOk(a) && |u.r| == 13
    ensures AbsOk(a1)
  {
    Abs(a.current, a.mode[a.current := ModeAfter(SM.Trap(entry), SM.InUser)],
        a.users[a.current := if entry.FaultEntry? then SM.GONE else u],
        a.abt + if entry.FaultEntry? then SM.SVC_FRAME else 0)
  }

  /** The view at the next return to user mode. */
  ghost function After(a: Abs, u: SM.User, entry: SM.Entry, done: seq<KS.Done>, next: nat): (a': Abs)
    requires AbsOk(a) && |u.r| == 13 && next < |a.mode|
    ensures AbsOk(a')
  {
    var a1 := Entered(a, u, entry);
    Abs(next, a1.mode[next := SM.InUser], Deliver(a1.users, done), a1.abt)
  }

  lemma HopRuns(a: Abs, switch: bool, next: nat)
    requires AbsOk(a) && next < |a.mode| && (switch || next == a.current)
    ensures Runs(a, Hop(switch, next), a.(current := next))
  {
    if switch {
      OneRun(a, SM.Switch(next), a.(current := next));
    }
  }

  lemma ResultRuns(a: Abs, done: seq<KS.Done>)
    requires AbsOk(a) && AtMostOne(done, a.current)
    ensures Runs(a, Results(done), a.(users := Deliver(a.users, done)))
  {
    if done != [] {
      var op := SM.SetResult(AsWord(done[0].result));
      assert done[1..] == [] && Results(done) == [op];
      var us := a.users[a.current := Answered(a.users[a.current], done[0].result)];
      assert Deliver(us, done[1..]) == us;
      assert AbsApply(a, op) == a.(users := us);
      OneRun(a, op, a.(users := Deliver(a.users, done)));
    }
  }

  lemma ModesKept(c: Config, k: KS.Kern, mode: seq<SM.Mode>, trap: KS.Trap)
    requires KI.Inv(c, k) && ModesOk(k, mode) && KS.OnTrap(c, k, trap).outcome.ToUser?
    ensures var k' := KS.OnTrap(c, k, trap).k;
            && k'.current < |mode|
            && ModesOk(k', mode[k.current := ModeAfter(SM.Trap(EntryOf(trap)), SM.InUser)][k'.current := SM.InUser])
  {
    KT.StepTwoPhase(c, k, trap);
    DoneIsCurrents(c, k, trap);
    KontAfter(c, k, trap);
    var p, k' := KT.Effect(c, k, trap), KS.OnTrap(c, k, trap).k;
    assert k'.kont == p.kont && (!p.resched ==> k'.current == p.current);
    NewModes(k, p, k', mode, trap);
  }

  lemma NewModes(k: KS.Kern, p: KS.Kern, k': KS.Kern, mode: seq<SM.Mode>, trap: KS.Trap)
    requires ModesOk(k, mode) && p.current < |mode| && k'.current < |mode|
    requires k'.kont == p.kont && (!p.resched ==> k'.current == p.current)
    requires KontsMove(k, p, trap)
    ensures ModesOk(k', mode[k.current := ModeAfter(SM.Trap(EntryOf(trap)), SM.InUser)][k'.current := SM.InUser])
  {
  }

  /** What a trap makes of the continuations. */
  ghost predicate KontsMove(k: KS.Kern, p: KS.Kern, trap: KS.Trap) {
    && |p.kont| == |k.kont| && p.current < |k.kont| && k.current < |k.kont|
    && (forall t :: 0 <= t < |k.kont| && t != k.current && t != p.current ==> p.kont[t] == k.kont[t])
    && (p.current != k.current ==> !trap.Svc? && !trap.Fault? && p.kont[k.current].AtTail? && k.kont[p.current].InRead?)
    && (p.kont[p.current].InRead? ==> trap.Svc? || p.current != k.current)
    && (p.kont[p.current].InFault? <==> trap.Fault?)
  }

  lemma KontAfter(c: Config, k: KS.Kern, trap: KS.Trap)
    requires KI.Inv(c, k)
    ensures KontsMove(k, KT.Effect(c, k, trap), trap)
  {
    if trap.RxIrq? && KT.SomeoneWaits(k) {
      KI.RxWakes(c, k, trap.bytes);
    }
  }
}
