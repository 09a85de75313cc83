/** The refinement of SystemRuns is not about nothing: whatever trap user code takes, the
    machine can carry out what KernelSpec prescribes for it. */
module Progress {
  import opened Tasks
  import opened WholeSystem
  import opened SystemRuns
  import KS = KernelSpec
  import KI = KernelInvariant
  import KT = KernelSteps
  import SM = SwitchMachine
  import SP = SwitchProofs
  import TI = ThreadInit

  /** The operation is possible as far as the view can tell. */
  ghost predicate AbsEnabled(a: Abs, op: SM.Op)
    requires AbsOk(a)
  {
    var mode := a.mode[a.current];
    match op
    case UserRun(u) => mode.InUser? && SM.UserOk(u)
    case Trap(_) => mode.InUser?
    case SetResult(_) => mode.InSvc?
    case Switch(next) => !mode.InUser? && next < |a.mode| && next != a.current
    case Return => mode.InSvc? || mode.InIrq?
    case _ => false
  }

  ghost predicate AbsCan(a: Abs, ops: seq<SM.Op>)
    decreases |ops|
  {
    AbsOk(a) && (ops == [] || (AbsEnabled(a, ops[0]) && AbsCan(AbsApply(a, ops[0]), ops[1..])))
  }

  /** C code that pops all its own frames. */
  ghost function Unwind(b: SM.Board, m: SM.Mach): SM.Op
    requires SM.Stacks(b, m)
  {
    var t := m.current;
    SM.StackInMemory(b, m, t);
    var limit := SM.Top(t) - SM.FrameWords(m.mode[t]);
    SM.Work(m.r, m.lr, limit, m.mem[SM.Low(t)..limit])
  }

  /** Only the kernel stack stands between the view and the machine: once the handlers
      have unwound it, the machine can do what the view can. */
  lemma {:induction false} Realise(b: SM.Board, m: SM.Mach, skeleton: seq<SM.Op>) returns (ops: seq<SM.Op>)
    requires SM.Stacks(b, m) && AbsCan(AbsOf(b, m), skeleton)
    ensures SP.RunOk(b, m, ops, true) && Erase(ops) == skeleton
    decreases |skeleton|
  {
    if skeleton == [] {
      return [];
    }
    var op := skeleton[0];
    if op.Return? {
      var unwind := Unwind(b, m);
      ApplyRefines(b, m, unwind);
      var m1 := SM.Apply(b, m, unwind, true);
      assert AbsOf(b, m1) == AbsOf(b, m);
      ops := RealiseFirst(b, m1, skeleton);
      Prepend(b, m, unwind, ops);
      ops := [unwind] + ops;
    } else {
      ops := RealiseFirst(b, m, skeleton);
    }
  }

  lemma {:induction false} RealiseFirst(b: SM.Board, m: SM.Mach, skeleton: seq<SM.Op>) returns (ops: seq<SM.Op>)
    requires SM.Stacks(b, m) && skeleton != [] && AbsCan(AbsOf(b, m), skeleton)
    requires skeleton[0].Return? ==> m.sp == SM.Top(m.current) - SM.FrameWords(m.mode[m.current])
    ensures SP.RunOk(b, m, ops, true) && Erase(ops) == skeleton
    decreases |skeleton|, 0
  {
    var op := skeleton[0];
    assert SM.Enabled(b, m, op);
    ApplyRefines(b, m, op);
    var rest := Realise(b, SM.Apply(b, m, op, true), skeleton[1..]);
    Prepend(b, m, op, rest);
    ops := [op] + rest;
    assert skeleton == [op] + skeleton[1..];
  }

  lemma Prepend(b: SM.Board, m: SM.Mach, op: SM.Op, rest: seq<SM.Op>)
    requires SM.Stacks(b, m) && SM.Enabled(b, m, op)
    requires SM.Stacks(b, SM.Apply(b, m, op, true)) && SP.RunOk(b, SM.Apply(b, m, op, true), rest, true)
    ensures SP.RunOk(b, m, [op] + rest, true)
    ensures Erase([op] + rest) == if Quiet(op) then Erase(rest) else [op] + Erase(rest)
  {
    assert ([op] + rest)[1..] == rest;
  }

  lemma {:induction false} CanChain(a: Abs, x: seq<SM.Op>, a': Abs, y: seq<SM.Op>)
    requires AbsCan(a, x) && Runs(a, x, a') && AbsCan(a', y)
    ensures AbsCan(a, x + y)
    decreases |x|
  {
    if x == [] {
      assert x + y == y;
    } else {
      assert (x + y)[1..] == x[1..] + y;
      CanChain(AbsApply(a, x[0]), x[1..], a', y);
    }
  }

  lemma OneCan(a: Abs, op: SM.Op)
    requires AbsOk(a) && AbsEnabled(a, op) && AbsOk(AbsApply(a, op))
    ensures AbsCan(a, [op])
  {
    assert [op][1..] == [];
  }

  lemma HopCan(a: Abs, switch: bool, next: nat)
    requires AbsOk(a) && next < |a.mode| && (switch ==> next != a.current && !a.mode[a.current].InUser?)
    ensures AbsCan(a, Hop(switch, next))
  {
    if switch {
      OneCan(a, SM.Switch(next));
    }
  }

  lemma ResultCan(a: Abs, done: seq<KS.Done>)
    requires AbsOk(a) && |done| <= 1 && (done != [] ==> a.mode[a.current].InSvc?)
    ensures AbsCan(a, Results(done))
  {
    if done != [] {
      assert done[1..] == [] && Results(done) == [SM.SetResult(AsWord(done[0].result))];
      OneCan(a, SM.SetResult(AsWord(done[0].result)));
    }
  }

  /** The modes allow w to be left or to store its result, and next to leave the kernel. */
  ghost predicate ModesAllow(mode: seq<SM.Mode>, leaves: bool, w: nat, answers: bool, next: nat) {
    && w < |mode| && next < |mode|
    && (leaves ==> !mode[w].InUser?)
    && (answers ==> mode[w].InSvc?)
    && (mode[next].InSvc? || mode[next].InIrq?)
  }

  lemma SegmentCan(a: Abs, u: SM.User, entry: SM.Entry, wake: bool, w: nat, done: seq<KS.Done>,
                   switch: bool, next: nat)
    requires AbsOk(a) && SM.UserOk(u) && a.mode[a.current].InUser?
    requires w < |a.mode| && (wake <==> w != a.current) && next < |a.mode| && (switch <==> next != w)
    requires AtMostOne(done, w)
    requires ModesAllow(a.mode[a.current := ModeAfter(SM.Trap(entry), SM.InUser)], wake || switch, w, done != [], next)
    ensures AbsCan(a, [SM.UserRun(u)]
                      + ([SM.Trap(entry)] + Hop(wake, w) + Results(done) + Hop(switch, next) + [SM.Return]))
  {
    var a1 := Entered(a, u, entry);
    StartCan(a, u, entry);
    StartRuns(a, u, entry);
    HopCan(a1, wake, w);
    HopRuns(a1, wake, w);
    var a2 := a1.(current := w);
    ResultCan(a2, done);
    ResultRuns(a2, done);
    var a3 := a2.(users := Deliver(a2.users, done));
    HopCan(a3, switch, next);
    HopRuns(a3, switch, next);
    var a4 := a3.(current := next);
    OneCan(a4, SM.Return);
    CanChain(a3, Hop(switch, next), a4, [SM.Return]);
    CanChain(a2, Results(done), a3, Hop(switch, next) + [SM.Return]);
    CanChain(a1, Hop(wake, w), a2, Results(done) + (Hop(switch, next) + [SM.Return]));
    CanChain(a, [SM.UserRun(u)] + [SM.Trap(entry)], a1,
             Hop(wake, w) + (Results(done) + (Hop(switch, next) + [SM.Return])));
    Regroup(SM.UserRun(u), SM.Trap(entry), Hop(wake, w), Results(done), Hop(switch, next), [SM.Return]);
  }

  lemma StartCan(a: Abs, u: SM.User, entry: SM.Entry)
    requires AbsOk(a) && SM.UserOk(u) && a.mode[a.current].InUser?
    ensures AbsCan(a, [SM.UserRun(u)] + [SM.Trap(entry)])
  {
    var a0 := a.(users := a.users[a.current := u]);
    assert AbsApply(a, SM.UserRun(u)) == a0;
    OneCan(a, SM.UserRun(u));
    OneRun(a, SM.UserRun(u), a0);
    OneCan(a0, SM.Trap(entry));
    CanChain(a, [SM.UserRun(u)], a0, [SM.Trap(entry)]);
  }

  lemma Regroup(o1: SM.Op, o2: SM.Op, w: seq<SM.Op>, x: seq<SM.Op>, y: seq<SM.Op>, z: seq<SM.Op>)
    ensures [o1] + [o2] + (w + (x + (y + z))) == [o1] + ([o2] + w + x + y + z)
  {
  }

  /** Every trap that KernelSpec brings back to user mode, the machine can bring back. */
  lemma EveryTrapRuns(b: SM.Board, k: KS.Kern, m: SM.Mach, u: SM.User, trap: KS.Trap)
    returns (ops: seq<SM.Op>)
    requires Related(b, k, m) && SM.UserOk(u) && CallMatches(u, trap)
    requires KS.OnTrap(b.cfg, k, trap).outcome.ToUser?
    ensures RoundOk(b, k, m, Round(u, trap, ops))
  {
    SkeletonCan(b.cfg, k, AbsOf(b, m), u, trap);
    ops := Realise(b, m, [SM.UserRun(u)] + Skeleton(b.cfg, k, trap));
  }

  /** The machine can boot: thread 0's initial frame drains into user mode. */
  lemma BootRuns(b: SM.Board, s: TI.Start, m0: SM.Mach) returns (ops: seq<SM.Op>)
    requires TI.Ready(b, s, m0) && m0.abt == []
    ensures Booted(b, s, m0, ops)
  {
    var m1 := TI.FirstRun(b, s, m0);
    assert m1.mode == m0.mode && m1.current == 0;
    OneCan(AbsOf(b, m1), SM.Return);
    ops := Realise(b, m1, [SM.Return]);
  }

  lemma SkeletonCan(c: Config, k: KS.Kern, a: Abs, u: SM.User, trap: KS.Trap)
    requires Boundary(c, k, a) && SM.UserOk(u) && KS.OnTrap(c, k, trap).outcome.ToUser?
    ensures AbsCan(a, [SM.UserRun(u)] + Skeleton(c, k, trap))
  {
    KT.StepTwoPhase(c, k, trap);
    DoneIsCurrents(c, k, trap);
    var p, r := KT.Effect(c, k, trap), KS.OnTrap(c, k, trap);
    SkeletonModes(c, k, a.mode, trap);
    SkeletonForm(c, k, trap);
    SegmentCan(a, u, EntryOf(trap), KT.Wakes(k, trap) > 0, p.current, r.done,
               p.resched && !KI.OthersIdle(p), r.k.current);
  }

  lemma SkeletonModes(c: Config, k: KS.Kern, mode: seq<SM.Mode>, trap: KS.Trap)
    requires KI.Inv(c, k) && ModesOk(k, mode) && KS.OnTrap(c, k, trap).outcome.ToUser?
    ensures var p, r := KT.Effect(c, k, trap), KS.OnTrap(c, k, trap);
            ModesAllow(mode[k.current := ModeAfter(SM.Trap(EntryOf(trap)), SM.InUser)],
                       KT.Wakes(k, trap) > 0 || (p.resched && !KI.OthersIdle(p)), p.current, r.done != [], r.k.current)
  {
    KT.StepTwoPhase(c, k, trap);
    DoneIsCurrents(c, k, trap);
    KontAfter(c, k, trap);
    DoneNeedsCall(c, k, trap);
    var p, r := KT.Effect(c, k, trap), KS.OnTrap(c, k, trap);
    ModesFromKonts(k, p, r.k, mode, trap, r.done != []);
  }

  lemma ModesFromKonts(k: KS.Kern, p: KS.Kern, k': KS.Kern, mode: seq<SM.Mode>, trap: KS.Trap, answers: bool)
    requires ModesOk(k, mode) && KontsMove(k, p, trap) && k'.kont == p.kont && k'.current < |mode|
    requires k'.kont[k'.current].AtTail? && (answers ==> trap.Svc? || p.current != k.current)
    requires trap.Fault? ==> k'.current != k.current
    ensures ModesAllow(mode[k.current := ModeAfter(SM.Trap(EntryOf(trap)), SM.InUser)],
                       true, p.current, answers, k'.current)
  {
  }

  lemma DoneNeedsCall(c: Config, k: KS.Kern, trap: KS.Trap)
    requires KI.Inv(c, k)
    ensures KS.OnTrap(c, k, trap).done != [] ==> trap.Svc? || KT.Wakes(k, trap) > 0
    ensures KS.OnTrap(c, k, trap).outcome.ToUser? && trap.Fault? ==> KS.OnTrap(c, k, trap).k.current != k.current
  {
    KT.StepTwoPhase(c, k, trap);
  }
}
