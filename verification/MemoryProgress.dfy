/** The runs of MemoryRuns exist: whatever user code stores and whatever trap it takes,
    processor and memory can carry out what KernelSpec prescribes. */
module MemoryProgress {
  import opened Tasks
  import opened Memory
  import opened MemoryRuns
  import KS = KernelSpec
  import PT = PageTable
  import SM = SwitchMachine
  import WS = WholeSystem
  import SR = SystemRuns
  import Progress

  /** The acts are possible as far as the view can tell. */
  ghost predicate ActCan(a: WS.Abs, acts: seq<Act>)
    decreases |acts|
  {
    && WS.AbsOk(a)
    && (acts == [] ||
        match acts[0]
        case Cpu(op) => Progress.AbsEnabled(a, op) && ActCan(WS.AbsApply(a, op), acts[1..])
        case UserStore(_, _) => a.mode[a.current].InUser? && ActCan(a, acts[1..])
        case _ => !a.mode[a.current].InUser? && ActCan(a, acts[1..]))
  }

  lemma {:induction false} Realise(b: SM.Board, l: PT.Layout, w: World, skeleton: seq<Act>) returns (acts: seq<Act>)
    requires WorldOk(b, l, w) && ActCan(WS.AbsOf(b, w.m), skeleton)
    ensures ActsOk(b, l, w, acts) && EraseActs(acts) == skeleton
    decreases |skeleton|
  {
    if skeleton == [] {
      return [];
    }
    if skeleton[0].Cpu? && skeleton[0].op.Return? {
      var unwind := Cpu(Progress.Unwind(b, w.m));
      WS.ApplyRefines(b, w.m, unwind.op);
      CpuRefines(b, l, w, unwind.op);
      var w1 := ActApply(b, l, w, unwind);
      assert WS.AbsOf(b, w1.m) == WS.AbsOf(b, w.m);
      acts := RealiseFirst(b, l, w1, skeleton);
      Prepend(b, l, w, unwind, acts);
      acts := [unwind] + acts;
    } else {
      acts := RealiseFirst(b, l, w, skeleton);
    }
  }

  lemma {:induction false} RealiseFirst(b: SM.Board, l: PT.Layout, w: World, skeleton: seq<Act>)
    returns (acts: seq<Act>)
    requires WorldOk(b, l, w) && skeleton != [] && ActCan(WS.AbsOf(b, w.m), skeleton)
    requires skeleton[0] == Cpu(SM.Return) ==>
               w.m.sp == SM.Top(w.m.current) - SM.FrameWords(w.m.mode[w.m.current])
    ensures ActsOk(b, l, w, acts) && EraseActs(acts) == skeleton
    decreases |skeleton|, 0
  {
    var act := skeleton[0];
    assert ActEnabled(b, w, act) && !QuietAct(act);
    if act.Cpu? {
      WS.ApplyRefines(b, w.m, act.op);
      CpuRefines(b, l, w, act.op);
    }
    var rest := Realise(b, l, ActApply(b, l, w, act), skeleton[1..]);
    Prepend(b, l, w, act, rest);
    acts := [act] + rest;
    assert skeleton == [act] + skeleton[1..];
  }

  lemma Prepend(b: SM.Board, l: PT.Layout, w: World, act: Act, rest: seq<Act>)
    requires WorldOk(b, l, w) && ActEnabled(b, w, act) && ActsOk(b, l, ActApply(b, l, w, act), rest)
    ensures ActsOk(b, l, w, [act] + rest)
    ensures EraseActs([act] + rest) == if QuietAct(act) then EraseActs(rest) else [act] + EraseActs(rest)
  {
    assert ([act] + rest)[1..] == rest;
  }

  lemma {:induction false} WritesCan(a: WS.Abs, writes: seq<Write>, rest: seq<Act>)
    requires WS.AbsOk(a) && a.mode[a.current].InUser? && ActCan(a, rest)
    ensures ActCan(a, UserActs(writes) + rest)
    decreases |writes|
  {
    var acts := UserActs(writes) + rest;
    if writes == [] {
      assert acts == rest;
    } else {
      WritesCan(a, writes[1..], rest);
      assert acts[1..] == UserActs(writes[1..]) + rest;
    }
  }

  ghost predicate NoneInUser(mode: seq<SM.Mode>) {
    forall t :: 0 <= t < |mode| ==> !mode[t].InUser?
  }

  /** Inside the kernel, memory accesses are possible whenever the switches and results
      around them are. */
  lemma {:induction false} EventsCan(a: WS.Abs, events: seq<KS.Event>)
    requires NoneInUser(a.mode) && Progress.AbsCan(a, WS.OpsOf(events) + [SM.Return])
    ensures ActCan(a, ActsOf(events) + [Cpu(SM.Return)])
    decreases |events|
  {
    var acts, ops := ActsOf(events) + [Cpu(SM.Return)], WS.OpsOf(events) + [SM.Return];
    if events == [] {
      assert acts == [Cpu(SM.Return)] && ops == [SM.Return];
      assert acts[1..] == [] && ops[1..] == [];
    } else {
      var rest := WS.OpsOf(events[1..]) + [SM.Return];
      assert acts[1..] == ActsOf(events[1..]) + [Cpu(SM.Return)];
      if acts[0].Cpu? {
        assert ops == [acts[0].op] + rest && ops[1..] == rest;
        assert WS.AbsApply(a, acts[0].op).mode == a.mode;
        EventsCan(WS.AbsApply(a, acts[0].op), events[1..]);
      } else {
        assert ops == rest;
        EventsCan(a, events[1..]);
      }
    }
  }

  lemma SkeletonCan(c: Config, k: KS.Kern, a: WS.Abs, x: Round)
    requires WS.Boundary(c, k, a) && SM.UserOk(x.u) && KS.OnTrap(c, k, x.trap).outcome.ToUser?
    ensures ActCan(a, Skeleton(c, k, x))
  {
    var run, entry, events := SM.UserRun(x.u), SM.Trap(WS.EntryOf(x.trap)), KS.OnTrap(c, k, x.trap).events;
    Progress.SkeletonCan(c, k, a, x.u, x.trap);
    Regroup(run, entry, WS.OpsOf(events));
    RoundCan(a, x.writes, run, entry, events);
  }

  lemma Regroup(o1: SM.Op, o2: SM.Op, ops: seq<SM.Op>)
    ensures [o1] + ([o2] + ops + [SM.Return]) == [o1] + [o2] + (ops + [SM.Return])
  {
  }

  lemma RoundCan(a: WS.Abs, writes: seq<Write>, run: SM.Op, entry: SM.Op, events: seq<KS.Event>)
    requires WS.AbsOk(a) && a.mode[a.current].InUser? && run.UserRun? && entry.Trap?
    requires forall t :: 0 <= t < |a.mode| && t != a.current ==> !a.mode[t].InUser?
    requires Progress.AbsCan(a, [run] + [entry] + (WS.OpsOf(events) + [SM.Return]))
    ensures ActCan(a, UserActs(writes) + [Cpu(run)] + ([Cpu(entry)] + ActsOf(events) + [Cpu(SM.Return)]))
  {
    TwoFirst(a, run, entry, WS.OpsOf(events) + [SM.Return]);
    var a0 := WS.AbsApply(a, run);
    var a1 := WS.AbsApply(a0, entry);
    assert NoneInUser(a1.mode);
    EventsCan(a1, events);
    var tail := ActsOf(events) + [Cpu(SM.Return)];
    var rest := [Cpu(run)] + ([Cpu(entry)] + tail);
    assert rest[1..] == [Cpu(entry)] + tail && ([Cpu(entry)] + tail)[1..] == tail;
    assert ActCan(a0, [Cpu(entry)] + tail);
    WritesCan(a, writes, rest);
    assert UserActs(writes) + [Cpu(run)] + ([Cpu(entry)] + ActsOf(events) + [Cpu(SM.Return)])
        == UserActs(writes) + rest;
  }

  lemma TwoFirst(a: WS.Abs, o1: SM.Op, o2: SM.Op, rest: seq<SM.Op>)
    requires Progress.AbsCan(a, [o1] + [o2] + rest)
    ensures Progress.AbsEnabled(a, o1) && WS.AbsOk(WS.AbsApply(a, o1))
    ensures Progress.AbsEnabled(WS.AbsApply(a, o1), o2)
    ensures Progress.AbsCan(WS.AbsApply(WS.AbsApply(a, o1), o2), rest)
  {
    assert ([o1] + [o2] + rest)[1..] == [o2] + rest;
    assert Progress.AbsCan(WS.AbsApply(a, o1), [o2] + rest);
    assert ([o2] + rest)[1..] == rest;
  }

  /** Every trap that KernelSpec brings back to user mode, processor and memory can bring
      back, after any stores of the user code. */
  lemma EveryRoundRuns(b: SM.Board, l: PT.Layout, k: KS.Kern, w: World, writes: seq<Write>, u: SM.User, trap: KS.Trap)
    returns (acts: seq<Act>)
    requires Related(b, l, k, w) && SM.UserOk(u) && SR.CallMatches(u, trap)
    requires KS.OnTrap(b.cfg, k, trap).outcome.ToUser?
    ensures RoundOk(b, l, k, w, Round(writes, u, trap, acts))
  {
    SkeletonCan(b.cfg, k, WS.AbsOf(b, w.m), Round(writes, u, trap, []));
    acts := Realise(b, l, w, Skeleton(b.cfg, k, Round(writes, u, trap, [])));
  }
}
