/** Whole runs of kernel and machine together: from boot on, however user code, traps,
    wake-ups, kills and faults follow each other, the machine stays in step with
    KernelSpec, and every thread gets back its own registers and its own results. */
module SystemRuns {
  import opened Tasks
  import opened WholeSystem
  import KS = KernelSpec
  import KI = KernelInvariant
  import KT = KernelSteps
  import KR = KernelRuns
  import KC = KernelCalls
  import SM = SwitchMachine
  import SP = SwitchProofs
  import TI = ThreadInit

  /** The current thread's user code reaches context u and takes the trap; the machine
      then performs ops up to the next return to user mode. */
  datatype Round = Round(u: SM.User, trap: KS.Trap, ops: seq<SM.Op>)

  function TrapsOf(rounds: seq<Round>): (traps: seq<KS.Trap>)
    ensures |traps| == |rounds|
  {
    if rounds == [] then [] else [rounds[0].trap] + TrapsOf(rounds[1..])
  }

  /** The number and arguments of a system call are the caller's r7 and r0-r2. */
  predicate CallMatches(u: SM.User, trap: KS.Trap)
    requires |u.r| == 13
  {
    trap.Svc? ==> trap.num == u.r[7] && trap.a0 == u.r[0] && trap.a1 == u.r[1] && trap.a2 == u.r[2]
  }

  /** Kernel and machine agree at a return to user mode. */
  ghost predicate Related(b: SM.Board, k: KS.Kern, m: SM.Mach) {
    SM.Stacks(b, m) && SM.MmuOk(b, m) && Boundary(b.cfg, k, AbsOf(b, m))
  }

  ghost predicate RoundOk(b: SM.Board, k: KS.Kern, m: SM.Mach, x: Round)
    requires Related(b, k, m)
  {
    && |x.u.r| == 13 && CallMatches(x.u, x.trap)
    && KS.OnTrap(b.cfg, k, x.trap).outcome.ToUser?
    && SP.RunOk(b, m, x.ops, true)
    && Erase(x.ops) == [SM.UserRun(x.u)] + Skeleton(b.cfg, k, x.trap)
  }

  /** One round keeps kernel and machine in agreement. */
  lemma RoundRefines(b: SM.Board, k: KS.Kern, m: SM.Mach, x: Round)
    requires Related(b, k, m) && RoundOk(b, k, m, x)
    ensures var m' := SP.RunOps(b, m, x.ops, true);
            && Related(b, KS.OnTrap(b.cfg, k, x.trap).k, m')
            && AbsOf(b, m') == NextView(b.cfg, k, AbsOf(b, m), x.u, x.trap)
  {
    RunRefines(b, m, x.ops);
    SkeletonIsStep(b.cfg, k, AbsOf(b, m), x.u, x.trap);
    NextBoundary(b.cfg, k, AbsOf(b, m), x.u, x.trap);
    SP.MmuAlwaysRight(b, m, x.ops, true);
  }

  ghost predicate Follows(b: SM.Board, k: KS.Kern, m: SM.Mach, rounds: seq<Round>)
    requires Related(b, k, m)
    decreases |rounds|
  {
    rounds == [] ||
    (&& RoundOk(b, k, m, rounds[0])
     && (RoundRefines(b, k, m, rounds[0]);
         Follows(b, KS.OnTrap(b.cfg, k, rounds[0].trap).k, SP.RunOps(b, m, rounds[0].ops, true), rounds[1..])))
  }

  ghost function MachAfter(b: SM.Board, k: KS.Kern, m: SM.Mach, rounds: seq<Round>): SM.Mach
    requires Related(b, k, m) && Follows(b, k, m, rounds)
    decreases |rounds|
  {
    if rounds == [] then m
    else
      RoundRefines(b, k, m, rounds[0]);
      MachAfter(b, KS.OnTrap(b.cfg, k, rounds[0].trap).k, SP.RunOps(b, m, rounds[0].ops, true), rounds[1..])
  }

  /** The machine refines the kernel over every run: it ends where KernelSpec says, and
      only user faults have used up fault stack, one frame each. */
  lemma {:induction false} MachineRefinesKernel(b: SM.Board, k: KS.Kern, m: SM.Mach, rounds: seq<Round>)
    requires Related(b, k, m) && Follows(b, k, m, rounds)
    ensures var r := KR.Exec(b.cfg, k, TrapsOf(rounds)); var m' := MachAfter(b, k, m, rounds);
            && r.outcome.ToUser? && Related(b, r.k, m')
            && |m'.abt| == |m.abt| + SM.SVC_FRAME * r.faults
    decreases |rounds|
  {
    if rounds != [] {
      var x := rounds[0];
      RoundRefines(b, k, m, x);
      var k1, m1 := KS.OnTrap(b.cfg, k, x.trap).k, SP.RunOps(b, m, x.ops, true);
      MachineRefinesKernel(b, k1, m1, rounds[1..]);
      assert |m1.abt| == |m.abt| + SM.SVC_FRAME * KS.Bit(x.trap.Fault?);
      ExecHead(b.cfg, k, rounds);
    }
  }

  /** Exec takes the first round's step, then the rest. */
  lemma ExecHead(c: Config, k: KS.Kern, rounds: seq<Round>)
    requires KI.Inv(c, k) && rounds != [] && KS.OnTrap(c, k, rounds[0].trap).outcome.ToUser?
    ensures var s := KS.OnTrap(c, k, rounds[0].trap);
            && KI.Inv(c, s.k)
            && var r, rest := KR.Exec(c, k, TrapsOf(rounds)), KR.Exec(c, s.k, TrapsOf(rounds[1..]));
            && r.k == rest.k && r.outcome == rest.outcome && r.done == s.done + rest.done
            && r.faults == KS.Bit(rounds[0].trap.Fault?) + rest.faults
  {
    KT.StepTwoPhase(c, k, rounds[0].trap);
    assert TrapsOf(rounds)[1..] == TrapsOf(rounds[1..]);
  }

  // ------------------------------------------------------- registers and results

  /** What finished calls of thread t make of its user context. */
  function AnswerAll(u: SM.User, done: seq<KS.Done>, t: nat): (u': SM.User)
    requires |u.r| == 13
    ensures |u'.r| == 13
    decreases |done|
  {
    if done == [] then u
    else AnswerAll(if done[0].tid == t then Answered(u, done[0].result) else u, done[1..], t)
  }

  lemma {:induction false} DeliverAt(us: seq<SM.User>, done: seq<KS.Done>, t: nat)
    requires UsersOk(us) && t < |us|
    ensures Deliver(us, done)[t] == AnswerAll(us[t], done, t)
    decreases |done|
  {
    if done != [] {
      var d := done[0].tid;
      DeliverAt(if d < |us| then us[d := Answered(us[d], done[0].result)] else us, done[1..], t);
    }
  }

  lemma {:induction false} AnswerAllConcat(u: SM.User, x: seq<KS.Done>, y: seq<KS.Done>, t: nat)
    requires |u.r| == 13
    ensures AnswerAll(u, x + y, t) == AnswerAll(AnswerAll(u, x, t), y, t)
    decreases |x|
  {
    if x == [] {
      assert x + y == y;
    } else {
      assert (x + y)[1..] == x[1..] + y;
      AnswerAllConcat(if x[0].tid == t then Answered(u, x[0].result) else u, x[1..], y, t);
    }
  }

  /** The result of t's first finished call. */
  function ResultOf(done: seq<KS.Done>, t: nat): int {
    if done == [] then 0 else if done[0].tid == t then done[0].result else ResultOf(done[1..], t)
  }

  lemma {:induction false} AnswerAllCounts(u: SM.User, done: seq<KS.Done>, t: nat)
    requires |u.r| == 13
    ensures KR.DoneCount(done, t) == 0 ==> AnswerAll(u, done, t) == u
    ensures KR.DoneCount(done, t) == 1 ==> AnswerAll(u, done, t) == Answered(u, ResultOf(done, t))
    decreases |done|
  {
    if done != [] {
      AnswerAllCounts(if done[0].tid == t then Answered(u, done[0].result) else u, done[1..], t);
    }
  }

  /** Thread t is off the CPU at the start of every round. */
  ghost predicate Elsewhere(c: Config, k: KS.Kern, rounds: seq<Round>, t: nat)
    requires KI.Inv(c, k)
    decreases |rounds|
  {
    rounds == [] ||
    (&& k.current != t
     && KS.OnTrap(c, k, rounds[0].trap).outcome.ToUser?
     && (KT.StepTwoPhase(c, k, rounds[0].trap);
         Elsewhere(c, KS.OnTrap(c, k, rounds[0].trap).k, rounds[1..], t)))
  }

  /** A thread that is off the CPU changes only by its own finished calls. */
  lemma {:induction false} BystanderAnswered(b: SM.Board, k: KS.Kern, m: SM.Mach, rounds: seq<Round>, t: nat)
    requires Related(b, k, m) && Follows(b, k, m, rounds)
    requires t < b.cfg.Threads() && Elsewhere(b.cfg, k, rounds, t)
    ensures var m', r := MachAfter(b, k, m, rounds), KR.Exec(b.cfg, k, TrapsOf(rounds));
            SM.Stacks(b, m') && SM.UserOf(b, m', t) == AnswerAll(SM.UserOf(b, m, t), r.done, t)
    decreases |rounds|
  {
    if rounds != [] {
      var x := rounds[0];
      RoundRefines(b, k, m, x);
      var s, m1 := KS.OnTrap(b.cfg, k, x.trap), SP.RunOps(b, m, x.ops, true);
      assert SM.UserOf(b, m1, t) == AnswerAll(SM.UserOf(b, m, t), s.done, t) by {
        RoundAnswers(b, k, m, x, t);
      }
      BystanderAnswered(b, s.k, m1, rounds[1..], t);
      ExecHead(b.cfg, k, rounds);
      AnswerAllConcat(SM.UserOf(b, m, t), s.done, KR.Exec(b.cfg, s.k, TrapsOf(rounds[1..])).done, t);
    }
  }

  lemma RoundAnswers(b: SM.Board, k: KS.Kern, m: SM.Mach, x: Round, t: nat)
    requires Related(b, k, m) && RoundOk(b, k, m, x) && t < b.cfg.Threads()
    ensures var m' := SP.RunOps(b, m, x.ops, true);
            var u := if t != k.current then SM.UserOf(b, m, t) else if x.trap.Fault? then SM.GONE else x.u;
            SM.UserOf(b, m', t) == AnswerAll(u, KS.OnTrap(b.cfg, k, x.trap).done, t)
  {
    RoundRefines(b, k, m, x);
    var m' := SP.RunOps(b, m, x.ops, true);
    var us := Users(b, m)[k.current := if x.trap.Fault? then SM.GONE else x.u];
    assert Users(b, m') == Deliver(us, KS.OnTrap(b.cfg, k, x.trap).done);
    DeliverAt(us, KS.OnTrap(b.cfg, k, x.trap).done, t);
    assert SM.UserOf(b, m', t) == Users(b, m')[t];
  }

  lemma {:induction false} NoCallsElsewhere(c: Config, k: KS.Kern, rounds: seq<Round>, t: nat)
    requires KI.Inv(c, k) && Elsewhere(c, k, rounds, t)
    ensures KR.Calls(c, k, TrapsOf(rounds), t) == 0
    decreases |rounds|
  {
    if rounds != [] {
      KT.StepTwoPhase(c, k, rounds[0].trap);
      NoCallsElsewhere(c, KS.OnTrap(c, k, rounds[0].trap).k, rounds[1..], t);
      assert TrapsOf(rounds)[1..] == TrapsOf(rounds[1..]);
    }
  }

  /** The current thread takes a trap, and when the run ends it is back on the CPU for
      the first time. */
  ghost predicate RoundTrip(c: Config, k: KS.Kern, rounds: seq<Round>)
    requires KI.Inv(c, k)
  {
    && rounds != [] && !rounds[0].trap.Fault?
    && var s := KS.OnTrap(c, k, rounds[0].trap);
    && s.outcome.ToUser?
    && (KT.StepTwoPhase(c, k, rounds[0].trap);
        && Elsewhere(c, s.k, rounds[1..], k.current)
        && KR.Exec(c, k, TrapsOf(rounds)).outcome.ToUser?
        && KR.Exec(c, k, TrapsOf(rounds)).k.current == k.current)
  }

  /** Over a round trip a system call is answered exactly once, anything else never. */
  lemma {:induction false} AnsweredOnce(c: Config, k: KS.Kern, rounds: seq<Round>)
    requires KI.Inv(c, k) && RoundTrip(c, k, rounds)
    ensures KR.DoneCount(KR.Exec(c, k, TrapsOf(rounds)).done, k.current) == KS.Bit(rounds[0].trap.Svc?)
  {
    var t, traps := k.current, TrapsOf(rounds);
    KT.StepTwoPhase(c, k, rounds[0].trap);
    NoCallsElsewhere(c, KS.OnTrap(c, k, rounds[0].trap).k, rounds[1..], t);
    assert traps[1..] == TrapsOf(rounds[1..]);
    assert KR.Calls(c, k, traps, t) == KS.Bit(rounds[0].trap.Svc?);
    KR.EveryCallAnsweredOnce(c, k, traps, t);
    KR.RunKeepsInv(c, k, traps);
  }

  /** All registers but r0 are those of u. */
  ghost predicate SameButR0(m: SM.Mach, u: SM.User) {
    && |m.r| == |u.r| == 13 && (forall i :: 1 <= i < 13 ==> m.r[i] == u.r[i])
    && m.pc == u.pc && m.cpsr == u.cpsr && m.spUsr == u.sp && m.lrUsr == u.lr
  }

  /** Thread t is back in user mode on an empty kernel stack, with the registers of u but
      for the result v of a call. */
  ghost predicate Back(m: SM.Mach, t: nat, u: SM.User, call: bool, v: int) {
    && m.current == t && t < |m.mode| && m.mode[t].InUser? && m.sp == SM.Top(t)
    && SameButR0(m, u)
    && (if call then Low32(m.r[0], v) else m.r[0] == u.r[0])
  }

  lemma BackFrom(b: SM.Board, m: SM.Mach, u: SM.User, call: bool, v: int)
    requires SM.Stacks(b, m) && m.mode[m.current].InUser? && |u.r| == 13
    requires SM.UserOf(b, m, m.current) == if call then Answered(u, v) else u
    ensures Back(m, m.current, u, call, v)
  {
    AsWordIsLow32(v);
  }

  /** However long a thread was away, whether it yielded, was preempted or slept in a
      read, and whatever the others did: back in user mode all its registers are as it
      left them, except that after a system call r0 is the result of that very call. Its
      kernel stack is empty again. */
  lemma {:induction false} ComesBackWithOwnResult(b: SM.Board, k: KS.Kern, m: SM.Mach, rounds: seq<Round>)
    requires Related(b, k, m) && Follows(b, k, m, rounds) && RoundTrip(b.cfg, k, rounds)
    ensures var m', r, t, u := MachAfter(b, k, m, rounds), KR.Exec(b.cfg, k, TrapsOf(rounds)), k.current, rounds[0].u;
            && KR.DoneCount(r.done, t) == KS.Bit(rounds[0].trap.Svc?)
            && Back(m', t, u, rounds[0].trap.Svc?, ResultOf(r.done, t))
  {
    MachineRefinesKernel(b, k, m, rounds);
    AnsweredOnce(b.cfg, k, rounds);
    TripAnswers(b, k, m, rounds);
    var done := KR.Exec(b.cfg, k, TrapsOf(rounds)).done;
    AnswerAllCounts(rounds[0].u, done, k.current);
    BackFrom(b, MachAfter(b, k, m, rounds), rounds[0].u, rounds[0].trap.Svc?, ResultOf(done, k.current));
  }

  lemma {:induction false} TripAnswers(b: SM.Board, k: KS.Kern, m: SM.Mach, rounds: seq<Round>)
    requires Related(b, k, m) && Follows(b, k, m, rounds) && RoundTrip(b.cfg, k, rounds)
    ensures var m', r := MachAfter(b, k, m, rounds), KR.Exec(b.cfg, k, TrapsOf(rounds));
            && SM.Stacks(b, m') && |rounds[0].u.r| == 13
            && SM.UserOf(b, m', k.current) == AnswerAll(rounds[0].u, r.done, k.current)
  {
    var x, t := rounds[0], k.current;
    RoundRefines(b, k, m, x);
    RoundAnswers(b, k, m, x, t);
    var s, m1 := KS.OnTrap(b.cfg, k, x.trap), SP.RunOps(b, m, x.ops, true);
    BystanderAnswered(b, s.k, m1, rounds[1..], t);
    ExecHead(b.cfg, k, rounds);
    AnswerAllConcat(x.u, s.done, KR.Exec(b.cfg, s.k, TrapsOf(rounds[1..])).done, t);
  }

  // ----------------------------------------------- the same, in plain numbers

  /** The finished call d is what the registers u asked for: r7 is its number and r0-r2
      its arguments. */
  ghost predicate AnswersCall(c: Config, k: KS.Kern, u: SM.User, d: KS.Done)
    requires c.Valid() && |u.r| == 13
  {
    && d.tid == k.current && d.num == u.r[7]
    && (u.r[7] == 4 ==> KC.Honours(d, u.r[1], u.r[2]))
    && (u.r[7] != 4 ==> KC.AnswerIs(c, k, KS.Svc(u.r[7], u.r[0], u.r[1], u.r[2]), d))
  }

  lemma {:induction false} ElsewhereIsOffCpu(c: Config, k: KS.Kern, rounds: seq<Round>, t: nat)
    requires KI.Inv(c, k) && Elsewhere(c, k, rounds, t)
    ensures KC.OffCpuThroughout(c, k, TrapsOf(rounds), t)
    decreases |rounds|
  {
    if rounds != [] {
      KT.StepTwoPhase(c, k, rounds[0].trap);
      ElsewhereIsOffCpu(c, KS.OnTrap(c, k, rounds[0].trap).k, rounds[1..], t);
      assert TrapsOf(rounds)[1..] == TrapsOf(rounds[1..]);
    }
  }

  /** What the sleepers of k asked for, read off their continuations. */
  ghost function Pending(k: KS.Kern): (asked: KC.Requests)
    ensures |asked| == |k.kont|
  {
    seq(|k.kont|, t requires 0 <= t < |k.kont| =>
      if k.kont[t].InRead? then Some((k.kont[t].addr, k.kont[t].len)) else None)
  }

  /** Whatever is answered to the caller during its round trip is an answer to that very
      call. */
  lemma {:induction false} TripAnswersCall(c: Config, k: KS.Kern, rounds: seq<Round>)
    requires KI.Inv(c, k) && KC.SleepersChecked(k) && RoundTrip(c, k, rounds)
    requires |rounds[0].u.r| == 13 && CallMatches(rounds[0].u, rounds[0].trap) && rounds[0].trap.Svc?
    ensures forall d :: d in KR.Exec(c, k, TrapsOf(rounds)).done && d.tid == k.current ==>
              AnswersCall(c, k, rounds[0].u, d)
  {
    var t, trap, asked := k.current, rounds[0].trap, Pending(k);
    var s := KS.OnTrap(c, k, trap);
    KT.StepTwoPhase(c, k, trap);
    KC.StepHonours(c, k, trap, asked);
    ExecHead(c, k, rounds);
    ElsewhereIsOffCpu(c, s.k, rounds[1..], t);
    if trap.num == 4 {
      KC.PendingReadHonoured(c, s.k, TrapsOf(rounds[1..]), KC.Ask(asked, k, trap), t, trap.a1, trap.a2);
      FirstIsRead(c, k, trap);
    } else {
      KC.CallAnswers(c, k, trap);
      NothingMore(c, s.k, rounds[1..], t);
    }
  }

  lemma FirstIsRead(c: Config, k: KS.Kern, trap: KS.Trap)
    requires KI.Inv(c, k) && trap.Svc?
    ensures forall d :: d in KS.OnTrap(c, k, trap).done ==> d.num == trap.num && d.tid == k.current
  {
    KT.StepTwoPhase(c, k, trap);
  }

  /** A thread without a pending read is not answered while it is off the CPU. */
  lemma {:induction false} NothingMore(c: Config, k: KS.Kern, rounds: seq<Round>, t: nat)
    requires KI.Inv(c, k) && Elsewhere(c, k, rounds, t) && t < c.Threads() && !k.kont[t].InRead?
    ensures forall d :: d in KR.Exec(c, k, TrapsOf(rounds)).done ==> d.tid != t
    decreases |rounds|
  {
    if rounds != [] {
      var trap := rounds[0].trap;
      var s := KS.OnTrap(c, k, trap);
      KT.StepTwoPhase(c, k, trap);
      KR.StepAnswers(c, k, trap, t);
      NoneCounted(s.done, t);
      ExecHead(c, k, rounds);
      NothingMore(c, s.k, rounds[1..], t);
    }
  }

  lemma {:induction false} NoneCounted(done: seq<KS.Done>, t: nat)
    ensures KR.DoneCount(done, t) == 0 <==> forall d :: d in done ==> d.tid != t
  {
    if done != [] {
      NoneCounted(done[1..], t);
      assert forall d :: d in done <==> d == done[0] || d in done[1..];
    }
  }

  lemma {:induction false} ResultOfIsIn(done: seq<KS.Done>, t: nat)
    requires KR.DoneCount(done, t) > 0
    ensures exists d :: d in done && d.tid == t && d.result == ResultOf(done, t)
  {
    if done[0].tid == t {
      assert done[0] in done;
    } else {
      ResultOfIsIn(done[1..], t);
    }
  }

  /** A system call, from the caller's side: r7 said which call, r0-r2 its arguments. Back
      in user mode r0 holds the answer to exactly that call as a 32-bit number, so that
      an error -2 reads 0xFFFFFFFE, and every other register is as it was. */
  lemma {:induction false} CallComesBack(b: SM.Board, k: KS.Kern, m: SM.Mach, rounds: seq<Round>)
    requires Related(b, k, m) && Follows(b, k, m, rounds) && RoundTrip(b.cfg, k, rounds)
    requires KC.SleepersChecked(k) && rounds[0].trap.Svc?
    ensures var m', r, u := MachAfter(b, k, m, rounds), KR.Exec(b.cfg, k, TrapsOf(rounds)), rounds[0].u;
            && SameButR0(m', u)
            && exists d :: d in r.done && AnswersCall(b.cfg, k, u, d) && Low32(m'.r[0], d.result)
  {
    ComesBackWithOwnResult(b, k, m, rounds);
    var r, t := KR.Exec(b.cfg, k, TrapsOf(rounds)), k.current;
    ResultOfIsIn(r.done, t);
    TripAnswersCall(b.cfg, k, rounds);
  }

  /** A thread that was preempted finds every register as it was, r0 included. */
  lemma {:induction false} PreemptedComesBack(b: SM.Board, k: KS.Kern, m: SM.Mach, rounds: seq<Round>)
    requires Related(b, k, m) && Follows(b, k, m, rounds) && RoundTrip(b.cfg, k, rounds) && !rounds[0].trap.Svc?
    ensures var m', u := MachAfter(b, k, m, rounds), rounds[0].u;
            SameButR0(m', u) && m'.r[0] == u.r[0]
  {
    ComesBackWithOwnResult(b, k, m, rounds);
  }

  // ----------------------------------------------------------------- from boot

  /** thread_first_run and the drain of thread 0's initial frame. */
  ghost predicate Booted(b: SM.Board, s: TI.Start, m0: SM.Mach, ops: seq<SM.Op>) {
    && TI.Ready(b, s, m0) && m0.abt == []
    && SP.RunOk(b, TI.FirstRun(b, s, m0), ops, true) && Erase(ops) == [SM.Return]
  }

  /** Boot establishes the agreement, with every thread's user context the promised
      first one. */
  lemma BootRelated(b: SM.Board, s: TI.Start, m0: SM.Mach, ops: seq<SM.Op>)
    requires Booted(b, s, m0, ops)
    ensures var m := SP.RunOps(b, TI.FirstRun(b, s, m0), ops, true);
            && Related(b, KS.Boot(b.cfg), m) && m.abt == []
            && forall t :: 0 <= t < b.cfg.Threads() ==> SM.UserOf(b, m, t) == TI.FirstUser(b.cfg, s, t)
  {
    var m1 := TI.FirstRun(b, s, m0);
    var m := SP.RunOps(b, m1, ops, true);
    TI.FirstRunStarts(b, s, m0, 0);
    RunRefines(b, m1, ops);
    ReturnRuns(AbsOf(b, m1));
    SP.MmuAlwaysRight(b, m1, ops, true);
    KI.BootInv(b.cfg);
    forall t | 0 <= t < b.cfg.Threads()
      ensures SM.UserOf(b, m, t) == TI.FirstUser(b.cfg, s, t)
    {
      TI.FirstRunStarts(b, s, m0, t);
      assert SM.UserOf(b, m, t) == Users(b, m)[t] == Users(b, m1)[t];
    }
  }

  /** The machine at the first return to user mode. */
  ghost function BootMach(b: SM.Board, s: TI.Start, m0: SM.Mach, ops: seq<SM.Op>): (m: SM.Mach)
    requires Booted(b, s, m0, ops)
    ensures Related(b, KS.Boot(b.cfg), m) && m.abt == []
  {
    BootRelated(b, s, m0, ops);
    SP.RunOps(b, TI.FirstRun(b, s, m0), ops, true)
  }

  /** In every state a run from boot can reach, one more fault still fits the fault
      stack, although no fault ever pops its frame: the frames then take at most 60 bytes
      per process, hence at most 1 KB for up to 17 processes. This covers the last
      fault, after which the kernel halts. */
  lemma FaultStackNeverOverrun(b: SM.Board, s: TI.Start, m0: SM.Mach, ops: seq<SM.Op>,
                               rounds: seq<Round>)
    requires Booted(b, s, m0, ops) && Follows(b, KS.Boot(b.cfg), BootMach(b, s, m0, ops), rounds)
    ensures var m := MachAfter(b, KS.Boot(b.cfg), BootMach(b, s, m0, ops), rounds);
            && SM.Stacks(b, m) && m.mode[m.current].InUser?
            && var used := 4 * |SM.Enter(b, m, SM.FaultEntry).abt|;
            && used == 4 * |m.abt| + 60
            && used <= b.cfg.procs * 60
            && (b.cfg.procs <= 17 ==> used <= 0x400)
  {
    MachineRefinesKernel(b, KS.Boot(b.cfg), BootMach(b, s, m0, ops), rounds);
    KR.RoomForAFault(b.cfg, KS.Boot(b.cfg), TrapsOf(rounds));
  }
}
