/** When readers are served in the order in which they called. An interrupt that brings
    no input sends the reader it wakes to the end of the queue; that is the one thing
    that can put a later caller ahead of an earlier one. */
module KernelFifo {
  import opened Tasks
  import opened RxRing
  import opened KernelSpec
  import opened KernelInvariant
  import opened KernelSteps
  import opened KernelProperties
  import opened KernelQueue
  import opened KernelRuns
  import WS = WholeSystem

  // ---------------------------------------------------------------- order

  ghost predicate Before(q: seq<nat>, t: nat, u: nat) {
    exists i, j :: 0 <= i < j < |q| && q[i] == t && q[j] == u
  }

  /** No two entries of a appear in b in the opposite order. */
  ghost predicate OrderKept(a: seq<nat>, b: seq<nat>) {
    forall t, u :: Before(a, t, u) ==> !Before(b, u, t)
  }

  lemma NotBoth(q: seq<nat>, t: nat, u: nat)
    requires NoDup(q) && Before(q, t, u)
    ensures !Before(q, u, t)
  {
  }

  lemma {:induction false} LiveNoDup(s: seq<TaskState>, q: seq<nat>)
    requires NoDup(q)
    ensures NoDup(LiveOf(s, q)) && forall t :: t in LiveOf(s, q) <==> t in q && t < |s| && s[t].Blocked?
  {
    if q != [] {
      var rest := q[1..];
      assert NoDup(rest) && q[0] !in rest && forall t :: t in q <==> t == q[0] || t in rest;
      LiveNoDup(s, rest);
    }
  }

  /** Order in a subsequence is order in the whole. */
  lemma OrderFromSub(a: seq<nat>, b: seq<nat>)
    requires NoDup(a) && forall t, u :: Before(b, t, u) && t in a && u in a ==> Before(a, t, u)
    ensures OrderKept(a, b)
  {
    forall t, u | Before(a, t, u)
      ensures !Before(b, u, t)
    {
      NotBoth(a, t, u);
      assert t in a && u in a;
    }
  }

  lemma {:induction false} WithoutKeepsOrder(c: Config, q: seq<nat>, p: nat, t: nat, u: nat)
    requires c.Valid() && Before(Without(c, q, p), t, u)
    ensures Before(q, t, u)
  {
    if q != [] {
      var w, rest := Without(c, q, p), Without(c, q[1..], p);
      WithoutSub(c, q[1..], p);
      var i, j :| 0 <= i < j < |w| && w[i] == t && w[j] == u;
      if c.Pid(q[0]) == p {
        assert w == rest;
        WithoutKeepsOrder(c, q[1..], p, t, u);
        Later(q, t, u);
      } else if i == 0 {
        assert w[j] == rest[j - 1] && u in rest;
        var k :| 0 <= k < |q[1..]| && q[1..][k] == u;
        assert q[0] == t && q[k + 1] == u;
      } else {
        assert rest[i - 1] == t && rest[j - 1] == u;
        WithoutKeepsOrder(c, q[1..], p, t, u);
        Later(q, t, u);
      }
    }
  }

  lemma {:induction false} WithoutSub(c: Config, q: seq<nat>, p: nat)
    requires c.Valid()
    ensures forall t :: t in Without(c, q, p) <==> t in q && c.Pid(t) != p
  {
    if q != [] {
      WithoutSub(c, q[1..], p);
      assert forall t :: t in q <==> t == q[0] || t in q[1..];
    }
  }

  lemma Later(q: seq<nat>, t: nat, u: nat)
    requires q != [] && Before(q[1..], t, u)
    ensures Before(q, t, u)
  {
    var i, j :| 0 <= i < j < |q[1..]| && q[1..][i] == t && q[1..][j] == u;
    assert q[i + 1] == t && q[j + 1] == u;
  }

  // ------------------------------------------------------------- one step

  /** An interrupt that brings no input while several readers sleep. */
  ghost predicate IdleRx(k: Kern, trap: Trap) {
    trap.RxIrq? && Drain(k.ring, trap.bytes) == [] && |Live(k)| >= 2
  }

  lemma IdleRxSwaps(q: seq<nat>)
    requires |q| >= 2
    ensures !OrderKept(q, q[1..] + [q[0]])
  {
    var b := q[1..] + [q[0]];
    assert q[0] == q[0] && q[1] == q[1] && Before(q, q[0], q[1]);
    assert b[0] == q[1] && b[|b| - 1] == q[0] && Before(b, q[1], q[0]);
  }

  lemma TailKeepsOrder(q: seq<nat>)
    requires NoDup(q) && q != []
    ensures OrderKept(q, q[1..])
  {
    forall t, u | Before(q[1..], t, u)
      ensures Before(q, t, u)
    {
      Later(q, t, u);
    }
    OrderFromSub(q, q[1..]);
  }

  lemma AppendKeepsOrder(q: seq<nat>, x: nat)
    requires NoDup(q) && x !in q
    ensures OrderKept(q, q + [x])
  {
    var b := q + [x];
    forall t, u | Before(b, t, u) && t in q && u in q
      ensures Before(q, t, u)
    {
      var i, j :| 0 <= i < j < |b| && b[i] == t && b[j] == u;
      assert b[|q|] == x && j != |q|;
      assert q[i] == t && q[j] == u;
    }
    OrderFromSub(q, b);
  }

  lemma WithoutIsOrdered(c: Config, q: seq<nat>, p: nat)
    requires c.Valid() && NoDup(q)
    ensures OrderKept(q, Without(c, q, p))
  {
    forall t, u | Before(Without(c, q, p), t, u)
      ensures Before(q, t, u)
    {
      WithoutKeepsOrder(c, q, p, t, u);
    }
    OrderFromSub(q, Without(c, q, p));
  }

  lemma SameKeepsOrder(q: seq<nat>)
    requires NoDup(q)
    ensures OrderKept(q, q)
  {
    OrderFromSub(q, q);
  }

  lemma RxOrder(q: seq<nat>, idle: bool)
    requires NoDup(q)
    ensures OrderKept(q, if q == [] then [] else if idle then q[1..] + [q[0]] else q[1..]) <==> !(idle && |q| >= 2)
  {
    SameKeepsOrder(q);
    if q != [] && !idle {
      TailKeepsOrder(q);
    } else if |q| >= 2 {
      IdleRxSwaps(q);
    } else if q != [] {
      assert q[1..] + [q[0]] == q;
    }
  }

  /** A step keeps the order of the sleeping readers exactly when it is not an interrupt
      without input that finds several of them. */
  lemma OrderKeptIff(c: Config, k: Kern, trap: Trap)
    requires Inv(c, k) && OnTrap(c, k, trap).outcome.ToUser?
    ensures OrderKept(Live(k), Live(OnTrap(c, k, trap).k)) <==> !IdleRx(k, trap)
  {
    LiveIsIdeal(c, k, trap);
    IdealOrder(c, k, trap);
  }

  lemma IdealOrder(c: Config, k: Kern, trap: Trap)
    requires Inv(c, k)
    ensures OrderKept(Live(k), IdealNext(c, k, Live(k), trap)) <==> !IdleRx(k, trap)
  {
    var live := Live(k);
    LiveNoDup(k.states, k.waitq);
    SameKeepsOrder(live);
    match trap
    case RxIrq(bytes) =>
      RxOrder(live, Drain(k.ring, bytes) == []);
    case Svc(num, a0, _, _) =>
      if BlockingRead(trap) {
        AppendKeepsOrder(live, k.current);
      } else if num == SYS_KILL {
        WithoutIsOrdered(c, live, a0);
      }
    case Fault => WithoutIsOrdered(c, live, c.Pid(k.current));
    case _ =>
  }

  // ------------------------------------------------------------ order over runs

  ghost predicate NoIdleRx(c: Config, k: Kern, traps: seq<Trap>)
    requires Inv(c, k)
    decreases |traps|
  {
    traps == [] || !OnTrap(c, k, traps[0]).outcome.ToUser? ||
    (&& !IdleRx(k, traps[0])
     && (StepTwoPhase(c, k, traps[0]);
         NoIdleRx(c, OnTrap(c, k, traps[0]).k, traps[1..])))
  }

  /** No step of the run puts a later sleeper ahead of an earlier one. */
  ghost predicate OrderAlwaysKept(c: Config, k: Kern, traps: seq<Trap>)
    requires Inv(c, k)
    decreases |traps|
  {
    traps == [] || !OnTrap(c, k, traps[0]).outcome.ToUser? ||
    (&& OrderKept(Live(k), Live(OnTrap(c, k, traps[0]).k))
     && (StepTwoPhase(c, k, traps[0]);
         OrderAlwaysKept(c, OnTrap(c, k, traps[0]).k, traps[1..])))
  }

  lemma {:induction false} OrderOverRuns(c: Config, k: Kern, traps: seq<Trap>)
    requires Inv(c, k)
    ensures OrderAlwaysKept(c, k, traps) <==> NoIdleRx(c, k, traps)
    decreases |traps|
  {
    if traps != [] && OnTrap(c, k, traps[0]).outcome.ToUser? {
      StepTwoPhase(c, k, traps[0]);
      OrderKeptIff(c, k, traps[0]);
      OrderOverRuns(c, OnTrap(c, k, traps[0]).k, traps[1..]);
    }
  }

  // --------------------------------------------------------- leaving the queue

  lemma LiveIff(c: Config, k: Kern, t: nat)
    requires Base(c, k)
    ensures t in Live(k) <==> t < |k.states| && k.states[t].Blocked?
  {
    LiveNoDup(k.states, k.waitq);
  }

  ghost predicate NoneDone(done: seq<Done>, t: nat) {
    forall d :: d in done ==> d.tid != t
  }

  /** A sleeper stops sleeping because it is at the head and its read finishes, or
      because it dies. */
  lemma LeavesServedOrDead(c: Config, k: Kern, trap: Trap, t: nat)
    requires Inv(c, k) && OnTrap(c, k, trap).outcome.ToUser?
    requires t in Live(k) && t !in Live(OnTrap(c, k, trap).k)
    ensures var r := OnTrap(c, k, trap);
            || (t == Live(k)[0] && |r.done| == 1 && r.done[0].tid == t)
            || (Shape(c, r.k) && t < |r.k.states| && r.k.states[t].Dead? && r.k.current != t)
  {
    LiveIsIdeal(c, k, trap);
    LiveIff(c, k, t);
    if trap.RxIrq? {
      var live := Live(k);
      assert Drain(k.ring, trap.bytes) != [] && t == live[0] by {
        assert forall u :: u in live <==> u == live[0] || u in live[1..];
      }
      HeadIsServed(c, k, trap.bytes);
    } else {
      assert Fatal(c, k, trap, t) by {
        LeavesByKill(c, k, trap, t);
      }
      DiesExactlyWhenFatal(c, k, trap, t);
      OffCpu(c, k, trap, t);
    }
  }

  lemma LeavesByKill(c: Config, k: Kern, trap: Trap, t: nat)
    requires Inv(c, k) && !trap.RxIrq? && t in Live(k) && t !in IdealNext(c, k, Live(k), trap)
    ensures Fatal(c, k, trap, t)
  {
    match trap
    case Svc(num, a0, _, _) => WithoutSub(c, Live(k), a0);
    case Fault => WithoutSub(c, Live(k), c.Pid(k.current));
    case _ =>
  }

  /** A thread that dies in its sleep is not on the CPU. */
  lemma OffCpu(c: Config, k: Kern, trap: Trap, t: nat)
    requires Inv(c, k) && OnTrap(c, k, trap).outcome.ToUser? && !trap.RxIrq?
    requires t < |k.states| && k.states[t].Blocked? && Shape(c, OnTrap(c, k, trap).k)
    requires OnTrap(c, k, trap).k.states[t].Dead?
    ensures OnTrap(c, k, trap).k.current != t
  {
    StepTwoPhase(c, k, trap);
    WS.DoneIsCurrents(c, k, trap);
  }

  /** A sleeper that goes on sleeping has not been answered. */
  lemma SleeperNotAnswered(c: Config, k: Kern, trap: Trap, t: nat)
    requires Inv(c, k) && OnTrap(c, k, trap).outcome.ToUser?
    requires t in Live(k) && t in Live(OnTrap(c, k, trap).k)
    ensures NoneDone(OnTrap(c, k, trap).done, t)
  {
    StepTwoPhase(c, k, trap);
    var r := OnTrap(c, k, trap);
    LiveIff(c, k, t);
    LiveIff(c, r.k, t);
    StepAnswers(c, k, trap, t);
    NoneCounted(r.done, t);
  }

  lemma {:induction false} NoneCounted(done: seq<Done>, t: nat)
    ensures DoneCount(done, t) == 0 ==> NoneDone(done, t)
  {
    if done != [] {
      NoneCounted(done[1..], t);
      assert forall d :: d in done ==> d == done[0] || d in done[1..];
    }
  }

  /** The dead are never answered. */
  lemma {:induction false} DeadNotAnswered(c: Config, k: Kern, traps: seq<Trap>, t: nat)
    requires Inv(c, k) && t < c.Threads() && k.states[t].Dead? && t != k.current
    ensures NoneDone(Exec(c, k, traps).done, t)
    decreases |traps|
  {
    if traps != [] {
      var s := OnTrap(c, k, traps[0]);
      DeadNotAnsweredNow(c, k, traps[0], t);
      if s.outcome.ToUser? {
        StepTwoPhase(c, k, traps[0]);
        DeadStaysDead(c, k, traps[0], t);
        DeadNeverDispatched(c, k, traps[0], t);
        DeadNotAnswered(c, s.k, traps[1..], t);
        assert Exec(c, k, traps).done == s.done + Exec(c, s.k, traps[1..]).done;
      }
    }
  }

  lemma DeadNotAnsweredNow(c: Config, k: Kern, trap: Trap, t: nat)
    requires Inv(c, k) && t < c.Threads() && k.states[t].Dead? && t != k.current
    ensures NoneDone(OnTrap(c, k, trap).done, t)
  {
    WS.DoneIsCurrents(c, k, trap);
    EffectOnDead(c, k, trap, t);
  }

  // ------------------------------------------------------------- call order

  /** Where t is first answered, or the length if it never is. */
  function FirstDone(done: seq<Done>, t: nat): (i: nat)
    ensures i <= |done|
    ensures i < |done| ==> done[i].tid == t
  {
    if done == [] then 0 else if done[0].tid == t then 0 else 1 + FirstDone(done[1..], t)
  }

  lemma {:induction false} FirstDoneConcat(a: seq<Done>, b: seq<Done>, t: nat)
    requires NoneDone(a, t)
    ensures FirstDone(a + b, t) == |a| + FirstDone(b, t)
  {
    if a == [] {
      assert a + b == b;
    } else {
      assert (a + b)[1..] == a[1..] + b && a[0] in a;
      assert NoneDone(a[1..], t);
      FirstDoneConcat(a[1..], b, t);
    }
  }

  lemma {:induction false} NoneIsLast(done: seq<Done>, t: nat)
    requires NoneDone(done, t)
    ensures FirstDone(done, t) == |done|
  {
    if done != [] {
      assert done[0] in done && NoneDone(done[1..], t);
      NoneIsLast(done[1..], t);
    }
  }

  /** If u is answered, t was answered before, or has died. */
  ghost predicate InOrder(r: Run, t: nat, u: nat) {
    || FirstDone(r.done, u) == |r.done|
    || FirstDone(r.done, t) < FirstDone(r.done, u)
    || (t < |r.k.states| && r.k.states[t].Dead?)
  }

  lemma StillBefore(a: seq<nat>, b: seq<nat>, t: nat, u: nat)
    requires Before(a, t, u) && OrderKept(a, b) && t in b && u in b && t != u
    ensures Before(b, t, u)
  {
    var i :| 0 <= i < |b| && b[i] == t;
    var j :| 0 <= j < |b| && b[j] == u;
    assert j < i ==> Before(b, u, t);
  }

  /** Without idle interrupts sleeping reads finish in the order of their calls: of two
      sleepers the later is never answered before the earlier, unless the earlier dies. */
  lemma {:induction false} ServedInOrder(c: Config, k: Kern, traps: seq<Trap>, t: nat, u: nat)
    requires Inv(c, k) && NoIdleRx(c, k, traps) && Before(Live(k), t, u)
    requires Exec(c, k, traps).outcome.ToUser?
    ensures InOrder(Exec(c, k, traps), t, u)
    decreases |traps|
  {
    if traps != [] {
      var s := OnTrap(c, k, traps[0]);
      StepTwoPhase(c, k, traps[0]);
      LiveNoDup(k.states, k.waitq);
      OrderKeptIff(c, k, traps[0]);
      if t in Live(s.k) && u in Live(s.k) {
        StillBefore(Live(k), Live(s.k), t, u);
        ServedInOrder(c, s.k, traps[1..], t, u);
        BothStillAsleep(c, k, traps, t, u);
      } else if t !in Live(s.k) {
        EarlierLeft(c, k, traps, t, u);
      } else {
        LaterLeft(c, k, traps, t, u);
      }
    }
  }

  lemma {:induction false} BothStillAsleep(c: Config, k: Kern, traps: seq<Trap>, t: nat, u: nat)
    requires Inv(c, k) && traps != [] && OnTrap(c, k, traps[0]).outcome.ToUser?
    requires var s := OnTrap(c, k, traps[0]);
             && t in Live(k) && u in Live(k) && t in Live(s.k) && u in Live(s.k)
             && Inv(c, s.k) && InOrder(Exec(c, s.k, traps[1..]), t, u)
    ensures InOrder(Exec(c, k, traps), t, u)
  {
    var s := OnTrap(c, k, traps[0]);
    var rest := Exec(c, s.k, traps[1..]);
    SleeperNotAnswered(c, k, traps[0], t);
    SleeperNotAnswered(c, k, traps[0], u);
    FirstDoneConcat(s.done, rest.done, t);
    FirstDoneConcat(s.done, rest.done, u);
    assert Exec(c, k, traps).done == s.done + rest.done && Exec(c, k, traps).k == rest.k;
  }

  lemma {:induction false} EarlierLeft(c: Config, k: Kern, traps: seq<Trap>, t: nat, u: nat)
    requires Inv(c, k) && traps != [] && Exec(c, k, traps).outcome.ToUser?
    requires Before(Live(k), t, u) && t !in Live(OnTrap(c, k, traps[0]).k)
    ensures InOrder(Exec(c, k, traps), t, u)
  {
    var s := OnTrap(c, k, traps[0]);
    StepTwoPhase(c, k, traps[0]);
    LiveNoDup(k.states, k.waitq);
    LiveIff(c, k, t);
    var rest := Exec(c, s.k, traps[1..]);
    assert Exec(c, k, traps).done == s.done + rest.done && Exec(c, k, traps).k == rest.k;
    assert t != u;
    LeavesServedOrDead(c, k, traps[0], t);
    if |s.done| == 1 && s.done[0].tid == t {
      ServedFirst(s.done, rest.done, t, u);
    } else {
      DeadForever(c, s.k, traps[1..], t);
    }
  }

  lemma ServedFirst(x: seq<Done>, y: seq<Done>, t: nat, u: nat)
    requires |x| == 1 && x[0].tid == t && t != u
    ensures FirstDone(x + y, t) < FirstDone(x + y, u)
  {
  }

  lemma {:induction false} LaterLeft(c: Config, k: Kern, traps: seq<Trap>, t: nat, u: nat)
    requires Inv(c, k) && traps != [] && Exec(c, k, traps).outcome.ToUser?
    requires Before(Live(k), t, u) && u !in Live(OnTrap(c, k, traps[0]).k)
    ensures InOrder(Exec(c, k, traps), t, u)
  {
    var s := OnTrap(c, k, traps[0]);
    StepTwoPhase(c, k, traps[0]);
    LiveNoDup(k.states, k.waitq);
    LiveIff(c, k, u);
    var rest := Exec(c, s.k, traps[1..]);
    assert Exec(c, k, traps).done == s.done + rest.done;
    LeavesServedOrDead(c, k, traps[0], u);
    assert u != Live(k)[0];
    SleeperNotAnsweredDead(c, k, traps[0], u);
    DeadNotAnswered(c, s.k, traps[1..], u);
    NoneIsLast(s.done + rest.done, u);
  }

  /** A sleeper that dies in a step is not answered in it either. */
  lemma SleeperNotAnsweredDead(c: Config, k: Kern, trap: Trap, t: nat)
    requires Inv(c, k) && OnTrap(c, k, trap).outcome.ToUser? && t in Live(k)
    requires Shape(c, OnTrap(c, k, trap).k) && t < c.Threads() && OnTrap(c, k, trap).k.states[t].Dead?
    ensures NoneDone(OnTrap(c, k, trap).done, t)
  {
    LiveIff(c, k, t);
    DiesExactlyWhenFatal(c, k, trap, t);
    WS.DoneIsCurrents(c, k, trap);
  }

  // ------------------------------------------------------ how long a reader waits

  /** How many sleepers are ahead of t. */
  function Ahead(q: seq<nat>, t: nat): nat
    requires t in q
  {
    if q[0] == t then 0 else 1 + Ahead(q[1..], t)
  }

  /** The receive interrupts of the run that bring input. */
  ghost function Deliveries(c: Config, k: Kern, traps: seq<Trap>): nat
    requires Inv(c, k)
    decreases |traps|
  {
    if traps == [] || !OnTrap(c, k, traps[0]).outcome.ToUser? then 0
    else
      StepTwoPhase(c, k, traps[0]);
      Bit(Delivers(k, traps[0])) + Deliveries(c, OnTrap(c, k, traps[0]).k, traps[1..])
  }

  ghost predicate Delivers(k: Kern, trap: Trap) {
    trap.RxIrq? && Drain(k.ring, trap.bytes) != []
  }

  lemma {:induction false} AheadAppend(q: seq<nat>, x: nat, t: nat)
    requires t in q
    ensures Ahead(q + [x], t) == Ahead(q, t)
  {
    if q[0] != t {
      assert (q + [x])[1..] == q[1..] + [x];
      AheadAppend(q[1..], x, t);
    }
  }

  lemma {:induction false} AheadWithout(c: Config, q: seq<nat>, p: nat, t: nat)
    requires c.Valid() && t in q && t in Without(c, q, p)
    ensures Ahead(Without(c, q, p), t) <= Ahead(q, t)
  {
    WithoutSub(c, q, p);
    WithoutSub(c, q[1..], p);
    var w, rest := Without(c, q, p), Without(c, q[1..], p);
    if c.Pid(q[0]) == p {
      assert w == rest;
      AheadWithout(c, q[1..], p, t);
    } else {
      assert w[0] == q[0] && w[1..] == rest;
      if q[0] != t {
        AheadWithout(c, q[1..], p, t);
      }
    }
  }

  /** Nobody gets in front of a sleeper, and every delivery takes one from in front. */
  lemma StepAdvances(c: Config, k: Kern, trap: Trap, t: nat)
    requires Inv(c, k) && OnTrap(c, k, trap).outcome.ToUser? && !IdleRx(k, trap)
    requires t in Live(k) && t in Live(OnTrap(c, k, trap).k)
    ensures Ahead(Live(OnTrap(c, k, trap).k), t) + Bit(Delivers(k, trap)) <= Ahead(Live(k), t)
  {
    LiveIsIdeal(c, k, trap);
    IdealAdvances(c, k, trap, t);
  }

  lemma IdealAdvances(c: Config, k: Kern, trap: Trap, t: nat)
    requires Inv(c, k) && !IdleRx(k, trap) && t in Live(k) && t in IdealNext(c, k, Live(k), trap)
    ensures Ahead(IdealNext(c, k, Live(k), trap), t) + Bit(Delivers(k, trap)) <= Ahead(Live(k), t)
  {
    LiveNoDup(k.states, k.waitq);
    var live := Live(k);
    match trap
    case RxIrq(bytes) =>
      if Drain(k.ring, bytes) == [] {
        assert live[1..] + [live[0]] == live;
      }
    case Svc(num, a0, _, _) =>
      AheadAppend(live, k.current, t);
      if t in Without(c, live, a0) {
        AheadWithout(c, live, a0, t);
      }
    case Fault => AheadWithout(c, live, c.Pid(k.current), t);
    case _ =>
  }

  ghost predicate AnsweredOrDead(r: Run, t: nat) {
    (exists d :: d in r.done && d.tid == t) || (t < |r.k.states| && r.k.states[t].Dead?)
  }

  /** Without idle interrupts, a sleeper with n sleepers ahead of it is answered by the
      (n+1)-th delivery at the latest, unless it dies. */
  lemma {:induction false} ServedWithin(c: Config, k: Kern, traps: seq<Trap>, t: nat)
    requires Inv(c, k) && NoIdleRx(c, k, traps) && t in Live(k)
    requires Exec(c, k, traps).outcome.ToUser? && Deliveries(c, k, traps) > Ahead(Live(k), t)
    ensures AnsweredOrDead(Exec(c, k, traps), t)
    decreases |traps|
  {
    var s := OnTrap(c, k, traps[0]);
    StepTwoPhase(c, k, traps[0]);
    LiveIff(c, k, t);
    if t in Live(s.k) {
      StepAdvances(c, k, traps[0], t);
      ServedWithin(c, s.k, traps[1..], t);
    } else {
      LeavesServedOrDead(c, k, traps[0], t);
    }
    OneStepServed(c, k, traps, t);
  }

  lemma {:induction false} OneStepServed(c: Config, k: Kern, traps: seq<Trap>, t: nat)
    requires Inv(c, k) && traps != [] && Exec(c, k, traps).outcome.ToUser? && t < c.Threads()
    requires var s := OnTrap(c, k, traps[0]);
             && Inv(c, s.k)
             && (AnsweredOrDead(Exec(c, s.k, traps[1..]), t) || (|s.done| == 1 && s.done[0].tid == t)
                 || s.k.states[t].Dead?)
    ensures AnsweredOrDead(Exec(c, k, traps), t)
  {
    var s := OnTrap(c, k, traps[0]);
    var r, rest := Exec(c, k, traps), Exec(c, s.k, traps[1..]);
    assert r.done == s.done + rest.done && r.k == rest.k;
    if |s.done| == 1 && s.done[0].tid == t {
      assert r.done[0] in r.done;
    } else if s.k.states[t].Dead? {
      DeadForever(c, s.k, traps[1..], t);
    }
  }
}
