/** Concrete runs from boot that mark the edges of the general statements. */
module KernelExamples {
  import opened Tasks
  import opened RxRing
  import opened KernelSpec
  import opened KernelInvariant
  import opened KernelProperties
  import opened KernelRuns
  import opened KernelSteps
  import UserPointer

  const BUF: Word := UserPointer.USER_VIRT_BASE

  const READ_ONE := Svc(SYS_READ, 0, BUF, 1)
  const EXIT := Svc(SYS_EXIT, 0, 0, 0)

  const THREE := Config(3, 1, [None, None, None])

  function OneReader(): Kern {
    Kern([Blocked, Running, Ready], 1, false, None, [0], [], [InRead(BUF, 1), AtTail, AtTail], 0)
  }

  function TwoReaders(): Kern {
    Kern([Blocked, Blocked, Running], 2, false, None, [0, 1], [], [InRead(BUF, 1), InRead(BUF, 1), AtTail], 0)
  }

  function Overslept(): Kern {
    Kern([Running, Blocked, Ready], 0, false, None, [1], [66], [AtTail, InRead(BUF, 1), AtTail], 0)
  }

  lemma FirstRead()
    ensures Shape(THREE, Boot(THREE))
    ensures OnTrap(THREE, Boot(THREE), READ_ONE) == Step(OneReader(), ToUser, 1, [], [SwitchTo(1)])
  {
    var k := Boot(THREE);
    var b := Block(THREE, k, BUF, 1);
    assert b.states == [Blocked, Ready, Ready] && b.waitq == [0];
    assert RingNext(0, 0, 3) == 1;
    assert Schedule(THREE, b).k == OneReader();
    assert Resume(THREE, OneReader()) == Step(OneReader(), ToUser, 0, [], []);
  }

  lemma SecondRead()
    ensures OnTrap(THREE, OneReader(), READ_ONE) == Step(TwoReaders(), ToUser, 1, [], [SwitchTo(2)])
  {
    var b := Block(THREE, OneReader(), BUF, 1);
    assert b.states == [Blocked, Blocked, Ready] && b.waitq == [0, 1];
    assert RingNext(1, 0, 3) == 2;
    assert Schedule(THREE, b).k == TwoReaders();
    assert Resume(THREE, TwoReaders()) == Step(TwoReaders(), ToUser, 0, [], []);
  }

  lemma DoubleBurst()
    ensures OnTrap(THREE, TwoReaders(), RxIrq([65, 66])).k == Overslept()
    ensures OnTrap(THREE, TwoReaders(), RxIrq([65, 66])).outcome.ToUser?
  {
    var k := TwoReaders();
    assert Drain([], [65, 66]) == [65, 66] by {
      assert [65, 66][1..] == [66];
      assert Drain([65], [66]) == [65, 66];
    }
    var k1 := k.(ring := [65, 66]);
    var woken := WakeReader(THREE, k1);
    assert woken == k1.(waitq := [1], states := [Ready, Blocked, Running], hint := Some(0), resched := true);
    var m := Schedule(THREE, woken).k;
    assert m.states == [Running, Blocked, Ready] && m.current == 0;
    assert [65, 66][1..] == [66] && [65, 66][..1] == [65];
    assert ReadLoop(THREE, m, BUF, 1).k == Overslept();
  }

  /** Waking one reader per interrupt, rather than one per byte, can leave a reader
      asleep although there is input: two threads wait for one byte each and a burst
      of two arrives. */
  lemma BurstCanLoseWakeup()
    ensures var r := FromBoot(THREE, [READ_ONE, READ_ONE, RxIrq([65, 66])]);
            r.outcome.ToUser? && !NoLostWakeup(r.k)
  {
    var rx := RxIrq([65, 66]);
    FirstRead();
    SecondRead();
    DoubleBurst();
    BootInv(THREE);
    ExecStep(THREE, Boot(THREE), READ_ONE, OneReader(), [READ_ONE] + ([rx] + []));
    ExecStep(THREE, OneReader(), READ_ONE, TwoReaders(), [rx] + []);
    ExecStep(THREE, TwoReaders(), rx, Overslept(), []);
    assert [READ_ONE] + ([READ_ONE] + ([rx] + [])) == [READ_ONE, READ_ONE, rx];
    assert Overslept().states[1].Blocked? && Overslept().ring == [66];
  }

  /** r is r' with some calls finished before it. */
  ghost predicate Extends(r: Run, done: seq<Done>, r': Run) {
    r.k == r'.k && r.outcome == r'.outcome && r.done == done + r'.done
  }

  lemma ExtendsTwice(r: Run, x: seq<Done>, r1: Run, y: seq<Done>, r2: Run)
    requires Extends(r, x, r1) && Extends(r1, y, r2)
    ensures Extends(r, x + y, r2)
  {
  }

  lemma ExecStep(c: Config, k: Kern, trap: Trap, k': Kern, rest: seq<Trap>)
    requires Inv(c, k) && OnTrap(c, k, trap).outcome.ToUser? && OnTrap(c, k, trap).k == k'
    ensures Inv(c, k')
    ensures Extends(Exec(c, k, [trap] + rest), OnTrap(c, k, trap).done, Exec(c, k', rest))
  {
    StepTwoPhase(c, k, trap);
    assert ([trap] + rest)[1..] == rest;
  }

  // ------------------------------------------------------------ losing one's place

  const SILENCE := RxIrq([])
  const LETTER := RxIrq([65])

  /** As TwoReaders, in the opposite order. */
  function Swapped(): Kern {
    TwoReaders().(waitq := [1, 0])
  }

  lemma SilenceSwaps()
    ensures OnTrap(THREE, TwoReaders(), SILENCE).k == Swapped()
    ensures OnTrap(THREE, TwoReaders(), SILENCE).outcome.ToUser? && OnTrap(THREE, TwoReaders(), SILENCE).done == []
  {
    var k := TwoReaders();
    var woken := WakeReader(THREE, k);
    assert woken == k.(waitq := [1], states := [Ready, Blocked, Running], hint := Some(0), resched := true);
    var m := Schedule(THREE, woken).k;
    assert m.states == [Running, Blocked, Ready] && m.current == 0;
    var b := Block(THREE, m, BUF, 1);
    assert b.states == [Blocked, Blocked, Ready] && b.waitq == [1, 0];
    assert RingNext(0, 0, 3) == 1 && RingNext(0, 1, 3) == 2;
    assert Sweep(b.states, 0, 1) == Some(2);
    assert Schedule(THREE, b).k == Swapped();
    assert Resume(THREE, Swapped()) == Step(Swapped(), ToUser, 0, [], []);
  }

  lemma LetterServesSecond()
    ensures OnTrap(THREE, Swapped(), LETTER).k == OneReader() && OnTrap(THREE, Swapped(), LETTER).outcome.ToUser?
    ensures OnTrap(THREE, Swapped(), LETTER).done == [Done(1, SYS_READ, 1, BUF, [65])]
  {
    var k1 := Swapped().(ring := [65]);
    assert Drain([], [65]) == [65] by {
      assert [65][1..] == [];
    }
    var woken := WakeReader(THREE, k1);
    assert woken == k1.(waitq := [0], states := [Blocked, Ready, Running], hint := Some(1), resched := true);
    var m := Schedule(THREE, woken).k;
    assert m.states == [Blocked, Running, Ready] && m.current == 1;
    assert [65][1..] == [] && [65][..1] == [65];
  }

  /** Two readers in the wrong hands: an interrupt without input, then one with a byte,
      then the thread that got the byte reads again. */
  function Cycles(n: nat): seq<Trap> {
    if n == 0 then [] else [SILENCE] + ([LETTER] + ([READ_ONE] + Cycles(n - 1)))
  }

  const SERVED := Done(1, SYS_READ, 1, BUF, [65])

  ghost predicate Goes(c: Config, k: Kern, trap: Trap, k': Kern, done: seq<Done>) {
    && Inv(c, k)
    && var r := OnTrap(c, k, trap);
    r.outcome.ToUser? && r.k == k' && r.done == done
  }

  lemma GoesOn(c: Config, k: Kern, trap: Trap, k': Kern, done: seq<Done>, rest: seq<Trap>)
    requires Goes(c, k, trap, k', done)
    ensures Inv(c, k') && Extends(Exec(c, k, [trap] + rest), done, Exec(c, k', rest))
  {
    ExecStep(c, k, trap, k', rest);
  }

  /** One cycle ends where it began, with one more read finished. */
  lemma OneCycle(c: Config, k: Kern, a: Trap, k1: Kern, b: Trap, d: Done, k2: Kern, e: Trap, rest: seq<Trap>)
    requires Goes(c, k, a, k1, []) && Goes(c, k1, b, k2, [d]) && Goes(c, k2, e, k, [])
    ensures Extends(Exec(c, k, [a] + ([b] + ([e] + rest))), [d], Exec(c, k, rest))
  {
    GoesOn(c, k, a, k1, [], [b] + ([e] + rest));
    GoesOn(c, k1, b, k2, [d], [e] + rest);
    GoesOn(c, k2, e, k, [], rest);
    ExtendsTwice(Exec(c, k1, [b] + ([e] + rest)), [d], Exec(c, k2, [e] + rest), [], Exec(c, k, rest));
    ExtendsTwice(Exec(c, k, [a] + ([b] + ([e] + rest))), [], Exec(c, k1, [b] + ([e] + rest)), [d] + [],
                 Exec(c, k, rest));
    assert [] + ([d] + []) == [d];
  }

  lemma CountServed(r: Run, r': Run)
    requires Extends(r, [SERVED], r')
    ensures DoneCount(r.done, 0) == DoneCount(r'.done, 0) && DoneCount(r.done, 1) == DoneCount(r'.done, 1) + 1
  {
    assert r.done[1..] == r'.done;
  }

  lemma {:induction false} CycleOver(k: Kern, k1: Kern, k2: Kern, n: nat)
    requires Goes(THREE, k, SILENCE, k1, []) && Goes(THREE, k1, LETTER, k2, [SERVED])
    requires Goes(THREE, k2, READ_ONE, k, [])
    ensures var r := Exec(THREE, k, Cycles(n));
            r.outcome.ToUser? && r.k == k && DoneCount(r.done, 0) == 0 && DoneCount(r.done, 1) == n
  {
    if n > 0 {
      CycleOver(k, k1, k2, n - 1);
      OneCycle(THREE, k, SILENCE, k1, LETTER, SERVED, k2, READ_ONE, Cycles(n - 1));
      CountServed(Exec(THREE, k, Cycles(n)), Exec(THREE, k, Cycles(n - 1)));
    }
  }

  lemma ReadersCycle()
    requires Inv(THREE, TwoReaders())
    ensures Goes(THREE, TwoReaders(), SILENCE, Swapped(), [])
    ensures Goes(THREE, Swapped(), LETTER, OneReader(), [SERVED])
    ensures Goes(THREE, OneReader(), READ_ONE, TwoReaders(), [])
  {
    SilenceSwaps();
    StepTwoPhase(THREE, TwoReaders(), SILENCE);
    LetterServesSecond();
    StepTwoPhase(THREE, Swapped(), LETTER);
    SecondRead();
  }

  /** The reader that called first can starve: thread 0 calls before thread 1, and yet
      thread 1 gets n bytes while thread 0 gets none, for every n. */
  lemma FirstReaderCanStarve(n: nat)
    ensures var r := FromBoot(THREE, [READ_ONE] + ([READ_ONE] + Cycles(n)));
            && r.outcome.ToUser? && Shape(THREE, r.k) && r.k.states[0].Blocked?
            && DoneCount(r.done, 0) == 0 && DoneCount(r.done, 1) == n
  {
    FirstRead();
    SecondRead();
    BootInv(THREE);
    ExecStep(THREE, Boot(THREE), READ_ONE, OneReader(), [READ_ONE] + Cycles(n));
    ExecStep(THREE, OneReader(), READ_ONE, TwoReaders(), Cycles(n));
    ReadersCycle();
    CycleOver(TwoReaders(), Swapped(), OneReader(), n);
    var done := Exec(THREE, TwoReaders(), Cycles(n)).done;
    assert [] + ([] + done) == done;
  }

  const ONE := Config(1, 1, [None])

  /** The one way out of DEAD: the last thread exits, keeps the CPU, and reads. */
  lemma LastThreadCanUndie()
    ensures var dead := FromBoot(ONE, [EXIT]);
            dead.outcome.ToUser? && dead.k.states == [Dead]
    ensures var r := FromBoot(ONE, [EXIT, READ_ONE]);
            r.outcome.Spins? && r.k.states == [Blocked]
  {
    BootInv(ONE);
    LastExit();
    ExecStep(ONE, Boot(ONE), EXIT, Corpse(), []);
    ExecStep(ONE, Boot(ONE), EXIT, Corpse(), [READ_ONE]);
    LastRead();
    assert [EXIT] + [] == [EXIT] && [EXIT] + [READ_ONE] == [EXIT, READ_ONE];
    assert Exec(ONE, Corpse(), [READ_ONE]).k == OnTrap(ONE, Corpse(), READ_ONE).k;
  }

  function Corpse(): Kern {
    Kern([Dead], 0, false, None, [], [], [AtTail], 0)
  }

  lemma LastExit()
    ensures Inv(ONE, Boot(ONE))
    ensures OnTrap(ONE, Boot(ONE), EXIT).k == Corpse() && OnTrap(ONE, Boot(ONE), EXIT).outcome.ToUser?
  {
    BootInv(ONE);
    StepTwoPhase(ONE, Boot(ONE), EXIT);
    var p := Effect(ONE, Boot(ONE), EXIT);
    assert p.states == [Dead] && p.kont == [AtTail] && OthersIdle(p);
  }

  lemma LastRead()
    requires Inv(ONE, Corpse())
    ensures OnTrap(ONE, Corpse(), READ_ONE).outcome.Spins?
    ensures OnTrap(ONE, Corpse(), READ_ONE).k.states == [Blocked]
  {
    ReadBlocks(ONE, Corpse(), BUF, 1);
    assert OthersIdle(Corpse());
    assert Block(ONE, Corpse(), BUF, 1).states == [Blocked];
  }
}
