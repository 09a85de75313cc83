/** The wait queue with corpses. Killed waiters stay in it until a wake-up pops them;
    seen through `Live`, it nevertheless behaves like an ideal one from which the dead
    are removed at once. */
module KernelQueue {
  import opened Tasks
  import opened RxRing
  import opened KernelSpec
  import opened KernelInvariant
  import opened KernelSteps

  /** The waiters that are still BLOCKED, oldest first. */
  function LiveOf(states: seq<TaskState>, q: seq<nat>): seq<nat> {
    if q == [] then []
    else (if q[0] < |states| && states[q[0]].Blocked? then [q[0]] else []) + LiveOf(states, q[1..])
  }

  function Live(k: Kern): seq<nat> {
    LiveOf(k.states, k.waitq)
  }

  /** Drop the threads of process p. */
  function Without(c: Config, q: seq<nat>, p: nat): seq<nat>
    requires c.Valid()
  {
    if q == [] then []
    else (if c.Pid(q[0]) == p then [] else [q[0]]) + Without(c, q[1..], p)
  }

  /** The ideal queue: a read on an empty ring appends the caller, a kill or fault
      removes the process, and a receive interrupt takes the head. If there was no input
      after all, the head rejoins at the tail and so loses its place. */
  function IdealNext(c: Config, k: Kern, live: seq<nat>, trap: Trap): seq<nat>
    requires c.Valid()
  {
    match trap
    case RxIrq(bytes) =>
      if live == [] then []
      else if Drain(k.ring, bytes) == [] then live[1..] + [live[0]]
      else live[1..]
    case Svc(num, a0, _, _) =>
      if BlockingRead(trap) then (if k.ring == [] then live + [k.current] else live)
      else if num == SYS_KILL && a0 < c.procs then Without(c, live, a0)
      else live
    case Fault => Without(c, live, c.Pid(k.current))
    case _ => live
  }

  /** The wait queue refines the ideal queue step by step, whatever kills happened
      while threads were queued. */
  lemma LiveIsIdeal(c: Config, k: Kern, trap: Trap)
    requires Inv(c, k) && OnTrap(c, k, trap).outcome.ToUser?
    ensures Live(OnTrap(c, k, trap).k) == IdealNext(c, k, Live(k), trap)
  {
    StepTwoPhase(c, k, trap);
    WalkKeepsLive(c, trap, Effect(c, k, trap), OnTrap(c, k, trap));
    EffectOnLive(c, k, trap);
  }

  /** The final ring walk moves nobody in or out of the queue. */
  lemma WalkKeepsLive(c: Config, trap: Trap, p: Kern, r: Step)
    requires TwoPhase(c, trap, p, r) && r.outcome.ToUser?
    ensures Live(r.k) == Live(p)
  {
    assert r.k.waitq == p.waitq;
    LiveFrame(p.states, r.k.states, p.waitq);
  }

  /** A receive interrupt with input serves the head of the live queue: that thread is on
      the CPU at the end of the step, with its own read finished. */
  lemma HeadIsServed(c: Config, k: Kern, bytes: seq<Byte>)
    requires Inv(c, k) && Live(k) != [] && Drain(k.ring, bytes) != []
    ensures var r := OnTrap(c, k, RxIrq(bytes)); var w := Live(k)[0];
            && w < c.Threads() && k.states[w].Blocked? && k.kont[w].InRead?
            && r.outcome.ToUser? && r.k.current == w
            && var len := k.kont[w].len; var ring := Drain(k.ring, bytes);
            var n := if len < |ring| then len else |ring|;
            r.done == [Done(w, SYS_READ, n, k.kont[w].addr, ring[..n])] && r.k.ring == ring[n..]
  {
    LiveHead(k.states, k.waitq);
    RxWakes(c, k, bytes);
    StepTwoPhase(c, k, RxIrq(bytes));
  }

  lemma EffectOnLive(c: Config, k: Kern, trap: Trap)
    requires Inv(c, k)
    ensures Live(Effect(c, k, trap)) == IdealNext(c, k, Live(k), trap)
  {
    var p := Effect(c, k, trap);
    match trap
    case RxIrq(bytes) =>
      LiveHead(k.states, k.waitq);
      if SomeoneWaits(k) {
        RxOnLive(c, k, bytes);
      }
    case Svc(num, a0, a1, a2) =>
      if BlockingRead(trap) {
        if k.ring == [] {
          BlockOnLive(c, k, a1, a2);
        }
      } else if num == SYS_KILL && a0 < c.procs {
        KillOnLive(c, k.states, k.waitq, a0);
        LiveFrame(KillProcess(c, k.states, a0), p.states, k.waitq);
      } else {
        LiveFrame(k.states, p.states, k.waitq);
      }
    case Fault =>
      KillOnLive(c, k.states, k.waitq, c.Pid(k.current));
    case _ =>
  }

  lemma RxOnLive(c: Config, k: Kern, bytes: seq<Byte>)
    requires Inv(c, k) && SomeoneWaits(k)
    ensures Live(Effect(c, k, RxIrq(bytes))) == IdealNext(c, k, Live(k), RxIrq(bytes))
  {
    LiveHead(k.states, k.waitq);
    RxWakes(c, k, bytes);
    var i, m := FirstLive(k.states, k.waitq), WokenBy(c, k, bytes);
    Suffix(k.waitq, i);
    LiveFrame(k.states, m.states, m.waitq);
    assert Live(m) == Live(k)[1..] && m.current == Live(k)[0];
    if m.ring == [] {
      BlockOnLive(c, m, m.kont[m.current].addr, m.kont[m.current].len);
    }
  }

  lemma BlockOnLive(c: Config, k: Kern, addr: Word, len: Count)
    requires Mid(c, k)
    ensures Live(Block(c, k, addr, len)) == Live(k) + [k.current]
  {
    BlockQueues(c, k, addr, len);
    var b := Block(c, k, addr, len);
    LiveFrame(k.states, b.states, k.waitq);
    LiveAppend(b.states, k.waitq, k.current);
  }

  lemma {:induction false} LiveFrame(s: seq<TaskState>, s': seq<TaskState>, q: seq<nat>)
    requires |s| == |s'|
    requires forall t :: t in q && t < |s| ==> (s[t].Blocked? <==> s'[t].Blocked?)
    ensures LiveOf(s, q) == LiveOf(s', q)
  {
    if q != [] {
      assert q[0] in q;
      LiveFrame(s, s', q[1..]);
    }
  }

  lemma {:induction false} LiveAppend(s: seq<TaskState>, q: seq<nat>, t: nat)
    requires t < |s| && s[t].Blocked?
    ensures LiveOf(s, q + [t]) == LiveOf(s, q) + [t]
  {
    if q == [] {
    } else {
      assert (q + [t])[1..] == q[1..] + [t];
      LiveAppend(s, q[1..], t);
    }
  }

  lemma {:induction false} LiveHead(s: seq<TaskState>, q: seq<nat>)
    ensures var i := FirstLive(s, q);
            && (i == |q| <==> LiveOf(s, q) == [])
            && (i < |q| ==> LiveOf(s, q) == [q[i]] + LiveOf(s, q[i + 1..]))
  {
    if q == [] {
    } else if q[0] < |s| && s[q[0]].Blocked? {
      assert FirstLive(s, q) == 0;
    } else {
      LiveHead(s, q[1..]);
      LiveSkip(s, q);
      var i := FirstLive(s, q[1..]);
      if i < |q[1..]| {
        assert q[1..][i + 1..] == q[i + 2..] && q[1..][i] == q[i + 1];
      }
    }
  }

  lemma LiveSkip(s: seq<TaskState>, q: seq<nat>)
    requires q != [] && !(q[0] < |s| && s[q[0]].Blocked?)
    ensures FirstLive(s, q) == 1 + FirstLive(s, q[1..]) && LiveOf(s, q) == LiveOf(s, q[1..])
  {
  }

  lemma {:induction false} KillOnLive(c: Config, s: seq<TaskState>, q: seq<nat>, p: nat)
    requires c.Valid()
    ensures LiveOf(KillProcess(c, s, p), q) == Without(c, LiveOf(s, q), p)
  {
    if q != [] {
      KillOnLive(c, s, q[1..], p);
      var rest := LiveOf(s, q[1..]);
      if q[0] < |s| && s[q[0]].Blocked? {
        assert LiveOf(s, q)[1..] == rest;
      } else {
        assert LiveOf(s, q) == rest;
      }
    }
  }
}
