/** What every trap step keeps. `Inv` is the boundary invariant: it holds at every
    return to user mode. `Mid` is its counterpart just after a context switch, when
    the thread switched in may still have to finish a read. */
module KernelInvariant {
  import opened Tasks
  import opened RxRing
  import opened KernelSpec

  ghost predicate NobodyRunnable(k: Kern) {
    forall t :: 0 <= t < |k.states| ==> !Runnable(k.states[t])
  }

  ghost predicate OthersIdle(k: Kern) {
    forall t :: 0 <= t < |k.states| && t != k.current ==> !Runnable(k.states[t])
  }

  /** Every sleeper is queued and inside a read; only sleepers and corpses are queued. */
  ghost predicate QueueOk(states: seq<TaskState>, kont: seq<Kont>, q: seq<nat>)
    requires |states| == |kont|
  {
    && (forall t :: 0 <= t < |states| && states[t].Blocked? ==> t in q && kont[t].InRead?)
    && (forall t :: t in q ==> t < |states| && (states[t].Blocked? || states[t].Dead?))
  }

  /** The part of the invariant that does not depend on what the current thread is
      doing: the wait queue, the continuations and the uniqueness of RUNNING. */
  ghost predicate Base(c: Config, k: Kern) {
    && Shape(c, k)
    && NoDup(k.waitq)
    && |k.ring| <= RX_CAP
    && QueueOk(k.states, k.kont, k.waitq)
    && (forall t :: 0 <= t < |k.states| && k.states[t].Running? ==> t == k.current)
    && (forall t :: 0 <= t < |k.states| && t != k.current && k.hint != Some(t) && Runnable(k.states[t]) ==>
          k.kont[t].AtTail?)
  }

  ghost predicate Mid(c: Config, k: Kern) {
    && Base(c, k)
    && !k.resched
    && k.hint == None
    && k.current !in k.waitq
    && !k.states[k.current].Blocked?
  }

  ghost predicate Inv(c: Config, k: Kern) {
    && Mid(c, k)
    && k.kont[k.current].AtTail?
    && (Runnable(k.states[k.current]) || NobodyRunnable(k))
  }

  lemma BootInv(c: Config)
    requires c.Valid()
    ensures Inv(c, Boot(c))
    ensures var k := Boot(c);
            && |k.states| == c.Threads() && (forall t :: 0 <= t < |k.states| ==> k.states[t].Ready?)
            && k.current == 0 && k.waitq == [] && k.ring == [] && k.ticks == 0
  {
  }

  // ------------------------------------------------------------ the ring walk

  /** How many places t is after prev on the ring; a full turn for prev itself. */
  function Distance(prev: nat, t: nat, n: nat): int
    requires prev < n && t < n
  {
    if t > prev then t - prev else t + n - prev
  }

  lemma RingNextDistance(prev: nat, i: nat, n: nat)
    requires prev < n && i < n
    ensures Distance(prev, RingNext(prev, i, n), n) == i + 1
  {
  }

  lemma DistanceInjective(prev: nat, t: nat, u: nat, n: nat)
    requires prev < n && t < n && u < n && Distance(prev, t, n) == Distance(prev, u, n)
    ensures t == u
  {
  }

  /** The walk stops at the nearest runnable thread after prev, and misses none. */
  lemma {:induction false} SweepNearest(states: seq<TaskState>, prev: nat, i: nat)
    requires prev < |states|
    requires forall t :: 0 <= t < |states| && t != prev && Distance(prev, t, |states|) <= i ==> !Runnable(states[t])
    ensures var r := Sweep(states, prev, i);
            forall t :: 0 <= t < |states| && t != prev && Runnable(states[t]) ==>
              r.Some? && Distance(prev, r.value, |states|) <= Distance(prev, t, |states|)
    decreases |states| - i
  {
    var n := |states|;
    if i < n {
      var idx := RingNext(prev, i, n);
      RingNextDistance(prev, i, n);
      if idx == prev || !Runnable(states[idx]) {
        OneMorePlace(states, prev, i, idx);
        SweepNearest(states, prev, i + 1);
      } else {
        assert Sweep(states, prev, i) == Some(idx);
      }
    }
  }

  lemma OneMorePlace(states: seq<TaskState>, prev: nat, i: nat, idx: nat)
    requires prev < |states| && idx < |states| && Distance(prev, idx, |states|) == i + 1
    requires idx == prev || !Runnable(states[idx])
    requires forall t :: 0 <= t < |states| && t != prev && Distance(prev, t, |states|) <= i ==> !Runnable(states[t])
    ensures forall t :: 0 <= t < |states| && t != prev && Distance(prev, t, |states|) <= i + 1 ==> !Runnable(states[t])
  {
    forall t | 0 <= t < |states| && t != prev && Distance(prev, t, |states|) == i + 1
      ensures !Runnable(states[t])
    {
      DistanceInjective(prev, t, idx, |states|);
    }
  }

  // -------------------------------------------------------------- schedule()

  /** The states after a switch: the old thread is demoted if it was RUNNING, the new
      one is RUNNING, nobody else changes. */
  ghost predicate SwitchedStates(k: Kern, k': Kern) {
    && |k'.states| == |k.states| && k.current < |k.states| && k'.current < |k.states|
    && k'.states[k'.current].Running?
    && (k'.current != k.current ==>
          k'.states[k.current] == if k.states[k.current].Running? then Ready else k.states[k.current])
    && (forall t :: 0 <= t < |k.states| && t != k.current && t != k'.current ==> k'.states[t] == k.states[t])
  }

  /** Handing the CPU to a runnable thread keeps the invariant. */
  lemma SwitchEffect(c: Config, k: Kern, cand: nat)
    requires Base(c, k) && cand < c.Threads() && cand != k.current && Runnable(k.states[cand])
    requires Runnable(k.states[k.current]) ==> k.kont[k.current].AtTail?
    requires k.hint.Some? ==> k.hint.value == cand
    ensures var k' := PerformSwitch(c, k.(resched := false, hint := None), cand);
            && Mid(c, k') && SwitchedStates(k, k') && k'.current == cand
            && k' == k.(resched := false, hint := None, states := k'.states, current := cand)
  {
    var k' := PerformSwitch(c, k.(resched := false, hint := None), cand);
    assert forall t :: 0 <= t < |k.states| ==> (k'.states[t].Blocked? <==> k.states[t].Blocked?);
    assert forall t :: 0 <= t < |k.states| ==> (k'.states[t].Dead? <==> k.states[t].Dead?);
  }

  /** schedule() with the flag raised: it switches exactly when another thread can run,
      prefers the woken reader, and otherwise takes the nearest thread on the ring. */
  lemma ScheduleEffect(c: Config, k: Kern)
    requires Base(c, k) && k.resched
    requires Runnable(k.states[k.current]) ==> k.kont[k.current].AtTail?
    requires k.hint.Some? ==> k.hint.value != k.current && k.states[k.hint.value].Ready?
    ensures var s := Schedule(c, k);
            && (s.switched <==> !OthersIdle(k))
            && (s.swept <==> k.hint == None)
            && (s.switched ==>
                  && Mid(c, s.k)
                  && SwitchedStates(k, s.k)
                  && s.k.current != k.current
                  && Runnable(k.states[s.k.current])
                  && s.k == k.(resched := false, hint := None, states := s.k.states, current := s.k.current)
                  && (k.hint.Some? ==> s.k.current == k.hint.value)
                  && (k.hint == None ==>
                        forall t :: 0 <= t < |k.states| && t != k.current && Runnable(k.states[t]) ==>
                          Distance(k.current, s.k.current, |k.states|) <= Distance(k.current, t, |k.states|)))
            && (!s.switched ==> s.k == k.(resched := false, hint := None))
  {
    if k.hint.Some? {
      SwitchEffect(c, k, k.hint.value);
    } else {
      SweepNearest(k.states, k.current, 0);
      var next := Sweep(k.states, k.current, 0);
      if next.Some? {
        SwitchEffect(c, k, next.value);
      }
    }
  }

  /** The walk as it would be with a test for READY only. */
  function SweepReady(states: seq<TaskState>, prev: nat, i: nat): Option<nat>
    requires prev < |states|
    decreases |states| - i
  {
    if i >= |states| then None
    else
      var idx := RingNext(prev, i, |states|);
      if idx != prev && states[idx].Ready? then Some(idx) else SweepReady(states, prev, i + 1)
  }

  /** Candidates are never RUNNING: the source's second test never fires. */
  lemma {:induction false} RunningTestNeverFires(c: Config, k: Kern, i: nat)
    requires Base(c, k)
    ensures Sweep(k.states, k.current, i) == SweepReady(k.states, k.current, i)
    decreases |k.states| - i
  {
    if i < |k.states| {
      RunningTestNeverFires(c, k, i + 1);
    }
  }

  // -------------------------------------------------- one trap, handler by handler

  /** A handler's tail with the flag raised and nobody freshly woken. */
  lemma TailEffect(c: Config, k: Kern, done: seq<Done>, events: seq<Event>)
    requires Mid(c, k.(resched := false)) && k.resched
    requires k.kont[k.current].AtTail?
    ensures var r := Tail(c, k, done, events);
            && r.outcome.ToUser? && r.sweeps == 1 && r.done == done
            && Inv(c, r.k)
            && (OthersIdle(k) ==> r.k == k.(resched := false) && r.events == events)
            && (!OthersIdle(k) ==>
                  r.k == Schedule(c, k).k && r.events == events + [SwitchTo(r.k.current)] && r.k.current != k.current)
  {
    assert Base(c, k);
    ScheduleEffect(c, k);
  }

  /** sys_read finding input: it takes the front of the ring and returns. */
  lemma ReadGets(c: Config, k: Kern, addr: Word, len: Count)
    requires Mid(c, k) && k.ring != []
    ensures var r := ReadLoop(c, k, addr, len);
            && r.outcome.ToUser? && r.sweeps == 0
            && Mid(c, r.k) && r.k.kont[r.k.current].AtTail?
  {
  }

  /** sys_read finding an empty ring: it joins the queue and gives up the CPU, unless
      nobody else can run. */
  lemma ReadBlocks(c: Config, k: Kern, addr: Word, len: Count)
    requires Mid(c, k) && k.ring == []
    ensures var r := ReadLoop(c, k, addr, len); var b := Block(c, k, addr, len);
            && (OthersIdle(k) ==> r == Step(b.(resched := false), Spins, 1, [], []))
            && (!OthersIdle(k) ==>
                  && r == Step(Schedule(c, b).k, ToUser, 1, [], [SwitchTo(Schedule(c, b).k.current)])
                  && Inv(c, r.k) && r.k.current != k.current
                  && r.k.waitq == k.waitq + [k.current]
                  && r.k == b.(resched := false, states := r.k.states, current := r.k.current)
                  && SwitchedStates(b, r.k))
  {
    var b := Block(c, k, addr, len);
    BlockQueues(c, k, addr, len);
    BlockOthers(c, k, addr, len);
    ScheduleEffect(c, b);
    var s := Schedule(c, b);
    if s.switched {
      assert Resume(c, s.k) == Step(s.k, ToUser, 0, [], []);
    }
  }

  /** By pigeonhole the "queue full" branch is never taken and no waiter is lost. */
  lemma BlockQueues(c: Config, k: Kern, addr: Word, len: Count)
    requires Mid(c, k)
    ensures |k.waitq| < c.Threads()
    ensures Block(c, k, addr, len).waitq == k.waitq + [k.current]
    ensures Base(c, Block(c, k, addr, len))
  {
    var q := k.waitq + [k.current];
    Pigeonhole(q, c.Threads());
    var b := Block(c, k, addr, len);
    assert forall t :: t in q <==> t in k.waitq || t == k.current;
  }

  lemma BlockOthers(c: Config, k: Kern, addr: Word, len: Count)
    requires Shape(c, k)
    ensures OthersIdle(Block(c, k, addr, len)) <==> OthersIdle(k)
  {
    var b := Block(c, k, addr, len);
    assert forall t :: 0 <= t < |k.states| && t != k.current ==> b.states[t] == k.states[t];
  }

  /** Position of the first live (still BLOCKED) waiter, or |q| if there is none. */
  function FirstLive(states: seq<TaskState>, q: seq<nat>): (i: nat)
    ensures i <= |q|
    ensures i < |q| ==> q[i] < |states| && states[q[i]].Blocked?
    ensures forall j :: 0 <= j < i ==> !(q[j] < |states| && states[q[j]].Blocked?)
  {
    if q == [] then 0
    else if q[0] < |states| && states[q[0]].Blocked? then 0
    else 1 + FirstLive(states, q[1..])
  }

  /** The wake-up skips corpses and takes exactly the first live waiter. */
  lemma {:induction false} WakeEffect(c: Config, k: Kern)
    requires Shape(c, k)
    ensures var i := FirstLive(k.states, k.waitq);
            WakeReader(c, k) ==
              if i == |k.waitq| then k.(waitq := [])
              else k.(waitq := k.waitq[i + 1..], states := k.states[k.waitq[i] := Ready],
                      hint := Some(k.waitq[i]), resched := true)
    decreases |k.waitq|
  {
    if k.waitq == [] {
    } else if !k.states[k.waitq[0]].Blocked? {
      var k1 := k.(waitq := k.waitq[1..]);
      WakeEffect(c, k1);
      var j := FirstLive(k.states, k1.waitq);
      assert j < |k1.waitq| ==> k1.waitq[j + 1..] == k.waitq[j + 2..];
    }
  }

  lemma Suffix(q: seq<nat>, i: nat)
    requires NoDup(q) && i < |q|
    ensures NoDup(q[i + 1..])
    ensures forall t :: t in q[i + 1..] ==> t in q && t != q[i]
    ensures forall t :: t in q ==> t in q[i + 1..] || t == q[i] || t in q[..i]
  {
    assert q == q[..i] + [q[i]] + q[i + 1..];
  }

  lemma {:induction false} LiveBehind(states: seq<TaskState>, q: seq<nat>)
    requires NoDup(q) && FirstLive(states, q) < |q|
    ensures var i := FirstLive(states, q);
            forall t :: t in q && t < |states| && states[t].Blocked? ==> t == q[i] || t in q[i + 1..]
  {
    Suffix(q, FirstLive(states, q));
  }

  lemma WakeKeepsBase(c: Config, k: Kern)
    requires Inv(c, k) && FirstLive(k.states, k.waitq) < |k.waitq|
    ensures Base(c, WakeReader(c, k))
  {
    WakeEffect(c, k);
    WokenBase(c, k, FirstLive(k.states, k.waitq));
  }

  lemma WokenBase(c: Config, k: Kern, i: nat)
    requires Inv(c, k) && i == FirstLive(k.states, k.waitq) < |k.waitq|
    ensures Base(c, k.(waitq := k.waitq[i + 1..], states := k.states[k.waitq[i] := Ready],
                       hint := Some(k.waitq[i]), resched := true))
  {
    Suffix(k.waitq, i);
    WokenQueue(k.states, k.kont, k.waitq, i);
  }

  lemma WokenQueue(states: seq<TaskState>, kont: seq<Kont>, q: seq<nat>, i: nat)
    requires |states| == |kont| && NoDup(q) && QueueOk(states, kont, q) && i == FirstLive(states, q) < |q|
    ensures QueueOk(states[q[i] := Ready], kont, q[i + 1..])
  {
    Suffix(q, i);
    LiveBehind(states, q);
    var woken, rest := states[q[i] := Ready], q[i + 1..];
    assert forall t :: 0 <= t < |states| && woken[t].Blocked? ==> t != q[i] && states[t].Blocked?;
    assert forall t :: t in rest ==> t in q && t != q[i];
  }

  /** The state in which the i-th waiter, just woken, is switched in. */
  ghost function Woken(k: Kern, i: nat): Kern
    requires i < |k.waitq| && k.waitq[i] < |k.states| && k.current < |k.states|
  {
    var s := if k.states[k.current].Running? then k.states[k.current := Ready] else k.states;
    k.(waitq := k.waitq[i + 1..], states := s[k.waitq[i] := Running], current := k.waitq[i])
  }

  /** A wake-up that finds a live waiter w hands the CPU to w at the handler's tail. */
  lemma WakeSwitch(c: Config, k: Kern)
    requires Inv(c, k) && FirstLive(k.states, k.waitq) < |k.waitq|
    ensures var i := FirstLive(k.states, k.waitq);
            && k.waitq[i] != k.current && k.kont[k.waitq[i]].InRead?
            && Schedule(c, WakeReader(c, k)) == Switch(Woken(k, i), true, false)
            && Mid(c, Woken(k, i))
  {
    WakeEffect(c, k);
    WakeKeepsBase(c, k);
    var woken := WakeReader(c, k);
    ScheduleEffect(c, woken);
    var i := FirstLive(k.states, k.waitq);
    assert Schedule(c, woken).k.states == Woken(k, i).states;
  }

  /** ... and w then finishes its read, or goes back to sleep if there is no input. */
  lemma RxWakes(c: Config, k: Kern, bytes: seq<Byte>)
    requires Inv(c, k) && FirstLive(k.states, k.waitq) < |k.waitq|
    ensures var i := FirstLive(k.states, k.waitq);
            var m := Woken(k.(ring := Drain(k.ring, bytes)), i);
            && Mid(c, m) && m.kont[m.current].InRead?
            && var r := ReadLoop(c, m, m.kont[m.current].addr, m.kont[m.current].len);
            OnTrap(c, k, RxIrq(bytes)) == r.(events := [SwitchTo(m.current)] + r.events)
  {
    var k0 := k.(ring := Drain(k.ring, bytes));
    WakeSwitch(c, k0);
    var m := Woken(k0, FirstLive(k.states, k.waitq));
    var r := Resume(c, m);
    assert [] + r.done == r.done && [] + [SwitchTo(m.current)] + r.events == [SwitchTo(m.current)] + r.events;
  }

  /** ... and one that finds none only clears the queue of corpses. */
  lemma RxIdle(c: Config, k: Kern, bytes: seq<Byte>)
    requires Inv(c, k) && FirstLive(k.states, k.waitq) == |k.waitq|
    ensures OnTrap(c, k, RxIrq(bytes)) ==
              Step(k.(ring := Drain(k.ring, bytes), waitq := []), ToUser, 0, [], [])
  {
    WakeEffect(c, k.(ring := Drain(k.ring, bytes)));
  }

  lemma KillKeepsBase(c: Config, k: Kern, p: nat)
    requires Mid(c, k)
    ensures Mid(c, k.(states := KillProcess(c, k.states, p)))
  {
  }
}
