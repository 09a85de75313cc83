/** The kernel's own code: the globals of kernel/sched/scheduler.c and
    kernel/proc/thread.c, updated in place by the scheduler, the system calls and the
    trap handlers. Every method is tied to the transition system of KernelSpec. */
module Kernel {
  import opened Tasks
  import opened RxRing
  import opened WaitQueue
  import opened UserPointer
  import Writers
  import KS = KernelSpec

  class Kernel {
    const cfg: Config
    const states: array<TaskState>
    const kont: array<KS.Kont>          // what each thread's kernel stack will resume
    const waitq: Queue
    const rx: Ring
    var current: nat
    var needReschedule: bool
    var wakeHint: Option<nat>
    var ticks: Word

    /** What the code has done to the machine so far: every call of context_switch, every
        access to a caller's buffer, every store of a result, in program order. */
    var trace: seq<KS.Event>

    ghost function Repr(): set<object>
      reads this
    {
      {this, states, kont, waitq, waitq.slots, rx, rx.buf}
    }

    ghost predicate Valid()
      reads this, states, kont, waitq, waitq.slots, rx, rx.buf
    {
      && cfg.Valid()
      && states.Length == kont.Length == waitq.slots.Length == cfg.Threads()
      && waitq.Valid() && rx.Valid()
      && KS.Shape(cfg, View())
    }

    ghost function View(): KS.Kern
      requires waitq.Valid() && rx.Valid()
      reads this, states, kont, waitq, waitq.slots, rx, rx.buf
    {
      KS.Kern(states[..], current, needReschedule, wakeHint, waitq.Contents(), rx.Contents(), kont[..], ticks)
    }

    /** The kernel is now where step r ends, having added r's events to `before`. */
    ghost predicate Did(r: KS.Step, before: seq<KS.Event>, outcome: KS.Outcome, sweeps: nat, done: seq<KS.Done>)
      requires waitq.Valid() && rx.Valid()
      reads this, states, kont, waitq, waitq.slots, rx, rx.buf
    {
      && r == KS.Step(View(), outcome, sweeps, done, r.events)
      && trace == before + r.events
    }

    /** thread_init_all on zeroed globals. */
    constructor (cfg: Config)
      requires cfg.Valid()
      ensures Valid() && fresh(Repr()) && this.cfg == cfg
      ensures View() == KS.Boot(cfg) && trace == []
    {
      this.cfg := cfg;
      FirstIsProduct(cfg, cfg.procs);
      var n := cfg.procs * cfg.perProc;
      states := new TaskState[n](_ => Ready);
      kont := new KS.Kont[n](_ => KS.AtTail);
      waitq := new Queue(n);
      rx := new Ring();
      current := 0;
      needReschedule := false;
      wakeHint := None;
      ticks := 0;
      trace := [];
    }

    // ------------------------------------------------------------ scheduler.c

    /** scheduler_tick and scheduler_request_resched. */
    method RequestResched()
      requires Valid()
      modifies this`needReschedule
      ensures Valid() && View() == old(View()).(resched := true)
    {
      needReschedule := true;
    }

    /** timer_tick with scheduler_tick as its handler. */
    method TimerTick()
      requires Valid()
      modifies this`needReschedule, this`ticks
      ensures Valid() && View() == KS.Tick(old(View()))
    {
      ticks := KS.NextTick(ticks);
      RequestResched();
    }

    method PerformSwitch(cand: nat)
      requires Valid() && cand < cfg.Threads()
      modifies this`current, this`trace, states
      ensures Valid() && View() == KS.PerformSwitch(cfg, old(View()), cand)
      ensures trace == old(trace) + [KS.SwitchTo(cand)]
    {
      if states[current] == Running {
        states[current] := Ready;
      }
      states[cand] := Running;
      current := cand;
      trace := trace + [KS.SwitchTo(cand)];
    }

    /** The walk of the thread ring for somebody else to run. */
    method FindNext(prev: nat) returns (cand: Option<nat>)
      requires prev < states.Length
      ensures cand == KS.Sweep(states[..], prev, 0)
    {
      var n := states.Length;
      var start := (prev + 1) % n;
      for i := 0 to n
        invariant KS.Sweep(states[..], prev, 0) == KS.Sweep(states[..], prev, i)
      {
        var idx := (start + i) % n;
        KS.RingNextIsMod(prev, i, n);
        if idx != prev && (states[idx] == Ready || states[idx] == Running) {
          return Some(idx);
        }
      }
      return None;
    }

    method Schedule() returns (switched: bool, swept: bool)
      requires Valid()
      modifies this, states
      ensures Valid()
      ensures KS.Switch(View(), switched, swept) == KS.Schedule(cfg, old(View()))
      ensures trace == if switched then old(trace) + [KS.SwitchTo(current)] else old(trace)
    {
      if !needReschedule {
        return false, false;
      }
      needReschedule := false;
      var hint := wakeHint;
      wakeHint := None;
      if hint.Some? && hint.value != current && (states[hint.value] == Ready || states[hint.value] == Running) {
        PerformSwitch(hint.value);
        return true, false;
      }
      var cand := FindNext(current);
      if cand.Some? {
        PerformSwitch(cand.value);
        return true, true;
      }
      return false, true;
    }

    /** Returns without having switched when nobody else can run. */
    method BlockOnInput(addr: Word, len: Count) returns (switched: bool, swept: bool)
      requires Valid()
      modifies this, states, kont, waitq, waitq.slots
      ensures Valid()
      ensures KS.Switch(View(), switched, swept) == KS.Schedule(cfg, KS.Block(cfg, old(View()), addr, len))
      ensures trace == if switched then old(trace) + [KS.SwitchTo(current)] else old(trace)
    {
      states[current] := Blocked;
      kont[current] := KS.InRead(addr, len);
      assert states[..] == old(states[..])[current := Blocked];
      assert kont[..] == old(kont[..])[current := KS.InRead(addr, len)];
      waitq.Push(current);
      needReschedule := true;
      assert View() == KS.Block(cfg, old(View()), addr, len);
      switched, swept := Schedule();
    }

    method WakeReader()
      requires Valid()
      modifies this`needReschedule, this`wakeHint, states, waitq, waitq.slots
      ensures Valid() && View() == KS.WakeReader(cfg, old(View()))
    {
      ghost var goal := KS.WakeReader(cfg, View());
      while true
        invariant Valid() && KS.WakeReader(cfg, View()) == goal
        decreases waitq.count
      {
        ghost var before := View();
        var t := waitq.Pop();
        if t == None {
          assert View() == before;
          return;
        }
        assert t.value == before.waitq[0];
        assert View() == before.(waitq := before.waitq[1..]);
        if states[t.value] == Blocked {
          states[t.value] := Ready;
          wakeHint := t;
          needReschedule := true;
          return;
        }
      }
    }

    // ------------------------------------------------- retiring whole processes

    method KillThreads(p: nat)
      requires Valid() && p < cfg.procs
      modifies states
      ensures Valid()
      ensures View() == old(View()).(states := KS.KillProcess(cfg, old(View()).states, p))
    {
      for i := 0 to cfg.perProc
        invariant forall t :: 0 <= t < states.Length ==>
          states[t] == if cfg.First(p) <= t < cfg.First(p) + i then Dead else old(states[t])
      {
        SlotInRange(cfg, p, i);
        states[cfg.First(p) + i] := Dead;
      }
      forall t | 0 <= t < states.Length
        ensures states[t] == if cfg.Pid(t) == p then Dead else old(states[t])
      {
        PidBlock(cfg, p, t);
      }
      assert states[..] == KS.KillProcess(cfg, old(states[..]), p);
    }

    method AnyAlive(p: nat) returns (any: bool)
      requires Valid() && p < cfg.procs
      ensures any <==> KS.Alive(cfg, View(), p)
    {
      var first, alive := cfg.First(p), 0;
      for i := 0 to cfg.perProc
        invariant 0 <= alive <= i
        invariant alive == 0 <==> AllDead(states[..], first, first + i)
      {
        SlotInRange(cfg, p, i);
        OneMoreDead(states[..], first, first + i);
        if states[first + i] != Dead {
          alive := alive + 1;
        }
      }
      AliveInBlock(cfg, View(), p);
      any := alive != 0;
    }

    method SysKill(pid: Word) returns (result: int)
      requires Valid()
      modifies this`needReschedule, states
      ensures Valid()
      ensures forall a1: Word, a2: Word ::
                var trap := KS.Svc(KS.SYS_KILL, pid, a1, a2);
                KS.QuickCall(cfg, old(View()), trap) == KS.Value(old(View()), View(), trap, result)
    {
      if pid >= cfg.procs {
        return KS.E_BADCALL;
      }
      var any := AnyAlive(pid);
      if any {
        KillThreads(pid);
        RequestResched();
      }
      return 0;
    }

    method SysExit() returns (result: int)
      requires Valid()
      modifies this`needReschedule, states
      ensures Valid() && result == 0
      ensures View() == old(View()).(states := old(View()).states[current := Dead], resched := true)
    {
      states[current] := Dead;
      RequestResched();
      result := 0;
    }

    /** The loop of sys_write: the buffer goes to the console byte by byte. */
    method SysWrite(addr: Word, len: Word) returns (result: int)
      requires Valid()
      modifies this`trace
      ensures Valid() && View() == old(View())
      ensures result == if ValidUserPtr(addr, len) then len else KS.E_FAULT
      ensures trace == old(trace) + if ValidUserPtr(addr, len) then KS.Prints(addr, len) else []
    {
      if !ValidUserPtr(addr, len) {
        return KS.E_FAULT;
      }
      for i := 0 to len
        invariant trace == old(trace) + KS.Prints(addr, i)
      {
        trace := trace + [KS.Print((addr + i) % WORD)];
        assert KS.Prints(addr, i + 1) == KS.Prints(addr, i) + [KS.Print((addr + i) % WORD)];
      }
      return len;
    }

    /** sys_ps: the listing of the thread table, cut off at the buffer. */
    method SysPs(addr: Word, size: Word) returns (result: int, text: seq<Byte>)
      requires Valid()
      modifies this`trace
      ensures Valid() && View() == old(View())
      ensures text == if ValidUserPtr(addr, size) then KS.PsText(cfg, View(), size) else []
      ensures result == if ValidUserPtr(addr, size) then |text| else KS.E_FAULT
      ensures trace == old(trace) + KS.Stores(addr, text)
    {
      if !ValidUserPtr(addr, size) {
        return KS.E_FAULT, [];
      }
      text := ListTable(size);
      trace := trace + KS.Stores(addr, text);
      return |text|, text;
    }

    /** The listing itself. */
    method ListTable(size: Word) returns (text: seq<Byte>)
      requires Valid()
      ensures text == KS.PsText(cfg, View(), size)
    {
      var rows := TableRows();
      var out := new char[size];
      var n := Writers.SysPs(rows, out, size);
      text := Writers.Bytes(out[..n]);
    }

    /** The rows of the thread table. */
    method TableRows() returns (rows: seq<Writers.Row>)
      requires Valid()
      ensures rows == KS.Rows(cfg, View())
    {
      rows := [];
      for t := 0 to states.Length
        invariant |rows| == t && forall i :: 0 <= i < t ==> rows[i] == KS.RowOf(cfg, View(), i)
      {
        PidInRange(cfg, t);
        rows := rows + [Writers.Row(cfg.names[cfg.Pid(t)], cfg.Index(t), states[t])];
      }
    }

    // ------------------------------------------------------- blocking and resuming

    /** The copy loop of sys_read: take bytes until the buffer is full or the ring empty. */
    method CopyInput(addr: Word, len: Count) returns (buf: seq<Byte>)
      requires rx.Valid()
      modifies this`trace, rx
      ensures rx.Valid()
      ensures var q := old(rx.Contents()); var n := if len < |q| then len else |q|;
              buf == q[..n] && rx.Contents() == q[n..]
      ensures trace == old(trace) + KS.Stores(addr, buf)
    {
      buf := [];
      ghost var q := rx.Contents();
      while |buf| < len
        invariant rx.Valid() && |buf| <= len && |buf| <= |q|
        invariant buf == q[..|buf|] && rx.Contents() == q[|buf|..]
        invariant trace == old(trace) + KS.Stores(addr, buf)
      {
        var c := rx.Pop();
        if c == None {
          break;
        }
        assert rx.Contents() == q[|buf|..][1..] == q[|buf| + 1..];
        var store := KS.Store((addr + |buf|) % WORD, c.value);
        assert KS.Stores(addr, buf + [c.value]) == KS.Stores(addr, buf) + [store];
        trace := trace + [store];
        buf := buf + [c.value];
      }
    }

    /** sys_read from n = 0, on to the next return to user mode. `done` holds the call
        if it was this one that finished. */
    method SysRead(addr: Word, len: Count)
      returns (outcome: KS.Outcome, sweeps: nat, done: seq<KS.Done>)
      requires Valid() && !needReschedule && states[current] != Blocked
      modifies this, states, kont, waitq, waitq.slots, rx, rx.buf
      ensures Valid() && Did(KS.ReadLoop(cfg, old(View()), addr, len), old(trace), outcome, sweeps, done)
      decreases KS.Awake(states[..]), 1
    {
      ghost var before := View();
      var buf := CopyInput(addr, len);
      if buf == [] {
        assert KS.Stores(addr, buf) == [];
        assert View() == before;
        outcome, sweeps, done := Sleep(addr, len);
      } else {
        assert before.ring != [];
        AnswerRead(|buf|);
        return KS.ToUser, 0, [KS.Done(current, KS.SYS_READ, |buf|, addr, buf)];
      }
    }

    /** The ring is empty: block, and let whoever is switched in carry on. */
    method Sleep(addr: Word, len: Count) returns (outcome: KS.Outcome, sweeps: nat, done: seq<KS.Done>)
      requires Valid() && !needReschedule && states[current] != Blocked && rx.Contents() == []
      modifies this, states, kont, waitq, waitq.slots, rx, rx.buf
      ensures Valid() && Did(KS.ReadLoop(cfg, old(View()), addr, len), old(trace), outcome, sweeps, done)
      decreases KS.Awake(states[..]), 0
    {
      ghost var before := View();
      var switched, swept := BlockOnInput(addr, len);
      if !switched {
        return KS.Spins, 1, [];
      }
      KS.BlockShrinksAwake(cfg, before, addr, len);
      outcome, sweeps, done := Resume();
      return outcome, sweeps + KS.Bit(swept), done;
    }

    /** sys_read returned n: syscall_dispatch stores the result, and the schedule() of
        handle_svc finds the flag clear. */
    method AnswerRead(n: nat)
      requires Valid() && !needReschedule
      modifies this, states, kont
      ensures Valid() && View() == old(View()).(kont := old(View()).kont[current := KS.AtTail])
      ensures trace == old(trace) + [KS.Answer(n)]
    {
      trace := trace + [KS.Answer(n)];
      kont[current] := KS.AtTail;
      var switched, swept := Schedule();
    }

    /** The thread just switched in carries on where it left off. */
    method Resume() returns (outcome: KS.Outcome, sweeps: nat, done: seq<KS.Done>)
      requires Valid() && !needReschedule && states[current] != Blocked
      modifies this, states, kont, waitq, waitq.slots, rx, rx.buf
      ensures Valid() && Did(KS.Resume(cfg, old(View())), old(trace), outcome, sweeps, done)
      decreases KS.Awake(states[..]), 2
    {
      match kont[current] {
        case AtTail => return KS.ToUser, 0, [];
        case InFault => return KS.Halts, 0, [];
        case InRead(addr, len) => outcome, sweeps, done := SysRead(addr, len);
      }
    }

    // ----------------------------------------------------------------- handlers

    /** The tail of handle_svc and handle_irq; the handler began with trace `start`. */
    method Tail(done: seq<KS.Done>, ghost start: seq<KS.Event>, ghost events: seq<KS.Event>)
      returns (outcome: KS.Outcome, sweeps: nat, done': seq<KS.Done>)
      requires Valid() && trace == start + events
      modifies this, states, kont, waitq, waitq.slots, rx, rx.buf
      ensures Valid() && Did(KS.Tail(cfg, old(View()), done, events), start, outcome, sweeps, done')
    {
      var switched, swept := Schedule();
      if !switched {
        return KS.ToUser, KS.Bit(swept), done;
      }
      outcome, sweeps, done' := Resume();
      return outcome, sweeps + KS.Bit(swept), done + done';
    }

    /** The chip drivers' rx_irq: drain the receive FIFO, then wake one reader. */
    method RxIrq(bytes: seq<Byte>)
      requires Valid()
      modifies this`needReschedule, this`wakeHint, states, waitq, waitq.slots, rx, rx.buf
      ensures Valid()
      ensures View() == KS.WakeReader(cfg, old(View()).(ring := Drain(old(View()).ring, bytes)))
    {
      ghost var before := View();
      for i := 0 to |bytes|
        invariant Valid() && View() == before.(ring := rx.Contents())
        invariant Drain(rx.Contents(), bytes[i..]) == Drain(before.ring, bytes)
      {
        rx.Push(bytes[i]);
        assert bytes[i..][1..] == bytes[i + 1..];
      }
      WakeReader();
    }

    /** user_fault_kill up to its call of schedule(). */
    method Condemn()
      requires Valid()
      modifies this`needReschedule, states, kont
      ensures Valid() && View() == KS.Condemned(cfg, old(View()))
    {
      PidInRange(cfg, current);
      KillThreads(cfg.Pid(current));
      kont[current] := KS.InFault;
      RequestResched();
    }

    method UserFaultKill() returns (outcome: KS.Outcome, sweeps: nat, done: seq<KS.Done>)
      requires Valid() && !needReschedule && kont[current].AtTail? && states[current] != Blocked
      modifies this, states, kont, waitq, waitq.slots, rx, rx.buf
      ensures Valid() && Did(KS.OnTrap(cfg, old(View()), KS.Fault), old(trace), outcome, sweeps, done)
    {
      Condemn();
      outcome, sweeps, done := LeaveForGood(old(View()));
    }

    /** The schedule() of user_fault_kill, and the panic if it comes back. */
    method LeaveForGood(ghost k: KS.Kern) returns (outcome: KS.Outcome, sweeps: nat, done: seq<KS.Done>)
      requires KS.Shape(cfg, k) && !k.resched && k.kont[k.current].AtTail? && !k.states[k.current].Blocked?
      requires Valid() && View() == KS.Condemned(cfg, k)
      modifies this, states, kont, waitq, waitq.slots, rx, rx.buf
      ensures Valid() && Did(KS.OnTrap(cfg, k, KS.Fault), old(trace), outcome, sweeps, done)
    {
      var switched, swept := Schedule();
      if !switched {
        return KS.Halts, 1, [];
      }
      outcome, sweeps, done := Resume();
      return outcome, sweeps + KS.Bit(swept), done;
    }

    /** The handlers of syscall_table that return at once. */
    method QuickCall(trap: KS.Trap) returns (done: KS.Done)
      requires Valid() && trap.Svc? && !KS.BlockingRead(trap)
      modifies this`needReschedule, this`trace, states
      ensures Valid()
      ensures var q := KS.QuickCall(cfg, old(View()), trap);
              View() == q.k && done == q.done && trace == old(trace) + q.io
    {
      var result, addr, text := 0, 0, [];
      if trap.num == KS.SYS_WRITE {
        result := SysWrite(trap.a1, trap.a2);
      } else if trap.num == KS.SYS_GETPID {
        result := cfg.Pid(current);
      } else if trap.num == KS.SYS_YIELD {
        RequestResched();
      } else if trap.num == KS.SYS_EXIT {
        result := SysExit();
      } else if trap.num == KS.SYS_READ {
        result := if trap.a2 == 0 then 0 else KS.E_FAULT;
      } else if trap.num == KS.SYS_PS {
        result, text := SysPs(trap.a0, trap.a1);
        addr := if ValidUserPtr(trap.a0, trap.a1) then trap.a0 else 0;
      } else if trap.num == KS.SYS_KILL {
        result := SysKill(trap.a0);
      } else if trap.num == KS.SYS_TICKS {
        result := ticks;
      } else {
        result := KS.E_BADCALL;
      }
      done := KS.Done(current, trap.num, result, addr, text);
    }

    /** syscall_dispatch for those calls: the result goes to the saved r0. */
    method Dispatch(trap: KS.Trap) returns (done: KS.Done)
      requires Valid() && trap.Svc? && !KS.BlockingRead(trap)
      modifies this`needReschedule, this`trace, states
      ensures Valid()
      ensures var q := KS.QuickCall(cfg, old(View()), trap);
              View() == q.k && done == q.done && trace == old(trace) + (q.io + [KS.Answer(q.done.result)])
    {
      done := QuickCall(trap);
      trace := trace + [KS.Answer(done.result)];
    }

    /** One trap out of user mode, up to the next return to user mode. */
    method HandleTrap(trap: KS.Trap) returns (outcome: KS.Outcome, sweeps: nat, done: seq<KS.Done>)
      requires Valid() && !needReschedule && kont[current].AtTail? && states[current] != Blocked
      modifies this, states, kont, waitq, waitq.slots, rx, rx.buf
      ensures Valid() && Did(KS.OnTrap(cfg, old(View()), trap), old(trace), outcome, sweeps, done)
    {
      ghost var start := trace;
      match trap {
        case TimerIrq =>
          TimerTick();
          outcome, sweeps, done := Tail([], start, []);
        case RxIrq(bytes) =>
          RxIrq(bytes);
          outcome, sweeps, done := Tail([], start, []);
        case OtherIrq =>
          outcome, sweeps, done := Tail([], start, []);
        case Fault =>
          outcome, sweeps, done := UserFaultKill();
        case Svc(_, _, a1, a2) =>
          if KS.BlockingRead(trap) {
            outcome, sweeps, done := SysRead(a1, a2);
          } else {
            ghost var q := KS.QuickCall(cfg, View(), trap);
            var finished := Dispatch(trap);
            outcome, sweeps, done := Tail([finished], start, q.io + [KS.Answer(q.done.result)]);
          }
      }
    }
  }

  predicate AllDead(states: seq<TaskState>, lo: nat, hi: nat) {
    forall t :: lo <= t < hi && t < |states| ==> states[t] == Dead
  }

  lemma OneMoreDead(states: seq<TaskState>, lo: nat, hi: nat)
    requires lo <= hi < |states|
    ensures AllDead(states, lo, hi + 1) <==> AllDead(states, lo, hi) && states[hi] == Dead
  {
  }

  /** A process is alive unless its whole block of the thread table is DEAD. */
  lemma AliveInBlock(c: Config, k: KS.Kern, p: nat)
    requires c.Valid()
    ensures KS.Alive(c, k, p) <==> !AllDead(k.states, c.First(p), c.First(p) + c.perProc)
  {
    forall t: nat
      ensures c.Pid(t) == p <==> c.First(p) <= t < c.First(p) + c.perProc
    {
      PidBlock(c, p, t);
    }
  }
}
