/** Context integrity: a context switch is the identity on every thread's context, and
    along any run a thread's user registers change only through its own user code, its
    own system call results and its own faults. */
module SwitchProofs {
  import opened Tasks
  import opened SwitchMachine

  // ------------------------------------------------------------ kernel stacks

  lemma StacksDisjoint(t: nat, u: nat)
    requires t != u
    ensures Top(t) <= Low(u) || Top(u) <= Low(t)
  {
  }

  /** A write inside t's stack leaves any range of another thread's stack alone. */
  lemma OtherStack(mem: seq<Word>, at: nat, ws: seq<Word>, t: nat, u: nat, lo: nat, hi: nat)
    requires at + |ws| <= |mem| && Low(t) <= at && at + |ws| <= Top(t)
    requires u != t && Low(u) <= lo <= hi <= Top(u) && hi <= |mem|
    ensures Write(mem, at, ws)[lo..hi] == mem[lo..hi]
  {
    StacksDisjoint(t, u);
  }

  /** A write below lo leaves the range from lo on alone. */
  lemma Above(mem: seq<Word>, at: nat, ws: seq<Word>, lo: nat, hi: nat)
    requires at + |ws| <= lo <= hi <= |mem|
    ensures Write(mem, at, ws)[lo..hi] == mem[lo..hi]
  {
  }

  lemma Inside(mem: seq<Word>, at: nat, ws: seq<Word>)
    requires at + |ws| <= |mem|
    ensures Write(mem, at, ws)[at..at + |ws|] == ws
  {
  }

  lemma SubRange(a: seq<Word>, b: seq<Word>, lo: nat, hi: nat, x: nat, y: nat)
    requires lo <= x <= y <= hi <= |a| == |b| && a[lo..hi] == b[lo..hi]
    ensures a[x..y] == b[x..y]
  {
    forall i | x <= i < y
      ensures a[i] == b[i]
    {
      assert a[lo..hi][i - lo] == b[lo..hi][i - lo];
    }
  }

  lemma Slice(a: seq<Word>, lo: nat, hi: nat, x: nat, y: nat)
    requires lo <= hi <= |a| && x <= y <= hi - lo
    ensures a[lo..hi][x..y] == a[lo + x..lo + y]
    ensures forall i :: 0 <= i < hi - lo ==> a[lo..hi][i] == a[lo + i]
  {
    var s, u := a[lo..hi][x..y], a[lo + x..lo + y];
    forall i | 0 <= i < y - x
      ensures s[i] == u[i]
    {
      assert s[i] == a[lo..hi][x + i];
    }
  }

  lemma Poke(a: seq<Word>, lo: nat, hi: nat, i: nat, v: Word)
    requires lo <= hi <= |a| && i < hi - lo
    ensures Write(a, lo + i, [v])[lo..hi] == a[lo..hi][i := v]
  {
  }

  // ------------------------------------------------------- one context switch

  lemma SwitchKeepsStacks(b: Board, m: Mach, next: nat, skip: bool)
    requires Stacks(b, m) && next < b.cfg.Threads() && next != m.current && !m.mode[m.current].InUser?
    ensures Stacks(b, SwitchTo(b, m, next, skip))
  {
    var m' := SwitchTo(b, m, next, skip);
    assert Parked(m.mode, m.tcb, next);
    forall t | 0 <= t < b.cfg.Threads() && t != next
      ensures Parked(m'.mode, m'.tcb, t)
    {
      assert t != m.current ==> Parked(m.mode, m.tcb, t);
    }
  }

  /** The thread that leaves: its context is now in its resume frame and TCB. */
  lemma LeaverKept(b: Board, m: Mach, next: nat, skip: bool)
    requires Stacks(b, m) && next < b.cfg.Threads() && next != m.current && !m.mode[m.current].InUser?
    ensures var m' := SwitchTo(b, m, next, skip);
            Stacks(b, m') && KctxOf(b, m', m.current) == KctxOf(b, m, m.current)
  {
    SwitchKeepsStacks(b, m, next, skip);
    var m' := SwitchTo(b, m, next, skip);
    StackInMemory(b, m, m.current);
    var at, ws := m.sp - RESUME_WORDS, m.r[4..12] + [m.lr];
    assert m'.mem == Write(m.mem, at, ws);
    Inside(m.mem, at, ws);
    Above(m.mem, at, ws, m.sp, Top(m.current));
  }

  /** A parked thread's resume frame and stack survive somebody else's save. */
  lemma ParkedMemoryKept(b: Board, m: Mach, next: nat, skip: bool, t: nat)
    requires Stacks(b, m) && next < b.cfg.Threads() && next != m.current && !m.mode[m.current].InUser?
    requires t < b.cfg.Threads() && t != m.current
    ensures var m' := SwitchTo(b, m, next, skip); var p := m.tcb[t].sp;
            && Parked(m.mode, m.tcb, t) && Top(t) <= |m.mem| == |m'.mem|
            && m'.mem[p..p + RESUME_WORDS] == m.mem[p..p + RESUME_WORDS]
            && m'.mem[p + RESUME_WORDS..Top(t)] == m.mem[p + RESUME_WORDS..Top(t)]
  {
    StackInMemory(b, m, m.current);
    StackInMemory(b, m, t);
    assert Parked(m.mode, m.tcb, t);
    var at, ws, p := m.sp - RESUME_WORDS, m.r[4..12] + [m.lr], m.tcb[t].sp;
    assert SwitchTo(b, m, next, skip).mem == Write(m.mem, at, ws);
    OtherStack(m.mem, at, ws, m.current, t, p, p + RESUME_WORDS);
    OtherStack(m.mem, at, ws, m.current, t, p + RESUME_WORDS, Top(t));
  }

  /** The thread that comes back: its resume frame and TCB are now the live registers. */
  lemma ComerKept(b: Board, m: Mach, next: nat, skip: bool)
    requires Stacks(b, m) && next < b.cfg.Threads() && next != m.current && !m.mode[m.current].InUser?
    ensures var m' := SwitchTo(b, m, next, skip);
            Stacks(b, m') && KctxOf(b, m', next) == KctxOf(b, m, next)
  {
    SwitchKeepsStacks(b, m, next, skip);
    ParkedMemoryKept(b, m, next, skip, next);
    var m', p := SwitchTo(b, m, next, skip), m.tcb[next].sp;
    assert m'.r == m.r[..4] + m'.mem[p..p + 8] + m.r[12..] && m'.lr == m'.mem[p + 8];
    Resumed(m.r, m'.mem, p);
  }

  lemma Resumed(r: seq<Word>, mem: seq<Word>, p: nat)
    requires |r| == 13 && p + RESUME_WORDS <= |mem|
    ensures (r[..4] + mem[p..p + 8] + r[12..])[4..12] + [mem[p + 8]] == mem[p..p + RESUME_WORDS]
  {
  }

  /** context_switch changes nobody's kernel context: every thread, the one that
      leaves and the one that comes back included, has exactly the r4-r11, lr, SP_svc,
      SP_usr, LR_usr and stack contents it had; only which of them is live changes. */
  lemma SwitchKeepsContexts(b: Board, m: Mach, next: nat, skip: bool, t: nat)
    requires Stacks(b, m) && next < b.cfg.Threads() && next != m.current && !m.mode[m.current].InUser?
    requires t < b.cfg.Threads()
    ensures var m' := SwitchTo(b, m, next, skip);
            Stacks(b, m') && m'.current == next && KctxOf(b, m', t) == KctxOf(b, m, t)
  {
    SwitchKeepsStacks(b, m, next, skip);
    if t == m.current {
      LeaverKept(b, m, next, skip);
    } else if t == next {
      ComerKept(b, m, next, skip);
    } else {
      ParkedMemoryKept(b, m, next, skip, t);
    }
  }

  /** ... and nobody's user context. */
  lemma SwitchKeepsUsers(b: Board, m: Mach, next: nat, skip: bool, t: nat)
    requires Stacks(b, m) && next < b.cfg.Threads() && next != m.current && !m.mode[m.current].InUser?
    requires t < b.cfg.Threads()
    ensures var m' := SwitchTo(b, m, next, skip);
            Stacks(b, m') && UserOf(b, m', t) == UserOf(b, m, t)
  {
    SwitchKeepsStacks(b, m, next, skip);
    FrameSurvivesSave(b, m, next, skip, t);
    var m' := SwitchTo(b, m, next, skip);
    assert m'.mode == m.mode;
    if t != m.current {
      assert Parked(m.mode, m.tcb, t);
      assert m'.tcb[t] == m.tcb[t];
    }
  }

  lemma FrameSurvivesSave(b: Board, m: Mach, next: nat, skip: bool, t: nat)
    requires Stacks(b, m) && next < b.cfg.Threads() && next != m.current && !m.mode[m.current].InUser?
    requires t < b.cfg.Threads()
    ensures TrapFrame(b, SwitchTo(b, m, next, skip), t) == TrapFrame(b, m, t)
  {
    StackInMemory(b, m, m.current);
    StackInMemory(b, m, t);
    var at, ws := m.sp - RESUME_WORDS, m.r[4..12] + [m.lr];
    var lo := Top(t) - FrameWords(m.mode[t]);
    assert SwitchTo(b, m, next, skip).mem == Write(m.mem, at, ws);
    if t == m.current {
      Above(m.mem, at, ws, lo, Top(t));
    } else {
      assert Parked(m.mode, m.tcb, t);
      OtherStack(m.mem, at, ws, m.current, t, lo, Top(t));
    }
  }

  // --------------------------------------------------------- one operation

  /** What an operation makes of the current thread's user context. */
  function UserAfter(op: Op, u: User): User
    requires |u.r| == 13
  {
    match op
    case UserRun(v) => v
    case SetResult(v) => u.(r := [v] + u.r[1..])
    case Trap(FaultEntry) => GONE
    case _ => u
  }

  lemma EnterKeepsUser(b: Board, m: Mach, entry: Entry)
    requires Stacks(b, m) && m.mode[m.current].InUser?
    ensures var m' := Enter(b, m, entry);
            Stacks(b, m') && UserOf(b, m', m.current) == UserAfter(Trap(entry), UserOf(b, m, m.current))
  {
    var m' := Enter(b, m, entry);
    var t := m.current;
    StackInMemory(b, m, t);
    forall u | 0 <= u < b.cfg.Threads() && u != t
      ensures Parked(m'.mode, m'.tcb, u)
    {
      assert Parked(m.mode, m.tcb, u);
    }
    match entry {
      case IrqEntry =>
        Inside(m.mem, m.sp - IRQ_FRAME, IrqFrame(m));
        assert TrapFrame(b, m', t) == IrqFrame(m);
      case SvcEntry =>
        Inside(m.mem, m.sp - SVC_FRAME, SvcFrame(m));
        assert TrapFrame(b, m', t) == SvcFrame(m);
      case FaultEntry =>
    }
  }

  /** The frames, word by word from the stack pointer up. An SVC or fault frame is SPSR,
      r0-r12, return address; an IRQ frame is r0-r12, the SVC link register, return
      address, SPSR; each directly below the top of the thread's own stack, except that
      a fault frame goes to the fault stack. */
  lemma FrameLayout(b: Board, m: Mach)
    requires Stacks(b, m) && m.mode[m.current].InUser?
    ensures var m' := Enter(b, m, SvcEntry);
            && m'.sp == m.sp - 15 && m'.sp + 15 == m.current * 2048 + 2048 <= |m'.mem|
            && m'.mem[m'.sp] == m.cpsr && m'.mem[m'.sp + 14] == m.pc
            && forall i :: 0 <= i < 13 ==> m'.mem[m'.sp + 1 + i] == m.r[i]
    ensures var m' := Enter(b, m, IrqEntry);
            && m'.sp == m.sp - 16 && m'.sp + 16 <= |m'.mem|
            && m'.mem[m'.sp + 13] == m.lr && m'.mem[m'.sp + 14] == m.pc && m'.mem[m'.sp + 15] == m.cpsr
            && forall i :: 0 <= i < 13 ==> m'.mem[m'.sp + i] == m.r[i]
    ensures var m' := Enter(b, m, FaultEntry);
            && m'.sp == m.sp && m'.mem == m.mem && |m'.abt| == |m.abt| + 15
            && m'.abt[0] == m.cpsr && m'.abt[14] == m.pc && m'.abt[15..] == m.abt
            && forall i :: 0 <= i < 13 ==> m'.abt[1 + i] == m.r[i]
  {
    StackInMemory(b, m, m.current);
    SvcLayout(b, m);
    IrqLayout(b, m);
    FaultLayout(b, m);
  }

  lemma SvcLayout(b: Board, m: Mach)
    requires Stacks(b, m) && m.mode[m.current].InUser?
    ensures var m' := Enter(b, m, SvcEntry);
            && m'.sp == m.sp - 15 && m'.sp + 15 <= |m'.mem|
            && m'.mem[m'.sp] == m.cpsr && m'.mem[m'.sp + 14] == m.pc
            && forall i :: 0 <= i < 13 ==> m'.mem[m'.sp + 1 + i] == m.r[i]
  {
    StackInMemory(b, m, m.current);
    FrameWord(m.mem, m.sp - 15, SvcFrame(m));
  }

  lemma IrqLayout(b: Board, m: Mach)
    requires Stacks(b, m) && m.mode[m.current].InUser?
    ensures var m' := Enter(b, m, IrqEntry);
            && m'.sp == m.sp - 16 && m'.sp + 16 <= |m'.mem|
            && m'.mem[m'.sp + 13] == m.lr && m'.mem[m'.sp + 14] == m.pc && m'.mem[m'.sp + 15] == m.cpsr
            && forall i :: 0 <= i < 13 ==> m'.mem[m'.sp + i] == m.r[i]
  {
    StackInMemory(b, m, m.current);
    FrameWord(m.mem, m.sp - 16, IrqFrame(m));
  }

  lemma FaultLayout(b: Board, m: Mach)
    requires Stacks(b, m) && m.mode[m.current].InUser?
    ensures var m' := Enter(b, m, FaultEntry);
            && m'.sp == m.sp && m'.mem == m.mem && |m'.abt| == |m.abt| + 15
            && m'.abt[0] == m.cpsr && m'.abt[14] == m.pc && m'.abt[15..] == m.abt
            && forall i :: 0 <= i < 13 ==> m'.abt[1 + i] == m.r[i]
  {
  }

  lemma FrameWord(mem: seq<Word>, at: nat, ws: seq<Word>)
    requires at + |ws| <= |mem|
    ensures forall i :: 0 <= i < |ws| ==> Write(mem, at, ws)[at + i] == ws[i]
  {
  }

  /** The save side, word by word: r4-r11 and lr below the old stack pointer, and the three
      fields of the thread control block. */
  lemma SaveLayout(b: Board, m: Mach)
    requires Shape(b, m) && 9 <= m.sp <= |m.mem|
    ensures var m' := Save(b, m);
            && m'.sp == m.sp - 9 && m'.mem[m'.sp + 8] == m.lr
            && m'.mem[m'.sp..m'.sp + 8] == m.r[4..12]
            && m'.tcb[m.current].sp == m'.sp && m'.tcb[m.current].spUsr == m.spUsr
            && m'.tcb[m.current].lrUsr == m.lrUsr
  {
    var saved := m.r[4..12] + [m.lr];
    FrameWord(m.mem, m.sp - 9, saved);
    var m' := Save(b, m);
    forall i | 0 <= i < 8
      ensures m'.mem[m'.sp..m'.sp + 8][i] == m.r[4..12][i]
    {
      assert m'.mem[m'.sp + i] == saved[i];
    }
  }

  /** Leaving the kernel drains exactly the trap frame: the kernel stack is empty
      again and the live registers are the thread's user context. */
  lemma LeaveKeepsUser(b: Board, m: Mach)
    requires Stacks(b, m) && (m.mode[m.current].InSvc? || m.mode[m.current].InIrq?)
    requires m.sp == Top(m.current) - FrameWords(m.mode[m.current])
    ensures var m' := Leave(b, m);
            && Stacks(b, m') && m'.sp == Top(m.current)
            && UserOf(b, m', m.current) == UserOf(b, m, m.current)
  {
    var m' := Leave(b, m);
    StackInMemory(b, m, m.current);
    forall u | 0 <= u < b.cfg.Threads() && u != m.current
      ensures Parked(m'.mode, m'.tcb, u)
    {
      assert Parked(m.mode, m.tcb, u);
    }
    var f := TrapFrame(b, m, m.current);
    if m.mode[m.current].InIrq? {
      assert f == m.mem[m.sp..m.sp + IRQ_FRAME];
      Slice(m.mem, m.sp, m.sp + IRQ_FRAME, 0, 13);
    } else {
      assert f == m.mem[m.sp..m.sp + SVC_FRAME];
      Slice(m.mem, m.sp, m.sp + SVC_FRAME, 1, 14);
    }
  }

  lemma WorkKeepsUser(b: Board, m: Mach, op: Op)
    requires Stacks(b, m) && op.Work? && Enabled(b, m, op)
    ensures var m' := Apply(b, m, op, true);
            Stacks(b, m') && UserOf(b, m', m.current) == UserOf(b, m, m.current)
  {
    var m' := Apply(b, m, op, true);
    var t := m.current;
    StackInMemory(b, m, t);
    forall u | 0 <= u < b.cfg.Threads() && u != t
      ensures Parked(m'.mode, m'.tcb, u)
    {
      assert Parked(m.mode, m.tcb, u);
    }
    Above(m.mem, Low(t), op.words, Top(t) - FrameWords(m.mode[t]), Top(t));
    assert TrapFrame(b, m', t) == TrapFrame(b, m, t);
  }

  lemma ResultSetsR0(b: Board, m: Mach, v: Word)
    requires Stacks(b, m) && m.mode[m.current].InSvc?
    ensures var m' := Apply(b, m, SetResult(v), true); var u := UserOf(b, m, m.current);
            Stacks(b, m') && UserOf(b, m', m.current) == u.(r := [v] + u.r[1..])
  {
    var m' := Apply(b, m, SetResult(v), true);
    var t := m.current;
    StackInMemory(b, m, t);
    forall u | 0 <= u < b.cfg.Threads() && u != t
      ensures Parked(m'.mode, m'.tcb, u)
    {
      assert Parked(m.mode, m.tcb, u);
    }
    var f, f' := TrapFrame(b, m, t), TrapFrame(b, m', t);
    Poke(m.mem, Top(t) - SVC_FRAME, Top(t), 1, v);
    assert f' == f[1 := v];
    assert f'[1..14] == [v] + f[1..14][1..];
  }

  /** An operation of the current thread never reaches into another thread's stack. */
  lemma BystanderKept(b: Board, m: Mach, op: Op, skip: bool, t: nat)
    requires Stacks(b, m) && Enabled(b, m, op) && !op.Switch? && t < b.cfg.Threads() && t != m.current
    ensures var m' := Apply(b, m, op, skip);
            && m'.current == m.current && |m'.mem| == |m.mem| && Top(t) <= |m.mem|
            && m'.tcb == m.tcb && |m'.mode| == |m.mode| && m'.mode[t] == m.mode[t]
            && m'.mem[Low(t)..Top(t)] == m.mem[Low(t)..Top(t)]
  {
    var c := m.current;
    StackInMemory(b, m, c);
    StackInMemory(b, m, t);
    match op {
      case Trap(entry) => EnterElsewhere(b, m, entry, t);
      case Work(_, _, _, words) => OtherStack(m.mem, Low(c), words, c, t, Low(t), Top(t));
      case SetResult(v) => OtherStack(m.mem, Top(c) - SVC_FRAME + 1, [v], c, t, Low(t), Top(t));
      case _ =>
    }
  }

  lemma EnterElsewhere(b: Board, m: Mach, entry: Entry, t: nat)
    requires Stacks(b, m) && m.mode[m.current].InUser? && t < b.cfg.Threads() && t != m.current
    ensures var m' := Enter(b, m, entry);
            |m'.mem| == |m.mem| && Top(t) <= |m.mem| && m'.mem[Low(t)..Top(t)] == m.mem[Low(t)..Top(t)]
  {
    StackInMemory(b, m, m.current);
    StackInMemory(b, m, t);
    if !entry.FaultEntry? {
      var f := if entry.IrqEntry? then IrqFrame(m) else SvcFrame(m);
      OtherStack(m.mem, m.sp - |f|, f, m.current, t, Low(t), Top(t));
    }
  }

  /** Every operation keeps the stacks in order and every thread's user context, up to
      what user code and system call results do to the current thread itself. */
  lemma OpKeepsUsers(b: Board, m: Mach, op: Op, skip: bool, t: nat)
    requires Stacks(b, m) && Enabled(b, m, op) && t < b.cfg.Threads()
    ensures var m' := Apply(b, m, op, skip); var u := UserOf(b, m, t);
            && Stacks(b, m')
            && UserOf(b, m', t) == if t == m.current then UserAfter(op, u) else u
  {
    if op.Switch? {
      SwitchKeepsUsers(b, m, op.next, skip, t);
    } else {
      OwnOpKeepsUser(b, m, op, skip);
      if t != m.current {
        BystanderUserKept(b, m, op, skip, t);
      }
    }
  }

  lemma OwnOpKeepsUser(b: Board, m: Mach, op: Op, skip: bool)
    requires Stacks(b, m) && Enabled(b, m, op) && !op.Switch?
    ensures var m' := Apply(b, m, op, skip); var u := UserOf(b, m, m.current);
            Stacks(b, m') && UserOf(b, m', m.current) == UserAfter(op, u)
  {
    match op {
      case Trap(entry) => EnterKeepsUser(b, m, entry);
      case Return => LeaveKeepsUser(b, m);
      case Work(_, _, _, _) => WorkKeepsUser(b, m, op);
      case SetResult(v) => ResultSetsR0(b, m, v);
      case _ =>
    }
  }

  lemma BystanderUserKept(b: Board, m: Mach, op: Op, skip: bool, t: nat)
    requires Stacks(b, m) && Enabled(b, m, op) && !op.Switch? && t < b.cfg.Threads() && t != m.current
    requires Stacks(b, Apply(b, m, op, skip))
    ensures UserOf(b, Apply(b, m, op, skip), t) == UserOf(b, m, t)
  {
    var m' := Apply(b, m, op, skip);
    BystanderKept(b, m, op, skip, t);
    assert Parked(m.mode, m.tcb, t);
    SubRange(m.mem, m'.mem, Low(t), Top(t), Top(t) - FrameWords(m.mode[t]), Top(t));
  }

  /** The kernel context of a thread that is not running is untouched by anything the
      running thread does. */
  lemma BystanderContextKept(b: Board, m: Mach, op: Op, skip: bool, t: nat)
    requires Stacks(b, m) && Enabled(b, m, op) && !op.Switch? && t < b.cfg.Threads() && t != m.current
    requires Stacks(b, Apply(b, m, op, skip))
    ensures KctxOf(b, Apply(b, m, op, skip), t) == KctxOf(b, m, t)
  {
    var m' := Apply(b, m, op, skip);
    BystanderKept(b, m, op, skip, t);
    assert Parked(m.mode, m.tcb, t);
    var p := m.tcb[t].sp;
    SubRange(m.mem, m'.mem, Low(t), Top(t), p, p + RESUME_WORDS);
    SubRange(m.mem, m'.mem, Low(t), Top(t), p + RESUME_WORDS, Top(t));
  }

  // -------------------------------------------------------------- TTBR0 and TLB

  lemma WalkFindsTable(b: Board, p: nat)
    requires b.Valid() && p < b.cfg.procs
    ensures b.pgdPa[p] + WALK_ATTRS < WORD
    ensures TableAt(b, b.pgdPa[p] + WALK_ATTRS) == p
  {
    var v := b.pgdPa[p] + WALK_ATTRS;
    assert v < WORD && v - v % PGD_ALIGN == b.pgdPa[p];
    var q := TableAt(b, v);
    assert b.pgdPa[q] == b.pgdPa[p];
  }

  /** Every operation keeps TTBR0 on the current process's table and the TLB coherent
      with it, whether or not sibling switches skip the MMU work. */
  lemma OpKeepsMmu(b: Board, m: Mach, op: Op, skip: bool)
    requires Stacks(b, m) && Enabled(b, m, op) && MmuOk(b, m)
    ensures MmuOk(b, Apply(b, m, op, skip))
  {
    var p := b.cfg.Pid(m.current);
    WalkFindsTable(b, p);
    if op.Switch? {
      PidInRange(b.cfg, op.next);
    }
    var m' := Apply(b, m, op, skip);
    assert Shape(b, m') by {
      if !op.Switch? {
        OwnOpKeepsUser(b, m, op, skip);
      }
    }
  }

  /** What an access through table entry i sees: a cached entry, or a walk. */
  ghost function Lookup(b: Board, m: Mach, i: nat): Word
    requires b.Valid() && i < PGD_ENTRIES
  {
    if i in m.tlb then m.tlb[i] else b.tables[TableAt(b, m.ttbr0)][i]
  }

  lemma LookupIsOwnTable(b: Board, m: Mach, i: nat)
    requires MmuOk(b, m) && i < PGD_ENTRIES
    ensures Lookup(b, m, i) == b.tables[b.cfg.Pid(m.current)][i]
  {
    WalkFindsTable(b, b.cfg.Pid(m.current));
  }

  // -------------------------------------------------------------------- runs

  ghost predicate RunOk(b: Board, m: Mach, ops: seq<Op>, skip: bool)
    requires Stacks(b, m)
    decreases |ops|
  {
    ops == [] ||
    (&& Enabled(b, m, ops[0])
     && (OpKeepsUsers(b, m, ops[0], skip, m.current);
         RunOk(b, Apply(b, m, ops[0], skip), ops[1..], skip)))
  }

  ghost function RunOps(b: Board, m: Mach, ops: seq<Op>, skip: bool): (r: Mach)
    requires Stacks(b, m) && RunOk(b, m, ops, skip)
    ensures Stacks(b, r)
    decreases |ops|
  {
    if ops == [] then m
    else
      OpKeepsUsers(b, m, ops[0], skip, m.current);
      RunOps(b, Apply(b, m, ops[0], skip), ops[1..], skip)
  }

  /** Fold over a run what thread t's own operations did to its user context. */
  ghost function UserHistory(b: Board, m: Mach, ops: seq<Op>, skip: bool, t: nat, u: User): (r: User)
    requires Stacks(b, m) && RunOk(b, m, ops, skip) && |u.r| == 13
    decreases |ops|
  {
    if ops == [] then u
    else
      OpKeepsUsers(b, m, ops[0], skip, m.current);
      var u' := if t == m.current then UserAfter(ops[0], u) else u;
      UserHistory(b, Apply(b, m, ops[0], skip), ops[1..], skip, t, u')
  }

  /** However traps, switches and other threads interleave, each thread's user context
      is what its own user code, its own system call results and its own faults made of
      it. */
  lemma {:induction false} UserContextIsPrivate(b: Board, m: Mach, ops: seq<Op>, skip: bool, t: nat)
    requires Stacks(b, m) && RunOk(b, m, ops, skip) && t < b.cfg.Threads()
    ensures UserOf(b, RunOps(b, m, ops, skip), t) == UserHistory(b, m, ops, skip, t, UserOf(b, m, t))
    decreases |ops|
  {
    if ops != [] {
      OpKeepsUsers(b, m, ops[0], skip, m.current);
      OpKeepsUsers(b, m, ops[0], skip, t);
      UserContextIsPrivate(b, Apply(b, m, ops[0], skip), ops[1..], skip, t);
    }
  }

  /** Every thread's user context is one of USR mode, and so is the SPSR at the bottom of
      every frame on the fault stack. */
  ghost predicate UsrOk(b: Board, m: Mach)
    requires Stacks(b, m)
  {
    && (forall t :: 0 <= t < b.cfg.Threads() ==> FromUser(UserOf(b, m, t).cpsr))
    && FaultFramesOk(m.abt)
  }

  ghost predicate FaultFramesOk(abt: seq<Word>)
    decreases |abt|
  {
    abt == [] || (|abt| >= SVC_FRAME && FromUser(abt[0]) && FaultFramesOk(abt[SVC_FRAME..]))
  }

  lemma OpKeepsUsr(b: Board, m: Mach, op: Op, skip: bool)
    requires Stacks(b, m) && Enabled(b, m, op) && UsrOk(b, m)
    ensures Stacks(b, Apply(b, m, op, skip)) && UsrOk(b, Apply(b, m, op, skip))
  {
    OpKeepsUsers(b, m, op, skip, m.current);
    var m' := Apply(b, m, op, skip);
    forall t | 0 <= t < b.cfg.Threads()
      ensures FromUser(UserOf(b, m', t).cpsr)
    {
      OpKeepsUsers(b, m, op, skip, t);
    }
    FaultStackAfter(b, m, op, skip);
    if op.Trap? && op.entry.FaultEntry? {
      var f := SvcFrame(m);
      assert (f + m.abt)[SVC_FRAME..] == m.abt && f[0] == UserOf(b, m, m.current).cpsr;
    }
  }

  lemma FaultStackAfter(b: Board, m: Mach, op: Op, skip: bool)
    requires Stacks(b, m) && Enabled(b, m, op)
    ensures Apply(b, m, op, skip).abt == if op.Trap? && op.entry.FaultEntry? then SvcFrame(m) + m.abt else m.abt
  {
  }

  /** Over every run: each return to user mode restores a USR-mode CPSR, and each fault
      passes the fault_from_user test, so a fault never takes the kernel-panic branch. */
  lemma {:induction false} AlwaysUsr(b: Board, m: Mach, ops: seq<Op>, skip: bool)
    requires Stacks(b, m) && RunOk(b, m, ops, skip) && UsrOk(b, m)
    ensures UsrOk(b, RunOps(b, m, ops, skip))
    ensures var m' := RunOps(b, m, ops, skip); m'.mode[m'.current].InUser? ==> FromUser(m'.cpsr)
    decreases |ops|
  {
    if ops == [] {
      assert FromUser(UserOf(b, m, m.current).cpsr);
    } else {
      OpKeepsUsr(b, m, ops[0], skip);
      AlwaysUsr(b, Apply(b, m, ops[0], skip), ops[1..], skip);
    }
  }

  /** Thread t does not run anything during the run: it is not current, except that the
      first operation may be its own switch away and the last the switch back to it. */
  ghost predicate Away(b: Board, m: Mach, ops: seq<Op>, skip: bool, t: nat)
    requires Stacks(b, m) && RunOk(b, m, ops, skip)
    decreases |ops|
  {
    ops == [] ||
    (&& (t == m.current ==> ops[0].Switch?)
     && (OpKeepsUsers(b, m, ops[0], skip, m.current);
         Away(b, Apply(b, m, ops[0], skip), ops[1..], skip, t)))
  }

  /** A thread that is switched back in, however many others ran in between, finds its
      r4-r11, lr, SP_svc, SP_usr, LR_usr and kernel stack exactly as it left them. */
  lemma {:induction false} ContextSurvives(b: Board, m: Mach, ops: seq<Op>, skip: bool, t: nat)
    requires Stacks(b, m) && RunOk(b, m, ops, skip) && Away(b, m, ops, skip, t) && t < b.cfg.Threads()
    ensures KctxOf(b, RunOps(b, m, ops, skip), t) == KctxOf(b, m, t)
    decreases |ops|
  {
    if ops != [] {
      OpKeepsUsers(b, m, ops[0], skip, m.current);
      if ops[0].Switch? {
        SwitchKeepsContexts(b, m, ops[0].next, skip, t);
      } else {
        BystanderContextKept(b, m, ops[0], skip, t);
      }
      ContextSurvives(b, Apply(b, m, ops[0], skip), ops[1..], skip, t);
    }
  }

  /** Over every run TTBR0 and the TLB stay right. */
  lemma {:induction false} MmuAlwaysRight(b: Board, m: Mach, ops: seq<Op>, skip: bool)
    requires Stacks(b, m) && RunOk(b, m, ops, skip) && MmuOk(b, m)
    ensures MmuOk(b, RunOps(b, m, ops, skip))
    ensures var m' := RunOps(b, m, ops, skip); m'.ttbr0 == b.pgdPa[b.cfg.Pid(m'.current)] + 0x4A
    decreases |ops|
  {
    if ops != [] {
      OpKeepsUsers(b, m, ops[0], skip, m.current);
      OpKeepsMmu(b, m, ops[0], skip);
      MmuAlwaysRight(b, Apply(b, m, ops[0], skip), ops[1..], skip);
    }
  }

  /** Equal up to what the TLB happens to cache. */
  ghost predicate SameButTlb(m: Mach, m': Mach) {
    m == m'.(tlb := m.tlb)
  }

  /** Skipping the MMU work between siblings refines always doing it: the two kernels
      go through the same states except for the TLB, and every access sees the same
      table entry. */
  lemma {:induction false} SkipRefinesAlways(b: Board, m: Mach, m': Mach, ops: seq<Op>)
    requires Stacks(b, m) && RunOk(b, m, ops, true) && MmuOk(b, m)
    requires Stacks(b, m') && MmuOk(b, m') && SameButTlb(m, m')
    ensures RunOk(b, m', ops, false)
    ensures var r, r' := RunOps(b, m, ops, true), RunOps(b, m', ops, false);
            SameButTlb(r, r') && forall i :: 0 <= i < PGD_ENTRIES ==> Lookup(b, r, i) == Lookup(b, r', i)
    decreases |ops|
  {
    if ops == [] {
      forall i | 0 <= i < PGD_ENTRIES
        ensures Lookup(b, m, i) == Lookup(b, m', i)
      {
        LookupIsOwnTable(b, m, i);
        LookupIsOwnTable(b, m', i);
      }
    } else {
      var op := ops[0];
      assert Enabled(b, m', op);
      OpKeepsUsers(b, m, op, true, m.current);
      OpKeepsUsers(b, m', op, false, m.current);
      OpKeepsMmu(b, m, op, true);
      OpKeepsMmu(b, m', op, false);
      SameStep(b, m, m', op);
      SkipRefinesAlways(b, Apply(b, m, op, true), Apply(b, m', op, false), ops[1..]);
    }
  }

  lemma SameStep(b: Board, m: Mach, m': Mach, op: Op)
    requires Stacks(b, m) && MmuOk(b, m) && Enabled(b, m, op)
    requires Stacks(b, m') && MmuOk(b, m') && SameButTlb(m, m')
    ensures Enabled(b, m', op)
    ensures SameButTlb(Apply(b, m, op, true), Apply(b, m', op, false))
  {
    match op {
      case Switch(next) => SameSwitch(b, m, m', next);
      case Trap(entry) => SameEntry(b, m, m', entry);
      case Return => SameExit(b, m, m');
      case _ =>
    }
  }

  lemma SameEntry(b: Board, m: Mach, m': Mach, entry: Entry)
    requires Stacks(b, m) && Stacks(b, m') && SameButTlb(m, m') && m.mode[m.current].InUser?
    ensures SameButTlb(Enter(b, m, entry), Enter(b, m', entry))
  {
  }

  lemma SameExit(b: Board, m: Mach, m': Mach)
    requires Stacks(b, m) && Stacks(b, m') && SameButTlb(m, m') && Enabled(b, m, Return)
    ensures SameButTlb(Leave(b, m), Leave(b, m'))
  {
  }

  lemma SameSwitch(b: Board, m: Mach, m': Mach, next: nat)
    requires Stacks(b, m) && MmuOk(b, m) && next < b.cfg.Threads() && next != m.current
    requires Stacks(b, m') && SameButTlb(m, m')
    ensures SameButTlb(SwitchTo(b, m, next, true), SwitchTo(b, m', next, false))
  {
    var s, s' := Save(b, m), Save(b, m');
    assert SameButTlb(s, s');
  }
}
