/** kernel/arch/arm/exception/exception_entry.S and kernel/arch/arm/proc/context_switch.S
    as code that updates registers, stack words and TCB fields in place. */
module Cpu {
  import opened Tasks
  import opened SM = SwitchMachine
  import TI = ThreadInit

  class Cpu {
    const board: Board
    const mode: array<Mode>
    const r: array<Word>
    const mem: array<Word>
    const tcb: array<Tcb>
    var current: nat
    var pc: Word
    var cpsr: Word
    var sp: nat
    var lr: Word
    var spUsr: Word
    var lrUsr: Word
    var abt: seq<Word>
    var ttbr0: Word
    var tlb: map<nat, Word>

    ghost function View(): Mach
      reads this, mode, r, mem, tcb
    {
      Mach(current, mode[..], r[..], pc, cpsr, sp, lr, spUsr, lrUsr, mem[..], tcb[..], abt, ttbr0, tlb)
    }

    ghost predicate Valid()
      reads this, mode, r, mem, tcb
    {
      r != mem && SM.Shape(board, View())
    }

    /** A processor in state m. */
    constructor (b: Board, m: Mach)
      requires SM.Shape(b, m)
      ensures Valid() && board == b && View() == m
      ensures fresh(mode) && fresh(r) && fresh(mem) && fresh(tcb)
    {
      board := b;
      mode := new Mode[|m.mode|](i requires 0 <= i < |m.mode| => m.mode[i]);
      r := new Word[|m.r|](i requires 0 <= i < |m.r| => m.r[i]);
      mem := new Word[|m.mem|](i requires 0 <= i < |m.mem| => m.mem[i]);
      tcb := new Tcb[|m.tcb|](i requires 0 <= i < |m.tcb| => m.tcb[i]);
      current, pc, cpsr, sp, lr := m.current, m.pc, m.cpsr, m.sp, m.lr;
      spUsr, lrUsr, abt, ttbr0, tlb := m.spUsr, m.lrUsr, m.abt, m.ttbr0, m.tlb;
      new;
      assert View() == m;
    }

    // ------------------------------------------------------ multiple transfers

    /** stmfd sp!, {...}: the first listed register ends up at the lowest address. */
    method Push(ws: seq<Word>)
      requires |ws| <= sp <= mem.Length
      modifies this`sp, mem
      ensures sp == old(sp) - |ws|
      ensures mem[..] == Write(old(mem[..]), sp, ws)
    {
      ghost var was := mem[..];
      var i := |ws|;
      while i > 0
        invariant 0 <= i <= |ws| && sp == old(sp) - (|ws| - i)
        invariant mem[..] == was[..sp] + ws[i..] + was[old(sp)..]
      {
        i := i - 1;
        sp := sp - 1;
        mem[sp] := ws[i];
        assert was[..sp + 1] == was[..sp] + [was[sp]];
      }
    }

    /** ldmfd sp!, {...} of n registers. */
    method Pop(n: nat) returns (ws: seq<Word>)
      requires sp + n <= mem.Length
      modifies this`sp
      ensures sp == old(sp) + n && ws == mem[old(sp)..sp]
    {
      ws := [];
      for i := 0 to n
        invariant sp == old(sp) + i && ws == mem[old(sp)..sp]
      {
        ws := ws + [mem[sp]];
        sp := sp + 1;
      }
    }

    /** Load consecutive registers from rd on. */
    method LoadRegs(rd: nat, ws: seq<Word>)
      requires rd + |ws| <= r.Length
      modifies r
      ensures r[..] == old(r[..rd]) + ws + old(r[rd + |ws|..])
    {
      for i := 0 to |ws|
        invariant forall j :: 0 <= j < r.Length ==> r[j] == if rd <= j < rd + i then ws[j - rd] else old(r[j])
      {
        r[rd + i] := ws[i];
      }
    }

    // -------------------------------------------------------- exception entry

    /** stmfd sp!, {second...} after stmfd sp!, {first...}. */
    method PushTwo(first: seq<Word>, second: seq<Word>)
      requires |first| + |second| <= sp <= mem.Length
      modifies this`sp, mem
      ensures sp == old(sp) - |first| - |second|
      ensures mem[..] == Write(old(mem[..]), sp, second + first)
    {
      Push(first);
      Push(second);
      WriteTwice(old(mem[..]), old(sp), first, second);
    }

    /** The same for a whole trap frame. */
    method PushFrame(first: seq<Word>, second: seq<Word>)
      requires Valid() && |first| + |second| <= sp <= mem.Length
      modifies this`sp, mem
      ensures Valid()
      ensures var m := old(View()); var at := m.sp - |first| - |second|;
              View() == m.(mem := Write(m.mem, at, second + first), sp := at)
    {
      PushTwo(first, second);
    }

    method SvcEntry()
      requires Valid() && Stacks(board, View()) && mode[current].InUser?
      modifies this`sp, this`lr, mem, mode
      ensures Valid() && View() == Enter(board, old(View()), SM.SvcEntry)
    {
      ghost var m := View();
      StackInMemory(board, m, current);
      SvcFrameOrder(m);
      PushFrame(r[..] + [pc], [cpsr]);
      ghost var m1 := View();
      assert m1 == m.(mem := Write(m.mem, m.sp - SVC_FRAME, SvcFrame(m)), sp := m.sp - SVC_FRAME);
      lr := pc;
      mode[current] := InSvc;
      assert View() == m1.(lr := pc, mode := m1.mode[current := InSvc]);
    }

    method IrqEntry()
      requires Valid() && Stacks(board, View()) && mode[current].InUser?
      modifies this`sp, mem, mode
      ensures Valid() && View() == Enter(board, old(View()), SM.IrqEntry)
    {
      ghost var m := View();
      StackInMemory(board, m, current);
      IrqFrameOrder(m);
      PushFrame([pc, cpsr], r[..] + [lr]);
      mode[current] := InIrq;
    }

    /** Data abort, prefetch abort, undefined instruction: r0-r12 and lr, then SPSR, on
        the fault stack; then on to SVC mode. */
    method FaultEntry()
      requires Valid() && Stacks(board, View()) && mode[current].InUser?
      modifies this`abt, mode
      ensures Valid() && View() == Enter(board, old(View()), SM.FaultEntry)
    {
      SvcFrameOrder(View());
      abt := r[..] + [pc] + abt;
      abt := [cpsr] + abt;
      mode[current] := InFault;
    }

    /** ldmfd {r0}; msr spsr; ldmfd {r0-r12, pc}^ */
    method SvcExit()
      requires Valid() && Stacks(board, View()) && mode[current].InSvc?
      requires sp == Top(current) - SVC_FRAME
      modifies this, r, mode
      ensures Valid() && View() == Leave(board, old(View()))
    {
      StackInMemory(board, View(), current);
      var spsr := Pop(1);
      cpsr := spsr[0];
      var regs := PopRegs();
      pc := regs[13];
      mode[current] := InUser;
    }

    /** ldmfd {r0-r12, lr}; rfefd sp!  This is also ret_from_first_entry. */
    method IrqExit()
      requires Valid() && Stacks(board, View()) && mode[current].InIrq?
      requires sp == Top(current) - IRQ_FRAME
      modifies this, r, mode
      ensures Valid() && View() == Leave(board, old(View()))
    {
      StackInMemory(board, View(), current);
      var regs := PopRegs();
      lr := regs[13];
      var rfe := Pop(2);
      pc := rfe[0];
      cpsr := rfe[1];
      mode[current] := InUser;
    }

    /** ldmfd sp!, {r0-r12, x}: the fourteenth word is left to the caller. */
    method PopRegs() returns (ws: seq<Word>)
      requires sp + 14 <= mem.Length && r.Length == 13 && r != mem
      modifies this`sp, r
      ensures sp == old(sp) + 14 && |ws| == 14 && ws[13] == mem[old(sp) + 13]
      ensures r[..] == mem[old(sp)..old(sp) + 13]
    {
      ws := Pop(14);
      LoadRegs(0, ws[..13]);
      assert ws[..13] == mem[old(sp)..old(sp) + 13];
    }

    // --------------------------------------------------------- context_switch

    method SaveContext()
      requires Valid() && RESUME_WORDS <= sp <= mem.Length
      modifies this`sp, mem, tcb
      ensures Valid() && View() == Save(board, old(View()))
    {
      ghost var m := View();
      Push(r[4..12] + [lr]);
      tcb[current] := Tcb(sp, spUsr, lrUsr);
    }

    /** pop {r4-r11, lr} */
    method PopResume()
      requires sp + RESUME_WORDS <= mem.Length && r.Length == 13 && r != mem
      modifies this`sp, this`lr, r
      ensures sp == old(sp) + RESUME_WORDS && lr == mem[old(sp) + 8]
      ensures r[..] == old(r[..4]) + mem[old(sp)..old(sp) + 8] + old(r[12..])
    {
      var ws := Pop(9);
      LoadRegs(4, ws[..8]);
      assert ws[..8] == mem[old(sp)..old(sp) + 8];
      lr := ws[8];
    }

    method LoadContext(next: nat)
      requires Valid() && next < board.cfg.Threads() && tcb[next].sp + RESUME_WORDS <= mem.Length
      modifies this`current, this`sp, this`lr, this`spUsr, this`lrUsr, r
      ensures Valid() && View() == Load(board, old(View()), next)
    {
      current := next;
      spUsr := tcb[next].spUsr;
      lrUsr := tcb[next].lrUsr;
      sp := tcb[next].sp;
      PopResume();
    }

    method ContextSwitch(next: nat)
      requires Valid() && Stacks(board, View()) && next < board.cfg.Threads() && next != current
      modifies this, r, mem, tcb
      ensures Valid() && View() == SwitchTo(board, old(View()), next, true)
    {
      StackInMemory(board, View(), current);
      StackInMemory(board, View(), next);
      assert Parked(View().mode, View().tcb, next);
      var prev := current;
      SaveContext();
      if board.cfg.Pid(prev) != board.cfg.Pid(next) {
        SwitchTable(next);
      }
      LoadContext(next);
    }

    /** ctxsw_switch_mm: TTBR0 and TLBIALL. */
    method SwitchTable(next: nat)
      requires Valid() && next < board.cfg.Threads()
      modifies this`ttbr0, this`tlb
      ensures Valid() && View() == SwitchMm(board, old(View()), next)
    {
      PidInRange(board.cfg, next);
      ttbr0 := board.pgdPa[board.cfg.Pid(next)] + WALK_ATTRS;
      tlb := map[];
    }

    /** context_switch(NULL, &threads[0]): nothing to save, and the MMU work is mandatory. */
    method FirstSwitch(s: TI.Start)
      requires Valid() && TI.Ready(board, s, View())
      modifies this, r
      ensures Valid() && View() == TI.FirstRun(board, s, old(View()))
    {
      assert TI.Built(board.cfg, s, View().mem, View().tcb, 0);
      SwitchTable(0);
      LoadContext(0);
    }
  }

  /** Two pushes in a row are one push of both lists. */
  lemma WriteTwice(mem: seq<Word>, sp: nat, a: seq<Word>, b: seq<Word>)
    requires |a| + |b| <= sp <= |mem|
    ensures Write(Write(mem, sp - |a|, a), sp - |a| - |b|, b) == Write(mem, sp - |a| - |b|, b + a)
  {
  }

  lemma IrqFrameOrder(m: Mach)
    ensures m.r + [m.lr] + [m.pc, m.cpsr] == IrqFrame(m) && |IrqFrame(m)| == |m.r| + 3
  {
  }

  lemma SvcFrameOrder(m: Mach)
    ensures [m.cpsr] + (m.r + [m.pc]) == SvcFrame(m)
  {
  }
}
