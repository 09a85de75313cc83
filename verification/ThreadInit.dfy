/** kernel/proc/thread.c: the initial frames that let context_switch start a thread
    through the same path as a resumed one, and what the first switch makes of them. */
module ThreadInit {
  import opened Tasks
  import opened UserPointer
  import opened SwitchMachine

  const INIT_WORDS := 25             // 9-word resume frame below a 16-word IRQ frame
  const USER_STACK_SIZE := 0x0001_0000
  const USR_CPSR := USR_MODE

  /** What thread_init_all reads: every process's entry point, and the address of
      ret_from_first_entry. The stack slices must fit the user window. */
  datatype Start = Start(entry: seq<Word>, retFirst: Word)

  ghost predicate StartOk(c: Config, s: Start) {
    c.Valid() && |s.entry| == c.procs && c.perProc * USER_STACK_SIZE <= USER_REGION_SIZE
  }

  lemma IndexFits(c: Config, s: Start, t: nat)
    requires StartOk(c, s) && t < c.Threads()
    ensures c.Pid(t) < c.procs && c.Index(t) < c.perProc <= 16
  {
    PidInRange(c, t);
  }

  function UserStackTop(c: Config, s: Start, t: nat): Word
    requires StartOk(c, s) && t < c.Threads()
  {
    IndexFits(c, s, t);
    USER_STACK_TOP - c.Index(t) * USER_STACK_SIZE
  }

  function Zeros(n: nat): (z: seq<Word>)
    ensures |z| == n && forall i :: 0 <= i < n ==> z[i] == 0
  {
    seq(n, _ => 0)
  }

  /** r0-r12 at first entry: the thread index in r0 tells siblings apart. */
  function FirstRegs(c: Config, s: Start, t: nat): seq<Word>
    requires StartOk(c, s) && t < c.Threads()
  {
    IndexFits(c, s, t);
    [c.Index(t)] + Zeros(12)
  }

  function InitFrame(c: Config, s: Start, t: nat): (f: seq<Word>)
    requires StartOk(c, s) && t < c.Threads()
    ensures |f| == INIT_WORDS
  {
    IndexFits(c, s, t);
    Zeros(8) + [s.retFirst] + (FirstRegs(c, s, t) + [0] + [s.entry[c.Pid(t)], USR_CPSR])
  }

  /** The frame word by word. */
  lemma InitFrameAt(c: Config, s: Start, t: nat)
    requires StartOk(c, s) && t < c.Threads()
    ensures var f := InitFrame(c, s, t);
            && c.Pid(t) < |s.entry|
            && f[8] == s.retFirst && f[9] == c.Index(t) && f[23] == s.entry[c.Pid(t)] && f[24] == USR_CPSR
            && forall j :: 0 <= j < 23 && j != 8 && j != 9 ==> f[j] == 0
  {
    IndexFits(c, s, t);
  }

  /** Thread t has its own initial frame at the top of its own stack. */
  ghost predicate Built(c: Config, s: Start, mem: seq<Word>, tcb: seq<Tcb>, t: nat)
    requires StartOk(c, s) && t < c.Threads() && |tcb| == c.Threads() && |mem| == c.Threads() * KSTACK_WORDS
  {
    && tcb[t] == Tcb(Top(t) - INIT_WORDS, UserStackTop(c, s, t), 0)
    && Top(t) <= |mem|
    && mem[Top(t) - INIT_WORDS..Top(t)] == InitFrame(c, s, t)
  }

  /** thread_build_initial_frame: word by word, in the source's order. */
  method BuildInitialFrame(c: Config, s: Start, t: nat, mem: array<Word>)
    requires StartOk(c, s) && t < c.Threads() && mem.Length == c.Threads() * KSTACK_WORDS
    modifies mem
    ensures mem[..] == Write(old(mem[..]), Top(t) - INIT_WORDS, InitFrame(c, s, t))
  {
    IndexFits(c, s, t);
    var frame := Top(t) - INIT_WORDS;
    assert Top(t) <= mem.Length;
    for i := 0 to 8
      invariant forall j :: 0 <= j < mem.Length ==> mem[j] == if frame <= j < frame + i then 0 else old(mem[j])
    {
      mem[frame + i] := 0;
    }
    mem[frame + 8] := s.retFirst;
    for i := 0 to 13
      invariant forall j :: 0 <= j < mem.Length && j != frame + 8 ==>
        mem[j] == if frame <= j < frame + 9 + i then 0 else old(mem[j])
      invariant mem[frame + 8] == s.retFirst
    {
      mem[frame + 9 + i] := 0;
    }
    mem[frame + 9] := c.Index(t);
    mem[frame + 22] := 0;
    mem[frame + 23] := s.entry[c.Pid(t)];
    mem[frame + 24] := USR_CPSR;
    ghost var f := InitFrame(c, s, t);
    InitFrameAt(c, s, t);
    assert forall j :: frame <= j < frame + INIT_WORDS ==> mem[j] == f[j - frame];
    assert mem[..] == Write(old(mem[..]), frame, f);
  }

  /** thread_init_all: every thread gets its frame, and building one disturbs no other. */
  method ThreadInitAll(c: Config, s: Start, mem: array<Word>, tcb: array<Tcb>)
    requires StartOk(c, s) && mem.Length == c.Threads() * KSTACK_WORDS && tcb.Length == c.Threads()
    modifies mem, tcb
    ensures forall t :: 0 <= t < c.Threads() ==> Built(c, s, mem[..], tcb[..], t)
  {
    for tid := 0 to c.Threads()
      invariant forall t :: 0 <= t < tid ==> Built(c, s, mem[..], tcb[..], t)
    {
      ghost var memWas, tcbWas := mem[..], tcb[..];
      BuildInitialFrame(c, s, tid, mem);
      var entry := Tcb(Top(tid) - INIT_WORDS, UserStackTop(c, s, tid), 0);
      tcb[tid] := entry;
      assert tcb[..] == tcbWas[tid := entry];
      forall t | 0 <= t < tid + 1
        ensures Built(c, s, mem[..], tcb[..], t)
      {
        BuildKeepsBuilt(c, s, memWas, tcbWas, tid, t);
      }
    }
  }

  lemma BuildKeepsBuilt(c: Config, s: Start, mem: seq<Word>, tcb: seq<Tcb>, tid: nat, t: nat)
    requires StartOk(c, s) && t <= tid < c.Threads()
    requires |tcb| == c.Threads() && |mem| == c.Threads() * KSTACK_WORDS
    requires t < tid ==> Built(c, s, mem, tcb, t)
    ensures Top(tid) <= |mem|
    ensures Built(c, s, Write(mem, Top(tid) - INIT_WORDS, InitFrame(c, s, tid)),
                  tcb[tid := Tcb(Top(tid) - INIT_WORDS, UserStackTop(c, s, tid), 0)], t)
  {
    FrameKept(c, s, mem, tid, t);
  }

  lemma FrameKept(c: Config, s: Start, mem: seq<Word>, tid: nat, t: nat)
    requires StartOk(c, s) && tid < c.Threads() && t <= tid && |mem| == c.Threads() * KSTACK_WORDS
    ensures Top(tid) <= |mem|
    ensures var w := Write(mem, Top(tid) - INIT_WORDS, InitFrame(c, s, tid));
            w[Top(t) - INIT_WORDS..Top(t)] ==
              if t == tid then InitFrame(c, s, t) else mem[Top(t) - INIT_WORDS..Top(t)]
  {
  }

  // ------------------------------------------------------------- the first run

  /** The user context the kernel promises a new thread: its process's entry point, its
      index in r0, USR mode, and the top of its own stack slice. */
  function FirstUser(c: Config, s: Start, t: nat): User
    requires StartOk(c, s) && t < c.Threads()
  {
    IndexFits(c, s, t);
    User(FirstRegs(c, s, t), s.entry[c.Pid(t)], USR_CPSR, UserStackTop(c, s, t), 0)
  }

  /** State of the machine when kmain calls thread_first_run. */
  ghost predicate Ready(b: Board, s: Start, m: Mach) {
    && Shape(b, m) && StartOk(b.cfg, s)
    && forall t :: 0 <= t < b.cfg.Threads() ==> m.mode[t].InIrq? && Built(b.cfg, s, m.mem, m.tcb, t)
  }

  /** context_switch(NULL, &threads[0]): load only, MMU work unconditional. Afterwards
      every other thread is parked on its own stack. */
  ghost function FirstRun(b: Board, s: Start, m: Mach): (m': Mach)
    requires Ready(b, s, m)
    ensures Stacks(b, m')
  {
    assert Built(b.cfg, s, m.mem, m.tcb, 0);
    var m' := Load(b, SwitchMm(b, m, 0), 0);
    assert forall t :: 0 <= t < b.cfg.Threads() && t != 0 ==> Parked(m'.mode, m'.tcb, t) by {
      forall t | 0 <= t < b.cfg.Threads() && t != 0
        ensures Parked(m'.mode, m'.tcb, t)
      {
        assert Built(b.cfg, s, m.mem, m.tcb, t);
      }
    }
    m'
  }

  /** The first switch establishes the whole machine invariant. Thread 0 is about to
      run ret_from_first_entry with exactly the 16-word exit frame left on its stack,
      and every thread's user context is the promised first one. */
  lemma FirstRunStarts(b: Board, s: Start, m: Mach, t: nat)
    requires Ready(b, s, m) && t < b.cfg.Threads()
    ensures var m' := FirstRun(b, s, m);
            && Stacks(b, m') && MmuOk(b, m')
            && m'.lr == s.retFirst && m'.sp == Top(0) - IRQ_FRAME
            && UserOf(b, m', t) == FirstUser(b.cfg, s, t)
  {
    PidInRange(b.cfg, 0);
    var m' := FirstRun(b, s, m);
    assert Built(b.cfg, s, m.mem, m.tcb, 0);
    assert m'.lr == m.mem[Top(0) - INIT_WORDS..Top(0)][8] == InitFrame(b.cfg, s, 0)[8];
    FirstFrame(b, s, m, t);
  }

  lemma FirstFrame(b: Board, s: Start, m: Mach, t: nat)
    requires Ready(b, s, m) && t < b.cfg.Threads()
    ensures UserOf(b, FirstRun(b, s, m), t) == FirstUser(b.cfg, s, t)
  {
    var m' := FirstRun(b, s, m);
    assert Built(b.cfg, s, m.mem, m.tcb, t);
    IndexFits(b.cfg, s, t);
    FrameTail(m.mem, Top(t), InitFrame(b.cfg, s, t));
    var f := FirstRegs(b.cfg, s, t) + [0] + [s.entry[b.cfg.Pid(t)], USR_CPSR];
    assert InitFrame(b.cfg, s, t)[9..] == f;
    assert TrapFrame(b, m', t) == f;
    assert f[..13] == FirstRegs(b.cfg, s, t);
  }

  lemma FrameTail(mem: seq<Word>, top: nat, f: seq<Word>)
    requires INIT_WORDS <= top <= |mem| && |f| == INIT_WORDS && mem[top - INIT_WORDS..top] == f
    ensures mem[top - IRQ_FRAME..top] == f[9..]
  {
    forall i | 0 <= i < IRQ_FRAME
      ensures mem[top - IRQ_FRAME..top][i] == f[9..][i]
    {
      assert mem[top - INIT_WORDS..top][9 + i] == f[9 + i];
    }
  }

  /** Sibling threads get disjoint stack slices, all inside the user window. */
  lemma StackSlicesDisjoint(c: Config, s: Start, t: nat, u: nat)
    requires StartOk(c, s) && t < c.Threads() && u < c.Threads()
    ensures var top := UserStackTop(c, s, t);
            USER_VIRT_BASE <= top - USER_STACK_SIZE && top <= USER_STACK_TOP
    ensures t != u && c.Pid(t) == c.Pid(u) ==>
              || UserStackTop(c, s, t) <= UserStackTop(c, s, u) - USER_STACK_SIZE
              || UserStackTop(c, s, u) <= UserStackTop(c, s, t) - USER_STACK_SIZE
  {
    IndexFits(c, s, t);
    IndexFits(c, s, u);
    FirstOfPid(c, t);
    FirstOfPid(c, u);
  }
}
