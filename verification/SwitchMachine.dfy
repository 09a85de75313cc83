/** The processor as the trap entry code and context_switch see it: one live register
    file with banked SP and LR, one kernel stack per thread, the saved part of each
    thread control block, TTBR0 and a TLB. Stack pointers are word indices into the
    kernel-stack area. */
module SwitchMachine {
  import opened Tasks

  const KSTACK_WORDS := 2048       // KSTACK_SIZE / 4
  const RESUME_WORDS := 9          // r4-r11, lr
  const SVC_FRAME := 15            // spsr, r0-r12, lr
  const IRQ_FRAME := 16            // r0-r12, lr_svc, pc, cpsr
  const PGD_ALIGN := 0x4000
  const WALK_ATTRS := 0x4A
  const USR_MODE := 0x10           // CPSR.M of user mode

  /** What is fixed after boot: the table geometry, where each process's translation
      table lies, and what it holds. */
  datatype Board = Board(cfg: Config, pgdPa: seq<Word>, tables: seq<seq<Word>>) {
    ghost predicate Valid() {
      && cfg.Valid()
      && |pgdPa| == |tables| == cfg.procs
      && (forall p :: 0 <= p < cfg.procs ==> pgdPa[p] % PGD_ALIGN == 0 && |tables[p]| == PGD_ENTRIES)
      && (forall p, q :: 0 <= p < q < cfg.procs ==> pgdPa[p] != pgdPa[q])
    }
  }

  /** Which trap a thread is inside, if any. */
  datatype Mode = InUser | InSvc | InIrq | InFault

  datatype Tcb = Tcb(sp: nat, spUsr: Word, lrUsr: Word)

  datatype Mach = Mach(
    current: nat, mode: seq<Mode>,
    r: seq<Word>, pc: Word, cpsr: Word,      // r0-r12; pc and cpsr matter in user mode
    sp: nat, lr: Word,                       // SVC bank
    spUsr: Word, lrUsr: Word,                // USR bank
    mem: seq<Word>, tcb: seq<Tcb>,
    abt: seq<Word>,                          // the fault stack, from SP_abt up
    ttbr0: Word, tlb: map<nat, Word>)

  function Low(t: nat): nat {
    t * KSTACK_WORDS
  }

  function Top(t: nat): nat {
    t * KSTACK_WORDS + KSTACK_WORDS
  }

  function FrameWords(mode: Mode): nat {
    match mode case InUser => 0 case InSvc => SVC_FRAME case InIrq => IRQ_FRAME case InFault => 0
  }

  // ---------------------------------------------------------------- invariant

  ghost predicate Shape(b: Board, m: Mach) {
    && b.Valid()
    && m.current < b.cfg.Threads()
    && |m.mode| == |m.tcb| == b.cfg.Threads()
    && |m.r| == 13
    && |m.mem| == b.cfg.Threads() * KSTACK_WORDS
  }

  /** A parked thread has its trap frame at the top of its own stack and a resume
      frame somewhere below it. */
  ghost predicate Parked(mode: seq<Mode>, tcb: seq<Tcb>, t: nat)
    requires t < |mode| == |tcb|
  {
    && !mode[t].InUser?
    && Low(t) <= tcb[t].sp && tcb[t].sp + RESUME_WORDS <= Top(t) - FrameWords(mode[t])
  }

  /** The live thread has room for a resume frame. In user mode its kernel stack is
      empty. */
  ghost predicate LiveStack(m: Mach)
    requires m.current < |m.mode|
  {
    && Low(m.current) + RESUME_WORDS <= m.sp <= Top(m.current) - FrameWords(m.mode[m.current])
    && (m.mode[m.current].InUser? ==> m.sp == Top(m.current))
  }

  ghost predicate Stacks(b: Board, m: Mach) {
    && Shape(b, m)
    && LiveStack(m)
    && forall t :: 0 <= t < b.cfg.Threads() && t != m.current ==> Parked(m.mode, m.tcb, t)
  }

  /** TTBR0 points at the current process's table and the TLB caches only that table. */
  ghost predicate MmuOk(b: Board, m: Mach) {
    && Shape(b, m)
    && b.cfg.Pid(m.current) < b.cfg.procs
    && m.ttbr0 == b.pgdPa[b.cfg.Pid(m.current)] + WALK_ATTRS
    && forall i :: i in m.tlb ==> i < PGD_ENTRIES && m.tlb[i] == b.tables[b.cfg.Pid(m.current)][i]
  }

  // ----------------------------------------------------------- thread contexts

  /** What a thread in user mode can see of itself. */
  datatype User = User(r: seq<Word>, pc: Word, cpsr: Word, sp: Word, lr: Word)

  /** A thread that faulted has no user context left: nothing ever reads its frame. */
  const GONE := User([0, 0, 0, 0, 0, 0, 0, 0, 0, 0, 0, 0, 0], 0, USR_MODE, 0, 0)

  /** The test of fault_from_user: the low five bits of a saved SPSR say USR. */
  predicate FromUser(spsr: Word) {
    spsr % 32 == USR_MODE
  }

  /** User code cannot leave USR mode but by a trap. */
  predicate UserOk(u: User) {
    |u.r| == 13 && FromUser(u.cpsr)
  }

  function FrameUser(mode: Mode, f: seq<Word>, spUsr: Word, lrUsr: Word): User
    requires !mode.InUser? && |f| == FrameWords(mode)
  {
    if mode.InSvc? then User(f[1..14], f[14], f[0], spUsr, lrUsr)
    else if mode.InIrq? then User(f[..13], f[14], f[15], spUsr, lrUsr)
    else GONE
  }

  ghost function TrapFrame(b: Board, m: Mach, t: nat): seq<Word>
    requires Shape(b, m) && t < b.cfg.Threads()
  {
    StackInMemory(b, m, t);
    m.mem[Top(t) - FrameWords(m.mode[t])..Top(t)]
  }

  /** The user context of thread t, wherever it is kept: in the live registers, or in
      the trap frame on its kernel stack with SP_usr and LR_usr in the bank or TCB. */
  ghost function UserOf(b: Board, m: Mach, t: nat): (u: User)
    requires Stacks(b, m) && t < b.cfg.Threads()
    ensures |u.r| == 13
  {
    if t == m.current && m.mode[t].InUser? then User(m.r, m.pc, m.cpsr, m.spUsr, m.lrUsr)
    else if t == m.current then FrameUser(m.mode[t], TrapFrame(b, m, t), m.spUsr, m.lrUsr)
    else
      assert Parked(m.mode, m.tcb, t);
      FrameUser(m.mode[t], TrapFrame(b, m, t), m.tcb[t].spUsr, m.tcb[t].lrUsr)
  }

  /** What context_switch must preserve for its caller: r4-r11, lr, both stack
      pointers, LR_usr and the stack from SP_svc up. */
  datatype Kctx = Kctx(saved: seq<Word>, sp: nat, spUsr: Word, lrUsr: Word, stack: seq<Word>)

  ghost function KctxOf(b: Board, m: Mach, t: nat): Kctx
    requires Stacks(b, m) && t < b.cfg.Threads()
  {
    StackInMemory(b, m, t);
    if t == m.current then
      Kctx(m.r[4..12] + [m.lr], m.sp, m.spUsr, m.lrUsr, m.mem[m.sp..Top(t)])
    else
      assert Parked(m.mode, m.tcb, t);
      var p := m.tcb[t].sp;
      Kctx(m.mem[p..p + RESUME_WORDS], p + RESUME_WORDS, m.tcb[t].spUsr, m.tcb[t].lrUsr,
           m.mem[p + RESUME_WORDS..Top(t)])
  }

  lemma StackInMemory(b: Board, m: Mach, t: nat)
    requires Shape(b, m) && t < b.cfg.Threads()
    ensures Top(t) <= |m.mem|
  {
  }

  // ------------------------------------------------------------- memory writes

  function Write(mem: seq<Word>, at: nat, ws: seq<Word>): (r: seq<Word>)
    requires at + |ws| <= |mem|
    ensures |r| == |mem|
  {
    mem[..at] + ws + mem[at + |ws|..]
  }

  // ---------------------------------------------------------- context_switch.S

  /** The save side: push r4-r11 and lr, then park SP_svc, SP_usr and LR_usr. */
  function Save(b: Board, m: Mach): (r: Mach)
    requires Shape(b, m) && RESUME_WORDS <= m.sp <= |m.mem|
    ensures Shape(b, r)
  {
    var sp := m.sp - RESUME_WORDS;
    m.(mem := Write(m.mem, sp, m.r[4..12] + [m.lr]),
       tcb := m.tcb[m.current := Tcb(sp, m.spUsr, m.lrUsr)],
       sp := sp)
  }

  /** The cross-process path: reprogram TTBR0 and flush the TLB. */
  function SwitchMm(b: Board, m: Mach, next: nat): (r: Mach)
    requires Shape(b, m) && next < b.cfg.Threads()
    ensures Shape(b, r)
  {
    PidInRange(b.cfg, next);
    m.(ttbr0 := b.pgdPa[b.cfg.Pid(next)] + WALK_ATTRS, tlb := map[])
  }

  /** The load side: next's banked registers, its kernel stack, and its resume frame. */
  function Load(b: Board, m: Mach, next: nat): (r: Mach)
    requires Shape(b, m) && next < b.cfg.Threads() && m.tcb[next].sp + RESUME_WORDS <= |m.mem|
    ensures Shape(b, r)
  {
    var p := m.tcb[next].sp;
    m.(current := next, spUsr := m.tcb[next].spUsr, lrUsr := m.tcb[next].lrUsr,
       r := m.r[..4] + m.mem[p..p + 8] + m.r[12..], lr := m.mem[p + 8], sp := p + RESUME_WORDS)
  }

  /** context_switch(prev, next); `skip` is the same-process test. */
  function SwitchTo(b: Board, m: Mach, next: nat, skip: bool): (r: Mach)
    requires Stacks(b, m) && next < b.cfg.Threads() && next != m.current
    ensures Shape(b, r)
  {
    StackInMemory(b, m, m.current);
    StackInMemory(b, m, next);
    assert Parked(m.mode, m.tcb, next);
    var s := Save(b, m);
    var mm := if skip && b.cfg.Pid(m.current) == b.cfg.Pid(next) then s else SwitchMm(b, s, next);
    Load(b, mm, next)
  }

  // --------------------------------------------------------- exception_entry.S

  function SvcFrame(m: Mach): seq<Word> {
    [m.cpsr] + m.r + [m.pc]
  }

  function IrqFrame(m: Mach): seq<Word> {
    m.r + [m.lr] + [m.pc, m.cpsr]
  }

  datatype Entry = SvcEntry | IrqEntry | FaultEntry

  /** SVC and IRQ entry put the frame on the thread's own kernel stack. A fault puts it
      on the shared fault stack and enters SVC mode with the kernel stack still empty. */
  function Enter(b: Board, m: Mach, entry: Entry): Mach
    requires Stacks(b, m) && m.mode[m.current].InUser?
  {
    StackInMemory(b, m, m.current);
    match entry
    case IrqEntry =>
      m.(mem := Write(m.mem, m.sp - IRQ_FRAME, IrqFrame(m)), sp := m.sp - IRQ_FRAME,
         mode := m.mode[m.current := InIrq])
    case SvcEntry =>
      m.(mem := Write(m.mem, m.sp - SVC_FRAME, SvcFrame(m)), sp := m.sp - SVC_FRAME, lr := m.pc,
         mode := m.mode[m.current := InSvc])
    case FaultEntry =>
      m.(abt := SvcFrame(m) + m.abt, mode := m.mode[m.current := InFault])
  }

  /** The matching exit, once the handler's own frames are gone. */
  function Leave(b: Board, m: Mach): Mach
    requires Stacks(b, m) && (m.mode[m.current].InSvc? || m.mode[m.current].InIrq?)
    requires m.sp == Top(m.current) - FrameWords(m.mode[m.current])
  {
    StackInMemory(b, m, m.current);
    if m.mode[m.current].InIrq? then
      m.(r := m.mem[m.sp..m.sp + 13], lr := m.mem[m.sp + 13], pc := m.mem[m.sp + 14],
         cpsr := m.mem[m.sp + 15], sp := m.sp + IRQ_FRAME, mode := m.mode[m.current := InUser])
    else
      m.(cpsr := m.mem[m.sp], r := m.mem[m.sp + 1..m.sp + 14], pc := m.mem[m.sp + 14],
         sp := m.sp + SVC_FRAME, mode := m.mode[m.current := InUser])
  }

  // -------------------------------------------------------------- operations

  datatype Op =
    | UserRun(u: User)                                     // user code of the current thread
    | Trap(entry: Entry)
    | Work(r: seq<Word>, lr: Word, sp: nat, words: seq<Word>)  // kernel C code below its trap frame
    | SetResult(v: Word)                                   // ctx->r[0] = ret
    | Switch(next: nat)
    | Return
    | TlbFill(i: nat)                                      // the hardware caches a walk

  /** Kernel C code keeps to its own stack, leaves the trap frame alone, and has
      unwound its own frames when it returns to the entry code. */
  ghost predicate Enabled(b: Board, m: Mach, op: Op)
    requires Stacks(b, m)
  {
    var t := m.current;
    var inUser, limit := m.mode[t].InUser?, Top(t) - FrameWords(m.mode[t]);
    match op
    case UserRun(u) => inUser && UserOk(u)
    case Trap(_) => inUser
    case Work(r, _, sp, words) =>
      !inUser && |r| == 13 && Low(t) + RESUME_WORDS <= sp <= limit && |words| == limit - Low(t)
    case SetResult(_) => m.mode[t].InSvc?
    case Switch(next) => !inUser && next < b.cfg.Threads() && next != t
    case Return => (m.mode[t].InSvc? || m.mode[t].InIrq?) && m.sp == limit
    case TlbFill(i) => i < PGD_ENTRIES && b.cfg.Pid(t) < b.cfg.procs
  }

  ghost function Apply(b: Board, m: Mach, op: Op, skip: bool): Mach
    requires Stacks(b, m) && Enabled(b, m, op)
  {
    var t := m.current;
    StackInMemory(b, m, t);
    match op
    case UserRun(u) => m.(r := u.r, pc := u.pc, cpsr := u.cpsr, spUsr := u.sp, lrUsr := u.lr)
    case Trap(entry) => Enter(b, m, entry)
    case Work(r, lr, sp, words) => m.(r := r, lr := lr, sp := sp, mem := Write(m.mem, Low(t), words))
    case SetResult(v) => m.(mem := Write(m.mem, Top(t) - SVC_FRAME + 1, [v]))
    case Switch(next) => SwitchTo(b, m, next, skip)
    case Return => Leave(b, m)
    case TlbFill(i) => m.(tlb := m.tlb[i := b.tables[TableAt(b, m.ttbr0)][i]])
  }

  /** The process whose table a walk from this TTBR0 value uses. */
  ghost function TableAt(b: Board, ttbr0: Word): (p: nat)
    requires b.Valid()
    ensures p < b.cfg.procs
    ensures (exists q :: 0 <= q < b.cfg.procs && b.pgdPa[q] == ttbr0 - ttbr0 % PGD_ALIGN) ==>
              b.pgdPa[p] == ttbr0 - ttbr0 % PGD_ALIGN
  {
    if exists q :: 0 <= q < b.cfg.procs && b.pgdPa[q] == ttbr0 - ttbr0 % PGD_ALIGN then
      var q: nat :| q < b.cfg.procs && b.pgdPa[q] == ttbr0 - ttbr0 % PGD_ALIGN; q
    else 0
  }

  /** The low five bits of a word, as the source masks them. */
  lemma ModeBits(x: bv32)
    ensures x & 0x1F == x % 32
  {
  }

  /** On a 16 KB aligned address the source's OR is this addition. */
  lemma OrIsAdd(pa: bv32)
    requires pa & 0x3FFF == 0
    ensures pa | 0x4A == pa + 0x4A
    ensures (pa | 0x4A) & 0xFFFF_C000 == pa
  {
  }
}
