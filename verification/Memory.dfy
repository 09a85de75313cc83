/** Physical RAM and the console, beside the processor: user code stores through the
    MMU, and so does the kernel on a caller's behalf. As long as the kernel keeps to the
    user window, the RAM is one private memory per process. */
module Memory {
  import opened Tasks
  import opened UserPointer
  import PT = PageTable
  import AS = AddressSpace
  import SM = SwitchMachine
  import SP = SwitchProofs
  import WS = WholeSystem
  import Isolation

  datatype Act =
    | Cpu(op: SM.Op)
    | UserStore(va: Word, v: Byte)      // user code of the current thread
    | KernelStore(va: Word, v: Byte)    // the kernel, into the caller's buffer
    | KernelPrint(va: Word)             // the kernel, from the caller's buffer to the console

  /** RAM as offsets from the layout's base. */
  datatype World = World(m: SM.Mach, ram: seq<Byte>, console: seq<Byte>)

  ghost predicate WorldOk(b: SM.Board, l: PT.Layout, w: World) {
    && Isolation.TablesBuilt(b, l) && |w.ram| == l.ramSize
    && SM.Stacks(b, w.m) && SM.MmuOk(b, w.m)
  }

  // ------------------------------------------------------------- the real thing

  /** An access that faults, or that does not reach RAM, changes nothing. */
  function Poke(l: PT.Layout, ram: seq<Byte>, pa: Option<Word>, v: Byte): (ram': seq<Byte>)
    ensures |ram'| == |ram|
  {
    if pa.Some? && l.ramBase <= pa.value < l.ramBase + |ram| then ram[pa.value - l.ramBase := v] else ram
  }

  function Peek(l: PT.Layout, ram: seq<Byte>, pa: Option<Word>): Byte {
    if pa.Some? && l.ramBase <= pa.value < l.ramBase + |ram| then ram[pa.value - l.ramBase] else 0
  }

  const LF := 10
  const CR := 13

  /** uart_putc */
  function Sent(c: Byte): seq<Byte> {
    if c == LF then [CR, c] else [c]
  }

  ghost predicate ActEnabled(b: SM.Board, w: World, act: Act)
    requires SM.Stacks(b, w.m)
  {
    match act
    case Cpu(op) => SM.Enabled(b, w.m, op)
    case UserStore(_, _) => w.m.mode[w.m.current].InUser?
    case _ => !w.m.mode[w.m.current].InUser?
  }

  ghost function ActApply(b: SM.Board, l: PT.Layout, w: World, act: Act): World
    requires SM.Stacks(b, w.m) && ActEnabled(b, w, act)
  {
    match act
    case Cpu(op) => w.(m := SM.Apply(b, w.m, op, true))
    case UserStore(va, v) => w.(ram := Poke(l, w.ram, Isolation.LiveAccess(b, w.m, va, true, true), v))
    case KernelStore(va, v) => w.(ram := Poke(l, w.ram, Isolation.LiveAccess(b, w.m, va, false, true), v))
    case KernelPrint(va) =>
      w.(console := w.console + Sent(Peek(l, w.ram, Isolation.LiveAccess(b, w.m, va, false, false))))
  }

  // ------------------------------------------------------------------ the ideal

  /** The kernel touches user memory only inside the window. */
  predicate Tame(act: Act) {
    match act
    case KernelStore(va, _) => InWindow(va)
    case KernelPrint(va) => InWindow(va)
    case _ => true
  }

  type Slot = s: seq<Byte> | |s| == USER_REGION_SIZE witness seq(USER_REGION_SIZE, _ => 0)

  /** One private memory per process. */
  datatype Ideal = Ideal(current: nat, slots: seq<Slot>, console: seq<Byte>)

  ghost predicate IdealOk(c: Config, s: Ideal) {
    c.Valid() && |s.slots| == c.procs && c.Pid(s.current) < c.procs
  }

  function Put(slot: Slot, va: Word, v: Byte): Slot {
    if InWindow(va) then slot[va - USER_VIRT_BASE := v] else slot
  }

  ghost function IdealApply(c: Config, s: Ideal, act: Act): Ideal
    requires IdealOk(c, s)
  {
    var p := c.Pid(s.current);
    match act
    case Cpu(op) => if op.Switch? then s.(current := op.next) else s
    case UserStore(va, v) => s.(slots := s.slots[p := Put(s.slots[p], va, v)])
    case KernelStore(va, v) => s.(slots := s.slots[p := Put(s.slots[p], va, v)])
    case KernelPrint(va) =>
      if InWindow(va) then s.(console := s.console + Sent(s.slots[p][va - USER_VIRT_BASE])) else s
  }

  // ----------------------------------------------------------- RAM as slots

  lemma SlotInRam(procs: nat, ram: nat, p: nat)
    requires AS.SLOT_OFFSET + procs * AS.USER_PHYS_STRIDE <= ram && p < procs
    ensures AS.SlotOffset(p) + USER_REGION_SIZE <= ram
  {
    assert (p + 1) * AS.USER_PHYS_STRIDE <= procs * AS.USER_PHYS_STRIDE;
  }

  function SlotOf(procs: nat, ram: seq<Byte>, p: nat): Slot
    requires AS.SLOT_OFFSET + procs * AS.USER_PHYS_STRIDE <= |ram| && p < procs
  {
    SlotInRam(procs, |ram|, p);
    ram[AS.SlotOffset(p)..AS.SlotOffset(p) + USER_REGION_SIZE]
  }

  function SlotsOf(procs: nat, ram: seq<Byte>): seq<Slot>
    requires AS.SLOT_OFFSET + procs * AS.USER_PHYS_STRIDE <= |ram|
  {
    seq(procs, p requires 0 <= p < procs => SlotOf(procs, ram, p))
  }

  ghost function IdealOf(b: SM.Board, l: PT.Layout, w: World): Ideal
    requires WorldOk(b, l, w)
  {
    Ideal(w.m.current, SlotsOf(b.cfg.procs, w.ram), w.console)
  }

  /** A byte of slot p changes slot p at that offset, and no other slot. */
  lemma StoreInSlot(procs: nat, ram: seq<Byte>, p: nat, i: nat, v: Byte)
    requires AS.SLOT_OFFSET + procs * AS.USER_PHYS_STRIDE <= |ram| && p < procs && i < USER_REGION_SIZE
    ensures AS.SlotOffset(p) + i < |ram|
    ensures var ram' := ram[AS.SlotOffset(p) + i := v];
            SlotsOf(procs, ram') == SlotsOf(procs, ram)[p := SlotOf(procs, ram, p)[i := v]]
  {
    SlotInRam(procs, |ram|, p);
    var ram' := ram[AS.SlotOffset(p) + i := v];
    forall q | 0 <= q < procs
      ensures SlotOf(procs, ram', q) == if q == p then SlotOf(procs, ram, p)[i := v] else SlotOf(procs, ram, q)
    {
      SlotInRam(procs, |ram|, q);
      Apart(p, q);
    }
  }

  lemma Apart(p: nat, q: nat)
    ensures p < q ==> AS.SlotOffset(p) + USER_REGION_SIZE <= AS.SlotOffset(q)
    ensures q < p ==> AS.SlotOffset(q) + USER_REGION_SIZE <= AS.SlotOffset(p)
  {
  }

  /** An access through the window, by user code or the kernel, reaches the current
      process's slot at the same offset. */
  lemma WindowReaches(b: SM.Board, l: PT.Layout, w: World, va: Word, user: bool, write: bool)
    requires WorldOk(b, l, w) && InWindow(va)
    ensures var p := b.cfg.Pid(w.m.current);
            && p < b.cfg.procs
            && Isolation.LiveAccess(b, w.m, va, user, write) ==
                 Some(l.ramBase + AS.SlotOffset(p) + (va - USER_VIRT_BASE))
  {
    SP.LookupIsOwnTable(b, w.m, va / PT.MB);
    AS.WindowTranslates(l, b.cfg.procs, b.cfg.Pid(w.m.current), va, user, write);
  }

  lemma UserBlockedOutside(b: SM.Board, l: PT.Layout, w: World, va: Word)
    requires WorldOk(b, l, w) && !InWindow(va)
    ensures Isolation.LiveAccess(b, w.m, va, true, true) == None
  {
    Isolation.CoherentMmuConfines(b, l, w.m, va, true);
  }

  /** One act on the real world is the same act on the ideal one. */
  lemma ActRefines(b: SM.Board, l: PT.Layout, w: World, act: Act)
    requires WorldOk(b, l, w) && ActEnabled(b, w, act) && Tame(act)
    ensures var w' := ActApply(b, l, w, act);
            WorldOk(b, l, w') && IdealOk(b.cfg, IdealOf(b, l, w))
            && IdealOf(b, l, w') == IdealApply(b.cfg, IdealOf(b, l, w), act)
  {
    PidInRange(b.cfg, w.m.current);
    match act
    case Cpu(op) => CpuRefines(b, l, w, op);
    case UserStore(va, v) => StoreRefines(b, l, w, va, true, v);
    case KernelStore(va, v) => StoreRefines(b, l, w, va, false, v);
    case KernelPrint(va) =>
      WindowReaches(b, l, w, va, false, false);
      SlotInRam(b.cfg.procs, |w.ram|, b.cfg.Pid(w.m.current));
  }

  lemma CpuRefines(b: SM.Board, l: PT.Layout, w: World, op: SM.Op)
    requires WorldOk(b, l, w) && SM.Enabled(b, w.m, op)
    ensures var w' := ActApply(b, l, w, Cpu(op));
            WorldOk(b, l, w') && w'.m.current == if op.Switch? then op.next else w.m.current
  {
    SP.OpKeepsUsers(b, w.m, op, true, w.m.current);
    SP.OpKeepsMmu(b, w.m, op, true);
    CurrentAfter(b, w.m, op);
  }

  lemma CurrentAfter(b: SM.Board, m: SM.Mach, op: SM.Op)
    requires SM.Stacks(b, m) && SM.Enabled(b, m, op)
    ensures SM.Apply(b, m, op, true).current == if op.Switch? then op.next else m.current
  {
  }

  /** The slots after a store at va by process p. */
  ghost predicate StoredBy(procs: nat, ram: seq<Byte>, ram': seq<Byte>, p: nat, va: Word, v: Byte)
    requires AS.SLOT_OFFSET + procs * AS.USER_PHYS_STRIDE <= |ram| == |ram'|
  {
    p < procs && SlotsOf(procs, ram') == SlotsOf(procs, ram)[p := Put(SlotOf(procs, ram, p), va, v)]
  }

  lemma StoreRefines(b: SM.Board, l: PT.Layout, w: World, va: Word, user: bool, v: Byte)
    requires WorldOk(b, l, w) && (user || InWindow(va))
    ensures StoredBy(b.cfg.procs, w.ram, Poke(l, w.ram, Isolation.LiveAccess(b, w.m, va, user, true), v),
                     b.cfg.Pid(w.m.current), va, v)
  {
    PidInRange(b.cfg, w.m.current);
    if InWindow(va) {
      WindowReaches(b, l, w, va, user, true);
      PokeSlot(l, b.cfg.procs, w.ram, b.cfg.Pid(w.m.current), va, v);
    } else {
      UserBlockedOutside(b, l, w, va);
      NothingStored(b.cfg.procs, w.ram, b.cfg.Pid(w.m.current), va, v);
    }
  }

  lemma NothingStored(procs: nat, ram: seq<Byte>, p: nat, va: Word, v: Byte)
    requires AS.SLOT_OFFSET + procs * AS.USER_PHYS_STRIDE <= |ram| && p < procs && !InWindow(va)
    ensures StoredBy(procs, ram, ram, p, va, v)
  {
  }

  lemma PokeSlot(l: PT.Layout, procs: nat, ram: seq<Byte>, p: nat, va: Word, v: Byte)
    requires AS.SLOT_OFFSET + procs * AS.USER_PHYS_STRIDE <= |ram| && p < procs && InWindow(va)
    requires l.ramBase + |ram| <= WORD
    ensures var pa := l.ramBase + AS.SlotOffset(p) + (va - USER_VIRT_BASE);
            pa < WORD && StoredBy(procs, ram, Poke(l, ram, Some(pa), v), p, va, v)
  {
    StoreInSlot(procs, ram, p, va - USER_VIRT_BASE, v);
  }

  /** RAM outside the slots: the kernel's image, tables and stacks below, the rest above. */
  ghost predicate SameOutside(procs: nat, ram: seq<Byte>, ram': seq<Byte>) {
    && |ram'| == |ram|
    && forall j :: 0 <= j < |ram| && !(AS.SLOT_OFFSET <= j < AS.SLOT_OFFSET + procs * AS.USER_PHYS_STRIDE) ==>
         ram'[j] == ram[j]
  }

  /** No act touches RAM outside the slots. */
  lemma ActKeepsOutside(b: SM.Board, l: PT.Layout, w: World, act: Act)
    requires WorldOk(b, l, w) && ActEnabled(b, w, act) && Tame(act)
    ensures SameOutside(b.cfg.procs, w.ram, ActApply(b, l, w, act).ram)
  {
    match act
    case UserStore(va, v) => StoreKeepsOutside(b, l, w, va, true, v);
    case KernelStore(va, v) => StoreKeepsOutside(b, l, w, va, false, v);
    case _ =>
  }

  lemma StoreKeepsOutside(b: SM.Board, l: PT.Layout, w: World, va: Word, user: bool, v: Byte)
    requires WorldOk(b, l, w) && (user || InWindow(va))
    ensures SameOutside(b.cfg.procs, w.ram, Poke(l, w.ram, Isolation.LiveAccess(b, w.m, va, user, true), v))
  {
    if InWindow(va) {
      WindowReaches(b, l, w, va, user, true);
      SlotInside(b.cfg.procs, b.cfg.Pid(w.m.current));
    } else {
      UserBlockedOutside(b, l, w, va);
    }
  }

  lemma SlotInside(procs: nat, p: nat)
    requires p < procs
    ensures AS.SLOT_OFFSET <= AS.SlotOffset(p)
    ensures AS.SlotOffset(p) + USER_REGION_SIZE <= AS.SLOT_OFFSET + procs * AS.USER_PHYS_STRIDE
  {
    assert (p + 1) * AS.USER_PHYS_STRIDE <= procs * AS.USER_PHYS_STRIDE;
  }

  // -------------------------------------------------------------------- runs

  ghost predicate ActsOk(b: SM.Board, l: PT.Layout, w: World, acts: seq<Act>)
    decreases |acts|
  {
    WorldOk(b, l, w) &&
    (acts == [] || (ActEnabled(b, w, acts[0]) && ActsOk(b, l, ActApply(b, l, w, acts[0]), acts[1..])))
  }

  ghost function ActsRun(b: SM.Board, l: PT.Layout, w: World, acts: seq<Act>): (w': World)
    requires ActsOk(b, l, w, acts)
    ensures WorldOk(b, l, w')
    decreases |acts|
  {
    if acts == [] then w else ActsRun(b, l, ActApply(b, l, w, acts[0]), acts[1..])
  }

  ghost predicate IdealRunOk(c: Config, s: Ideal, acts: seq<Act>)
    decreases |acts|
  {
    IdealOk(c, s) && (acts == [] || IdealRunOk(c, IdealApply(c, s, acts[0]), acts[1..]))
  }

  ghost function IdealRun(c: Config, s: Ideal, acts: seq<Act>): Ideal
    requires IdealRunOk(c, s, acts)
    decreases |acts|
  {
    if acts == [] then s else IdealRun(c, IdealApply(c, s, acts[0]), acts[1..])
  }

  ghost predicate Leads(c: Config, s: Ideal, acts: seq<Act>, s': Ideal) {
    IdealRunOk(c, s, acts) && IdealRun(c, s, acts) == s'
  }

  /** What leaves the ideal memory alone and is not prescribed by the kernel. */
  predicate QuietAct(act: Act) {
    act.Cpu? && WS.Quiet(act.op)
  }

  function EraseActs(acts: seq<Act>): seq<Act> {
    if acts == [] then []
    else if QuietAct(acts[0]) then EraseActs(acts[1..])
    else [acts[0]] + EraseActs(acts[1..])
  }

  ghost predicate AllTame(acts: seq<Act>) {
    forall i :: 0 <= i < |acts| ==> Tame(acts[i])
  }

  /** A run on the real world does to the slots and the console what its acts do to the
      ideal ones, C code and TLB traffic erased. */
  lemma {:induction false} ActsRefine(b: SM.Board, l: PT.Layout, w: World, acts: seq<Act>)
    requires ActsOk(b, l, w, acts) && AllTame(EraseActs(acts))
    ensures Leads(b.cfg, IdealOf(b, l, w), EraseActs(acts), IdealOf(b, l, ActsRun(b, l, w, acts)))
    decreases |acts|
  {
    if acts == [] {
      PidInRange(b.cfg, w.m.current);
    } else {
      var act := acts[0];
      TameTail(acts);
      ActRefines(b, l, w, act);
      var w' := ActApply(b, l, w, act);
      ActsRefine(b, l, w', acts[1..]);
      LeadsOn(b.cfg, IdealOf(b, l, w), acts, IdealOf(b, l, w'), IdealOf(b, l, ActsRun(b, l, w', acts[1..])));
    }
  }

  lemma {:induction false} ActsKeepOutside(b: SM.Board, l: PT.Layout, w: World, acts: seq<Act>)
    requires ActsOk(b, l, w, acts) && AllTame(EraseActs(acts))
    ensures SameOutside(b.cfg.procs, w.ram, ActsRun(b, l, w, acts).ram)
    decreases |acts|
  {
    if acts != [] {
      TameTail(acts);
      ActKeepsOutside(b, l, w, acts[0]);
      ActsKeepOutside(b, l, ActApply(b, l, w, acts[0]), acts[1..]);
    }
  }

  lemma {:induction false} TameTail(acts: seq<Act>)
    requires acts != [] && AllTame(EraseActs(acts))
    ensures Tame(acts[0]) && AllTame(EraseActs(acts[1..]))
  {
    var rest := EraseActs(acts[1..]);
    if !QuietAct(acts[0]) {
      assert EraseActs(acts)[0] == acts[0];
      assert forall i :: 0 <= i < |rest| ==> rest[i] == EraseActs(acts)[i + 1];
    }
  }

  lemma LeadsOn(c: Config, s: Ideal, acts: seq<Act>, s1: Ideal, s2: Ideal)
    requires acts != [] && IdealOk(c, s) && IdealApply(c, s, acts[0]) == s1 && Leads(c, s1, EraseActs(acts[1..]), s2)
    ensures Leads(c, s, EraseActs(acts), s2)
  {
    if QuietAct(acts[0]) {
      assert s1 == s;
    } else {
      assert EraseActs(acts)[1..] == EraseActs(acts[1..]);
    }
  }

  lemma {:induction false} LeadsChain(c: Config, s: Ideal, x: seq<Act>, s1: Ideal, y: seq<Act>, s2: Ideal)
    requires Leads(c, s, x, s1) && Leads(c, s1, y, s2)
    ensures Leads(c, s, x + y, s2)
    decreases |x|
  {
    if x == [] {
      assert x + y == y;
    } else {
      assert (x + y)[1..] == x[1..] + y;
      LeadsChain(c, IdealApply(c, s, x[0]), x[1..], s1, y, s2);
    }
  }

  lemma LeadsOne(c: Config, s: Ideal, act: Act, s': Ideal)
    requires IdealOk(c, s) && IdealOk(c, s') && IdealApply(c, s, act) == s'
    ensures Leads(c, s, [act], s')
  {
    assert [act][1..] == [];
  }
}
