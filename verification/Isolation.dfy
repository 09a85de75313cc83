/** Address-space isolation of the running system: the page tables of AddressSpace, seen
    through the TTBR0 and TLB that context_switch leaves behind. */
module Isolation {
  import opened Tasks
  import opened UserPointer
  import PageTable
  import AS = AddressSpace
  import SM = SwitchMachine
  import SP = SwitchProofs
  import TI = ThreadInit

  /** The machine's translation tables are the ones process_init_all built. */
  ghost predicate TablesBuilt(b: SM.Board, l: PageTable.Layout) {
    && b.Valid() && AS.SlotsFit(l, b.cfg.procs)
    && forall p :: 0 <= p < b.cfg.procs ==> b.tables[p] == AS.TableOf(l, b.cfg.procs, p)
  }

  /** An access as the hardware performs it now: cached entry or walk, then the checks. */
  ghost function LiveAccess(b: SM.Board, m: SM.Mach, va: Word, user: bool, write: bool): Option<Word>
    requires b.Valid()
  {
    PageTable.Access(SP.Lookup(b, m, va / PageTable.MB), va, user, write)
  }

  /** A user access to va now succeeds exactly inside the window, and lands at the same
      offset of the current process's slot. */
  ghost predicate Confined(b: SM.Board, l: PageTable.Layout, m: SM.Mach, va: Word, write: bool)
    requires TablesBuilt(b, l)
  {
    var p := b.cfg.Pid(m.current);
    && p < b.cfg.procs
    && LiveAccess(b, m, va, true, write) ==
         if USER_VIRT_BASE <= va < USER_STACK_TOP
         then Some(AS.SlotBase(l, b.cfg.procs, p) + (va - USER_VIRT_BASE)) else None
  }

  /** In every run from boot, whatever switches took the cheap path, user code of the
      current thread reaches exactly its own process's slot through its window, and
      nothing anywhere else. */
  lemma RunningThreadIsConfined(b: SM.Board, l: PageTable.Layout, s: TI.Start, m0: SM.Mach,
                                ops: seq<SM.Op>, va: Word, write: bool)
    requires TablesBuilt(b, l) && TI.Ready(b, s, m0)
    requires SP.RunOk(b, TI.FirstRun(b, s, m0), ops, true)
    ensures Confined(b, l, SP.RunOps(b, TI.FirstRun(b, s, m0), ops, true), va, write)
  {
    TI.FirstRunStarts(b, s, m0, 0);
    var m1 := TI.FirstRun(b, s, m0);
    SP.MmuAlwaysRight(b, m1, ops, true);
    CoherentMmuConfines(b, l, SP.RunOps(b, m1, ops, true), va, write);
  }

  lemma CoherentMmuConfines(b: SM.Board, l: PageTable.Layout, m: SM.Mach, va: Word, write: bool)
    requires TablesBuilt(b, l) && SM.MmuOk(b, m)
    ensures Confined(b, l, m, va, write)
  {
    SP.LookupIsOwnTable(b, m, va / PageTable.MB);
    AS.UserReachesOwnSlot(l, b.cfg.procs, b.cfg.Pid(m.current), va, write);
  }

  /** ... and a system call that stores through a checked pointer stores into the slot
      of the thread on whose behalf the kernel runs. */
  lemma KernelStoresForCaller(b: SM.Board, l: PageTable.Layout, m: SM.Mach, addr: Word, len: Word, i: nat)
    requires TablesBuilt(b, l) && SM.MmuOk(b, m)
    requires ValidUserPtr(addr, len) && i < len
    ensures addr + i < WORD
    ensures LiveAccess(b, m, addr + i, false, true) ==
              Some(AS.SlotBase(l, b.cfg.procs, b.cfg.Pid(m.current)) + (addr + i - USER_VIRT_BASE))
  {
    ValidUserPtrIsContainment(addr, len);
    SP.LookupIsOwnTable(b, m, (addr + i) / PageTable.MB);
    AS.CheckedPointerIsOwn(l, b.cfg.procs, b.cfg.Pid(m.current), addr, len, i, false, true);
  }

  /** Thread t neither runs user code, nor traps, nor finishes a system call during the run. */
  ghost predicate NotYetStarted(b: SM.Board, m: SM.Mach, ops: seq<SM.Op>, t: nat)
    requires SM.Stacks(b, m) && SP.RunOk(b, m, ops, true)
    decreases |ops|
  {
    ops == [] ||
    (&& (m.current == t ==> !ops[0].UserRun? && !ops[0].SetResult? && !ops[0].Trap?)
     && (SP.OpKeepsUsers(b, m, ops[0], true, m.current);
         NotYetStarted(b, SM.Apply(b, m, ops[0], true), ops[1..], t)))
  }

  /** The first user context in plain numbers: the thread's index in r0 and zeros in
      r1-r12, the entry point of its process, USR mode with interrupts on, a stack slice of
      64 KB below the top of the window, and 8 KB of empty kernel stack. */
  ghost predicate FirstContext(c: Config, s: TI.Start, m: SM.Mach, t: nat)
    requires c.Valid()
  {
    && |m.r| == 13 && m.r[0] == t % c.perProc && (forall i :: 1 <= i < 13 ==> m.r[i] == 0)
    && t / c.perProc < |s.entry| && m.pc == s.entry[t / c.perProc] && m.cpsr == 0x10
    && m.spUsr == 0x4010_0000 - 0x1_0000 * (t % c.perProc) && m.sp == t * 2048 + 2048
  }

  /** However long thread t had to wait for its first turn, when it reaches user mode it
      starts at its process's entry point in USR mode with its index in r0 and its own
      stack, and its kernel stack is empty. */
  lemma FirstEntryDelivered(b: SM.Board, s: TI.Start, m0: SM.Mach, ops: seq<SM.Op>, t: nat)
    requires TI.Ready(b, s, m0) && t < b.cfg.Threads()
    requires SP.RunOk(b, TI.FirstRun(b, s, m0), ops, true)
    requires NotYetStarted(b, TI.FirstRun(b, s, m0), ops, t)
    ensures var m := SP.RunOps(b, TI.FirstRun(b, s, m0), ops, true);
            var u := TI.FirstUser(b.cfg, s, t);
            m.current == t && m.mode[t].InUser? ==>
              m.r == u.r && m.pc == u.pc && m.cpsr == u.cpsr && m.spUsr == u.sp && m.sp == SM.Top(t)
    ensures var m := SP.RunOps(b, TI.FirstRun(b, s, m0), ops, true);
            m.current == t && m.mode[t].InUser? ==> FirstContext(b.cfg, s, m, t)
  {
    PidInRange(b.cfg, t);
    PidIsQuotient(b.cfg, t);
    TI.FirstRunStarts(b, s, m0, t);
    var m1 := TI.FirstRun(b, s, m0);
    QuietHistory(b, m1, ops, t, TI.FirstUser(b.cfg, s, t));
    SP.UserContextIsPrivate(b, m1, ops, true, t);
  }

  lemma {:induction false} QuietHistory(b: SM.Board, m: SM.Mach, ops: seq<SM.Op>, t: nat, u: SM.User)
    requires SM.Stacks(b, m) && SP.RunOk(b, m, ops, true) && |u.r| == 13
    requires NotYetStarted(b, m, ops, t)
    ensures SP.UserHistory(b, m, ops, true, t, u) == u
    decreases |ops|
  {
    if ops != [] {
      SP.OpKeepsUsers(b, m, ops[0], true, m.current);
      QuietHistory(b, SM.Apply(b, m, ops[0], true), ops[1..], t, u);
    }
  }

  /** In every run from boot all threads stay in USR mode outside the kernel, and every
      frame on the fault stack came from USR mode. */
  lemma UserModeFromBoot(b: SM.Board, s: TI.Start, m0: SM.Mach, ops: seq<SM.Op>)
    requires TI.Ready(b, s, m0) && m0.abt == [] && SP.RunOk(b, TI.FirstRun(b, s, m0), ops, true)
    ensures var m := SP.RunOps(b, TI.FirstRun(b, s, m0), ops, true);
            SP.UsrOk(b, m) && (m.mode[m.current].InUser? ==> SM.FromUser(m.cpsr))
  {
    var m1 := TI.FirstRun(b, s, m0);
    forall t | 0 <= t < b.cfg.Threads()
      ensures SM.FromUser(SM.UserOf(b, m1, t).cpsr)
    {
      TI.FirstRunStarts(b, s, m0, t);
    }
    SP.AlwaysUsr(b, m1, ops, true);
  }
}
