/** Where the bytes of a read end up. The buffer pointer is checked when the call is made
    and used when input arrives, with any number of other threads and address spaces in
    between; the bytes still land in the caller's own physical slot. */
module Delivery {
  import opened Tasks
  import opened UserPointer
  import opened WholeSystem
  import opened SystemRuns
  import KS = KernelSpec
  import KI = KernelInvariant
  import KT = KernelSteps
  import KR = KernelRuns
  import SM = SwitchMachine
  import SP = SwitchProofs
  import AS = AddressSpace
  import PageTable
  import Isolation

  /** Every sleeping read sleeps on a buffer that passed the check. */
  ghost predicate Checked(k: KS.Kern) {
    forall t :: 0 <= t < |k.kont| && k.kont[t].InRead? ==> ValidUserPtr(k.kont[t].addr, k.kont[t].len)
  }

  ghost predicate StoredInWindow(d: KS.Done) {
    d.bytes == [] || (USER_VIRT_BASE <= d.addr && d.addr + |d.bytes| <= USER_STACK_TOP)
  }

  ghost predicate AllInWindow(done: seq<KS.Done>) {
    forall i :: 0 <= i < |done| ==> StoredInWindow(done[i])
  }

  lemma StepKeepsChecked(c: Config, k: KS.Kern, trap: KS.Trap)
    requires KI.Inv(c, k) && Checked(k)
    ensures var r := KS.OnTrap(c, k, trap); Checked(r.k) && AllInWindow(r.done)
  {
    KT.StepTwoPhase(c, k, trap);
    assert KS.OnTrap(c, k, trap).k.kont == KT.Effect(c, k, trap).kont;
    EffectKeepsChecked(c, k, trap);
  }

  lemma EffectKeepsChecked(c: Config, k: KS.Kern, trap: KS.Trap)
    requires KI.Inv(c, k) && Checked(k)
    ensures Checked(KT.Effect(c, k, trap)) && AllInWindow(KT.DoneBy(c, k, trap))
  {
    if trap.RxIrq? && KT.SomeoneWaits(k) {
      KI.RxWakes(c, k, trap.bytes);
      var m := KT.WokenBy(c, k, trap.bytes);
      ReadKeepsChecked(c, m, m.kont[m.current].addr, m.kont[m.current].len);
    } else if KS.BlockingRead(trap) {
      ReadKeepsChecked(c, k, trap.a1, trap.a2);
    } else if trap.Svc? {
      QuickInWindow(c, k, trap);
    }
  }

  /** Of the calls that return at once only sys_ps stores anything. */
  lemma QuickInWindow(c: Config, k: KS.Kern, trap: KS.Trap)
    requires KS.Shape(c, k) && trap.Svc? && !KS.BlockingRead(trap)
    ensures StoredInWindow(KS.QuickCall(c, k, trap).done)
  {
    ValidUserPtrIsContainment(trap.a0, trap.a1);
  }

  lemma ReadKeepsChecked(c: Config, k: KS.Kern, addr: Word, len: Count)
    requires KS.Shape(c, k) && Checked(k) && ValidUserPtr(addr, len)
    ensures Checked(KT.ReadEffect(c, k, addr, len)) && AllInWindow(KT.ReadDone(k, addr, len))
  {
    ValidUserPtrIsContainment(addr, len);
  }

  /** Over every run: no read ever stores outside the window. */
  lemma {:induction false} ReadsStayInWindow(c: Config, k: KS.Kern, traps: seq<KS.Trap>)
    requires KI.Inv(c, k) && Checked(k)
    ensures var r := KR.Exec(c, k, traps); Checked(r.k) && AllInWindow(r.done)
    decreases |traps|
  {
    if traps != [] {
      StepKeepsChecked(c, k, traps[0]);
      KT.StepTwoPhase(c, k, traps[0]);
      var s := KS.OnTrap(c, k, traps[0]);
      if s.outcome.ToUser? {
        ReadsStayInWindow(c, s.k, traps[1..]);
        assert KR.Exec(c, k, traps).done == s.done + KR.Exec(c, s.k, traps[1..]).done;
      }
    }
  }

  // --------------------------------------------------- the moment of the store

  lemma {:induction false} EraseConcat(x: seq<SM.Op>, y: seq<SM.Op>)
    ensures Erase(x + y) == Erase(x) + Erase(y)
    decreases |x|
  {
    if x == [] {
      assert x + y == y;
    } else {
      assert (x + y)[1..] == x[1..] + y;
      EraseConcat(x[1..], y);
    }
  }

  lemma {:induction false} PrefixRuns(b: SM.Board, m: SM.Mach, x: seq<SM.Op>, y: seq<SM.Op>)
    requires SM.Stacks(b, m) && SP.RunOk(b, m, x + y, true)
    ensures SP.RunOk(b, m, x, true)
    decreases |x|
  {
    if x != [] {
      assert (x + y)[1..] == x[1..] + y;
      SP.OpKeepsUsers(b, m, x[0], true, m.current);
      PrefixRuns(b, SM.Apply(b, m, x[0], true), x[1..], y);
    }
  }

  /** In a round's operations the result is stored once, after the switch to the caller. */
  lemma BeforeResult(c: Config, k: KS.Kern, u: SM.User, trap: KS.Trap,
                     x: seq<SM.Op>, v: Word, y: seq<SM.Op>)
    requires KI.Inv(c, k) && KS.OnTrap(c, k, trap).done != []
    requires x + [SM.SetResult(v)] + y == [SM.UserRun(u)] + Skeleton(c, k, trap)
    ensures x == Front(c, k, u, trap)
  {
    DoneIsCurrents(c, k, trap);
    SkeletonForm(c, k, trap);
    var p, r := KT.Effect(c, k, trap), KS.OnTrap(c, k, trap);
    assert r.done[1..] == [];
    assert Results(r.done) == [SM.SetResult(AsWord(r.done[0].result))];
    OnlyOne(SM.UserRun(u), SM.Trap(EntryOf(trap)), KT.Wakes(k, trap) > 0, p.current, AsWord(r.done[0].result),
            p.resched && !KI.OthersIdle(p), r.k.current, x, v, y);
  }

  lemma OnlyOne(o1: SM.Op, o2: SM.Op, wake: bool, w: nat, v': Word, switch: bool, next: nat,
                x: seq<SM.Op>, v: Word, y: seq<SM.Op>)
    requires o1.UserRun? && o2.Trap?
    requires x + [SM.SetResult(v)] + y ==
               [o1] + ([o2] + Hop(wake, w) + [SM.SetResult(v')] + Hop(switch, next) + [SM.Return])
    ensures x == [o1] + [o2] + Hop(wake, w)
  {
    var front, back := [o1] + [o2] + Hop(wake, w), Hop(switch, next) + [SM.Return];
    var all := front + [SM.SetResult(v')] + back;
    assert [o1] + ([o2] + Hop(wake, w) + [SM.SetResult(v')] + Hop(switch, next) + [SM.Return]) == all;
    assert all[|x|] == SM.SetResult(v);
    assert forall i :: 0 <= i < |all| && all[i].SetResult? ==> i == |front|;
    assert x == all[..|front|];
  }

  /** Byte i of a finished read goes to the caller's own physical slot, at the offset the
      caller asked for, and the caller is the thread on the CPU. */
  ghost predicate LandsInOwnSlot(b: SM.Board, l: PageTable.Layout, m: SM.Mach, d: KS.Done, i: nat) {
    && Isolation.TablesBuilt(b, l) && b.cfg.Pid(d.tid) < b.cfg.procs
    && m.current == d.tid && d.addr + i < WORD
    && Isolation.LiveAccess(b, m, d.addr + i, false, true) ==
         Some(AS.SlotBase(l, b.cfg.procs, b.cfg.Pid(d.tid)) + (d.addr + i - USER_VIRT_BASE))
  }

  lemma WindowStore(b: SM.Board, l: PageTable.Layout, m: SM.Mach, d: KS.Done, i: nat)
    requires Isolation.TablesBuilt(b, l) && SM.MmuOk(b, m) && m.current == d.tid
    requires StoredInWindow(d) && i < |d.bytes|
    ensures LandsInOwnSlot(b, l, m, d, i)
  {
    ValidUserPtrIsContainment(d.addr, |d.bytes|);
    Isolation.KernelStoresForCaller(b, l, m, d.addr, |d.bytes|, i);
  }

  /** When a call is answered, the caller's address space is the live one, and every byte
      of a read has gone to the caller's own slot. */
  lemma {:induction false} StoredInCallersSlot(b: SM.Board, l: PageTable.Layout, k: KS.Kern, m: SM.Mach, x: Round,
                                               before: seq<SM.Op>, v: Word, after: seq<SM.Op>, i: nat)
    requires Isolation.TablesBuilt(b, l) && Related(b, k, m) && Checked(k) && RoundOk(b, k, m, x)
    requires x.ops == before + [SM.SetResult(v)] + after
    requires KS.OnTrap(b.cfg, k, x.trap).done != [] && i < |KS.OnTrap(b.cfg, k, x.trap).done[0].bytes|
    ensures SP.RunOk(b, m, before, true)
    ensures LandsInOwnSlot(b, l, SP.RunOps(b, m, before, true), KS.OnTrap(b.cfg, k, x.trap).done[0], i)
  {
    StepKeepsChecked(b.cfg, k, x.trap);
    UpToResult(b, k, m, x, before, v, after);
    AnswererRuns(b, k, m, x, before);
    WindowStore(b, l, SP.RunOps(b, m, before, true), KS.OnTrap(b.cfg, k, x.trap).done[0], i);
  }

  ghost function Front(c: Config, k: KS.Kern, u: SM.User, trap: KS.Trap): seq<SM.Op>
    requires KI.Inv(c, k)
  {
    [SM.UserRun(u)] + [SM.Trap(EntryOf(trap))] + Hop(KT.Wakes(k, trap) > 0, KT.Effect(c, k, trap).current)
  }

  lemma {:induction false} UpToResult(b: SM.Board, k: KS.Kern, m: SM.Mach, x: Round,
                                      before: seq<SM.Op>, v: Word, after: seq<SM.Op>)
    requires Related(b, k, m) && RoundOk(b, k, m, x) && x.ops == before + [SM.SetResult(v)] + after
    requires KS.OnTrap(b.cfg, k, x.trap).done != []
    ensures SP.RunOk(b, m, before, true) && Erase(before) == Front(b.cfg, k, x.u, x.trap)
  {
    RunsUpTo(b, m, before, v, after);
    EraseAround(before, v, after);
    BeforeResult(b.cfg, k, x.u, x.trap, Erase(before), v, Erase(after));
  }

  lemma RunsUpTo(b: SM.Board, m: SM.Mach, before: seq<SM.Op>, v: Word, after: seq<SM.Op>)
    requires SM.Stacks(b, m) && SP.RunOk(b, m, before + [SM.SetResult(v)] + after, true)
    ensures SP.RunOk(b, m, before, true)
  {
    assert before + [SM.SetResult(v)] + after == before + ([SM.SetResult(v)] + after);
    PrefixRuns(b, m, before, [SM.SetResult(v)] + after);
  }

  lemma EraseAround(before: seq<SM.Op>, v: Word, after: seq<SM.Op>)
    ensures Erase(before + [SM.SetResult(v)] + after) == Erase(before) + [SM.SetResult(v)] + Erase(after)
  {
    EraseConcat(before + [SM.SetResult(v)], after);
    EraseConcat(before, [SM.SetResult(v)]);
    assert [SM.SetResult(v)][1..] == [];
  }

  lemma {:induction false} AnswererRuns(b: SM.Board, k: KS.Kern, m: SM.Mach, x: Round, before: seq<SM.Op>)
    requires Related(b, k, m) && RoundOk(b, k, m, x) && KS.OnTrap(b.cfg, k, x.trap).done != []
    requires SP.RunOk(b, m, before, true) && Erase(before) == Front(b.cfg, k, x.u, x.trap)
    ensures var m' := SP.RunOps(b, m, before, true);
            SM.MmuOk(b, m') && m'.current == KS.OnTrap(b.cfg, k, x.trap).done[0].tid
  {
    SP.MmuAlwaysRight(b, m, before, true);
    RunRefines(b, m, before);
    DoneIsCurrents(b.cfg, k, x.trap);
    FrontRuns(AbsOf(b, m), x.u, EntryOf(x.trap), KT.Wakes(k, x.trap) > 0, KT.Effect(b.cfg, k, x.trap).current);
  }

  lemma FrontRuns(a: Abs, u: SM.User, entry: SM.Entry, wake: bool, w: nat)
    requires AbsOk(a) && |u.r| == 13 && a.mode[a.current].InUser? && w < |a.mode| && (wake || w == a.current)
    ensures Runs(a, [SM.UserRun(u)] + [SM.Trap(entry)] + Hop(wake, w), Entered(a, u, entry).(current := w))
  {
    StartRuns(a, u, entry);
    HopRuns(Entered(a, u, entry), wake, w);
    Chain(a, [SM.UserRun(u)] + [SM.Trap(entry)], Entered(a, u, entry),
          Hop(wake, w), Entered(a, u, entry).(current := w));
  }
}
