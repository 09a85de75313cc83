/** Memory isolation over whole runs: the memory of a process is what its own user code
    stored and its own finished calls filled in, whatever ran in between. */
module MemoryRuns {
  import opened Tasks
  import opened UserPointer
  import opened Memory
  import KS = KernelSpec
  import KI = KernelInvariant
  import KT = KernelSteps
  import KR = KernelRuns
  import PT = PageTable
  import SM = SwitchMachine
  import SP = SwitchProofs
  import WS = WholeSystem
  import SR = SystemRuns
  import TI = ThreadInit
  import AS = AddressSpace
  import Isolation
  import Delivery

  // -------------------------------------------------- from events to acts

  function ActOf(e: KS.Event): Act {
    match e
    case SwitchTo(next) => Cpu(SM.Switch(next))
    case Store(va, v) => KernelStore(va, v)
    case Print(va) => KernelPrint(va)
    case Answer(v) => Cpu(SM.SetResult(WS.AsWord(v)))
  }

  function ActsOf(events: seq<KS.Event>): (acts: seq<Act>)
    ensures |acts| == |events|
  {
    seq(|events|, i requires 0 <= i < |events| => ActOf(events[i]))
  }

  type Write = (Word, Byte)

  function UserActs(writes: seq<Write>): seq<Act> {
    seq(|writes|, i requires 0 <= i < |writes| => UserStore(writes[i].0, writes[i].1))
  }

  /** The current thread's user code performs these stores, reaches context u and takes
      the trap; the machine then acts up to the next return to user mode. */
  datatype Round = Round(writes: seq<Write>, u: SM.User, trap: KS.Trap, acts: seq<Act>)

  /** What the machine must do, C code and TLB traffic left aside. */
  ghost function Skeleton(c: Config, k: KS.Kern, x: Round): seq<Act>
    requires KI.Inv(c, k)
  {
    UserActs(x.writes) + [Cpu(SM.UserRun(x.u))]
    + ([Cpu(SM.Trap(WS.EntryOf(x.trap)))] + ActsOf(KS.OnTrap(c, k, x.trap).events) + [Cpu(SM.Return)])
  }

  function CpuOf(acts: seq<Act>): seq<SM.Op> {
    if acts == [] then []
    else if acts[0].Cpu? then [acts[0].op] + CpuOf(acts[1..])
    else CpuOf(acts[1..])
  }

  lemma {:induction false} CpuOfConcat(x: seq<Act>, y: seq<Act>)
    ensures CpuOf(x + y) == CpuOf(x) + CpuOf(y)
  {
    if x == [] {
      assert x + y == y;
    } else {
      assert (x + y)[1..] == x[1..] + y;
      CpuOfConcat(x[1..], y);
    }
  }

  lemma CpuOfOne(op: SM.Op)
    ensures CpuOf([Cpu(op)]) == [op]
  {
    assert [Cpu(op)][1..] == [];
  }

  lemma {:induction false} EraseCommutes(acts: seq<Act>)
    ensures WS.Erase(CpuOf(acts)) == CpuOf(EraseActs(acts))
  {
    if acts != [] {
      EraseCommutes(acts[1..]);
      var ops, rest := CpuOf(acts), EraseActs(acts[1..]);
      if acts[0].Cpu? {
        assert ops[1..] == CpuOf(acts[1..]);
      } else {
        assert ops == CpuOf(acts[1..]);
      }
      assert !QuietAct(acts[0]) ==> EraseActs(acts)[1..] == rest;
    }
  }

  lemma {:induction false} CpuOfEvents(events: seq<KS.Event>)
    ensures CpuOf(ActsOf(events)) == WS.OpsOf(events)
  {
    if events != [] {
      CpuOfEvents(events[1..]);
      assert ActsOf(events)[1..] == ActsOf(events[1..]);
    }
  }

  lemma {:induction false} CpuOfWrites(writes: seq<Write>)
    ensures CpuOf(UserActs(writes)) == []
  {
    if writes != [] {
      CpuOfWrites(writes[1..]);
      assert UserActs(writes)[1..] == UserActs(writes[1..]);
    }
  }

  lemma CpuOfSkeleton(c: Config, k: KS.Kern, x: Round)
    requires KI.Inv(c, k)
    ensures CpuOf(Skeleton(c, k, x)) == [SM.UserRun(x.u)] + WS.Skeleton(c, k, x.trap)
  {
    var entry, events := Cpu(SM.Trap(WS.EntryOf(x.trap))), KS.OnTrap(c, k, x.trap).events;
    CpuOfWrites(x.writes);
    CpuOfOne(SM.UserRun(x.u));
    CpuOfOne(entry.op);
    CpuOfOne(SM.Return);
    CpuOfEvents(events);
    CpuOfConcat([entry], ActsOf(events));
    CpuOfConcat([entry] + ActsOf(events), [Cpu(SM.Return)]);
    CpuOfConcat(UserActs(x.writes), [Cpu(SM.UserRun(x.u))]);
    CpuOfConcat(UserActs(x.writes) + [Cpu(SM.UserRun(x.u))], [entry] + ActsOf(events) + [Cpu(SM.Return)]);
  }

  /** Memory traffic aside, a run of the world is a run of the processor. */
  lemma {:induction false} CpuSide(b: SM.Board, l: PT.Layout, w: World, acts: seq<Act>)
    requires ActsOk(b, l, w, acts)
    ensures SP.RunOk(b, w.m, CpuOf(acts), true)
    ensures ActsRun(b, l, w, acts).m == SP.RunOps(b, w.m, CpuOf(acts), true)
    decreases |acts|
  {
    if acts != [] {
      var w' := ActApply(b, l, w, acts[0]);
      CpuSide(b, l, w', acts[1..]);
      if acts[0].Cpu? {
        assert CpuOf(acts)[1..] == CpuOf(acts[1..]);
      } else {
        assert CpuOf(acts) == CpuOf(acts[1..]) && w'.m == w.m;
      }
    }
  }

  // ----------------------------------------------------------- one process's memory

  function PutAll(slot: Slot, writes: seq<Write>): Slot
    decreases |writes|
  {
    if writes == [] then slot else PutAll(Put(slot, writes[0].0, writes[0].1), writes[1..])
  }

  /** The bytes at addr onwards. */
  function Fill(slot: Slot, addr: Word, bytes: seq<Byte>): Slot {
    if bytes == [] || !(USER_VIRT_BASE <= addr && addr + |bytes| <= USER_STACK_TOP) then slot
    else
      var i := addr - USER_VIRT_BASE;
      slot[..i] + bytes + slot[i + |bytes|..]
  }

  /** The finished calls of process p fill in their buffers. */
  function FillAll(c: Config, slot: Slot, done: seq<KS.Done>, p: nat): Slot
    requires c.Valid()
    decreases |done|
  {
    if done == [] then slot
    else FillAll(c, if c.Pid(done[0].tid) == p then Fill(slot, done[0].addr, done[0].bytes) else slot, done[1..], p)
  }

  /** What a round makes of process p's memory: its own stores, if it is on the CPU, and
      its own finished calls. */
  ghost function SlotNext(c: Config, k: KS.Kern, slot: Slot, x: Round, p: nat): Slot
    requires KI.Inv(c, k)
  {
    FillAll(c, if c.Pid(k.current) == p then PutAll(slot, x.writes) else slot, KS.OnTrap(c, k, x.trap).done, p)
  }

  function SentAll(bytes: seq<Byte>): seq<Byte> {
    if bytes == [] then [] else Sent(bytes[0]) + SentAll(bytes[1..])
  }

  /** Every line feed that goes out has a carriage return in front of it. */
  lemma {:induction false} FeedsFollowReturns(bytes: seq<Byte>)
    ensures forall i :: 0 <= i < |SentAll(bytes)| && SentAll(bytes)[i] == 10 ==> i > 0 && SentAll(bytes)[i - 1] == 13
  {
    if bytes != [] {
      FeedsFollowReturns(bytes[1..]);
      var head, rest := Sent(bytes[0]), SentAll(bytes[1..]);
      forall i | 0 <= i < |head + rest| && (head + rest)[i] == 10
        ensures i > 0 && (head + rest)[i - 1] == 13
      {
        if i >= |head| {
          assert rest[i - |head|] == 10;
        }
      }
    }
  }

  /** The bytes other than carriage returns. */
  function WithoutReturns(bytes: seq<Byte>): seq<Byte> {
    if bytes == [] then []
    else (if bytes[0] == 13 then [] else [bytes[0]]) + WithoutReturns(bytes[1..])
  }

  lemma {:induction false} WithoutReturnsConcat(x: seq<Byte>, y: seq<Byte>)
    ensures WithoutReturns(x + y) == WithoutReturns(x) + WithoutReturns(y)
  {
    if x == [] {
      assert x + y == y;
    } else {
      assert (x + y)[1..] == x[1..] + y;
      WithoutReturnsConcat(x[1..], y);
    }
  }

  /** ... and apart from carriage returns the text goes out as it is. */
  lemma {:induction false} TextGoesOut(bytes: seq<Byte>)
    ensures WithoutReturns(SentAll(bytes)) == WithoutReturns(bytes)
  {
    if bytes != [] {
      TextGoesOut(bytes[1..]);
      WithoutReturnsConcat(Sent(bytes[0]), SentAll(bytes[1..]));
      assert Sent(bytes[0])[|Sent(bytes[0])| - 1..] == [bytes[0]];
      assert [bytes[0]][1..] == [];
    }
  }

  /** What a trap prints: the caller's own buffer, if it is an accepted sys_write. */
  function Printed(trap: KS.Trap, slot: Slot): seq<Byte> {
    if trap.Svc? && trap.num == KS.SYS_WRITE && ValidUserPtr(trap.a1, trap.a2) then
      ValidUserPtrIsContainment(trap.a1, trap.a2);
      var i := trap.a1 - USER_VIRT_BASE;
      SentAll(slot[i..i + trap.a2])
    else []
  }

  /** An accepted write sends out the caller's own buffer: the same text, each line feed
      with a carriage return in front. */
  lemma WriteSendsBuffer(trap: KS.Trap, slot: Slot)
    requires trap.Svc? && trap.num == 0 && 0x4000_0000 <= trap.a1 && trap.a1 + trap.a2 <= 0x4010_0000
    ensures var i, out := trap.a1 - 0x4000_0000, Printed(trap, slot);
            && WithoutReturns(out) == WithoutReturns(slot[i..i + trap.a2])
            && forall j :: 0 <= j < |out| && out[j] == 10 ==> j > 0 && out[j - 1] == 13
  {
    ValidUserPtrIsContainment(trap.a1, trap.a2);
    var i := trap.a1 - 0x4000_0000;
    TextGoesOut(slot[i..i + trap.a2]);
    FeedsFollowReturns(slot[i..i + trap.a2]);
  }

  /** A store puts its byte at its own offset, and changes no other byte. */
  lemma PutStores(slot: Slot, va: Word, v: Byte, j: nat)
    requires j < 0x10_0000
    ensures Put(slot, va, v)[j] == if va == 0x4000_0000 + j then v else slot[j]
  {
  }

  /** A filled buffer holds its bytes from its address on, and nothing else changes. */
  lemma FillStores(slot: Slot, addr: Word, bytes: seq<Byte>, j: nat)
    requires 0x4000_0000 <= addr && addr + |bytes| <= 0x4010_0000 && j < 0x10_0000
    ensures var at := addr - 0x4000_0000;
            Fill(slot, addr, bytes)[j] == if at <= j < at + |bytes| then bytes[j - at] else slot[j]
  {
  }

  /** The bytes of a finished call are in its own process's memory when the step is over. */
  lemma FinishedCallInMemory(c: Config, k: KS.Kern, slot: Slot, x: Round, i: nat)
    requires KI.Inv(c, k) && Delivery.Checked(k)
    requires KS.OnTrap(c, k, x.trap).done != [] && i < |KS.OnTrap(c, k, x.trap).done[0].bytes|
    ensures var d := KS.OnTrap(c, k, x.trap).done[0];
            && 0 <= d.addr - 0x4000_0000 + i < 0x10_0000
            && SlotNext(c, k, slot, x, c.Pid(d.tid))[d.addr - 0x4000_0000 + i] == d.bytes[i]
  {
    var done := KS.OnTrap(c, k, x.trap).done;
    WS.DoneIsCurrents(c, k, x.trap);
    Delivery.StepKeepsChecked(c, k, x.trap);
    assert Delivery.StoredInWindow(done[0]);
    var before := if c.Pid(k.current) == c.Pid(done[0].tid) then PutAll(slot, x.writes) else slot;
    FillAllOne(c, before, done, c.Pid(done[0].tid));
    FillStores(before, done[0].addr, done[0].bytes, done[0].addr - 0x4000_0000 + i);
  }

  lemma FillAllOne(c: Config, slot: Slot, done: seq<KS.Done>, p: nat)
    requires c.Valid() && |done| == 1 && c.Pid(done[0].tid) == p
    ensures FillAll(c, slot, done, p) == Fill(slot, done[0].addr, done[0].bytes)
  {
    var filled := Fill(slot, done[0].addr, done[0].bytes);
    assert done[1..] == [] && FillAll(c, filled, [], p) == filled;
  }

  ghost function NextIdeal(c: Config, k: KS.Kern, s: Ideal, x: Round): Ideal
    requires KI.Inv(c, k) && IdealOk(c, s) && s.current == k.current
  {
    var r := KS.OnTrap(c, k, x.trap);
    Ideal(r.k.current,
          seq(c.procs, p requires 0 <= p < c.procs => SlotNext(c, k, s.slots[p], x, p)),
          s.console + Printed(x.trap, PutAll(s.slots[c.Pid(k.current)], x.writes)))
  }

  // ------------------------------------------------------ the acts of one round

  lemma {:induction false} WritesLead(c: Config, s: Ideal, writes: seq<Write>)
    requires IdealOk(c, s)
    ensures var p := c.Pid(s.current);
            Leads(c, s, UserActs(writes), s.(slots := s.slots[p := PutAll(s.slots[p], writes)]))
    decreases |writes|
  {
    var p := c.Pid(s.current);
    if writes == [] {
      assert s.slots[p := s.slots[p]] == s.slots;
    } else {
      var s1 := s.(slots := s.slots[p := Put(s.slots[p], writes[0].0, writes[0].1)]);
      WritesLead(c, s1, writes[1..]);
      assert UserActs(writes)[1..] == UserActs(writes[1..]);
      assert s1.slots[p := PutAll(s1.slots[p], writes[1..])] == s.slots[p := PutAll(s.slots[p], writes)];
    }
  }

  lemma {:induction false} StoresLead(c: Config, s: Ideal, addr: Word, bytes: seq<Byte>)
    requires IdealOk(c, s) && USER_VIRT_BASE <= addr && addr + |bytes| <= USER_STACK_TOP
    ensures var p := c.Pid(s.current);
            Leads(c, s, ActsOf(KS.Stores(addr, bytes)), s.(slots := s.slots[p := Fill(s.slots[p], addr, bytes)]))
    decreases |bytes|
  {
    var p, acts := c.Pid(s.current), ActsOf(KS.Stores(addr, bytes));
    if bytes == [] {
      assert acts == [] && s.slots[p := s.slots[p]] == s.slots;
    } else {
      var s1 := s.(slots := s.slots[p := Put(s.slots[p], addr, bytes[0])]);
      StoresLead(c, s1, addr + 1, bytes[1..]);
      FirstStore(addr, bytes);
      FillOne(s.slots[p], addr, bytes);
      assert s1.slots[p := Fill(s1.slots[p], addr + 1, bytes[1..])] == s.slots[p := Fill(s.slots[p], addr, bytes)];
    }
  }

  lemma FirstStore(addr: Word, bytes: seq<Byte>)
    requires bytes != [] && addr + |bytes| < WORD
    ensures var acts := ActsOf(KS.Stores(addr, bytes));
            acts != [] && acts[0] == KernelStore(addr, bytes[0]) && acts[1..] == ActsOf(KS.Stores(addr + 1, bytes[1..]))
  {
  }

  lemma FirstPrint(addr: Word, len: nat)
    requires len > 0 && addr + len < WORD
    ensures var acts := ActsOf(KS.Prints(addr, len));
            acts != [] && acts[0] == KernelPrint(addr) && acts[1..] == ActsOf(KS.Prints(addr + 1, len - 1))
  {
  }

  lemma FillOne(slot: Slot, addr: Word, bytes: seq<Byte>)
    requires bytes != [] && USER_VIRT_BASE <= addr && addr + |bytes| <= USER_STACK_TOP
    ensures Fill(Put(slot, addr, bytes[0]), addr + 1, bytes[1..]) == Fill(slot, addr, bytes)
  {
  }

  lemma {:induction false} PrintsLead(c: Config, s: Ideal, addr: Word, len: nat)
    requires IdealOk(c, s) && USER_VIRT_BASE <= addr && addr + len <= USER_STACK_TOP
    ensures var i := addr - USER_VIRT_BASE;
            Leads(c, s, ActsOf(KS.Prints(addr, len)),
                  s.(console := s.console + SentAll(s.slots[c.Pid(s.current)][i..i + len])))
    decreases len
  {
    var i, slot, acts := addr - USER_VIRT_BASE, s.slots[c.Pid(s.current)], ActsOf(KS.Prints(addr, len));
    if len == 0 {
      assert acts == [] && slot[i..i] == [] && s.console + [] == s.console;
    } else {
      var s1 := s.(console := s.console + Sent(slot[i]));
      PrintsLead(c, s1, addr + 1, len - 1);
      FirstPrint(addr, len);
      FirstSent(s.console, slot, i, len);
    }
  }

  lemma FirstSent(console: seq<Byte>, slot: Slot, i: nat, len: nat)
    requires 0 < len && i + len <= |slot|
    ensures console + Sent(slot[i]) + SentAll(slot[i + 1..i + len]) == console + SentAll(slot[i..i + len])
  {
    assert slot[i..i + len][1..] == slot[i + 1..i + len];
    assert console + (Sent(slot[i]) + SentAll(slot[i + 1..i + len])) ==
           console + Sent(slot[i]) + SentAll(slot[i + 1..i + len]);
  }

  /** Every process's finished calls, on every process's memory. */
  function FillDone(c: Config, slots: seq<Slot>, done: seq<KS.Done>): seq<Slot>
    requires c.Valid()
  {
    seq(|slots|, p requires 0 <= p < |slots| => FillAll(c, slots[p], done, p))
  }

  lemma FillDoneNone(c: Config, slots: seq<Slot>)
    requires c.Valid()
    ensures FillDone(c, slots, []) == slots
  {
  }

  lemma FillDoneOne(c: Config, slots: seq<Slot>, d: KS.Done)
    requires c.Valid() && c.Pid(d.tid) < |slots|
    ensures var q := c.Pid(d.tid); FillDone(c, slots, [d]) == slots[q := Fill(slots[q], d.addr, d.bytes)]
  {
    var q := c.Pid(d.tid);
    forall p | 0 <= p < |slots|
      ensures FillAll(c, slots[p], [d], p) == if p == q then Fill(slots[q], d.addr, d.bytes) else slots[p]
    {
      assert [d][1..] == [];
    }
  }

  /** Storing the result in the trap frame does not touch user memory. */
  lemma AnswerLeads(c: Config, s: Ideal, io: seq<KS.Event>, v: int, s': Ideal)
    requires Leads(c, s, ActsOf(io), s') && IdealOk(c, s')
    ensures Leads(c, s, ActsOf(io + [KS.Answer(v)]), s')
  {
    assert ActsOf(io + [KS.Answer(v)]) == ActsOf(io) + [ActOf(KS.Answer(v))];
    LeadsOne(c, s', ActOf(KS.Answer(v)), s');
    LeadsChain(c, s, ActsOf(io), s', [ActOf(KS.Answer(v))], s');
  }

  lemma ReadLeads(c: Config, k: KS.Kern, addr: Word, len: Count, s: Ideal)
    requires IdealOk(c, s) && s.current == k.current && ValidUserPtr(addr, len)
    ensures Leads(c, s, ActsOf(KT.ReadEvents(k, addr, len)),
                  s.(slots := FillDone(c, s.slots, KT.ReadDone(k, addr, len))))
  {
    if k.ring == [] {
      FillDoneNone(c, s.slots);
    } else {
      var n := KT.Taken(k, len);
      var d := KT.ReadDone(k, addr, len)[0];
      ValidUserPtrIsContainment(addr, len);
      FillDoneOne(c, s.slots, d);
      StoresLead(c, s, addr, k.ring[..n]);
      AnswerLeads(c, s, KS.Stores(addr, k.ring[..n]), n, s.(slots := FillDone(c, s.slots, [d])));
    }
  }

  lemma QuickLeads(c: Config, k: KS.Kern, trap: KS.Trap, s: Ideal)
    requires KS.Shape(c, k) && trap.Svc? && !KS.BlockingRead(trap) && IdealOk(c, s) && s.current == k.current
    ensures var q := KS.QuickCall(c, k, trap);
            Leads(c, s, ActsOf(q.io + [KS.Answer(q.done.result)]),
                  s.(slots := FillDone(c, s.slots, [q.done]),
                     console := s.console + Printed(trap, s.slots[c.Pid(k.current)])))
  {
    var q, p := KS.QuickCall(c, k, trap), c.Pid(k.current);
    FillDoneOne(c, s.slots, q.done);
    var s' := s.(slots := FillDone(c, s.slots, [q.done]), console := s.console + Printed(trap, s.slots[p]));
    IoLeads(c, k, trap, s);
    assert IoDone(c, k, trap, s) == s';
    AnswerLeads(c, s, q.io, q.done.result, s');
  }

  /** The ideal world after a quick call's accesses to the caller's buffer. */
  ghost function IoDone(c: Config, k: KS.Kern, trap: KS.Trap, s: Ideal): Ideal
    requires KS.Shape(c, k) && trap.Svc? && !KS.BlockingRead(trap) && IdealOk(c, s) && s.current == k.current
  {
    var d, p := KS.QuickCall(c, k, trap).done, c.Pid(k.current);
    s.(slots := s.slots[p := Fill(s.slots[p], d.addr, d.bytes)], console := s.console + Printed(trap, s.slots[p]))
  }

  lemma IoLeads(c: Config, k: KS.Kern, trap: KS.Trap, s: Ideal)
    requires KS.Shape(c, k) && trap.Svc? && !KS.BlockingRead(trap) && IdealOk(c, s) && s.current == k.current
    ensures Leads(c, s, ActsOf(KS.QuickCall(c, k, trap).io), IoDone(c, k, trap, s))
  {
    if trap.num == KS.SYS_WRITE && ValidUserPtr(trap.a1, trap.a2) {
      WriteLeads(c, k, trap, s);
    } else if trap.num == KS.SYS_PS && ValidUserPtr(trap.a0, trap.a1) {
      PsLeads(c, k, trap, s);
    } else {
      NoAccess(c, k, trap);
      Unchanged(c, s);
    }
  }

  lemma Unchanged(c: Config, s: Ideal)
    requires IdealOk(c, s)
    ensures var p := c.Pid(s.current); s.slots[p := s.slots[p]] == s.slots && s.console + [] == s.console
  {
  }

  lemma WriteLeads(c: Config, k: KS.Kern, trap: KS.Trap, s: Ideal)
    requires KS.Shape(c, k) && trap.Svc? && !KS.BlockingRead(trap) && IdealOk(c, s) && s.current == k.current
    requires trap.num == KS.SYS_WRITE && ValidUserPtr(trap.a1, trap.a2)
    ensures Leads(c, s, ActsOf(KS.QuickCall(c, k, trap).io), IoDone(c, k, trap, s))
  {
    ValidUserPtrIsContainment(trap.a1, trap.a2);
    PrintsLead(c, s, trap.a1, trap.a2);
    Unchanged(c, s);
  }

  lemma PsLeads(c: Config, k: KS.Kern, trap: KS.Trap, s: Ideal)
    requires KS.Shape(c, k) && trap.Svc? && !KS.BlockingRead(trap) && IdealOk(c, s) && s.current == k.current
    requires trap.num == KS.SYS_PS && ValidUserPtr(trap.a0, trap.a1)
    ensures Leads(c, s, ActsOf(KS.QuickCall(c, k, trap).io), IoDone(c, k, trap, s))
  {
    ValidUserPtrIsContainment(trap.a0, trap.a1);
    StoresLead(c, s, trap.a0, KS.PsText(c, k, trap.a1));
    Unchanged(c, s);
  }

  lemma NoAccess(c: Config, k: KS.Kern, trap: KS.Trap)
    requires KS.Shape(c, k) && trap.Svc? && !KS.BlockingRead(trap)
    requires !(trap.num == KS.SYS_WRITE && ValidUserPtr(trap.a1, trap.a2))
    requires !(trap.num == KS.SYS_PS && ValidUserPtr(trap.a0, trap.a1))
    ensures ActsOf(KS.QuickCall(c, k, trap).io) == [] && KS.QuickCall(c, k, trap).done.bytes == []
  {
  }

  lemma HandlerLeads(c: Config, k: KS.Kern, trap: KS.Trap, s: Ideal)
    requires KI.Inv(c, k) && Delivery.Checked(k) && IdealOk(c, s) && s.current == KT.Effect(c, k, trap).current
    ensures c.Pid(k.current) < c.procs
    ensures Leads(c, s, ActsOf(KT.EventsBy(c, k, trap)),
                  s.(slots := FillDone(c, s.slots, KT.DoneBy(c, k, trap)),
                     console := s.console + Printed(trap, s.slots[c.Pid(k.current)])))
  {
    PidInRange(c, k.current);
    FillDoneNone(c, s.slots);
    assert s.console + [] == s.console && ActsOf([]) == [];
    match trap
    case RxIrq(bytes) =>
      if KT.SomeoneWaits(k) {
        KI.RxWakes(c, k, bytes);
        var m := KT.WokenBy(c, k, bytes);
        ReadLeads(c, m, m.kont[m.current].addr, m.kont[m.current].len, s);
      }
    case Svc(_, _, a1, a2) =>
      if KS.BlockingRead(trap) {
        ReadLeads(c, k, a1, a2, s);
      } else {
        QuickLeads(c, k, trap, s);
      }
    case _ =>
  }

  lemma HopLeads(c: Config, s: Ideal, switch: bool, next: nat)
    requires IdealOk(c, s) && c.Pid(next) < c.procs && (switch || next == s.current)
    ensures Leads(c, s, ActsOf(KT.HopTo(switch, next)), s.(current := next))
  {
    if switch {
      assert ActsOf([KS.SwitchTo(next)]) == [Cpu(SM.Switch(next))];
      LeadsOne(c, s, Cpu(SM.Switch(next)), s.(current := next));
    } else {
      assert ActsOf([]) == [];
    }
  }

  /** The kernel's part of a round. */
  lemma EventsLead(c: Config, k: KS.Kern, trap: KS.Trap, s: Ideal)
    requires KI.Inv(c, k) && Delivery.Checked(k) && IdealOk(c, s) && s.current == k.current
    ensures var r := KS.OnTrap(c, k, trap);
            Leads(c, s, ActsOf(r.events),
                  Ideal(r.k.current, FillDone(c, s.slots, r.done),
                        s.console + Printed(trap, s.slots[c.Pid(k.current)])))
  {
    KT.StepTwoPhase(c, k, trap);
    WS.DoneIsCurrents(c, k, trap);
    var p, r := KT.Effect(c, k, trap), KS.OnTrap(c, k, trap);
    PidInRange(c, p.current);
    PidInRange(c, r.k.current);
    var s1 := s.(current := p.current);
    HopLeads(c, s, KT.Wakes(k, trap) > 0, p.current);
    HandlerLeads(c, k, trap, s1);
    var s2 := s1.(slots := FillDone(c, s.slots, r.done),
                  console := s.console + Printed(trap, s.slots[c.Pid(k.current)]));
    HopLeads(c, s2, p.resched && !KI.OthersIdle(p), r.k.current);
    ThreeLead(c, s, KT.HopTo(KT.Wakes(k, trap) > 0, p.current), s1, KT.EventsBy(c, k, trap), s2,
              KT.HopTo(p.resched && !KI.OthersIdle(p), r.k.current), s2.(current := r.k.current));
  }

  lemma ThreeLead(c: Config, s: Ideal, x: seq<KS.Event>, s1: Ideal, y: seq<KS.Event>, s2: Ideal,
                  z: seq<KS.Event>, s3: Ideal)
    requires Leads(c, s, ActsOf(x), s1) && Leads(c, s1, ActsOf(y), s2) && Leads(c, s2, ActsOf(z), s3)
    ensures Leads(c, s, ActsOf(x + y + z), s3)
  {
    LeadsChain(c, s, ActsOf(x), s1, ActsOf(y), s2);
    LeadsChain(c, s, ActsOf(x) + ActsOf(y), s2, ActsOf(z), s3);
    assert ActsOf(x + y + z) == ActsOf(x) + ActsOf(y) + ActsOf(z);
  }

  /** A whole round. */
  lemma SkeletonLeads(c: Config, k: KS.Kern, s: Ideal, x: Round)
    requires KI.Inv(c, k) && Delivery.Checked(k) && IdealOk(c, s) && s.current == k.current
    ensures Leads(c, s, Skeleton(c, k, x), NextIdeal(c, k, s, x))
  {
    var q, r := c.Pid(k.current), KS.OnTrap(c, k, x.trap);
    var s1 := s.(slots := s.slots[q := PutAll(s.slots[q], x.writes)]);
    WritesLead(c, s, x.writes);
    EventsLead(c, k, x.trap, s1);
    var s2 := Ideal(r.k.current, FillDone(c, s1.slots, r.done), s.console + Printed(x.trap, s1.slots[q]));
    assert s2.slots == NextIdeal(c, k, s, x).slots;
    KT.StepTwoPhase(c, k, x.trap);
    PidInRange(c, r.k.current);
    FrameLeads(c, s, UserActs(x.writes), s1, SM.UserRun(x.u), SM.Trap(WS.EntryOf(x.trap)), ActsOf(r.events), s2);
  }

  lemma FrameLeads(c: Config, s: Ideal, writes: seq<Act>, s1: Ideal, o1: SM.Op, o2: SM.Op, acts: seq<Act>, s2: Ideal)
    requires Leads(c, s, writes, s1) && Leads(c, s1, acts, s2) && IdealOk(c, s1) && IdealOk(c, s2)
    requires !o1.Switch? && !o2.Switch?
    ensures Leads(c, s, writes + [Cpu(o1)] + ([Cpu(o2)] + acts + [Cpu(SM.Return)]), s2)
  {
    LeadsOne(c, s1, Cpu(o1), s1);
    LeadsOne(c, s1, Cpu(o2), s1);
    LeadsOne(c, s2, Cpu(SM.Return), s2);
    LeadsChain(c, s, writes, s1, [Cpu(o1)], s1);
    LeadsChain(c, s1, [Cpu(o2)], s1, acts, s2);
    LeadsChain(c, s1, [Cpu(o2)] + acts, s2, [Cpu(SM.Return)], s2);
    LeadsChain(c, s, writes + [Cpu(o1)], s1, [Cpu(o2)] + acts + [Cpu(SM.Return)], s2);
  }

  // --------------------------------------------- the kernel keeps to the window

  lemma StoresTame(addr: Word, bytes: seq<Byte>)
    requires bytes == [] || (USER_VIRT_BASE <= addr && addr + |bytes| <= USER_STACK_TOP)
    ensures AllTame(ActsOf(KS.Stores(addr, bytes)))
  {
  }

  lemma TameWith(x: seq<KS.Event>, y: seq<KS.Event>)
    requires AllTame(ActsOf(x)) && AllTame(ActsOf(y))
    ensures AllTame(ActsOf(x + y))
  {
    assert ActsOf(x + y) == ActsOf(x) + ActsOf(y);
  }

  lemma ReadTame(k: KS.Kern, addr: Word, len: Count)
    requires ValidUserPtr(addr, len)
    ensures AllTame(ActsOf(KT.ReadEvents(k, addr, len)))
  {
    if k.ring != [] {
      var n := KT.Taken(k, len);
      ValidUserPtrIsContainment(addr, len);
      StoresTame(addr, k.ring[..n]);
      TameWith(KS.Stores(addr, k.ring[..n]), [KS.Answer(n)]);
    }
  }

  lemma QuickTame(c: Config, k: KS.Kern, trap: KS.Trap)
    requires KS.Shape(c, k) && trap.Svc? && !KS.BlockingRead(trap)
    ensures var q := KS.QuickCall(c, k, trap); AllTame(ActsOf(q.io + [KS.Answer(q.done.result)]))
  {
    var q := KS.QuickCall(c, k, trap);
    assert AllTame(ActsOf(q.io)) by {
      if trap.num == KS.SYS_WRITE && ValidUserPtr(trap.a1, trap.a2) {
        ValidUserPtrIsContainment(trap.a1, trap.a2);
      } else if trap.num == KS.SYS_PS && ValidUserPtr(trap.a0, trap.a1) {
        ValidUserPtrIsContainment(trap.a0, trap.a1);
        StoresTame(trap.a0, KS.PsText(c, k, trap.a1));
      }
    }
    TameWith(q.io, [KS.Answer(q.done.result)]);
  }

  lemma HandlerTame(c: Config, k: KS.Kern, trap: KS.Trap)
    requires KI.Inv(c, k) && Delivery.Checked(k)
    ensures AllTame(ActsOf(KT.EventsBy(c, k, trap)))
  {
    match trap
    case RxIrq(bytes) =>
      if KT.SomeoneWaits(k) {
        KI.RxWakes(c, k, bytes);
        var m := KT.WokenBy(c, k, bytes);
        ReadTame(m, m.kont[m.current].addr, m.kont[m.current].len);
      }
    case Svc(_, _, a1, a2) =>
      if KS.BlockingRead(trap) {
        ReadTame(k, a1, a2);
      } else {
        QuickTame(c, k, trap);
      }
    case _ =>
  }

  /** Whatever trap is taken, the kernel touches user memory only inside the window. */
  lemma KernelIsTame(c: Config, k: KS.Kern, x: Round)
    requires KI.Inv(c, k) && Delivery.Checked(k)
    ensures AllTame(Skeleton(c, k, x))
  {
    KT.StepTwoPhase(c, k, x.trap);
    HandlerTame(c, k, x.trap);
    var p, r := KT.Effect(c, k, x.trap), KS.OnTrap(c, k, x.trap);
    var wake := KT.HopTo(KT.Wakes(k, x.trap) > 0, p.current);
    var last := KT.HopTo(p.resched && !KI.OthersIdle(p), r.k.current);
    TameWith(wake, KT.EventsBy(c, k, x.trap));
    TameWith(wake + KT.EventsBy(c, k, x.trap), last);
    TameFrame(x.writes, SM.UserRun(x.u), SM.Trap(WS.EntryOf(x.trap)), ActsOf(r.events));
  }

  lemma TameFrame(writes: seq<Write>, o1: SM.Op, o2: SM.Op, acts: seq<Act>)
    requires AllTame(acts)
    ensures AllTame(UserActs(writes) + [Cpu(o1)] + ([Cpu(o2)] + acts + [Cpu(SM.Return)]))
  {
  }

  // -------------------------------------------------------------------- rounds

  /** Kernel, processor and memory agree at a return to user mode. */
  ghost predicate Related(b: SM.Board, l: PT.Layout, k: KS.Kern, w: World) {
    SR.Related(b, k, w.m) && Delivery.Checked(k) && WorldOk(b, l, w)
  }

  ghost predicate RoundOk(b: SM.Board, l: PT.Layout, k: KS.Kern, w: World, x: Round)
    requires Related(b, l, k, w)
  {
    && |x.u.r| == 13 && SR.CallMatches(x.u, x.trap)
    && KS.OnTrap(b.cfg, k, x.trap).outcome.ToUser?
    && ActsOk(b, l, w, x.acts)
    && EraseActs(x.acts) == Skeleton(b.cfg, k, x)
  }

  /** Memory traffic aside, it is a round of the processor. */
  lemma {:induction false} CpuRound(b: SM.Board, l: PT.Layout, k: KS.Kern, w: World, x: Round)
    requires Related(b, l, k, w) && RoundOk(b, l, k, w, x)
    ensures SR.RoundOk(b, k, w.m, SR.Round(x.u, x.trap, CpuOf(x.acts)))
    ensures ActsRun(b, l, w, x.acts).m == SP.RunOps(b, w.m, CpuOf(x.acts), true)
  {
    CpuSide(b, l, w, x.acts);
    EraseCommutes(x.acts);
    CpuOfSkeleton(b.cfg, k, x);
  }

  lemma {:induction false} RoundRefines(b: SM.Board, l: PT.Layout, k: KS.Kern, w: World, x: Round)
    requires Related(b, l, k, w) && RoundOk(b, l, k, w, x)
    ensures var w' := ActsRun(b, l, w, x.acts);
            Related(b, l, KS.OnTrap(b.cfg, k, x.trap).k, w')
    ensures IdealOk(b.cfg, IdealOf(b, l, w))
    ensures IdealOf(b, l, ActsRun(b, l, w, x.acts)) == NextIdeal(b.cfg, k, IdealOf(b, l, w), x)
  {
    CpuRound(b, l, k, w, x);
    SR.RoundRefines(b, k, w.m, SR.Round(x.u, x.trap, CpuOf(x.acts)));
    Delivery.StepKeepsChecked(b.cfg, k, x.trap);
    KernelIsTame(b.cfg, k, x);
    ActsRefine(b, l, w, x.acts);
    SkeletonLeads(b.cfg, k, IdealOf(b, l, w), x);
  }

  ghost predicate Follows(b: SM.Board, l: PT.Layout, k: KS.Kern, w: World, rounds: seq<Round>)
    requires Related(b, l, k, w)
    decreases |rounds|
  {
    rounds == [] ||
    (&& RoundOk(b, l, k, w, rounds[0])
     && (RoundRefines(b, l, k, w, rounds[0]);
         Follows(b, l, KS.OnTrap(b.cfg, k, rounds[0].trap).k, ActsRun(b, l, w, rounds[0].acts), rounds[1..])))
  }

  ghost function WorldAfter(b: SM.Board, l: PT.Layout, k: KS.Kern, w: World, rounds: seq<Round>): (w': World)
    requires Related(b, l, k, w) && Follows(b, l, k, w, rounds)
    ensures WorldOk(b, l, w')
    decreases |rounds|
  {
    if rounds == [] then w
    else
      RoundRefines(b, l, k, w, rounds[0]);
      WorldAfter(b, l, KS.OnTrap(b.cfg, k, rounds[0].trap).k, ActsRun(b, l, w, rounds[0].acts), rounds[1..])
  }

  /** Every trap of the run returns to user mode. */
  ghost predicate AllReturn(c: Config, k: KS.Kern, rounds: seq<Round>)
    requires KI.Inv(c, k)
    decreases |rounds|
  {
    rounds == [] ||
    (&& KS.OnTrap(c, k, rounds[0].trap).outcome.ToUser?
     && (KT.StepTwoPhase(c, k, rounds[0].trap);
         AllReturn(c, KS.OnTrap(c, k, rounds[0].trap).k, rounds[1..])))
  }

  /** Fold over a run what process p's own stores and finished calls did to its memory. */
  ghost function SlotHistory(c: Config, k: KS.Kern, slot: Slot, rounds: seq<Round>, p: nat): Slot
    requires KI.Inv(c, k) && AllReturn(c, k, rounds)
    decreases |rounds|
  {
    if rounds == [] then slot
    else
      KT.StepTwoPhase(c, k, rounds[0].trap);
      SlotHistory(c, KS.OnTrap(c, k, rounds[0].trap).k, SlotNext(c, k, slot, rounds[0], p), rounds[1..], p)
  }

  /** The ideal world after a run: private memories, and a console that received the
      buffers of accepted sys_write calls as their callers had filled them. */
  ghost function IdealAfter(c: Config, k: KS.Kern, s: Ideal, rounds: seq<Round>): Ideal
    requires KI.Inv(c, k) && AllReturn(c, k, rounds) && IdealOk(c, s) && s.current == k.current
    decreases |rounds|
  {
    if rounds == [] then s
    else
      KT.StepTwoPhase(c, k, rounds[0].trap);
      var k1 := KS.OnTrap(c, k, rounds[0].trap).k;
      PidInRange(c, k1.current);
      IdealAfter(c, k1, NextIdeal(c, k, s, rounds[0]), rounds[1..])
  }

  lemma {:induction false} WorldRefinesIdeal(b: SM.Board, l: PT.Layout, k: KS.Kern, w: World, rounds: seq<Round>)
    requires Related(b, l, k, w) && Follows(b, l, k, w, rounds)
    ensures AllReturn(b.cfg, k, rounds) && IdealOk(b.cfg, IdealOf(b, l, w))
    ensures IdealOf(b, l, WorldAfter(b, l, k, w, rounds)) == IdealAfter(b.cfg, k, IdealOf(b, l, w), rounds)
    decreases |rounds|
  {
    PidInRange(b.cfg, k.current);
    if rounds != [] {
      RoundRefines(b, l, k, w, rounds[0]);
      WorldRefinesIdeal(b, l, KS.OnTrap(b.cfg, k, rounds[0].trap).k, ActsRun(b, l, w, rounds[0].acts), rounds[1..]);
    }
  }

  lemma {:induction false} IdealSlot(c: Config, k: KS.Kern, s: Ideal, rounds: seq<Round>, p: nat)
    requires KI.Inv(c, k) && AllReturn(c, k, rounds) && IdealOk(c, s) && s.current == k.current && p < c.procs
    ensures |IdealAfter(c, k, s, rounds).slots| == c.procs
    ensures IdealAfter(c, k, s, rounds).slots[p] == SlotHistory(c, k, s.slots[p], rounds, p)
    decreases |rounds|
  {
    if rounds != [] {
      KT.StepTwoPhase(c, k, rounds[0].trap);
      var k1 := KS.OnTrap(c, k, rounds[0].trap).k;
      PidInRange(c, k1.current);
      IdealSlot(c, k1, NextIdeal(c, k, s, rounds[0]), rounds[1..], p);
    }
  }

  /** Over every run the memory of process p is what its own user code stored and its own
      finished calls filled in: no store of another process, no system call of another
      process, and no switch ever changes it. */
  lemma MemoryIsPrivate(b: SM.Board, l: PT.Layout, k: KS.Kern, w: World, rounds: seq<Round>, p: nat)
    requires Related(b, l, k, w) && Follows(b, l, k, w, rounds) && p < b.cfg.procs
    ensures AllReturn(b.cfg, k, rounds)
    ensures SlotOf(b.cfg.procs, WorldAfter(b, l, k, w, rounds).ram, p) ==
              SlotHistory(b.cfg, k, SlotOf(b.cfg.procs, w.ram, p), rounds, p)
  {
    WorldRefinesIdeal(b, l, k, w, rounds);
    IdealSlot(b.cfg, k, IdealOf(b, l, w), rounds, p);
    SlotAt(b.cfg.procs, w.ram, p);
    SlotAt(b.cfg.procs, WorldAfter(b, l, k, w, rounds).ram, p);
  }

  lemma SlotAt(procs: nat, ram: seq<Byte>, p: nat)
    requires AS.SLOT_OFFSET + procs * AS.USER_PHYS_STRIDE <= |ram| && p < procs
    ensures SlotsOf(procs, ram)[p] == SlotOf(procs, ram, p)
  {
  }

  // ------------------------------------------------------------ retired processes

  lemma NothingFilled(c: Config, slot: Slot, done: seq<KS.Done>, p: nat, t: nat)
    requires c.Valid() && WS.AtMostOne(done, t) && c.Pid(t) != p
    ensures FillAll(c, slot, done, p) == slot
  {
    if done != [] {
      assert done[0] in done && done[1..] == [];
    }
  }

  /** The call that finishes in a step belongs to the current thread or to a sleeper. */
  lemma AnswererAlive(c: Config, k: KS.Kern, trap: KS.Trap)
    requires KI.Inv(c, k)
    ensures var t := KT.Effect(c, k, trap).current;
            t < |k.states| && (t == k.current || k.states[t].Blocked?)
  {
    if trap.RxIrq? && KT.SomeoneWaits(k) {
      KI.RxWakes(c, k, trap.bytes);
    }
  }

  lemma {:induction false} RetiredHistory(c: Config, k: KS.Kern, slot: Slot, rounds: seq<Round>, p: nat)
    requires KI.Inv(c, k) && AllReturn(c, k, rounds) && KR.IsRetired(c, k, p)
    ensures SlotHistory(c, k, slot, rounds, p) == slot
    decreases |rounds|
  {
    if rounds != [] {
      var trap := rounds[0].trap;
      KT.StepTwoPhase(c, k, trap);
      WS.DoneIsCurrents(c, k, trap);
      AnswererAlive(c, k, trap);
      NothingFilled(c, slot, KS.OnTrap(c, k, trap).done, p, KT.Effect(c, k, trap).current);
      KR.StepRetires(c, k, trap);
      RetiredHistory(c, KS.OnTrap(c, k, trap).k, slot, rounds[1..], p);
    }
  }

  /** The physical memory of a process that is DEAD and off the CPU is never written
      again. */
  lemma RetiredMemoryFrozen(b: SM.Board, l: PT.Layout, k: KS.Kern, w: World, rounds: seq<Round>, p: nat)
    requires Related(b, l, k, w) && Follows(b, l, k, w, rounds) && p < b.cfg.procs && KR.IsRetired(b.cfg, k, p)
    ensures SlotOf(b.cfg.procs, WorldAfter(b, l, k, w, rounds).ram, p) == SlotOf(b.cfg.procs, w.ram, p)
  {
    MemoryIsPrivate(b, l, k, w, rounds, p);
    RetiredHistory(b.cfg, k, SlotOf(b.cfg.procs, w.ram, p), rounds, p);
  }

  // -------------------------------------------------------------- kernel memory

  /** Over every run no user store and no system call changes RAM outside the slots: the
      kernel's image, its tables and its stacks are out of user code's reach. */
  lemma {:induction false} KernelMemoryUntouched(b: SM.Board, l: PT.Layout, k: KS.Kern, w: World, rounds: seq<Round>)
    requires Related(b, l, k, w) && Follows(b, l, k, w, rounds)
    ensures SameOutside(b.cfg.procs, w.ram, WorldAfter(b, l, k, w, rounds).ram)
    ensures forall j :: 0 <= j < |w.ram| && j < 0x20_0000 ==> WorldAfter(b, l, k, w, rounds).ram[j] == w.ram[j]
    decreases |rounds|
  {
    if rounds != [] {
      var x := rounds[0];
      RoundRefines(b, l, k, w, x);
      KernelIsTame(b.cfg, k, x);
      ActsKeepOutside(b, l, w, x.acts);
      KernelMemoryUntouched(b, l, KS.OnTrap(b.cfg, k, x.trap).k, ActsRun(b, l, w, x.acts), rounds[1..]);
    }
  }

  // ----------------------------------------------------------------- from boot

  /** A program image followed by zeros. */
  function ImageSlot(image: seq<Byte>): (slot: Slot)
    requires |image| <= USER_REGION_SIZE
    ensures forall i :: 0 <= i < USER_REGION_SIZE ==> slot[i] == if i < |image| then image[i] else 0
  {
    seq(USER_REGION_SIZE, i requires 0 <= i < USER_REGION_SIZE => if i < |image| then image[i] else 0)
  }

  /** The world at the first return to user mode. */
  ghost function BootWorld(b: SM.Board, l: PT.Layout, s: TI.Start, m0: SM.Mach, ops: seq<SM.Op>, ram: seq<Byte>):
    (w: World)
    requires Isolation.TablesBuilt(b, l) && SR.Booted(b, s, m0, ops) && |ram| == l.ramSize
    ensures Related(b, l, KS.Boot(b.cfg), w) && w.ram == ram
  {
    World(SR.BootMach(b, s, m0, ops), ram, [])
  }

  /** In every run from boot, the memory of process p is its own program image, as
      changed by its own stores and its own finished calls. */
  lemma MemoryFromBoot(b: SM.Board, l: PT.Layout, s: TI.Start, m0: SM.Mach, ops: seq<SM.Op>, ram: seq<Byte>,
                       images: seq<seq<Byte>>, rounds: seq<Round>, p: nat)
    requires Isolation.TablesBuilt(b, l) && SR.Booted(b, s, m0, ops) && |ram| == l.ramSize
    requires |images| == b.cfg.procs && p < |images| && AS.ImagesFit(|ram|, images) && AS.Loaded(ram, images, p)
    requires Follows(b, l, KS.Boot(b.cfg), BootWorld(b, l, s, m0, ops, ram), rounds)
    ensures AllReturn(b.cfg, KS.Boot(b.cfg), rounds)
    ensures var w := WorldAfter(b, l, KS.Boot(b.cfg), BootWorld(b, l, s, m0, ops, ram), rounds);
            SlotOf(b.cfg.procs, w.ram, p) == SlotHistory(b.cfg, KS.Boot(b.cfg), ImageSlot(images[p]), rounds, p)
  {
    MemoryIsPrivate(b, l, KS.Boot(b.cfg), BootWorld(b, l, s, m0, ops, ram), rounds, p);
    ImageInSlot(ram, images, p);
  }

  lemma ImageInSlot(ram: seq<Byte>, images: seq<seq<Byte>>, p: nat)
    requires AS.ImagesFit(|ram|, images) && p < |images| && AS.Loaded(ram, images, p)
    ensures SlotOf(|images|, ram, p) == ImageSlot(images[p])
  {
    AS.SlotEnd(|ram|, images, p);
    var slot, image := SlotOf(|images|, ram, p), ImageSlot(images[p]);
    forall i | 0 <= i < USER_REGION_SIZE
      ensures slot[i] == image[i]
    {
      assert slot[i] == ram[AS.SlotOffset(p) + i] == if i < |images[p]| then images[p][i] else 0;
    }
  }
}
