/** kernel/main.c: the boot sequence, which establishes everything that the statements
    about runs from boot start from. */
module Boot {
  import opened Tasks
  import opened UserPointer
  import opened AddressSpace
  import opened SwitchMachine
  import PT = PageTable
  import TI = ThreadInit
  import CPU = Cpu
  import Isolation

  /** What start.S, the linker and the build hand over: a zeroed boot table, aligned and
      distinct process tables, and sizes that fit. */
  ghost predicate BootOk(c: Config, l: PT.Layout, images: seq<seq<Byte>>, boot: array<Word>, pgds: seq<array<Word>>,
                         pgdPa: seq<Word>, ram: array<Byte>, pcbs: array<Pcb>, kstack: array<Word>, tcb: array<Tcb>)
    reads boot
  {
    && c.Valid() && c.perProc * TI.USER_STACK_SIZE <= USER_REGION_SIZE
    && SlotsFit(l, c.procs) && ImagesFit(ram.Length, images) && ram.Length == l.ramSize
    && |images| == |pgds| == |pgdPa| == pcbs.Length == c.procs
    && boot.Length == PGD_ENTRIES && boot[..] == PT.Blank() && kstack != boot
    && (forall p :: 0 <= p < |pgds| ==> pgds[p].Length == PGD_ENTRIES && pgds[p] != boot && pgds[p] != kstack)
    && (forall p, q :: 0 <= p < q < |pgds| ==> pgds[p] != pgds[q])
    && (forall p :: 0 <= p < |pgdPa| ==> pgdPa[p] % PGD_ALIGN == 0)
    && (forall p, q :: 0 <= p < q < |pgdPa| ==> pgdPa[p] != pgdPa[q])
    && kstack.Length == c.Threads() * KSTACK_WORDS && tcb.Length == c.Threads()
  }

  /** The tables as the MMU will walk them. */
  method ReadTables(pgds: seq<array<Word>>) returns (tables: seq<seq<Word>>)
    ensures |tables| == |pgds| && forall p :: 0 <= p < |pgds| ==> tables[p] == pgds[p][..]
  {
    tables := [];
    for p := 0 to |pgds|
      invariant |tables| == p && forall q :: 0 <= q < p ==> tables[q] == pgds[q][..]
    {
      tables := tables + [pgds[p][..]];
    }
  }

  method ReadEntries(pcbs: array<Pcb>) returns (entries: seq<Word>)
    ensures |entries| == pcbs.Length && forall p :: 0 <= p < pcbs.Length ==> entries[p] == pcbs[p].entry
  {
    entries := [];
    for p := 0 to pcbs.Length
      invariant |entries| == p && forall q :: 0 <= q < p ==> entries[q] == pcbs[q].entry
    {
      entries := entries + [pcbs[p].entry];
    }
  }

  /** The two tables of the boot code, in kmain's order, up to the first switch. */
  method InitTables(c: Config, l: PT.Layout, images: seq<seq<Byte>>, boot: array<Word>, pgds: seq<array<Word>>,
                    pgdPa: seq<Word>, ram: array<Byte>, pcbs: array<Pcb>, kstack: array<Word>, tcb: array<Tcb>,
                    retFirst: Word)
    returns (b: Board, s: TI.Start)
    requires BootOk(c, l, images, boot, pgds, pgdPa, ram, pcbs, kstack, tcb)
    modifies boot, ram, pcbs, pgds, kstack, tcb
    ensures b.cfg == c && Isolation.TablesBuilt(b, l)
    ensures forall p :: 0 <= p < c.procs ==> Loaded(ram[..], images, p)
    ensures TI.StartOk(c, s) && s.retFirst == retFirst
    ensures forall p :: 0 <= p < c.procs ==> s.entry[p] == 0x4000_0000
    ensures forall t :: 0 <= t < c.Threads() ==> TI.Built(c, s, kstack[..], tcb[..], t)
    ensures boot[..] == PT.DropIdentity(l, PT.BootTable(l))
  {
    PT.MmuBuildBootPgd(l, boot);
    ProcessInitAll(l, c.names, images, boot, pgds, pgdPa, ram, pcbs);
    ghost var loaded := ram[..];
    assert forall p :: 0 <= p < c.procs ==> Loaded(loaded, images, p) by {
      forall p | 0 <= p < c.procs
        ensures Loaded(loaded, images, p)
      {
        assert Initialised(l, c.names, images, pgds[p][..], pgdPa[p], ram[..], pcbs[p], p);
      }
    }
    var entries := ReadEntries(pcbs);
    s := TI.Start(entries, retFirst);
    var tables := ReadTables(pgds);
    b := Board(c, pgdPa, tables);
    TI.ThreadInitAll(c, s, kstack, tcb);
    PT.MmuDropIdentity(l, boot);
    assert ram[..] == loaded;
  }

  /** kmain: from the state that start.S hands over to the instant in which thread 0 is
      about to drain its initial frame. `regs` is whatever the processor holds. */
  method Kmain(c: Config, l: PT.Layout, images: seq<seq<Byte>>, boot: array<Word>, pgds: seq<array<Word>>,
               pgdPa: seq<Word>, ram: array<Byte>, pcbs: array<Pcb>, kstack: array<Word>, tcb: array<Tcb>,
               retFirst: Word, regs: Mach)
    returns (cpu: CPU.Cpu, s: TI.Start, m0: Mach)
    requires BootOk(c, l, images, boot, pgds, pgdPa, ram, pcbs, kstack, tcb) && |regs.r| == 13
    modifies boot, ram, pcbs, pgds, kstack, tcb
    ensures cpu.Valid() && cpu.board.cfg == c && Isolation.TablesBuilt(cpu.board, l)
    ensures forall p :: 0 <= p < c.procs ==> Loaded(ram[..], images, p)
    ensures TI.Ready(cpu.board, s, m0) && m0.abt == []
    ensures cpu.View() == TI.FirstRun(cpu.board, s, m0)
  {
    var b;
    b, s := InitTables(c, l, images, boot, pgds, pgdPa, ram, pcbs, kstack, tcb, retFirst);
    m0 := regs.(current := 0, mode := seq(c.Threads(), _ => InIrq), mem := kstack[..], tcb := tcb[..], abt := []);
    cpu := new CPU.Cpu(b, m0);
    cpu.FirstSwitch(s);
  }
}
