/** kernel/arch/arm/mm/pgtable.c and mmu.c: first-level tables of 1 MB sections, in the
    short-descriptor format of section B3.5 of the ARM Architecture Reference Manual
    ARMv7-A/R (ARM DDI 0406C). */
module PageTable {
  import opened Tasks
  import opened UserPointer

  const MB := 0x10_0000
  const VA_KERNEL_BASE := 0xC000_0000
  const USER_INDEX := USER_VIRT_BASE / MB

  // PDE_* attribute words; none reaches bit 20, so OR-ing one to a section base adds it.
  const PDE_KERNEL_MEM := 0x40E
  const PDE_DEVICE := 0x412
  const PDE_USER_TEXT := 0xC0E

  type Table = t: seq<Word> | |t| == PGD_ENTRIES witness Blank()

  function Blank(): (t: seq<Word>)
    ensures |t| == PGD_ENTRIES && forall i :: 0 <= i < PGD_ENTRIES ==> t[i] == 0
  {
    seq(PGD_ENTRIES, _ => 0)
  }

  datatype Region = Region(base: Word, sections: nat)

  /** What a board fixes: its RAM and its peripheral windows. */
  datatype Layout = Layout(ramBase: Word, ramSize: Word, periph: seq<Region>) {
    function IdentLo(): nat {
      ramBase / MB
    }

    function IdentHi(): nat {
      (ramBase + ramSize) % WORD / MB
    }

    /** RAM lies above the user window and below the kernel's half; peripherals lie below
        the kernel's half and leave the NULL section alone. */
    ghost predicate Valid() {
      && ramBase % MB == 0 && ramSize % MB == 0
      && USER_STACK_TOP <= ramBase && ramBase + ramSize <= VA_KERNEL_BASE
      && VA_KERNEL_BASE + ramSize <= WORD
      && forall i :: 0 <= i < |periph| ==>
           MB <= periph[i].base && periph[i].base + periph[i].sections * MB <= VA_KERNEL_BASE
    }

    /** Moreover the peripheral windows are whole sections, disjoint from each other, from
        RAM and from the user window. */
    ghost predicate Apart() {
      && Valid()
      && (forall i :: 0 <= i < |periph| ==>
            && periph[i].base % MB == 0
            && DisjointFrom(periph[i], ramBase, ramSize) && DisjointFrom(periph[i], USER_VIRT_BASE, USER_REGION_SIZE))
      && forall i, j :: 0 <= i < j < |periph| ==> DisjointFrom(periph[i], periph[j].base, periph[j].sections * MB)
    }
  }

  predicate DisjointFrom(r: Region, base: int, size: int) {
    r.base + r.sections * MB <= base || base + size <= r.base
  }

  const QEMU := Layout(0x7000_0000, 0x0800_0000, [Region(0x1000_0000, 2), Region(0x1E00_0000, 1)])
  const BBB := Layout(0x8000_0000, 0x2000_0000, [Region(0x44E0_0000, 1), Region(0x4800_0000, 16)])

  lemma BoardsValid()
    ensures QEMU.Apart() && BBB.Apart()
  {
  }

  /** The attribute words, bit field by bit field: type 2 (section), B, C, XN, domain and
      AP[1:0]; everything else is 0. */
  lemma AttributeWords()
    ensures PDE_KERNEL_MEM == 2 + 4 * 1 + 8 * 1 + 16 * 0 + 32 * 0 + 0x400 * 1
    ensures PDE_DEVICE == 2 + 4 * 0 + 8 * 0 + 16 * 1 + 32 * 0 + 0x400 * 1
    ensures PDE_USER_TEXT == 2 + 4 * 1 + 8 * 1 + 16 * 0 + 32 * 0 + 0x400 * 3
  {
  }

  // ------------------------------------------------------------ the builders

  /** (pa & 0xFFF00000) | attrs */
  function Section(pa: Word, attrs: nat): Word
    requires attrs < MB
  {
    pa - pa % MB + attrs
  }

  lemma SectionIsOr(pa: bv32, attrs: bv32)
    requires attrs & 0xFFF0_0000 == 0
    ensures (pa & 0xFFF0_0000) | attrs == (pa & 0xFFF0_0000) + attrs
  {
  }

  function MapSection(t: Table, va: Word, pa: Word, attrs: nat): Table
    requires attrs < MB
  {
    t[va / MB := Section(pa, attrs)]
  }

  /** n sections from va on, with the source's wrapping address arithmetic. */
  function MapRange(t: Table, va: Word, pa: Word, n: nat, attrs: nat): Table
    requires attrs < MB
  {
    if n == 0 then t
    else MapSection(MapRange(t, va, pa, n - 1, attrs),
                    (va + (n - 1) * MB) % WORD, (pa + (n - 1) * MB) % WORD, attrs)
  }

  function MapPeripherals(t: Table, regions: seq<Region>): Table {
    if regions == [] then t
    else
      var r := regions[|regions| - 1];
      MapRange(MapPeripherals(t, regions[..|regions| - 1]), r.base, r.base, r.sections, PDE_DEVICE)
  }

  function BootTable(l: Layout): Table {
    MapPeripherals(
      MapRange(MapRange(Blank(), l.ramBase, l.ramBase, l.ramSize / MB, PDE_KERNEL_MEM),
               VA_KERNEL_BASE, l.ramBase, l.ramSize / MB, PDE_KERNEL_MEM),
      l.periph)
  }

  predicate InIdentity(l: Layout, i: nat) {
    l.IdentLo() <= i < l.IdentHi()
  }

  /** Mirror everything but the identity map of RAM, then install the user section. */
  function ProcTable(l: Layout, boot: Table, userPa: Word): (t: Table)
    ensures forall i :: 0 <= i < PGD_ENTRIES ==> t[i] == ProcEntry(l, boot, userPa, i)
  {
    seq(PGD_ENTRIES, i requires 0 <= i < PGD_ENTRIES => ProcEntry(l, boot, userPa, i))
  }

  function ProcEntry(l: Layout, boot: Table, userPa: Word, i: nat): Word
    requires i < PGD_ENTRIES
  {
    if i == USER_INDEX then Section(userPa, PDE_USER_TEXT) else KeptEntry(l, boot, i)
  }

  function KeptEntry(l: Layout, boot: Table, i: nat): Word
    requires i < PGD_ENTRIES
  {
    if InIdentity(l, i) then 0 else boot[i]
  }

  function DropIdentity(l: Layout, boot: Table): (t: Table)
    ensures forall i :: 0 <= i < PGD_ENTRIES ==> t[i] == KeptEntry(l, boot, i)
  {
    seq(PGD_ENTRIES, i requires 0 <= i < PGD_ENTRIES => KeptEntry(l, boot, i))
  }

  method PgtableMapRange(pgd: array<Word>, va: Word, pa: Word, sizeBytes: Word, attrs: nat)
    requires pgd.Length == PGD_ENTRIES && attrs < MB
    modifies pgd
    ensures pgd[..] == MapRange(old(pgd[..]), va, pa, sizeBytes / MB, attrs)
  {
    var count := sizeBytes / MB;
    for i := 0 to count
      invariant pgd[..] == MapRange(old(pgd[..]), va, pa, i, attrs)
    {
      var v, p := (va + i * MB) % WORD, (pa + i * MB) % WORD;
      pgd[v / MB] := Section(p, attrs);
    }
  }

  method MmuBuildBootPgd(l: Layout, pgd: array<Word>)
    requires l.Valid() && pgd.Length == PGD_ENTRIES && pgd[..] == Blank()
    modifies pgd
    ensures pgd[..] == BootTable(l)
  {
    PgtableMapRange(pgd, l.ramBase, l.ramBase, l.ramSize, PDE_KERNEL_MEM);
    PgtableMapRange(pgd, VA_KERNEL_BASE, l.ramBase, l.ramSize, PDE_KERNEL_MEM);
    ghost var ram := pgd[..];
    for k := 0 to |l.periph|
      invariant pgd[..] == MapPeripherals(ram, l.periph[..k])
    {
      var r := l.periph[k];
      PgtableMapRange(pgd, r.base, r.base, r.sections * MB, PDE_DEVICE);
      assert l.periph[..k + 1][..k] == l.periph[..k];
    }
    assert l.periph[..|l.periph|] == l.periph;
  }

  method PgtableBuildForProc(l: Layout, boot: array<Word>, pgd: array<Word>, userPa: Word)
    requires boot.Length == pgd.Length == PGD_ENTRIES && boot != pgd
    modifies pgd
    ensures pgd[..] == ProcTable(l, boot[..], userPa)
  {
    for i := 0 to PGD_ENTRIES
      invariant forall j :: 0 <= j < i ==> pgd[j] == 0
    {
      pgd[i] := 0;
    }
    var lo, hi := l.IdentLo(), l.IdentHi();
    for i := 0 to PGD_ENTRIES
      invariant forall j :: 0 <= j < i ==> pgd[j] == if lo <= j < hi then 0 else boot[j]
      invariant forall j :: i <= j < PGD_ENTRIES ==> pgd[j] == 0
    {
      if boot[i] == 0 {
        continue;
      }
      if i >= lo && i < hi {
        continue;
      }
      pgd[i] := boot[i];
    }
    pgd[USER_INDEX] := Section(userPa, PDE_USER_TEXT);
  }

  method MmuDropIdentity(l: Layout, boot: array<Word>)
    requires boot.Length == PGD_ENTRIES
    modifies boot
    ensures boot[..] == DropIdentity(l, old(boot[..]))
  {
    var i, end := l.IdentLo(), l.IdentHi();
    while i < end
      invariant l.IdentLo() <= i && (i <= end || i == l.IdentLo())
      invariant forall j :: 0 <= j < PGD_ENTRIES ==>
        boot[j] == if l.IdentLo() <= j < i then 0 else old(boot[j])
    {
      boot[i] := 0;
      i := i + 1;
    }
  }

  // -------------------------------------------------------------- translation

  predicate IsSection(d: Word) {
    d % 4 == 2 && d / 0x4_0000 % 2 == 0
  }

  function Domain(d: Word): nat {
    d / 32 % 16
  }

  function Ap(d: Word): nat {
    d / 0x400 % 4 + 4 * (d / 0x8000 % 2)
  }

  /** AP[2:0] as in section B3.7. */
  predicate UserMay(ap: nat, write: bool) {
    ap == 3 || (!write && (ap == 2 || ap == 6 || ap == 7))
  }

  predicate PrivilegedMay(ap: nat, write: bool) {
    1 <= ap <= 3 || (!write && 5 <= ap <= 7)
  }

  /** Section base from the descriptor, offset from the address. */
  function Join(d: Word, va: Word): Word {
    var hi := d / MB;
    assert hi * MB <= d && hi <= 4095;
    hi * MB + va % MB
  }

  /** The physical address an access reaches, or None for a fault. DACR makes domain 0 a
      client and gives no access to the others. */
  function Translate(t: Table, va: Word, user: bool, write: bool): Option<Word> {
    Access(t[va / MB], va, user, write)
  }

  function Access(d: Word, va: Word, user: bool, write: bool): Option<Word> {
    if !IsSection(d) || Domain(d) != 0 then None
    else if !(if user then UserMay(Ap(d), write) else PrivilegedMay(Ap(d), write)) then None
    else Some(Join(d, va))
  }

  /** The fields of a section descriptor come from its attribute word alone. */
  lemma Decode(pa: Word, attrs: nat)
    requires attrs < MB
    ensures var d := Section(pa, attrs);
            && d % 4 == attrs % 4 && d / 0x4_0000 % 2 == attrs / 0x4_0000 % 2
            && d / 32 % 16 == attrs / 32 % 16 && d / 0x400 % 4 == attrs / 0x400 % 4
            && d / 0x8000 % 2 == attrs / 0x8000 % 2
            && d / MB == pa / MB
  {
    var hi := pa / MB;
    assert Section(pa, attrs) == hi * MB + attrs;
    ModShift(hi * (MB / 4), attrs, 4);
    Field(hi, attrs, 0x4_0000, 2, hi * 4, hi * 2);
    Field(hi, attrs, 32, 16, hi * 0x8000, hi * 0x800);
    Field(hi, attrs, 0x400, 4, hi * 0x400, hi * 0x100);
    Field(hi, attrs, 0x8000, 2, hi * 32, hi * 16);
  }

  /** A field below bit 20 is not disturbed by the section base above it. */
  lemma Field(hi: nat, a: nat, d: nat, k: nat, q: nat, p: nat)
    requires d > 0 && k > 0 && hi * MB == q * d && q == p * k
    ensures (hi * MB + a) / d % k == a / d % k
  {
    DivShift(q, a, d);
    ModShift(p, a / d, k);
  }

  lemma DivShift(q: nat, a: nat, d: nat)
    requires d > 0
    ensures (q * d + a) / d == q + a / d
  {
    assert (q + a / d) * d == q * d + a / d * d;
    ModUnique(q * d + a, d, q + a / d, a % d);
  }

  lemma ModShift(p: nat, a: nat, k: nat)
    requires k > 0
    ensures (p * k + a) % k == a % k
  {
    assert (p + a / k) * k == p * k + a / k * k;
    ModUnique(p * k + a, k, p + a / k, a % k);
  }

  /** An entry user code cannot pass: a fault, or a kernel-only section. */
  ghost predicate KernelOnly(d: Word) {
    d == 0 || exists pa: Word :: d == Section(pa, PDE_KERNEL_MEM) || d == Section(pa, PDE_DEVICE)
  }

  lemma KernelOnlyBlocksUser(t: Table, va: Word, write: bool)
    requires KernelOnly(t[va / MB])
    ensures Translate(t, va, true, write) == None
  {
    var d := t[va / MB];
    if d != 0 {
      var pa: Word :| d == Section(pa, PDE_KERNEL_MEM) || d == Section(pa, PDE_DEVICE);
      Decode(pa, PDE_KERNEL_MEM);
      Decode(pa, PDE_DEVICE);
    }
  }

  lemma {:induction false} MapRangeKernelOnly(t: Table, va: Word, pa: Word, n: nat, attrs: nat)
    requires attrs == PDE_KERNEL_MEM || attrs == PDE_DEVICE
    requires forall i :: 0 <= i < PGD_ENTRIES ==> KernelOnly(t[i])
    ensures forall i :: 0 <= i < PGD_ENTRIES ==> KernelOnly(MapRange(t, va, pa, n, attrs)[i])
  {
    if n > 0 {
      MapRangeKernelOnly(t, va, pa, n - 1, attrs);
    }
  }

  lemma {:induction false} PeripheralsKernelOnly(t: Table, regions: seq<Region>)
    requires forall i :: 0 <= i < PGD_ENTRIES ==> KernelOnly(t[i])
    ensures forall i :: 0 <= i < PGD_ENTRIES ==> KernelOnly(MapPeripherals(t, regions)[i])
  {
    if regions != [] {
      var r := regions[|regions| - 1];
      PeripheralsKernelOnly(t, regions[..|regions| - 1]);
      MapRangeKernelOnly(MapPeripherals(t, regions[..|regions| - 1]), r.base, r.base, r.sections, PDE_DEVICE);
    }
  }

  lemma BootKernelOnly(l: Layout)
    ensures forall i :: 0 <= i < PGD_ENTRIES ==> KernelOnly(BootTable(l)[i])
  {
    var n := l.ramSize / MB;
    var ident := MapRange(Blank(), l.ramBase, l.ramBase, n, PDE_KERNEL_MEM);
    MapRangeKernelOnly(Blank(), l.ramBase, l.ramBase, n, PDE_KERNEL_MEM);
    MapRangeKernelOnly(ident, VA_KERNEL_BASE, l.ramBase, n, PDE_KERNEL_MEM);
    PeripheralsKernelOnly(MapRange(ident, VA_KERNEL_BASE, l.ramBase, n, PDE_KERNEL_MEM), l.periph);
  }
}
