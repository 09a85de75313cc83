/** Address spaces as kernel/proc/process.c sets them up: one table and one physical
    slot per process, and what user and kernel accesses can reach through them. */
module AddressSpace {
  import opened Tasks
  import opened UserPointer
  import opened PageTable

  const SLOT_OFFSET := 0x0020_0000     // USER_PHYS_BASE - RAM_BASE
  const USER_PHYS_STRIDE := 0x0010_0000

  /** All slots lie in RAM. */
  ghost predicate SlotsFit(l: Layout, procs: nat) {
    l.Valid() && SLOT_OFFSET + procs * USER_PHYS_STRIDE <= l.ramSize
  }

  function SlotBase(l: Layout, procs: nat, p: nat): Word
    requires SlotsFit(l, procs) && p < procs
  {
    assert p * USER_PHYS_STRIDE <= procs * USER_PHYS_STRIDE;
    l.ramBase + SLOT_OFFSET + p * USER_PHYS_STRIDE
  }

  function TableOf(l: Layout, procs: nat, p: nat): Table
    requires SlotsFit(l, procs) && p < procs
  {
    ProcTable(l, BootTable(l), SlotBase(l, procs, p))
  }

  // ------------------------------------------------------------------ isolation

  /** A user access succeeds exactly inside the 1 MB window, and lands at the same
      offset of the process's own slot, for every 32-bit address. */
  lemma UserReachesOwnSlot(l: Layout, procs: nat, p: nat, va: Word, write: bool)
    requires SlotsFit(l, procs) && p < procs
    ensures Translate(TableOf(l, procs, p), va, true, write) ==
              if USER_VIRT_BASE <= va < USER_STACK_TOP
              then Some(SlotBase(l, procs, p) + (va - USER_VIRT_BASE)) else None
  {
    var t := TableOf(l, procs, p);
    if USER_VIRT_BASE <= va < USER_STACK_TOP {
      WindowTranslates(l, procs, p, va, true, write);
    } else {
      assert va / MB != USER_INDEX;
      BootKernelOnly(l);
      KernelOnlyBlocksUser(t, va, write);
    }
  }

  /** Inside the window the kernel reaches the same bytes as the user. */
  lemma WindowTranslates(l: Layout, procs: nat, p: nat, va: Word, user: bool, write: bool)
    requires SlotsFit(l, procs) && p < procs && USER_VIRT_BASE <= va < USER_STACK_TOP
    ensures Translate(TableOf(l, procs, p), va, user, write) ==
              Some(SlotBase(l, procs, p) + (va - USER_VIRT_BASE))
  {
    var base := SlotBase(l, procs, p);
    assert va / MB == USER_INDEX && va % MB == va - USER_VIRT_BASE;
    assert base % MB == 0 && base + va % MB < WORD;
    UserSectionAccess(base, va, user, write);
  }

  lemma UserSectionAccess(base: Word, va: Word, user: bool, write: bool)
    requires base % MB == 0 && base + va % MB < WORD
    ensures Access(Section(base, PDE_USER_TEXT), va, user, write) == Some(base + va % MB)
  {
    Decode(base, PDE_USER_TEXT);
  }

  /** Distinct processes never share a physical byte, and no slot holds kernel memory
      below the first one. */
  lemma SlotsDisjoint(l: Layout, procs: nat, p: nat, q: nat)
    requires SlotsFit(l, procs) && p < q < procs
    ensures SlotBase(l, procs, p) + USER_REGION_SIZE <= SlotBase(l, procs, q)
    ensures l.ramBase + SLOT_OFFSET <= SlotBase(l, procs, p)
    ensures SlotBase(l, procs, q) + USER_REGION_SIZE <= l.ramBase + l.ramSize
  {
    assert (p + 1) * USER_PHYS_STRIDE <= q * USER_PHYS_STRIDE;
    assert (q + 1) * USER_PHYS_STRIDE <= procs * USER_PHYS_STRIDE;
  }

  /** Where the slots are: 2 MB above the start of RAM, 1 MB apart. The kernel is loaded
      1 MB above it on one board and at its start on the other, in front of all slots. */
  lemma SlotPlacement(l: Layout, procs: nat, p: nat)
    requires SlotsFit(l, procs) && p < procs
    ensures SlotBase(l, procs, p) == l.ramBase + 0x20_0000 + p * 0x10_0000
    ensures l == QEMU ==> 0x7010_0000 + 0x10_0000 <= SlotBase(l, procs, p)
    ensures l == BBB ==> 0x8000_0000 + 0x20_0000 <= SlotBase(l, procs, p)
  {
  }

  /** No address gives two processes' user code a common physical byte. */
  lemma NoSharedByte(l: Layout, procs: nat, p: nat, q: nat, va: Word, vb: Word, w1: bool, w2: bool)
    requires SlotsFit(l, procs) && p < procs && q < procs && p != q
    ensures var a := Translate(TableOf(l, procs, p), va, true, w1);
            var b := Translate(TableOf(l, procs, q), vb, true, w2);
            a.Some? && b.Some? ==> a.value != b.value
  {
    UserReachesOwnSlot(l, procs, p, va, w1);
    UserReachesOwnSlot(l, procs, q, vb, w2);
    SlotsDisjoint(l, procs, if p < q then p else q, if p < q then q else p);
  }

  /** A buffer that passes the pointer check lies byte for byte in the caller's own
      slot, for the kernel's accesses on its behalf as much as for its own. */
  lemma CheckedPointerIsOwn(l: Layout, procs: nat, p: nat, addr: Word, len: Word, i: nat, user: bool, write: bool)
    requires SlotsFit(l, procs) && p < procs
    requires ValidUserPtr(addr, len) && i < len
    ensures addr + i < WORD
    ensures Translate(TableOf(l, procs, p), addr + i, user, write) ==
              Some(SlotBase(l, procs, p) + (addr + i - USER_VIRT_BASE))
  {
    ValidUserPtrIsContainment(addr, len);
    WindowTranslates(l, procs, p, addr + i, user, write);
  }

  // --------------------------------------------------------------- kernel half

  /** Outside the user section all processes translate alike; the NULL section and the
      identity map of RAM fault for everybody. */
  lemma KernelHalfAgrees(l: Layout, procs: nat, p: nat, q: nat, va: Word, user: bool, write: bool)
    requires SlotsFit(l, procs) && p < procs && q < procs
    requires va / MB != USER_INDEX
    ensures Translate(TableOf(l, procs, p), va, user, write) == Translate(TableOf(l, procs, q), va, user, write)
    ensures va < MB || l.ramBase <= va < l.ramBase + l.ramSize ==>
              Translate(TableOf(l, procs, p), va, user, write) == None
  {
    if va < MB {
      NullUnmapped(l);
    } else if l.ramBase <= va < l.ramBase + l.ramSize {
      assert InIdentity(l, va / MB);
    }
  }

  /** Kernel code runs at its high alias through every table: the boot table and each
      process's own map it to the same RAM, for the kernel only, so replacing TTBR0
      never pulls the ground from under it. */
  lemma KernelAlias(l: Layout, procs: nat, p: nat, x: nat, write: bool)
    requires SlotsFit(l, procs) && p < procs && x < l.ramSize
    ensures 0xC000_0000 + x < WORD
    ensures Translate(TableOf(l, procs, p), 0xC000_0000 + x, false, write) == Some(l.ramBase + x)
    ensures Translate(BootTable(l), 0xC000_0000 + x, false, write) == Some(l.ramBase + x)
    ensures Translate(TableOf(l, procs, p), 0xC000_0000 + x, true, write) == None
  {
    var va, k := VA_KERNEL_BASE + x, x / MB;
    assert va / MB == VA_KERNEL_BASE / MB + k && va % MB == x % MB;
    AliasEntry(l, k);
    AliasAccess(l.ramBase, x, va, write);
    BootKernelOnly(l);
    KernelOnlyBlocksUser(TableOf(l, procs, p), va, write);
  }

  lemma AliasAccess(base: Word, x: nat, va: Word, write: bool)
    requires base % MB == 0 && base + x < WORD && va % MB == x % MB
    ensures base + x / MB * MB < WORD
    ensures Access(Section(base + x / MB * MB, PDE_KERNEL_MEM), va, false, write) == Some(base + x)
  {
    var d := Section(base + x / MB * MB, PDE_KERNEL_MEM);
    Decode(base + x / MB * MB, PDE_KERNEL_MEM);
    assert x == x / MB * MB + x % MB;
    assert d / MB == base / MB + x / MB && base == base / MB * MB;
  }

  /** A range that does not wrap maps exactly its own indices. */
  lemma {:induction false} MapRangeAt(t: Table, va: Word, pa: Word, n: nat, attrs: nat, j: nat)
    requires attrs < MB && va % MB == 0 && va + n * MB <= WORD && pa + n * MB <= WORD && j < PGD_ENTRIES
    ensures MapRange(t, va, pa, n, attrs)[j] ==
              if va / MB <= j < va / MB + n then Section((pa + (j - va / MB) * MB) % WORD, attrs) else t[j]
  {
    if n > 0 {
      MapRangeAt(t, va, pa, n - 1, attrs, j);
      var v := va + (n - 1) * MB;
      assert v < WORD && v / MB == va / MB + (n - 1);
      assert v % WORD == v;
    }
  }

  lemma {:induction false} PeripheralsElsewhere(t: Table, regions: seq<Region>, j: nat)
    requires j == 0 || VA_KERNEL_BASE / MB <= j < PGD_ENTRIES
    requires forall i :: 0 <= i < |regions| ==>
               MB <= regions[i].base && regions[i].base + regions[i].sections * MB <= VA_KERNEL_BASE
    ensures MapPeripherals(t, regions)[j] == t[j]
  {
    if regions != [] {
      var r := regions[|regions| - 1];
      PeripheralsElsewhere(t, regions[..|regions| - 1], j);
      RangeElsewhere(MapPeripherals(t, regions[..|regions| - 1]), r.base, r.sections, j);
    }
  }

  lemma {:induction false} RangeElsewhere(t: Table, base: Word, n: nat, j: nat)
    requires j == 0 || VA_KERNEL_BASE / MB <= j < PGD_ENTRIES
    requires MB <= base && base + n * MB <= VA_KERNEL_BASE
    ensures MapRange(t, base, base, n, PDE_DEVICE)[j] == t[j]
  {
    if n > 0 {
      RangeElsewhere(t, base, n - 1, j);
      var v := base + (n - 1) * MB;
      assert MB <= v && v + MB <= VA_KERNEL_BASE;
    }
  }

  lemma NullUnmapped(l: Layout)
    requires l.Valid()
    ensures BootTable(l)[0] == 0
  {
    var n := l.ramSize / MB;
    var ident := MapRange(Blank(), l.ramBase, l.ramBase, n, PDE_KERNEL_MEM);
    MapRangeAt(Blank(), l.ramBase, l.ramBase, n, PDE_KERNEL_MEM, 0);
    MapRangeAt(ident, VA_KERNEL_BASE, l.ramBase, n, PDE_KERNEL_MEM, 0);
    PeripheralsElsewhere(MapRange(ident, VA_KERNEL_BASE, l.ramBase, n, PDE_KERNEL_MEM), l.periph, 0);
  }

  lemma AliasEntry(l: Layout, k: nat)
    requires l.Valid() && k < l.ramSize / MB
    ensures VA_KERNEL_BASE / MB + k < PGD_ENTRIES && l.ramBase + k * MB < WORD
    ensures BootTable(l)[VA_KERNEL_BASE / MB + k] == Section(l.ramBase + k * MB, PDE_KERNEL_MEM)
  {
    var n, j := l.ramSize / MB, VA_KERNEL_BASE / MB + k;
    var ident := MapRange(Blank(), l.ramBase, l.ramBase, n, PDE_KERNEL_MEM);
    assert n * MB == l.ramSize;
    assert k * MB < n * MB;
    MapRangeAt(ident, VA_KERNEL_BASE, l.ramBase, n, PDE_KERNEL_MEM, j);
    PeripheralsElsewhere(MapRange(ident, VA_KERNEL_BASE, l.ramBase, n, PDE_KERNEL_MEM), l.periph, j);
  }

  /** A process table comes out the same whether the identity map of RAM was dropped
      from the boot table before or after it was built. */
  lemma DropOrderIrrelevant(l: Layout, boot: Table, userPa: Word)
    ensures ProcTable(l, DropIdentity(l, boot), userPa) == ProcTable(l, boot, userPa)
  {
  }

  // ------------------------------------------------------------ loading images

  /** The slot of process p, as offsets into RAM. */
  function SlotOffset(p: nat): nat {
    SLOT_OFFSET + p * USER_PHYS_STRIDE
  }

  ghost predicate ImagesFit(ram: nat, images: seq<seq<Byte>>) {
    && SLOT_OFFSET + |images| * USER_PHYS_STRIDE <= ram
    && forall p :: 0 <= p < |images| ==> |images[p]| <= USER_REGION_SIZE
  }

  /** Slot p holds image p, followed by zeros. */
  ghost predicate Loaded(ram: seq<Byte>, images: seq<seq<Byte>>, p: nat)
    requires ImagesFit(|ram|, images) && p < |images|
  {
    SlotEnd(|ram|, images, p);
    var at, image := SlotOffset(p), images[p];
    forall j :: at <= j < at + USER_REGION_SIZE ==> ram[j] == if j - at < |image| then image[j - at] else 0
  }

  lemma SlotEnd(ram: nat, images: seq<seq<Byte>>, p: nat)
    requires ImagesFit(ram, images) && p < |images|
    ensures SlotOffset(p) + USER_REGION_SIZE <= ram
  {
    assert (p + 1) * USER_PHYS_STRIDE <= |images| * USER_PHYS_STRIDE;
  }

  method Kmemset(ram: array<Byte>, at: nat, v: Byte, n: nat)
    requires at + n <= ram.Length
    modifies ram
    ensures forall j :: 0 <= j < ram.Length ==> ram[j] == if at <= j < at + n then v else old(ram[j])
  {
    for i := 0 to n
      invariant forall j :: 0 <= j < ram.Length ==> ram[j] == if at <= j < at + i then v else old(ram[j])
    {
      ram[at + i] := v;
    }
  }

  method Kmemcpy(ram: array<Byte>, at: nat, src: seq<Byte>)
    requires at + |src| <= ram.Length
    modifies ram
    ensures forall j :: 0 <= j < ram.Length ==> ram[j] == if at <= j < at + |src| then src[j - at] else old(ram[j])
  {
    for i := 0 to |src|
      invariant forall j :: 0 <= j < ram.Length ==> ram[j] == if at <= j < at + i then src[j - at] else old(ram[j])
    {
      ram[at + i] := src[i];
    }
  }

  /** Filling slot p disturbs no other slot, and nothing below the slots. */
  method LoadImage(ram: array<Byte>, images: seq<seq<Byte>>, p: nat)
    requires ImagesFit(ram.Length, images) && p < |images|
    modifies ram
    ensures Loaded(ram[..], images, p)
    ensures forall q :: 0 <= q < p && Loaded(old(ram[..]), images, q) ==> Loaded(ram[..], images, q)
    ensures forall j :: 0 <= j < ram.Length && j < SLOT_OFFSET ==> ram[j] == old(ram[j])
  {
    SlotEnd(ram.Length, images, p);
    ghost var was := ram[..];
    Kmemset(ram, SlotOffset(p), 0, USER_REGION_SIZE);
    Kmemcpy(ram, SlotOffset(p), images[p]);
    forall q | 0 <= q < p && Loaded(was, images, q)
      ensures Loaded(ram[..], images, q)
    {
      SlotEnd(ram.Length, images, q);
      assert (q + 1) * USER_PHYS_STRIDE <= p * USER_PHYS_STRIDE;
    }
  }

  datatype Pcb = Pcb(pid: nat, name: Option<string>, pgdPa: Word, entry: Word, physBase: Word, imgSize: nat)

  /** What process_init_all finds: one image, one name and one table per process, the
      tables distinct, the boot table built, the slots inside RAM. */
  ghost predicate InitOk(l: Layout, names: seq<Option<string>>, images: seq<seq<Byte>>, boot: array<Word>,
                         pgds: seq<array<Word>>, pgdPa: seq<Word>, ram: array<Byte>, pcbs: array<Pcb>)
    reads boot
  {
    && SlotsFit(l, |images|) && ImagesFit(ram.Length, images)
    && |names| == |pgds| == |pgdPa| == pcbs.Length == |images|
    && boot.Length == PGD_ENTRIES && boot[..] == BootTable(l)
    && (forall p :: 0 <= p < |pgds| ==> pgds[p].Length == PGD_ENTRIES && pgds[p] != boot)
    && forall p, q :: 0 <= p < q < |pgds| ==> pgds[p] != pgds[q]
  }

  ghost predicate Initialised(l: Layout, names: seq<Option<string>>, images: seq<seq<Byte>>, pgd: seq<Word>,
                              pgdPa: Word, ram: seq<Byte>, pcb: Pcb, p: nat)
    requires SlotsFit(l, |images|) && ImagesFit(|ram|, images) && p < |images| == |names|
  {
    && Loaded(ram, images, p)
    && pgd == TableOf(l, |images|, p)
    && pcb == Pcb(p, names[p], pgdPa, USER_VIRT_BASE, SlotBase(l, |images|, p), |images[p]|)
  }

  /** process_init_all: every process gets its block, its image in its own slot, and its
      own translation table; nothing below the slots changes. */
  method ProcessInitAll(l: Layout, names: seq<Option<string>>, images: seq<seq<Byte>>, boot: array<Word>,
                        pgds: seq<array<Word>>, pgdPa: seq<Word>, ram: array<Byte>, pcbs: array<Pcb>)
    requires InitOk(l, names, images, boot, pgds, pgdPa, ram, pcbs)
    modifies ram, pcbs, pgds
    ensures forall p :: 0 <= p < |images| ==>
              Initialised(l, names, images, pgds[p][..], pgdPa[p], ram[..], pcbs[p], p)
    ensures forall p :: 0 <= p < |images| ==>
              && pcbs[p].pid == p && pcbs[p].name == names[p] && pcbs[p].pgdPa == pgdPa[p]
              && pcbs[p].entry == 0x4000_0000 && pcbs[p].imgSize == |images[p]|
              && pcbs[p].physBase == l.ramBase + 0x20_0000 + p * 0x10_0000
    ensures forall j :: 0 <= j < ram.Length && j < SLOT_OFFSET ==> ram[j] == old(ram[j])
  {
    for p := 0 to |images|
      invariant boot[..] == BootTable(l)
      invariant forall q :: 0 <= q < p ==>
        Initialised(l, names, images, pgds[q][..], pgdPa[q], ram[..], pcbs[q], q)
      invariant forall j :: 0 <= j < ram.Length && j < SLOT_OFFSET ==> ram[j] == old(ram[j])
    {
      var base := SlotBase(l, |images|, p);
      pcbs[p] := Pcb(p, names[p], pgdPa[p], USER_VIRT_BASE, base, |images[p]|);
      LoadImage(ram, images, p);
      PgtableBuildForProc(l, boot, pgds[p], base);
    }
  }

  /** What user code of process p reads at its window is its own program. */
  lemma UserSeesOwnImage(l: Layout, ram: seq<Byte>, images: seq<seq<Byte>>, p: nat, i: nat)
    requires SlotsFit(l, |images|) && ImagesFit(|ram|, images) && |ram| == l.ramSize && p < |images|
    requires Loaded(ram, images, p) && i < |images[p]|
    ensures USER_VIRT_BASE + i < WORD
    ensures var pa := Translate(TableOf(l, |images|, p), USER_VIRT_BASE + i, true, false);
            pa.Some? && l.ramBase <= pa.value < l.ramBase + |ram| && ram[pa.value - l.ramBase] == images[p][i]
  {
    SlotEnd(|ram|, images, p);
    assert |images[p]| <= USER_REGION_SIZE;
    UserReachesOwnSlot(l, |images|, p, USER_VIRT_BASE + i, false);
    assert ram[SlotOffset(p) + i] == images[p][i];
  }
}
