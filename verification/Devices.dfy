/** The kernel's own mappings: peripherals are reached at their physical addresses through
    every table, by the kernel only, and RAM at its physical addresses only until the
    identity map is dropped. */
module Devices {
  import opened Tasks
  import opened UserPointer
  import opened PageTable
  import opened AddressSpace

  /** Section j of this region. */
  predicate Covers(r: Region, j: nat) {
    r.base / MB <= j < r.base / MB + r.sections
  }

  ghost predicate RegionsOk(regions: seq<Region>) {
    && (forall i :: 0 <= i < |regions| ==>
          regions[i].base % MB == 0 && regions[i].base + regions[i].sections * MB <= VA_KERNEL_BASE)
    && forall i, j :: 0 <= i < j < |regions| ==>
         DisjointFrom(regions[i], regions[j].base, regions[j].sections * MB)
  }

  lemma DisjointSections(r: Region, q: Region, j: nat)
    requires r.base % MB == 0 && q.base % MB == 0 && DisjointFrom(r, q.base, q.sections * MB) && Covers(r, j)
    ensures !Covers(q, j)
  {
  }

  /** An entry no region covers stays as it was. */
  lemma {:induction false} Uncovered(t: Table, regions: seq<Region>, j: nat)
    requires RegionsOk(regions) && j < PGD_ENTRIES && forall i :: 0 <= i < |regions| ==> !Covers(regions[i], j)
    ensures MapPeripherals(t, regions)[j] == t[j]
  {
    if regions != [] {
      var rest, r := regions[..|regions| - 1], regions[|regions| - 1];
      Uncovered(t, rest, j);
      MapRangeAt(MapPeripherals(t, rest), r.base, r.base, r.sections, PDE_DEVICE, j);
    }
  }

  /** An entry that a region covers is that section, as device memory. */
  lemma {:induction false} Covered(t: Table, regions: seq<Region>, i: nat, j: nat)
    requires RegionsOk(regions) && i < |regions| && Covers(regions[i], j)
    ensures j < PGD_ENTRIES && MapPeripherals(t, regions)[j] == Section(j * MB, PDE_DEVICE)
  {
    var rest, r := regions[..|regions| - 1], regions[|regions| - 1];
    MapRangeAt(MapPeripherals(t, rest), r.base, r.base, r.sections, PDE_DEVICE, j);
    if i < |rest| {
      Covered(t, rest, i, j);
      DisjointSections(regions[i], r, j);
    } else {
      SectionAddress(r.base, j);
    }
  }

  /** Section j lies j - base / MB sections after the aligned address base. */
  lemma SectionAddress(base: Word, j: nat)
    requires base % MB == 0 && base / MB <= j < PGD_ENTRIES
    ensures (base + (j - base / MB) * MB) % WORD == j * MB < WORD
  {
    assert base == base / MB * MB;
    assert base + (j - base / MB) * MB == j * MB;
  }

  /** The boot table at a section of a peripheral window. */
  lemma BootDevice(l: Layout, i: nat, j: nat)
    requires l.Apart() && i < |l.periph| && Covers(l.periph[i], j)
    ensures j < PGD_ENTRIES && BootTable(l)[j] == Section(j * MB, PDE_DEVICE)
    ensures !InIdentity(l, j) && j != USER_INDEX
  {
    var n := l.ramSize / MB;
    Covered(MapRange(MapRange(Blank(), l.ramBase, l.ramBase, n, PDE_KERNEL_MEM),
                     VA_KERNEL_BASE, l.ramBase, n, PDE_KERNEL_MEM), l.periph, i, j);
    NotRam(l, l.periph[i], j);
  }

  lemma NotRam(l: Layout, r: Region, j: nat)
    requires l.Valid() && r.base % MB == 0
    requires DisjointFrom(r, l.ramBase, l.ramSize) && DisjointFrom(r, USER_VIRT_BASE, USER_REGION_SIZE)
    ensures Covers(r, j) ==> !InIdentity(l, j) && j != USER_INDEX
  {
  }

  /** The boot table at a section of RAM. */
  lemma BootRam(l: Layout, j: nat)
    requires l.Apart() && InIdentity(l, j)
    ensures j < PGD_ENTRIES && BootTable(l)[j] == Section(j * MB, PDE_KERNEL_MEM)
  {
    var n := l.ramSize / MB;
    var ident := MapRange(Blank(), l.ramBase, l.ramBase, n, PDE_KERNEL_MEM);
    RamSections(l, j);
    MapRangeAt(Blank(), l.ramBase, l.ramBase, n, PDE_KERNEL_MEM, j);
    SectionAddress(l.ramBase, j);
    MapRangeAt(ident, VA_KERNEL_BASE, l.ramBase, n, PDE_KERNEL_MEM, j);
    NoDeviceInRam(l, j);
    Uncovered(MapRange(ident, VA_KERNEL_BASE, l.ramBase, n, PDE_KERNEL_MEM), l.periph, j);
  }

  lemma RamSections(l: Layout, j: nat)
    requires l.Valid() && InIdentity(l, j)
    ensures l.ramBase / MB <= j < l.ramBase / MB + l.ramSize / MB && j < VA_KERNEL_BASE / MB
    ensures l.ramBase + l.ramSize / MB * MB <= WORD && VA_KERNEL_BASE + l.ramSize / MB * MB <= WORD
  {
  }

  lemma NoDeviceInRam(l: Layout, j: nat)
    requires l.Apart() && InIdentity(l, j)
    ensures forall i :: 0 <= i < |l.periph| ==> !Covers(l.periph[i], j)
  {
    forall i | 0 <= i < |l.periph|
      ensures !Covers(l.periph[i], j)
    {
      NotRam(l, l.periph[i], j);
    }
  }

  /** va reaches itself, for the kernel only. */
  ghost predicate KernelIdentity(t: Table, va: Word) {
    && (forall write: bool :: Translate(t, va, false, write) == Some(va))
    && (forall write: bool :: Translate(t, va, true, write) == None)
  }

  lemma SectionIdentity(t: Table, va: Word, attrs: nat)
    requires (attrs == PDE_KERNEL_MEM || attrs == PDE_DEVICE) && t[va / MB] == Section(va / MB * MB, attrs)
    ensures KernelIdentity(t, va)
  {
    Decode(va / MB * MB, attrs);
  }

  /** Every byte of a peripheral window is reached by the kernel at its own physical
      address, read and write, and never by user code: in the boot table, before and after
      the identity map is dropped, and in the table of every process. */
  lemma DevicesReachable(l: Layout, procs: nat, p: nat, i: nat, va: Word)
    requires l.Apart() && SlotsFit(l, procs) && p < procs && i < |l.periph|
    requires l.periph[i].base <= va < l.periph[i].base + l.periph[i].sections * 0x10_0000
    ensures KernelIdentity(BootTable(l), va) && KernelIdentity(DropIdentity(l, BootTable(l)), va)
    ensures KernelIdentity(TableOf(l, procs, p), va)
  {
    BootDevice(l, i, va / MB);
    SectionIdentity(BootTable(l), va, PDE_DEVICE);
    SectionIdentity(DropIdentity(l, BootTable(l)), va, PDE_DEVICE);
    SectionIdentity(TableOf(l, procs, p), va, PDE_DEVICE);
  }

  /** Every byte of RAM is reached by the kernel at its own physical address in the boot
      table, and no longer once the identity map is dropped. */
  lemma RamIdentity(l: Layout, va: Word)
    requires l.Apart() && l.ramBase <= va < l.ramBase + l.ramSize
    ensures KernelIdentity(BootTable(l), va)
    ensures forall user: bool, write: bool :: Translate(DropIdentity(l, BootTable(l)), va, user, write) == None
  {
    assert InIdentity(l, va / MB);
    BootRam(l, va / MB);
    SectionIdentity(BootTable(l), va, PDE_KERNEL_MEM);
  }

  /** Code runs from RAM and from user memory, never from a peripheral window. */
  predicate Executable(d: Word) {
    d / 16 % 2 == 0
  }

  lemma DevicesNotExecutable(l: Layout, i: nat, va: Word, x: nat)
    requires l.Apart() && i < |l.periph| && x < l.ramSize
    requires l.periph[i].base <= va < l.periph[i].base + l.periph[i].sections * 0x10_0000
    ensures !Executable(BootTable(l)[va / MB])
    ensures 0xC000_0000 + x < 0x1_0000_0000 && Executable(BootTable(l)[(0xC000_0000 + x) / MB])
  {
    BootDevice(l, i, va / MB);
    XnBit(va / MB * MB, PDE_DEVICE);
    AliasEntry(l, x / MB);
    assert (0xC000_0000 + x) / MB == 0xC00 + x / MB;
    XnBit(l.ramBase + x / MB * MB, PDE_KERNEL_MEM);
  }

  lemma XnBit(pa: nat, attrs: nat)
    requires pa < WORD && attrs < MB
    ensures Executable(Section(pa, attrs)) <==> attrs / 16 % 2 == 0
  {
    var hi := pa / MB;
    assert Section(pa, attrs) == hi * MB + attrs;
    Field(hi, attrs, 16, 2, hi * 0x1_0000, hi * 0x8000);
  }

  /** The console, the tick timer and the interrupt controller of both boards answer at
      their addresses. */
  lemma BoardDevices(va: Word)
    ensures va in {0x1000_9000, 0x1001_1000, 0x1E00_0000, 0x1E00_1000} ==> KernelIdentity(BootTable(QEMU), va)
    ensures va in {0x44E0_0000, 0x44E0_9000, 0x4804_0000, 0x4820_0000} ==> KernelIdentity(BootTable(BBB), va)
  {
    BoardsValid();
    if va in {0x1000_9000, 0x1001_1000} {
      DevicesReachable(QEMU, 1, 0, 0, va);
    } else if va in {0x1E00_0000, 0x1E00_1000} {
      DevicesReachable(QEMU, 1, 0, 1, va);
    } else if va in {0x44E0_0000, 0x44E0_9000} {
      DevicesReachable(BBB, 1, 0, 0, va);
    } else if va in {0x4804_0000, 0x4820_0000} {
      DevicesReachable(BBB, 1, 0, 1, va);
    }
  }
}
