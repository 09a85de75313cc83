/** The user-pointer check of kernel/syscall/syscall.c and the user window it guards
    (kernel/include/platform.h). */
module UserPointer {
  import opened Tasks

  const USER_VIRT_BASE := 0x4000_0000
  const USER_REGION_SIZE := 0x0010_0000
  const USER_STACK_TOP := USER_VIRT_BASE + USER_REGION_SIZE

  predicate InWindow(va: Word) {
    USER_VIRT_BASE <= va < USER_STACK_TOP
  }

  /** The check as the kernel computes it, with 32-bit wrapping addition. */
  predicate ValidUserPtr(addr: Word, len: Word) {
    var end := (addr + len) % WORD;
    && end >= addr
    && addr >= USER_VIRT_BASE
    && end <= USER_VIRT_BASE + USER_REGION_SIZE
  }

  /** Wrapping never fools the check: it accepts exactly the ranges that lie inside
      the window as mathematical intervals. */
  lemma ValidUserPtrIsContainment(addr: Word, len: Word)
    ensures ValidUserPtr(addr, len) <==>
              USER_VIRT_BASE <= addr && addr + len <= USER_VIRT_BASE + USER_REGION_SIZE
    ensures ValidUserPtr(addr, len) <==> 0x4000_0000 <= addr && addr + len <= 0x4010_0000
  {
    if addr + len >= WORD {
      assert (addr + len) % WORD == addr + len - WORD;
    } else {
      assert (addr + len) % WORD == addr + len;
    }
  }
}
