// Machine-level constants and address arithmetic: include/arch/x86/mach.h,
// include/arch/x86/memlayout.h and include/kernel/mm/mmap.h.

module Machine {
  datatype Option<T> = None | Some(value: T)

  /** A 32-bit unsigned value (`uint_t`), an address or a page-table entry. */
  type Word = x: int | 0 <= x < 0x1_0000_0000

  /** One byte of memory. */
  type Byte = x: int | 0 <= x < 0x100

  const PGSIZE: int := 4096
  const ENTRIES: int := 1024
  const KERNBASE: int := 0xC000_0000
  const KERNSIZE: int := 0x4000_0000
  const MEM_NORMAL: int := 0x3800_0000
  const NORMAL_PAGES: int := MEM_NORMAL / PGSIZE
  const ADDRESS_SPACE: int := 0x1_0000_0000

  const PTE_P: int := 1
  const PTE_W: int := 2
  const PTE_U: int := 4

  function Pdx(va: Word): (d: int)
    ensures 0 <= d < ENTRIES
  {
    va / 0x40_0000
  }

  function Ptx(va: Word): (t: int)
    ensures 0 <= t < ENTRIES
  {
    (va / 0x1000) % 0x400
  }

  /** The frame (or page) number an address lies in. */
  function PageOf(a: Word): (p: int)
    ensures 0 <= p < 0x10_0000
  {
    a / PGSIZE
  }

  function PageDown(a: Word): (r: Word)
    ensures r <= a < r + PGSIZE && r % PGSIZE == 0
  {
    a / PGSIZE * PGSIZE
  }

  /** `PGROUNDUP`, with the addition taken in 32 bits. */
  function PageUp(a: Word): (r: Word)
    ensures r % PGSIZE == 0
    ensures a + PGSIZE <= ADDRESS_SPACE ==> a <= r < a + PGSIZE
  {
    (a + PGSIZE - 1) % ADDRESS_SPACE / PGSIZE * PGSIZE
  }

  /** P2V and V2P are additions and subtractions in 32-bit arithmetic. */
  function P2V(pa: Word): Word {
    (pa + KERNBASE) % ADDRESS_SPACE
  }

  function V2P(va: Word): Word {
    (va - KERNBASE) % ADDRESS_SPACE
  }

  /** A page number is fixed by its directory and table indices. */
  lemma PageIndices(va: Word)
    ensures PageOf(va) == Pdx(va) * ENTRIES + Ptx(va)
  {
  }

  /** Shift-and-mask code and the division form used above agree on every 32-bit value. */
  lemma ShiftMaskIsDivision(a: bv32)
    ensures (a >> 22) & 0x3FF == a / 0x40_0000
    ensures (a >> 12) & 0x3FF == (a / 0x1000) % 0x400
    ensures a & 0xFFFF_F000 == (a / 0x1000) * 0x1000
    ensures (a + 0xFFF) & !0xFFF == ((a + 0xFFF) / 0x1000) * 0x1000
  {
  }

  /** OR-ing the flag bits into a masked frame address is addition, and masking takes them off again. */
  lemma FlagsDoNotReachTheFrame(pa: bv32, user: bool)
    ensures var flags: bv32 := if user then 4 else 0;
      var e := (pa & 0xFFFF_F000) | 1 | 2 | flags;
      && e == (pa & 0xFFFF_F000) + 3 + flags
      && e & 0xFFFF_F000 == pa & 0xFFFF_F000
      && e & 1 == 1
  {
  }
}
