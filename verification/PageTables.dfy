// The two-level page tables of mm/mmap.c as words in the kernel's linear memory
// (Intel SDM volume 3A, section 4.3): the invariant, and what a walk of them finds.

module PageTables {
  import opened Machine

  const KERN_PDX: int := 768          // PDX(KERNBASE)
  const HIGH_PDX: int := 992          // PDX(KERNBASE + MEM_NORMAL)

  /** Words of physical memory below MEM_NORMAL, the part the kernel maps linearly. */
  type Memory = m: seq<Word> | |m| == NORMAL_PAGES * ENTRIES ghost witness seq(NORMAL_PAGES * ENTRIES, _ => 0)

  /** Entry i of the table or directory in frame f. */
  function Ent(m: Memory, f: int, i: int): Word
    requires 0 <= f < NORMAL_PAGES && 0 <= i < ENTRIES
  {
    m[f * ENTRIES + i]
  }

  function FrameIn(e: Word): int {
    e / PGSIZE
  }

  predicate Present(e: Word) {
    e % 2 == 1
  }

  /** What the processor finds for va in the directory in frame d: the page-table entry, if present. */
  function Walk(m: Memory, d: int, va: Word): Option<Word>
    requires 0 <= d < NORMAL_PAGES
  {
    var pde := Ent(m, d, Pdx(va));
    if !Present(pde) || FrameIn(pde) >= NORMAL_PAGES then None
    else
      var pte := Ent(m, FrameIn(pde), Ptx(va));
      if Present(pte) then Some(pte) else None
  }

  /** kpgdir's frame, the first frame of kpgtbl, the directories and tables made so far, and how many
      pages from the bottom kvm_alloc_page has handed out or reserved. */
  datatype Layout = Layout(kdir: int, ktbl: int, dirs: set<int>, tables: set<int>, used: int)

  /** A directory index outside the linear map. */
  predicate Free(i: int) {
    0 <= i < KERN_PDX || HIGH_PDX <= i < ENTRIES
  }

  ghost predicate FramesOk(y: Layout) {
    && 0 < y.ktbl && y.ktbl + ENTRIES <= y.used <= NORMAL_PAGES
    && y.kdir in y.dirs
    && (forall d :: d in y.dirs ==> 0 < d < y.used && !(y.ktbl <= d < y.ktbl + ENTRIES) && d !in y.tables)
    && (forall t :: t in y.tables ==> 0 < t < y.used && !(y.ktbl <= t < y.ktbl + ENTRIES))
  }

  /** Directory entries: kpgtbl in the linear range; elsewhere nothing, or a table of ours. */
  ghost predicate EntriesOk(m: Memory, y: Layout)
    requires FramesOk(y)
  {
    forall d, i :: d in y.dirs && 0 <= i < ENTRIES ==>
      var e := Ent(m, d, i);
      if KERN_PDX <= i < HIGH_PDX then e == (y.ktbl + i) * PGSIZE + 3
      else e == 0 || (FrameIn(e) in y.tables && (e % PGSIZE == 3 || e % PGSIZE == 7))
  }

  /** Above the linear map a directory has kpgdir's entry, or still none. */
  ghost predicate HighOk(m: Memory, y: Layout)
    requires FramesOk(y)
  {
    forall d, i :: d in y.dirs && HIGH_PDX <= i < ENTRIES ==> Ent(m, d, i) == 0 || Ent(m, d, i) == Ent(m, y.kdir, i)
  }

  /** No table serves two indices, or two directories below KERNBASE. */
  ghost predicate Unshared(m: Memory, y: Layout)
    requires FramesOk(y)
  {
    forall d, i, c, j :: d in y.dirs && c in y.dirs && Free(i) && Free(j)
      && Ent(m, d, i) != 0 && Ent(m, c, j) != 0 && FrameIn(Ent(m, d, i)) == FrameIn(Ent(m, c, j))
      ==> i == j && (d == c || HIGH_PDX <= i)
  }

  /** kpgtbl's entry for page p of the linear range. */
  function LinearEntry(m: Memory, ktbl: int, p: int): Word
    requires 0 < ktbl && ktbl + ENTRIES <= NORMAL_PAGES && 0 <= p < NORMAL_PAGES
  {
    Ent(m, ktbl + KERN_PDX + p / ENTRIES, p % ENTRIES)
  }

  /** How directories and tables hang together, whatever the slots of the tables hold. */
  ghost predicate TablesOk(m: Memory, y: Layout) {
    FramesOk(y) && EntriesOk(m, y) && HighOk(m, y) && Unshared(m, y)
  }

  /** Page p of the linear range is mapped to frame p, writable. */
  ghost predicate Home(m: Memory, y: Layout, p: int)
    requires FramesOk(y) && 0 <= p < NORMAL_PAGES
  {
    LinearEntry(m, y.ktbl, p) == p * PGSIZE + 3
  }

  /** The linear map as kmap_init leaves it. */
  ghost predicate LinearOk(m: Memory, y: Layout)
    requires FramesOk(y)
  {
    forall p :: 0 <= p < NORMAL_PAGES ==> Home(m, y, p)
  }

  /** The kernel's own pages, and the next k it will be given, are at home: a store at P2V of such a frame
      reaches the frame. */
  ghost predicate Intact(m: Memory, y: Layout, k: int)
    requires FramesOk(y)
  {
    forall p :: 0 <= p < NORMAL_PAGES && p < y.used + k ==> Home(m, y, p)
  }

  /** The two memories agree on the linear map. */
  ghost predicate SameLinear(m: Memory, n: Memory, y: Layout)
    requires FramesOk(y)
  {
    forall p :: 0 <= p < NORMAL_PAGES ==> LinearEntry(n, y.ktbl, p) == LinearEntry(m, y.ktbl, p)
  }

  /** A frame that holds page-table entries: a table made by mmap_do_map, or one of kpgtbl's. */
  predicate HoldsSlots(y: Layout, t: int) {
    t in y.tables || y.ktbl + KERN_PDX <= t < y.ktbl + HIGH_PDX
  }

  /** va lies in the range that kmap_init maps linearly. */
  predicate Linear(va: Word) {
    KERNBASE <= va < KERNBASE + MEM_NORMAL
  }

  /** The page of the linear range that va lies in. */
  function LinearPage(va: Word): (p: int)
    requires Linear(va)
    ensures 0 <= p < NORMAL_PAGES
  {
    (va - KERNBASE) / PGSIZE
  }

  // ---- Storing a page-table entry ----

  /** The table that directory d uses for va, when it has one. */
  function TableFor(m: Memory, d: int, va: Word): int
    requires 0 <= d < NORMAL_PAGES
  {
    FrameIn(Ent(m, d, Pdx(va)))
  }

  function Store(m: Memory, f: int, i: int, v: Word): Memory
    requires 0 <= f < NORMAL_PAGES && 0 <= i < ENTRIES
  {
    m[f * ENTRIES + i := v]
  }

  lemma StoreRead(m: Memory, f: int, i: int, v: Word, g: int, j: int)
    requires 0 <= f < NORMAL_PAGES && 0 <= i < ENTRIES && 0 <= g < NORMAL_PAGES && 0 <= j < ENTRIES
    ensures Ent(Store(m, f, i, v), g, j) == if f == g && i == j then v else Ent(m, g, j)
  {
  }

  /** Writing into a slot leaves every directory alone, and of the linear map all but that slot. */
  lemma StorePteKeeps(m: Memory, y: Layout, t: int, j: int, v: Word)
    requires TablesOk(m, y) && HoldsSlots(y, t) && 0 <= j < ENTRIES
    ensures 0 <= t < NORMAL_PAGES
    ensures TablesOk(Store(m, t, j, v), y)
    ensures forall d, i :: d in y.dirs && 0 <= i < ENTRIES ==> Ent(Store(m, t, j, v), d, i) == Ent(m, d, i)
    ensures forall p :: 0 <= p < NORMAL_PAGES ==>
      LinearEntry(Store(m, t, j, v), y.ktbl, p)
        == if t == y.ktbl + KERN_PDX + p / ENTRIES && j == p % ENTRIES then v else LinearEntry(m, y.ktbl, p)
  {
    hide Ent, Store;
    var n := Store(m, t, j, v);
    forall d, i | d in y.dirs && 0 <= i < ENTRIES
      ensures Ent(n, d, i) == Ent(m, d, i)
    {
      StoreRead(m, t, j, v, d, i);
    }
    forall p | 0 <= p < NORMAL_PAGES
      ensures LinearEntry(n, y.ktbl, p)
        == if t == y.ktbl + KERN_PDX + p / ENTRIES && j == p % ENTRIES then v else LinearEntry(m, y.ktbl, p)
    {
      StoreRead(m, t, j, v, y.ktbl + KERN_PDX + p / ENTRIES, p % ENTRIES);
    }
    DirsDecide(m, n, y);
  }

  /** The structure depends on the directories alone. */
  lemma DirsDecide(m: Memory, n: Memory, y: Layout)
    requires TablesOk(m, y)
    requires forall d, i :: d in y.dirs && 0 <= i < ENTRIES ==> Ent(n, d, i) == Ent(m, d, i)
    ensures TablesOk(n, y)
  {
    hide Ent;
  }

  /** After the store, exactly the addresses served by that slot of that table walk to the new entry. */
  lemma StorePteWalk(m: Memory, y: Layout, t: int, j: int, v: Word, c: int, a: Word)
    requires TablesOk(m, y) && HoldsSlots(y, t) && 0 <= j < ENTRIES && c in y.dirs
    ensures 0 <= t < NORMAL_PAGES
    ensures Walk(Store(m, t, j, v), c, a) ==
      if Ent(m, c, Pdx(a)) != 0 && TableFor(m, c, a) == t && Ptx(a) == j
      then (if Present(v) then Some(v) else None)
      else Walk(m, c, a)
  {
    hide Unshared, HighOk, Ent, Store;
    StoreRead(m, t, j, v, c, Pdx(a));
    EntryShape(m, y, c, Pdx(a));
    if Ent(m, c, Pdx(a)) != 0 {
      StoreRead(m, t, j, v, TableFor(m, c, a), Ptx(a));
    }
  }

  /** A directory entry is zero, or present and naming a table: one of ours, or kpgtbl's for its index. */
  lemma EntryShape(m: Memory, y: Layout, d: int, i: int)
    requires FramesOk(y) && EntriesOk(m, y) && d in y.dirs && 0 <= i < ENTRIES
    ensures var e := Ent(m, d, i);
      && (e == 0 <==> FrameIn(e) == 0)
      && (e != 0 <==> Present(e))
      && 0 <= FrameIn(e) < NORMAL_PAGES
      && (e != 0 && Free(i) ==> FrameIn(e) in y.tables)
      && (!Free(i) ==> e != 0 && FrameIn(e) == y.ktbl + i)
      && (e != 0 ==> HoldsSlots(y, FrameIn(e)))
  {
    hide Ent;
    var e := Ent(m, d, i);
    if !Free(i) {
      HomeEntry(y.ktbl + i);
    } else if e != 0 {
      TableEntry(e, FrameIn(e));
    }
    hide EntriesOk;
    FrameZero(e);
  }

  lemma FrameZero(e: Word)
    ensures 0 <= FrameIn(e) && (e % PGSIZE == 0 ==> (e == 0 <==> FrameIn(e) == 0))
  {
  }

  lemma TableEntry(e: Word, t: int)
    requires t == FrameIn(e) && 0 < t && (e % PGSIZE == 3 || e % PGSIZE == 7)
    ensures Present(e) && e != 0
  {
  }

  /** A call may name va in directory d: a user page of any directory, or a kernel page of kpgdir. */
  predicate Mappable(y: Layout, d: int, va: Word) {
    d in y.dirs && (KERNBASE <= va ==> d == y.kdir)
  }

  /** m and n translate alike everywhere, except at the page of va in d and in what shares it. */
  ghost predicate SameElsewhere(m: Memory, n: Memory, y: Layout, d: int, va: Word)
    requires FramesOk(y)
  {
    forall c, a: Word :: c in y.dirs && (PageOf(a) != PageOf(va) || (c != d && va < KERNBASE)) ==> Walk(n, c, a) == Walk(m, c, a)
  }

  lemma SameItself(m: Memory, y: Layout, d: int, va: Word)
    requires FramesOk(y)
    ensures SameElsewhere(m, m, y, d, va)
  {
  }

  /** An unmap, then a table added, then a store: still the same everywhere else. */
  lemma SameThrough(m: Memory, n: Memory, p: Memory, q: Memory, y: Layout, z: Layout, d: int, va: Word)
    requires FramesOk(y) && FramesOk(z) && y.dirs == z.dirs
    requires SameElsewhere(m, n, y, d, va) && SameElsewhere(p, q, z, d, va)
    requires forall c, a: Word :: c in y.dirs ==> Walk(p, c, a) == Walk(n, c, a)
    ensures SameElsewhere(m, q, z, d, va)
  {
  }

  lemma ElsewhereInto(m: Memory, n: Memory, y: Layout, z: Layout, d: int, va: Word)
    requires FramesOk(y) && FramesOk(z) && y.dirs == z.dirs && SameElsewhere(m, n, y, d, va)
    ensures SameElsewhere(m, n, z, d, va)
  {
  }

  /** No directory entry has changed. */
  ghost predicate SameDirs(m: Memory, n: Memory, y: Layout)
    requires FramesOk(y)
  {
    forall d, i :: d in y.dirs && 0 <= i < ENTRIES ==> Ent(n, d, i) == Ent(m, d, i)
  }

  /** The linear map after the slot of va was set to v: it has changed only if va lies in it, and there only. */
  ghost predicate LinearSet(m: Memory, n: Memory, y: Layout, va: Word, v: Word)
    requires FramesOk(y)
  {
    forall p :: 0 <= p < NORMAL_PAGES ==>
      LinearEntry(n, y.ktbl, p) == if Linear(va) && p == LinearPage(va) then v else LinearEntry(m, y.ktbl, p)
  }

  /** Storing into the slot of va changes the translation of that page and of no other. */
  lemma SlotStored(m: Memory, y: Layout, d: int, va: Word, v: Word)
    requires TablesOk(m, y) && Mappable(y, d, va) && Ent(m, d, Pdx(va)) != 0
    ensures HoldsSlots(y, TableFor(m, d, va)) && 0 <= TableFor(m, d, va) < NORMAL_PAGES
    ensures var n := Store(m, TableFor(m, d, va), Ptx(va), v);
      && TablesOk(n, y)
      && Walk(n, d, va) == (if Present(v) then Some(v) else None)
      && SameElsewhere(m, n, y, d, va)
      && LinearSet(m, n, y, va, v)
      && SameDirs(m, n, y)
  {
    hide Ent, Store, HighOk, Walk;
    EntryShape(m, y, d, Pdx(va));
    var t, j := TableFor(m, d, va), Ptx(va);
    StorePteKeeps(m, y, t, j, v);
    StorePteWalk(m, y, t, j, v, d, va);
    var n := Store(m, t, j, v);
    forall c, a: Word | c in y.dirs && (PageOf(a) != PageOf(va) || (c != d && va < KERNBASE))
      ensures Walk(n, c, a) == Walk(m, c, a)
    {
      StorePteWalk(m, y, t, j, v, c, a);
      SlotServesOnePage(m, y, d, va, c, a);
    }
    forall p | 0 <= p < NORMAL_PAGES
      ensures LinearEntry(n, y.ktbl, p) == if Linear(va) && p == LinearPage(va) then v else LinearEntry(m, y.ktbl, p)
    {
      SlotOfPage(y, va, t, p);
    }
  }

  /** Two addresses served by the same slot are in the same page, and below KERNBASE in the same directory. */
  lemma SlotServesOnePage(m: Memory, y: Layout, d: int, va: Word, c: int, a: Word)
    requires TablesOk(m, y) && d in y.dirs && c in y.dirs
    requires PageOf(a) != PageOf(va) || (c != d && va < KERNBASE)
    ensures !(Ent(m, d, Pdx(va)) != 0 && Ent(m, c, Pdx(a)) != 0 && TableFor(m, c, a) == TableFor(m, d, va) && Ptx(a) == Ptx(va))
  {
    hide Ent, HighOk, EntriesOk;
    EntryShape(m, y, d, Pdx(va));
    EntryShape(m, y, c, Pdx(a));
    PageIndices(a);
    PageIndices(va);
  }

  /** Which page of the linear range a slot of va's table serves. */
  lemma SlotOfPage(y: Layout, va: Word, t: int, p: int)
    requires FramesOk(y) && 0 <= p < NORMAL_PAGES
    requires if Free(Pdx(va)) then t in y.tables else t == y.ktbl + Pdx(va)
    ensures (t == y.ktbl + KERN_PDX + p / ENTRIES && Ptx(va) == p % ENTRIES) <==> (Linear(va) && p == LinearPage(va))
  {
    LinearRange(va);
  }

  lemma LinearRange(va: Word)
    ensures Linear(va) <==> !Free(Pdx(va))
    ensures Linear(va) ==> LinearPage(va) == (Pdx(va) - KERN_PDX) * ENTRIES + Ptx(va)
  {
    PageIndices(va);
  }

  // ---- Pages not handed out yet ----

  /** The frames from `used` on are as they were. */
  ghost predicate FreshKept(m: Memory, n: Memory, used: int)
    requires 0 <= used
  {
    forall f, i :: used <= f < NORMAL_PAGES && 0 <= i < ENTRIES ==> Ent(n, f, i) == Ent(m, f, i)
  }

  lemma StoreFresh(m: Memory, t: int, j: int, v: Word, used: int)
    requires 0 <= t < used && t < NORMAL_PAGES && 0 <= j < ENTRIES
    ensures FreshKept(m, Store(m, t, j, v), used)
  {
    hide Ent, Store;
    forall f, i | used <= f < NORMAL_PAGES && 0 <= i < ENTRIES
      ensures Ent(Store(m, t, j, v), f, i) == Ent(m, f, i)
    {
      StoreRead(m, t, j, v, f, i);
    }
  }

  lemma FreshTwice(m: Memory, n: Memory, p: Memory, used: int, more: int)
    requires 0 <= used <= more && FreshKept(m, n, used) && FreshKept(n, p, more)
    ensures FreshKept(m, p, more)
  {
    hide Ent;
  }

  lemma FreshSame(m: Memory, used: int)
    requires 0 <= used
    ensures FreshKept(m, m, used)
  {
  }

  lemma FreshLater(m: Memory, n: Memory, used: int, more: int)
    requires 0 <= used <= more && FreshKept(m, n, used)
    ensures FreshKept(m, n, more)
  {
    hide Ent;
  }

  // ---- Installing a fresh table ----

  /** n is m with the page of table t cleared and entry i of directory d set to e. */
  ghost predicate Installed(m: Memory, n: Memory, d: int, i: int, t: int, e: Word)
    requires 0 <= d < NORMAL_PAGES && 0 <= i < ENTRIES && 0 <= t < NORMAL_PAGES
  {
    && Ent(n, d, i) == e
    && (forall j :: 0 <= j < ENTRIES ==> Ent(n, t, j) == 0)
    && (forall f, j :: 0 <= f < NORMAL_PAGES && 0 <= j < ENTRIES && f != t && !(f == d && i == j) ==> Ent(n, f, j) == Ent(m, f, j))
  }

  lemma InstallFresh(m: Memory, n: Memory, y: Layout, d: int, i: int, e: Word)
    requires FramesOk(y) && y.used < NORMAL_PAGES && d in y.dirs && 0 <= i < ENTRIES && Installed(m, n, d, i, y.used, e)
    ensures FreshKept(m, n, y.used + 1)
  {
    hide Ent;
  }

  /** A page just handed out, used as a table for an empty entry. */
  lemma InstallKeeps(m: Memory, n: Memory, y: Layout, d: int, i: int, e: Word)
    requires TablesOk(m, y) && y.used < NORMAL_PAGES && d in y.dirs && Free(i) && Ent(m, d, i) == 0
    requires HIGH_PDX <= i ==> d == y.kdir
    requires (e % PGSIZE == 3 || e % PGSIZE == 7) && FrameIn(e) == y.used
    requires Installed(m, n, d, i, y.used, e)
    ensures TablesOk(n, y.(tables := y.tables + {y.used}, used := y.used + 1))
    ensures SameLinear(m, n, y)
    ensures forall c, k :: c in y.dirs && 0 <= k < ENTRIES ==> Ent(n, c, k) == if c == d && k == i then e else Ent(m, c, k)
  {
    var z := y.(tables := y.tables + {y.used}, used := y.used + 1);
    hide Ent;
    forall p | 0 <= p < NORMAL_PAGES
      ensures LinearEntry(n, y.ktbl, p) == LinearEntry(m, y.ktbl, p)
    {
    }
    assert FramesOk(z);
    assert forall c, j :: c in y.dirs && 0 <= j < ENTRIES && !(c == d && j == i) ==> Ent(n, c, j) == Ent(m, c, j);
    assert EntriesOk(n, z);
    assert HighOk(n, z);
    assert Unshared(n, z);
  }

  lemma InstallWalk(m: Memory, n: Memory, y: Layout, d: int, i: int, e: Word, c: int, a: Word)
    requires TablesOk(m, y) && y.used < NORMAL_PAGES && d in y.dirs && 0 <= i < ENTRIES && Ent(m, d, i) == 0
    requires Present(e) && FrameIn(e) == y.used && Installed(m, n, d, i, y.used, e) && c in y.dirs
    ensures Walk(n, c, a) == Walk(m, c, a)
  {
    hide Ent, Unshared, HighOk;
    EntryShape(m, y, c, Pdx(a));
    if Ent(m, c, Pdx(a)) != 0 {
      TableBelow(m, y, c, Pdx(a));
    }
  }

  lemma TableBelow(m: Memory, y: Layout, d: int, i: int)
    requires FramesOk(y) && EntriesOk(m, y) && d in y.dirs && 0 <= i < ENTRIES && Ent(m, d, i) != 0
    ensures 0 < FrameIn(Ent(m, d, i)) < y.used && FrameIn(Ent(m, d, i)) !in y.dirs
  {
    hide Ent;
  }

  /** Installing a table changes no translation. */
  lemma InstallSame(m: Memory, n: Memory, y: Layout, d: int, i: int, e: Word)
    requires TablesOk(m, y) && y.used < NORMAL_PAGES && d in y.dirs && 0 <= i < ENTRIES && Ent(m, d, i) == 0
    requires Present(e) && FrameIn(e) == y.used && Installed(m, n, d, i, y.used, e)
    ensures forall c, a: Word :: c in y.dirs ==> Walk(n, c, a) == Walk(m, c, a)
  {
    forall c, a: Word | c in y.dirs
      ensures Walk(n, c, a) == Walk(m, c, a)
    {
      InstallWalk(m, n, y, d, i, e, c, a);
    }
  }

  // ---- A new directory ----

  /** n is m with page t turned into a directory by copying kpgdir's upper part; the lower part of t stays. */
  ghost predicate CopiedDir(m: Memory, n: Memory, kdir: int, t: int)
    requires 0 <= kdir < NORMAL_PAGES && 0 <= t < NORMAL_PAGES
  {
    && (forall i :: 0 <= i < KERN_PDX ==> Ent(n, t, i) == Ent(m, t, i))
    && (forall i :: KERN_PDX <= i < ENTRIES ==> Ent(n, t, i) == Ent(m, kdir, i))
    && (forall f, j :: 0 <= f < NORMAL_PAGES && 0 <= j < ENTRIES && f != t ==> Ent(n, f, j) == Ent(m, f, j))
  }

  lemma CopiedFresh(m: Memory, n: Memory, kdir: int, t: int)
    requires 0 <= kdir < NORMAL_PAGES && 0 <= t < NORMAL_PAGES && CopiedDir(m, n, kdir, t)
    ensures FreshKept(m, n, t + 1)
  {
    hide Ent;
  }

  ghost predicate EmptyBelow(m: Memory, t: int)
    requires 0 <= t < NORMAL_PAGES
  {
    forall i :: 0 <= i < KERN_PDX ==> Ent(m, t, i) == 0
  }

  /** The layout after umap_init: its page is one of the well-formed directories if its lower part was zero. */
  ghost function WithDir(m: Memory, y: Layout): Layout
    requires 0 <= y.used < NORMAL_PAGES
  {
    if EmptyBelow(m, y.used) then y.(dirs := y.dirs + {y.used}, used := y.used + 1) else y.(used := y.used + 1)
  }

  lemma CopiedDirKeeps(m: Memory, n: Memory, y: Layout)
    requires TablesOk(m, y) && y.used < NORMAL_PAGES && CopiedDir(m, n, y.kdir, y.used)
    ensures TablesOk(n, WithDir(m, y)) && SameLinear(m, n, y)
  {
    var z := WithDir(m, y);
    hide Ent;
    forall p | 0 <= p < NORMAL_PAGES
      ensures LinearEntry(n, y.ktbl, p) == LinearEntry(m, y.ktbl, p)
    {
    }
    assert FramesOk(z);
    assert forall c, j :: c in y.dirs && 0 <= j < ENTRIES ==> Ent(n, c, j) == Ent(m, c, j);
    assert EntriesOk(n, z);
    assert HighOk(n, z);
    assert Unshared(n, z);
  }

  /** The new directory sees what kpgdir sees from KERNBASE up; below, what its page happened to hold decides:
      nothing if it was empty there, and a walk of the old contents otherwise. The others are unchanged. */
  lemma CopiedDirWalk(m: Memory, n: Memory, y: Layout, c: int, a: Word)
    requires TablesOk(m, y) && y.used < NORMAL_PAGES && CopiedDir(m, n, y.kdir, y.used)
    requires c in y.dirs || c == y.used
    ensures c in y.dirs ==> c != y.used && Walk(n, c, a) == Walk(m, c, a)
    ensures c == y.used && a >= KERNBASE ==> Walk(n, c, a) == Walk(m, y.kdir, a)
    ensures c == y.used && a < KERNBASE && EmptyBelow(m, c) ==> Walk(n, c, a) == None
    ensures c == y.used && a < KERNBASE && FrameIn(Ent(m, c, Pdx(a))) != c ==> Walk(n, c, a) == Walk(m, c, a)
  {
    hide Ent, Unshared, HighOk;
    if c in y.dirs || a >= KERNBASE {
      var s := if c == y.used then y.kdir else c;
      EntryShape(m, y, s, Pdx(a));
      if Ent(m, s, Pdx(a)) != 0 {
        TableBelow(m, y, s, Pdx(a));
      }
    }
  }

  // ---- What the invariant says about translation ----

  /** The walk of a linear address, in every directory: whatever kpgtbl holds for its page. */
  lemma LinearWalk(m: Memory, y: Layout, d: int, a: Word)
    requires TablesOk(m, y) && d in y.dirs && Linear(a)
    ensures var e := LinearEntry(m, y.ktbl, LinearPage(a));
      Walk(m, d, a) == if Present(e) then Some(e) else None
  {
    hide Unshared, HighOk, Ent, EntriesOk, FramesOk, Pdx, Ptx;
    var p := LinearPage(a);
    LinearIndices(a, p);
    LinearPde(m, y, d, p);
  }

  lemma LinearIndices(a: Word, p: int)
    requires Linear(a) && p == LinearPage(a)
    ensures Pdx(a) == KERN_PDX + p / ENTRIES && Ptx(a) == p % ENTRIES
  {
    LinearRange(a);
  }

  lemma FrameIndices(pa: Word)
    requires pa < MEM_NORMAL
    ensures Linear(P2V(pa)) && LinearPage(P2V(pa)) == PageOf(pa)
    ensures Pdx(P2V(pa)) == KERN_PDX + PageOf(pa) / ENTRIES && Ptx(P2V(pa)) == PageOf(pa) % ENTRIES
    ensures 0 <= PageOf(pa) < NORMAL_PAGES && PageDown(pa) == PageOf(pa) * PGSIZE
  {
    LinearIndices(P2V(pa), PageOf(pa));
  }

  lemma LinearPde(m: Memory, y: Layout, d: int, p: int)
    requires FramesOk(y) && EntriesOk(m, y) && d in y.dirs && 0 <= p < NORMAL_PAGES
    ensures var e := Ent(m, d, KERN_PDX + p / ENTRIES);
      Present(e) && FrameIn(e) == y.ktbl + KERN_PDX + p / ENTRIES && FrameIn(e) < NORMAL_PAGES
  {
    hide Ent, FrameIn;
    var i := KERN_PDX + p / ENTRIES;
    assert KERN_PDX <= i < HIGH_PDX;
    EntryShape(m, y, d, i);
  }

  /** Every directory sees KERNBASE + pa at pa, writable, exactly where the linear map is as kmap_init left it. */
  lemma HomeWalk(m: Memory, y: Layout, d: int, pa: Word)
    requires TablesOk(m, y) && d in y.dirs && pa < MEM_NORMAL
    ensures Walk(m, d, P2V(pa)) == Some(PageDown(pa) + PTE_P + PTE_W) <==> Home(m, y, PageOf(pa))
  {
    hide TablesOk;
    assert Linear(P2V(pa)) && LinearPage(P2V(pa)) == PageOf(pa);
    LinearWalk(m, y, d, P2V(pa));
    HomeEntry(PageOf(pa));
    assert PageDown(pa) == PageOf(pa) * PGSIZE;
  }

  lemma HomeEntry(p: int)
    requires 0 <= p < NORMAL_PAGES
    ensures var e: Word := p * PGSIZE + 3; Present(e) && FrameIn(e) == p && e != 0
  {
  }

  /** From KERNBASE up a directory translates as kpgdir does wherever its own directory entry is there, and
      maps nothing where it is not; in the linear range it always is. */
  lemma KernelHalfShared(m: Memory, y: Layout, d: int, a: Word)
    requires TablesOk(m, y) && d in y.dirs && a >= KERNBASE
    ensures Walk(m, d, a) == if Ent(m, d, Pdx(a)) != 0 then Walk(m, y.kdir, a) else None
    ensures Linear(a) ==> Ent(m, d, Pdx(a)) != 0
    ensures Walk(m, y.kdir, a).Some? ==> (Walk(m, d, a).Some? <==> Ent(m, d, Pdx(a)) != 0)
  {
    hide Unshared, Ent;
    assert Pdx(a) >= KERN_PDX;
    LinearRange(a);
    EntryShape(m, y, d, Pdx(a));
    EntryShape(m, y, y.kdir, Pdx(a));
    if Pdx(a) < HIGH_PDX {
      assert Ent(m, d, Pdx(a)) == Ent(m, y.kdir, Pdx(a));
    } else {
      assert Ent(m, d, Pdx(a)) == 0 || Ent(m, d, Pdx(a)) == Ent(m, y.kdir, Pdx(a));
    }
  }

  /** In the linear range all directories translate alike. */
  ghost predicate LinearShared(m: Memory, y: Layout)
    requires FramesOk(y)
  {
    forall c, a: Word :: c in y.dirs && Linear(a) ==> Walk(m, c, a) == Walk(m, y.kdir, a)
  }

  lemma AllShareLinear(m: Memory, y: Layout)
    requires TablesOk(m, y)
    ensures LinearShared(m, y)
  {
    hide EntriesOk, HighOk, Unshared, Walk;
    forall c, a: Word | c in y.dirs && Linear(a)
      ensures Walk(m, c, a) == Walk(m, y.kdir, a)
    {
      KernelHalfShared(m, y, c, a);
    }
  }

  /** Setting page p of an intact linear map to a frame keeps it intact if and only if the frame is p's own. */
  lemma LinearFault(m: Memory, n: Memory, y: Layout, va: Word, pa: Word)
    requires FramesOk(y) && LinearOk(m, y) && Linear(va) && pa % PGSIZE == 0 && pa + 3 < ADDRESS_SPACE
    requires LinearSet(m, n, y, va, pa + 3)
    ensures LinearOk(n, y) <==> pa == LinearPage(va) * PGSIZE
  {
    var p := LinearPage(va);
    assert LinearEntry(n, y.ktbl, p) == pa + 3;
    assert forall q :: 0 <= q < NORMAL_PAGES && q != p ==> LinearEntry(n, y.ktbl, q) == LinearEntry(m, y.ktbl, q);
    assert Home(n, y, p) <==> pa == p * PGSIZE;
    assert forall q :: 0 <= q < NORMAL_PAGES && q != p ==> (Home(n, y, q) <==> Home(m, y, q));
  }

  // ---- What the processor lets a program do ----

  /** The frame an address reaches, and whether it may be written and whether user code may reach it: a right
      needs its bit, R/W or U/S, in the directory entry and in the table entry. */
  datatype Access = Access(frame: int, writable: bool, user: bool)

  predicate WriteBit(e: Word) {
    e / 2 % 2 == 1
  }

  predicate UserBit(e: Word) {
    e / 4 % 2 == 1
  }

  /** The translation of va through the directory in frame d with both levels' bits (section 4.3). */
  function Translate(m: Memory, d: int, va: Word): Option<Access>
    requires 0 <= d < NORMAL_PAGES
  {
    var pde := Ent(m, d, Pdx(va));
    if pde % 2 == 0 || pde / 4096 >= NORMAL_PAGES then None
    else
      var pte := Ent(m, pde / 4096, Ptx(va));
      if pte % 2 == 0 then None
      else Some(Access(pte / 4096, WriteBit(pde) && WriteBit(pte), UserBit(pde) && UserBit(pte)))
  }

  lemma TranslateIs(m: Memory, d: int, va: Word)
    requires 0 <= d < NORMAL_PAGES
    ensures var pde, w := Ent(m, d, Pdx(va)), Walk(m, d, va);
      Translate(m, d, va) ==
        if w.None? then None
        else Some(Access(FrameIn(w.value), WriteBit(pde) && WriteBit(w.value), UserBit(pde) && UserBit(w.value)))
  {
    hide Ent, WriteBit, UserBit;
  }

  /** Every directory entry in use lets its pages be written. */
  lemma EntriesWritable(m: Memory, y: Layout, d: int, i: int)
    requires FramesOk(y) && EntriesOk(m, y) && d in y.dirs && 0 <= i < ENTRIES && Ent(m, d, i) != 0
    ensures WriteBit(Ent(m, d, i)) && (UserBit(Ent(m, d, i)) <==> Ent(m, d, i) % PGSIZE == 7)
  {
    hide Ent;
    LowBits(Ent(m, d, i));
    if !Free(i) {
      assert ((y.ktbl + i) * PGSIZE + 3) % PGSIZE == 3;
    }
  }

  lemma LowBits(e: Word)
    ensures e % PGSIZE == 3 ==> e % 2 == 1 && WriteBit(e) && !UserBit(e)
    ensures e % PGSIZE == 7 ==> e % 2 == 1 && WriteBit(e) && UserBit(e)
  {
    var q: int, r: int := e / PGSIZE, e % PGSIZE;
    assert e == 4096 * q + r;
    if r == 3 {
      assert e / 2 == 2048 * q + 1 && e / 4 == 1024 * q;
    } else if r == 7 {
      assert e / 2 == 2048 * q + 3 && e / 4 == 1024 * q + 1;
    }
  }

  /** An entry made of a frame and the flags has the bits of the flags. */
  lemma MadeEntry(f: int, flags: int)
    requires 0 <= f < 0x10_0000 && (flags == 0 || flags == 4)
    ensures var e: Word := f * PGSIZE + 3 + flags;
      WriteBit(e) && (UserBit(e) <==> flags == 4) && FrameIn(e) == f && e % PGSIZE == 3 + flags && e != 0
  {
    Remainder(f, 3 + flags);
    LowBits(f * PGSIZE + 3 + flags);
  }

  lemma Remainder(f: int, r: int)
    requires 0 <= f && 0 <= r < PGSIZE
    ensures (f * PGSIZE + r) % PGSIZE == r && (f * PGSIZE + r) / PGSIZE == f
  {
  }

  /** What a page mapped with these flags is translated to: user code reaches it if and only if the flags say
      so and the directory entry does. */
  lemma MappedAccess(m: Memory, y: Layout, d: int, va: Word, pa: Word, flags: int)
    requires TablesOk(m, y) && d in y.dirs && 0 <= d < NORMAL_PAGES && (flags == 0 || flags == 4)
    requires PageDown(pa) + 3 + flags < ADDRESS_SPACE && Walk(m, d, va) == Some(PageDown(pa) + 3 + flags)
    ensures Translate(m, d, va) == Some(Access(PageOf(pa), true, flags == 4 && UserBit(Ent(m, d, Pdx(va)))))
  {
    WalkSlot(m, y, d, va);
    EntriesWritable(m, y, d, Pdx(va));
    TranslateIs(m, d, va);
    assert PageDown(pa) == PageOf(pa) * PGSIZE;
    MadeEntry(PageOf(pa), flags);
  }

  /** Who may use a page just mapped, its directory entry being as before or made with the same flags. */
  lemma MappedReach(m: Memory, y: Layout, d: int, va: Word, pa: Word, flags: int, pde: Word, used: int)
    requires TablesOk(m, y) && d in y.dirs && 0 <= d < NORMAL_PAGES && (flags == 0 || flags == 4)
    requires PageDown(pa) + 3 + flags < ADDRESS_SPACE && Walk(m, d, va) == Some(PageDown(pa) + 3 + flags)
    requires Ent(m, d, Pdx(va)) == (if pde != 0 then pde else used * PGSIZE + 3 + flags) && (pde == 0 ==> 0 <= used < NORMAL_PAGES)
    ensures Translate(m, d, va) == Some(Access(PageOf(pa), true, flags == 4 && (pde == 0 || UserBit(pde))))
  {
    hide Ent, Walk, UserBit, WriteBit, EntriesOk, HighOk, Unshared, PageOf, Pdx, PageDown, Translate;
    MappedAccess(m, y, d, va, pa, flags);
    if pde == 0 {
      MadeEntry(used, flags);
    }
  }

  /** Directory entries and pages below KERNBASE are for user code, those from KERNBASE up are not. */
  ghost predicate Sides(m: Memory, y: Layout)
    requires FramesOk(y)
  {
    && (forall d, i :: d in y.dirs && 0 <= i < ENTRIES && Ent(m, d, i) != 0 ==> (UserBit(Ent(m, d, i)) <==> i < KERN_PDX))
    && (forall d, a: Word :: d in y.dirs && Walk(m, d, a).Some? ==> RightSide(Walk(m, d, a).value, a))
  }

  predicate RightSide(e: Word, a: Word) {
    WriteBit(e) && (UserBit(e) <==> a < KERNBASE)
  }

  /** Exactly the mapped pages below KERNBASE are in reach of user code, and every mapped page may be written. */
  ghost predicate UserHalf(m: Memory, y: Layout)
    requires FramesOk(y)
  {
    forall d, a: Word :: d in y.dirs && Translate(m, d, a).Some? ==>
      Translate(m, d, a).value.writable && (Translate(m, d, a).value.user <==> a < KERNBASE)
  }

  lemma SidesGiveUserHalf(m: Memory, y: Layout)
    requires TablesOk(m, y) && Sides(m, y)
    ensures UserHalf(m, y)
  {
    hide Ent, Walk, WriteBit, UserBit, HighOk, Unshared;
    forall d, a: Word | d in y.dirs && Translate(m, d, a).Some?
      ensures Translate(m, d, a).value.writable && (Translate(m, d, a).value.user <==> a < KERNBASE)
    {
      TranslateIs(m, d, a);
      WalkSlot(m, y, d, a);
      EntriesWritable(m, y, d, Pdx(a));
      SideOf(a);
      assert RightSide(Walk(m, d, a).value, a);
    }
  }

  lemma SideOf(a: Word)
    ensures a < KERNBASE <==> Pdx(a) < KERN_PDX
  {
  }

  lemma SamePage(m: Memory, d: int, a: Word, b: Word)
    requires 0 <= d < NORMAL_PAGES && PageOf(a) == PageOf(b)
    ensures Pdx(a) == Pdx(b) && Ptx(a) == Ptx(b) && Walk(m, d, a) == Walk(m, d, b) && (a < KERNBASE <==> b < KERNBASE)
  {
    hide Ent;
    PageIndices(a);
    PageIndices(b);
  }

  /** Changing the slot of one page of one directory, with its directory entry if need be, keeps the sides if
      the new entries are on theirs. */
  lemma SidesStored(m: Memory, n: Memory, y: Layout, z: Layout, d: int, va: Word)
    requires FramesOk(y) && TablesOk(n, z) && y.dirs == z.dirs && Sides(m, y) && Mappable(z, d, va)
    requires SameElsewhere(m, n, z, d, va)
    requires forall c, k :: c in z.dirs && 0 <= k < ENTRIES && !(c == d && k == Pdx(va)) ==> Ent(n, c, k) == Ent(m, c, k)
    requires Ent(n, d, Pdx(va)) != 0 ==> (UserBit(Ent(n, d, Pdx(va))) <==> va < KERNBASE)
    requires Walk(n, d, va).Some? ==> RightSide(Walk(n, d, va).value, va)
    ensures Sides(n, z)
  {
    hide Ent, Walk, UserBit, RightSide, EntriesOk, HighOk, Unshared;
    SideOf(va);
    forall c, a: Word | c in z.dirs && Walk(n, c, a).Some?
      ensures RightSide(Walk(n, c, a).value, a)
    {
      if PageOf(a) == PageOf(va) && (c == d || va >= KERNBASE) {
        SamePage(n, d, a, va);
        SharedSide(n, z, c, d, a, va);
      } else {
        assert Walk(n, c, a) == Walk(m, c, a);
      }
    }
  }

  lemma SharedSide(n: Memory, z: Layout, c: int, d: int, a: Word, va: Word)
    requires TablesOk(n, z) && c in z.dirs && Mappable(z, d, va) && 0 <= d < NORMAL_PAGES && PageOf(a) == PageOf(va)
    requires (c == d || va >= KERNBASE) && Walk(n, c, a).Some? && Walk(n, d, a) == Walk(n, d, va)
    requires Walk(n, d, va).Some? ==> RightSide(Walk(n, d, va).value, va)
    ensures RightSide(Walk(n, c, a).value, a)
  {
    SamePage(n, d, a, va);
    hide Ent, Walk, WriteBit, UserBit, EntriesOk, HighOk, Unshared;
    if c != d {
      KernelHalfShared(n, z, c, a);
    }
  }

  lemma SidesSame(m: Memory, n: Memory, y: Layout, z: Layout)
    requires FramesOk(y) && FramesOk(z) && y.dirs == z.dirs && Sides(m, y)
    requires forall c, k :: c in y.dirs && 0 <= k < ENTRIES ==> Ent(n, c, k) == Ent(m, c, k)
    requires forall c, a: Word :: c in y.dirs ==> Walk(n, c, a) == Walk(m, c, a)
    ensures Sides(n, z)
  {
    hide Ent, Walk, UserBit, RightSide;
  }

  /** A new directory has kpgdir's upper half, and nothing below if it counts as well formed. */
  lemma SidesCopied(m: Memory, n: Memory, y: Layout)
    requires TablesOk(m, y) && y.used < NORMAL_PAGES && CopiedDir(m, n, y.kdir, y.used) && Sides(m, y)
    ensures FramesOk(WithDir(m, y)) && Sides(n, WithDir(m, y))
  {
    CopiedDirKeeps(m, n, y);
    var z := WithDir(m, y);
    hide Ent, UserBit, RightSide, Walk, EntriesOk, HighOk, Unshared;
    forall d, i | d in z.dirs && 0 <= i < ENTRIES && Ent(n, d, i) != 0
      ensures UserBit(Ent(n, d, i)) <==> i < KERN_PDX
    {
      if d != y.used {
        assert Ent(n, d, i) == Ent(m, d, i);
      } else if i >= KERN_PDX {
        assert Ent(n, d, i) == Ent(m, y.kdir, i);
      }
    }
    forall d, a: Word | d in z.dirs && Walk(n, d, a).Some?
      ensures RightSide(Walk(n, d, a).value, a)
    {
      CopiedSide(m, n, y, d, a);
    }
  }

  lemma CopiedSide(m: Memory, n: Memory, y: Layout, d: int, a: Word)
    requires TablesOk(m, y) && y.used < NORMAL_PAGES && CopiedDir(m, n, y.kdir, y.used) && Sides(m, y)
    requires d in WithDir(m, y).dirs && 0 <= d < NORMAL_PAGES && Walk(n, d, a).Some?
    ensures RightSide(Walk(n, d, a).value, a)
  {
    CopiedDirWalk(m, n, y, d, a);
    hide Ent, UserBit, RightSide, Walk, EntriesOk, HighOk, Unshared, CopiedDir, EmptyBelow;
    if d != y.used && Walk(m, d, a).Some? {
      assert RightSide(Walk(m, d, a).value, a);
    } else if a >= KERNBASE && Walk(m, y.kdir, a).Some? {
      KernelSideOf(m, y, a);
    }
  }

  lemma KernelSideOf(m: Memory, y: Layout, a: Word)
    requires FramesOk(y) && Sides(m, y) && Walk(m, y.kdir, a).Some?
    ensures 0 <= y.kdir < NORMAL_PAGES && RightSide(Walk(m, y.kdir, a).value, a)
  {
    hide Walk, Ent;
  }

  /** The tables boot leaves. */
  lemma BootSides(m: Memory, y: Layout)
    requires TablesOk(m, y) && LinearOk(m, y) && y.dirs == {y.kdir} && y.tables == {}
    ensures Sides(m, y)
  {
    hide Ent, Walk, HighOk, Unshared;
    forall d, i | d in y.dirs && 0 <= i < ENTRIES && Ent(m, d, i) != 0
      ensures UserBit(Ent(m, d, i)) <==> i < KERN_PDX
    {
      EntryShape(m, y, d, i);
      EntriesWritable(m, y, d, i);
      BootEntry(m, y, i);
    }
    forall d, a: Word | d in y.dirs && Walk(m, d, a).Some?
      ensures RightSide(Walk(m, d, a).value, a)
    {
      WalkSlot(m, y, d, a);
      LinearRange(a);
      LinearWalk(m, y, d, a);
      assert Home(m, y, LinearPage(a));
      MadeEntry(LinearPage(a), 0);
    }
  }

  lemma BootEntry(m: Memory, y: Layout, i: int)
    requires FramesOk(y) && EntriesOk(m, y) && y.tables == {} && 0 <= i < ENTRIES && Ent(m, y.kdir, i) != 0
    ensures KERN_PDX <= i && Ent(m, y.kdir, i) % PGSIZE == 3
  {
    hide Ent;
    EntryShape(m, y, y.kdir, i);
    assert ((y.ktbl + i) * PGSIZE + 3) % PGSIZE == 3;
  }

  // ---- User frames ----

  /** A frame above the part of memory that kmap_init maps linearly. */
  predicate High(e: Word) {
    FrameIn(e) >= NORMAL_PAGES
  }

  /** What kmap_init puts into slot j of kpgtbl's frame t. */
  function HomeOf(y: Layout, t: int, j: int): int {
    ((t - y.ktbl - KERN_PDX) * ENTRIES + j) * PGSIZE + 3
  }

  /** What a slot may hold: nothing, a page above the linear part, or, in kpgtbl, its own page. */
  ghost predicate SlotOk(y: Layout, t: int, j: int, e: Word) {
    e == 0 || (Present(e) && High(e)) || (t !in y.tables && e == HomeOf(y, t, j))
  }

  /** No frame above the linear part is in two slots, or in a slot and on the stack. */
  ghost predicate LeavesOk(m: Memory, y: Layout, pushed: seq<Word>)
    requires FramesOk(y)
  {
    && (forall t, j :: HoldsSlots(y, t) && 0 <= j < ENTRIES ==>
          SlotOk(y, t, j, Ent(m, t, j)) && (High(Ent(m, t, j)) ==> FrameIn(Ent(m, t, j)) * PGSIZE !in pushed))
    && (forall t, j, u, k :: HoldsSlots(y, t) && HoldsSlots(y, u) && 0 <= j < ENTRIES && 0 <= k < ENTRIES
          && High(Ent(m, t, j)) && FrameIn(Ent(m, t, j)) == FrameIn(Ent(m, u, k))
          ==> t == u && j == k)
    && (forall a :: a in pushed ==> MEM_NORMAL <= a && a % PGSIZE == 0)
    && (forall i, j :: 0 <= i < j < |pushed| ==> pushed[i] != pushed[j])
  }

  /** A frame above the linear part that no slot holds and that is not on the stack. */
  ghost predicate Spare(m: Memory, y: Layout, pushed: seq<Word>, pa: Word)
    requires FramesOk(y)
  {
    && MEM_NORMAL <= pa && pa % PGSIZE == 0 && pa !in pushed
    && forall t, j :: HoldsSlots(y, t) && 0 <= j < ENTRIES ==> FrameIn(Ent(m, t, j)) != FrameIn(pa)
  }

  lemma PopSpare(m: Memory, y: Layout, before: seq<Word>, after: seq<Word>, pa: Word)
    requires FramesOk(y) && LeavesOk(m, y, before) && before == after + [pa]
    ensures LeavesOk(m, y, after) && Spare(m, y, after, pa)
  {
    hide Ent;
    assert before[|after|] == pa && pa in before;
    assert forall i :: 0 <= i < |after| ==> before[i] == after[i];
    assert forall a :: a in after ==> a in before;
    forall i | 0 <= i < |after|
      ensures after[i] != pa
    {
      assert before[i] == after[i];
    }
    forall t, j | HoldsSlots(y, t) && 0 <= j < ENTRIES
      ensures FrameIn(Ent(m, t, j)) != FrameIn(pa)
    {
      assert FrameIn(pa) * PGSIZE == pa;
      assert High(Ent(m, t, j)) ==> FrameIn(Ent(m, t, j)) * PGSIZE !in before;
    }
  }

  /** Clearing a slot keeps the frames apart. */
  lemma ClearLeaf(m: Memory, y: Layout, pushed: seq<Word>, t: int, j: int)
    requires FramesOk(y) && LeavesOk(m, y, pushed) && HoldsSlots(y, t) && 0 <= j < ENTRIES
    ensures 0 <= t < NORMAL_PAGES && LeavesOk(Store(m, t, j, 0), y, pushed)
    ensures forall pa: Word :: Spare(m, y, pushed, pa) ==> Spare(Store(m, t, j, 0), y, pushed, pa)
  {
    hide Ent, Store;
    forall u, k | HoldsSlots(y, u) && 0 <= k < ENTRIES
      ensures Ent(Store(m, t, j, 0), u, k) == if t == u && j == k then 0 else Ent(m, u, k)
    {
      StoreRead(m, t, j, 0, u, k);
    }
  }

  /** Putting a spare frame into a slot keeps the frames apart. */
  lemma SetLeaf(m: Memory, y: Layout, pushed: seq<Word>, t: int, j: int, pa: Word, e: Word)
    requires FramesOk(y) && LeavesOk(m, y, pushed) && HoldsSlots(y, t) && 0 <= j < ENTRIES
    requires Spare(m, y, pushed, pa) && Present(e) && FrameIn(e) == FrameIn(pa)
    ensures 0 <= t < NORMAL_PAGES && LeavesOk(Store(m, t, j, e), y, pushed)
  {
    hide Ent, Store;
    forall u, k | HoldsSlots(y, u) && 0 <= k < ENTRIES
      ensures Ent(Store(m, t, j, e), u, k) == if t == u && j == k then e else Ent(m, u, k)
    {
      StoreRead(m, t, j, e, u, k);
    }
  }

  /** Whatever frames were on the stack or spare, keeping them apart carries over from m to n. */
  ghost predicate LeavesFollow(m: Memory, y: Layout, n: Memory, z: Layout)
    requires FramesOk(y) && FramesOk(z)
  {
    forall pushed: seq<Word> :: LeavesOk(m, y, pushed) ==>
      && LeavesOk(n, z, pushed)
      && forall pa: Word :: Spare(m, y, pushed, pa) ==> Spare(n, z, pushed, pa)
  }

  /** The frame that va mapped to in m is spare in n. */
  ghost predicate Returned(m: Memory, n: Memory, y: Layout, d: int, va: Word)
    requires FramesOk(y) && d in y.dirs
  {
    forall pushed: seq<Word>, pa: Word ::
      && LeavesOk(m, y, pushed)
      && Walk(m, d, va).Some? && FrameIn(Walk(m, d, va).value) == FrameIn(pa)
      && MEM_NORMAL <= pa && pa % PGSIZE == 0 && pa !in pushed
      ==> Spare(n, y, pushed, pa)
  }

  lemma ClearReturns(m: Memory, y: Layout, d: int, va: Word)
    requires TablesOk(m, y) && Mappable(y, d, va) && Ent(m, d, Pdx(va)) != 0
    ensures 0 <= TableFor(m, d, va) < NORMAL_PAGES && HoldsSlots(y, TableFor(m, d, va))
    ensures Returned(m, Store(m, TableFor(m, d, va), Ptx(va), 0), y, d, va)
  {
    hide Ent, Store, HighOk, Unshared;
    EntryShape(m, y, d, Pdx(va));
    var t, j := TableFor(m, d, va), Ptx(va);
    var n := Store(m, t, j, 0);
    forall u, k | HoldsSlots(y, u) && 0 <= k < ENTRIES
      ensures Ent(n, u, k) == if t == u && j == k then 0 else Ent(m, u, k)
    {
      StoreRead(m, t, j, 0, u, k);
    }
  }

  lemma ClearFollows(m: Memory, y: Layout, t: int, j: int)
    requires FramesOk(y) && HoldsSlots(y, t) && 0 <= j < ENTRIES
    ensures 0 <= t < NORMAL_PAGES && LeavesFollow(m, y, Store(m, t, j, 0), y)
  {
    forall pushed: seq<Word> | LeavesOk(m, y, pushed)
      ensures LeavesOk(Store(m, t, j, 0), y, pushed)
      ensures forall pa: Word :: Spare(m, y, pushed, pa) ==> Spare(Store(m, t, j, 0), y, pushed, pa)
    {
      ClearLeaf(m, y, pushed, t, j);
    }
  }

  lemma InstallFollows(m: Memory, n: Memory, y: Layout, d: int, i: int, e: Word)
    requires FramesOk(y) && y.used < NORMAL_PAGES && d in y.dirs && 0 <= i < ENTRIES
    requires Installed(m, n, d, i, y.used, e)
    ensures var z := y.(tables := y.tables + {y.used}, used := y.used + 1); FramesOk(z) && LeavesFollow(m, y, n, z)
  {
    var z := y.(tables := y.tables + {y.used}, used := y.used + 1);
    assert FramesOk(z);
    forall pushed: seq<Word> | LeavesOk(m, y, pushed)
      ensures LeavesOk(n, z, pushed)
      ensures forall pa: Word :: Spare(m, y, pushed, pa) ==> Spare(n, z, pushed, pa)
    {
      InstallLeaves(m, n, y, pushed, d, i, e);
    }
  }

  /** A page handed out for something else changes nothing about the tables. */
  lemma UsedGrows(m: Memory, y: Layout)
    requires TablesOk(m, y) && y.used < NORMAL_PAGES
    ensures var z := y.(used := y.used + 1); TablesOk(m, z) && LeavesFollow(m, y, m, z)
  {
    var z := y.(used := y.used + 1);
    assert FramesOk(z) && EntriesOk(m, z) && HighOk(m, z) && Unshared(m, z);
  }

  /** Setting the slot of va to a spare frame, after the rest of the tables has followed. */
  lemma SetFollows(m: Memory, y: Layout, n: Memory, z: Layout, t: int, j: int, pa: Word, e: Word)
    requires FramesOk(y) && FramesOk(z) && LeavesFollow(m, y, n, z) && HoldsSlots(z, t) && 0 <= j < ENTRIES
    requires Present(e) && FrameIn(e) == FrameIn(pa)
    ensures 0 <= t < NORMAL_PAGES
    ensures forall pushed: seq<Word> ::
              LeavesOk(m, y, pushed) && Spare(m, y, pushed, pa) ==> LeavesOk(Store(n, t, j, e), z, pushed)
  {
    forall pushed: seq<Word> | LeavesOk(m, y, pushed) && Spare(m, y, pushed, pa)
      ensures LeavesOk(Store(n, t, j, e), z, pushed)
    {
      SetLeaf(n, z, pushed, t, j, pa, e);
    }
  }

  /** Keeping apart carries over to a larger layout. */
  lemma LeavesLater(m: Memory, y: Layout, n: Memory, z: Layout, x: Layout, pa: Word)
    requires FramesOk(y) && FramesOk(z) && FramesOk(x) && LeavesFollow(n, z, n, x)
    requires forall pushed: seq<Word> :: LeavesOk(m, y, pushed) && Spare(m, y, pushed, pa) ==> LeavesOk(n, z, pushed)
    ensures forall pushed: seq<Word> :: LeavesOk(m, y, pushed) && Spare(m, y, pushed, pa) ==> LeavesOk(n, x, pushed)
  {
  }

  lemma NothingFollows(m: Memory, y: Layout)
    requires FramesOk(y)
    ensures LeavesFollow(m, y, m, y)
  {
  }

  lemma FollowsTwice(m: Memory, y: Layout, n: Memory, z: Layout, p: Memory, x: Layout)
    requires FramesOk(y) && FramesOk(z) && FramesOk(x) && LeavesFollow(m, y, n, z) && LeavesFollow(n, z, p, x)
    ensures LeavesFollow(m, y, p, x)
  {
  }

  /** A cleared page added as a table brings no frames. */
  lemma InstallLeaves(m: Memory, n: Memory, y: Layout, pushed: seq<Word>, d: int, i: int, e: Word)
    requires FramesOk(y) && LeavesOk(m, y, pushed) && y.used < NORMAL_PAGES && d in y.dirs && 0 <= i < ENTRIES
    requires Installed(m, n, d, i, y.used, e)
    ensures var z := y.(tables := y.tables + {y.used}, used := y.used + 1);
      FramesOk(z) && LeavesOk(n, z, pushed) && forall pa: Word :: Spare(m, y, pushed, pa) ==> Spare(n, z, pushed, pa)
  {
    hide Ent;
    var z := y.(tables := y.tables + {y.used}, used := y.used + 1);
    assert forall t, j :: HoldsSlots(y, t) && 0 <= j < ENTRIES ==> Ent(n, t, j) == Ent(m, t, j);
    assert forall t :: HoldsSlots(z, t) <==> HoldsSlots(y, t) || t == y.used;
  }

  lemma CopiedDirLeaves(m: Memory, n: Memory, y: Layout, pushed: seq<Word>)
    requires FramesOk(y) && LeavesOk(m, y, pushed) && y.used < NORMAL_PAGES && CopiedDir(m, n, y.kdir, y.used)
    ensures FramesOk(WithDir(m, y)) && LeavesOk(n, WithDir(m, y), pushed)
  {
    hide Ent, EmptyBelow;
    var z := WithDir(m, y);
    assert forall t :: HoldsSlots(z, t) <==> HoldsSlots(y, t);
    assert forall t, j :: HoldsSlots(y, t) && 0 <= j < ENTRIES ==> Ent(n, t, j) == Ent(m, t, j);
  }

  /** A walk ends in a slot. */
  lemma WalkSlot(m: Memory, y: Layout, d: int, a: Word)
    requires TablesOk(m, y) && d in y.dirs && Walk(m, d, a).Some?
    ensures var t := TableFor(m, d, a);
      && Ent(m, d, Pdx(a)) != 0 && 0 <= t < NORMAL_PAGES && HoldsSlots(y, t) && (t in y.tables <==> Free(Pdx(a)))
      && (!Free(Pdx(a)) ==> t == y.ktbl + Pdx(a))
      && Walk(m, d, a).value == Ent(m, t, Ptx(a)) && Present(Ent(m, t, Ptx(a)))
  {
    hide Ent, HighOk, Unshared;
    EntryShape(m, y, d, Pdx(a));
  }

  lemma SameSlot(m: Memory, y: Layout, pushed: seq<Word>, t: int, j: int, u: int, k: int)
    requires FramesOk(y) && LeavesOk(m, y, pushed) && 0 <= t < NORMAL_PAGES && 0 <= u < NORMAL_PAGES
    requires HoldsSlots(y, t) && HoldsSlots(y, u) && 0 <= j < ENTRIES && 0 <= k < ENTRIES
    ensures SlotOk(y, t, j, Ent(m, t, j)) && (High(Ent(m, t, j)) ==> FrameIn(Ent(m, t, j)) * PGSIZE !in pushed)
    ensures High(Ent(m, t, j)) && FrameIn(Ent(m, t, j)) == FrameIn(Ent(m, u, k)) ==> t == u && j == k
  {
    hide Ent;
  }

  /** Where kpgtbl's own entry for va lies. */
  lemma HomeSlot(y: Layout, va: Word)
    requires Linear(va)
    ensures HomeOf(y, y.ktbl + Pdx(va), Ptx(va)) == LinearPage(va) * PGSIZE + 3
  {
    LinearRange(va);
  }

  /** Two mapped addresses that reach the same frame above the linear part are the same page, of the same
      directory or of the kernel half; and such a frame is not on the stack. Every other mapped page lies in
      the linear range and is at home. So no user page is ever one that holds a page table, a directory or a
      kmalloc chunk. */
  lemma MappedFramesNeverAlias(m: Memory, y: Layout, pushed: seq<Word>, c: int, a: Word, d: int, b: Word)
    requires TablesOk(m, y) && LeavesOk(m, y, pushed) && c in y.dirs && d in y.dirs
    requires Walk(m, c, a).Some? && Walk(m, d, b).Some?
    ensures var e := Walk(m, c, a).value;
      if High(e) then FrameIn(e) * PGSIZE !in pushed
      else Linear(a) && e == LinearPage(a) * PGSIZE + 3
    ensures High(Walk(m, c, a).value) && FrameIn(Walk(m, c, a).value) == FrameIn(Walk(m, d, b).value)
      ==> PageOf(a) == PageOf(b) && (c == d || a >= KERNBASE)
  {
    WalkSlot(m, y, c, a);
    WalkSlot(m, y, d, b);
    LinearRange(a);
    LinearRange(b);
    var t, u := TableFor(m, c, a), TableFor(m, d, b);
    SameSlot(m, y, pushed, t, Ptx(a), u, Ptx(b));
    hide TablesOk, LeavesOk, Ent, Walk, Pdx, Ptx, PageOf, FrameIn, TableFor;
    if Linear(a) {
      HomeSlot(y, a);
    }
    if PageOf(a) != PageOf(b) || (c != d && a < KERNBASE) {
      SlotServesOnePage(m, y, c, a, d, b);
    }
  }
}
