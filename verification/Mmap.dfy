// mm/mmap.c: building and changing page tables, and handing frames to user pages.

module Mmap {
  import opened Machine
  import opened PageTables
  import KernelPages
  import FrameStack

  class Paging {
    const mem: array<Word>
    const kvm: KernelPages.KernelPages
    const frames: FrameStack.FrameStack
    const kdir: int             // the frame of kpgdir
    const ktbl: int             // the first frame of kpgtbl
    ghost var dirs: set<int>
    ghost var tables: set<int>
    ghost var used: int

    ghost function Y(): Layout
      reads this
    {
      Layout(kdir, ktbl, dirs, tables, used)
    }

    /** The tables are well formed and every page behind them is marked in use. */
    ghost predicate Ready()
      reads this, mem, kvm, kvm.blocks
    {
      && mem.Length == NORMAL_PAGES * ENTRIES
      && kvm.Valid()
      && KernelPages.Prefix(kvm.blocks[..], used)
      && TablesOk(mem[..], Y())
    }

    /** At rest, no frame above the linear map is in two places. */
    ghost predicate Valid()
      reads this, mem, kvm, kvm.blocks, frames, frames.slots
    {
      && Ready()
      && mem != frames.slots
      && frames.Valid()
      && LeavesOk(mem[..], Y(), frames.Pushed())
    }

    /** What the kernel finds at P2V of frame f is frame f: kpgtbl maps that page where kmap_init put it. */
    ghost predicate Reaches(f: int)
      reads this, mem
    {
      mem.Length == NORMAL_PAGES * ENTRIES && FramesOk(Y()) && 0 <= f < NORMAL_PAGES && Home(mem[..], Y(), f)
    }

    /** A load of entry i of the table or directory in frame f, through the linear map. */
    method Peek(f: int, i: int) returns (v: Word)
      requires Reaches(f) && 0 <= i < ENTRIES
      ensures v == Ent(mem[..], f, i)
    {
      v := mem[f * ENTRIES + i];
    }

    /** The store. */
    method Poke(f: int, i: int, v: Word)
      requires Reaches(f) && 0 <= i < ENTRIES
      modifies mem
      ensures mem[..] == Store(old(mem[..]), f, i, v)
    {
      mem[f * ENTRIES + i] := v;
    }

    /** An empty machine around tables at the given frames; KmapInit and kvm_init make it valid. */
    constructor (memory: array<Word>, pages: KernelPages.KernelPages, stack: FrameStack.FrameStack, kdir: int, ktbl: int)
      ensures mem == memory && kvm == pages && frames == stack && this.kdir == kdir && this.ktbl == ktbl
    {
      mem, kvm, frames := memory, pages, stack;
      this.kdir, this.ktbl := kdir, ktbl;
      dirs, tables, used := {}, {}, 0;
    }

    /** One round of kmap_init's first loop: link the table of the page's directory index if that has
        not been done, store the entry, and declare the page mapped and free. */
    method MapLinearPage(phy: Word)
      requires mem.Length == NORMAL_PAGES * ENTRIES && kvm.Valid() && phy < MEM_NORMAL && phy % PGSIZE == 0
      requires ImageFrames(kdir, ktbl)
      requires LinearSoFar(mem[..], kdir, ktbl, phy / PGSIZE) && BlocksSoFar(kvm.blocks[..], phy / PGSIZE)
      modifies mem, kvm.blocks
      ensures LinearSoFar(mem[..], kdir, ktbl, phy / PGSIZE + 1) && BlocksSoFar(kvm.blocks[..], phy / PGSIZE + 1)
      ensures ImageOnly(old(mem[..]), mem[..], kdir, ktbl)
    {
      hide LinearSoFar, BlocksSoFar, Ent, Store, P2V, Pdx, Ptx, PageDown, ImageOnly;
      ghost var m: Memory, n := mem[..], phy / PGSIZE;
      var virt := P2V(phy);
      var pdx, ptx := Pdx(virt), Ptx(virt);
      FrameIndices(phy);
      assert pdx == KERN_PDX + n / ENTRIES && ptx == n % ENTRIES;
      var t := TableOf(pdx, n);
      ghost var m1: Memory := mem[..];
      mem[t * ENTRIES + ptx] := phy + PTE_P + PTE_W;
      StoreIs(m1, mem[..], t, ptx, phy + 3);
      LinearStep(m, m1, mem[..], kdir, ktbl, n);
      ImageStored(m, m1, mem[..], kdir, ktbl, pdx, ptx, t * PGSIZE + 3, phy + 3);
      DeclareLinear(virt, n);
    }

    /** The frame of kpgtbl's table for a directory index, linked when page n is the first to need it. */
    method TableOf(pdx: int, ghost n: int) returns (t: int)
      requires mem.Length == NORMAL_PAGES * ENTRIES && ImageFrames(kdir, ktbl)
      requires 0 <= n < NORMAL_PAGES && LinearSoFar(mem[..], kdir, ktbl, n) && pdx == KERN_PDX + n / ENTRIES
      modifies mem
      ensures t == ktbl + pdx && KERN_PDX <= pdx < HIGH_PDX && 0 <= t < NORMAL_PAGES
      ensures mem[..] == if n % ENTRIES == 0 then Store(old(mem[..]), kdir, pdx, t * PGSIZE + 3) else old(mem[..])
    {
      hide LinearSoFar, Ent, Store, PageDown;
      ghost var m: Memory := mem[..];
      ReadEntry(m, kdir, pdx);
      DirSoFar(m, kdir, ktbl, n);
      var pgtbl := PageDown(mem[kdir * ENTRIES + pdx]);
      if pgtbl == 0 {
        pgtbl := (ktbl + pdx) * PGSIZE;
        mem[kdir * ENTRIES + pdx] := pgtbl + PTE_P + PTE_W;
        StoreIs(m, mem[..], kdir, pdx, (ktbl + pdx) * PGSIZE + 3);
      }
      t := pgtbl / PGSIZE;
    }

    /** The two calls that declare a linear page mapped and free. */
    method DeclareLinear(virt: Word, ghost n: int)
      requires kvm.Valid() && 0 <= n < NORMAL_PAGES && virt == P2V(n * PGSIZE) && BlocksSoFar(kvm.blocks[..], n)
      modifies kvm.blocks
      ensures BlocksSoFar(kvm.blocks[..], n + 1)
    {
      ghost var bs := kvm.blocks[..];
      LinearBlock(virt, n);
      var ok := kvm.MapPage(virt);
      assert forall i :: 0 <= i < |bs| ==>
        kvm.blocks[i] == if i == n then KernelPages.Block(0, 2) else bs[i];
      ok := kvm.FreePage(virt);
    }

    /** kmap_init on zeroed tables: the linear map, then the drain of the frames it covers. */
    method KmapInit()
      requires mem.Length == NORMAL_PAGES * ENTRIES && kvm.Valid() && frames.Valid() && mem != frames.slots
      requires ImageFrames(kdir, ktbl) && forall i :: 0 <= i < ENTRIES ==> Ent(mem[..], kdir, i) == 0
      requires forall i :: 0 <= i < KernelPages.NVMBLOCKS ==> kvm.blocks[i] == KernelPages.Block(0, 0)
      requires exists i :: 0 <= i <= frames.header && frames.slots[i] >= MEM_NORMAL
      modifies mem, kvm.blocks, frames`header, frames.slots
      ensures LinearSoFar(mem[..], kdir, ktbl, NORMAL_PAGES)
      ensures BlocksSoFar(kvm.blocks[..], NORMAL_PAGES)
      ensures ImageOnly(old(mem[..]), mem[..], kdir, ktbl)
      ensures frames.Valid() && 0 <= frames.header <= old(frames.header)
      ensures old(frames.slots[..])[frames.header] >= MEM_NORMAL
      ensures frames.slots[frames.header] == PageDown(old(frames.slots[..])[frames.header])
      ensures forall i :: frames.header < i <= old(frames.header) ==> old(frames.slots[..])[i] < MEM_NORMAL
      ensures forall i :: 0 <= i < frames.slots.Length && i != frames.header ==> frames.slots[i] == old(frames.slots[i])
    {
      hide LinearSoFar, BlocksSoFar, Ent, ImageOnly;
      var phy := 0;
      ImageSame(mem[..], kdir, ktbl);
      NothingLinear(mem[..], kdir, ktbl);
      NoBlocks(kvm.blocks[..]);
      while phy < MEM_NORMAL
        invariant 0 <= phy <= MEM_NORMAL && phy % PGSIZE == 0
        invariant LinearSoFar(mem[..], kdir, ktbl, phy / PGSIZE) && BlocksSoFar(kvm.blocks[..], phy / PGSIZE)
        invariant frames.slots[..] == old(frames.slots[..]) && frames.header == old(frames.header)
        invariant ImageOnly(old(mem[..]), mem[..], kdir, ktbl)
      {
        ghost var before: Memory := mem[..];
        MapLinearPage(phy);
        ImageTwice(old(mem[..]), before, mem[..], kdir, ktbl);
        phy := phy + PGSIZE;
      }
      frames.Drain();
    }

    /** kern_bootstrap's memory part: phy_mem_init, kmap_init, kvm_init. The invariant holds from here on, and
        the stack holds exactly the frames of the available range above the linear map. */
    method Boot(kernEnd: Word, start: Word, end: Word)
      requires mem.Length == NORMAL_PAGES * ENTRIES && kvm.Valid() && mem != frames.slots
      requires frames.Valid() && frames.header == 0 && frames.pageCount == 0
      requires ImageFrames(kdir, ktbl) && forall i :: 0 <= i < ENTRIES ==> Ent(mem[..], kdir, i) == 0
      requires forall i :: 0 <= i < KernelPages.NVMBLOCKS ==> kvm.blocks[i] == KernelPages.Block(0, 0)
      requires KERNBASE + (kdir + 1) * PGSIZE <= kernEnd && KERNBASE + (ktbl + ENTRIES) * PGSIZE <= kernEnd
      requires var order := FrameStack.PushOrder(PageUp(start), PageDown(end));
        && |order| < frames.slots.Length
        && kernEnd + |order| * 4 < KERNBASE + MEM_NORMAL
      requires 0 < PageUp(start) <= PageDown(end) && MEM_NORMAL <= PageDown(end)
      modifies this, mem, kvm.blocks, frames, frames.slots
      ensures Valid() && LinearOk(mem[..], Y()) && Sides(mem[..], Y())
      ensures dirs == {kdir} && tables == {}
      ensures used == (kernEnd + frames.pageCount * 4 - KERNBASE) / PGSIZE + 1
      ensures forall a :: a in frames.Pushed() <==>
        a % PGSIZE == 0 && PageUp(start) <= a <= PageDown(end) && MEM_NORMAL <= a
      ensures |frames.Pushed()| == HighCount(PageUp(start), PageDown(end))
      ensures frames.pageCount == |FrameStack.PushOrder(PageUp(start), PageDown(end))|
      ensures 0 <= used && FreshKept(old(mem[..]), mem[..], used)
    {
      hide LinearSoFar, BlocksSoFar, Ent, TablesOk, LeavesOk, KernelPages.Prefix, HighCount, Sides;
      BootFrames(start, end);
      ghost var m: Memory := mem[..];
      ghost var bs := kvm.blocks[..];
      var kernAddr: Word := frames.VirtKernAddr(kernEnd);
      kvm.Init(kernAddr);
      BlocksLinear(bs);
      KernelPages.InitMakesPrefix(bs, kvm.blocks[..], kernAddr);
      dirs, tables, used := {kdir}, {}, (kernAddr - KERNBASE) / PGSIZE + 1;
      BootTables(mem[..], Y());
      BootSides(mem[..], Y());
      ImageFresh(old(mem[..]), m, Y());
      BootLeaves(mem[..], Y(), frames.Pushed());
    }

    /** phy_mem_init, then kmap_init. */
    method BootFrames(start: Word, end: Word)
      requires mem.Length == NORMAL_PAGES * ENTRIES && kvm.Valid() && mem != frames.slots
      requires frames.Valid() && frames.header == 0 && frames.pageCount == 0
      requires ImageFrames(kdir, ktbl) && forall i :: 0 <= i < ENTRIES ==> Ent(mem[..], kdir, i) == 0
      requires forall i :: 0 <= i < KernelPages.NVMBLOCKS ==> kvm.blocks[i] == KernelPages.Block(0, 0)
      requires |FrameStack.PushOrder(PageUp(start), PageDown(end))| < frames.slots.Length
      requires 0 < PageUp(start) <= PageDown(end) && MEM_NORMAL <= PageDown(end)
      modifies mem, kvm.blocks, frames, frames.slots
      ensures frames.Valid() && frames.pageCount == |FrameStack.PushOrder(PageUp(start), PageDown(end))|
      ensures LinearSoFar(mem[..], kdir, ktbl, NORMAL_PAGES) && BlocksSoFar(kvm.blocks[..], NORMAL_PAGES)
      ensures forall a :: a in frames.Pushed() <==>
        a % PGSIZE == 0 && PageUp(start) <= a <= PageDown(end) && MEM_NORMAL <= a
      ensures forall i, j :: 0 <= i < j < |frames.Pushed()| ==> frames.Pushed()[i] != frames.Pushed()[j]
      ensures |frames.Pushed()| == HighCount(PageUp(start), PageDown(end))
      ensures ImageOnly(old(mem[..]), mem[..], kdir, ktbl)
    {
      hide LinearSoFar, BlocksSoFar, Ent, PageUp, PageDown, ImageOnly, HighCount;
      frames.Init(start, end);
      assert frames.Pushed() == OnStack(frames.slots[..], frames.header);
      BootStackHigh(frames.slots[..], frames.header, PageUp(start), PageDown(end));
      ghost var slots, top := frames.slots[..], frames.header;
      KmapInit();
      assert frames.Pushed() == OnStack(frames.slots[..], frames.header);
      BootStack(slots, top, frames.slots[..], frames.header, PageUp(start), PageDown(end));
    }

    /** mmap_do_unmap, without its list bookkeeping. */
    method DoUnmap(d: int, va: Word)
      requires Ready() && Mappable(Y(), d, va) && Intact(mem[..], Y(), 0)
      modifies mem
      ensures Ready()
      ensures Walk(mem[..], d, va) == None
      ensures SameElsewhere(old(mem[..]), mem[..], Y(), d, va)
      ensures SameDirs(old(mem[..]), mem[..], Y()) && LinearSet(old(mem[..]), mem[..], Y(), va, 0)
      ensures LinearShared(mem[..], Y())
      ensures 0 <= used && FreshKept(old(mem[..]), mem[..], used)
      ensures LeavesFollow(old(mem[..]), Y(), mem[..], Y())
      ensures Returned(old(mem[..]), mem[..], Y(), d, va)
    {
      hide LinearShared, FreshKept;
      hide TablesOk, LeavesFollow, SameElsewhere, Store, LeavesOk, Spare, SameDirs, LinearSet, Intact, Returned;
      hide Home, Ent, FrameIn, HoldsSlots, KernelPages.Prefix;
      ghost var m: Memory := mem[..];
      DirInRange(m, Y(), d, va);
      InUseReached(m, Y(), d);
      var pde := Peek(d, Pdx(va));
      var pgtbl := PageDown(pde);
      EntryFrame(pde);
      if pgtbl == 0 {
        NothingFollows(m, Y());
        NothingSet(m, Y(), d, va);
        AllShareLinear(m, Y());
        FreshSame(m, used);
        return;
      }
      var t := pgtbl / PGSIZE;
      TableReached(m, Y(), d, Pdx(va));
      Poke(t, Ptx(va), 0);
      SlotStored(m, Y(), d, va, 0);
      ClearFollows(m, Y(), t, Ptx(va));
      ClearReturns(m, Y(), d, va);
      AllShareLinear(mem[..], Y());
      StoreFresh(m, t, Ptx(va), 0, used);
    }

    /** memset of the page of frame t to zero, then entry i of directory d set to e. */
    method InstallTable(d: int, i: int, t: int, e: Word)
      requires Reaches(t) && Reaches(d) && 0 <= i < ENTRIES && d != t && !(ktbl <= t < ktbl + ENTRIES)
      modifies mem
      ensures Installed(old(mem[..]), mem[..], d, i, t, e)
    {
      hide Home, Installed, Store, Ent;
      ghost var m := mem[..];
      var j := 0;
      while j < ENTRIES
        invariant 0 <= j <= ENTRIES && Reaches(t)
        invariant Clearing(m, mem[..], t, j)
      {
        ghost var before := mem[..];
        Poke(t, j, 0);
        ClearOne(m, before, mem[..], t, j);
        OnlyFrame(m, mem[..], Y(), t, j + 1);
        j := j + 1;
      }
      OnlyFrame(m, mem[..], Y(), t, ENTRIES);
      ghost var before := mem[..];
      Poke(d, i, e);
      InstalledBy(m, before, mem[..], d, i, t, e);
    }

    /** mmap_do_map for an empty directory entry: a cleared page becomes its table. False is kvm_alloc_page's panic. */
    method AddTable(d: int, i: int, flags: Word) returns (ok: bool, t: int)
      requires Ready() && d in dirs && Free(i) && Ent(mem[..], d, i) == 0 && Intact(mem[..], Y(), 1)
      requires flags == 0 || flags == PTE_U
      requires HIGH_PDX <= i ==> d == kdir
      modifies mem, kvm.blocks, this`tables, this`used
      ensures ok <==> old(used) < NORMAL_PAGES
      ensures ok ==>
        && Ready()
        && t in tables && t == old(used) && Ent(mem[..], d, i) == t * PGSIZE + 3 + flags
        && Ent(mem[..], d, i) != 0 && FrameIn(Ent(mem[..], d, i)) == t
        && used == old(used) + 1
        && SameLinear(old(mem[..]), mem[..], Y()) && Intact(mem[..], Y(), 0)
        && 0 <= used && FreshKept(old(mem[..]), mem[..], used)
        && (forall c, k :: c in dirs && 0 <= k < ENTRIES && !(c == d && k == i) ==> Ent(mem[..], c, k) == old(Ent(mem[..], c, k)))
        && (forall c, a: Word :: c in dirs ==> Walk(mem[..], c, a) == old(Walk(mem[..], c, a)))
        && LeavesFollow(old(mem[..]), old(Y()), mem[..], Y())
    {
      hide TablesOk, Walk, LeavesFollow, KernelPages.Prefix, Installed, Ent, FrameIn, Present, Intact, Home, SameLinear, FreshKept;
      ghost var m: Memory, y := mem[..], Y();
      AllocCases(kvm.blocks[..], used);
      var page := kvm.AllocPage();
      if page.None? {
        return false, 0;
      }
      DirBounds(m, y);
      t := V2P(page.value) / PGSIZE;
      var e: Word := t * PGSIZE + PTE_P + PTE_W + flags;
      PageReached(m, y, d);
      InstallTable(d, i, t, e);
      EntryBits(t, flags);
      InstallKeeps(m, mem[..], y, d, i, e);
      InstallSame(m, mem[..], y, d, i, e);
      InstallFollows(m, mem[..], y, d, i, e);
      InstallFresh(m, mem[..], y, d, i, e);
      tables := tables + {t};
      used := used + 1;
      ok := true;
      InstalledEntry(m, mem[..], d, i, t, e);
      LinearInto(m, mem[..], y, Y());
      StillIntact(m, mem[..], y, Y(), 1, 0);
    }

    /** A page that the list bookkeeping's kmalloc takes for its own use. False is kvm_alloc_page's panic. */
    method HeapTakesPage() returns (ok: bool)
      requires Ready()
      modifies kvm.blocks, this`used
      ensures ok <==> old(used) < NORMAL_PAGES
      ensures ok ==> Ready() && used == old(used) + 1 && LeavesFollow(mem[..], old(Y()), mem[..], Y())
    {
      hide TablesOk, LeavesFollow, KernelPages.Prefix;
      AllocCases(kvm.blocks[..], used);
      var page := kvm.AllocPage();
      if page.None? {
        return false;
      }
      UsedGrows(mem[..], Y());
      used := used + 1;
      ok := true;
    }

    /** Remapping this page would take away the directory or the table through which it is remapped: the
        store after the unmap faults, and so does every fault that follows. */
    predicate Cuts(va: Word)
    {
      Linear(va) && (LinearPage(va) == kdir || LinearPage(va) == ktbl + Pdx(va))
    }

    /** How many pages mmap_do_map needs: a table if the directory has none, and one if the heap grows. */
    ghost function Need(d: int, va: Word, heapGrows: bool): int
      reads this, mem
      requires mem.Length == NORMAL_PAGES * ENTRIES && 0 <= d < NORMAL_PAGES
    {
      (if Ent(mem[..], d, Pdx(va)) == 0 then 1 else 0) + (if heapGrows then 1 else 0)
    }

    /** mmap_do_map. `heapGrows` says whether the kmalloc of its list bookkeeping takes a page.
        False is kvm_alloc_page's panic, or a fault in the kernel that never ends. */
    method DoMap(d: int, va: Word, pa: Word, flags: Word, heapGrows: bool) returns (ok: bool)
      requires Ready() && Mappable(Y(), d, va) && 0 <= d < NORMAL_PAGES
      requires Intact(mem[..], Y(), if Ent(mem[..], d, Pdx(va)) == 0 then 1 else 0)
      requires flags == 0 || flags == PTE_U
      modifies mem, kvm.blocks, this`tables, this`used
      ensures ok <==> !Cuts(va) && old(used + Need(d, va, heapGrows)) <= NORMAL_PAGES
      ensures ok ==>
        && Ready()
        && used == old(used + Need(d, va, heapGrows))
        && Walk(mem[..], d, va) == Some(PageDown(pa) + PTE_P + PTE_W + flags)
        && SameElsewhere(old(mem[..]), mem[..], Y(), d, va)
        && LinearSet(old(mem[..]), mem[..], Y(), va, PageDown(pa) + PTE_P + PTE_W + flags)
        && LinearShared(mem[..], Y())
        && 0 <= used && FreshKept(old(mem[..]), mem[..], used)
        && Ent(mem[..], d, Pdx(va)) ==
             (if old(Ent(mem[..], d, Pdx(va))) != 0 then old(Ent(mem[..], d, Pdx(va))) else old(used) * PGSIZE + 3 + flags)
        && Ent(mem[..], d, Pdx(va)) != 0
        && (forall c, k :: c in dirs && 0 <= k < ENTRIES && !(c == d && k == Pdx(va)) ==>
              Ent(mem[..], c, k) == old(Ent(mem[..], c, k)))
      ensures ok ==>
        Translate(mem[..], d, va) == Some(Access(PageOf(pa), true,
          flags == 4 && (old(Ent(mem[..], d, Pdx(va))) == 0 || UserBit(old(Ent(mem[..], d, Pdx(va)))))))
      ensures ok ==>
        forall pushed: seq<Word> :: old(LeavesOk(mem[..], Y(), pushed) && Spare(mem[..], Y(), pushed, pa))
             ==> LeavesOk(mem[..], Y(), pushed)
    {
      hide TablesOk, LeavesFollow, KernelPages.Prefix, Walk, SameElsewhere, Store, LeavesOk, Spare, Ent, FrameIn, Home;
      hide Intact, LinearSet, SameDirs, SameLinear, HoldsSlots, Returned, Present, LinearShared, FreshKept, UserBit, Translate, Pdx, Ptx, PageOf, FramesOk;
      ghost var m0: Memory, y0 := mem[..], Y();
      DirInRange(m0, y0, d, va);
      FewerIntact(m0, y0, if Ent(m0, d, Pdx(va)) == 0 then 1 else 0);
      DoUnmap(d, va);
      ghost var m1: Memory := mem[..];
      if Cuts(va) {
        return false;
      }
      DirInRange(m1, y0, d, va);
      EntrySame(m0, m1, y0, d, Pdx(va));
      var pdx, ptx := Pdx(va), Ptx(va);
      StillReached(m0, m1, y0, d, va);
      var pde := Peek(d, pdx);
      var pgtbl := PageDown(pde);
      EntryFrame(pde);
      var t := pgtbl / PGSIZE;
      if pgtbl == 0 {
        UserIntact(m0, m1, y0, d, va, 1);
        ok, t := AddTable(d, pdx, flags);
        if !ok {
          return false;
        }
      } else {
        NothingFollows(m1, y0);
        SameLinearItself(m1, y0);
        FreshSame(m1, used);
      }
      ghost var m2: Memory, y2 := mem[..], Y();
      DirInRange(m2, y2, d, va);
      FollowsTwice(m0, y0, m1, y0, m2, y2);
      PageEntryBits(pa, flags);
      var e: Word := PageDown(pa) + PTE_P + PTE_W + flags;
      TableStillReached(m0, m1, m2, y0, y2, d, va);
      Poke(t, ptx, e);
      SlotStored(m2, y2, d, va, e);
      SetFollows(m0, y0, m2, y2, t, ptx, pa, e);
      ghost var m3: Memory := mem[..];
      SameThrough(m0, m1, m2, m3, y0, y2, d, va);
      LinearThrough(m0, m1, m2, m3, y0, y2, va, e);
      EntriesThrough(m0, m1, m2, m3, y0, y2, d, pdx);
      EntrySame(m2, m3, y2, d, pdx);
      ok := true;
      MappedReach(m3, y2, d, va, pa, flags, Ent(m0, d, pdx), y0.used);
      AllShareLinear(m3, y2);
      StoreFresh(m2, t, ptx, e, used);
      FreshTwice(m0, m1, m2, y0.used, used);
      FreshTwice(m0, m2, m3, used, used);
      if heapGrows {
        ok := HeapTakesPage();
        if ok {
          DirBounds(m3, Y());
          ElsewhereInto(m0, m3, y2, Y(), d, va);
          LinearSetInto(m0, m3, y2, Y(), va, e);
          AllShareLinear(m3, Y());
          FreshLater(m0, m3, y2.used, used);
          LeavesLater(m0, y0, m3, y2, Y(), pa);
        }
      }
    }

    /** phy_mem_alloc while frames are on the stack: the popped frame is in no other place. */
    method TakeFrame() returns (pa: Word)
      requires Valid() && frames.Pushed() != []
      modifies frames`header
      ensures Ready() && frames.Valid()
      ensures old(frames.Pushed()) == frames.Pushed() + [pa]
      ensures LeavesOk(mem[..], Y(), frames.Pushed()) && Spare(mem[..], Y(), frames.Pushed(), pa)
    {
      ghost var before := frames.Pushed();
      pa := frames.Alloc();
      PopSpare(mem[..], Y(), before, frames.Pushed(), pa);
    }

    /** page_fault_handler, for any address and any reason: it does not look at the error code. The frame on
        top of the stack is mapped at addr, over what was there. In the linear range that breaks the linear
        map; above it, the directory of the faulting process sees the page only if it has the table. */
    method PageFault(pgdir: int, addr: Word, heapGrows: bool) returns (ok: bool)
      requires Valid() && pgdir in dirs && frames.Pushed() != [] && Intact(mem[..], Y(), 1)
      modifies mem, kvm.blocks, this`tables, this`used, frames`header
      ensures var d := if addr >= KERNBASE then kdir else pgdir;
        0 <= d < NORMAL_PAGES && (ok <==> !Cuts(addr) && old(used + Need(d, addr, heapGrows)) <= NORMAL_PAGES)
      ensures ok ==>
        var d, flags := if addr >= KERNBASE then kdir else pgdir, if addr >= KERNBASE then 0 else PTE_U;
        var e := Top(old(frames.Pushed())) + PTE_P + PTE_W + flags;
        && Valid() && old(used) <= used <= old(used) + 2
        && old(frames.Pushed()) == frames.Pushed() + [Top(old(frames.Pushed()))]
        && Walk(mem[..], d, addr) == Some(e)
        && Walk(mem[..], pgdir, addr) == (if Ent(mem[..], pgdir, Pdx(addr)) == 0 then None else Some(e))
        && (pgdir != d ==> Ent(mem[..], pgdir, Pdx(addr)) == old(Ent(mem[..], pgdir, Pdx(addr))))
        && SameElsewhere(old(mem[..]), mem[..], Y(), d, addr)
        && LinearSet(old(mem[..]), mem[..], Y(), addr, e)
        && 0 <= used && FreshKept(old(mem[..]), mem[..], used)
        && Translate(mem[..], d, addr) == Some(Access(PageOf(Top(old(frames.Pushed()))), true,
             addr < KERNBASE && (old(Ent(mem[..], d, Pdx(addr))) == 0 || UserBit(old(Ent(mem[..], d, Pdx(addr)))))))
      ensures ok && old(LinearOk(mem[..], Y())) ==> (LinearOk(mem[..], Y()) <==> !Linear(addr))
      ensures ok && old(Sides(mem[..], Y())) ==> Sides(mem[..], Y())
    {
      hide TablesOk, LeavesOk, Spare, KernelPages.Prefix, Walk, SameElsewhere, Pdx, Ptx, PageOf, FrameIn, Ent, PageDown;
      hide LinearSet, Intact, Mappable, Home, LinearOk, FreshKept, Translate, UserBit, Sides, RightSide;
      ghost var m: Memory, y := mem[..], Y();
      ghost var d := if addr >= KERNBASE then kdir else pgdir;
      FaultPlace(m, y, pgdir, addr);
      FewerIntact(m, y, 1);
      var pa := TakeFrame();
      FrameAligned(mem[..], Y(), frames.Pushed(), pa);
      if addr >= KERNBASE {
        ok := DoMap(kdir, addr, pa, 0, heapGrows);
      } else {
        ok := DoMap(pgdir, addr, pa, PTE_U, heapGrows);
      }
      if ok {
        FaultSeen(mem[..], Y(), pgdir, addr, d);
        DirBounds(mem[..], Y());
        if Sides(m, y) {
          MapSides(m, mem[..], y, Y(), d, addr, pa, if addr >= KERNBASE then 0 else PTE_U);
        }
        if addr >= KERNBASE {
          FaultBreaks(m, mem[..], y, Y(), addr, pa);
        } else {
          FaultKeeps(m, mem[..], y, Y(), addr, pa + PTE_P + PTE_W + PTE_U);
        }
      }
    }

    /** umap_init; None is kvm_alloc_page's panic. It copies kpgdir's upper part and leaves the lower part of
        the page as it finds it, so the new directory is well formed if and only if that part was zero. */
    method UmapInit() returns (r: Option<int>)
      requires Valid() && Intact(mem[..], Y(), 1)
      modifies mem, kvm.blocks, this`dirs, this`used
      ensures r.None? <==> old(used) == NORMAL_PAGES
      ensures r.Some? ==>
        && Valid()
        && r.value == old(used) && used == old(used) + 1 && r.value !in old(dirs)
        && dirs == old(dirs) + (if old(EmptyBelow(mem[..], used)) then {r.value} else {})
        && SameLinear(old(mem[..]), mem[..], Y())
        && 0 <= used && FreshKept(old(mem[..]), mem[..], used)
        && (forall a: Word :: a >= KERNBASE ==> Walk(mem[..], r.value, a) == old(Walk(mem[..], kdir, a)))
        && (r.value in dirs ==> forall a: Word :: a < KERNBASE ==> Walk(mem[..], r.value, a) == None)
        && (forall i :: 0 <= i < KERN_PDX ==> Ent(mem[..], r.value, i) == old(Ent(mem[..], used, i)))
        && (forall c, a: Word :: c in old(dirs) ==> Walk(mem[..], c, a) == old(Walk(mem[..], c, a)))
        && (old(Sides(mem[..], Y())) ==> Sides(mem[..], Y()))
    {
      hide TablesOk, LeavesOk, KernelPages.Prefix, Walk, CopiedDir, Ent, EmptyBelow, Intact, Home, SameLinear, FreshKept, Sides;
      ghost var m: Memory, y, pushed := mem[..], Y(), frames.Pushed();
      AllocCases(kvm.blocks[..], used);
      var page := kvm.AllocPage();
      if page.None? {
        return None;
      }
      DirBounds(m, y);
      var pgdir := V2P(page.value) / PGSIZE;
      PageReached(m, y, kdir);
      CopyUpper(pgdir);
      CopiedDirKeeps(m, mem[..], y);
      CopiedDirLeaves(m, mem[..], y, pushed);
      CopiedDirSame(m, mem[..], y);
      CopiedLower(m, mem[..], y.kdir, y.used);
      CopiedFresh(m, mem[..], y.kdir, y.used);
      SidesInto(m, mem[..], y);
      dirs := WithDir(m, y).dirs;
      used := used + 1;
      LinearInto(m, mem[..], y, Y());
      r := Some(pgdir);
    }

    /** The copying loop of umap_init. */
    method CopyUpper(t: int)
      requires Reaches(kdir) && Reaches(t) && t != kdir && !(ktbl <= t < ktbl + ENTRIES)
      modifies mem
      ensures CopiedDir(old(mem[..]), mem[..], kdir, t)
    {
      hide Home, Store, Ent, CopiedDir;
      ghost var m: Memory := mem[..];
      var i := Pdx(KERNBASE);
      NothingCopied(m, kdir, t);
      while i < ENTRIES
        invariant KERN_PDX <= i <= ENTRIES && Reaches(kdir) && Reaches(t)
        invariant Copying(m, mem[..], kdir, t, i)
      {
        ghost var before := mem[..];
        var e := Peek(kdir, i);
        Poke(t, i, e);
        CopyOne(m, before, mem[..], kdir, t, i);
        OnlyFrameCopied(m, mem[..], Y(), t, i + 1);
        i := i + 1;
      }
      CopiedBy(m, mem[..], kdir, t);
    }

    /** The middle of uvm_init: map the frame at the window, copy, unmap. The copy is not modelled. */
    method CopyThroughWindow(window: Word, phy: Word, ghost pushed: seq<Word>, heapGrows: bool) returns (ok: bool)
      requires Ready() && window == KERNBASE + MEM_NORMAL && 0 <= kdir < NORMAL_PAGES && Intact(mem[..], Y(), 2)
      requires LeavesOk(mem[..], Y(), pushed) && Spare(mem[..], Y(), pushed, phy)
      modifies mem, kvm.blocks, this`tables, this`used
      ensures ok <==> old(used + Need(kdir, window, heapGrows)) <= NORMAL_PAGES
      ensures ok ==>
        && Ready()
        && used == old(used + Need(kdir, window, heapGrows))
        && LeavesOk(mem[..], Y(), pushed) && Spare(mem[..], Y(), pushed, phy)
        && Walk(mem[..], kdir, window) == None
        && SameElsewhere(old(mem[..]), mem[..], Y(), kdir, window)
        && SameLinear(old(mem[..]), mem[..], Y())
        && 0 <= used && FreshKept(old(mem[..]), mem[..], used)
        && (forall c, k :: c in dirs && 0 <= k < ENTRIES && k != Pdx(window) ==> Ent(mem[..], c, k) == old(Ent(mem[..], c, k)))
        && (old(Sides(mem[..], Y())) ==> Sides(mem[..], Y()))
    {
      hide TablesOk, LeavesOk, Spare, KernelPages.Prefix, Walk, SameElsewhere, LeavesFollow, Returned, Ent, Intact, Home;
      hide LinearSet, SameDirs, SameLinear, FreshKept, Sides, RightSide, UserBit, Translate;
      ghost var m: Memory, y := mem[..], Y();
      DirBounds(m, y);
      SpareAligned(m, y, pushed, phy);
      FaultPlace(m, y, kdir, window);
      FewerIntact(m, y, 2);
      OneIntact(m, y, 2);
      ok := DoMap(kdir, window, phy, 0, heapGrows);
      if !ok {
        return;
      }
      ghost var m1: Memory, y1 := mem[..], Y();
      DirBounds(m1, y1);
      WindowNotLinear(m, m1, y, y1, window, PageDown(phy) + PTE_P + PTE_W + 0, 2);
      if Sides(m, y) {
        MapSides(m, m1, y, y1, kdir, window, phy, 0);
      }
      DoUnmap(kdir, window);
      if Sides(m, y) {
        UnmapSides(m1, mem[..], y1, kdir, window);
      }
      WindowReturned(m1, mem[..], y1, window, phy, pushed);
      SameChain(m, m1, mem[..], y1, kdir, window);
      WindowLinear(m, m1, mem[..], y1, window);
      EntriesKept(m1, mem[..], y1);
      FreshTwice(m, m1, mem[..], used, used);
    }

    /** uvm_init for a binary of sz bytes. False is a panic: too large, or no page left for what it needs. */
    method UvmInit(pgdir: int, sz: Word, heapGrows1: bool, heapGrows2: bool) returns (ok: bool)
      requires Valid() && pgdir in dirs && frames.Pushed() != [] && Intact(mem[..], Y(), 3)
      modifies mem, kvm.blocks, this`tables, this`used, frames`header
      ensures 0 <= kdir < NORMAL_PAGES && 0 <= pgdir < NORMAL_PAGES
      ensures ok <==>
        && sz <= PGSIZE
        && old(used + Need(kdir, KERNBASE + MEM_NORMAL, heapGrows1) + Need(pgdir, 0, heapGrows2)) <= NORMAL_PAGES
      ensures ok ==>
        var window := KERNBASE + MEM_NORMAL;
        && Valid() && old(used) <= used <= old(used) + 4
        && old(frames.Pushed()) == frames.Pushed() + [Top(old(frames.Pushed()))]
        && Walk(mem[..], pgdir, 0) == Some(Top(old(frames.Pushed())) + PTE_P + PTE_W + PTE_U)
        && Walk(mem[..], kdir, window) == None
        && SameButTwo(old(mem[..]), mem[..], Y(), window, pgdir)
        && SameLinear(old(mem[..]), mem[..], Y())
        && 0 <= used && FreshKept(old(mem[..]), mem[..], used)
        && Translate(mem[..], pgdir, 0) == Some(Access(PageOf(Top(old(frames.Pushed()))), true,
             old(Ent(mem[..], pgdir, 0)) == 0 || UserBit(old(Ent(mem[..], pgdir, 0)))))
        && (old(Sides(mem[..], Y())) ==> Sides(mem[..], Y()))
    {
      hide TablesOk, LeavesOk, Spare, KernelPages.Prefix, Walk, SameElsewhere, SameButTwo, Ent, Intact, Home;
      hide LinearSet, SameLinear, Mappable, FreshKept, Translate, UserBit, Sides, Ptx, PageOf;
      ghost var f := used;
      DirBounds(mem[..], Y());
      var phy := TakeFrame();
      ghost var pushed := frames.Pushed();
      FrameAligned(mem[..], Y(), pushed, phy);
      var virt := kvm.AllocUnmappedPage();
      assert KernelPages.Prefix(kvm.blocks[..], f);
      if virt.None? || sz > PGSIZE || phy == 0 {
        return false;
      }
      ok := MapTwice(pgdir, virt.value, phy, pushed, heapGrows1, heapGrows2);
    }

    /** The two mappings of uvm_init. */
    method MapTwice(pgdir: int, window: Word, phy: Word, ghost pushed: seq<Word>, heapGrows1: bool, heapGrows2: bool)
      returns (ok: bool)
      requires Ready() && pgdir in dirs && 0 <= pgdir < NORMAL_PAGES && 0 <= kdir < NORMAL_PAGES && Intact(mem[..], Y(), 3)
      requires window == KERNBASE + MEM_NORMAL && LeavesOk(mem[..], Y(), pushed) && Spare(mem[..], Y(), pushed, phy)
      requires PageDown(phy) == phy
      modifies mem, kvm.blocks, this`tables, this`used
      ensures ok <==> old(used + Need(kdir, window, heapGrows1) + Need(pgdir, 0, heapGrows2)) <= NORMAL_PAGES
      ensures ok ==>
        && Ready() && LeavesOk(mem[..], Y(), pushed)
        && used == old(used + Need(kdir, window, heapGrows1) + Need(pgdir, 0, heapGrows2))
        && Walk(mem[..], pgdir, 0) == Some(phy + PTE_P + PTE_W + PTE_U)
        && Walk(mem[..], kdir, window) == None
        && SameButTwo(old(mem[..]), mem[..], Y(), window, pgdir)
        && SameLinear(old(mem[..]), mem[..], Y())
        && 0 <= used && FreshKept(old(mem[..]), mem[..], used)
        && Translate(mem[..], pgdir, 0) ==
             Some(Access(PageOf(phy), true, old(Ent(mem[..], pgdir, 0)) == 0 || UserBit(old(Ent(mem[..], pgdir, 0)))))
        && (old(Sides(mem[..], Y())) ==> Sides(mem[..], Y()))
    {
      hide TablesOk, LeavesOk, Spare, KernelPages.Prefix, Walk, SameElsewhere, SameButTwo, Ent, Intact, Home;
      hide LinearSet, SameLinear, Mappable, FreshKept, Translate, UserBit, Sides;
      ghost var m: Memory, y := mem[..], Y();
      DirBounds(m, y);
      SameLinearItself(m, y);
      StillIntact(m, m, y, y, 3, 2);
      ok := CopyThroughWindow(window, phy, pushed, heapGrows1);
      if !ok {
        return;
      }
      ghost var m2: Memory, y2 := mem[..], Y();
      DirBounds(m2, y2);
      StillIntact(m, m2, y, y2, 3, 1);
      ok := MapFirstPage(pgdir, phy, pushed, heapGrows2);
      if ok {
        DirBounds(mem[..], Y());
        WindowWalks(m, m2, mem[..], y2, Y(), pgdir, window);
        FreshTwice(m, m2, mem[..], y2.used, used);
        SameLinearTwice(m, m2, mem[..], y2, Y());
      }
    }

    /** The end of uvm_init: the frame mapped at address 0 for the user. */
    method MapFirstPage(pgdir: int, phy: Word, ghost pushed: seq<Word>, heapGrows: bool) returns (ok: bool)
      requires Ready() && pgdir in dirs && 0 <= pgdir < NORMAL_PAGES && Intact(mem[..], Y(), 1)
      requires LeavesOk(mem[..], Y(), pushed) && Spare(mem[..], Y(), pushed, phy) && PageDown(phy) == phy
      modifies mem, kvm.blocks, this`tables, this`used
      ensures ok <==> old(used + Need(pgdir, 0, heapGrows)) <= NORMAL_PAGES
      ensures ok ==>
        && Ready() && LeavesOk(mem[..], Y(), pushed)
        && used == old(used + Need(pgdir, 0, heapGrows))
        && Walk(mem[..], pgdir, 0) == Some(phy + PTE_P + PTE_W + PTE_U)
        && SameElsewhere(old(mem[..]), mem[..], Y(), pgdir, 0)
        && SameLinear(old(mem[..]), mem[..], Y())
        && 0 <= used && FreshKept(old(mem[..]), mem[..], used)
        && Translate(mem[..], pgdir, 0) ==
             Some(Access(PageOf(phy), true, old(Ent(mem[..], pgdir, 0)) == 0 || UserBit(old(Ent(mem[..], pgdir, 0)))))
        && (old(Sides(mem[..], Y())) ==> Sides(mem[..], Y()))
    {
      hide TablesOk, LeavesOk, Spare, KernelPages.Prefix, Walk, SameElsewhere, Ent, Intact, Home;
      hide LinearSet, SameLinear, Mappable, FreshKept, Translate, UserBit, Sides;
      ghost var m: Memory, y := mem[..], Y();
      FaultPlace(m, y, pgdir, 0);
      DirBounds(m, y);
      FewerIntact(m, y, 1);
      ok := DoMap(pgdir, 0, phy, PTE_U, heapGrows);
      if ok {
        DirBounds(mem[..], Y());
        UserLinear(m, mem[..], y, Y(), PageDown(phy) + PTE_P + PTE_W + PTE_U);
        if Sides(m, y) {
          MapSides(m, mem[..], y, Y(), pgdir, 0, phy, PTE_U);
        }
      }
    }
  }

  function Top(pushed: seq<Word>): Word
    requires pushed != []
  {
    pushed[|pushed| - 1]
  }

  // ---- The sides under the methods above ----

  lemma MapSides(m: Memory, n: Memory, y: Layout, z: Layout, d: int, va: Word, pa: Word, flags: int)
    requires TablesOk(m, y) && TablesOk(n, z) && y.dirs == z.dirs && y.kdir == z.kdir && Sides(m, y) && Mappable(y, d, va)
    requires 0 <= d < NORMAL_PAGES
    requires flags == (if va < KERNBASE then 4 else 0) && PageDown(pa) + PTE_P + PTE_W + flags < ADDRESS_SPACE
    requires SameElsewhere(m, n, z, d, va) && Walk(n, d, va) == Some(PageDown(pa) + PTE_P + PTE_W + flags)
    requires forall c, k :: c in z.dirs && 0 <= k < ENTRIES && !(c == d && k == Pdx(va)) ==> Ent(n, c, k) == Ent(m, c, k)
    requires Ent(n, d, Pdx(va)) == if Ent(m, d, Pdx(va)) != 0 then Ent(m, d, Pdx(va)) else y.used * PGSIZE + 3 + flags
    ensures Sides(n, z)
  {
    hide Walk, Ent, UserBit, WriteBit, EntriesOk, HighOk, Unshared, SameElsewhere, Sides;
    OldSide(m, y, d, va);
    assert PageDown(pa) == PageOf(pa) * PGSIZE;
    hide PageDown, PageOf;
    MadeEntry(PageOf(pa), flags);
    MadeEntry(y.used, flags);
    SidesStored(m, n, y, z, d, va);
  }

  lemma SidesInto(m: Memory, n: Memory, y: Layout)
    requires TablesOk(m, y) && y.used < NORMAL_PAGES && CopiedDir(m, n, y.kdir, y.used)
    ensures FramesOk(WithDir(m, y)) && (Sides(m, y) ==> Sides(n, WithDir(m, y)))
  {
    CopiedDirKeeps(m, n, y);
    hide Sides, CopiedDir, WithDir, EntriesOk, HighOk, Unshared;
    if Sides(m, y) {
      SidesCopied(m, n, y);
    }
  }

  lemma OldSide(m: Memory, y: Layout, d: int, va: Word)
    requires FramesOk(y) && Sides(m, y) && d in y.dirs
    ensures 0 <= d < NORMAL_PAGES
    ensures Ent(m, d, Pdx(va)) != 0 ==> (UserBit(Ent(m, d, Pdx(va))) <==> va < KERNBASE)
  {
    hide Walk, Ent, UserBit;
    SideOf(va);
  }

  lemma UnmapSides(m: Memory, n: Memory, y: Layout, d: int, va: Word)
    requires FramesOk(y) && TablesOk(n, y) && Sides(m, y) && Mappable(y, d, va) && 0 <= d < NORMAL_PAGES
    requires SameElsewhere(m, n, y, d, va) && SameDirs(m, n, y) && Walk(n, d, va) == None
    ensures Sides(n, y)
  {
    OldSide(m, y, d, va);
    hide Walk, Ent, UserBit, WriteBit, EntriesOk, HighOk, Unshared, SameElsewhere;
    SidesStored(m, n, y, y, d, va);
  }

  // ---- The linear map under the methods above ----

  lemma InUseReached(m: Memory, y: Layout, d: int)
    requires TablesOk(m, y) && d in y.dirs && Intact(m, y, 0)
    ensures 0 <= d < y.used && d < NORMAL_PAGES && Home(m, y, d)
  {
    hide Home;
  }

  lemma PageReached(m: Memory, y: Layout, d: int)
    requires TablesOk(m, y) && d in y.dirs && Intact(m, y, 1) && y.used < NORMAL_PAGES
    ensures 0 <= d < y.used && Home(m, y, d) && Home(m, y, y.used) && !(y.ktbl <= y.used < y.ktbl + ENTRIES)
  {
    hide Home;
  }

  lemma TableReached(m: Memory, y: Layout, d: int, i: int)
    requires TablesOk(m, y) && d in y.dirs && 0 <= i < ENTRIES && Ent(m, d, i) != 0 && Intact(m, y, 0)
    ensures var t := FrameIn(Ent(m, d, i)); 0 <= t < y.used && t < NORMAL_PAGES && Home(m, y, t)
  {
    hide Home, Ent, HighOk, Unshared;
    EntryShape(m, y, d, i);
    TableBelow(m, y, d, i);
  }

  lemma EntryFrame(e: Word)
    ensures PageDown(e) == FrameIn(e) * PGSIZE && PageDown(e) / PGSIZE == FrameIn(e)
    ensures PageDown(e) == 0 <==> FrameIn(e) == 0
  {
  }

  lemma NothingSet(m: Memory, y: Layout, d: int, va: Word)
    requires TablesOk(m, y) && Mappable(y, d, va) && Ent(m, d, Pdx(va)) == 0
    ensures Walk(m, d, va) == None && SameElsewhere(m, m, y, d, va) && SameDirs(m, m, y) && LinearSet(m, m, y, va, 0)
    ensures Returned(m, m, y, d, va)
  {
    hide Ent, HighOk, Unshared, EntriesOk, LeavesOk, Spare;
    EntryShape(m, y, d, Pdx(va));
    LinearRange(va);
  }

  lemma LinearInto(m: Memory, n: Memory, y: Layout, z: Layout)
    requires FramesOk(y) && FramesOk(z) && y.ktbl == z.ktbl && SameLinear(m, n, y)
    ensures SameLinear(m, n, z)
  {
  }

  lemma StillIntact(m: Memory, n: Memory, y: Layout, z: Layout, k: int, l: int)
    requires FramesOk(y) && FramesOk(z) && y.ktbl == z.ktbl && (SameLinear(m, n, y) || SameLinear(m, n, z)) && Intact(m, y, k)
    requires z.used + l <= y.used + k
    ensures Intact(n, z, l)
  {
    hide LinearEntry;
    forall p | 0 <= p < NORMAL_PAGES && p < z.used + l
      ensures Home(n, z, p)
    {
      assert Home(m, y, p);
    }
  }

  lemma FewerIntact(m: Memory, y: Layout, k: int)
    requires TablesOk(m, y) && Intact(m, y, k) && k >= 0
    ensures FramesOk(y) && Intact(m, y, 0)
  {
    hide Home;
  }

  lemma OneIntact(m: Memory, y: Layout, k: int)
    requires FramesOk(y) && Intact(m, y, k) && k >= 1
    ensures Intact(m, y, 1)
  {
    hide Home;
  }

  lemma EntrySame(m: Memory, n: Memory, y: Layout, d: int, i: int)
    requires FramesOk(y) && SameDirs(m, n, y) && d in y.dirs && 0 <= i < ENTRIES
    ensures 0 <= d < NORMAL_PAGES && Ent(n, d, i) == Ent(m, d, i)
  {
    hide Ent;
  }

  lemma EntriesKept(m: Memory, n: Memory, y: Layout)
    requires FramesOk(y) && SameDirs(m, n, y)
    ensures forall d, i :: d in y.dirs && 0 <= i < ENTRIES ==> 0 <= d < NORMAL_PAGES && Ent(n, d, i) == Ent(m, d, i)
  {
    hide Ent;
  }

  lemma SameLinearItself(m: Memory, y: Layout)
    requires FramesOk(y)
    ensures SameLinear(m, m, y)
  {
  }

  /** Unless the page unmapped is d's own, d is still reached. */
  lemma StillReached(m: Memory, n: Memory, y: Layout, d: int, va: Word)
    requires TablesOk(m, y) && Mappable(y, d, va) && Intact(m, y, 0) && LinearSet(m, n, y, va, 0)
    requires !(Linear(va) && LinearPage(va) == y.kdir)
    ensures 0 <= d < NORMAL_PAGES && Home(n, y, d)
  {
    hide LinearEntry;
    assert Home(m, y, d);
  }

  /** An address without a table is outside the linear range, so unmapping it leaves the linear map. */
  lemma UserIntact(m: Memory, n: Memory, y: Layout, d: int, va: Word, k: int)
    requires TablesOk(n, y) && Mappable(y, d, va) && Ent(n, d, Pdx(va)) == 0
    requires LinearSet(m, n, y, va, 0) && Intact(m, y, k)
    ensures Intact(n, y, k) && Free(Pdx(va)) && d in y.dirs && (HIGH_PDX <= Pdx(va) ==> d == y.kdir)
  {
    hide LinearEntry, Ent;
    EntryShape(n, y, d, Pdx(va));
    LinearRange(va);
    forall p | 0 <= p < NORMAL_PAGES && p < y.used + k
      ensures Home(n, y, p)
    {
      assert Home(m, y, p);
    }
  }

  lemma TableStillReached(m0: Memory, m1: Memory, m2: Memory, y: Layout, z: Layout, d: int, va: Word)
    requires FramesOk(y) && TablesOk(m2, z) && z.ktbl == y.ktbl && z.kdir == y.kdir && z.used >= y.used
    requires Mappable(z, d, va) && Ent(m2, d, Pdx(va)) != 0
    requires !(Linear(va) && LinearPage(va) == y.ktbl + Pdx(va))
    requires Intact(m0, y, z.used - y.used) && LinearSet(m0, m1, y, va, 0) && SameLinear(m1, m2, z)
    ensures var t := FrameIn(Ent(m2, d, Pdx(va))); 0 <= t < z.used && t < NORMAL_PAGES && Home(m2, z, t)
  {
    hide LinearEntry, Ent, HighOk, Unshared;
    EntryShape(m2, z, d, Pdx(va));
    TableBelow(m2, z, d, Pdx(va));
    LinearRange(va);
    var t := FrameIn(Ent(m2, d, Pdx(va)));
    assert Home(m0, y, t);
    assert !(Linear(va) && LinearPage(va) == t) ==> Home(m1, y, t);
    assert Linear(va) ==> t == y.ktbl + Pdx(va);
  }

  lemma LinearThrough(m0: Memory, m1: Memory, m2: Memory, m3: Memory, y: Layout, z: Layout, va: Word, e: Word)
    requires FramesOk(y) && FramesOk(z) && y.ktbl == z.ktbl
    requires LinearSet(m0, m1, y, va, 0) && SameLinear(m1, m2, z) && LinearSet(m2, m3, z, va, e)
    ensures LinearSet(m0, m3, z, va, e)
  {
    hide LinearEntry;
  }

  lemma LinearSetInto(m: Memory, n: Memory, y: Layout, z: Layout, va: Word, e: Word)
    requires FramesOk(y) && FramesOk(z) && y.ktbl == z.ktbl && LinearSet(m, n, y, va, e)
    ensures LinearSet(m, n, z, va, e)
  {
    hide LinearEntry;
  }

  lemma EntriesThrough(m0: Memory, m1: Memory, m2: Memory, m3: Memory, y: Layout, z: Layout, d: int, i: int)
    requires FramesOk(y) && FramesOk(z) && y.dirs == z.dirs && SameDirs(m0, m1, y) && SameDirs(m2, m3, z)
    requires forall c, k :: c in y.dirs && 0 <= k < ENTRIES && !(c == d && k == i) ==>
      0 <= c < NORMAL_PAGES && Ent(m2, c, k) == Ent(m1, c, k)
    ensures forall c, k :: c in z.dirs && 0 <= k < ENTRIES && !(c == d && k == i) ==>
      0 <= c < NORMAL_PAGES && Ent(m3, c, k) == Ent(m0, c, k)
  {
    hide Ent;
  }

  /** A fault in the linear range puts a high frame where kmap_init had the page's own. */
  lemma FaultBreaks(m: Memory, n: Memory, y: Layout, z: Layout, va: Word, pa: Word)
    requires FramesOk(y) && FramesOk(z) && y.ktbl == z.ktbl && MEM_NORMAL <= pa && pa % PGSIZE == 0
    requires pa + 3 < ADDRESS_SPACE && LinearSet(m, n, z, va, pa + 3)
    ensures LinearOk(m, y) ==> (LinearOk(n, z) <==> !Linear(va))
  {
    hide LinearEntry;
    if LinearOk(m, y) {
      LinearOkInto(m, y, z);
      if Linear(va) {
        LinearFault(m, n, z, va, pa);
      } else {
        FaultKeeps(m, n, z, z, va, pa + 3);
      }
    }
  }

  lemma LinearOkInto(m: Memory, y: Layout, z: Layout)
    requires FramesOk(y) && FramesOk(z) && y.ktbl == z.ktbl && LinearOk(m, y)
    ensures LinearOk(m, z)
  {
    forall p | 0 <= p < NORMAL_PAGES
      ensures Home(m, z, p)
    {
      assert Home(m, y, p);
    }
  }

  lemma FaultKeeps(m: Memory, n: Memory, y: Layout, z: Layout, va: Word, e: Word)
    requires FramesOk(y) && FramesOk(z) && y.ktbl == z.ktbl && !Linear(va) && LinearSet(m, n, z, va, e)
    ensures LinearOk(m, y) ==> LinearOk(n, z)
  {
    hide LinearEntry;
    if LinearOk(m, y) {
      forall p | 0 <= p < NORMAL_PAGES
        ensures Home(n, z, p)
      {
        assert Home(m, y, p);
      }
    }
  }

  /** What the faulting directory sees after the fault. */
  lemma FaultSeen(m: Memory, y: Layout, pgdir: int, addr: Word, d: int)
    requires TablesOk(m, y) && pgdir in y.dirs && d == (if addr >= KERNBASE then y.kdir else pgdir)
    requires Walk(m, d, addr).Some?
    ensures 0 <= pgdir < NORMAL_PAGES && 0 <= d < NORMAL_PAGES
    ensures Walk(m, pgdir, addr) == if Ent(m, pgdir, Pdx(addr)) == 0 then None else Walk(m, d, addr)
  {
    hide TablesOk, Walk, Ent;
    DirBounds(m, y);
    if addr >= KERNBASE {
      KernelHalfShared(m, y, pgdir, addr);
    } else {
      WalkSlot(m, y, d, addr);
    }
  }

  lemma WindowNotLinear(m: Memory, n: Memory, y: Layout, z: Layout, window: Word, e: Word, k: int)
    requires FramesOk(y) && TablesOk(n, z) && y.ktbl == z.ktbl && window == KERNBASE + MEM_NORMAL
    requires LinearSet(m, n, z, window, e) && Intact(m, y, k) && z.used <= y.used + k
    requires Ent(n, z.kdir, Pdx(window)) != 0
    ensures Intact(n, z, 0)
  {
    hide LinearEntry, Ent;
    forall p | 0 <= p < z.used
      ensures Home(n, z, p)
    {
      assert Home(m, y, p);
    }
  }

  lemma WindowLinear(m: Memory, n: Memory, p: Memory, y: Layout, window: Word)
    requires FramesOk(y) && window == KERNBASE + MEM_NORMAL
    requires exists e: Word :: LinearSet(m, n, y, window, e)
    requires LinearSet(n, p, y, window, 0)
    ensures SameLinear(m, p, y)
  {
    hide LinearEntry;
  }

  lemma UserLinear(m: Memory, n: Memory, y: Layout, z: Layout, e: Word)
    requires FramesOk(y) && FramesOk(z) && y.ktbl == z.ktbl && LinearSet(m, n, z, 0, e)
    ensures SameLinear(m, n, z)
  {
    hide LinearEntry;
  }

  lemma SameLinearTwice(m: Memory, n: Memory, p: Memory, y: Layout, z: Layout)
    requires FramesOk(y) && FramesOk(z) && y.ktbl == z.ktbl && SameLinear(m, n, y) && SameLinear(n, p, z)
    ensures SameLinear(m, p, z)
  {
    hide LinearEntry;
  }

  lemma SpareAligned(m: Memory, y: Layout, pushed: seq<Word>, pa: Word)
    requires FramesOk(y) && Spare(m, y, pushed, pa)
    ensures MEM_NORMAL <= pa && pa % PGSIZE == 0 && pa !in pushed
  {
  }

  lemma SameChain(m: Memory, n: Memory, p: Memory, y: Layout, d: int, va: Word)
    requires FramesOk(y) && SameElsewhere(m, n, y, d, va) && SameElsewhere(n, p, y, d, va)
    ensures SameElsewhere(m, p, y, d, va)
  {
  }

  lemma WindowReturned(m: Memory, n: Memory, y: Layout, va: Word, pa: Word, pushed: seq<Word>)
    requires FramesOk(y) && LeavesOk(m, y, pushed) && LeavesFollow(m, y, n, y) && Returned(m, n, y, y.kdir, va)
    requires MEM_NORMAL <= pa && pa % PGSIZE == 0 && pa !in pushed
    requires Walk(m, y.kdir, va) == Some(PageDown(pa) + PTE_P + PTE_W + 0)
    ensures LeavesOk(n, y, pushed) && Spare(n, y, pushed, pa)
  {
  }

  /** n translates as m does, except kpgdir's page at the window and page 0 of pgdir. */
  ghost predicate SameButTwo(m: Memory, n: Memory, y: Layout, window: Word, pgdir: int)
    requires FramesOk(y)
  {
    forall c, a: Word :: c in y.dirs && PageOf(a) != PageOf(window) && !(c == pgdir && PageOf(a) == 0)
      ==> Walk(n, c, a) == Walk(m, c, a)
  }

  lemma WindowWalks(m: Memory, n: Memory, p: Memory, y: Layout, z: Layout, pgdir: int, window: Word)
    requires FramesOk(y) && FramesOk(z) && y.dirs == z.dirs && y.kdir == z.kdir && pgdir in y.dirs
    requires KERNBASE <= window
    requires SameElsewhere(m, n, y, y.kdir, window) && SameElsewhere(n, p, z, pgdir, 0) && Walk(n, y.kdir, window) == None
    ensures Walk(p, y.kdir, window) == None
    ensures SameButTwo(m, p, z, window, pgdir)
  {
    hide Walk;
  }

  /** Facts about the directory entry for va that the code relies on when it follows it. */
  lemma DirInRange(m: Memory, y: Layout, d: int, va: Word)
    requires TablesOk(m, y) && Mappable(y, d, va)
    ensures 0 <= d < NORMAL_PAGES && FramesOk(y)
    ensures var e := Ent(m, d, Pdx(va));
      && (e == 0 <==> FrameIn(e) == 0) && 0 <= FrameIn(e) < NORMAL_PAGES
      && (e == 0 ==> Walk(m, d, va) == None)
  {
    EntryShape(m, y, d, Pdx(va));
  }

  lemma StoreIs(m: Memory, n: seq<Word>, f: int, i: int, v: Word)
    requires 0 <= f < NORMAL_PAGES && 0 <= i < ENTRIES && n == m[f * ENTRIES + i := v]
    ensures n == Store(m, f, i, v)
  {
  }

  lemma DirBounds(m: Memory, y: Layout)
    requires TablesOk(m, y)
    ensures FramesOk(y) && forall d :: d in y.dirs ==> 0 < d < y.used
  {
  }

  /** kvm_alloc_page after boot: the next page up, or the panic when all are used. */
  lemma AllocCases(bs: seq<KernelPages.Block>, f: int)
    requires KernelPages.Prefix(bs, f)
    ensures KernelPages.FreeFrom(bs, 0) == KernelPages.PagesFrom(f)
    ensures f <= NORMAL_PAGES && (f == NORMAL_PAGES <==> KernelPages.FreeFrom(bs, 0) == [])
  {
    KernelPages.PrefixFree(bs, f);
  }

  /** An entry built from a frame and the flags is present, names the frame, and its low bits are the flags. */
  lemma EntryBits(t: int, flags: int)
    requires 0 <= t < 0x10_0000 && (flags == 0 || flags == PTE_U)
    ensures var e: Word := t * PGSIZE + PTE_P + PTE_W + flags;
      Present(e) && FrameIn(e) == t && e != 0 && (e % PGSIZE == 3 || e % PGSIZE == 7)
  {
  }

  lemma PageEntryBits(pa: Word, flags: int)
    requires flags == 0 || flags == PTE_U
    ensures PageDown(pa) + PTE_P + PTE_W + flags < ADDRESS_SPACE
    ensures var e: Word := PageDown(pa) + PTE_P + PTE_W + flags; Present(e) && FrameIn(e) == FrameIn(pa)
  {
  }

  lemma ReadEntry(m: Memory, d: int, i: int)
    requires 0 <= d < NORMAL_PAGES && 0 <= i < ENTRIES
    ensures PageDown(m[d * ENTRIES + i]) == FrameIn(Ent(m, d, i)) * PGSIZE
  {
  }

  lemma InstalledEntry(m: Memory, n: Memory, d: int, i: int, t: int, e: Word)
    requires 0 <= d < NORMAL_PAGES && 0 <= i < ENTRIES && 0 <= t < NORMAL_PAGES && Installed(m, n, d, i, t, e)
    ensures Ent(n, d, i) == e
  {
  }

  /** n is m with the first j words of frame t cleared. */
  ghost predicate Clearing(m: Memory, n: Memory, t: int, j: int)
    requires 0 <= t < NORMAL_PAGES
  {
    forall f, i :: 0 <= f < NORMAL_PAGES && 0 <= i < ENTRIES ==> Ent(n, f, i) == if f == t && i < j then 0 else Ent(m, f, i)
  }

  lemma ClearOne(m: Memory, n: Memory, p: Memory, t: int, j: int)
    requires 0 <= t < NORMAL_PAGES && 0 <= j < ENTRIES && Clearing(m, n, t, j) && p == Store(n, t, j, 0)
    ensures Clearing(m, p, t, j + 1)
  {
    hide Ent, Store;
    forall f, i | 0 <= f < NORMAL_PAGES && 0 <= i < ENTRIES
      ensures Ent(p, f, i) == if f == t && i < j + 1 then 0 else Ent(m, f, i)
    {
      StoreRead(n, t, j, 0, f, i);
    }
  }

  /** Clearing a frame that is no table of kpgtbl leaves the linear map. */
  lemma OnlyFrame(m: Memory, n: Memory, y: Layout, t: int, j: int)
    requires FramesOk(y) && 0 <= t < NORMAL_PAGES && !(y.ktbl <= t < y.ktbl + ENTRIES) && Clearing(m, n, t, j)
    ensures forall p :: 0 <= p < NORMAL_PAGES ==> (Home(n, y, p) <==> Home(m, y, p))
  {
    hide Ent;
    forall p | 0 <= p < NORMAL_PAGES
      ensures Home(n, y, p) <==> Home(m, y, p)
    {
      OtherFrame(m, n, y, t, j, p);
    }
  }

  lemma OtherFrame(m: Memory, n: Memory, y: Layout, t: int, j: int, p: int)
    requires FramesOk(y) && 0 <= t < NORMAL_PAGES && !(y.ktbl <= t < y.ktbl + ENTRIES) && Clearing(m, n, t, j)
    requires 0 <= p < NORMAL_PAGES
    ensures LinearEntry(n, y.ktbl, p) == LinearEntry(m, y.ktbl, p)
  {
    hide Ent;
  }

  lemma InstalledBy(m: Memory, n: Memory, p: Memory, d: int, i: int, t: int, e: Word)
    requires 0 <= d < NORMAL_PAGES && 0 <= i < ENTRIES && 0 <= t < NORMAL_PAGES && d != t
    requires Clearing(m, n, t, ENTRIES) && p == Store(n, d, i, e)
    ensures Installed(m, p, d, i, t, e)
  {
    hide Ent, Store;
    forall f, j | 0 <= f < NORMAL_PAGES && 0 <= j < ENTRIES
      ensures Ent(p, f, j) == if f == d && j == i then e else if f == t then 0 else Ent(m, f, j)
    {
      StoreRead(n, d, i, e, f, j);
    }
  }

  /** A fault concerns a page the handler may name. */
  lemma FaultPlace(m: Memory, y: Layout, pgdir: int, addr: Word)
    requires TablesOk(m, y) && pgdir in y.dirs
    ensures var d := if addr >= KERNBASE then y.kdir else pgdir; Mappable(y, d, addr) && 0 <= d < NORMAL_PAGES
  {
  }

  lemma FrameAligned(m: Memory, y: Layout, pushed: seq<Word>, pa: Word)
    requires FramesOk(y) && Spare(m, y, pushed, pa)
    ensures PageDown(pa) == pa && pa != 0
  {
  }

  lemma CopiedDirSame(m: Memory, n: Memory, y: Layout)
    requires TablesOk(m, y) && y.used < NORMAL_PAGES && CopiedDir(m, n, y.kdir, y.used)
    ensures forall a: Word :: a >= KERNBASE ==> Walk(n, y.used, a) == Walk(m, y.kdir, a)
    ensures EmptyBelow(m, y.used) ==> forall a: Word :: a < KERNBASE ==> Walk(n, y.used, a) == None
    ensures forall c, a: Word :: c in y.dirs ==> Walk(n, c, a) == Walk(m, c, a)
  {
    hide Walk, CopiedDir, EmptyBelow, Ent;
    forall a: Word
      ensures a >= KERNBASE ==> Walk(n, y.used, a) == Walk(m, y.kdir, a)
      ensures a < KERNBASE && EmptyBelow(m, y.used) ==> Walk(n, y.used, a) == None
    {
      CopiedDirWalk(m, n, y, y.used, a);
    }
    forall c, a: Word | c in y.dirs
      ensures Walk(n, c, a) == Walk(m, c, a)
    {
      CopiedDirWalk(m, n, y, c, a);
    }
  }

  /** n is m with the entries from KERN_PDX to i of directory kdir copied to frame t. */
  ghost predicate Copying(m: Memory, n: Memory, kdir: int, t: int, i: int)
    requires 0 <= kdir < NORMAL_PAGES && 0 <= t < NORMAL_PAGES
  {
    forall f, k :: 0 <= f < NORMAL_PAGES && 0 <= k < ENTRIES ==>
      Ent(n, f, k) == if f == t && KERN_PDX <= k < i then Ent(m, kdir, k) else Ent(m, f, k)
  }

  lemma NothingCopied(m: Memory, kdir: int, t: int)
    requires 0 <= kdir < NORMAL_PAGES && 0 <= t < NORMAL_PAGES
    ensures Copying(m, m, kdir, t, KERN_PDX)
  {
  }

  lemma CopyOne(m: Memory, n: Memory, p: Memory, kdir: int, t: int, i: int)
    requires 0 <= kdir < NORMAL_PAGES && 0 <= t < NORMAL_PAGES && t != kdir && KERN_PDX <= i < ENTRIES
    requires Copying(m, n, kdir, t, i) && p == Store(n, t, i, Ent(n, kdir, i))
    ensures Copying(m, p, kdir, t, i + 1)
  {
    hide Ent, Store;
    forall f, k | 0 <= f < NORMAL_PAGES && 0 <= k < ENTRIES
      ensures Ent(p, f, k) == if f == t && KERN_PDX <= k < i + 1 then Ent(m, kdir, k) else Ent(m, f, k)
    {
      StoreRead(n, t, i, Ent(n, kdir, i), f, k);
    }
  }

  lemma OnlyFrameCopied(m: Memory, n: Memory, y: Layout, t: int, i: int)
    requires FramesOk(y) && 0 <= y.kdir < NORMAL_PAGES && 0 <= t < NORMAL_PAGES && !(y.ktbl <= t < y.ktbl + ENTRIES)
    requires Copying(m, n, y.kdir, t, i)
    ensures forall p :: 0 <= p < NORMAL_PAGES ==> (Home(n, y, p) <==> Home(m, y, p))
  {
    hide Ent;
    forall p | 0 <= p < NORMAL_PAGES
      ensures LinearEntry(n, y.ktbl, p) == LinearEntry(m, y.ktbl, p)
    {
    }
  }

  lemma CopiedBy(m: Memory, n: Memory, kdir: int, t: int)
    requires 0 <= kdir < NORMAL_PAGES && 0 <= t < NORMAL_PAGES && t != kdir && Copying(m, n, kdir, t, ENTRIES)
    ensures CopiedDir(m, n, kdir, t)
  {
    hide Ent;
  }

  lemma CopiedLower(m: Memory, n: Memory, kdir: int, t: int)
    requires 0 <= kdir < NORMAL_PAGES && 0 <= t < NORMAL_PAGES && CopiedDir(m, n, kdir, t)
    ensures forall i :: 0 <= i < KERN_PDX ==> Ent(n, t, i) == Ent(m, t, i)
  {
  }

  // ---- Boot ----

  /** kpgdir and kpgtbl are distinct parts of the kernel image. */
  predicate ImageFrames(kdir: int, ktbl: int) {
    0 < kdir < NORMAL_PAGES && 0 < ktbl && ktbl + ENTRIES <= NORMAL_PAGES && !(ktbl <= kdir < ktbl + ENTRIES)
  }

  /** kmap_init's first loop after n pages. */
  ghost predicate LinearSoFar(m: Memory, kdir: int, ktbl: int, n: int)
    requires ImageFrames(kdir, ktbl)
  {
    && (forall i :: 0 <= i < ENTRIES ==>
          Ent(m, kdir, i) == if KERN_PDX <= i < KERN_PDX + (n + ENTRIES - 1) / ENTRIES then (ktbl + i) * PGSIZE + 3 else 0)
    && (forall p :: 0 <= p < n && p < NORMAL_PAGES ==> LinearEntry(m, ktbl, p) == p * PGSIZE + 3)
  }

  ghost predicate BlocksSoFar(bs: seq<KernelPages.Block>, n: int) {
    |bs| == KernelPages.NVMBLOCKS &&
    forall i :: 0 <= i < |bs| ==>
      bs[i] == if i < n then KernelPages.Block(KernelPages.AddressOf(i), 2) else KernelPages.Block(0, 0)
  }

  /** Only kpgdir and kpgtbl differ between m and n. */
  ghost predicate ImageOnly(m: Memory, n: Memory, kdir: int, ktbl: int) {
    forall f, i :: 0 <= f < NORMAL_PAGES && 0 <= i < ENTRIES && f != kdir && !(ktbl <= f < ktbl + ENTRIES) ==>
      Ent(n, f, i) == Ent(m, f, i)
  }

  lemma ImageSame(m: Memory, kdir: int, ktbl: int)
    ensures ImageOnly(m, m, kdir, ktbl)
  {
  }

  lemma ImageTwice(m: Memory, n: Memory, p: Memory, kdir: int, ktbl: int)
    requires ImageOnly(m, n, kdir, ktbl) && ImageOnly(n, p, kdir, ktbl)
    ensures ImageOnly(m, p, kdir, ktbl)
  {
    hide Ent;
  }

  lemma ImageStored(m: Memory, m1: Memory, n: Memory, kdir: int, ktbl: int, pdx: int, ptx: int, e: Word, v: Word)
    requires ImageFrames(kdir, ktbl) && 0 <= pdx < ENTRIES && 0 <= ptx < ENTRIES
    requires m1 == m || m1 == Store(m, kdir, pdx, e)
    requires n == Store(m1, ktbl + pdx, ptx, v)
    ensures ImageOnly(m, n, kdir, ktbl)
  {
    hide Ent, Store;
    forall f, i | 0 <= f < NORMAL_PAGES && 0 <= i < ENTRIES && f != kdir && !(ktbl <= f < ktbl + ENTRIES)
      ensures Ent(n, f, i) == Ent(m, f, i)
    {
      StoreRead(m, kdir, pdx, e, f, i);
      StoreRead(m1, ktbl + pdx, ptx, v, f, i);
    }
  }

  lemma ImageFresh(m: Memory, n: Memory, y: Layout)
    requires FramesOk(y) && y.kdir in y.dirs && ImageOnly(m, n, y.kdir, y.ktbl)
    ensures FreshKept(m, n, y.used)
  {
    hide Ent;
  }

  /** How many frames of the range lie above the linear part. */
  function HighCount(start: int, end: int): int {
    (end - (if start > MEM_NORMAL then start else MEM_NORMAL)) / PGSIZE + 1
  }

  /** The directory entry kmap_init finds for page p: set by an earlier page, or still zero. */
  lemma DirSoFar(m: Memory, kdir: int, ktbl: int, p: int)
    requires ImageFrames(kdir, ktbl) && 0 <= p < NORMAL_PAGES && LinearSoFar(m, kdir, ktbl, p)
    ensures var i := KERN_PDX + p / ENTRIES;
      && KERN_PDX <= i < HIGH_PDX
      && Ent(m, kdir, i) == (if p % ENTRIES == 0 then 0 else (ktbl + i) * PGSIZE + 3)
      && (Ent(m, kdir, i) != 0 ==> FrameIn(Ent(m, kdir, i)) == ktbl + i)
  {
    hide Ent;
  }

  lemma LinearStep(m: Memory, m1: Memory, n: Memory, kdir: int, ktbl: int, p: int)
    requires ImageFrames(kdir, ktbl) && 0 <= p < NORMAL_PAGES && LinearSoFar(m, kdir, ktbl, p)
    requires var i := KERN_PDX + p / ENTRIES;
      && i < HIGH_PDX
      && m1 == (if p % ENTRIES == 0 then Store(m, kdir, i, (ktbl + i) * PGSIZE + 3) else m)
      && n == Store(m1, ktbl + i, p % ENTRIES, p * PGSIZE + 3)
    ensures LinearSoFar(n, kdir, ktbl, p + 1)
  {
    hide Ent, Store;
    var i := KERN_PDX + p / ENTRIES;
    var e: Word := (ktbl + i) * PGSIZE + 3;
    forall j | 0 <= j < ENTRIES
      ensures Ent(n, kdir, j) == if p % ENTRIES == 0 && j == i then e else Ent(m, kdir, j)
    {
      StoreRead(m, kdir, i, e, kdir, j);
      StoreRead(m1, ktbl + i, p % ENTRIES, p * PGSIZE + 3, kdir, j);
    }
    forall q | 0 <= q <= p
      ensures LinearEntry(n, ktbl, q) == if q == p then p * PGSIZE + 3 else LinearEntry(m, ktbl, q)
    {
      var f, j := ktbl + KERN_PDX + q / ENTRIES, q % ENTRIES;
      StoreRead(m, kdir, i, e, f, j);
      StoreRead(m1, ktbl + i, p % ENTRIES, p * PGSIZE + 3, f, j);
    }
  }

  lemma LinearBlock(virt: Word, n: int)
    requires 0 <= n < NORMAL_PAGES && virt == P2V(n * PGSIZE)
    ensures KERNBASE <= virt && (virt - KERNBASE) / PGSIZE == n
  {
  }

  lemma NothingLinear(m: Memory, kdir: int, ktbl: int)
    requires ImageFrames(kdir, ktbl) && forall i :: 0 <= i < ENTRIES ==> Ent(m, kdir, i) == 0
    ensures LinearSoFar(m, kdir, ktbl, 0)
  {
  }

  lemma NoBlocks(bs: seq<KernelPages.Block>)
    requires |bs| == KernelPages.NVMBLOCKS && forall i :: 0 <= i < |bs| ==> bs[i] == KernelPages.Block(0, 0)
    ensures BlocksSoFar(bs, 0)
  {
  }

  lemma BlocksLinear(bs: seq<KernelPages.Block>)
    requires BlocksSoFar(bs, NORMAL_PAGES)
    ensures KernelPages.LinearlyMapped(bs)
  {
  }

  /** The tables kmap_init leaves satisfy the invariant, with kpgdir the only directory. */
  lemma BootTables(m: Memory, y: Layout)
    requires ImageFrames(y.kdir, y.ktbl) && LinearSoFar(m, y.kdir, y.ktbl, NORMAL_PAGES)
    requires y.dirs == {y.kdir} && y.tables == {} && y.kdir < y.used && y.ktbl + ENTRIES <= y.used <= NORMAL_PAGES
    ensures TablesOk(m, y) && LinearOk(m, y)
  {
    hide Ent;
    assert FramesOk(y);
    assert KERN_PDX + (NORMAL_PAGES + ENTRIES - 1) / ENTRIES == HIGH_PDX;
    assert EntriesOk(m, y) && HighOk(m, y) && Unshared(m, y) && LinearOk(m, y);
  }

  /** The frames on a stack with these slots. */
  function OnStack(slots: seq<Word>, header: int): seq<Word>
    requires -1 <= header < |slots|
  {
    if header <= 0 then [] else slots[1..header + 1]
  }

  lemma BootStackHigh(slots: seq<Word>, header: int, start: Word, end: Word)
    requires -1 <= header < |slots| && OnStack(slots, header) == FrameStack.PushOrder(start, end)
    requires start % PGSIZE == 0 && end % PGSIZE == 0 && start <= end && MEM_NORMAL <= end
    ensures header == |FrameStack.PushOrder(start, end)| >= 1 && slots[1] == end
  {
    assert OnStack(slots, header)[0] == end;
  }

  /** The drain of the boot stack leaves the frames above the linear map, once each. */
  lemma BootStack(before: seq<Word>, top: int, after: seq<Word>, header: int, start: Word, end: Word)
    requires 0 <= top < |before| == |after| && OnStack(before, top) == FrameStack.PushOrder(start, end)
    requires start % PGSIZE == 0 && end % PGSIZE == 0 && start <= end && MEM_NORMAL <= end
    requires 0 <= header <= top && before[header] >= MEM_NORMAL && after[header] == PageDown(before[header])
    requires forall i :: header < i <= top ==> before[i] < MEM_NORMAL
    requires forall i :: 0 <= i < |after| && i != header ==> after[i] == before[i]
    ensures forall a :: a in OnStack(after, header) <==> a % PGSIZE == 0 && start <= a <= end && MEM_NORMAL <= a
    ensures forall i, j :: 0 <= i < j < |OnStack(after, header)| ==> OnStack(after, header)[i] != OnStack(after, header)[j]
    ensures |OnStack(after, header)| == HighCount(start, end)
  {
    hide HighCount;
    var order := FrameStack.PushOrder(start, end);
    BootStackHigh(before, top, start, end);
    SlotsAreOrder(before, top, order);
    FrameStack.PushOrderAt(start, end, header - 1);
    AlignedDown(before[header]);
    assert OnStack(after, header) == order[..header];
    DrainedOrder(before, top, header, order);
    if header < top {
      FrameStack.PushOrderAt(start, end, header);
    }
    HighCountIs(start, end, top, header);
    HighOrder(start, end, header, order);
  }

  lemma SlotsAreOrder(before: seq<Word>, top: int, order: seq<int>)
    requires 1 <= top < |before| && OnStack(before, top) == order
    ensures |order| == top && forall k :: 0 <= k < top ==> before[k + 1] == order[k]
  {
    forall k | 0 <= k < top
      ensures before[k + 1] == order[k]
    {
      assert OnStack(before, top)[k] == before[k + 1];
    }
  }

  lemma HighOrder(start: Word, end: Word, header: int, order: seq<int>)
    requires start % PGSIZE == 0 && end % PGSIZE == 0 && start <= end && order == FrameStack.PushOrder(start, end)
    requires 1 <= header <= |order| && order[header - 1] >= MEM_NORMAL && forall k :: header <= k < |order| ==> order[k] < MEM_NORMAL
    ensures forall a :: a in order[..header] <==> a % PGSIZE == 0 && start <= a <= end && MEM_NORMAL <= a
    ensures forall i, j :: 0 <= i < j < header ==> order[i] != order[j]
  {
    hide FrameStack.PushOrder;
    forall a
      ensures a in order[..header] <==> a % PGSIZE == 0 && start <= a <= end && MEM_NORMAL <= a
    {
      FrameStack.DrainKeepsHighFrames(start, end, header, a);
    }
    forall i, j | 0 <= i < j < header
      ensures order[i] != order[j]
    {
      FrameStack.PushedOnce(start, end, i, j);
    }
  }

  lemma HighCountIs(start: int, end: int, top: int, header: int)
    requires start % PGSIZE == 0 && end % PGSIZE == 0 && start <= end && top == (end - start) / PGSIZE + 1 && 1 <= header <= top
    requires end - (header - 1) * PGSIZE >= MEM_NORMAL
    requires header < top ==> end - header * PGSIZE < MEM_NORMAL
    ensures header == HighCount(start, end)
  {
    var s, e, n := start / PGSIZE, end / PGSIZE, MEM_NORMAL / PGSIZE;
    assert start == s * PGSIZE && end == e * PGSIZE && MEM_NORMAL == n * PGSIZE;
    assert (end - start) / PGSIZE == e - s && (end - MEM_NORMAL) / PGSIZE == e - n;
    assert e - (header - 1) >= n;
    assert header < top ==> e - header < n;
  }

  lemma DrainedOrder(before: seq<Word>, top: int, header: int, order: seq<int>)
    requires 1 <= header <= top < |before| && |order| == top
    requires forall k :: 0 <= k < top ==> before[k + 1] == order[k]
    requires before[header] >= MEM_NORMAL && forall i :: header < i <= top ==> before[i] < MEM_NORMAL
    ensures order[header - 1] >= MEM_NORMAL
    ensures forall k :: header <= k < top ==> order[k] < MEM_NORMAL
  {
    assert before[header - 1 + 1] == order[header - 1];
    forall k | header <= k < top
      ensures order[k] < MEM_NORMAL
    {
      assert before[k + 1] == order[k];
    }
  }

  lemma AlignedDown(a: Word)
    ensures a % PGSIZE == 0 ==> PageDown(a) == a
  {
  }

  lemma BootLeaves(m: Memory, y: Layout, pushed: seq<Word>)
    requires FramesOk(y) && y.tables == {} && LinearOk(m, y)
    requires forall a :: a in pushed ==> MEM_NORMAL <= a && a % PGSIZE == 0
    requires forall i, j :: 0 <= i < j < |pushed| ==> pushed[i] != pushed[j]
    ensures LeavesOk(m, y, pushed)
  {
    hide Ent;
    forall t, j | HoldsSlots(y, t) && 0 <= j < ENTRIES
      ensures Ent(m, t, j) == HomeOf(y, t, j) && !High(Ent(m, t, j))
    {
      var p := (t - y.ktbl - KERN_PDX) * ENTRIES + j;
      assert Home(m, y, p);
    }
  }
}
