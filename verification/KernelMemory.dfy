// One memory under mm/kmalloc.c, mm/mmap.c and mm/vmmgr.c: the heap's bytes and the words of the page tables
// are parts of the same physical memory, seen at KERNBASE, and the pages of both come from the same table.

module KernelMemory {
  import opened Machine
  import opened ChunkList
  import opened ChunkLaws
  import opened Heap
  import opened PageTables
  import KernelPages

  /** Physical memory below MEM_NORMAL as words, read through the linear map. */
  ghost function Words(b: seq<Byte>): (m: Memory)
    requires |b| == ADDRESS_SPACE
  {
    seq(NORMAL_PAGES * ENTRIES, w requires 0 <= w < NORMAL_PAGES * ENTRIES => WordAt(b, KERNBASE + 4 * w))
  }

  /** Where entry i of frame f stands. */
  function AddressOf(f: int, i: int): (a: int)
    requires 0 <= f < NORMAL_PAGES && 0 <= i < ENTRIES
    ensures KERNBASE <= a && a + 4 <= KERNBASE + MEM_NORMAL
  {
    KERNBASE + f * PGSIZE + 4 * i
  }

  lemma EntIsWord(b: seq<Byte>, f: int, i: int)
    requires |b| == ADDRESS_SPACE && 0 <= f < NORMAL_PAGES && 0 <= i < ENTRIES
    ensures Ent(Words(b), f, i) == WordAt(b, AddressOf(f, i))
  {
    hide WordAt;
  }

  /** A frame that holds a directory or a table. */
  predicate HoldsTable(y: Layout, f: int) {
    f in y.dirs || f in y.tables || y.ktbl <= f < y.ktbl + ENTRIES
  }

  /** The heap's pages are in use, and none of them holds a directory or a table. */
  ghost predicate OwnPages(y: Layout, taken: seq<int>) {
    forall a :: InPage(taken, a) ==> KERNBASE <= a < KERNBASE + y.used * PGSIZE && !HoldsTable(y, (a - KERNBASE) / PGSIZE)
  }

  /** Nothing that the page tables consist of differs between m and n. */
  ghost predicate SameTables(m: Memory, n: Memory, y: Layout) {
    forall f, i :: 0 <= f < NORMAL_PAGES && HoldsTable(y, f) && 0 <= i < ENTRIES ==> Ent(n, f, i) == Ent(m, f, i)
  }

  /** Equal tables mean equal translation, everywhere. */
  lemma SameTranslation(m: Memory, n: Memory, y: Layout)
    requires TablesOk(m, y) && SameTables(m, n, y)
    ensures TablesOk(n, y) && SameLinear(m, n, y)
    ensures forall d, a: Word :: d in y.dirs ==> Walk(n, d, a) == Walk(m, d, a)
  {
    hide Ent, EntriesOk, HighOk, Unshared;
    DirsDecide(m, n, y);
    forall p | 0 <= p < NORMAL_PAGES
      ensures LinearEntry(n, y.ktbl, p) == LinearEntry(m, y.ktbl, p)
    {
      assert HoldsTable(y, y.ktbl + KERN_PDX + p / ENTRIES);
    }
    forall d, a: Word | d in y.dirs
      ensures Walk(n, d, a) == Walk(m, d, a)
    {
      EntryShape(m, y, d, Pdx(a));
      assert Ent(n, d, Pdx(a)) == Ent(m, d, Pdx(a));
    }
  }

  /** The heap writes inside its own pages, so it changes no table. */
  lemma HeapKeepsTables(b: seq<Byte>, c: seq<Byte>, l: seq<Chunk>, taken: seq<int>, y: Layout)
    requires |b| == ADDRESS_SPACE && Untouched(b, c, l, taken) && OwnPages(y, taken)
    ensures |c| == ADDRESS_SPACE && SameTables(Words(b), Words(c), y)
  {
    hide WordAt, InPage, InUsed, Words;
    forall f, i | 0 <= f < NORMAL_PAGES && HoldsTable(y, f) && 0 <= i < ENTRIES
      ensures Ent(Words(c), f, i) == Ent(Words(b), f, i)
    {
      var a := AddressOf(f, i);
      EntIsWord(b, f, i);
      EntIsWord(c, f, i);
      forall k | a <= k < a + 4
        ensures c[k] == b[k]
      {
        assert (k - KERNBASE) / PGSIZE == f;
      }
      SameWord(b, c, a);
    }
  }

  lemma SameWord(b: seq<Byte>, c: seq<Byte>, a: int)
    requires |b| == |c| && 0 <= a && a + 4 <= |b| && forall k :: a <= k < a + 4 ==> c[k] == b[k]
    ensures WordAt(c, a) == WordAt(b, a)
  {
  }

  // ---- The pages ----

  lemma {:induction false} PagesAfter(f: int, k: nat)
    requires 0 <= f && f + k <= NORMAL_PAGES
    ensures |KernelPages.PagesFrom(f)| == NORMAL_PAGES - f && KernelPages.PagesFrom(f)[k..] == KernelPages.PagesFrom(f + k)
    decreases k
  {
    if f < NORMAL_PAGES {
      KernelPages.PagesFromAt(f, 0);
    }
    if k > 0 {
      PagesAfter(f + 1, k - 1);
    }
  }

  /** The layout when k more pages are in use. */
  function More(y: Layout, k: int): Layout {
    y.(used := y.used + k)
  }

  lemma MoreUsed(m: Memory, y: Layout, k: nat)
    requires TablesOk(m, y) && y.used + k <= NORMAL_PAGES
    ensures TablesOk(m, More(y, k))
  {
    hide Ent;
    var z := More(y, k);
    assert FramesOk(z) && EntriesOk(m, z) && HighOk(m, z) && Unshared(m, z);
  }

  /** The pages that kmalloc has taken are the next ones, so they hold no table. */
  lemma StillApart(y: Layout, taken: seq<int>, rest: seq<int>, after: seq<int>)
    requires FramesOk(y) && OwnPages(y, taken) && Rest(rest, KernelPages.PagesFrom(y.used))
    requires forall a :: InPage(after, a) <==> InPage(TakenAfter(taken, KernelPages.PagesFrom(y.used), rest), a)
    ensures var k := |KernelPages.PagesFrom(y.used)| - |rest|;
      y.used + k <= NORMAL_PAGES && rest == KernelPages.PagesFrom(y.used + k) && OwnPages(More(y, k), after)
  {
    var pages := KernelPages.PagesFrom(y.used);
    var k := |pages| - |rest|;
    PagesAfter(y.used, 0);
    PagesAfter(y.used, k);
    forall a | InPage(after, a)
      ensures KERNBASE <= a < KERNBASE + (y.used + k) * PGSIZE && !HoldsTable(y, (a - KERNBASE) / PGSIZE)
    {
      var all := TakenAfter(taken, pages, rest);
      var i :| 0 <= i < |all| && all[i] <= a < all[i] + PGSIZE;
      if i < |taken| {
        assert InPage(taken, a);
      } else {
        KernelPages.PagesFromAt(y.used, i - |taken|);
        assert (a - KERNBASE) / PGSIZE == y.used + (i - |taken|);
      }
    }
  }

  // ---- The operations ----

  /** Heap and tables in one memory. */
  ghost predicate Coupled(h: Heap, y: Layout)
    reads h, h.mem, h.kvm, h.kvm.blocks
  {
    && h.Valid()
    && TablesOk(Words(h.mem[..]), y)
    && h.kvm.FreePages() == KernelPages.PagesFrom(y.used)
    && OwnPages(y, h.taken)
  }

  /** n translates as m does, in every directory. */
  ghost predicate SameWalks(m: Memory, n: Memory, y: Layout)
    requires FramesOk(y)
  {
    forall d, a: Word :: d in y.dirs ==> Walk(n, d, a) == Walk(m, d, a)
  }

  /** kmalloc, seen from the page tables: whatever pages it takes and headers it writes, no translation in any
      directory changes, and the heap stays apart from every directory and table. */
  method Kmalloc(h: Heap, ghost y: Layout, size: Word) returns (panicked: bool, res: Word, ghost z: Layout)
    requires Coupled(h, y)
    modifies h, h.mem, h.kvm.blocks
    ensures panicked <==> Malloc(old(h.chunks), size, old(h.kvm.FreePages())).Panic?
    ensures !panicked ==>
      var o := Malloc(old(h.chunks), size, old(h.kvm.FreePages()));
      && h.chunks == o.list && res == (if o.Got? then o.addr else 0)
      && z == More(y, |old(h.kvm.FreePages())| - |o.pages|)
      && Coupled(h, z) && FramesOk(y)
      && SameTables(Words(old(h.mem[..])), Words(h.mem[..]), y)
      && SameWalks(Words(old(h.mem[..])), Words(h.mem[..]), y)
      && Untouched(old(h.mem[..]), h.mem[..], old(h.chunks), h.taken)
  {
    hide Words, TablesOk, Untouched, Inv, Malloc, Sound, Stored, KernelPages.PagesFrom, KernelPages.FreeFrom, OwnPages, SameTables, SameWalks;
    ghost var b, l, t, pages := h.mem[..], h.chunks, h.taken, h.kvm.FreePages();
    ghost var o := Malloc(l, size, pages);
    MallocSound(l, size, t, pages);
    panicked, res := h.Kmalloc(size);
    z := y;
    if !panicked {
      z := More(y, |pages| - |o.pages|);
      AfterMalloc(b, h.mem[..], y, z, l, size, t, h.taken, pages, o, h.chunks, h.kvm.FreePages());
    }
  }

  lemma AfterMalloc(b: seq<Byte>, c: seq<Byte>, y: Layout, z: Layout, l: seq<Chunk>, size: int, t: seq<int>, u: seq<int>,
                    pages: seq<int>, o: Outcome, m: seq<Chunk>, rest: seq<int>)
    requires |b| == ADDRESS_SPACE && TablesOk(Words(b), y) && pages == KernelPages.PagesFrom(y.used) && OwnPages(y, t)
    requires Sound(l, size, t, pages, o) && !o.Panic? && m == o.list && rest == o.pages
    requires Inv(m, u, rest) && Untouched(b, c, l, u) && z == More(y, |pages| - |rest|)
    ensures |c| == ADDRESS_SPACE && FramesOk(y) && TablesOk(Words(c), z) && rest == KernelPages.PagesFrom(z.used) && OwnPages(z, u)
    ensures SameTables(Words(b), Words(c), y) && SameWalks(Words(b), Words(c), y)
  {
    hide Words, Untouched, Sorted, Increasing, InChunk, InPage, EntriesOk, HighOk, Unshared, Total, SameTables, KernelPages.PagesFrom;
    SamePages(m, u, TakenAfter(t, pages, rest));
    StillApart(y, t, rest, u);
    assert OwnPages(z, u);
    HeapKeepsTables(b, c, l, u, z);
    assert SameTables(Words(b), Words(c), y) by {
      SameHolders(Words(b), Words(c), y, z);
    }
    SameTranslation(Words(b), Words(c), y);
    MoreUsed(Words(c), y, |pages| - |rest|);
  }

  lemma SameHolders(m: Memory, n: Memory, y: Layout, z: Layout)
    requires SameTables(m, n, z) && z.dirs == y.dirs && z.tables == y.tables && z.ktbl == y.ktbl
    ensures SameTables(m, n, y)
  {
    assert forall f :: HoldsTable(y, f) <==> HoldsTable(z, f);
  }

  lemma SamePages(l: seq<Chunk>, t: seq<int>, u: seq<int>)
    requires Tiles(l, t) && Tiles(l, u)
    ensures forall a :: InPage(t, a) <==> InPage(u, a)
  {
    hide InPage, InChunk;
    forall a
      ensures InPage(t, a) <==> InPage(u, a)
    {
      assert InChunk(l, a) <==> InPage(t, a);
    }
  }

  /** kmfree changes no translation either. */
  method Kmfree(h: Heap, ghost y: Layout, addr: Word)
    requires Coupled(h, y)
    modifies h`chunks, h.mem
    ensures Coupled(h, y) && FramesOk(y)
    ensures h.chunks == ChunkList.Free(old(h.chunks), addr)
    ensures SameTables(Words(old(h.mem[..])), Words(h.mem[..]), y)
    ensures SameWalks(Words(old(h.mem[..])), Words(h.mem[..]), y)
    ensures Untouched(old(h.mem[..]), h.mem[..], Released(old(h.chunks), addr), h.taken)
  {
    hide Words, Untouched, Inv, Stored, ChunkList.Free, Released, KernelPages.PagesFrom, KernelPages.FreeFrom, OwnPages, SameTables, EntriesOk, HighOk, Unshared;
    ghost var b, l := h.mem[..], Released(h.chunks, addr);
    h.Kmfree(addr);
    HeapKeepsTables(b, h.mem[..], l, h.taken, y);
    SameTranslation(Words(b), Words(h.mem[..]), y);
  }

  /** A page for a table or a directory: the heap does not own it and never will. */
  method TablePage(h: Heap, ghost y: Layout) returns (f: Option<int>)
    requires Coupled(h, y)
    modifies h.kvm.blocks
    ensures f.None? <==> y.used == NORMAL_PAGES
    ensures f.Some? ==>
      && f.value == y.used
      && Coupled(h, More(y, 1))
      && OwnPages(More(y, 1).(tables := y.tables + {f.value}), h.taken)
      && OwnPages(More(y, 1).(dirs := y.dirs + {f.value}), h.taken)
  {
    hide Words, TablesOk, Stored, KernelPages.FreeFrom, KernelPages.PagesFrom, Inv, OwnPages;
    ghost var pages := h.kvm.FreePages();
    NextPage(Words(h.mem[..]), y, h.taken);
    var page := h.kvm.AllocPage();
    if page.None? {
      return None;
    }
    f := Some(V2P(page.value) / PGSIZE);
    InvOther(h.chunks, h.taken, pages);
  }

  lemma NextPage(m: Memory, y: Layout, taken: seq<int>)
    requires TablesOk(m, y) && OwnPages(y, taken)
    ensures var pages := KernelPages.PagesFrom(y.used);
      && (pages == [] <==> y.used == NORMAL_PAGES)
      && (pages != [] ==>
           && 0 <= pages[0] < ADDRESS_SPACE && V2P(pages[0]) / PGSIZE == y.used
           && pages[1..] == KernelPages.PagesFrom(More(y, 1).used)
           && TablesOk(m, More(y, 1)) && OwnPages(More(y, 1), taken)
           && OwnPages(More(y, 1).(tables := y.tables + {y.used}), taken)
           && OwnPages(More(y, 1).(dirs := y.dirs + {y.used}), taken))
  {
    hide EntriesOk, HighOk, Unshared;
    PagesAfter(y.used, 0);
    if y.used < NORMAL_PAGES {
      PagesAfter(y.used, 1);
      KernelPages.PagesFromAt(y.used, 0);
      MoreUsed(m, y, 1);
      hide KernelPages.PagesFrom;
      ApartLater(y, taken);
    }
  }

  lemma ApartLater(y: Layout, taken: seq<int>)
    requires OwnPages(y, taken)
    ensures OwnPages(More(y, 1), taken)
    ensures OwnPages(More(y, 1).(tables := y.tables + {y.used}), taken)
    ensures OwnPages(More(y, 1).(dirs := y.dirs + {y.used}), taken)
  {
    hide InPage;
    forall a | InPage(taken, a)
      ensures KERNBASE <= a < KERNBASE + y.used * PGSIZE && (a - KERNBASE) / PGSIZE != y.used
    {
    }
  }

  lemma InvOther(l: seq<Chunk>, taken: seq<int>, pages: seq<int>)
    requires Inv(l, taken, pages) && pages != []
    ensures Inv(l, taken, pages[1..])
  {
    OtherTakes(l, taken + pages, taken, [], pages);
  }

  /** None of the heap's pages is the page of frame f. */
  ghost predicate Outside(taken: seq<int>, f: int) {
    forall a :: InPage(taken, a) ==> (a - KERNBASE) / PGSIZE != f
  }

  lemma TablesOutside(y: Layout, taken: seq<int>, f: int)
    requires OwnPages(y, taken) && HoldsTable(y, f)
    ensures Outside(taken, f)
  {
    hide InPage;
  }

  /** A load from a directory or table. */
  method TableLoad(h: Heap, f: int, i: int) returns (v: Word)
    requires h.mem.Length == ADDRESS_SPACE && 0 <= f < NORMAL_PAGES && 0 <= i < ENTRIES
    ensures v == Ent(Words(h.mem[..]), f, i)
  {
    hide Words, WordAt, Ent;
    EntIsWord(h.mem[..], f, i);
    v := LoadWord(h.mem, AddressOf(f, i));
  }

  /** A store into a page that is not the heap's, a directory or table say, changes that one word, and nothing
      the heap holds: no header, no payload. */
  method TableStore(h: Heap, f: int, i: int, v: Word)
    requires h.Valid() && 0 <= f < NORMAL_PAGES && Outside(h.taken, f) && 0 <= i < ENTRIES
    modifies h.mem
    ensures h.Valid()
    ensures Words(h.mem[..]) == Store(Words(old(h.mem[..])), f, i, v)
    ensures HeapKept(old(h.mem[..]), h.mem[..], h.taken)
  {
    hide Words, WordAt, Stored, Inv, WordsKept, KernelPages.FreeFrom, Outside, HeapKept;
    ghost var b := h.mem[..];
    var a := AddressOf(f, i);
    StoreWord(h.mem, a, v);
    WordStored(b, h.mem[..], f, i, v);
    StoreLeavesHeap(b, h.mem[..], h.chunks, h.taken, h.kvm.FreePages(), f, i);
  }

  /** No byte of the heap's pages has changed. */
  ghost predicate HeapKept(b: seq<Byte>, c: seq<Byte>, taken: seq<int>) {
    |b| == |c| && forall a :: 0 <= a < |b| && InPage(taken, a) ==> c[a] == b[a]
  }

  lemma WordStored(b: seq<Byte>, c: seq<Byte>, f: int, i: int, v: Word)
    requires |b| == |c| == ADDRESS_SPACE && 0 <= f < NORMAL_PAGES && 0 <= i < ENTRIES
    requires var a := AddressOf(f, i); WordAt(c, a) == v && WordsKept(b, c, a, a + 4)
    ensures Words(c) == Store(Words(b), f, i, v)
  {
    hide WordAt;
    var m, n := Words(b), Words(c);
    forall w | 0 <= w < |n|
      ensures n[w] == if w == f * ENTRIES + i then v else m[w]
    {
      assert n[w] == WordAt(c, KERNBASE + 4 * w) && m[w] == WordAt(b, KERNBASE + 4 * w);
    }
  }

  lemma StoreLeavesHeap(b: seq<Byte>, c: seq<Byte>, l: seq<Chunk>, taken: seq<int>, pages: seq<int>, f: int, i: int)
    requires |b| == |c| == ADDRESS_SPACE && 0 <= f < NORMAL_PAGES && Outside(taken, f) && 0 <= i < ENTRIES
    requires var a := AddressOf(f, i); BytesKept(b, c, a, a + 4)
    requires Inv(l, taken, pages) && Stored(b, l)
    ensures Stored(c, l) && HeapKept(b, c, taken)
  {
    hide HeaderAt, InPage, InChunk, Increasing, Total;
    var a := AddressOf(f, i);
    forall k | a <= k < a + 4
      ensures !InPage(taken, k)
    {
      assert (k - KERNBASE) / PGSIZE == f;
    }
    StoredKept(b, c, l, a, a + 4);
    forall j | 0 <= j < |l|
      ensures StoredAt(c, l, j)
    {
      ChunkApart(l, taken, j, a);
    }
  }

  /** A chunk does not reach into bytes outside the heap's pages. */
  lemma ChunkApart(l: seq<Chunk>, taken: seq<int>, j: int, a: int)
    requires Sorted(l) && Tiles(l, taken) && 0 <= j < |l| && forall k :: a <= k < a + 4 ==> !InPage(taken, k)
    ensures End(l[j]) <= a || a + 4 <= l[j].head
  {
    hide InPage;
    var k := if a < l[j].head then l[j].head else a;
    assert l[j].head <= k < End(l[j]) ==> InChunk(l, k);
  }
}
