// mmap_do_map with its bookkeeping kmalloc, mmap_do_unmap, kmalloc and kmfree over one memory, and any run of
// them: the memory refines a list of chunks and a flat map from pages to entries, side by side.

module KernelRuns {
  import opened Machine
  import opened ChunkList
  import opened ChunkLaws
  import opened Heap
  import opened PageTables
  import opened KernelMemory
  import Mmap
  import KernelPages
  import PagingRuns
  import FrameStack

  const RECORD: Word := 16   // sizeof(struct mmap_block) on i686

  // ---- The abstract kernel ----

  /** The heap's chunks, the pages in use, the directory entries that have a table, each with whether user code
      may go through it, and what each page of each directory is mapped to, outside the linear range. */
  datatype Model = Model(list: seq<Chunk>, used: int, has: map<(int, int), bool>, flat: map<(int, int), Word>)

  datatype Op =
    | Alloc(size: Word)
    | Give(addr: Word)
    | Map(d: int, va: Word, pa: Word, flags: Word, freed: Option<Word>, first: bool)
    | Unmap(d: int, va: Word)

  function Key(d: int, va: Word): (int, int) {
    (d, PageOf(va))
  }

  function Entry(pa: Word, flags: Word): int {
    PageDown(pa) + PTE_P + PTE_W + flags
  }

  /** What kmalloc makes of the list and the pages, the outcome being no panic. */
  function Took(k: Model, o: Outcome): Model
    requires !o.Panic?
  {
    k.(list := o.list, used := NORMAL_PAGES - |o.pages|)
  }

  /** The record that the unmapping inside mmap_do_map gives back, if there is one. */
  function WithoutRecord(l: seq<Chunk>, freed: Option<Word>): seq<Chunk> {
    if freed.None? then l else ChunkList.Free(l, freed.value)
  }

  /** The tables once entry i of directory d has one: a table that was there keeps the entry it has. */
  function Tabled(has: map<(int, int), bool>, d: int, i: int, flags: int): map<(int, int), bool> {
    if (d, i) in has then has else has[(d, i) := flags == PTE_U]
  }

  /** The pages in use once va has a table. */
  function TableUsed(k: Model, d: int, va: Word): int {
    k.used + if (d, Pdx(va)) in k.has then 0 else 1
  }

  /** One operation; None is a panic, or the store through NULL that follows a refused kmalloc. */
  function Step(k: Model, op: Op): Option<Model>
    requires 0 <= k.used <= NORMAL_PAGES
    ensures Step(k, op).Some? ==> 0 <= Step(k, op).value.used <= NORMAL_PAGES
  {
    match op
    case Alloc(size) =>
      var o := Malloc(k.list, size, KernelPages.PagesFrom(k.used));
      if o.Panic? || |o.pages| > NORMAL_PAGES then None else Some(Took(k, o))
    case Give(addr) => Some(k.(list := ChunkList.Free(k.list, addr)))
    case Unmap(d, va) => Some(k.(flat := k.flat - {Key(d, va)}))
    case Map(d, va, pa, flags, freed, first) =>
      var n := TableUsed(k, d, va);
      if n > NORMAL_PAGES || Entry(pa, flags) >= ADDRESS_SPACE then None
      else
        var o := Malloc(WithoutRecord(k.list, freed), RECORD, KernelPages.PagesFrom(n));
        if !o.Got? || |o.pages| > NORMAL_PAGES then None
        else Some(Took(k, o).(has := Tabled(k.has, d, Pdx(va), flags), flat := k.flat[Key(d, va) := Entry(pa, flags)]))
  }

  function Steps(k: Model, ops: seq<Op>): Option<Model>
    requires 0 <= k.used <= NORMAL_PAGES
    ensures Steps(k, ops).Some? ==> 0 <= Steps(k, ops).value.used <= NORMAL_PAGES
  {
    if ops == [] then Some(k)
    else
      match Steps(k, ops[..|ops| - 1])
      case None => None
      case Some(r) => Step(r, ops[|ops| - 1])
  }

  // ---- What the memory shows ----

  /** Outside the linear range every directory translates as the flat map says. */
  ghost predicate Flattens(m: Memory, y: Layout, flat: map<(int, int), Word>)
    requires FramesOk(y)
  {
    forall d, va: Word :: Mappable(y, d, va) && !Linear(va) ==>
      Walk(m, d, va) == if Key(d, va) in flat then Some(flat[Key(d, va)]) else None
  }

  ghost predicate HasTables(m: Memory, y: Layout, has: map<(int, int), bool>)
    requires FramesOk(y)
  {
    forall d, i :: d in y.dirs && PageTables.Free(i) ==>
      if (d, i) in has then Ent(m, d, i) != 0 && (has[(d, i)] <==> UserBit(Ent(m, d, i))) else Ent(m, d, i) == 0
  }

  ghost predicate Shows(h: Heap, y: Layout, k: Model)
    reads h, h.mem, h.kvm, h.kvm.blocks
  {
    && Coupled(h, y) && LinearOk(Words(h.mem[..]), y)
    && h.chunks == k.list && y.used == k.used
    && HasTables(Words(h.mem[..]), y, k.has)
    && Flattens(Words(h.mem[..]), y, k.flat)
  }

  /** An operation names a page that the tables in question may map. */
  predicate Allowed(y: Layout, op: Op) {
    match op
    case Map(d, va, _, flags, _, _) => Mappable(y, d, va) && !Linear(va) && (flags == 0 || flags == PTE_U)
    case Unmap(d, va) => Mappable(y, d, va) && !Linear(va)
    case _ => true
  }

  /** The chunks in use, headers included, hold what they held. */
  ghost predicate UsedKept(b: seq<Byte>, c: seq<Byte>, l: seq<Chunk>) {
    |b| == |c| && forall a :: 0 <= a < |b| && InUsed(l, a) ==> c[a] == b[a]
  }

  // ---- Unmapping ----

  method UnmapSlot(h: Heap, ghost y: Layout, d: int, va: Word)
    requires Coupled(h, y) && LinearOk(Words(h.mem[..]), y) && Mappable(y, d, va) && !Linear(va)
    modifies h.mem
    ensures Coupled(h, y) && LinearOk(Words(h.mem[..]), y)
    ensures Walk(Words(h.mem[..]), d, va) == None
    ensures SameElsewhere(Words(old(h.mem[..])), Words(h.mem[..]), y, d, va)
    ensures SameDirs(Words(old(h.mem[..])), Words(h.mem[..]), y)
    ensures HeapKept(old(h.mem[..]), h.mem[..], h.taken)
  {
    hide Words, TablesOk, Stored, Inv, KernelPages.FreeFrom, KernelPages.PagesFrom, OwnPages, Outside, HeapKept, Walk, SameElsewhere;
    hide SameDirs, LinearOk, Store, Ent, FrameIn, HoldsTable, HoldsSlots, LinearSet, Mappable, PageDown;
    ghost var m: Memory := Words(h.mem[..]);
    Mmap.DirInRange(m, y, d, va);
    var pde := TableLoad(h, d, Pdx(va));
    Mmap.EntryFrame(pde);
    if PageDown(pde) == 0 {
      Mmap.NothingSet(m, y, d, va);
      NothingKept(h.mem[..], h.taken);
      return;
    }
    var t := PageDown(pde) / PGSIZE;
    SlotStored(m, y, d, va, 0);
    SlotOutside(y, h.taken, t);
    TableStore(h, t, Ptx(va), 0);
    LinearStays(m, Words(h.mem[..]), y, va, 0);
  }

  lemma NothingKept(b: seq<Byte>, taken: seq<int>)
    ensures HeapKept(b, b, taken)
  {
  }

  lemma SlotOutside(y: Layout, taken: seq<int>, t: int)
    requires HoldsSlots(y, t) && OwnPages(y, taken)
    ensures Outside(taken, t)
  {
    hide Outside, OwnPages;
    TablesOutside(y, taken, t);
  }

  lemma LinearStays(m: Memory, n: Memory, y: Layout, va: Word, e: Word)
    requires FramesOk(y) && LinearOk(m, y) && !Linear(va) && LinearSet(m, n, y, va, e)
    ensures LinearOk(n, y)
  {
    Mmap.FaultKeeps(m, n, y, y, va, e);
  }

  // ---- A missing table ----

  /** The page of frame t cleared word by word: memset. */
  method ClearPage(h: Heap, t: int)
    requires h.Valid() && 0 <= t < NORMAL_PAGES && Outside(h.taken, t)
    modifies h.mem
    ensures h.Valid()
    ensures Mmap.Clearing(Words(old(h.mem[..])), Words(h.mem[..]), t, ENTRIES)
    ensures HeapKept(old(h.mem[..]), h.mem[..], h.taken)
  {
    hide Words, Stored, Inv, KernelPages.FreeFrom, Outside, HeapKept, Store, Mmap.Clearing;
    ghost var m: Memory := Words(h.mem[..]);
    NothingCleared(m, t);
    NothingKept(h.mem[..], h.taken);
    var j := 0;
    while j < ENTRIES
      invariant 0 <= j <= ENTRIES && h.Valid()
      invariant Mmap.Clearing(m, Words(h.mem[..]), t, j)
      invariant HeapKept(old(h.mem[..]), h.mem[..], h.taken)
    {
      ghost var b := h.mem[..];
      TableStore(h, t, j, 0);
      Mmap.ClearOne(m, Words(b), Words(h.mem[..]), t, j);
      KeptTwice(old(h.mem[..]), b, h.mem[..], h.taken);
      j := j + 1;
    }
  }

  lemma NothingCleared(m: Memory, t: int)
    requires 0 <= t < NORMAL_PAGES
    ensures Mmap.Clearing(m, m, t, 0)
  {
  }

  lemma KeptTwice(b: seq<Byte>, c: seq<Byte>, e: seq<Byte>, taken: seq<int>)
    requires HeapKept(b, c, taken) && HeapKept(c, e, taken)
    ensures HeapKept(b, e, taken)
  {
    hide InPage;
  }

  method AddTable(h: Heap, ghost y: Layout, d: int, i: int, flags: Word) returns (ok: bool, ghost z: Layout)
    requires Coupled(h, y) && LinearOk(Words(h.mem[..]), y) && d in y.dirs && 0 <= d < NORMAL_PAGES && PageTables.Free(i)
    requires Ent(Words(h.mem[..]), d, i) == 0 && (HIGH_PDX <= i ==> d == y.kdir) && (flags == 0 || flags == PTE_U)
    modifies h.mem, h.kvm.blocks
    ensures ok <==> y.used < NORMAL_PAGES
    ensures ok ==>
      && z == y.(tables := y.tables + {y.used}, used := y.used + 1)
      && Coupled(h, z) && LinearOk(Words(h.mem[..]), z)
      && Ent(Words(h.mem[..]), d, i) == y.used * PGSIZE + 3 + flags
      && (forall c, k :: c in y.dirs && 0 <= k < ENTRIES && !(c == d && k == i) ==>
            0 <= c < NORMAL_PAGES && Ent(Words(h.mem[..]), c, k) == Ent(Words(old(h.mem[..])), c, k))
      && FramesOk(y) && SameWalks(Words(old(h.mem[..])), Words(h.mem[..]), y)
      && HeapKept(old(h.mem[..]), h.mem[..], h.taken)
  {
    hide Words, TablesOk, Stored, Inv, KernelPages.FreeFrom, KernelPages.PagesFrom, OwnPages, Outside, HeapKept, Walk;
    hide LinearOk, Store, Ent, FrameIn, HoldsTable, Mmap.Clearing, Installed, SameWalks, Present, SameLinear;
    ghost var b := h.mem[..];
    ghost var m: Memory := Words(b);
    z := y;
    var f := TablePage(h, y);
    if f.None? {
      return false, z;
    }
    var t := f.value;
    z := y.(tables := y.tables + {t}, used := y.used + 1);
    PageFacts(m, y, z, h.taken, d);
    ClearPage(h, t);
    ghost var c := h.mem[..];
    var e: Word := t * PGSIZE + PTE_P + PTE_W + flags;
    TableStore(h, d, i, e);
    ghost var n: Memory := Words(h.mem[..]);
    KeptTwice(b, c, h.mem[..], h.taken);
    Mmap.InstalledBy(m, Words(c), n, d, i, t, e);
    Mmap.EntryBits(t, flags);
    InstallKeeps(m, n, y, d, i, e);
    InstallSame(m, n, y, d, i, e);
    LinearAfter(m, n, y, z);
    Mmap.InstalledEntry(m, n, d, i, t, e);
    ok := true;
    WalksSame(m, n, y);
  }

  lemma PageFacts(m: Memory, y: Layout, z: Layout, taken: seq<int>, d: int)
    requires TablesOk(m, y) && d in y.dirs && y.used != NORMAL_PAGES
    requires z == y.(tables := y.tables + {y.used}, used := y.used + 1) && OwnPages(z, taken)
    ensures FramesOk(y) && 0 <= d < y.used < NORMAL_PAGES && Outside(taken, y.used) && Outside(taken, d)
  {
    hide EntriesOk, HighOk, Unshared, OwnPages, Outside;
    TablesOutside(z, taken, y.used);
    TablesOutside(z, taken, d);
  }

  lemma LinearAfter(m: Memory, n: Memory, y: Layout, z: Layout)
    requires TablesOk(m, y) && TablesOk(n, z) && y.ktbl == z.ktbl && LinearOk(m, y) && (SameLinear(m, n, y) || SameLinear(m, n, z))
    ensures LinearOk(n, z)
  {
    hide LinearEntry, EntriesOk, HighOk, Unshared;
    forall p | 0 <= p < NORMAL_PAGES
      ensures Home(n, z, p)
    {
      assert Home(m, y, p);
    }
  }

  lemma WalksSame(m: Memory, n: Memory, y: Layout)
    requires FramesOk(y) && forall d, a: Word :: d in y.dirs ==> Walk(n, d, a) == Walk(m, d, a)
    ensures SameWalks(m, n, y)
  {
    hide Walk;
  }

  // ---- The slot of a page with a table ----

  method SetSlot(h: Heap, ghost y: Layout, d: int, va: Word, e: Word)
    requires Coupled(h, y) && LinearOk(Words(h.mem[..]), y) && Mappable(y, d, va) && !Linear(va)
    requires 0 <= d < NORMAL_PAGES && Ent(Words(h.mem[..]), d, Pdx(va)) != 0 && Present(e)
    modifies h.mem
    ensures Coupled(h, y) && LinearOk(Words(h.mem[..]), y)
    ensures Walk(Words(h.mem[..]), d, va) == Some(e)
    ensures SameElsewhere(Words(old(h.mem[..])), Words(h.mem[..]), y, d, va)
    ensures SameDirs(Words(old(h.mem[..])), Words(h.mem[..]), y)
    ensures HeapKept(old(h.mem[..]), h.mem[..], h.taken)
  {
    hide Words, TablesOk, Stored, Inv, KernelPages.FreeFrom, KernelPages.PagesFrom, OwnPages, Outside, HeapKept, Walk, SameElsewhere;
    hide SameDirs, LinearOk, Store, Ent, FrameIn, HoldsTable, HoldsSlots, LinearSet, Mappable, PageDown, Present;
    ghost var m: Memory := Words(h.mem[..]);
    Mmap.DirInRange(m, y, d, va);
    var pde := TableLoad(h, d, Pdx(va));
    Mmap.EntryFrame(pde);
    var t := PageDown(pde) / PGSIZE;
    SlotStored(m, y, d, va, e);
    SlotOutside(y, h.taken, t);
    TableStore(h, t, Ptx(va), e);
    LinearStays(m, Words(h.mem[..]), y, va, e);
  }

  // ---- The record of a mapping ----

  /** The struct at this address records the mapping of pa at va: its two addresses and `mapped`. */
  ghost predicate Recorded(b: seq<Byte>, at: int, va: Word, pa: Word) {
    0 <= at && at + 16 <= |b| && WordAt(b, at) == va && WordAt(b, at + 4) == pa && b[at + 8] == 1
  }

  /** The three stores into the struct that kmalloc has given: they stay inside its payload. */
  method WriteRecord(h: Heap, ghost y: Layout, at: Word, va: Word, pa: Word, ghost i: nat)
    requires Coupled(h, y) && LinearOk(Words(h.mem[..]), y)
    requires i < |h.chunks| && h.chunks[i] == Chunk(at - HEADER, RECORD, false)
    modifies h.mem
    ensures Coupled(h, y) && LinearOk(Words(h.mem[..]), y)
    ensures SameTables(Words(old(h.mem[..])), Words(h.mem[..]), y)
    ensures BytesKept(old(h.mem[..]), h.mem[..], at, at + RECORD)
    ensures Recorded(h.mem[..], at, va, pa)
  {
    hide Words, WordAt, TablesOk, Stored, Inv, KernelPages.FreeFrom, KernelPages.PagesFrom, OwnPages, LinearOk, SameTables, BytesKept, WordsKept;
    ghost var b := h.mem[..];
    RecordInRange(h.chunks, h.taken, h.kvm.FreePages(), i, at);
    StoreWord(h.mem, at, va);
    ghost var c := h.mem[..];
    StoreWord(h.mem, at + 4, pa);
    ghost var e := h.mem[..];
    StoreByte(h.mem, at + 8, 1);
    ThreeWrites(b, c, e, h.mem[..], at);
    RecordReads(c, e, h.mem[..], at);
    PayloadWritten(b, h.mem[..], h.chunks, h.taken, h.kvm.FreePages(), y, i, at);
    SameTranslation(Words(b), Words(h.mem[..]), y);
    Structured(Words(b), y);
    LinearAfter(Words(b), Words(h.mem[..]), y, y);
  }

  lemma Structured(m: Memory, y: Layout)
    requires TablesOk(m, y)
    ensures FramesOk(y) && 0 <= y.used <= NORMAL_PAGES
  {
  }

  lemma RecordInRange(l: seq<Chunk>, taken: seq<int>, pages: seq<int>, i: nat, at: int)
    requires Inv(l, taken, pages) && i < |l| && l[i] == Chunk(at - HEADER, RECORD, false)
    ensures HEADER < at && at + RECORD < ADDRESS_SPACE
  {
    hide Tiles, Total, Increasing;
  }

  lemma ThreeWrites(b: seq<Byte>, c: seq<Byte>, e: seq<Byte>, g: seq<Byte>, at: int)
    requires BytesKept(b, c, at, at + 4) && BytesKept(c, e, at + 4, at + 8) && BytesKept(e, g, at + 8, at + 9)
    ensures BytesKept(b, g, at, at + RECORD)
  {
  }

  lemma RecordReads(c: seq<Byte>, e: seq<Byte>, g: seq<Byte>, at: int)
    requires 0 <= at && at + 16 <= |c| && BytesKept(c, e, at + 4, at + 8) && BytesKept(e, g, at + 8, at + 9)
    ensures WordAt(g, at) == WordAt(c, at) && WordAt(g, at + 4) == WordAt(e, at + 4)
  {
    SameWord(c, e, at);
    SameWord(e, g, at);
    SameWord(e, g, at + 4);
  }

  lemma PayloadWritten(b: seq<Byte>, c: seq<Byte>, l: seq<Chunk>, taken: seq<int>, pages: seq<int>, y: Layout, i: nat, at: int)
    requires |b| == ADDRESS_SPACE && Inv(l, taken, pages) && Stored(b, l) && OwnPages(y, taken)
    requires i < |l| && l[i] == Chunk(at - HEADER, RECORD, false) && BytesKept(b, c, at, at + RECORD)
    ensures |c| == ADDRESS_SPACE && Stored(c, l) && SameTables(Words(b), Words(c), y)
  {
    hide Words, WordAt, Stored, Increasing, Total, InPage, OwnPages, SameTables;
    PayloadStored(b, c, l, i);
    forall a | at <= a < at + RECORD
      ensures InPage(taken, a)
    {
      assert InChunk(l, a);
    }
    PagesKeepTables(b, c, at, at + RECORD, taken, y);
  }

  lemma PagesKeepTables(b: seq<Byte>, c: seq<Byte>, lo: int, hi: int, taken: seq<int>, y: Layout)
    requires |b| == ADDRESS_SPACE && BytesKept(b, c, lo, hi) && OwnPages(y, taken)
    requires forall a :: lo <= a < hi ==> InPage(taken, a)
    ensures |c| == ADDRESS_SPACE && SameTables(Words(b), Words(c), y)
  {
    hide InPage, Words;
    NoUsed(b, c, lo, hi, taken);
    HeapKeepsTables(b, c, [], taken, y);
  }

  lemma NoUsed(b: seq<Byte>, c: seq<Byte>, lo: int, hi: int, taken: seq<int>)
    requires BytesKept(b, c, lo, hi) && forall a :: lo <= a < hi ==> InPage(taken, a)
    ensures Untouched(b, c, [], taken)
  {
    hide InPage;
  }

  // ---- The bytes of chunks in use ----

  /** A store outside the heap's pages, or inside a chunk not in use, leaves them. */
  lemma KeptIsUsedKept(b: seq<Byte>, c: seq<Byte>, l: seq<Chunk>, taken: seq<int>, pages: seq<int>)
    requires Inv(l, taken, pages) && HeapKept(b, c, taken)
    ensures UsedKept(b, c, l)
  {
    hide InPage, Sorted, Increasing, Total;
    forall a | 0 <= a < |b| && InUsed(l, a)
      ensures c[a] == b[a]
    {
      UsedInPage(l, taken, a);
    }
  }

  lemma UsedInPage(l: seq<Chunk>, taken: seq<int>, a: int)
    requires Tiles(l, taken) && InUsed(l, a)
    ensures InPage(taken, a)
  {
    hide InPage;
    var c :| c in l && !c.free && c.head <= a < End(c);
    var i :| 0 <= i < |l| && l[i] == c;
    assert InChunk(l, a);
  }

  lemma UntouchedIsUsedKept(b: seq<Byte>, c: seq<Byte>, l: seq<Chunk>, k: seq<Chunk>, taken: seq<int>)
    requires Untouched(b, c, l, taken) && SameUsed(l, k)
    ensures UsedKept(b, c, k)
  {
    forall a | InUsed(k, a)
      ensures InUsed(l, a)
    {
      var c :| c in k && !c.free && c.head <= a < End(c);
      assert c in l;
    }
  }

  lemma UsedKeptTwice(b: seq<Byte>, c: seq<Byte>, e: seq<Byte>, l: seq<Chunk>)
    requires UsedKept(b, c, l) && UsedKept(c, e, l)
    ensures UsedKept(b, e, l)
  {
    hide InUsed;
  }

  // ---- mmap_do_map in parts ----

  /** The unmapping at its start, with the record it gives back. */
  method ClearForMap(h: Heap, ghost y: Layout, d: int, va: Word, freed: Option<Word>)
    requires Coupled(h, y) && LinearOk(Words(h.mem[..]), y) && Mappable(y, d, va) && !Linear(va)
    modifies h`chunks, h.mem
    ensures Coupled(h, y) && LinearOk(Words(h.mem[..]), y)
    ensures h.chunks == WithoutRecord(old(h.chunks), freed)
    ensures Walk(Words(h.mem[..]), d, va) == None
    ensures SameElsewhere(Words(old(h.mem[..])), Words(h.mem[..]), y, d, va)
    ensures SameDirs(Words(old(h.mem[..])), Words(h.mem[..]), y)
    ensures UsedKept(old(h.mem[..]), h.mem[..], h.chunks)
  {
    hide Words, TablesOk, Stored, Inv, KernelPages.FreeFrom, KernelPages.PagesFrom, OwnPages, LinearOk, SameTables, Walk;
    hide SameElsewhere, SameDirs, HeapKept, UsedKept, ChunkList.Free, Released, Untouched, Mappable, SameWalks, SameLinear;
    ghost var b, l := h.mem[..], h.chunks;
    UnmapSlot(h, y, d, va);
    ghost var c := h.mem[..];
    KeptIsUsedKept(b, c, l, h.taken, h.kvm.FreePages());
    if freed.Some? {
      ghost var g := Released(l, freed.value);
      Kmfree(h, y, freed.value);
      TablesThrough(Words(b), Words(c), Words(h.mem[..]), y, d, va);
      FreedUsed(b, c, h.mem[..], l, freed.value, h.taken, h.kvm.FreePages());
    }
  }

  lemma TablesThrough(m: Memory, n: Memory, p: Memory, y: Layout, d: int, va: Word)
    requires TablesOk(n, y) && SameElsewhere(m, n, y, d, va) && SameDirs(m, n, y) && SameTables(n, p, y) && Mappable(y, d, va)
    ensures SameElsewhere(m, p, y, d, va) && SameDirs(m, p, y) && SameLinear(n, p, y) && 0 <= d < NORMAL_PAGES
    ensures Walk(p, d, va) == Walk(n, d, va)
    ensures LinearOk(n, y) ==> LinearOk(p, y)
  {
    SameTranslation(n, p, y);
    hide EntriesOk, HighOk, Unshared, Walk, Ent, LinearEntry;
    if LinearOk(n, y) {
      LinearAfter(n, p, y, y);
    }
  }

  lemma FreedUsed(b: seq<Byte>, c: seq<Byte>, e: seq<Byte>, l: seq<Chunk>, a: int, taken: seq<int>, pages: seq<int>)
    requires Inv(l, taken, pages) && UsedKept(b, c, l) && Untouched(c, e, Released(l, a), taken)
    ensures UsedKept(b, e, ChunkList.Free(l, a))
  {
    hide Untouched, UsedKept, Inv, Glue, SameUsed, Released;
    var g := Released(l, a);
    FreeSound(l, a, taken, pages);
    ReleasedSound(l, a, taken, pages);
    GlueInv(g, taken, pages);
    UntouchedIsUsedKept(c, e, g, ChunkList.Free(l, a), taken);
    FewerUsed(b, c, l, ChunkList.Free(l, a));
    UsedKeptTwice(b, c, e, ChunkList.Free(l, a));
  }

  lemma FewerUsed(b: seq<Byte>, c: seq<Byte>, l: seq<Chunk>, k: seq<Chunk>)
    requires UsedKept(b, c, l) && forall x: Chunk :: !x.free && x in k ==> x in l
    ensures UsedKept(b, c, k)
  {
    forall a | InUsed(k, a)
      ensures InUsed(l, a)
    {
    }
  }

  /** The directory entry once there is a table, the next page's if there was none. */
  function TableEntryOf(pde: Word, used: int, flags: int): int {
    if pde != 0 then pde else used * 4096 + 3 + flags
  }

  /** The table for va, made if it is missing. */
  method EnsureTable(h: Heap, ghost y: Layout, d: int, va: Word, flags: Word) returns (ok: bool, ghost z: Layout)
    requires Coupled(h, y) && LinearOk(Words(h.mem[..]), y) && Mappable(y, d, va) && !Linear(va) && 0 <= d < NORMAL_PAGES
    requires flags == 0 || flags == PTE_U
    modifies h.mem, h.kvm.blocks
    ensures ok <==> y.used + (if Ent(Words(old(h.mem[..])), d, Pdx(va)) == 0 then 1 else 0) <= NORMAL_PAGES
    ensures ok ==>
      && Later(y, z) && z.used == y.used + (if Ent(Words(old(h.mem[..])), d, Pdx(va)) == 0 then 1 else 0)
      && Coupled(h, z) && LinearOk(Words(h.mem[..]), z) && Mappable(z, d, va)
      && Ent(Words(h.mem[..]), d, Pdx(va)) != 0
      && Ent(Words(h.mem[..]), d, Pdx(va)) == TableEntryOf(Ent(Words(old(h.mem[..])), d, Pdx(va)), y.used, flags)
      && OthersKept(Words(old(h.mem[..])), Words(h.mem[..]), y, d, Pdx(va))
      && FramesOk(y) && SameWalks(Words(old(h.mem[..])), Words(h.mem[..]), y)
      && HeapKept(old(h.mem[..]), h.mem[..], h.taken)
  {
    hide Words, TablesOk, Stored, Inv, KernelPages.FreeFrom, KernelPages.PagesFrom, OwnPages, LinearOk, HeapKept, SameWalks, Ent, Walk;
    ghost var m: Memory := Words(h.mem[..]);
    TableKnown(m, y, d, va);
    ok, z := true, y;
    var pde := TableLoad(h, d, Pdx(va));
    if PageDown(pde) == 0 {
      ok, z := AddTable(h, y, d, Pdx(va), flags);
    } else {
      WalksSame(m, m, y);
      NothingKept(h.mem[..], h.taken);
    }
  }

  lemma TableKnown(m: Memory, y: Layout, d: int, va: Word)
    requires TablesOk(m, y) && Mappable(y, d, va) && !Linear(va)
    ensures FramesOk(y) && 0 <= y.used <= NORMAL_PAGES && 0 <= d < NORMAL_PAGES && PageTables.Free(Pdx(va))
    ensures HIGH_PDX <= Pdx(va) ==> d == y.kdir
    ensures var e := Ent(m, d, Pdx(va)); e == 0 <==> PageDown(e) == 0
  {
    hide Ent, HighOk, Unshared;
    LinearRange(va);
    EntryShape(m, y, d, Pdx(va));
    Mmap.EntryFrame(Ent(m, d, Pdx(va)));
  }

  /** The same directories, more tables and pages. */
  predicate Later(y: Layout, z: Layout) {
    z.kdir == y.kdir && z.ktbl == y.ktbl && z.dirs == y.dirs && y.tables <= z.tables && y.used <= z.used
  }

  ghost predicate OthersKept(m: Memory, n: Memory, y: Layout, d: int, i: int) {
    forall c, k :: c in y.dirs && 0 <= k < ENTRIES && !(c == d && k == i) ==>
      0 <= c < NORMAL_PAGES && Ent(n, c, k) == Ent(m, c, k)
  }

  /** kmalloc of the record and the stores into it. False is kmalloc's panic, or the store through its NULL. */
  method TakeRecord(h: Heap, ghost y: Layout, va: Word, pa: Word) returns (ok: bool, ghost z: Layout)
    requires Coupled(h, y) && LinearOk(Words(h.mem[..]), y)
    modifies h, h.mem, h.kvm.blocks
    ensures ok <==> Malloc(old(h.chunks), RECORD, KernelPages.PagesFrom(y.used)).Got?
    ensures ok ==>
      var o := Malloc(old(h.chunks), RECORD, KernelPages.PagesFrom(y.used));
      && Later(y, z) && z.tables == y.tables && z.used == NORMAL_PAGES - |o.pages| && |o.pages| <= NORMAL_PAGES
      && h.chunks == o.list && Recorded(h.mem[..], o.addr, va, pa)
      && Coupled(h, z) && LinearOk(Words(h.mem[..]), z)
      && SameTables(Words(old(h.mem[..])), Words(h.mem[..]), y)
      && UsedKept(old(h.mem[..]), h.mem[..], old(h.chunks))
  {
    hide Words, TablesOk, Stored, Inv, KernelPages.FreeFrom, KernelPages.PagesFrom, OwnPages, LinearOk, SameTables, UsedKept, Malloc;
    hide Untouched, BytesKept, SameWalks, Sound, Recorded;
    ghost var b, l, t, pages := h.mem[..], h.chunks, h.taken, h.kvm.FreePages();
    ghost var o := Malloc(l, RECORD, pages);
    MallocSound(l, RECORD, t, pages);
    var panicked, at;
    panicked, at, z := Kmalloc(h, y, RECORD);
    if panicked {
      return false, z;
    }
    ghost var c := h.mem[..];
    GotSomething(l, t, pages, o, h.chunks, h.taken, h.kvm.FreePages());
    if at == 0 {
      return false, z;
    }
    ghost var i := IndexOf(h.chunks, Chunk(at - HEADER, RECORD, false));
    AfterKmalloc(Words(b), Words(c), y, z, |pages|, |o.pages|);
    WriteRecord(h, z, at, va, pa, i);
    TablesTwice(Words(b), Words(c), Words(h.mem[..]), y, z);
    RecordApart(b, c, h.mem[..], l, t, pages, o, h.taken, at);
    ok := true;
  }

  ghost function IndexOf(l: seq<Chunk>, c: Chunk): (i: nat)
    requires c in l
    ensures i < |l| && l[i] == c
  {
    var i :| 0 <= i < |l| && l[i] == c;
    i
  }

  /** The address kmalloc returns is not NULL exactly when it got something. */
  lemma GotSomething(l: seq<Chunk>, t: seq<int>, pages: seq<int>, o: Outcome, m: seq<Chunk>, u: seq<int>, rest: seq<int>)
    requires Inv(l, t, pages) && o == Malloc(l, RECORD, pages) && !o.Panic? && Inv(m, u, rest) && m == o.list
    ensures |o.pages| <= |pages|
    ensures o.Got? ==> o.addr > HEADER && Chunk(o.addr - HEADER, RECORD, false) in m
  {
    MallocSound(l, RECORD, t, pages);
    hide Malloc, Tiles, Total, Increasing;
  }

  lemma AfterKmalloc(m: Memory, n: Memory, y: Layout, z: Layout, had: nat, left: nat)
    requires TablesOk(m, y) && SameTables(m, n, y) && LinearOk(m, y) && TablesOk(n, z) && z == More(y, had - left) && left <= had
    requires had == |KernelPages.PagesFrom(y.used)|
    ensures LinearOk(n, z) && Later(y, z) && z.used == NORMAL_PAGES - left && left <= NORMAL_PAGES
  {
    SameTranslation(m, n, y);
    hide EntriesOk, HighOk, Unshared, SameTables;
    LinearAfter(m, n, y, z);
    PagesAfter(y.used, 0);
  }

  lemma TablesTwice(m: Memory, n: Memory, p: Memory, y: Layout, z: Layout)
    requires SameTables(m, n, y) && SameTables(n, p, z) && z.dirs == y.dirs && z.tables == y.tables && z.ktbl == y.ktbl
    ensures SameTables(m, p, y)
  {
    hide Ent;
    assert forall f :: HoldsTable(y, f) <==> HoldsTable(z, f);
  }

  /** The record lies in none of the chunks that were in use before. */
  lemma RecordApart(b: seq<Byte>, c: seq<Byte>, e: seq<Byte>, l: seq<Chunk>, t: seq<int>, pages: seq<int>, o: Outcome, u: seq<int>, at: int)
    requires Inv(l, t, pages) && Sound(l, RECORD, t, pages, o) && o.Got? && o.addr == at
    requires Untouched(b, c, l, u) && BytesKept(c, e, at, at + RECORD)
    ensures UsedKept(b, e, l)
  {
    hide Untouched, BytesKept, Tiles, Increasing, Total;
    UntouchedIsUsedKept(b, c, l, l, u);
    forall a | InUsed(l, a)
      ensures !(at <= a < at + RECORD)
    {
      var x :| x in l && !x.free && x.head <= a < End(x);
      TwoChunks(o.list, x, Chunk(at - HEADER, RECORD, false), a);
    }
    NotInRecord(c, e, l, at);
    hide UsedKept;
    UsedKeptTwice(b, c, e, l);
  }

  lemma TwoChunks(m: seq<Chunk>, x: Chunk, r: Chunk, a: int)
    requires Sorted(m) && x in m && r in m && x != r && x.head <= a < End(x)
    ensures !(r.head <= a < End(r))
  {
    var i :| 0 <= i < |m| && m[i] == x;
    var j :| 0 <= j < |m| && m[j] == r;
    assert if i < j then End(m[i]) <= m[j].head else End(m[j]) <= m[i].head;
  }

  lemma NotInRecord(c: seq<Byte>, e: seq<Byte>, l: seq<Chunk>, at: int)
    requires BytesKept(c, e, at, at + RECORD) && forall a :: InUsed(l, a) ==> !(at <= a < at + RECORD)
    ensures UsedKept(c, e, l)
  {
    hide InUsed;
  }

  /** kmalloc's chunk holds the record: of the two pages if it is the first, else of the two addresses. */
  ghost predicate RecordedAt(b: seq<Byte>, o: Outcome, va: Word, pa: Word, first: bool) {
    o.Got? && Recorded(b, o.addr, if first then PageDown(va) else va, if first then PageDown(pa) else pa)
  }

  /** mmap_do_map with its record. It succeeds exactly when a page is left for a table it lacks, and kmalloc then
      gives it a record: neither panics on a slack of 1 to 16 bytes nor refuses. */
  method MapPage(h: Heap, ghost y: Layout, d: int, va: Word, pa: Word, flags: Word, freed: Option<Word>, first: bool)
    returns (ok: bool, ghost z: Layout)
    requires Coupled(h, y) && LinearOk(Words(h.mem[..]), y) && Mappable(y, d, va) && !Linear(va) && 0 <= d < NORMAL_PAGES
    requires flags == 0 || flags == PTE_U
    modifies h, h.mem, h.kvm.blocks
    ensures var n := y.used + if Ent(Words(old(h.mem[..])), d, Pdx(va)) == 0 then 1 else 0;
      ok <==> n <= NORMAL_PAGES && Malloc(WithoutRecord(old(h.chunks), freed), RECORD, KernelPages.PagesFrom(n)).Got?
    ensures ok ==>
      var n := y.used + if Ent(Words(old(h.mem[..])), d, Pdx(va)) == 0 then 1 else 0;
      var l := WithoutRecord(old(h.chunks), freed);
      var o := Malloc(l, RECORD, KernelPages.PagesFrom(n));
      && Later(y, z) && z.used == NORMAL_PAGES - |o.pages| && h.chunks == o.list && |o.pages| <= NORMAL_PAGES
      && Coupled(h, z) && LinearOk(Words(h.mem[..]), z) && FramesOk(z)
      && Walk(Words(h.mem[..]), d, va) == Some(Entry(pa, flags))
      && SameElsewhere(Words(old(h.mem[..])), Words(h.mem[..]), z, d, va)
      && Ent(Words(h.mem[..]), d, Pdx(va)) != 0
      && Ent(Words(h.mem[..]), d, Pdx(va)) == TableEntryOf(Ent(Words(old(h.mem[..])), d, Pdx(va)), y.used, flags)
      && Translate(Words(h.mem[..]), d, va) == Some(Access(PageOf(pa), true,
           flags == 4 && (Ent(Words(old(h.mem[..])), d, Pdx(va)) == 0 || UserBit(Ent(Words(old(h.mem[..])), d, Pdx(va))))))
      && OthersKept(Words(old(h.mem[..])), Words(h.mem[..]), z, d, Pdx(va))
      && RecordedAt(h.mem[..], o, va, pa, first)
      && UsedKept(old(h.mem[..]), h.mem[..], l)
  {
    hide Words, TablesOk, Stored, Inv, KernelPages.FreeFrom, KernelPages.PagesFrom, OwnPages, LinearOk, SameTables, UsedKept, Malloc;
    hide HeapKept, SameWalks, SameElsewhere, SameDirs, OthersKept, Walk, Ent, WithoutRecord, Mappable, Later, PageDown, Recorded, Translate, UserBit, FramesOk;
    ghost var m0: Memory, b0 := Words(h.mem[..]), h.mem[..];
    ClearForMap(h, y, d, va, freed);
    ghost var m1: Memory, b1 := Words(h.mem[..]), h.mem[..];
    DirEntrySame(m0, m1, y, d, Pdx(va), va);
    ghost var l, t := h.chunks, h.taken;
    ghost var x;
    ok, x := EnsureTable(h, y, d, va, flags);
    z := x;
    if !ok {
      return;
    }
    ghost var m2: Memory, b2 := Words(h.mem[..]), h.mem[..];
    KeptIsUsedKept(b1, b2, l, t, h.kvm.FreePages());
    Mmap.PageEntryBits(pa, flags);
    SetSlot(h, x, d, va, Entry(pa, flags));
    ghost var m3: Memory, b3 := Words(h.mem[..]), h.mem[..];
    KeptIsUsedKept(b2, b3, l, t, h.kvm.FreePages());
    ok, z := TakeRecord(h, x, if first then PageDown(va) else va, if first then PageDown(pa) else pa);
    if ok {
      UsedKeptTwice(b0, b1, b2, l);
      UsedKeptTwice(b0, b2, b3, l);
      UsedKeptTwice(b0, b3, h.mem[..], l);
      MapChain(m0, m1, m2, m3, Words(h.mem[..]), y, x, z, d, va);
      MappedReach(Words(h.mem[..]), z, d, va, pa, flags, Ent(m0, d, Pdx(va)), y.used);
    }
  }

  lemma DirEntrySame(m: Memory, n: Memory, y: Layout, d: int, i: int, va: Word)
    requires TablesOk(m, y) && Mappable(y, d, va) && 0 <= i < ENTRIES && SameDirs(m, n, y)
    ensures FramesOk(y) && 0 <= d < NORMAL_PAGES && Ent(n, d, i) == Ent(m, d, i)
  {
    hide Ent, EntriesOk, HighOk, Unshared;
  }

  /** Unmap, add a table, set the slot, take a record: what has changed in all. */
  lemma MapChain(m0: Memory, m1: Memory, m2: Memory, m3: Memory, m4: Memory, y: Layout, x: Layout, z: Layout, d: int, va: Word)
    requires TablesOk(m1, y) && TablesOk(m3, x) && TablesOk(m4, z) && Later(y, x) && Later(x, z) && Mappable(x, d, va) && 0 <= d < NORMAL_PAGES
    requires SameElsewhere(m0, m1, y, d, va) && SameDirs(m0, m1, y)
    requires SameWalks(m1, m2, y) && OthersKept(m1, m2, y, d, Pdx(va)) && Ent(m2, d, Pdx(va)) != 0
    requires SameElsewhere(m2, m3, x, d, va) && SameDirs(m2, m3, x) && Walk(m3, d, va).Some? && SameTables(m3, m4, x)
    ensures FramesOk(z) && Later(y, z) && d in z.dirs
    ensures SameElsewhere(m0, m4, z, d, va) && Walk(m4, d, va) == Walk(m3, d, va)
    ensures Ent(m4, d, Pdx(va)) == Ent(m2, d, Pdx(va)) && Ent(m4, d, Pdx(va)) != 0 && OthersKept(m0, m4, z, d, Pdx(va))
  {
    SameTranslation(m3, m4, x);
    hide EntriesOk, HighOk, Unshared, Walk, Ent;
    SameThrough(m0, m1, m2, m3, y, x, d, va);
    ElsewhereInto(m0, m3, x, z, d, va);
    WalksAfter(m0, m3, m4, x, z, d, va);
    hide SameElsewhere, SameWalks;
    EntriesChain(m0, m1, m2, m3, m4, y, x, z, d, Pdx(va));
  }

  lemma WalksAfter(m: Memory, n: Memory, p: Memory, x: Layout, z: Layout, d: int, va: Word)
    requires FramesOk(x) && FramesOk(z) && x.dirs == z.dirs && SameElsewhere(m, n, z, d, va) && Mappable(x, d, va)
    requires forall c, a: Word :: c in x.dirs ==> Walk(p, c, a) == Walk(n, c, a)
    ensures SameElsewhere(m, p, z, d, va) && 0 <= d < NORMAL_PAGES && Walk(p, d, va) == Walk(n, d, va)
  {
    hide Walk;
  }

  lemma EntriesChain(m0: Memory, m1: Memory, m2: Memory, m3: Memory, m4: Memory, y: Layout, x: Layout, z: Layout, d: int, i: int)
    requires FramesOk(y) && FramesOk(x) && x.dirs == y.dirs && z.dirs == y.dirs && d in y.dirs && 0 <= d < NORMAL_PAGES && 0 <= i < ENTRIES
    requires SameDirs(m0, m1, y) && OthersKept(m1, m2, y, d, i) && SameDirs(m2, m3, x) && SameTables(m3, m4, x) && Ent(m2, d, i) != 0
    ensures Ent(m4, d, i) == Ent(m2, d, i) && OthersKept(m0, m4, z, d, i)
  {
    hide Ent;
    forall c, k | c in y.dirs && 0 <= k < ENTRIES
      ensures 0 <= c < NORMAL_PAGES && Ent(m4, c, k) == Ent(m2, c, k)
    {
      assert HoldsTable(x, c);
    }
  }

  /** What user code can do in a state shown: a page is reached if and only if the flat map has it, and by user
      code if and only if both its entry and its table's are for user code. */
  lemma ShownReach(m: Memory, y: Layout, k: Model, d: int, va: Word)
    requires TablesOk(m, y) && HasTables(m, y, k.has) && Flattens(m, y, k.flat) && Mappable(y, d, va) && !Linear(va)
    ensures 0 <= d < NORMAL_PAGES
    ensures Translate(m, d, va).Some? <==> Key(d, va) in k.flat
    ensures Key(d, va) in k.flat ==>
      (d, Pdx(va)) in k.has
      && Translate(m, d, va) == Some(Access(k.flat[Key(d, va)] / 4096, WriteBit(k.flat[Key(d, va)]),
           UserBit(k.flat[Key(d, va)]) && k.has[(d, Pdx(va))]))
  {
    hide Ent, UserBit, WriteBit, HighOk, Unshared, Walk;
    MapNeeds(m, y, k.has, d, va);
    TranslateIs(m, d, va);
    EntryShape(m, y, d, Pdx(va));
    if Walk(m, d, va).Some? {
      WalkSlot(m, y, d, va);
      EntriesWritable(m, y, d, Pdx(va));
    }
  }

  // ---- Any run ----

  /** One operation in memory does what Step says of the model it shows, and fails exactly where Step does. */
  method Do(h: Heap, ghost y: Layout, ghost k: Model, op: Op) returns (ok: bool, ghost z: Layout)
    requires Shows(h, y, k) && Allowed(y, op) && 0 <= k.used <= NORMAL_PAGES
    modifies h, h.mem, h.kvm.blocks
    ensures ok <==> Step(k, op).Some?
    ensures ok ==> Later(y, z) && Shows(h, z, Step(k, op).value)
  {
    hide Words, TablesOk, Stored, Inv, KernelPages.FreeFrom, KernelPages.PagesFrom, OwnPages, LinearOk, SameTables, UsedKept, Malloc;
    hide HeapKept, SameWalks, SameElsewhere, SameDirs, OthersKept, Walk, Ent, ChunkList.Free, HasTables, Flattens, Untouched, PageDown;
    ghost var m: Memory := Words(h.mem[..]);
    Structured(m, y);
    z := y;
    match op {
      case Alloc(size) =>
        AllocStep(k, y, h.chunks, size, h.taken, h.kvm.FreePages());
        var panicked, at;
        panicked, at, z := Kmalloc(h, y, size);
        ok := !panicked;
        if ok {
          AllocShows(m, Words(h.mem[..]), y, z, k.has, k.flat);
        }
      case Give(addr) =>
        Kmfree(h, y, addr);
        AllocShows(m, Words(h.mem[..]), y, y, k.has, k.flat);
        ok := true;
      case Unmap(d, va) =>
        UnmapSlot(h, y, d, va);
        UnmapShows(m, Words(h.mem[..]), y, k.has, k.flat, d, va);
        ok := true;
      case Map(d, va, pa, flags, freed, first) =>
        MapNeeds(m, y, k.has, d, va);
        Mmap.PageEntryBits(pa, flags);
        ok, z := MapPage(h, y, d, va, pa, flags, freed, first);
        MapStep(k, op);
        if ok {
          if Ent(m, d, Pdx(va)) == 0 {
            MadeEntry(y.used, flags);
          }
          MapShows(m, Words(h.mem[..]), y, z, k.has, k.flat, d, va, Entry(pa, flags), flags);
        }
    }
  }

  lemma AllocStep(k: Model, y: Layout, l: seq<Chunk>, size: Word, t: seq<int>, pages: seq<int>)
    requires 0 <= k.used <= NORMAL_PAGES && l == k.list && y.used == k.used
    requires Inv(l, t, pages) && pages == KernelPages.PagesFrom(y.used)
    ensures var o := Malloc(l, size, pages);
      Step(k, Alloc(size)) == if o.Panic? then None else Some(Took(k, o))
    ensures var o := Malloc(l, size, pages); |pages| == NORMAL_PAGES - k.used && (!o.Panic? ==> |o.pages| <= |pages|)
  {
    MallocSound(l, size, t, pages);
    hide Malloc, Inv;
    PagesAfter(y.used, 0);
  }

  lemma AllocShows(m: Memory, n: Memory, y: Layout, z: Layout, has: map<(int, int), bool>, flat: map<(int, int), Word>)
    requires TablesOk(m, y) && TablesOk(n, z) && SameTables(m, n, y) && z.dirs == y.dirs && z.kdir == y.kdir && z.ktbl == y.ktbl && LinearOk(m, y)
    requires HasTables(m, y, has) && Flattens(m, y, flat)
    ensures LinearOk(n, z) && HasTables(n, z, has) && Flattens(n, z, flat)
  {
    SameTranslation(m, n, y);
    hide EntriesOk, HighOk, Unshared, Walk, Ent, PageOf;
    LinearAfter(m, n, y, z);
    forall d, i | d in y.dirs && PageTables.Free(i)
      ensures Ent(n, d, i) == Ent(m, d, i)
    {
      assert HoldsTable(y, d);
    }
  }

  lemma UnmapShows(m: Memory, n: Memory, y: Layout, has: map<(int, int), bool>, flat: map<(int, int), Word>, d: int, va: Word)
    requires FramesOk(y) && Mappable(y, d, va) && HasTables(m, y, has) && Flattens(m, y, flat)
    requires SameDirs(m, n, y) && SameElsewhere(m, n, y, d, va) && Walk(n, d, va) == None
    ensures HasTables(n, y, has) && Flattens(n, y, flat - {Key(d, va)})
  {
    hide Walk, Ent;
    forall c, a: Word | Mappable(y, c, a) && !Linear(a)
      ensures Walk(n, c, a) == if Key(c, a) in flat - {Key(d, va)} then Some(flat[Key(c, a)]) else None
    {
      OnePage(n, y, d, va, c, a);
    }
  }

  /** Two addresses of one page walk alike. */
  lemma OnePage(m: Memory, y: Layout, d: int, va: Word, c: int, a: Word)
    requires FramesOk(y) && Mappable(y, d, va) && Mappable(y, c, a)
    ensures Key(c, a) == Key(d, va) ==> Walk(m, c, a) == Walk(m, d, va)
    ensures Key(c, a) != Key(d, va) ==> PageOf(a) != PageOf(va) || (c != d && va < KERNBASE)
  {
    PageIndices(va);
    PageIndices(a);
    hide Ent;
    if PageOf(a) == PageOf(va) {
      SamePageSide(a, va);
    }
  }

  lemma SamePageSide(a: Word, b: Word)
    requires PageOf(a) == PageOf(b)
    ensures Pdx(a) == Pdx(b) && Ptx(a) == Ptx(b) && (a >= KERNBASE <==> b >= KERNBASE)
  {
    PageIndices(a);
    PageIndices(b);
  }

  lemma MapNeeds(m: Memory, y: Layout, has: map<(int, int), bool>, d: int, va: Word)
    requires TablesOk(m, y) && HasTables(m, y, has) && Mappable(y, d, va) && !Linear(va)
    ensures 0 <= d < NORMAL_PAGES && PageTables.Free(Pdx(va)) && ((d, Pdx(va)) in has <==> Ent(m, d, Pdx(va)) != 0)
  {
    hide Ent, EntriesOk, HighOk, Unshared;
    LinearRange(va);
  }

  lemma MapStep(k: Model, op: Op)
    requires op.Map? && 0 <= k.used <= NORMAL_PAGES && Entry(op.pa, op.flags) < ADDRESS_SPACE
    ensures var n := TableUsed(k, op.d, op.va);
      n <= NORMAL_PAGES ==>
        var o := Malloc(WithoutRecord(k.list, op.freed), RECORD, KernelPages.PagesFrom(n));
        Step(k, op) == if !o.Got? || |o.pages| > NORMAL_PAGES then None
          else Some(Took(k, o).(has := Tabled(k.has, op.d, Pdx(op.va), op.flags), flat := k.flat[Key(op.d, op.va) := Entry(op.pa, op.flags)]))
    ensures TableUsed(k, op.d, op.va) > NORMAL_PAGES ==> Step(k, op) == None
  {
    hide Malloc, WithoutRecord, KernelPages.PagesFrom, Key;
  }

  lemma MapShows(m: Memory, n: Memory, y: Layout, z: Layout, has: map<(int, int), bool>, flat: map<(int, int), Word>, d: int, va: Word, e: Word, flags: int)
    requires FramesOk(y) && FramesOk(z) && Later(y, z) && Mappable(y, d, va) && !Linear(va) && HasTables(m, y, has) && Flattens(m, y, flat)
    requires SameElsewhere(m, n, z, d, va) && Walk(n, d, va) == Some(e)
    requires OthersKept(m, n, z, d, Pdx(va)) && Ent(n, d, Pdx(va)) != 0 && PageTables.Free(Pdx(va))
    requires if Ent(m, d, Pdx(va)) != 0 then Ent(n, d, Pdx(va)) == Ent(m, d, Pdx(va)) else UserBit(Ent(n, d, Pdx(va))) <==> flags == PTE_U
    ensures HasTables(n, z, Tabled(has, d, Pdx(va), flags)) && Flattens(n, z, flat[Key(d, va) := e])
  {
    hide Walk, Ent, UserBit;
    forall c, a: Word | Mappable(z, c, a) && !Linear(a)
      ensures Walk(n, c, a) == if Key(c, a) in flat[Key(d, va) := e] then Some(flat[Key(d, va) := e][Key(c, a)]) else None
    {
      OnePage(n, z, d, va, c, a);
    }
  }

  /** Main result: over one memory and one table of pages, any run of kmalloc, kmfree, mmap_do_map and
      mmap_do_unmap succeeds exactly when the model's run does, and then the memory shows the model's state: the
      heap is the model's chunk list, and every directory translates as the model's flat map says. */
  method Run(h: Heap, ghost y: Layout, ghost k: Model, ops: seq<Op>) returns (done: nat, ghost z: Layout)
    requires Shows(h, y, k) && 0 <= k.used <= NORMAL_PAGES && forall i :: 0 <= i < |ops| ==> Allowed(y, ops[i])
    modifies h, h.mem, h.kvm.blocks
    ensures done <= |ops| && (done == |ops| <==> Steps(k, ops).Some?)
    ensures done == |ops| ==> Later(y, z) && Shows(h, z, Steps(k, ops).value)
    ensures done < |ops| ==> Steps(k, ops[..done]).Some? && Step(Steps(k, ops[..done]).value, ops[done]).None?
  {
    hide Shows, Step, Allowed;
    done, z := 0, y;
    assert ops[..0] == [];
    while done < |ops|
      invariant done <= |ops| && Later(y, z)
      invariant Steps(k, ops[..done]).Some? && Shows(h, z, Steps(k, ops[..done]).value)
    {
      StillAllowed(y, z, ops[done]);
      OneStep(k, ops, done);
      ghost var r := Steps(k, ops[..done]).value;
      var ok;
      ghost var x;
      ok, x := Do(h, z, r, ops[done]);
      if !ok {
        Stuck(k, ops, done);
        return;
      }
      z := x;
      done := done + 1;
    }
    assert ops[..done] == ops;
  }

  /** A mapping is refused, whatever pages are left, when no free chunk holds a record and the last chunk of the
      heap is in use: kmalloc's NULL is then written through. */
  lemma MapRefused(k: Model, op: Op)
    requires op.Map? && 0 <= k.used <= NORMAL_PAGES && Sorted(WithoutRecord(k.list, op.freed))
    requires var l := WithoutRecord(k.list, op.freed);
      l != [] && FirstFit(l, RECORD) == |l| && !l[|l| - 1].free
    ensures Step(k, op).None?
  {
    var n := TableUsed(k, op.d, op.va);
    BootPages(n);
    NullExactly(WithoutRecord(k.list, op.freed), RECORD, KernelPages.PagesFrom(n));
  }

  lemma StillAllowed(y: Layout, z: Layout, op: Op)
    requires Later(y, z) && Allowed(y, op)
    ensures Allowed(z, op)
  {
  }

  lemma OneStep(k: Model, ops: seq<Op>, i: nat)
    requires i < |ops| && 0 <= k.used <= NORMAL_PAGES && Steps(k, ops[..i]).Some?
    ensures Steps(k, ops[..i + 1]) == Step(Steps(k, ops[..i]).value, ops[i])
  {
    hide Step;
    assert ops[..i + 1][..i] == ops[..i];
  }

  /** A run that has failed stays failed. */
  lemma {:induction false} Stuck(k: Model, ops: seq<Op>, i: nat)
    requires i < |ops| && 0 <= k.used <= NORMAL_PAGES && Steps(k, ops[..i]).Some? && Step(Steps(k, ops[..i]).value, ops[i]).None?
    ensures Steps(k, ops).None?
    decreases |ops|
  {
    hide Step;
    if i == |ops| - 1 {
      OneStep(k, ops, i);
      assert ops[..i + 1] == ops;
    } else {
      var front := ops[..|ops| - 1];
      assert front[..i] == ops[..i];
      Stuck(k, front, i);
    }
  }

  // ---- From boot ----

  /** The heap over the memory that kmap_init and kvm_init leave, its bytes reading as the words of the page
      tables: nothing is allocated, nothing is mapped outside the linear range. */
  method StartHeap(p: Mmap.Paging, bytes: array<Byte>) returns (h: Heap, ghost k: Model)
    requires p.Valid() && LinearOk(p.mem[..], p.Y()) && p.dirs == {p.kdir} && p.tables == {}
    requires bytes.Length == ADDRESS_SPACE && Words(bytes[..]) == p.mem[..]
    ensures fresh(h) && h.mem == bytes && h.kvm == p.kvm
    ensures k == Model([], p.used, map[], map[]) && Shows(h, p.Y(), k) && 0 <= k.used <= NORMAL_PAGES
  {
    hide Words, TablesOk, LeavesOk, Stored, Inv, KernelPages.FreeFrom, KernelPages.PagesFrom, LinearOk, HasTables, Flattens;
    KernelPages.PrefixFree(p.kvm.blocks[..], p.used);
    hide KernelPages.Prefix;
    Structured(p.mem[..], p.Y());
    BootPages(p.used);
    h := new Heap(bytes, p.kvm);
    k := Model([], p.used, map[], map[]);
    NothingTaken(p.Y());
    NothingMapped(p.mem[..], p.Y());
  }

  lemma NothingTaken(y: Layout)
    ensures OwnPages(y, [])
  {
  }

  lemma NothingMapped(m: Memory, y: Layout)
    requires TablesOk(m, y) && y.dirs == {y.kdir} && y.tables == {}
    ensures HasTables(m, y, map[]) && Flattens(m, y, map[])
  {
    hide Ent, HighOk, Unshared, Walk;
    forall d, i | d in y.dirs && PageTables.Free(i)
      ensures Ent(m, d, i) == 0
    {
      EntryShape(m, y, d, i);
    }
    forall d, va: Word | Mappable(y, d, va) && !Linear(va)
      ensures Walk(m, d, va) == None
    {
      LinearRange(va);
      EntryShape(m, y, d, Pdx(va));
      Mmap.DirInRange(m, y, d, va);
    }
  }

  /** The words of the page tables laid out as bytes at KERNBASE: the same memory as the heap sees it. */
  method LayOut(words: array<Word>, bytes: array<Byte>)
    requires words.Length == NORMAL_PAGES * ENTRIES && bytes.Length == ADDRESS_SPACE
    modifies bytes
    ensures Words(bytes[..]) == words[..]
  {
    hide WordAt, Words, WordsKept, BytesKept;
    var w := 0;
    while w < words.Length
      invariant 0 <= w <= words.Length
      invariant LaidOut(words[..], bytes[..], w)
    {
      ghost var b := bytes[..];
      StoreWord(bytes, KERNBASE + 4 * w, words[w]);
      OneMoreWord(words[..], b, bytes[..], w);
      w := w + 1;
    }
    AllLaidOut(words[..], bytes[..]);
  }

  ghost predicate LaidOut(words: seq<Word>, b: seq<Byte>, n: int) {
    |words| == NORMAL_PAGES * ENTRIES && |b| == ADDRESS_SPACE &&
    forall w :: 0 <= w < n && w < |words| ==> WordAt(b, KERNBASE + 4 * w) == words[w]
  }

  lemma OneMoreWord(words: seq<Word>, b: seq<Byte>, c: seq<Byte>, n: int)
    requires LaidOut(words, b, n) && 0 <= n < |words| && WordsKept(b, c, KERNBASE + 4 * n, KERNBASE + 4 * n + 4)
    requires WordAt(c, KERNBASE + 4 * n) == words[n]
    ensures LaidOut(words, c, n + 1)
  {
    hide WordAt;
  }

  lemma AllLaidOut(words: seq<Word>, b: seq<Byte>)
    requires LaidOut(words, b, |words|)
    ensures Words(b) == words
  {
    hide WordAt;
  }

  /** From boot: phy_mem_init, kmap_init, kvm_init, and then any run over kpgdir. */
  method BootAndRun(p: Mmap.Paging, kernEnd: Word, start: Word, end: Word, bytes: array<Byte>, ops: seq<Op>)
    returns (h: Heap, done: nat, ghost k: Model, ghost z: Layout)
    requires PagingRuns.BeforeBoot(p, kernEnd, start, end) && bytes.Length == ADDRESS_SPACE
    requires forall i :: 0 <= i < |ops| ==> Allowed(Layout(p.kdir, p.ktbl, {p.kdir}, {}, 0), ops[i])
    modifies p, p.mem, p.kvm.blocks, p.frames, p.frames.slots, bytes
    ensures k == Model([], PagingRuns.BootUsed(kernEnd, start, end), map[], map[]) && 0 <= k.used <= NORMAL_PAGES
    ensures done <= |ops| && (done == |ops| <==> Steps(k, ops).Some?)
    ensures done == |ops| ==> Shows(h, z, Steps(k, ops).value)
  {
    hide Words, TablesOk, LeavesOk, LinearOk, Shows, Allowed, Step, Ent, FrameStack.PushOrder, FreshKept, Mmap.HighCount;
    p.Boot(kernEnd, start, end);
    LayOut(p.mem, bytes);
    h, k := StartHeap(p, bytes);
    forall i | 0 <= i < |ops|
      ensures Allowed(p.Y(), ops[i])
    {
      AllowedFrom(Layout(p.kdir, p.ktbl, {p.kdir}, {}, 0), p.Y(), ops[i]);
    }
    done, z := Run(h, p.Y(), k, ops);
  }

  lemma AllowedFrom(y: Layout, z: Layout, op: Op)
    requires y.kdir == z.kdir && y.dirs == z.dirs && Allowed(y, op)
    ensures Allowed(z, op)
  {
  }
}
