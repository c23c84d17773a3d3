// mm/kmalloc.c: the allocator on byte memory, with each chunk's header stored in the memory it manages.

module Heap {
  import opened Machine
  import opened ChunkList
  import opened ChunkLaws
  import ChunkReturns
  import KernelPages

  // struct kmem_chunk: next at 0, status at 4, addr at 8, size at 12.
  const STATUS: int := 4
  const ADDR: int := 8
  const SIZE: int := 12

  const KMEM_USED: Byte := 0
  const KMEM_FREE: Byte := 1

  // ---- Memory ----

  /** The little-endian word at address a. */
  function WordAt(m: seq<Byte>, a: int): Word
    requires 0 <= a && a + 4 <= |m|
  {
    var b0: int, b1: int, b2: int, b3: int := m[a], m[a + 1], m[a + 2], m[a + 3];
    b0 + 0x100 * b1 + 0x1_0000 * b2 + 0x100_0000 * b3
  }

  /** Every byte outside a..b is as before. */
  ghost predicate BytesKept(m: seq<Byte>, n: seq<Byte>, a: int, b: int) {
    |m| == |n| && forall k :: 0 <= k < |m| && !(a <= k < b) ==> n[k] == m[k]
  }

  /** Every word that does not touch the bytes from a to b reads as before. */
  ghost predicate WordsKept(m: seq<Byte>, n: seq<Byte>, a: int, b: int) {
    |m| == |n| &&
    forall w :: 0 <= w && w + 4 <= |m| && (w + 4 <= a || b <= w) ==> WordAt(n, w) == WordAt(m, w)
  }

  lemma FourBytes(v: Word)
    ensures v == v % 0x100 + 0x100 * (v / 0x100 % 0x100) + 0x1_0000 * (v / 0x1_0000 % 0x100) + 0x100_0000 * (v / 0x100_0000)
    ensures 0 <= v / 0x100_0000 < 0x100
  {
  }

  method LoadWord(mem: array<Byte>, a: int) returns (w: Word)
    requires 0 <= a && a + 4 <= mem.Length
    ensures w == WordAt(mem[..], a)
  {
    var b0: int, b1: int, b2: int, b3: int := mem[a], mem[a + 1], mem[a + 2], mem[a + 3];
    w := b0 + 0x100 * b1 + 0x1_0000 * b2 + 0x100_0000 * b3;
  }

  method StoreWord(mem: array<Byte>, a: int, v: Word)
    requires 0 <= a && a + 4 <= mem.Length
    modifies mem
    ensures WordAt(mem[..], a) == v
    ensures BytesKept(old(mem[..]), mem[..], a, a + 4) && WordsKept(old(mem[..]), mem[..], a, a + 4)
  {
    FourBytes(v);
    mem[a] := v % 0x100;
    mem[a + 1] := v / 0x100 % 0x100;
    mem[a + 2] := v / 0x1_0000 % 0x100;
    mem[a + 3] := v / 0x100_0000;
  }

  method StoreByte(mem: array<Byte>, a: int, v: Byte)
    requires 0 <= a < mem.Length
    modifies mem
    ensures mem[..][a] == v
    ensures BytesKept(old(mem[..]), mem[..], a, a + 1) && WordsKept(old(mem[..]), mem[..], a, a + 1)
  {
    mem[a] := v;
  }

  /** memset(a, 0, count). */
  method Clear(mem: array<Byte>, a: int, count: int)
    requires 0 <= a && 0 <= count && a + count <= mem.Length
    modifies mem
    ensures forall k :: a <= k < a + count ==> mem[..][k] == 0
    ensures BytesKept(old(mem[..]), mem[..], a, a + count) && WordsKept(old(mem[..]), mem[..], a, a + count)
  {
    var i := 0;
    while i < count
      invariant 0 <= i <= count
      invariant forall k :: a <= k < a + i ==> mem[k] == 0
      invariant forall k :: 0 <= k < mem.Length && !(a <= k < a + i) ==> mem[k] == old(mem[k])
    {
      mem[a + i] := 0;
      i := i + 1;
    }
  }

  // ---- Headers in memory ----

  /** The header of chunk c, with `next` as its link, is stored at c.head. */
  ghost predicate HeaderAt(m: seq<Byte>, c: Chunk, next: int)
    requires |m| == ADDRESS_SPACE
  {
    && 0 < c.head && End(c) < ADDRESS_SPACE && 0 <= c.size
    && WordAt(m, c.head) == next
    && m[c.head + STATUS] == (if c.free then KMEM_FREE else KMEM_USED)
    && WordAt(m, c.head + ADDR) == c.head + HEADER
    && WordAt(m, c.head + SIZE) == c.size
  }

  /** The link stored in chunk i: the next header, or NULL. */
  function NextOf(l: seq<Chunk>, i: int): int
    requires -1 <= i < |l|
  {
    if i + 1 < |l| then l[i + 1].head else 0
  }

  ghost predicate StoredAt(m: seq<Byte>, l: seq<Chunk>, i: int)
    requires |m| == ADDRESS_SPACE
  {
    0 <= i < |l| ==> HeaderAt(m, l[i], NextOf(l, i))
  }

  /** The whole list is in memory. */
  ghost predicate Stored(m: seq<Byte>, l: seq<Chunk>)
    requires |m| == ADDRESS_SPACE
  {
    forall i :: 0 <= i < |l| ==> StoredAt(m, l, i)
  }

  predicate Apart(c: Chunk, lo: int, hi: int) {
    End(c) <= lo || hi <= c.head
  }

  /** The headers of all chunks that lie outside lo..hi are in memory. */
  ghost predicate StoredApart(m: seq<Byte>, l: seq<Chunk>, lo: int, hi: int)
    requires |m| == ADDRESS_SPACE
  {
    forall i :: 0 <= i < |l| && Apart(l[i], lo, hi) ==> StoredAt(m, l, i)
  }

  lemma HeaderKept(m: seq<Byte>, n: seq<Byte>, c: Chunk, next: int, lo: int, hi: int)
    requires |m| == ADDRESS_SPACE && HeaderAt(m, c, next) && BytesKept(m, n, lo, hi) && Apart(c, lo, hi)
    ensures HeaderAt(n, c, next)
  {
  }

  /** Writing between lo and hi leaves the headers outside alone. */
  lemma StoredKept(m: seq<Byte>, n: seq<Byte>, l: seq<Chunk>, lo: int, hi: int)
    requires |m| == ADDRESS_SPACE && Stored(m, l) && BytesKept(m, n, lo, hi)
    ensures StoredApart(n, l, lo, hi)
  {
    forall i | 0 <= i < |l| && Apart(l[i], lo, hi)
      ensures StoredAt(n, l, i)
    {
      assert StoredAt(m, l, i);
      HeaderKept(m, n, l[i], NextOf(l, i), lo, hi);
    }
  }

  /** Bytes of chunks in use, headers included. */
  ghost predicate InUsed(l: seq<Chunk>, a: int) {
    exists c :: c in l && !c.free && c.head <= a < End(c)
  }

  /** No byte of a chunk in use, and none outside the heap's pages, has changed. */
  ghost predicate Untouched(m: seq<Byte>, n: seq<Byte>, l: seq<Chunk>, taken: seq<int>) {
    |m| == |n| &&
    forall a :: 0 <= a < |m| && (InUsed(l, a) || !InPage(taken, a)) ==> n[a] == m[a]
  }

  /** Writing inside a free chunk touches nothing else. */
  lemma FreeChunkWritten(m: seq<Byte>, n: seq<Byte>, l: seq<Chunk>, taken: seq<int>, i: nat)
    requires Sorted(l) && Tiles(l, taken) && i < |l| && l[i].free
    requires BytesKept(m, n, l[i].head, End(l[i]))
    ensures Untouched(m, n, l, taken)
  {
    forall a | 0 <= a < |m| && (InUsed(l, a) || !InPage(taken, a))
      ensures n[a] == m[a]
    {
      if l[i].head <= a < End(l[i]) {
        assert InChunk(l, a);
        var c :| c in l && !c.free && c.head <= a < End(c);
        SharedByte(l, i, c, a);
      }
    }
  }

  lemma SharedByte(l: seq<Chunk>, i: nat, c: Chunk, a: int)
    requires Sorted(l) && i < |l| && c in l && l[i].head <= a < End(l[i]) && c.head <= a < End(c)
    ensures c == l[i]
  {
    var j :| 0 <= j < |l| && l[j] == c;
    assert l[i].head <= a < End(l[i]) && l[j].head <= a < End(l[j]);
  }

  lemma UntouchedTwice(m: seq<Byte>, n: seq<Byte>, p: seq<Byte>, l: seq<Chunk>, k: seq<Chunk>, taken: seq<int>, more: seq<int>)
    requires Untouched(m, n, l, taken) && Untouched(n, p, k, more) && SameUsed(l, k) && taken <= more
    ensures Untouched(m, p, l, more)
  {
    forall a | 0 <= a < |m| && (InUsed(l, a) || !InPage(more, a))
      ensures p[a] == m[a]
    {
      if InUsed(l, a) {
        var c :| c in l && !c.free && c.head <= a < End(c);
        assert c in k;
      }
      if InPage(taken, a) {
        var i :| 0 <= i < |taken| && taken[i] <= a < taken[i] + PGSIZE;
        assert more[i] == taken[i];
      }
    }
  }

  /** The bytes from lo to hi are zero. */
  ghost predicate Blank(m: seq<Byte>, lo: int, hi: int) {
    0 <= lo && hi <= |m| && forall k :: lo <= k < hi ==> m[k] == 0
  }

  /** The stores of chunk_split: c's header is cut down to `size` and a new header follows its payload. */
  method WriteSplit(mem: array<Byte>, ghost c: Chunk, ghost after: int, chunk: Word, size: Word) returns (ok: bool)
    requires mem.Length == ADDRESS_SPACE && HeaderAt(mem[..], c, after) && c.free && chunk == c.head && size < c.size
    modifies mem
    ensures ok <==> size + HEADER < c.size
    ensures BytesKept(old(mem[..]), mem[..], c.head, End(c))
    ensures ok ==>
      var split := c.head + HEADER + size;
      && HeaderAt(mem[..], Chunk(c.head, size, true), split)
      && HeaderAt(mem[..], Chunk(split, c.size - size - HEADER, true), after)
  {
    hide WordAt;
    var chunkSize := LoadWord(mem, chunk + SIZE);
    if chunkSize <= size + HEADER {
      return false;
    }
    if mem[chunk + STATUS] != KMEM_FREE {
      return false;
    }
    var addr := LoadWord(mem, chunk + ADDR);
    var split := addr + size;
    StoreWord(mem, split + ADDR, split + HEADER);
    StoreByte(mem, split + STATUS, KMEM_FREE);
    StoreWord(mem, split + SIZE, chunkSize - size - HEADER);
    var next := LoadWord(mem, chunk);
    StoreWord(mem, split, next);
    StoreWord(mem, chunk + SIZE, size);
    StoreWord(mem, chunk, split);
    ok := true;
  }

  /** The stores of chunk_glue when c and d touch: d is joined to c and the joint payload is zeroed. */
  method WriteMerge(mem: array<Byte>, ghost c: Chunk, ghost d: Chunk, ghost after: int, chunk: Word, next: Word)
    requires mem.Length == ADDRESS_SPACE && HeaderAt(mem[..], c, d.head) && HeaderAt(mem[..], d, after)
    requires c.free && d.free && d.head == End(c) && chunk == c.head && next == d.head
    modifies mem
    ensures BytesKept(old(mem[..]), mem[..], c.head, End(d))
    ensures HeaderAt(mem[..], Chunk(c.head, c.size + HEADER + d.size, true), after)
    ensures Blank(mem[..], c.head + HEADER, End(d))
  {
    hide WordAt;
    var size := LoadWord(mem, chunk + SIZE);
    var nextSize := LoadWord(mem, next + SIZE);
    StoreWord(mem, chunk + SIZE, size + nextSize + HEADER);
    var link := LoadWord(mem, next);
    StoreWord(mem, chunk, link);
    var addr := LoadWord(mem, chunk + ADDR);
    var count := LoadWord(mem, chunk + SIZE);
    Clear(mem, addr, count);
  }

  lemma ZeroWord(m: seq<Byte>, a: int)
    requires 0 <= a && a + 4 <= |m| && forall k :: a <= k < a + 4 ==> m[k] == 0
    ensures WordAt(m, a) == 0
  {
  }

  lemma MergeStored(m: seq<Byte>, l: seq<Chunk>, i: nat)
    requires |m| == ADDRESS_SPACE && Pair(l, i) && Sorted(l)
    requires StoredApart(m, l, l[i].head, End(l[i + 1]))
    requires HeaderAt(m, Chunk(l[i].head, l[i].size + HEADER + l[i + 1].size, true), NextOf(l, i + 1))
    ensures Stored(m, MergeAt(l, i))
  {
    hide HeaderAt;
    var c := MergeAt(l, i);
    forall j | 0 <= j < |c|
      ensures StoredAt(m, c, j)
    {
      if j < i {
        assert c[j] == l[j] && End(l[j]) <= l[i].head && StoredAt(m, l, j);
        assert NextOf(c, j) == NextOf(l, j);
      } else if j > i {
        assert c[j] == l[j + 1] && End(l[i + 1]) <= l[j + 1].head && StoredAt(m, l, j + 1);
        assert NextOf(c, j) == NextOf(l, j + 1);
      } else {
        assert NextOf(c, i) == NextOf(l, i + 1);
      }
    }
  }

  /** What merging chunks k and k+1 of l does to memory. */
  ghost predicate MergedBytes(m: seq<Byte>, n: seq<Byte>, l: seq<Chunk>, k: nat)
    requires k + 1 < |l|
  {
    && BytesKept(m, n, l[k].head, End(l[k + 1]))
    && l[k].head + HEADER <= l[k + 1].head && l[k + 1].head + HEADER <= End(l[k + 1])
    && Blank(n, l[k].head + HEADER, End(l[k + 1]))
  }

  /** What chunk_glue does to memory. */
  ghost predicate Glued(m: seq<Byte>, n: seq<Byte>, l: seq<Chunk>) {
    var k := FirstPair(l);
    if k == |l| then m == n else MergedBytes(m, n, l, k)
  }

  // ---- Changing a status ----

  lemma Restatus(m: seq<Byte>, n: seq<Byte>, c: Chunk, next: int, free: bool)
    requires |m| == ADDRESS_SPACE && HeaderAt(m, c, next)
    requires BytesKept(m, n, c.head + STATUS, c.head + STATUS + 1)
    requires n[c.head + STATUS] == if free then KMEM_FREE else KMEM_USED
    ensures HeaderAt(n, c.(free := free), next)
  {
  }

  lemma StatusStored(m: seq<Byte>, n: seq<Byte>, l: seq<Chunk>, i: nat, free: bool)
    requires |m| == |n| == ADDRESS_SPACE && Stored(m, l) && Sorted(l) && i < |l|
    requires BytesKept(m, n, l[i].head + STATUS, l[i].head + STATUS + 1)
    requires n[l[i].head + STATUS] == if free then KMEM_FREE else KMEM_USED
    ensures Stored(n, Mark(l, i, free))
  {
    hide HeaderAt, BytesKept, WordAt;
    var g := Mark(l, i, free);
    forall j | 0 <= j < |g|
      ensures StoredAt(n, g, j)
    {
      assert StoredAt(m, l, j) && NextOf(g, j) == NextOf(l, j);
      if j == i {
        Restatus(m, n, l[i], NextOf(l, i), free);
      } else {
        assert if j < i then End(l[j]) <= l[i].head else End(l[i]) <= l[j].head;
        HeaderKept(m, n, l[j], NextOf(l, j), l[i].head + STATUS, l[i].head + STATUS + 1);
      }
    }
  }

  lemma BytesTwice(m: seq<Byte>, n: seq<Byte>, p: seq<Byte>, lo: int, hi: int, a: int, b: int)
    requires BytesKept(m, n, lo, hi) && BytesKept(n, p, a, b) && lo <= a && b <= hi
    ensures BytesKept(m, p, lo, hi)
  {
  }

  /** A cut chunk whose first half is then marked used has been split. */
  lemma CutThenUse(l: seq<Chunk>, i: nat, size: int)
    requires i < |l|
    ensures Mark(Cut(l, i, size), i, false) == SplitAt(l, i, size)
    ensures Mark(SplitAt(l, i, size), i, true) == Cut(l, i, size)
    ensures |Cut(l, i, size)| == |l| + 1 && Cut(l, i, size)[i] == Chunk(l[i].head, size, true)
  {
  }

  /** The layout after a change that kept it. */
  lemma InvKept(l: seq<Chunk>, g: seq<Chunk>, taken: seq<int>, pages: seq<int>)
    requires Inv(l, taken, pages) && Sorted(g) && Total(g) == Total(l)
    requires forall a :: InChunk(g, a) <==> InChunk(l, a)
    ensures Inv(g, taken, pages)
  {
  }

  // ---- Growing by a page ----

  /** From boot on, as long as no page is given back, the pages left are what the laws about kmalloc ask for. */
  lemma {:induction false} BootPages(f: int)
    requires 0 <= f
    ensures Increasing(KernelPages.PagesFrom(f)) && Consecutive(KernelPages.PagesFrom(f))
    decreases NORMAL_PAGES - f
  {
    if f < NORMAL_PAGES {
      BootPages(f + 1);
      KernelPages.PagesFromAt(f, 0);
      forall k | 0 <= k < |KernelPages.PagesFrom(f)|
        ensures KernelPages.PagesFrom(f)[k] == KernelPages.AddressOf(f + k)
      {
        KernelPages.PagesFromAt(f, k);
      }
    }
  }

  lemma IncreasingRest(t: seq<int>, free: seq<int>)
    requires Increasing(t + free)
    ensures Increasing(free)
  {
    var all := t + free;
    assert forall i :: 0 <= i < |free| ==> all[|t| + i] == free[i];
  }

  lemma PageWritten(m: seq<Byte>, n: seq<Byte>, l: seq<Chunk>, taken: seq<int>, page: int)
    requires var grown := l + [PageChunk(page)]; Sorted(grown) && Tiles(grown, taken) && SameUsed(l, grown)
    requires BytesKept(m, n, page, page + PGSIZE)
    ensures Untouched(m, n, l, taken)
  {
    var grown := l + [PageChunk(page)];
    assert grown[|l|] == PageChunk(page);
    FreeChunkWritten(m, n, grown, taken, |l|);
    UntouchedSame(m, n, l, grown, taken);
  }

  /** Storing a new link changes nothing else of a header. */
  lemma Relinked(m: seq<Byte>, n: seq<Byte>, c: Chunk, before: int, after: int)
    requires |m| == ADDRESS_SPACE && HeaderAt(m, c, before)
    requires BytesKept(m, n, c.head, c.head + 4) && WordAt(n, c.head) == after
    ensures HeaderAt(n, c, after)
  {
  }

  /** The list with a fresh page behind it, after the page's header and the old tail's link are stored. */
  lemma LinkedStored(m: seq<Byte>, n: seq<Byte>, p: seq<Byte>, l: seq<Chunk>, page: int)
    requires |m| == |n| == |p| == ADDRESS_SPACE && l != [] && Stored(m, l) && Sorted(l + [PageChunk(page)])
    requires BytesKept(m, n, page, page + PGSIZE) && HeaderAt(n, PageChunk(page), 0)
    requires var block := l[|l| - 1].head;
      0 <= block && block + 4 <= |p| && BytesKept(n, p, block, block + 4) && WordAt(p, block) == page
    ensures Stored(p, l + [PageChunk(page)])
  {
    hide HeaderAt, BytesKept, WordAt;
    var g, b := l + [PageChunk(page)], |l| - 1;
    forall j | 0 <= j < |g|
      ensures StoredAt(p, g, j)
    {
      assert j < |l| ==> g[j] == l[j] && End(g[j]) <= g[|l|].head && StoredAt(m, l, j);
      if j < b {
        assert End(g[j]) <= g[b].head;
        HeaderKept(m, n, l[j], NextOf(l, j), page, page + PGSIZE);
        HeaderKept(n, p, l[j], NextOf(l, j), l[b].head, l[b].head + 4);
        assert NextOf(g, j) == NextOf(l, j);
      } else if j == b {
        HeaderKept(m, n, l[b], 0, page, page + PGSIZE);
        Relinked(n, p, l[b], 0, page);
      } else {
        assert End(g[b]) <= g[|l|].head;
        HeaderKept(n, p, g[j], 0, l[b].head, l[b].head + 4);
      }
    }
  }

  lemma TilesKept(l: seq<Chunk>, g: seq<Chunk>, taken: seq<int>)
    requires Tiles(l, taken) && forall a :: InChunk(g, a) <==> InChunk(l, a)
    ensures Tiles(g, taken)
  {
  }

  lemma GlueUntouched(m: seq<Byte>, n: seq<Byte>, l: seq<Chunk>, taken: seq<int>)
    requires Sorted(l) && Tiles(l, taken) && Glued(m, n, l)
    ensures Untouched(m, n, l, taken)
  {
    var k := FirstPair(l);
    if k < |l| {
      MergeKeeps(l, k);
      hide FirstPair, Tiles, Sorted, InChunk, SameUsed, MergeAt, Pair, Untouched;
      var g := MergeAt(l, k);
      TilesKept(l, g, taken);
      MergedHere(l, k);
      FreeChunkWritten(m, n, g, taken, k);
      UntouchedSame(m, n, l, g, taken);
    }
  }

  lemma MergedHere(l: seq<Chunk>, k: nat)
    requires Pair(l, k)
    ensures var g := MergeAt(l, k);
      k < |g| && g[k].free && g[k].head == l[k].head && End(g[k]) == End(l[k + 1])
  {
  }

  lemma UntouchedSame(m: seq<Byte>, n: seq<Byte>, l: seq<Chunk>, g: seq<Chunk>, taken: seq<int>)
    requires Untouched(m, n, g, taken) && SameUsed(l, g)
    ensures Untouched(m, n, l, taken)
  {
    forall a | InUsed(l, a)
      ensures InUsed(g, a)
    {
      var c :| c in l && !c.free && c.head <= a < End(c);
      assert c in g;
    }
  }

  /** The header at block has been zeroed: it reads as in use, with a NULL link. */
  ghost predicate Zeroed(m: seq<Byte>, block: int) {
    0 <= block && block + HEADER <= |m| && WordAt(m, block) == 0 && m[block + STATUS] == KMEM_USED
  }

  /** block is the header of chunk i. */
  ghost predicate BlockAt(l: seq<Chunk>, i: int, block: int) {
    0 <= i < |l| && l[i].head == block
  }

  lemma MarkedHere(l: seq<Chunk>, i: nat)
    requires i < |l|
    ensures |Mark(l, i, true)| == |l| && Mark(l, i, true)[i] == l[i].(free := true)
  {
  }

  /** A payload that is zero stays zero under chunk_glue. */
  lemma GlueKeepsBlank(m: seq<Byte>, n: seq<Byte>, l: seq<Chunk>, i: nat)
    requires Sorted(l) && i < |l| && Glued(m, n, l) && Blank(m, l[i].head + HEADER, End(l[i]))
    ensures Blank(n, l[i].head + HEADER, End(l[i]))
  {
    var k := FirstPair(l);
    hide FirstPair;
    if k < |l| && i != k && i != k + 1 {
      assert if i < k then End(l[i]) <= l[k].head else End(l[k + 1]) <= l[i].head;
    }
  }

  /** Where the chunk at position b is after a glue, or that its header has been zeroed. */
  lemma BlockAfterGlue(m: seq<Byte>, n: seq<Byte>, l: seq<Chunk>, b: nat)
    requires b < |l| && |n| == ADDRESS_SPACE && Glued(m, n, l)
    ensures var k := FirstPair(l);
      if k + 1 == b then Zeroed(n, l[b].head)
      else BlockAt(Glue(l), if k < b then b - 1 else b, l[b].head)
  {
    hide FirstPair, WordAt, MergeAt, BytesKept;
    var k := FirstPair(l);
    if k + 1 == b {
      assert MergedBytes(m, n, l, k);
      ZeroWord(n, l[b].head);
    } else if k < |l| {
      MergeHeads(l, k, b);
    }
  }

  lemma MergeHeads(l: seq<Chunk>, k: nat, b: nat)
    requires k + 1 < |l| && b < |l| && b != k + 1
    ensures BlockAt(MergeAt(l, k), if k < b then b - 1 else b, l[b].head)
  {
  }

  class Heap {
    const mem: array<Byte>
    const kvm: KernelPages.KernelPages
    var list: Word              // kmem_list
    ghost var chunks: seq<Chunk>
    ghost var taken: seq<int>   // pages obtained from kvm_alloc_page

    ghost predicate Valid()
      reads this, mem, kvm, kvm.blocks
    {
      && mem.Length == ADDRESS_SPACE
      && kvm.Valid()
      && Inv(chunks, taken, kvm.FreePages())
      && list == NextOf(chunks, -1)
      && Stored(mem[..], chunks)
    }

    /** A heap with no memory yet, over the pages that are free. */
    constructor (memory: array<Byte>, pages: KernelPages.KernelPages)
      requires memory.Length == ADDRESS_SPACE && pages.Valid() && Increasing(pages.FreePages())
      ensures Valid() && chunks == [] && taken == [] && mem == memory && kvm == pages
    {
      mem := memory;
      kvm := pages;
      list := 0;
      chunks := [];
      taken := [];
      new;
      assert [] + kvm.FreePages() == kvm.FreePages();
    }

    /** chunk_split on chunk i, which is still free afterwards; false is its panic. */
    method ChunkSplit(chunk: Word, size: Word, ghost i: nat) returns (ok: bool)
      requires Valid() && i < |chunks| && chunk == chunks[i].head && chunks[i].free && size < chunks[i].size
      modifies this`chunks, mem
      ensures ok <==> size + HEADER < old(chunks)[i].size
      ensures ok ==> chunks == Cut(old(chunks), i, size) && Stored(mem[..], chunks)
      ensures BytesKept(old(mem[..]), mem[..], chunk, End(old(chunks)[i]))
    {
      hide WordAt, HeaderAt, BytesKept;
      ghost var l, m := chunks, mem[..];
      assert StoredAt(m, l, i);
      ok := WriteSplit(mem, l[i], NextOf(l, i), chunk, size);
      if ok {
        StoredKept(m, mem[..], l, chunk, End(l[i]));
        chunks := Cut(l, i, size);
        CutStored(mem[..], l, i, size);
      }
    }

    /** The body of chunk_glue's loop: join chunk i and the one after it if both are free and touch. */
    method TryMerge(chunk: Word, next: Word, ghost i: nat) returns (merged: bool)
      requires mem.Length == ADDRESS_SPACE && Sorted(chunks) && Stored(mem[..], chunks)
      requires i + 1 < |chunks| && chunk == chunks[i].head && next == chunks[i + 1].head
      modifies this`chunks, mem
      ensures merged <==> Pair(old(chunks), i)
      ensures merged ==> chunks == MergeAt(old(chunks), i) && Stored(mem[..], chunks)
      ensures merged ==> MergedBytes(old(mem[..]), mem[..], old(chunks), i)
      ensures !merged ==> chunks == old(chunks) && mem[..] == old(mem[..])
    {
      hide WordAt, BytesKept, MergeAt;
      ghost var l, m := chunks, mem[..];
      assert StoredAt(m, l, i) && StoredAt(m, l, i + 1);
      merged := false;
      if mem[chunk + STATUS] == KMEM_FREE && mem[next + STATUS] == KMEM_FREE {
        var nextAddr := LoadWord(mem, next + ADDR);
        var chunkAddr := LoadWord(mem, chunk + ADDR);
        var size := LoadWord(mem, chunk + SIZE);
        var distance := (nextAddr - chunkAddr) % ADDRESS_SPACE;
        if distance == (size + HEADER) % ADDRESS_SPACE {
          assert Pair(l, i);
          WriteMerge(mem, l[i], l[i + 1], NextOf(l, i + 1), chunk, next);
          StoredKept(m, mem[..], l, l[i].head, End(l[i + 1]));
          MergeStored(mem[..], l, i);
          chunks := MergeAt(l, i);
          merged := true;
        }
      }
    }

    /** chunk_glue; false is its panic on an empty list. A merge zeroes the absorbed header, and the
        walk then steps onto it, reads a NULL link and stops. */
    method ChunkGlue() returns (ok: bool)
      requires mem.Length == ADDRESS_SPACE && Sorted(chunks) && list == NextOf(chunks, -1) && Stored(mem[..], chunks)
      modifies this`chunks, mem
      ensures ok <==> old(chunks) != []
      ensures chunks == Glue(old(chunks)) && Stored(mem[..], chunks)
      ensures Glued(old(mem[..]), mem[..], old(chunks))
    {
      hide WordAt, BytesKept, MergeAt, FirstPair;
      ghost var l, m := chunks, mem[..];
      if list == 0 {
        return false;
      }
      ok := true;
      var chunk := list;
      var merged := false;
      ghost var i := 0;
      while chunk != 0
        invariant 0 <= i <= |l|
        invariant !merged ==> chunk == NextOf(l, i - 1) && chunks == l && mem[..] == m
        invariant !merged ==> forall j :: 0 <= j < i ==> !Pair(l, j)
        invariant merged ==> 0 < i < |l| && Pair(l, i - 1) && forall j :: 0 <= j < i - 1 ==> !Pair(l, j)
        invariant merged ==> chunk == l[i].head && chunks == MergeAt(l, i - 1) && Stored(mem[..], chunks)
        invariant merged ==> MergedBytes(m, mem[..], l, i - 1)
        decreases |l| - i
      {
        assert merged ==> WordAt(mem[..], chunk) == 0 by {
          if merged {
            ZeroWord(mem[..], chunk);
          }
        }
        assert !merged ==> StoredAt(m, l, i);
        var next := LoadWord(mem, chunk);
        if next == 0 {
          break;
        }
        merged := TryMerge(chunk, next, i);
        chunk := next;
        i := i + 1;
      }
      if merged {
        FirstPairUnique(l, 0, i - 1);
      } else {
        FirstPairUnique(l, 0, |l|);
      }
    }

    /** alloc_free_chunk_from_kvm: a whole page as one free chunk. The panic is kvm_alloc_page's. */
    method AllocFreeChunk() returns (panicked: bool, chunk: Word)
      requires mem.Length == ADDRESS_SPACE && kvm.Valid() && Increasing(kvm.FreePages())
      modifies mem, kvm.blocks
      ensures panicked <==> old(kvm.FreePages()) == []
      ensures panicked ==> mem[..] == old(mem[..])
      ensures !panicked ==>
        && chunk == old(kvm.FreePages())[0]
        && kvm.FreePages() == old(kvm.FreePages())[1..]
        && HeaderAt(mem[..], PageChunk(chunk), 0)
        && BytesKept(old(mem[..]), mem[..], chunk, chunk + PGSIZE)
    {
      hide WordAt;
      var page := kvm.AllocPage();
      if page.None? {
        return true, 0;
      }
      panicked := false;
      chunk := page.value;
      ghost var free := old(kvm.FreePages());
      assert 0 < free[0] && free[0] + PGSIZE < ADDRESS_SPACE;
      StoreWord(mem, chunk + SIZE, PGSIZE - HEADER);
      StoreByte(mem, chunk + STATUS, KMEM_FREE);
      StoreWord(mem, chunk + ADDR, chunk + HEADER);
      StoreWord(mem, chunk, 0);
    }

    /** kmalloc at a free tail that is too small: link a fresh page behind it and glue once. */
    method Grow(block: Word, ghost b: nat) returns (panicked: bool)
      requires Valid() && b == |chunks| - 1 && chunks[b].free && block == chunks[b].head
      modifies this`chunks, this`taken, mem, kvm.blocks
      ensures panicked <==> old(kvm.FreePages()) == []
      ensures !panicked ==>
        var free := old(kvm.FreePages());
        var grown := old(chunks) + [PageChunk(free[0])];
        var k := FirstPair(grown);
        && Valid()
        && chunks == Glue(grown)
        && kvm.FreePages() == free[1..]
        && taken == old(taken) + [free[0]]
        && SameUsed(old(chunks), chunks)
        && Untouched(old(mem[..]), mem[..], old(chunks), taken)
        && if k + 1 == b then Zeroed(mem[..], block)
           else BlockAt(chunks, if k < b then b - 1 else b, block)
    {
      hide WordAt, HeaderAt, BytesKept, Sorted, Tiles, Increasing, FirstPair, Glue, MergeAt, Stored, Untouched, Glued;
      ghost var l, t, m := chunks, taken, mem[..];
      ghost var free := kvm.FreePages();
      IncreasingRest(t, free);
      var next;
      panicked, next := AllocFreeChunk();
      if panicked {
        return;
      }
      ghost var m1, grown := mem[..], l + [PageChunk(next)];
      GrowKeeps(l, t, free);
      taken := t + [next];
      PageWritten(m, m1, l, taken, next);
      HeadInRange(grown, b);
      StoreWord(mem, block, next);
      ghost var m2 := mem[..];
      LinkedStored(m, m1, m2, l, next);
      LinkWritten(m1, m2, l, grown, taken, b);
      UntouchedTwice(m, m1, m2, l, l, taken, taken);
      chunks := grown;
      var glued := ChunkGlue();
      GlueUntouched(m2, mem[..], grown, taken);
      UntouchedTwice(m, m2, mem[..], l, grown, taken, taken);
      GlueInv(grown, taken, free[1..]);
      BlockAfterGlue(m2, mem[..], grown, b);
      HeadsKept(grown);
    }

    /** kmalloc on a block larger than the request: split it and hand out the first part. */
    method TakeSplit(block: Word, size: Word, ghost b: nat) returns (ok: bool, res: Word)
      requires Valid() && b < |chunks| && block == chunks[b].head && chunks[b].free && size < chunks[b].size
      modifies this`chunks, mem
      ensures ok <==> size + HEADER < old(chunks)[b].size
      ensures ok ==>
        && Valid()
        && chunks == SplitAt(old(chunks), b, size)
        && res == block + HEADER
        && Untouched(old(mem[..]), mem[..], old(chunks), taken)
    {
      hide WordAt, HeaderAt, BytesKept, Sorted, Tiles, Increasing, Untouched, Stored, Cut, SplitAt, Mark;
      ghost var l, m := chunks, mem[..];
      HeadInRange(l, b);
      ok := ChunkSplit(block, size, b);
      if !ok {
        return false, 0;
      }
      ghost var m1, g := mem[..], SplitAt(l, b, size);
      SplitKeeps(l, b, size);
      SplitHead(l, b, size);
      CutThenUse(l, b, size);
      MarkKeeps(g, b, true);
      StoreByte(mem, block + STATUS, KMEM_USED);
      StatusStored(m1, mem[..], Cut(l, b, size), b, false);
      chunks := g;
      InvKept(l, g, taken, kvm.FreePages());
      BytesTwice(m, m1, mem[..], block, End(l[b]), block + STATUS, block + STATUS + 1);
      FreeChunkWritten(m, mem[..], l, taken, b);
      res := LoadAddr(block, b);
    }

    /** chunk->addr. */
    method LoadAddr(chunk: Word, ghost i: nat) returns (addr: Word)
      requires mem.Length == ADDRESS_SPACE && Stored(mem[..], chunks) && i < |chunks| && chunk == chunks[i].head
      ensures addr == chunk + HEADER
    {
      hide WordAt;
      assert StoredAt(mem[..], chunks, i);
      addr := LoadWord(mem, chunk + ADDR);
    }

    /** kmalloc on a block of exactly the size requested. */
    method TakeWhole(block: Word, ghost b: nat) returns (res: Word)
      requires Valid() && b < |chunks| && block == chunks[b].head && chunks[b].free
      modifies this`chunks, mem
      ensures Valid()
      ensures chunks == Mark(old(chunks), b, false)
      ensures res == block + HEADER
      ensures Untouched(old(mem[..]), mem[..], old(chunks), taken)
    {
      hide WordAt, HeaderAt, BytesKept, Sorted, Tiles, Increasing, Untouched, Stored;
      ghost var l, m := chunks, mem[..];
      HeadInRange(l, b);
      res := LoadAddr(block, b);
      StoreByte(mem, block + STATUS, KMEM_USED);
      StatusStored(m, mem[..], l, b, false);
      MarkKeeps(l, b, false);
      chunks := Mark(l, b, false);
      InvKept(l, chunks, taken, kvm.FreePages());
      WiderBytes(m, mem[..], block + STATUS, block + STATUS + 1, block, End(l[b]));
      FreeChunkWritten(m, mem[..], l, taken, b);
    }

    /** kmalloc with no list yet: a fresh page becomes the list. */
    method FirstPage() returns (panicked: bool)
      requires Valid() && chunks == []
      modifies this, mem, kvm.blocks
      ensures panicked <==> old(kvm.FreePages()) == []
      ensures !panicked ==>
        && Valid()
        && chunks == [PageChunk(old(kvm.FreePages())[0])]
        && kvm.FreePages() == old(kvm.FreePages())[1..]
        && Untouched(old(mem[..]), mem[..], [], taken)
    {
      hide WordAt, HeaderAt, BytesKept, Sorted, Tiles, Increasing, Untouched;
      ghost var m, free, t := mem[..], kvm.FreePages(), taken;
      IncreasingRest(t, free);
      var chunk;
      panicked, chunk := AllocFreeChunk();
      if panicked {
        return;
      }
      list := chunk;
      GrowKeeps([], t, free);
      assert [] + [PageChunk(chunk)] == [PageChunk(chunk)];
      chunks := [PageChunk(chunk)];
      taken := t + [chunk];
      PageWritten(m, mem[..], [], taken, chunk);
    }

    /** kmalloc. Its result is the one ChunkList.Malloc describes, and it changes no byte of a chunk
        in use and none outside the heap's pages. */
    method Kmalloc(size: Word) returns (panicked: bool, res: Word)
      requires Valid()
      modifies this, mem, kvm.blocks
      ensures panicked == Malloc(old(chunks), size, old(kvm.FreePages())).Panic?
      ensures !panicked ==>
        var o := Malloc(old(chunks), size, old(kvm.FreePages()));
        && Valid()
        && chunks == o.list
        && kvm.FreePages() == o.pages
        && res == (if o.Got? then o.addr else 0)
        && Untouched(old(mem[..]), mem[..], old(chunks), taken)
    {
      hide WordAt, BytesKept, HeaderAt, Stored, Inv, Untouched, SplitAt, Mark, Glue, FirstPair, SameUsed;
      ghost var l0, m0 := chunks, mem[..];
      ghost var o := Malloc(l0, size, kvm.FreePages());
      NothingTouched(m0, l0, taken);
      SameAsItself(l0);
      if list == 0 {
        ListDone(l0, taken, kvm.FreePages(), 0);
        var failed := FirstPage();
        if failed {
          return true, 0;
        }
        EmptyUsed(chunks);
      }
      var block := list;
      ghost var b := 0;
      ghost var absorbed := false;
      while block != 0
        invariant Valid() && SameUsed(l0, chunks) && Untouched(m0, mem[..], l0, taken)
        invariant !absorbed ==>
          0 <= b <= |chunks| && block == NextOf(chunks, b - 1) && Search(chunks, b, size, kvm.FreePages()) == o
        invariant absorbed ==>
          o == Null(chunks, kvm.FreePages()) && (block != 0 ==> Zeroed(mem[..], block))
        decreases |kvm.FreePages()|, !absorbed, |chunks| - b, block != 0
      {
        ghost var l, m, t := chunks, mem[..], taken;
        if !absorbed {
          HeaderFacts(m, l, b);
        }
        if mem[block + STATUS] != KMEM_FREE {
          block := LoadWord(mem, block);
          b := if absorbed then b else b + 1;
          continue;
        }
        var blockSize := LoadWord(mem, block + SIZE);
        if blockSize > size {
          var ok;
          ok, res := TakeSplit(block, size, b);
          if !ok {
            return true, 0;
          }
          UntouchedTwice(m0, m, mem[..], l0, l, t, taken);
          return false, res;
        }
        if blockSize == size {
          res := TakeWhole(block, b);
          UntouchedTwice(m0, m, mem[..], l0, l, t, taken);
          return false, res;
        }
        var next := LoadWord(mem, block);
        if next == 0 {
          TailHere(l, t, kvm.FreePages(), b);
          var failed := Grow(block, b);
          if failed {
            return true, 0;
          }
          UntouchedTwice(m0, m, mem[..], l0, l, t, taken);
          SameTwice(l0, l, chunks);
          ghost var k := FirstPair(l + [PageChunk(taken[|t|])]);
          absorbed := k + 1 == b;
          b := if k < b then b - 1 else b;
          continue;
        }
        block := next;
        b := b + 1;
      }
      if !absorbed {
        ListDone(chunks, taken, kvm.FreePages(), b);
      }
      return false, 0;
    }

    /** kmfree's work on the chunk it found: mark it free and zero its payload. */
    method Release(chunk: Word, ghost i: nat)
      requires Valid() && i < |chunks| && chunk == chunks[i].head && !chunks[i].free
      modifies this`chunks, mem
      ensures Valid()
      ensures chunks == Mark(old(chunks), i, true)
      ensures Blank(mem[..], old(chunks)[i].head + HEADER, End(old(chunks)[i]))
      ensures Untouched(old(mem[..]), mem[..], chunks, taken)
    {
      hide WordAt, HeaderAt, BytesKept, Sorted, Tiles, Increasing, Untouched, Stored;
      ghost var l, m := chunks, mem[..];
      HeadInRange(l, i);
      StoreByte(mem, chunk + STATUS, KMEM_FREE);
      ghost var m1, g := mem[..], Mark(l, i, true);
      StatusStored(m, m1, l, i, true);
      MarkKeeps(l, i, true);
      InvKept(l, g, taken, kvm.FreePages());
      chunks := g;
      HeaderFacts(m1, g, i);
      var addr := LoadAddr(chunk, i);
      var size := LoadWord(mem, chunk + SIZE);
      Clear(mem, addr, size);
      PayloadStored(m1, mem[..], g, i);
      WiderBytes(m, m1, chunk + STATUS, chunk + STATUS + 1, chunk, End(g[i]));
      BytesTwice(m, m1, mem[..], chunk, End(g[i]), addr, addr + size);
      FreeChunkWritten(m, mem[..], g, taken, i);
    }

    /** kmfree: the allocation that contains addr, if any, becomes free and its payload is zeroed, and then the
        first two free chunks that touch are made one. */
    method Kmfree(addr: Word)
      requires Valid()
      modifies this`chunks, mem
      ensures Valid()
      ensures chunks == Free(old(chunks), addr) && ChunkReturns.FreedTo(old(chunks), addr, chunks)
      ensures var k := FindOwner(old(chunks), addr);
        k < |old(chunks)| ==> Blank(mem[..], old(chunks)[k].head + HEADER, End(old(chunks)[k]))
      ensures Untouched(old(mem[..]), mem[..], Released(old(chunks), addr), taken)
    {
      hide WordAt, HeaderAt, BytesKept, Sorted, Tiles, Increasing, Untouched, Stored, Mark, Glue, FindOwner, ChunkReturns.FreedTo;
      ChunkReturns.FreeGlues(chunks, addr);
      if list == 0 {
        ListDone(chunks, taken, kvm.FreePages(), 0);
        FindOwnerIs(chunks, addr, 0, 0);
        NothingTouched(mem[..], chunks, taken);
        GlueNothing();
        return;
      }
      ghost var l, m := chunks, mem[..];
      var chunk := list;
      ghost var i := 0;
      while chunk != 0
        invariant 0 <= i <= |l| && chunk == NextOf(l, i - 1)
        invariant chunks == l && mem[..] == m
        invariant forall j :: 0 <= j < i ==> !Owns(l[j], addr)
        decreases |l| - i
      {
        HeaderFacts(m, l, i);
        HeadInRange(l, i);
        if mem[chunk + STATUS] != KMEM_USED {
          chunk := LoadWord(mem, chunk);
          i := i + 1;
          continue;
        }
        var start := LoadAddr(chunk, i);
        var size := LoadWord(mem, chunk + SIZE);
        if start <= addr && start + size > addr {
          Release(chunk, i);
          break;
        }
        chunk := LoadWord(mem, chunk);
        i := i + 1;
      }
      if chunk == 0 {
        ListDone(l, taken, kvm.FreePages(), i);
        NothingTouched(m, l, taken);
      }
      FindOwnerIs(l, addr, 0, i);
      ghost var g, m1 := chunks, mem[..];
      var ok := ChunkGlue();
      GlueUntouched(m1, mem[..], g, taken);
      UntouchedTwice(m, m1, mem[..], g, g, taken, taken);
      if i < |l| {
        MarkedHere(l, i);
        GlueKeepsBlank(m1, mem[..], g, i);
      }
      GlueInv(g, taken, kvm.FreePages());
      HeadsKept(g);
    }
  }

  lemma GlueNothing()
    ensures Glue([]) == []
  {
  }

  /** Writing the payload of chunk i leaves every header alone. */
  lemma PayloadStored(m: seq<Byte>, n: seq<Byte>, l: seq<Chunk>, i: nat)
    requires |m| == ADDRESS_SPACE && Stored(m, l) && Sorted(l) && i < |l|
    requires BytesKept(m, n, l[i].head + HEADER, End(l[i]))
    ensures |n| == ADDRESS_SPACE && Stored(n, l)
  {
    hide HeaderAt, WordAt;
    forall j | 0 <= j < |l|
      ensures StoredAt(n, l, j)
    {
      assert StoredAt(m, l, j);
      if j == i {
        HeaderOnly(m, n, l[i], NextOf(l, i));
      } else {
        assert if j < i then End(l[j]) <= l[i].head else End(l[i]) <= l[j].head;
        HeaderKept(m, n, l[j], NextOf(l, j), l[i].head + HEADER, End(l[i]));
      }
    }
  }

  lemma HeaderOnly(m: seq<Byte>, n: seq<Byte>, c: Chunk, next: int)
    requires |m| == ADDRESS_SPACE && HeaderAt(m, c, next) && BytesKept(m, n, c.head + HEADER, End(c))
    ensures HeaderAt(n, c, next)
  {
  }

  lemma NothingTouched(m: seq<Byte>, l: seq<Chunk>, taken: seq<int>)
    ensures Untouched(m, m, l, taken)
  {
  }

  lemma ListDone(l: seq<Chunk>, taken: seq<int>, pages: seq<int>, b: nat)
    requires Inv(l, taken, pages) && b <= |l| && NextOf(l, b - 1) == 0
    ensures b == |l|
  {
  }

  /** What kmalloc reads in the header of chunk b. */
  lemma HeaderFacts(m: seq<Byte>, l: seq<Chunk>, b: nat)
    requires |m| == ADDRESS_SPACE && Stored(m, l) && b < |l|
    ensures var h := l[b].head;
      && 0 < h && h + HEADER <= |m|
      && WordAt(m, h) == NextOf(l, b)
      && m[h + STATUS] == (if l[b].free then KMEM_FREE else KMEM_USED)
      && WordAt(m, h + SIZE) == l[b].size
  {
    assert StoredAt(m, l, b);
  }

  lemma SameAsItself(l: seq<Chunk>)
    ensures SameUsed(l, l)
  {
  }

  lemma SameTwice(k: seq<Chunk>, l: seq<Chunk>, g: seq<Chunk>)
    requires SameUsed(k, l) && SameUsed(l, g)
    ensures SameUsed(k, g)
  {
  }

  lemma EmptyUsed(l: seq<Chunk>)
    requires |l| == 1 && l[0].free
    ensures SameUsed([], l)
  {
  }

  /** A NULL link is the last chunk's. */
  lemma TailHere(l: seq<Chunk>, taken: seq<int>, pages: seq<int>, b: nat)
    requires Inv(l, taken, pages) && b < |l| && NextOf(l, b) == 0
    ensures b == |l| - 1
  {
  }

  lemma WiderBytes(m: seq<Byte>, n: seq<Byte>, a: int, b: int, lo: int, hi: int)
    requires BytesKept(m, n, a, b) && lo <= a && b <= hi
    ensures BytesKept(m, n, lo, hi)
  {
  }

  lemma SplitHead(l: seq<Chunk>, i: nat, size: int)
    requires i < |l|
    ensures |SplitAt(l, i, size)| == |l| + 1 && SplitAt(l, i, size)[i].head == l[i].head
    ensures NextOf(SplitAt(l, i, size), -1) == NextOf(l, -1)
  {
  }

  lemma HeadInRange(l: seq<Chunk>, i: nat)
    requires Sorted(l) && i < |l|
    ensures 0 < l[i].head && l[i].head + HEADER <= End(l[i]) < ADDRESS_SPACE
  {
  }

  lemma LinkWritten(m: seq<Byte>, n: seq<Byte>, l: seq<Chunk>, grown: seq<Chunk>, taken: seq<int>, b: nat)
    requires Sorted(grown) && Tiles(grown, taken) && SameUsed(l, grown)
    requires b < |l| < |grown| && grown[b] == l[b] && l[b].free
    requires BytesKept(m, n, l[b].head, l[b].head + 4)
    ensures Untouched(m, n, l, taken)
  {
    assert grown[b].head + 4 <= End(grown[b]);
    FreeChunkWritten(m, n, grown, taken, b);
    UntouchedSame(m, n, l, grown, taken);
  }

  /** Gluing never moves the head of the list. */
  lemma HeadsKept(l: seq<Chunk>)
    ensures NextOf(Glue(l), -1) == NextOf(l, -1)
  {
  }

  /** Chunk i cut in two, both halves free. */
  function Cut(l: seq<Chunk>, i: nat, size: int): seq<Chunk>
    requires i < |l|
  {
    l[..i]
    + [Chunk(l[i].head, size, true), Chunk(l[i].head + HEADER + size, l[i].size - size - HEADER, true)]
    + l[i + 1..]
  }

  lemma CutStored(m: seq<Byte>, l: seq<Chunk>, i: nat, size: int)
    requires |m| == ADDRESS_SPACE && i < |l| && Sorted(l)
    requires StoredApart(m, l, l[i].head, End(l[i]))
    requires var split := l[i].head + HEADER + size;
      && HeaderAt(m, Chunk(l[i].head, size, true), split)
      && HeaderAt(m, Chunk(split, l[i].size - size - HEADER, true), NextOf(l, i))
    ensures Stored(m, Cut(l, i, size))
  {
    hide HeaderAt;
    var c := Cut(l, i, size);
    forall j | 0 <= j < |c|
      ensures StoredAt(m, c, j)
    {
      if j < i {
        CutBefore(m, l, i, size, j);
      } else if j > i + 1 {
        CutAfter(m, l, i, size, j);
      }
    }
  }

  lemma CutBefore(m: seq<Byte>, l: seq<Chunk>, i: nat, size: int, j: nat)
    requires |m| == ADDRESS_SPACE && j < i < |l| && Sorted(l) && StoredApart(m, l, l[i].head, End(l[i]))
    ensures StoredAt(m, Cut(l, i, size), j)
  {
    hide HeaderAt;
    var c := Cut(l, i, size);
    assert c[j] == l[j] && End(l[j]) <= l[i].head;
    assert StoredAt(m, l, j);
    assert NextOf(c, j) == NextOf(l, j);
  }

  lemma CutAfter(m: seq<Byte>, l: seq<Chunk>, i: nat, size: int, j: nat)
    requires |m| == ADDRESS_SPACE && i < |l| && i + 1 < j <= |l| && Sorted(l) && StoredApart(m, l, l[i].head, End(l[i]))
    ensures StoredAt(m, Cut(l, i, size), j)
  {
    hide HeaderAt;
    var c, k := Cut(l, i, size), j - 1;
    assert c[j] == l[k] && End(l[i]) <= l[k].head;
    assert StoredAt(m, l, k);
    assert NextOf(c, j) == NextOf(l, k);
  }
}
