// The chunk list of mm/kmalloc.c seen as a sequence, and what each operation does to it.
// module Heap runs the same operations on headers stored in memory.

module ChunkList {
  import opened Machine

  const HEADER: int := 16   // sizeof(struct kmem_chunk) on i686

  /** A chunk: its header's address, its payload size and whether its status is KMEM_FREE. */
  datatype Chunk = Chunk(head: int, size: int, free: bool)

  function End(c: Chunk): int {
    c.head + HEADER + c.size
  }

  function PageChunk(page: int): Chunk {
    Chunk(page, PGSIZE - HEADER, true)
  }

  /** Chunks i and i+1 are free and touch: the pair chunk_glue looks for. */
  predicate Pair(l: seq<Chunk>, i: int) {
    && 0 <= i < |l| - 1
    && l[i].free
    && l[i + 1].free
    && l[i + 1].head == End(l[i])
  }

  /** The first such pair at or after i, or |l| when there is none. */
  function FirstPair(l: seq<Chunk>, i: nat := 0): (k: nat)
    ensures k == |l| || (i <= k && Pair(l, k))
    ensures forall j :: i <= j < k ==> !Pair(l, j)
    decreases |l| - i
  {
    if i >= |l| then |l| else if Pair(l, i) then i else FirstPair(l, i + 1)
  }

  lemma {:induction false} FirstPairUnique(l: seq<Chunk>, i: nat, k: nat)
    requires i <= k
    requires k == |l| || Pair(l, k)
    requires forall j :: i <= j < k ==> !Pair(l, j)
    requires i <= |l|
    ensures FirstPair(l, i) == k
    decreases |l| - i
  {
    if i < k {
      FirstPairUnique(l, i + 1, k);
    }
  }

  function MergeAt(l: seq<Chunk>, i: nat): seq<Chunk>
    requires i + 1 < |l|
  {
    l[..i] + [Chunk(l[i].head, l[i].size + HEADER + l[i + 1].size, true)] + l[i + 2..]
  }

  /** chunk_glue: at most one merge a call, because it steps onto the header it has just zeroed. */
  function Glue(l: seq<Chunk>): seq<Chunk> {
    var k := FirstPair(l);
    if k == |l| then l else MergeAt(l, k)
  }

  function SplitAt(l: seq<Chunk>, i: nat, size: int): seq<Chunk>
    requires i < |l|
  {
    l[..i]
    + [Chunk(l[i].head, size, false), Chunk(l[i].head + HEADER + size, l[i].size - size - HEADER, true)]
    + l[i + 1..]
  }

  function Mark(l: seq<Chunk>, i: nat, free: bool): seq<Chunk>
    requires i < |l|
  {
    l[i := l[i].(free := free)]
  }

  datatype Reason = NoRoomForHeader | NoFreePage

  /** How a call of kmalloc ends. `pages` are the free mapped pages left, lowest first. */
  datatype Outcome =
    | Got(list: seq<Chunk>, pages: seq<int>, addr: int)
    | Null(list: seq<Chunk>, pages: seq<int>)
    | Panic(reason: Reason)

  /** The search loop of kmalloc with `block` at position b. */
  function Search(l: seq<Chunk>, b: nat, size: int, pages: seq<int>): Outcome
    decreases |pages|, |l| - b
  {
    if b >= |l| then
      Null(l, pages)
    else if !l[b].free then
      Search(l, b + 1, size, pages)
    else if l[b].size > size then
      if l[b].size <= size + HEADER then Panic(NoRoomForHeader)
      else Got(SplitAt(l, b, size), pages, l[b].head + HEADER)
    else if l[b].size == size then
      Got(Mark(l, b, false), pages, l[b].head + HEADER)
    else if b == |l| - 1 then
      if pages == [] then Panic(NoFreePage)
      else
        var grown := l + [PageChunk(pages[0])];
        var k := FirstPair(grown);
        if k + 1 == b then Null(Glue(grown), pages[1..])   // block itself was absorbed
        else Search(Glue(grown), if k < b then b - 1 else b, size, pages[1..])
    else
      Search(l, b + 1, size, pages)
  }

  function Malloc(l: seq<Chunk>, size: int, pages: seq<int>): Outcome {
    if l != [] then Search(l, 0, size, pages)
    else if pages == [] then Panic(NoFreePage)
    else Search([PageChunk(pages[0])], 0, size, pages[1..])
  }

  predicate Owns(c: Chunk, a: int) {
    !c.free && c.head + HEADER <= a < End(c)
  }

  function FindOwner(l: seq<Chunk>, a: int, i: nat := 0): (k: nat)
    requires i <= |l|
    ensures i <= k <= |l|
    ensures k < |l| ==> Owns(l[k], a)
    ensures forall j :: i <= j < k ==> !Owns(l[j], a)
    decreases |l| - i
  {
    if i == |l| then i else if Owns(l[i], a) then i else FindOwner(l, a, i + 1)
  }

  lemma {:induction false} FindOwnerIs(l: seq<Chunk>, a: int, i: nat, k: nat)
    requires i <= k <= |l| && (k < |l| ==> Owns(l[k], a)) && forall j :: i <= j < k ==> !Owns(l[j], a)
    ensures FindOwner(l, a, i) == k
    decreases k - i
  {
    if i < k {
      FindOwnerIs(l, a, i + 1, k);
    }
  }

  /** The allocation containing a, if any, becomes free. */
  function Released(l: seq<Chunk>, a: int): seq<Chunk> {
    var k := FindOwner(l, a);
    if k < |l| then Mark(l, k, true) else l
  }

  /** kmfree: release, then one glue. */
  function Free(l: seq<Chunk>, a: int): seq<Chunk> {
    Glue(Released(l, a))
  }

  // ---- The layout invariant ----

  ghost predicate Sorted(l: seq<Chunk>) {
    && (forall i :: 0 <= i < |l| ==> 0 < l[i].head && 0 <= l[i].size && End(l[i]) < ADDRESS_SPACE)
    && (forall i, j :: 0 <= i < j < |l| ==> End(l[i]) <= l[j].head)
  }

  ghost predicate InChunk(l: seq<Chunk>, a: int) {
    exists i :: 0 <= i < |l| && l[i].head <= a < End(l[i])
  }

  ghost predicate InPage(taken: seq<int>, a: int) {
    exists i :: 0 <= i < |taken| && taken[i] <= a < taken[i] + PGSIZE
  }

  /** The chunks with their headers cover exactly the bytes of the pages obtained. */
  ghost predicate Tiles(l: seq<Chunk>, taken: seq<int>) {
    forall a :: InChunk(l, a) <==> InPage(taken, a)
  }

  function Total(l: seq<Chunk>): int {
    if l == [] then 0 else Total(l[..|l| - 1]) + HEADER + l[|l| - 1].size
  }

  ghost predicate Increasing(pages: seq<int>) {
    && (forall i :: 0 <= i < |pages| ==> 0 < pages[i] && pages[i] + PGSIZE < ADDRESS_SPACE)
    && (forall i, j :: 0 <= i < j < |pages| ==> pages[i] + PGSIZE <= pages[j])
  }

  ghost predicate Inv(l: seq<Chunk>, taken: seq<int>, pages: seq<int>) {
    && Sorted(l)
    && Increasing(taken + pages)
    && Tiles(l, taken)
    && Total(l) == PGSIZE * |taken|
  }

  /** The same allocations: the used chunks, with their addresses and sizes. */
  ghost predicate SameUsed(l: seq<Chunk>, m: seq<Chunk>) {
    forall c: Chunk :: !c.free ==> (c in l <==> c in m)
  }

  // ---- Sizes ----

  lemma {:induction false} TotalAppend(a: seq<Chunk>, b: seq<Chunk>)
    ensures Total(a + b) == Total(a) + Total(b)
  {
    if b == [] {
      assert a + b == a;
    } else {
      assert (a + b)[..|a + b| - 1] == a + b[..|b| - 1];
      TotalAppend(a, b[..|b| - 1]);
    }
  }

  lemma TotalReplace(p: seq<Chunk>, x: seq<Chunk>, y: seq<Chunk>, q: seq<Chunk>)
    ensures Total(p + x + q) - Total(p + y + q) == Total(x) - Total(y)
  {
    TotalAppend(p + x, q);
    TotalAppend(p + y, q);
    TotalAppend(p, x);
    TotalAppend(p, y);
  }

  lemma TotalOne(c: Chunk)
    ensures Total([c]) == HEADER + c.size
  {
    assert [c][..0] == [];
  }

  lemma TotalTwo(c: Chunk, d: Chunk)
    ensures Total([c, d]) == HEADER + c.size + HEADER + d.size
  {
    assert [c, d] == [c] + [d];
    TotalAppend([c], [d]);
    TotalOne(c);
    TotalOne(d);
  }

  // ---- Each change keeps the layout ----

  lemma InChunkAppend(x: seq<Chunk>, y: seq<Chunk>, a: int)
    ensures InChunk(x + y, a) <==> InChunk(x, a) || InChunk(y, a)
  {
    var z := x + y;
    if InChunk(x, a) {
      var k :| 0 <= k < |x| && x[k].head <= a < End(x[k]);
      assert z[k] == x[k];
    }
    if InChunk(y, a) {
      var k :| 0 <= k < |y| && y[k].head <= a < End(y[k]);
      assert z[|x| + k] == y[k];
    }
  }

  /** One chunk, or two touching ones, filling the bytes from lo to hi. */
  ghost predicate Fills(x: seq<Chunk>, lo: int, hi: int) {
    && 1 <= |x| <= 2
    && Sorted(x)
    && x[0].head == lo
    && End(x[|x| - 1]) == hi
    && (|x| == 2 ==> End(x[0]) == x[1].head)
  }

  lemma FillsCovers(x: seq<Chunk>, lo: int, hi: int)
    requires Fills(x, lo, hi)
    ensures forall a :: InChunk(x, a) <==> lo <= a < hi
    ensures Total(x) == hi - lo
    ensures lo < hi
  {
    if |x| == 1 {
      assert x == [x[0]];
      TotalOne(x[0]);
    } else {
      assert x == [x[0], x[1]];
      TotalTwo(x[0], x[1]);
    }
    forall a
      ensures InChunk(x, a) <==> lo <= a < hi
    {
      assert InChunk(x, a) <==> x[0].head <= a < End(x[0]) || x[|x| - 1].head <= a < End(x[|x| - 1]);
    }
  }

  ghost predicate Before(x: seq<Chunk>, y: seq<Chunk>) {
    forall c, d :: c in x && d in y ==> End(c) <= d.head
  }

  lemma SortedParts(x: seq<Chunk>, y: seq<Chunk>)
    requires Sorted(x + y)
    ensures Sorted(x) && Sorted(y) && Before(x, y)
  {
    var z := x + y;
    assert forall i :: 0 <= i < |x| ==> x[i] == z[i];
    assert forall j :: 0 <= j < |y| ==> y[j] == z[|x| + j];
    forall c, d | c in x && d in y
      ensures End(c) <= d.head
    {
      var i :| 0 <= i < |x| && x[i] == c;
      var j :| 0 <= j < |y| && y[j] == d;
      assert End(z[i]) <= z[|x| + j].head;
    }
  }

  lemma SortedAppend(x: seq<Chunk>, y: seq<Chunk>)
    ensures Sorted(x + y) <==> Sorted(x) && Sorted(y) && Before(x, y)
  {
    var z := x + y;
    if Sorted(z) {
      SortedParts(x, y);
    } else if Sorted(x) && Sorted(y) && Before(x, y) {
      forall i, j | 0 <= i < j < |z|
        ensures End(z[i]) <= z[j].head
      {
        if i < |x| && |x| <= j {
          assert z[i] in x && z[j] in y;
        }
      }
    }
  }

  /** Replacing one or two chunks by others over the same bytes keeps the layout. */
  lemma ReplaceKeeps(p: seq<Chunk>, x: seq<Chunk>, y: seq<Chunk>, q: seq<Chunk>, lo: int, hi: int)
    requires Sorted(p + x + q) && Fills(x, lo, hi) && Fills(y, lo, hi)
    ensures Sorted(p + y + q)
    ensures forall a :: InChunk(p + y + q, a) <==> InChunk(p + x + q, a)
    ensures Total(p + y + q) == Total(p + x + q)
  {
    FillsCovers(x, lo, hi);
    FillsCovers(y, lo, hi);
    TotalReplace(p, x, y, q);
    forall a
      ensures InChunk(p + y + q, a) <==> InChunk(p + x + q, a)
    {
      InChunkAppend(p, x, a);
      InChunkAppend(p, y, a);
      InChunkAppend(p + x, q, a);
      InChunkAppend(p + y, q, a);
    }
    SortedReplace(p, x, y, q, lo, hi);
  }

  lemma FillsBounds(x: seq<Chunk>, lo: int, hi: int)
    requires Fills(x, lo, hi)
    ensures forall c :: c in x ==> lo <= c.head && End(c) <= hi
  {
  }

  lemma BeforeSwap(p: seq<Chunk>, x: seq<Chunk>, y: seq<Chunk>, q: seq<Chunk>, lo: int, hi: int)
    requires Before(p + x, q) && Before(p, x) && Fills(x, lo, hi) && Fills(y, lo, hi)
    ensures Before(p + y, q) && Before(p, y)
  {
    FillsBounds(y, lo, hi);
    forall c, d | c in p && d in y
      ensures End(c) <= d.head
    {
      assert x[0] in x;
    }
    forall c, d | c in p + y && d in q
      ensures End(c) <= d.head
    {
      assert x[|x| - 1] in p + x;
      if c in p {
        assert c in p + x;
      }
    }
  }

  lemma SortedReplace(p: seq<Chunk>, x: seq<Chunk>, y: seq<Chunk>, q: seq<Chunk>, lo: int, hi: int)
    requires Sorted(p + x + q) && Fills(x, lo, hi) && Fills(y, lo, hi)
    ensures Sorted(p + y + q)
  {
    hide Sorted, Before;
    SortedAppend(p + x, q);
    SortedAppend(p, x);
    BeforeSwap(p, x, y, q, lo, hi);
    SortedAppend(p, y);
    SortedAppend(p + y, q);
  }

  lemma AroundOne(l: seq<Chunk>, i: nat)
    requires i < |l|
    ensures l == l[..i] + [l[i]] + l[i + 1..]
  {
  }

  lemma AroundTwo(l: seq<Chunk>, i: nat)
    requires i + 1 < |l|
    ensures l == l[..i] + [l[i], l[i + 1]] + l[i + 2..]
  {
  }

  lemma FillsOne(l: seq<Chunk>, i: nat)
    requires Sorted(l) && i < |l|
    ensures Fills([l[i]], l[i].head, End(l[i]))
  {
  }

  lemma FillsSplit(c: Chunk, size: int)
    requires 0 < c.head && End(c) < ADDRESS_SPACE && 0 <= size && size + HEADER < c.size
    ensures Fills([Chunk(c.head, size, false), Chunk(c.head + HEADER + size, c.size - size - HEADER, true)],
                  c.head, End(c))
  {
  }

  lemma FillsTwo(l: seq<Chunk>, i: nat)
    requires Sorted(l) && Pair(l, i)
    ensures Fills([l[i], l[i + 1]], l[i].head, End(l[i + 1]))
    ensures Fills([Chunk(l[i].head, l[i].size + HEADER + l[i + 1].size, true)], l[i].head, End(l[i + 1]))
  {
    assert End(l[i]) <= l[i + 1].head;
  }

  lemma InConcat(p: seq<Chunk>, x: seq<Chunk>, q: seq<Chunk>, c: Chunk)
    ensures c in p + x + q <==> c in p || c in x || c in q
  {
  }

  lemma Replaced(l: seq<Chunk>, m: seq<Chunk>, p: seq<Chunk>, x: seq<Chunk>, y: seq<Chunk>, q: seq<Chunk>,
                 lo: int, hi: int)
    requires l == p + x + q && m == p + y + q
    requires Sorted(l) && Fills(x, lo, hi) && Fills(y, lo, hi)
    ensures Sorted(m)
    ensures forall a :: InChunk(m, a) <==> InChunk(l, a)
    ensures Total(m) == Total(l)
  {
    ReplaceKeeps(p, x, y, q, lo, hi);
  }

  lemma MergeUsed(l: seq<Chunk>, i: nat)
    requires Pair(l, i)
    ensures SameUsed(l, MergeAt(l, i))
  {
    var p, c, d, q := l[..i], l[i], l[i + 1], l[i + 2..];
    AroundTwo(l, i);
    forall u: Chunk | !u.free
      ensures u in l <==> u in MergeAt(l, i)
    {
      InConcat(p, [c, d], q, u);
      InConcat(p, [Chunk(c.head, c.size + HEADER + d.size, true)], q, u);
    }
  }

  lemma MergeKeeps(l: seq<Chunk>, i: nat)
    requires Sorted(l) && Pair(l, i)
    ensures Sorted(MergeAt(l, i))
    ensures forall a :: InChunk(MergeAt(l, i), a) <==> InChunk(l, a)
    ensures Total(MergeAt(l, i)) == Total(l)
    ensures SameUsed(l, MergeAt(l, i))
  {
    var x, y := [l[i], l[i + 1]], [Chunk(l[i].head, l[i].size + HEADER + l[i + 1].size, true)];
    MergeUsed(l, i);
    FillsTwo(l, i);
    AroundTwo(l, i);
    Replaced(l, MergeAt(l, i), l[..i], x, y, l[i + 2..], l[i].head, End(l[i + 1]));
  }

  lemma GlueKeeps(l: seq<Chunk>)
    requires Sorted(l)
    ensures Sorted(Glue(l))
    ensures forall a :: InChunk(Glue(l), a) <==> InChunk(l, a)
    ensures Total(Glue(l)) == Total(l)
    ensures SameUsed(l, Glue(l))
  {
    var k := FirstPair(l);
    if k < |l| {
      MergeKeeps(l, k);
    }
  }

  lemma SplitUsed(l: seq<Chunk>, i: nat, size: int)
    requires i < |l| && l[i].free
    ensures forall u: Chunk :: !u.free ==>
      (u in SplitAt(l, i, size) <==> u in l || u == Chunk(l[i].head, size, false))
  {
    var p, c, q := l[..i], l[i], l[i + 1..];
    var d, e := Chunk(c.head, size, false), Chunk(c.head + HEADER + size, c.size - size - HEADER, true);
    AroundOne(l, i);
    forall u: Chunk | !u.free
      ensures u in SplitAt(l, i, size) <==> u in l || u == d
    {
      InConcat(p, [c], q, u);
      InConcat(p, [d, e], q, u);
    }
  }

  lemma {:induction false} SplitKeeps(l: seq<Chunk>, i: nat, size: int)
    requires Sorted(l) && i < |l| && l[i].free && 0 <= size && size + HEADER < l[i].size
    ensures Sorted(SplitAt(l, i, size))
    ensures forall a :: InChunk(SplitAt(l, i, size), a) <==> InChunk(l, a)
    ensures Total(SplitAt(l, i, size)) == Total(l)
    ensures forall u: Chunk :: !u.free ==>
      (u in SplitAt(l, i, size) <==> u in l || u == Chunk(l[i].head, size, false))
  {
    var y := [Chunk(l[i].head, size, false), Chunk(l[i].head + HEADER + size, l[i].size - size - HEADER, true)];
    SplitUsed(l, i, size);
    FillsSplit(l[i], size);
    FillsOne(l, i);
    AroundOne(l, i);
    Replaced(l, SplitAt(l, i, size), l[..i], [l[i]], y, l[i + 1..], l[i].head, End(l[i]));
  }

  lemma NotElsewhere(l: seq<Chunk>, i: nat)
    requires Sorted(l) && i < |l|
    ensures l[i] !in l[..i] && l[i] !in l[i + 1..]
  {
    assert forall j :: 0 <= j < i ==> End(l[j]) <= l[i].head;
    assert forall j :: i < j < |l| ==> End(l[i]) <= l[j].head;
  }

  lemma MarkKeeps(l: seq<Chunk>, i: nat, free: bool)
    requires Sorted(l) && i < |l|
    ensures Sorted(Mark(l, i, free))
    ensures forall a :: InChunk(Mark(l, i, free), a) <==> InChunk(l, a)
    ensures Total(Mark(l, i, free)) == Total(l)
    ensures forall u: Chunk :: u in Mark(l, i, free) <==> u == l[i].(free := free) || (u in l && u != l[i])
  {
    var d := l[i].(free := free);
    AroundOne(l, i);
    FillsOne(l, i);
    NotElsewhere(l, i);
    assert Fills([d], l[i].head, End(l[i]));
    hide Sorted;
    AroundOne(Mark(l, i, free), i);
    assert Mark(l, i, free) == l[..i] + [d] + l[i + 1..];
    Replaced(l, Mark(l, i, free), l[..i], [l[i]], [d], l[i + 1..], l[i].head, End(l[i]));
    forall u: Chunk
      ensures u in Mark(l, i, free) <==> u == d || (u in l && u != l[i])
    {
      InConcat(l[..i], [l[i]], l[i + 1..], u);
      InConcat(l[..i], [d], l[i + 1..], u);
    }
  }

  lemma ChunksBelow(l: seq<Chunk>, taken: seq<int>, page: int)
    requires Sorted(l) && Tiles(l, taken)
    requires forall k :: 0 <= k < |taken| ==> taken[k] + PGSIZE <= page
    ensures forall i :: 0 <= i < |l| ==> End(l[i]) <= page
  {
    forall i | 0 <= i < |l|
      ensures End(l[i]) <= page
    {
      assert l[i].head <= End(l[i]) - 1 < End(l[i]);
      assert InChunk(l, End(l[i]) - 1);
    }
  }

  lemma InPageAppend(taken: seq<int>, page: int, a: int)
    ensures InPage(taken + [page], a) <==> InPage(taken, a) || page <= a < page + PGSIZE
  {
    var t := taken + [page];
    if InPage(taken, a) {
      var k :| 0 <= k < |taken| && taken[k] <= a < taken[k] + PGSIZE;
      assert t[k] <= a < t[k] + PGSIZE;
    }
    assert t[|taken|] == page;
  }

  lemma GrowKeeps(l: seq<Chunk>, taken: seq<int>, pages: seq<int>)
    requires Inv(l, taken, pages) && pages != []
    ensures Inv(l + [PageChunk(pages[0])], taken + [pages[0]], pages[1..])
    ensures SameUsed(l, l + [PageChunk(pages[0])])
  {
    var page := pages[0];
    var all := taken + pages;
    assert taken + [page] + pages[1..] == all;
    assert all[|taken|] == page;
    assert forall k :: 0 <= k < |taken| ==> taken[k] == all[k];
    ChunksBelow(l, taken, page);
    SortedAppend(l, [PageChunk(page)]);
    forall a
      ensures InChunk(l + [PageChunk(page)], a) <==> InPage(taken + [page], a)
    {
      InChunkAppend(l, [PageChunk(page)], a);
      InPageAppend(taken, page, a);
      assert InChunk([PageChunk(page)], a) <==> page <= a < page + PGSIZE by {
        assert [PageChunk(page)][0] == PageChunk(page);
      }
    }
    TotalAppend(l, [PageChunk(page)]);
    TotalOne(PageChunk(page));
  }
}
