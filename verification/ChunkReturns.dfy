// What goes back: kmfree after kmalloc gives the list that was there, kmfree glues exactly when two free chunks
// touch, and growth takes exactly the pages that a request needs.

module ChunkReturns {
  import opened Machine
  import opened ChunkList
  import opened ChunkLaws

  /** Chunks i and i+1 are free, and the second header starts where the payload of the first ends. */
  predicate Touch(l: seq<Chunk>, i: int) {
    0 <= i && i + 1 < |l| && l[i].free && l[i + 1].free && l[i + 1].head == l[i].head + 16 + l[i].size
  }

  ghost predicate NoTouch(l: seq<Chunk>) {
    forall i :: !Touch(l, i)
  }

  /** r is l with the chunk in use whose payload holds a, if there is one, free. */
  predicate IsReleased(l: seq<Chunk>, a: int, r: seq<Chunk>) {
    |r| == |l| &&
    forall i :: 0 <= i < |l| ==>
      r[i] == if !l[i].free && l[i].head + 16 <= a < l[i].head + 16 + l[i].size then Chunk(l[i].head, l[i].size, true) else l[i]
  }

  /** m is r with chunks i and i+1 made one, its payload the two and the second's header. */
  predicate Joined(r: seq<Chunk>, i: int, m: seq<Chunk>) {
    && 0 <= i && i + 1 < |r| && |m| == |r| - 1
    && m[i] == Chunk(r[i].head, r[i].size + 16 + r[i + 1].size, true)
    && (forall j :: 0 <= j < i ==> m[j] == r[j])
    && (forall j :: i < j < |m| ==> m[j] == r[j + 1])
  }

  // ---- One kmfree ----

  lemma FirstTouch(l: seq<Chunk>)
    ensures var k := FirstPair(l); if k < |l| then Touch(l, k) && (forall j :: j < k ==> !Touch(l, j)) else NoTouch(l)
  {
    assert forall j :: Touch(l, j) ==> 0 <= j < |l| && Pair(l, j);
  }

  lemma TouchIsFirst(l: seq<Chunk>, k: int)
    requires Touch(l, k) && forall j :: j < k ==> !Touch(l, j)
    ensures FirstPair(l) == k
  {
    FirstTouch(l);
  }

  lemma OneOwner(l: seq<Chunk>, a: int, i: nat, k: nat)
    requires Sorted(l) && i < |l| && k < |l| && Owns(l[i], a) && Owns(l[k], a)
    ensures i == k
  {
  }

  lemma ReleasedIs(l: seq<Chunk>, a: int)
    requires Sorted(l)
    ensures IsReleased(l, a, Released(l, a))
  {
    var k := FindOwner(l, a);
    forall i | 0 <= i < |l| && Owns(l[i], a)
      ensures i == k
    {
      OneOwner(l, a, i, k);
    }
  }

  /** What one kmfree makes of a list: the chunk that holds the address is free, and then the first two free
      chunks that touch are one, if there are two such. */
  ghost predicate FreedTo(l: seq<Chunk>, a: int, m: seq<Chunk>) {
    exists r :: IsReleased(l, a, r) && GluedTo(r, m)
  }

  ghost predicate GluedTo(r: seq<Chunk>, m: seq<Chunk>) {
    && (|m| == |r| || |m| == |r| - 1)
    && (|m| == |r| - 1 <==> exists i :: Touch(r, i))
    && (|m| == |r| ==> m == r)
    && (forall i :: Touch(r, i) && (forall j :: j < i ==> !Touch(r, j)) ==> Joined(r, i, m))
  }

  lemma GlueIs(r: seq<Chunk>)
    ensures GluedTo(r, Glue(r))
  {
    FirstTouch(r);
    var k := FirstPair(r);
    if k < |r| {
      assert Joined(r, k, Glue(r));
      forall i | Touch(r, i) && forall j :: j < i ==> !Touch(r, j)
        ensures i == k
      {
      }
    }
  }

  /** Main result: kmfree leaves one chunk fewer than it found if and only if two free chunks touch once the
      chunk is free; then the first two such are one, else nothing but the status has changed. */
  lemma FreeGlues(l: seq<Chunk>, a: int)
    requires Sorted(l)
    ensures FreedTo(l, a, Free(l, a))
  {
    ReleasedIs(l, a);
    GlueIs(Released(l, a));
  }

  lemma ReleasedOnce(l: seq<Chunk>, a: int, r: seq<Chunk>, s: seq<Chunk>)
    requires IsReleased(l, a, r) && IsReleased(l, a, s)
    ensures r == s
  {
  }

  /** From a list without touching free chunks, kmfree of an address in chunk k leaves two touching free chunks
      if and only if both neighbours of k are free and touch it: the second pair waits for the next call. */
  lemma FreeLeavesTouch(l: seq<Chunk>, a: int, k: int, r: seq<Chunk>)
    requires Sorted(l) && NoTouch(l) && IsReleased(l, a, r)
    requires 0 <= k < |l| && !l[k].free && l[k].head + 16 <= a < l[k].head + 16 + l[k].size
    ensures NoTouch(Free(l, a)) <==> !(Touch(r, k - 1) && Touch(r, k))
    ensures Touch(r, k - 1) && Touch(r, k) ==> NoTouch(Glue(Free(l, a)))
  {
    ReleasedIs(l, a);
    ReleasedOnce(l, a, r, Released(l, a));
    OnlyOwner(l, a, k, r);
    hide *;
    GlueIs(r);
    TwoPairs(r, k, Glue(r));
    if Touch(r, k - 1) && Touch(r, k) {
      var m := Glue(r);
      GlueIs(m);
      LastPair(m, k - 1, Glue(m));
    }
  }

  /** One merge with at most the pairs k-1 and k there. */
  lemma TwoPairs(r: seq<Chunk>, k: int, m: seq<Chunk>)
    requires (forall i :: Touch(r, i) ==> i == k - 1 || i == k) && GluedTo(r, m)
    ensures NoTouch(m) <==> !(Touch(r, k - 1) && Touch(r, k))
    ensures Touch(r, k - 1) && Touch(r, k) ==> forall j :: Touch(m, j) <==> j == k - 1
  {
    hide Touch;
    if Touch(r, k - 1) {
      assert Joined(r, k - 1, m);
      JoinedTouch(r, k - 1, m);
      assert forall j :: Touch(m, j) ==> j == k - 1;
      assert Touch(m, k - 1) <==> Touch(r, k);
    } else if Touch(r, k) {
      assert Joined(r, k, m);
      JoinedTouch(r, k, m);
      assert NoTouch(m);
    } else {
      assert m == r;
    }
  }

  lemma LastPair(r: seq<Chunk>, k: int, m: seq<Chunk>)
    requires (forall i :: Touch(r, i) <==> i == k) && GluedTo(r, m)
    ensures NoTouch(m)
  {
    hide Touch;
    assert Joined(r, k, m) by {
      assert Touch(r, k);
    }
    JoinedTouch(r, k, m);
  }

  lemma OnlyOwner(l: seq<Chunk>, a: int, k: int, r: seq<Chunk>)
    requires Sorted(l) && NoTouch(l) && IsReleased(l, a, r)
    requires 0 <= k < |l| && !l[k].free && l[k].head + 16 <= a < l[k].head + 16 + l[k].size
    ensures forall i :: Touch(r, i) ==> i == k - 1 || i == k
    ensures forall i :: 0 <= i < |l| && i != k ==> r[i] == l[i]
  {
    forall i | 0 <= i < |l| && i != k
      ensures r[i] == l[i]
    {
      assert if i < k then End(l[i]) <= l[k].head else End(l[k]) <= l[i].head;
    }
    forall i | Touch(r, i)
      ensures i == k - 1 || i == k
    {
      assert !Touch(l, i);
    }
  }

  /** Joining chunks i and i+1 moves the touching pairs behind them one down and keeps those before. */
  lemma JoinedTouch(r: seq<Chunk>, i: int, m: seq<Chunk>)
    requires Joined(r, i, m) && Touch(r, i)
    ensures forall j :: j < i ==> (Touch(m, j) <==> Touch(r, j))
    ensures forall j :: j >= i ==> (Touch(m, j) <==> Touch(r, j + 1))
  {
    forall j | j < i
      ensures Touch(m, j) <==> Touch(r, j)
    {
      assert 0 <= j ==> m[j] == r[j];
    }
    forall j | j >= i
      ensures Touch(m, j) <==> Touch(r, j + 1)
    {
      assert j + 1 < |m| ==> m[j + 1] == r[j + 2];
    }
  }

  // ---- kmalloc, then kmfree ----

  /** Main result: from a list without touching free chunks, a kmalloc that finds a free chunk large enough
      takes no page, and kmfree of its result gives back the very list it found, unless nothing was asked for:
      a chunk of size 0 holds no address, so that it is never freed again. */
  lemma MallocThenFree(l: seq<Chunk>, size: int, pages: seq<int>)
    requires Sorted(l) && NoTouch(l) && 0 <= size
    requires exists i :: 0 <= i < |l| && l[i].free && l[i].size >= size
    ensures var o := Malloc(l, size, pages);
      o.Got? ==> o.pages == pages && (Free(o.list, o.addr) == l <==> size > 0)
  {
    FirstFitIsUsed(l, 0, size, pages);
    var k := FirstFit(l, size);
    var o := Malloc(l, size, pages);
    hide Malloc, Search, FirstFit;
    if o.Got? {
      if l[k].size == size {
        WholeThenFree(l, k);
      } else {
        SplitThenFree(l, k, size);
      }
    }
  }

  lemma WholeThenFree(l: seq<Chunk>, k: nat)
    requires Sorted(l) && NoTouch(l) && k < |l| && l[k].free
    ensures Free(Mark(l, k, false), l[k].head + 16) == l <==> l[k].size > 0
  {
    var m, a := Mark(l, k, false), l[k].head + 16;
    MarkKeeps(l, k, false);
    ReleasedIs(m, a);
    NoOtherOwner(m, k);
    var r := Released(m, a);
    hide Sorted, Released, Glue, NoTouch;
    WholeReleased(l, k, r);
    WholeTouch(l, k, m);
    GlueIs(r);
    NothingGlued(r, Glue(r));
  }

  lemma WholeReleased(l: seq<Chunk>, k: nat, r: seq<Chunk>)
    requires k < |l| && l[k].free && var m := Mark(l, k, false);
      && IsReleased(m, m[k].head + 16, r)
      && forall i :: 0 <= i < |m| && i != k ==> !(m[i].head + 16 <= m[k].head + 16 < m[i].head + 16 + m[i].size)
    ensures r == (if l[k].size > 0 then l else Mark(l, k, false)) && Mark(l, k, false) != l
  {
    assert Mark(l, k, false)[k] != l[k];
  }

  lemma NothingGlued(r: seq<Chunk>, g: seq<Chunk>)
    requires NoTouch(r) && GluedTo(r, g)
    ensures g == r
  {
  }

  lemma WholeTouch(l: seq<Chunk>, k: nat, m: seq<Chunk>)
    requires NoTouch(l) && k < |l| && m == Mark(l, k, false)
    ensures NoTouch(m)
  {
    forall i
      ensures !Touch(m, i)
    {
      assert !Touch(l, i);
    }
  }

  /** No other chunk holds the first byte of a chunk's payload, even if that is empty. */
  lemma NoOtherOwner(m: seq<Chunk>, k: nat)
    requires Sorted(m) && k < |m|
    ensures forall i :: 0 <= i < |m| && i != k ==> !(m[i].head + 16 <= m[k].head + 16 < m[i].head + 16 + m[i].size)
  {
    forall i | 0 <= i < |m| && i != k
      ensures !(m[i].head + 16 <= m[k].head + 16 < m[i].head + 16 + m[i].size)
    {
      assert if i < k then End(m[i]) <= m[k].head else End(m[k]) <= m[i].head;
    }
  }

  lemma SplitThenFree(l: seq<Chunk>, k: nat, size: int)
    requires Sorted(l) && NoTouch(l) && k < |l| && l[k].free && 0 <= size && size + HEADER < l[k].size
    ensures Free(SplitAt(l, k, size), l[k].head + 16) == l <==> size > 0
  {
    var m, a := SplitAt(l, k, size), l[k].head + 16;
    SplitKeeps(l, k, size);
    ReleasedIs(m, a);
    NoOtherOwner(m, k);
    var r := Released(m, a);
    hide Sorted, Released, SplitAt, Glue, NoTouch, Touch;
    SplitReleased(l, k, size, r);
    SplitTouch(l, k, size, r);
    GlueIs(r);
    SplitGlued(l, k, size, r, Glue(r));
  }

  lemma SplitReleased(l: seq<Chunk>, k: nat, size: int, r: seq<Chunk>)
    requires k < |l| && l[k].free && 0 <= size
    requires var m := SplitAt(l, k, size); IsReleased(m, m[k].head + 16, r)
    requires var m := SplitAt(l, k, size);
      forall i :: 0 <= i < |m| && i != k ==> !(m[i].head + 16 <= m[k].head + 16 < m[i].head + 16 + m[i].size)
    ensures |r| == |l| + 1 && forall i :: 0 <= i < |r| ==>
      r[i] == if i == k && size > 0 then Chunk(l[k].head, size, true) else SplitAt(l, k, size)[i]
  {
    var m := SplitAt(l, k, size);
    assert m[k] == Chunk(l[k].head, size, false);
    hide SplitAt;
  }

  lemma SplitGlued(l: seq<Chunk>, k: nat, size: int, r: seq<Chunk>, g: seq<Chunk>)
    requires k < |l| && l[k].free && 0 <= size && GluedTo(r, g) && forall i :: Touch(r, i) <==> size > 0 && i == k
    requires |r| == |l| + 1 && forall i :: 0 <= i < |r| ==>
      r[i] == if i == k && size > 0 then Chunk(l[k].head, size, true) else SplitAt(l, k, size)[i]
    ensures g == l <==> size > 0
  {
    if size > 0 {
      assert Joined(r, k, g) by {
        assert Touch(r, k);
      }
      hide GluedTo, Touch;
      assert g[k] == l[k];
      assert forall j :: k < j < |g| ==> g[j] == l[j];
    }
  }

  /** The two parts touch once the first is free, and nothing else does. */
  lemma SplitTouch(l: seq<Chunk>, k: nat, size: int, r: seq<Chunk>)
    requires NoTouch(l) && k < |l| && l[k].free && 0 <= size && size + HEADER < l[k].size
    requires |r| == |l| + 1 && forall i :: 0 <= i < |r| ==>
      r[i] == if i == k && size > 0 then Chunk(l[k].head, size, true) else SplitAt(l, k, size)[i]
    ensures forall i :: Touch(r, i) <==> size > 0 && i == k
  {
    forall i
      ensures Touch(r, i) <==> size > 0 && i == k
    {
      assert !Touch(l, i) && !Touch(l, i - 1);
      if 0 <= i && i + 1 < |r| {
        assert i + 1 < k ==> r[i] == l[i] && r[i + 1] == l[i + 1];
        assert i > k + 1 ==> r[i] == l[i - 1] && r[i + 1] == l[i];
      }
    }
  }

  /** A chunk of size 0 stays in use whatever is freed. */
  lemma ZeroStays(l: seq<Chunk>, c: Chunk, a: int, taken: seq<int>, pages: seq<int>)
    requires Inv(l, taken, pages) && c in l && !c.free && c.size == 0
    ensures c in Free(l, a)
  {
    FreeSound(l, a, taken, pages);
  }

  // ---- Growth ----

  /** The pages a free tail of this size lacks for a request. */
  function PagesNeeded(have: int, size: int): int {
    if size <= have then 0 else (size - have + 4095) / 4096
  }

  lemma NeededStep(have: int, size: int)
    requires 0 <= have < size
    ensures PagesNeeded(have, size) == PagesNeeded(have + 4096, size) + 1
    ensures PagesNeeded(have, size) >= 1
    ensures size <= have + 4096 * PagesNeeded(have, size) < size + 4096
  {
    if size <= have + 4096 {
      assert (size - have + 4095) / 4096 == 1;
    }
  }

  /** Main result: when no free chunk is large enough and the free tail meets the pages, kmalloc takes exactly
      the pages that are missing, hands out the bytes right behind the tail's header and leaves the chunks
      before the tail alone; it panics exactly when there are too few pages or 1 to 16 bytes are left over. */
  lemma GrowsExactly(l: seq<Chunk>, size: int, pages: seq<int>)
    requires l != [] && l[|l| - 1].free && 0 <= l[|l| - 1].size && NoTouch(l) && FirstFit(l, size) == |l|
    requires Consecutive(pages) && Meets(l[|l| - 1], pages)
    ensures GrownTo(l, size, pages, Malloc(l, size, pages))
  {
    NoFitReachesTail(l, 0, size, pages);
    FirstTouch(l);
    Grown(l, size, pages);
  }

  /** The same when the heap has no page yet: its first page is the tail. */
  lemma FirstGrowsExactly(size: int, pages: seq<int>)
    requires pages != [] && Consecutive(pages) && 0 <= size
    ensures GrownTo([Chunk(pages[0], 4080, true)], size, pages[1..], Malloc([], size, pages))
  {
    var l := [PageChunk(pages[0])];
    FirstTouch(l);
    MeetsNext(pages[0], pages);
    Grown(l, size, pages[1..]);
  }

  ghost predicate GrownTo(l: seq<Chunk>, size: int, pages: seq<int>, o: Outcome)
    requires l != []
  {
    var t := l[|l| - 1];
    var n := PagesNeeded(t.size, size);
    var over := t.size + 4096 * n - size;
    if n > |pages| then o == Panic(NoFreePage)
    else if 1 <= over <= 16 then o == Panic(NoRoomForHeader)
    else
      && o.Got? && n >= 0 && o.pages == pages[n..] && o.addr == t.head + 16
      && o.list == l[..|l| - 1] + [Chunk(t.head, size, false)]
           + (if over == 0 then [] else [Chunk(t.head + 16 + size, over - 16, true)])
  }

  lemma {:induction false} Grown(l: seq<Chunk>, size: int, pages: seq<int>)
    requires l != [] && l[|l| - 1].free && 0 <= l[|l| - 1].size && !HasPair(l) && 0 <= size
    requires Consecutive(pages) && Meets(l[|l| - 1], pages)
    ensures GrownTo(l, size, pages, Search(l, |l| - 1, size, pages))
    decreases |pages|
  {
    var t := l[|l| - 1];
    if TailTooSmall(l, size) {
      NeededStep(t.size, size);
      if pages != [] {
        hide Search, FirstPair, Pair;
        WidenStep(l, size, pages);
        Grown(Widened(l), size, pages[1..]);
        GrownFrom(l, size, pages, Search(l, |l| - 1, size, pages));
      }
    }
  }

  lemma GrownFrom(l: seq<Chunk>, size: int, pages: seq<int>, o: Outcome)
    requires TailTooSmall(l, size) && 0 <= l[|l| - 1].size && pages != []
    requires GrownTo(Widened(l), size, pages[1..], o)
    ensures GrownTo(l, size, pages, o)
  {
    var t := l[|l| - 1];
    NeededStep(t.size, size);
    var n := PagesNeeded(t.size, size);
    hide PagesNeeded;
    assert Widened(l)[..|l| - 1] == l[..|l| - 1];
    assert 1 <= n <= |pages| ==> pages[1..][n - 1..] == pages[n..];
  }
}
