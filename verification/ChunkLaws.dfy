// What kmalloc and kmfree promise, proved about the chunk list: safety over every run,
// first fit, the exact panic and the exact null result.

module ChunkLaws {
  import opened Machine
  import opened ChunkList

  // ---- One call ----

  /** The pages obtained after a call that leaves `rest` of `pages`. */
  function TakenAfter(taken: seq<int>, pages: seq<int>, rest: seq<int>): seq<int>
    requires |rest| <= |pages|
  {
    taken + pages[..|pages| - |rest|]
  }

  ghost predicate Rest(rest: seq<int>, pages: seq<int>) {
    |rest| <= |pages| && rest == pages[|pages| - |rest|..]
  }

  /** What a finished call has done to the layout and to the set of allocations. */
  ghost predicate Sound(l: seq<Chunk>, size: int, taken: seq<int>, pages: seq<int>, o: Outcome) {
    match o
    case Panic(_) => true
    case Null(m, rest) =>
      && Rest(rest, pages)
      && Inv(m, TakenAfter(taken, pages, rest), rest)
      && SameUsed(l, m)
    case Got(m, rest, addr) =>
      && Rest(rest, pages)
      && Inv(m, TakenAfter(taken, pages, rest), rest)
      && (forall c: Chunk :: !c.free ==> (c in m <==> c in l || c == Chunk(addr - HEADER, size, false)))
      && Chunk(addr - HEADER, size, false) !in l
  }

  lemma NotYetUsed(l: seq<Chunk>, i: nat, size: int)
    requires Sorted(l) && i < |l| && l[i].free
    ensures Chunk(l[i].head, size, false) !in l
  {
    assert forall j :: 0 <= j < i ==> l[j].head < l[i].head;
    assert forall j :: i < j < |l| ==> l[i].head < l[j].head;
  }

  lemma NothingTaken(taken: seq<int>, pages: seq<int>)
    ensures Rest(pages, pages) && TakenAfter(taken, pages, pages) == taken
  {
  }

  lemma TakenStep(taken: seq<int>, pages: seq<int>, rest: seq<int>)
    requires pages != [] && Rest(rest, pages[1..])
    ensures Rest(rest, pages)
    ensures TakenAfter(taken + [pages[0]], pages[1..], rest) == TakenAfter(taken, pages, rest)
  {
  }

  /** Soundness carries over from the list after a step that kept the allocations. */
  lemma SoundFrom(l: seq<Chunk>, m: seq<Chunk>, size: int, taken: seq<int>, pages: seq<int>, o: Outcome)
    requires pages != [] && SameUsed(l, m)
    requires Sound(m, size, taken + [pages[0]], pages[1..], o)
    ensures Sound(l, size, taken, pages, o)
  {
    if !o.Panic? {
      TakenStep(taken, pages, o.pages);
    }
  }

  lemma GlueInv(l: seq<Chunk>, taken: seq<int>, pages: seq<int>)
    requires Inv(l, taken, pages)
    ensures Inv(Glue(l), taken, pages) && SameUsed(l, Glue(l))
  {
    GlueKeeps(l);
  }

  lemma {:induction false} SearchSound(l: seq<Chunk>, b: nat, size: int, taken: seq<int>, pages: seq<int>)
    requires Inv(l, taken, pages) && 0 <= size
    ensures Sound(l, size, taken, pages, Search(l, b, size, pages))
    decreases |pages|, |l| - b
  {
    hide FirstPair, Glue, MergeAt, SplitAt, Mark, Sorted, Increasing;
    NothingTaken(taken, pages);
    if b >= |l| {
    } else if !l[b].free {
      SearchSound(l, b + 1, size, taken, pages);
    } else if l[b].size > size {
      if l[b].size > size + HEADER {
        SplitKeeps(l, b, size);
        NotYetUsed(l, b, size);
      }
    } else if l[b].size == size {
      MarkKeeps(l, b, false);
      NotYetUsed(l, b, size);
    } else if b == |l| - 1 {
      if pages != [] {
        var grown := l + [PageChunk(pages[0])];
        var k := FirstPair(grown);
        GrowKeeps(l, taken, pages);
        GlueInv(grown, taken + [pages[0]], pages[1..]);
        NothingTaken(taken + [pages[0]], pages[1..]);
        if k + 1 != b {
          SearchSound(Glue(grown), if k < b then b - 1 else b, size, taken + [pages[0]], pages[1..]);
        }
        SoundFrom(l, Glue(grown), size, taken, pages, Search(l, b, size, pages));
      }
    } else {
      SearchSound(l, b + 1, size, taken, pages);
    }
  }

  /** Every call of kmalloc that returns keeps the layout, and adds exactly the allocation it returns. */
  lemma MallocSound(l: seq<Chunk>, size: int, taken: seq<int>, pages: seq<int>)
    requires Inv(l, taken, pages) && 0 <= size
    ensures Sound(l, size, taken, pages, Malloc(l, size, pages))
  {
    if l != [] {
      SearchSound(l, 0, size, taken, pages);
    } else if pages != [] {
      GrowKeeps(l, taken, pages);
      var m := [PageChunk(pages[0])];
      assert l + m == m;
      SearchSound(m, 0, size, taken + [pages[0]], pages[1..]);
      SoundFrom(l, m, size, taken, pages, Malloc(l, size, pages));
    }
  }

  lemma OwnerUnique(l: seq<Chunk>, a: int, i: nat, c: Chunk)
    requires Sorted(l) && i < |l| && Owns(l[i], a) && c in l && Owns(c, a)
    ensures c == l[i]
  {
    var j :| 0 <= j < |l| && l[j] == c;
    assert l[i].head <= a < End(l[i]) && l[j].head <= a < End(l[j]);
  }

  lemma ReleasedSound(l: seq<Chunk>, a: int, taken: seq<int>, pages: seq<int>)
    requires Inv(l, taken, pages)
    ensures Inv(Released(l, a), taken, pages)
    ensures forall c: Chunk :: !c.free ==> (c in Released(l, a) <==> c in l && !Owns(c, a))
  {
    var k := FindOwner(l, a);
    var m := Released(l, a);
    if k < |l| {
      MarkKeeps(l, k, true);
      forall c: Chunk | !c.free
        ensures c in m <==> c in l && !Owns(c, a)
      {
        if c in l && Owns(c, a) {
          OwnerUnique(l, a, k, c);
        }
      }
    }
  }

  /** Every call of kmfree keeps the layout, and drops exactly the allocation containing the address. */
  lemma FreeSound(l: seq<Chunk>, a: int, taken: seq<int>, pages: seq<int>)
    requires Inv(l, taken, pages)
    ensures Inv(Free(l, a), taken, pages)
    ensures forall c: Chunk :: !c.free ==> (c in Free(l, a) <==> c in l && !Owns(c, a))
  {
    ReleasedSound(l, a, taken, pages);
    GlueInv(Released(l, a), taken, pages);
  }

  // ---- Every run ----

  /** The callers of kvm_alloc_page other than kmalloc (kernel stacks, page tables, directories) take pages in
      between. */
  datatype Op = DoMalloc(size: Word) | DoFree(addr: Word) | OtherPage

  /** The allocator with the pages it has obtained, the pages others have obtained, the pages left, and the
      callers' own record of what they were given and have not freed. */
  datatype State =
    | Live(list: seq<Chunk>, taken: seq<int>, others: seq<int>, pages: seq<int>, ledger: set<Chunk>)
    | Halted

  function Step(s: State, op: Op): State {
    if s.Halted? then Halted else
    match op
    case DoMalloc(size) =>
      (match Malloc(s.list, size, s.pages)
       case Panic(_) => Halted
       case Null(m, rest) => s.(list := m, taken := Obtained(s, rest), pages := rest)
       case Got(m, rest, addr) =>
         s.(list := m, taken := Obtained(s, rest), pages := rest, ledger := s.ledger + {Chunk(addr - HEADER, size, false)}))
    case DoFree(a) =>
      s.(list := Free(s.list, a), ledger := set c | c in s.ledger && !Owns(c, a))
    case OtherPage =>
      if s.pages == [] then Halted else s.(others := s.others + [s.pages[0]], pages := s.pages[1..])
  }

  /** The heap's pages after a call that leaves `rest`. */
  function Obtained(s: State, rest: seq<int>): seq<int>
    requires s.Live?
  {
    if |rest| <= |s.pages| then TakenAfter(s.taken, s.pages, rest) else s.taken
  }

  function Exec(s: State, ops: seq<Op>): State {
    if ops == [] then s else Step(Exec(s, ops[..|ops| - 1]), ops[|ops| - 1])
  }

  function Start(all: seq<int>): State {
    Live([], [], [], all, {})
  }

  /** Every page is the heap's, someone else's or left, and only one of these. */
  ghost predicate Shared(all: seq<int>, taken: seq<int>, others: seq<int>, pages: seq<int>) {
    multiset(taken) + multiset(others) + multiset(pages) == multiset(all)
  }

  ghost predicate Good(s: State, all: seq<int>) {
    s.Live? ==>
      && Shared(all, s.taken, s.others, s.pages)
      && Inv(s.list, s.taken, s.pages)
      && (forall c :: c in s.ledger <==> c in s.list && !c.free)
  }

  lemma SharedAfter(all: seq<int>, taken: seq<int>, others: seq<int>, pages: seq<int>, rest: seq<int>)
    requires Shared(all, taken, others, pages) && Rest(rest, pages)
    ensures Shared(all, TakenAfter(taken, pages, rest), others, rest)
  {
    assert pages == pages[..|pages| - |rest|] + rest;
  }

  lemma OtherTakes(l: seq<Chunk>, all: seq<int>, taken: seq<int>, others: seq<int>, pages: seq<int>)
    requires Shared(all, taken, others, pages) && Inv(l, taken, pages) && pages != []
    ensures Shared(all, taken, others + [pages[0]], pages[1..]) && Inv(l, taken, pages[1..])
  {
    assert pages == [pages[0]] + pages[1..];
    var was, now := taken + pages, taken + pages[1..];
    assert forall i :: 0 <= i < |now| ==> now[i] == was[if i < |taken| then i else i + 1];
    IncreasingSub(was, now, |taken|);
  }

  lemma IncreasingSub(was: seq<int>, now: seq<int>, k: nat)
    requires Increasing(was) && |now| + 1 == |was| && k <= |now|
    requires forall i :: 0 <= i < |now| ==> now[i] == was[if i < k then i else i + 1]
    ensures Increasing(now)
  {
  }

  lemma StepGood(s: State, op: Op, all: seq<int>)
    requires Good(s, all)
    ensures Good(Step(s, op), all)
  {
    if s.Live? {
      hide Inv, Shared, Malloc, Free;
      match op
      case DoMalloc(size) =>
        MallocSound(s.list, size, s.taken, s.pages);
        var o := Malloc(s.list, size, s.pages);
        if !o.Panic? {
          SharedAfter(all, s.taken, s.others, s.pages, o.pages);
        }
      case DoFree(a) =>
        FreeSound(s.list, a, s.taken, s.pages);
      case OtherPage =>
        if s.pages != [] {
          OtherTakes(s.list, all, s.taken, s.others, s.pages);
        }
    }
  }

  lemma {:induction false} EveryRunGood(all: seq<int>, ops: seq<Op>)
    requires Increasing(all)
    ensures Good(Exec(Start(all), ops), all)
    decreases |ops|
  {
    if ops == [] {
      assert [] + all == all;
    } else {
      hide Good;
      EveryRunGood(all, ops[..|ops| - 1]);
      StepGood(Exec(Start(all), ops[..|ops| - 1]), ops[|ops| - 1], all);
    }
  }

  /** Main result: in every run from boot that does not panic, with pages going to other callers at any point,
      the callers' record is exactly the set of used chunks, each with the size that was asked for; live
      allocations and all headers are disjoint; chunks with their headers tile exactly the pages the heap
      obtained; and none of them reaches into a page that went elsewhere. */
  lemma {:induction false} EveryRunIsSafe(all: seq<int>, ops: seq<Op>)
    requires Increasing(all)
    ensures var s := Exec(Start(all), ops);
      s.Live? ==>
        && (forall c :: c in s.ledger <==> c in s.list && !c.free)
        && (forall i, j :: 0 <= i < j < |s.list| ==> End(s.list[i]) <= s.list[j].head)
        && Tiles(s.list, s.taken)
        && Total(s.list) == PGSIZE * |s.taken|
        && Shared(all, s.taken, s.others, s.pages)
        && (forall q, a :: q in s.others && q <= a < q + PGSIZE ==> !InChunk(s.list, a))
  {
    hide Exec, Shared, Tiles, InChunk;
    EveryRunGood(all, ops);
    var s := Exec(Start(all), ops);
    if s.Live? {
      forall q, a | q in s.others && q <= a < q + PGSIZE
        ensures !InChunk(s.list, a)
      {
        NotInOthers(s.list, all, s.taken, s.others, s.pages, q, a);
      }
    }
  }

  lemma NotInOthers(l: seq<Chunk>, all: seq<int>, taken: seq<int>, others: seq<int>, pages: seq<int>, q: int, a: int)
    requires Increasing(all) && Shared(all, taken, others, pages) && Tiles(l, taken) && q in others && q <= a < q + PGSIZE
    ensures !InChunk(l, a)
  {
    if i :| 0 <= i < |taken| && taken[i] <= a < taken[i] + PGSIZE {
      OneOwner(all, taken, others, pages, taken[i], q);
    }
  }

  /** Two pages of the supply that share a byte are one, and it has one owner. */
  lemma OneOwner(all: seq<int>, taken: seq<int>, others: seq<int>, pages: seq<int>, t: int, q: int)
    requires Increasing(all) && Shared(all, taken, others, pages) && t in taken && q in others
    ensures t + PGSIZE <= q || q + PGSIZE <= t
  {
    assert t in multiset(taken) && q in multiset(others);
    assert t in multiset(all) && q in multiset(all);
    var i :| 0 <= i < |all| && all[i] == t;
    var j :| 0 <= j < |all| && all[j] == q;
    if i == j {
      assert multiset(all)[t] >= 2;
      Once(all, i);
    }
  }

  lemma Once(all: seq<int>, i: nat)
    requires Increasing(all) && i < |all|
    ensures multiset(all)[all[i]] == 1
  {
    assert all == all[..i] + [all[i]] + all[i + 1..];
    assert all[i] !in all[..i] && all[i] !in all[i + 1..];
  }

  /** Two live allocations never share a byte. */
  lemma LiveAllocationsDisjoint(all: seq<int>, ops: seq<Op>, c: Chunk, d: Chunk, a: int)
    requires Increasing(all)
    requires var s := Exec(Start(all), ops); s.Live? && c in s.ledger && d in s.ledger && c != d
    ensures !(c.head <= a < End(c) && d.head <= a < End(d))
  {
    hide Exec, Tiles, Total, Shared, InChunk;
    EveryRunIsSafe(all, ops);
    InOrder(Exec(Start(all), ops).list, c, d, a);
  }

  lemma InOrder(l: seq<Chunk>, c: Chunk, d: Chunk, a: int)
    requires forall i, j :: 0 <= i < j < |l| ==> End(l[i]) <= l[j].head
    requires c in l && d in l && c != d
    ensures !(c.head <= a < End(c) && d.head <= a < End(d))
  {
    var i :| 0 <= i < |l| && l[i] == c;
    var j :| 0 <= j < |l| && l[j] == d;
    assert if i < j then End(l[i]) <= l[j].head else End(l[j]) <= l[i].head;
  }

  // ---- First fit and the exact panic ----

  function FirstFit(l: seq<Chunk>, size: int, i: nat := 0): (k: nat)
    ensures k == |l| || (i <= k < |l| && l[k].free && l[k].size >= size)
    ensures forall j :: i <= j < k && j < |l| ==> !(l[j].free && l[j].size >= size)
    decreases |l| - i
  {
    if i >= |l| then |l| else if l[i].free && l[i].size >= size then i else FirstFit(l, size, i + 1)
  }

  /** With a chunk that fits, kmalloc uses the first one, takes no page, and panics exactly when
      1 to 16 bytes would be left over. */
  lemma {:induction false} FirstFitIsUsed(l: seq<Chunk>, b: nat, size: int, pages: seq<int>)
    requires FirstFit(l, size, b) < |l|
    ensures var k := FirstFit(l, size, b);
      Search(l, b, size, pages) ==
        if l[k].size == size then Got(Mark(l, k, false), pages, l[k].head + HEADER)
        else if 1 <= l[k].size - size <= HEADER then Panic(NoRoomForHeader)
        else Got(SplitAt(l, k, size), pages, l[k].head + HEADER)
    decreases |l| - b
  {
    if !(l[b].free && l[b].size >= size) {
      FirstFitIsUsed(l, b + 1, size, pages);
    }
  }

  // ---- When the result is NULL ----

  /** Without a fit the search stops at a used tail, or reaches a free tail that is too small. */
  lemma {:induction false} NoFitReachesTail(l: seq<Chunk>, b: nat, size: int, pages: seq<int>)
    requires b < |l| && FirstFit(l, size, b) == |l|
    ensures Search(l, b, size, pages) ==
      if l[|l| - 1].free then Search(l, |l| - 1, size, pages) else Null(l, pages)
    decreases |l| - b
  {
    if b < |l| - 1 {
      NoFitReachesTail(l, b + 1, size, pages);
    }
  }

  /** Appending a chunk leaves the first touching free pair where it was; failing one, only the new pair can be it. */
  lemma FirstPairGrown(l: seq<Chunk>, c: Chunk)
    requires l != [] && c.free
    ensures var g := l + [c];
      FirstPair(g) ==
        if FirstPair(l) < |l| then FirstPair(l)
        else if l[|l| - 1].free && c.head == End(l[|l| - 1]) then |l| - 1
        else |l| + 1
  {
    var g := l + [c];
    var k := FirstPair(l);
    assert forall j :: 0 <= j < |l| - 1 ==> (Pair(g, j) <==> Pair(l, j));
    assert Pair(g, |l| - 1) <==> l[|l| - 1].free && c.head == End(l[|l| - 1]);
    var want := if k < |l| then k else if Pair(g, |l| - 1) then |l| - 1 else |g|;
    assert forall j :: 0 <= j < want ==> !Pair(g, j);
    FirstPairUnique(g, 0, want);
  }

  predicate HasPair(l: seq<Chunk>) {
    FirstPair(l) < |l|
  }

  /** The free pages follow each other: what the allocator sees while no page has been given back. */
  predicate Consecutive(pages: seq<int>) {
    |pages| >= 2 ==> pages[1] == pages[0] + PGSIZE && Consecutive(pages[1..])
  }

  /** A chunk whose end is where the next page will start. */
  predicate Meets(c: Chunk, pages: seq<int>) {
    pages != [] ==> End(c) == pages[0]
  }

  predicate TailTooSmall(l: seq<Chunk>, size: int) {
    l != [] && l[|l| - 1].free && l[|l| - 1].size < size
  }

  lemma GluePlus(l: seq<Chunk>, p: Chunk)
    requires HasPair(l) && p.free
    ensures Glue(l + [p]) == Glue(l) + [p]
    ensures FirstPair(l + [p]) == FirstPair(l)
  {
    FirstPairGrown(l, p);
    var k := FirstPair(l);
    assert (l + [p])[..k] == l[..k] && (l + [p])[k + 2..] == l[k + 2..] + [p];
  }

  /** A free tail that is too small makes the list grow by one page; what follows depends on which pair is glued. */
  lemma TailGrows(l: seq<Chunk>, size: int, pages: seq<int>)
    requires TailTooSmall(l, size) && pages != []
    ensures var n, p := |l|, PageChunk(pages[0]);
      Search(l, n - 1, size, pages) ==
        if FirstPair(l) + 2 == n then Null(Glue(l + [p]), pages[1..])
        else if HasPair(l) then Search(Glue(l) + [p], n - 1, size, pages[1..])
        else if p.head == End(l[n - 1]) then Search(Widened(l), n - 1, size, pages[1..])
        else Search(l + [p], n, size, pages[1..])
  {
    hide FirstPair, Pair, MergeAt;
    var n, p := |l|, PageChunk(pages[0]);
    FirstPairGrown(l, p);
    if HasPair(l) {
      GluePlus(l, p);
      if FirstPair(l) + 2 != n {
        SkipOldTail(l, p, size, pages[1..]);
      }
    } else if p.head == End(l[n - 1]) {
      LastTwo(l, p);
      WidenedIsGlue(l + [p], l[..n - 1], l[n - 1], p);
    } else {
      assert (l + [p])[n - 1] == l[n - 1];
    }
  }

  /** The list after its last chunk has been glued with the page that follows it. */
  function Widened(l: seq<Chunk>): seq<Chunk>
    requires l != []
  {
    l[..|l| - 1] + [Chunk(l[|l| - 1].head, l[|l| - 1].size + PGSIZE, true)]
  }

  lemma MergeLast(q: seq<Chunk>, c: Chunk, d: Chunk)
    ensures MergeAt(q + [c, d], |q|) == q + [Chunk(c.head, c.size + HEADER + d.size, true)]
  {
    var g := q + [c, d];
    assert g[..|q|] == q && g[|q| + 2..] == [];
  }

  lemma LastTwo(l: seq<Chunk>, p: Chunk)
    requires l != []
    ensures l + [p] == l[..|l| - 1] + [l[|l| - 1], p]
  {
    assert l == l[..|l| - 1] + [l[|l| - 1]];
  }

  lemma WidenedIsGlue(g: seq<Chunk>, q: seq<Chunk>, c: Chunk, p: Chunk)
    requires g == q + [c, p] && p.size == PGSIZE - HEADER && FirstPair(g) == |q|
    ensures Glue(g) == q + [Chunk(c.head, c.size + PGSIZE, true)]
  {
    hide FirstPair, MergeAt, Pair;
    MergeLast(q, c, p);
  }

  /** Growing when the glue merges a pair that does not involve the tail: the search moves to the new page. */
  lemma GrowPast(l: seq<Chunk>, size: int, pages: seq<int>)
    requires TailTooSmall(l, size) && pages != [] && HasPair(l) && FirstPair(l) + 2 != |l|
    ensures var m := Glue(l) + [PageChunk(pages[0])];
      |m| == |l| && Search(l, |l| - 1, size, pages) == Search(m, |m| - 1, size, pages[1..])
  {
    hide Search, Glue, FirstPair;
    var m := Glue(l) + [PageChunk(pages[0])];
    assert |m| == |l| by {
      SkipOldTail(l, PageChunk(pages[0]), size, pages[1..]);
    }
    TailGrows(l, size, pages);
  }

  lemma GrowSwallowed(l: seq<Chunk>, size: int, pages: seq<int>)
    requires TailTooSmall(l, size) && pages != [] && FirstPair(l) + 2 == |l|
    ensures Search(l, |l| - 1, size, pages).Null?
  {
    TailGrows(l, size, pages);
  }

  lemma GrowAppended(l: seq<Chunk>, size: int, pages: seq<int>)
    requires TailTooSmall(l, size) && pages != [] && !HasPair(l) && pages[0] != End(l[|l| - 1])
    ensures Search(l, |l| - 1, size, pages) == Search(l + [PageChunk(pages[0])], |l|, size, pages[1..])
  {
    TailGrows(l, size, pages);
  }

  lemma GrowWidened(l: seq<Chunk>, size: int, pages: seq<int>)
    requires TailTooSmall(l, size) && pages != [] && !HasPair(l) && pages[0] == End(l[|l| - 1])
    ensures Search(l, |l| - 1, size, pages) == Search(Widened(l), |l| - 1, size, pages[1..])
  {
    TailGrows(l, size, pages);
  }

  lemma SkipOldTail(l: seq<Chunk>, p: Chunk, size: int, rest: seq<int>)
    requires TailTooSmall(l, size) && HasPair(l) && FirstPair(l) + 2 != |l|
    ensures |Glue(l)| == |l| - 1 && Glue(l)[|l| - 2] == l[|l| - 1]
    ensures Search(Glue(l) + [p], |l| - 2, size, rest) == Search(Glue(l) + [p], |l| - 1, size, rest)
  {
    var m := Glue(l) + [p];
    assert m[|l| - 2] == l[|l| - 1];
  }

  lemma WidenedPairs(l: seq<Chunk>)
    requires l != [] && l[|l| - 1].free && !HasPair(l)
    ensures !HasPair(Widened(l))
  {
    var m := Widened(l);
    assert forall j :: 0 <= j < |l| - 1 ==> (Pair(m, j) <==> Pair(l, j));
  }

  lemma WidenStep(l: seq<Chunk>, size: int, pages: seq<int>)
    requires TailTooSmall(l, size) && !HasPair(l) && pages != []
    requires Consecutive(pages) && Meets(l[|l| - 1], pages)
    ensures var m := Widened(l);
      && m != [] && m[|m| - 1].free && !HasPair(m)
      && Consecutive(pages[1..]) && Meets(m[|m| - 1], pages[1..])
      && Search(l, |l| - 1, size, pages) == Search(m, |m| - 1, size, pages[1..])
  {
    hide Search, FirstPair, Pair;
    GrowWidened(l, size, pages);
    WidenedPairs(l);
  }

  /** With nothing to glue, growth only widens the tail and never ends in NULL. */
  lemma {:induction false} GrowsNeverNull(l: seq<Chunk>, size: int, pages: seq<int>)
    requires l != [] && l[|l| - 1].free && !HasPair(l)
    requires Consecutive(pages) && Meets(l[|l| - 1], pages)
    ensures !Search(l, |l| - 1, size, pages).Null?
    decreases |pages|
  {
    if TailTooSmall(l, size) && pages != [] {
      hide *;
      WidenStep(l, size, pages);
      GrowsNeverNull(Widened(l), size, pages[1..]);
    }
  }

  /** The last two chunks touch, and an earlier pair is glued first. */
  predicate Stuck(l: seq<Chunk>) {
    |l| >= 2 && Pair(l, |l| - 2) && FirstPair(l) + 2 < |l|
  }

  lemma StuckStays(l: seq<Chunk>, p: Chunk)
    requires Stuck(l) && p.free && p.head == End(l[|l| - 1])
    ensures Stuck(Glue(l) + [p]) && |Glue(l)| == |l| - 1
  {
    var n, k := |l|, FirstPair(l);
    var g := Glue(l);
    var m := g + [p];
    assert |m| == n && m[n - 2] == l[n - 1] && m[n - 1] == p;
    assert m[n - 3] == if k == n - 3 then g[k] else l[n - 2];
    assert End(m[n - 3]) == End(l[n - 2]);
    assert Pair(m, n - 3) && Pair(m, n - 2);
  }

  lemma StuckStep(l: seq<Chunk>, size: int, pages: seq<int>)
    requires Stuck(l) && TailTooSmall(l, size) && size > PGSIZE - HEADER && pages != []
    requires Consecutive(pages) && Meets(l[|l| - 1], pages)
    ensures var m := Glue(l) + [PageChunk(pages[0])];
      && Stuck(m) && TailTooSmall(m, size)
      && Consecutive(pages[1..]) && Meets(m[|m| - 1], pages[1..])
      && Search(l, |l| - 1, size, pages) == Search(m, |m| - 1, size, pages[1..])
  {
    hide Search, Glue, FirstPair, Pair;
    var p := PageChunk(pages[0]);
    StuckStays(l, p);
    assert (Glue(l) + [p])[|l| - 1] == p;
    MeetsNext(pages[0], pages);
    GrowPast(l, size, pages);
  }

  /** From there every page goes on the end and the glue happens elsewhere, until the pages run out. */
  lemma {:induction false} StuckPanics(l: seq<Chunk>, size: int, pages: seq<int>)
    requires Stuck(l) && TailTooSmall(l, size) && size > PGSIZE - HEADER
    requires Consecutive(pages) && Meets(l[|l| - 1], pages)
    ensures Search(l, |l| - 1, size, pages) == Panic(NoFreePage)
    decreases |pages|
  {
    hide Stuck, Consecutive, Meets, Glue, FirstPair, Pair;
    if pages != [] {
      hide *;
      StuckStep(l, size, pages);
      StuckPanics(Glue(l) + [PageChunk(pages[0])], size, pages[1..]);
    }
  }

  /** After one merge elsewhere the search stands on the new page, which touches the old tail. */
  lemma AfterMeetingMerge(l: seq<Chunk>, p: Chunk)
    requires l != [] && l[|l| - 1].free && HasPair(l) && FirstPair(l) + 2 != |l|
    requires p.free && p.head == End(l[|l| - 1])
    ensures var m := Glue(l) + [p];
      && |m| == |l| && m[|l| - 1] == p
      && if HasPair(Glue(l)) then Stuck(m) else FirstPair(m) + 2 == |m|
  {
    var n := |l|;
    var m := Glue(l) + [p];
    assert |Glue(l)| == n - 1 && Glue(l)[n - 2] == l[n - 1];
    FirstPairGrown(Glue(l), p);
    assert m[n - 2] == l[n - 1] && Pair(m, n - 2);
  }

  /** A request larger than a page, from a too small free tail that the next page extends. */
  lemma BigFromMeetingTail(l: seq<Chunk>, size: int, pages: seq<int>)
    requires TailTooSmall(l, size) && size > PGSIZE - HEADER
    requires Consecutive(pages) && Meets(l[|l| - 1], pages)
    ensures Search(l, |l| - 1, size, pages).Null? <==>
      || (pages != [] && FirstPair(l) + 2 == |l|)
      || (|pages| >= 2 && HasPair(l) && !HasPair(Glue(l)))
  {
    if pages != [] {
      hide Search, Glue, FirstPair;
      if FirstPair(l) + 2 == |l| {
        GrowSwallowed(l, size, pages);
      } else if !HasPair(l) {
        GrowsNeverNull(l, size, pages);
      } else {
        PastMeeting(l, size, pages);
      }
    }
  }

  lemma MeetsNext(page: int, pages: seq<int>)
    requires Consecutive(pages) && pages != [] && page == pages[0]
    ensures Consecutive(pages[1..]) && Meets(PageChunk(page), pages[1..])
  {
  }

  lemma PastMeeting(l: seq<Chunk>, size: int, pages: seq<int>)
    requires TailTooSmall(l, size) && size > PGSIZE - HEADER && HasPair(l) && FirstPair(l) + 2 != |l|
    requires Consecutive(pages) && pages != [] && Meets(l[|l| - 1], pages)
    ensures Search(l, |l| - 1, size, pages).Null? <==> pages[1..] != [] && !HasPair(Glue(l))
  {
    hide Search, Glue, FirstPair, Stuck;
    var p := PageChunk(pages[0]);
    var m := Glue(l) + [p];
    AfterMeetingMerge(l, p);
    MeetsNext(pages[0], pages);
    SecondGrowth(m, HasPair(Glue(l)), size, pages[1..]);
    GrowPast(l, size, pages);
  }

  lemma PastLone(l: seq<Chunk>, size: int, pages: seq<int>)
    requires TailTooSmall(l, size) && size > PGSIZE - HEADER && HasPair(l) && FirstPair(l) + 2 != |l|
    requires Consecutive(pages) && pages != [] && End(l[|l| - 1]) != pages[0]
    ensures Search(l, |l| - 1, size, pages).Null? <==>
      |pages| >= 3 && HasPair(Glue(l)) && !HasPair(Glue(Glue(l)))
  {
    var p := PageChunk(pages[0]);
    var m := Glue(l) + [p];
    hide Search, Glue, FirstPair;
    AfterLoneMerge(l, p);
    MeetsNext(pages[0], pages);
    BigFromMeetingTail(m, size, pages[1..]);
    GrowPast(l, size, pages);
  }

  lemma SecondGrowth(m: seq<Chunk>, stuck: bool, size: int, rest: seq<int>)
    requires TailTooSmall(m, size) && size > PGSIZE - HEADER
    requires Consecutive(rest) && Meets(m[|m| - 1], rest)
    requires if stuck then Stuck(m) else FirstPair(m) + 2 == |m|
    ensures Search(m, |m| - 1, size, rest).Null? <==> rest != [] && !stuck
  {
    if stuck {
      StuckPanics(m, size, rest);
    } else if rest != [] {
      GrowSwallowed(m, size, rest);
    }
  }

  /** The same when the next page does not touch the tail. */
  lemma BigFromLoneTail(l: seq<Chunk>, size: int, pages: seq<int>)
    requires TailTooSmall(l, size) && size > PGSIZE - HEADER
    requires Consecutive(pages) && pages != [] && End(l[|l| - 1]) != pages[0]
    ensures Search(l, |l| - 1, size, pages).Null? <==>
      || FirstPair(l) + 2 == |l|
      || (|pages| >= 3 && HasPair(l) && HasPair(Glue(l)) && !HasPair(Glue(Glue(l))))
  {
    hide Search, Glue;
    var p := PageChunk(pages[0]);
    if FirstPair(l) + 2 == |l| {
      GrowSwallowed(l, size, pages);
    } else if !HasPair(l) {
      GrowAppended(l, size, pages);
      FirstPairGrown(l, p);
      GrowsNeverNull(l + [p], size, pages[1..]);
    } else {
      PastLone(l, size, pages);
    }
  }

  lemma AfterLoneMerge(l: seq<Chunk>, p: Chunk)
    requires l != [] && l[|l| - 1].free && HasPair(l) && FirstPair(l) + 2 != |l|
    requires p.free && p.head != End(l[|l| - 1])
    ensures var m := Glue(l) + [p];
      && |m| == |l| && m[|l| - 1] == p
      && FirstPair(m) + 2 != |m|
      && (HasPair(m) <==> HasPair(Glue(l)))
      && (HasPair(m) && !HasPair(Glue(m)) <==> HasPair(Glue(l)) && !HasPair(Glue(Glue(l))))
  {
    assert |Glue(l)| == |l| - 1 && Glue(l)[|l| - 2] == l[|l| - 1];
    FirstPairGrown(Glue(l), p);
    if HasPair(Glue(l)) {
      GluePlus(Glue(l), p);
      LoneAfterGlue(l, p);
    }
  }

  lemma LoneAfterGlue(l: seq<Chunk>, p: Chunk)
    requires HasPair(l) && HasPair(Glue(l)) && l[|l| - 1].free && p.free && p.head != End(l[|l| - 1])
    requires FirstPair(l) + 2 != |l|
    ensures HasPair(Glue(Glue(l)) + [p]) <==> HasPair(Glue(Glue(l)))
  {
    var m := Glue(l);
    var g := Glue(m);
    assert m[|m| - 1] == l[|l| - 1];
    assert End(g[|g| - 1]) == End(m[|m| - 1]) by {
      var k := FirstPair(m);
      if k + 2 == |m| {
        assert g[k] == g[|g| - 1];
      } else {
        assert g[|g| - 1] == m[|m| - 1];
      }
    }
    FirstPairGrown(g, p);
  }

  /** Exactly when growth ends in NULL although the tail is free: gluing swallowed the block the search stood on. */
  predicate GlueSwallowsBlock(l: seq<Chunk>, size: int, pages: seq<int>)
    requires l != [] && pages != []
  {
    || FirstPair(l) + 2 == |l|
    || (size > PGSIZE - HEADER && HasPair(l) &&
        if End(l[|l| - 1]) == pages[0] then |pages| >= 2 && !HasPair(Glue(l))
        else |pages| >= 3 && HasPair(Glue(l)) && !HasPair(Glue(Glue(l))))
  }

  /** Main result: for every list, size and number of free pages, kmalloc returns NULL if and only
      if no chunk fits and either the last chunk is in use (so the search never asks for a page),
      or growth starts and gluing swallows the block the search stands on. */
  lemma NullExactly(l: seq<Chunk>, size: int, pages: seq<int>)
    requires Sorted(l) && 0 <= size && Consecutive(pages)
    ensures Malloc(l, size, pages).Null? <==>
      && l != []
      && FirstFit(l, size) == |l|
      && (!l[|l| - 1].free || (pages != [] && GlueSwallowsBlock(l, size, pages)))
  {
    var n := |l|;
    if l == [] {
      if pages != [] {
        GrowsNeverNull([PageChunk(pages[0])], size, pages[1..]);
      }
    } else if FirstFit(l, size) < n {
      FirstFitIsUsed(l, 0, size, pages);
    } else {
      NoFitReachesTail(l, 0, size, pages);
      if l[n - 1].free && pages != [] {
        if size <= PGSIZE - HEADER {
          SmallFromTail(l, size, pages);
        } else if End(l[n - 1]) == pages[0] {
          BigFromMeetingTail(l, size, pages);
        } else {
          BigFromLoneTail(l, size, pages);
        }
      }
    }
  }

  /** A request that fits one fresh page. */
  lemma SmallFromTail(l: seq<Chunk>, size: int, pages: seq<int>)
    requires TailTooSmall(l, size) && size <= PGSIZE - HEADER && pages != [] && 0 <= l[|l| - 1].size
    ensures Search(l, |l| - 1, size, pages).Null? <==> FirstPair(l) + 2 == |l|
  {
    hide Glue, FirstPair;
    var n, p := |l|, PageChunk(pages[0]);
    if FirstPair(l) + 2 == n {
      GrowSwallowed(l, size, pages);
    } else if HasPair(l) {
      GrowPast(l, size, pages);
      assert (Glue(l) + [p])[n - 1] == p;
    } else if p.head == End(l[n - 1]) {
      GrowWidened(l, size, pages);
      assert Widened(l)[n - 1].size >= size;
    } else {
      GrowAppended(l, size, pages);
      assert (l + [p])[n] == p;
    }
  }

  /** After a full page has been handed out whole, the next request is refused although pages are free. */
  lemma RefusedWithFreePages(page: int, other: int)
    requires 0 < page
    ensures var o := Malloc([], PGSIZE - HEADER, [page, other]);
      o == Got([Chunk(page, PGSIZE - HEADER, false)], [other], page + HEADER) &&
      Malloc(o.list, 1, o.pages) == Null(o.list, [other])
  {
    var c, d := [PageChunk(page)], [Chunk(page, PGSIZE - HEADER, false)];
    assert [page, other][1..] == [other];
    assert Search(c, 0, PGSIZE - HEADER, [other]) == Got(Mark(c, 0, false), [other], page + HEADER);
    assert Mark(c, 0, false) == d;
    assert Search(d, 0, 1, [other]) == Search(d, 1, 1, [other]);
  }
}
