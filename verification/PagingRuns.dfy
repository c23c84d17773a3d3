// Runs of mm/mmap.c from boot: page faults anywhere, new directories, first user pages, in any order.

module PagingRuns {
  import opened Machine
  import opened PageTables
  import opened Mmap
  import KernelPages
  import FrameStack

  /** What happens to the tables after boot. Directories are named by their number, from 0 on in the order
      in which umap_init made them; other numbers name kpgdir. */
  datatype Op =
    | Fault(k: nat, addr: Word, heapGrows: bool)
    | NewDirectory
    | LoadInit(k: nat, sz: Word, heapGrows1: bool, heapGrows2: bool)

  /** How a run ends: all operations done; a panic; no pushed frame left; a page the kernel uses or is about
      to be given is no longer where it was; a directory made on a page that was not empty. */
  datatype End = Finished | Panicked | OutOfFrames | KernelPageMoved | DirtyDirectory

  /** The pages of the linear range in which one of the operations is a fault. */
  function Hit(ops: seq<Op>): set<int> {
    if ops == [] then {}
    else
      var op := ops[|ops| - 1];
      Hit(ops[..|ops| - 1]) + if op.Fault? && Linear(op.addr) then {LinearPage(op.addr)} else {}
  }

  /** How many frames the operations take. */
  function FramesTaken(ops: seq<Op>): nat {
    if ops == [] then 0 else FramesTaken(ops[..|ops| - 1]) + if ops[|ops| - 1].NewDirectory? then 0 else 1
  }

  /** How many pages an operation can need, and how many the operations of a run can need together. */
  function PagesFor(op: Op): nat {
    match op
    case Fault(_, _, _) => 2
    case NewDirectory => 1
    case LoadInit(_, _, _, _) => 4
  }

  function MostPages(ops: seq<Op>): nat {
    if ops == [] then 0 else MostPages(ops[..|ops| - 1]) + PagesFor(ops[|ops| - 1])
  }

  function NewDirs(ops: seq<Op>): nat {
    if ops == [] then 0 else NewDirs(ops[..|ops| - 1]) + if ops[|ops| - 1].NewDirectory? then 1 else 0
  }

  // ---- What holds in every state reached ----

  /** The linear map is where kmap_init put it exactly outside the pages hit. */
  ghost predicate HomeExcept(m: Memory, y: Layout, hit: set<int>) {
    TablesOk(m, y) && forall p :: 0 <= p < NORMAL_PAGES ==> (Home(m, y, p) <==> p !in hit)
  }

  /** Every directory translates the kernel half as kpgdir does, as far as it has the table. */
  ghost predicate HalfShared(m: Memory, y: Layout) {
    TablesOk(m, y) &&
    forall d, a: Word :: d in y.dirs && a >= KERNBASE ==>
      Walk(m, d, a) == (if Ent(m, d, Pdx(a)) != 0 then Walk(m, y.kdir, a) else None) && (Linear(a) ==> Ent(m, d, Pdx(a)) != 0)
  }

  /** No frame above the linear part is mapped twice, or mapped and on the stack; and nothing else is mapped
      outside the linear range. */
  ghost predicate NoAlias(m: Memory, y: Layout, pushed: seq<Word>) {
    TablesOk(m, y) &&
    forall c, a: Word, d, b: Word :: c in y.dirs && d in y.dirs && Walk(m, c, a).Some? && Walk(m, d, b).Some? ==>
      var e := Walk(m, c, a).value;
      if High(e) then
        FrameIn(e) * PGSIZE !in pushed
        && (FrameIn(e) == FrameIn(Walk(m, d, b).value) ==> PageOf(a) == PageOf(b) && (c == d || a >= KERNBASE))
      else Linear(a) && e == LinearPage(a) * PGSIZE + 3
  }

  lemma SharedFrom(m: Memory, y: Layout)
    requires TablesOk(m, y)
    ensures HalfShared(m, y)
  {
    hide EntriesOk, HighOk, Unshared, Walk, Ent;
    forall d, a: Word | d in y.dirs && a >= KERNBASE
      ensures Walk(m, d, a) == (if Ent(m, d, Pdx(a)) != 0 then Walk(m, y.kdir, a) else None)
      ensures Linear(a) ==> Ent(m, d, Pdx(a)) != 0
    {
      KernelHalfShared(m, y, d, a);
    }
  }

  lemma NoAliasFrom(m: Memory, y: Layout, pushed: seq<Word>)
    requires TablesOk(m, y) && LeavesOk(m, y, pushed)
    ensures NoAlias(m, y, pushed)
  {
    hide EntriesOk, HighOk, Unshared, LeavesOk, Walk, FrameIn, PageOf, LinearPage, Linear;
    forall c, a: Word, d, b: Word | c in y.dirs && d in y.dirs && Walk(m, c, a).Some? && Walk(m, d, b).Some?
      ensures var e := Walk(m, c, a).value;
        if High(e) then
          FrameIn(e) * PGSIZE !in pushed
          && (FrameIn(e) == FrameIn(Walk(m, d, b).value) ==> PageOf(a) == PageOf(b) && (c == d || a >= KERNBASE))
        else Linear(a) && e == LinearPage(a) * PGSIZE + 3
    {
      MappedFramesNeverAlias(m, y, pushed, c, a, d, b);
    }
  }

  /** What a fault does to the set of pages at home. */
  lemma FaultHits(m: Memory, n: Memory, y: Layout, z: Layout, hit: set<int>, addr: Word, e: Word)
    requires HomeExcept(m, y, hit) && TablesOk(n, z) && y.ktbl == z.ktbl && LinearSet(m, n, z, addr, e) && High(e)
    ensures HomeExcept(n, z, if Linear(addr) then hit + {LinearPage(addr)} else hit)
  {
    hide EntriesOk, HighOk, Unshared, LinearEntry;
    forall p | 0 <= p < NORMAL_PAGES
      ensures Home(n, z, p) <==> p !in hit && !(Linear(addr) && p == LinearPage(addr))
    {
      assert Home(m, y, p) <==> p !in hit;
      HomeEntry(p);
    }
  }

  lemma HomeKept(m: Memory, n: Memory, y: Layout, z: Layout, hit: set<int>)
    requires HomeExcept(m, y, hit) && TablesOk(n, z) && y.ktbl == z.ktbl && SameLinear(m, n, z)
    ensures HomeExcept(n, z, hit)
  {
    hide EntriesOk, HighOk, Unshared, LinearEntry;
    forall p | 0 <= p < NORMAL_PAGES
      ensures Home(n, z, p) <==> p !in hit
    {
      assert Home(m, y, p) <==> p !in hit;
    }
  }

  lemma IntactBelow(m: Memory, y: Layout, hit: set<int>, lowest: int, k: int)
    requires HomeExcept(m, y, hit) && (forall p :: p in hit ==> lowest <= p) && (y.used + k <= lowest || lowest == NORMAL_PAGES)
    ensures Intact(m, y, k)
  {
    hide EntriesOk, HighOk, Unshared, Home;
  }

  /** How many pages are left tells how many are used. */
  lemma PagesLeft(bs: seq<KernelPages.Block>, f: int)
    requires KernelPages.Prefix(bs, f)
    ensures |KernelPages.FreeFrom(bs, 0)| == NORMAL_PAGES - f
  {
    KernelPages.PrefixFree(bs, f);
    if f < NORMAL_PAGES {
      KernelPages.PagesFromAt(f, 0);
    }
  }

  // ---- One operation ----

  /** The directory of number k. */
  function Pick(made: seq<int>, kdir: int, k: nat): int {
    if k < |made| then made[k] else kdir
  }

  /** Is the lower part of the page in frame t zero? */
  method LowerIsZero(p: Paging, t: int) returns (zero: bool)
    requires p.mem.Length == NORMAL_PAGES * ENTRIES && 0 <= t < NORMAL_PAGES
    ensures zero <==> EmptyBelow(p.mem[..], t)
  {
    for i := 0 to KERN_PDX
      invariant forall k :: 0 <= k < i ==> Ent(p.mem[..], t, k) == 0
    {
      assert Ent(p.mem[..], t, i) == p.mem[t * ENTRIES + i];
      if p.mem[t * ENTRIES + i] != 0 {
        return false;
      }
    }
    return true;
  }

  /** What holds between two operations of a run. */
  ghost predicate Reached(p: Paging, made: seq<int>, hit: set<int>, lowest: int)
    reads p, p.mem, p.kvm, p.kvm.blocks, p.frames, p.frames.slots
  {
    && p.Valid()
    && (forall k :: 0 <= k < |made| ==> made[k] in p.dirs)
    && HomeExcept(p.mem[..], p.Y(), hit) && Sides(p.mem[..], p.Y())
    && lowest <= NORMAL_PAGES
    && (forall q :: q in hit ==> lowest <= q)
  }

  /** When an operation panics: no page left for what it needs, an image of more than a page, or a fault on
      the page of kpgdir or of the very table the fault would be entered in. */
  ghost predicate Panics(p: Paging, op: Op, made: seq<int>)
    reads p, p.mem, p.kvm, p.kvm.blocks
    requires p.Ready() && (forall k :: 0 <= k < |made| ==> made[k] in p.dirs)
  {
    StructureOf(p.mem[..], p.Y());
    match op
    case Fault(k, addr, heapGrows) =>
      p.Cuts(addr) || p.used + p.Need(if addr >= KERNBASE then p.kdir else Pick(made, p.kdir, k), addr, heapGrows) > NORMAL_PAGES
    case NewDirectory => p.used == NORMAL_PAGES
    case LoadInit(k, sz, heapGrows1, heapGrows2) =>
      || sz > PGSIZE
      || p.used + p.Need(p.kdir, KERNBASE + MEM_NORMAL, heapGrows1) + p.Need(Pick(made, p.kdir, k), 0, heapGrows2) > NORMAL_PAGES
  }

  function HitBy(op: Op): set<int> {
    if op.Fault? && Linear(op.addr) then {LinearPage(op.addr)} else {}
  }

  method DoFault(p: Paging, op: Op, made: seq<int>, ghost hit: set<int>, lowest: int) returns (ok: bool, lowest': int)
    requires Reached(p, made, hit, lowest) && op.Fault? && p.frames.Pushed() != [] && Intact(p.mem[..], p.Y(), 1)
    modifies p.mem, p.kvm.blocks, p`tables, p`used, p.frames`header
    ensures ok <==> !old(Panics(p, op, made))
    ensures ok ==>
      && Reached(p, made, hit + HitBy(op), lowest')
      && (lowest' == lowest || lowest' in HitBy(op))
      && |old(p.frames.Pushed())| == |p.frames.Pushed()| + 1
      && 0 <= old(p.used) <= p.used <= old(p.used) + 2 && FreshKept(old(p.mem[..]), p.mem[..], p.used)
  {
    hide HomeExcept, Sides, TablesOk, LeavesOk, Walk, KernelPages.Prefix, Ent, Home, LinearSet, SameElsewhere, Intact, FreshKept;
    ghost var m: Memory, y := p.mem[..], p.Y();
    StructureOf(m, y);
    FrameOnTop(m, y, p.frames.Pushed());
    var addr := op.addr;
    ghost var e: Word := Top(p.frames.Pushed()) + PTE_P + PTE_W + (if addr >= KERNBASE then 0 else PTE_U);
    ok := p.PageFault(Pick(made, p.kdir, op.k), addr, op.heapGrows);
    lowest' := lowest;
    if ok {
      FaultHits(m, p.mem[..], y, p.Y(), hit, addr, e);
      assert HitBy(op) == {} ==> hit + HitBy(op) == hit;
      if Linear(addr) && LinearPage(addr) < lowest {
        lowest' := LinearPage(addr);
      }
    }
  }

  method DoDirectory(p: Paging, op: Op, made: seq<int>, ghost hit: set<int>, lowest: int)
    returns (ok: bool, zero: bool, made': seq<int>)
    requires Reached(p, made, hit, lowest) && op.NewDirectory? && Intact(p.mem[..], p.Y(), 1)
    modifies p.mem, p.kvm.blocks, p`dirs, p`used
    ensures ok <==> !old(Panics(p, op, made))
    ensures ok ==>
      && Reached(p, made', hit, lowest)
      && (if zero then made' == made + [old(p.used)] else made' == made)
      && 0 <= old(p.used) < NORMAL_PAGES && p.used == old(p.used) + 1 && FreshKept(old(p.mem[..]), p.mem[..], p.used)
      && (zero <==> old(EmptyBelow(p.mem[..], p.used)))
      && (zero <==> EmptyBelow(p.mem[..], p.used - 1))
      && p.dirs == old(p.dirs) + (if zero then {old(p.used)} else {})
  {
    hide HomeExcept, Sides, TablesOk, LeavesOk, Walk, KernelPages.Prefix, Ent, Home, SameLinear, Intact, EmptyBelow, FreshKept;
    ghost var m: Memory, y := p.mem[..], p.Y();
    StructureOf(m, y);
    made', zero := made, false;
    var r := p.UmapInit();
    ok := r.Some?;
    if ok {
      HomeKept(m, p.mem[..], y, p.Y(), hit);
      zero := LowerIsZero(p, r.value);
      LowerSame(m, p.mem[..], r.value);
      if zero {
        made' := made + [r.value];
      }
    }
  }

  method DoLoad(p: Paging, op: Op, made: seq<int>, ghost hit: set<int>, lowest: int) returns (ok: bool)
    requires Reached(p, made, hit, lowest) && op.LoadInit? && p.frames.Pushed() != [] && Intact(p.mem[..], p.Y(), 3)
    modifies p.mem, p.kvm.blocks, p`tables, p`used, p.frames`header
    ensures ok <==> !old(Panics(p, op, made))
    ensures ok ==>
      && Reached(p, made, hit, lowest) && |old(p.frames.Pushed())| == |p.frames.Pushed()| + 1
      && 0 <= old(p.used) <= p.used <= old(p.used) + 4 && FreshKept(old(p.mem[..]), p.mem[..], p.used)
  {
    hide HomeExcept, Sides, TablesOk, LeavesOk, Walk, KernelPages.Prefix, Ent, Home, SameLinear, SameButTwo, Intact, FreshKept;
    ghost var m: Memory, y := p.mem[..], p.Y();
    StructureOf(m, y);
    ok := p.UvmInit(Pick(made, p.kdir, op.k), op.sz, op.heapGrows1, op.heapGrows2);
    if ok {
      HomeKept(m, p.mem[..], y, p.Y(), hit);
    }
  }

  /** An operation that can only have panicked for a reason. */
  predicate MayPanic(p: Paging, op: Op, left: int) {
    left < PagesFor(op) || (op.Fault? && p.Cuts(op.addr)) || (op.LoadInit? && op.sz > PGSIZE)
  }

  lemma PanicReason(p: Paging, op: Op, made: seq<int>)
    requires p.Ready() && (forall k :: 0 <= k < |made| ==> made[k] in p.dirs) && Panics(p, op, made)
    ensures MayPanic(p, op, NORMAL_PAGES - p.used)
  {
    hide TablesOk, Ent, KernelPages.Prefix;
    StructureOf(p.mem[..], p.Y());
  }

  /** A page that a fault has moved is one the kernel uses or may be given by the next operation. */
  predicate TooNear(p: Paging, lowest: int)
    reads p.kvm, p.kvm.blocks
  {
    lowest < NORMAL_PAGES && lowest < NORMAL_PAGES - |p.kvm.FreePages()| + 3
  }

  /** One operation; None when it has been done. */
  method Do(p: Paging, op: Op, made: seq<int>, ghost hit: set<int>, lowest: int)
    returns (end: Option<End>, made': seq<int>, lowest': int, left: int)
    requires Reached(p, made, hit, lowest)
    modifies p.mem, p.kvm.blocks, p`tables, p`dirs, p`used, p.frames`header
    ensures end != Some(Finished) && left == NORMAL_PAGES - old(p.used)
    ensures end == Some(KernelPageMoved) <==> old(TooNear(p, lowest))
    ensures end == Some(OutOfFrames) <==> !old(TooNear(p, lowest)) && !op.NewDirectory? && old(p.frames.Pushed()) == []
    ensures end == Some(Panicked) <==>
      && !old(TooNear(p, lowest)) && (op.NewDirectory? || old(p.frames.Pushed()) != [])
      && old(Panics(p, op, made))
    ensures end == Some(Panicked) ==> MayPanic(p, op, left)
    ensures end == Some(DirtyDirectory) ==>
      && op.NewDirectory? && 0 <= old(p.used) < NORMAL_PAGES && !old(EmptyBelow(p.mem[..], p.used))
      && 1 <= p.used <= NORMAL_PAGES && !EmptyBelow(p.mem[..], p.used - 1)
    ensures end.None? || end == Some(DirtyDirectory) ==>
      && Reached(p, made', hit + HitBy(op), lowest')
      && (lowest' == lowest || lowest' in HitBy(op))
      && |old(p.frames.Pushed())| == |p.frames.Pushed()| + (if op.NewDirectory? then 0 else 1)
      && 0 <= old(p.used) <= p.used <= old(p.used) + PagesFor(op)
      && FreshKept(old(p.mem[..]), p.mem[..], p.used)
      && made' == made + (if end.None? && op.NewDirectory? then [old(p.used)] else [])
      && p.dirs == old(p.dirs) + (if end.None? && op.NewDirectory? then {old(p.used)} else {})
    ensures end.None? && op.NewDirectory? ==> old(p.used) < p.used
    ensures end == Some(OutOfFrames) || end == Some(KernelPageMoved) ==>
      && made' == made && lowest' == lowest && Reached(p, made, hit, lowest)
      && p.frames.Pushed() == old(p.frames.Pushed()) && p.used == old(p.used) && p.dirs == old(p.dirs) && p.mem[..] == old(p.mem[..])
  {
    hide HomeExcept, Sides, TablesOk, LeavesOk, KernelPages.Prefix, Intact, Panics, EmptyBelow, FreshKept;
    end, made', lowest' := None, made, lowest;
    PagesLeft(p.kvm.blocks[..], p.used);
    var pages := p.kvm.FreePages();
    left := |pages|;
    if TooNear(p, lowest) {
      return Some(KernelPageMoved), made, lowest, left;
    }
    StructureOf(p.mem[..], p.Y());
    IntactBelow(p.mem[..], p.Y(), hit, lowest, 3);
    IntactBelow(p.mem[..], p.Y(), hit, lowest, 1);
    if !op.NewDirectory? && p.frames.header <= 0 {
      return Some(OutOfFrames), made, lowest, left;
    }
    assert Panics(p, op, made) ==> MayPanic(p, op, left) by {
      if Panics(p, op, made) {
        PanicReason(p, op, made);
      }
    }
    var ok := true;
    if op.Fault? {
      ok, lowest' := DoFault(p, op, made, hit, lowest);
    } else if op.LoadInit? {
      ok := DoLoad(p, op, made, hit, lowest);
      assert hit + HitBy(op) == hit;
    } else {
      var zero;
      ok, zero, made' := DoDirectory(p, op, made, hit, lowest);
      assert hit + HitBy(op) == hit;
      assert made + [] == made;
      end := if zero then None else Some(DirtyDirectory);
    }
    if !ok {
      end := Some(Panicked);
    }
  }

  lemma StructureOf(m: Memory, y: Layout)
    requires TablesOk(m, y)
    ensures FramesOk(y) && y.kdir in y.dirs && 0 <= y.kdir < NORMAL_PAGES && 0 <= y.used <= NORMAL_PAGES
  {
  }

  lemma LowerSame(m: Memory, n: Memory, t: int)
    requires 0 <= t < NORMAL_PAGES && forall i :: 0 <= i < KERN_PDX ==> Ent(n, t, i) == Ent(m, t, i)
    ensures EmptyBelow(n, t) <==> EmptyBelow(m, t)
  {
    hide Ent;
  }

  lemma FrameOnTop(m: Memory, y: Layout, pushed: seq<Word>)
    requires FramesOk(y) && LeavesOk(m, y, pushed) && pushed != []
    ensures MEM_NORMAL <= Top(pushed) && Top(pushed) + PTE_P + PTE_W + PTE_U < ADDRESS_SPACE
    ensures High(Top(pushed) + PTE_P + PTE_W) && High(Top(pushed) + PTE_P + PTE_W + PTE_U)
  {
    assert Top(pushed) in pushed;
  }

  /** What a run of these operations needs at most, from `used` pages in use and this many frames on the stack:
      pages and frames enough, images of a page at most, no fault on the handler's own tables, none in a page
      of the linear range that the kernel can come to use, and new pages empty below KERNBASE's entry. */
  ghost predicate Budget(p: Paging, ops: seq<Op>, used: int, frames: int, m: Memory) {
    && 0 <= used && used + MostPages(ops) <= NORMAL_PAGES
    && FramesTaken(ops) <= frames
    && (forall k :: 0 <= k < |ops| ==> Harmless(p, ops[k]))
    && (forall q :: q in Hit(ops) ==> used + MostPages(ops) + 3 <= q)
    && (forall f :: used <= f < used + MostPages(ops) && f < NORMAL_PAGES ==> EmptyBelow(m, f))
  }

  predicate Harmless(p: Paging, op: Op) {
    !(op.Fault? && p.Cuts(op.addr)) && !(op.LoadInit? && op.sz > PGSIZE)
  }

  function SetOf(s: seq<int>): set<int> {
    set x | x in s
  }

  /** Main result. From a state like the one boot leaves, after any sequence of page faults at any address, new
      directories and first user pages, as far as it goes without a panic: the linear map is where kmap_init
      put it exactly outside the pages faulted on; all directories, those that were there and one for each new
      directory, share the kernel half; a user program can use every page mapped below KERNBASE and none from
      KERNBASE up; no frame is mapped twice, or mapped and still on the stack; and every
      operation but umap_init has used up one frame. A run within its budget is done to the end; any other
      end has its reason. `made` are the directories made, and `left` is the number of pages left before the
      last operation tried. */
  method Run(p: Paging, ops: seq<Op>) returns (done: nat, end: End, left: int, made: seq<int>)
    requires p.Valid() && LinearOk(p.mem[..], p.Y()) && Sides(p.mem[..], p.Y())
    modifies p.mem, p.kvm.blocks, p`tables, p`dirs, p`used, p.frames`header
    ensures old(Budget(p, ops, p.used, |p.frames.Pushed()|, p.mem[..])) ==> end.Finished?
    ensures done <= |ops| && (end.Finished? ==> done == |ops|)
    ensures end.Panicked? ==>
      done < |ops| && MayPanic(p, ops[done], left) && left >= NORMAL_PAGES - old(p.used) - MostPages(ops[..done])
    ensures !end.Panicked? ==>
      && p.Valid()
      && HomeExcept(p.mem[..], p.Y(), Hit(ops[..done]))
      && HalfShared(p.mem[..], p.Y()) && UserHalf(p.mem[..], p.Y())
      && NoAlias(p.mem[..], p.Y(), p.frames.Pushed())
      && |old(p.frames.Pushed())| == |p.frames.Pushed()| + FramesTaken(ops[..done])
      && old(p.used) <= p.used <= old(p.used) + MostPages(ops[..done])
      && p.dirs == old(p.dirs) + SetOf(made)
      && |made| == NewDirs(ops[..done]) - (if end.DirtyDirectory? then 1 else 0)
      && (forall k :: 0 <= k < |made| ==> old(p.used) <= made[k] < p.used)
      && (forall j, k :: 0 <= j < k < |made| ==> made[j] < made[k])
    ensures end.OutOfFrames? ==> done < |ops| && !ops[done].NewDirectory? && p.frames.Pushed() == []
    ensures end.KernelPageMoved? ==> done < |ops| && exists q :: q in Hit(ops[..done]) && q < p.used + 3
    ensures end.DirtyDirectory? ==>
      done > 0 && ops[done - 1].NewDirectory? && 1 <= p.used <= NORMAL_PAGES && !EmptyBelow(p.mem[..], p.used - 1)
  {
    hide HomeExcept, Sides, UserHalf, TablesOk, LeavesOk, HalfShared, NoAlias, KernelPages.Prefix, LinearOk, Progress, MayPanic, Budget, Ent;
    hide Hit, FramesTaken, MostPages, NewDirs, SetOf, EmptyBelow;
    var lowest := NORMAL_PAGES;
    done, made := 0, [];
    ghost var s := Start(p.used, |p.frames.Pushed()|, p.mem[..], p.dirs);
    ghost var within := Budget(p, ops, s.used, s.frames, s.m);
    Begins(p, ops, s);
    end, left := Finished, 0;
    while done < |ops| && end.Finished?
      invariant done <= |ops| && (end.Finished? || end.DirtyDirectory?) && (within ==> end.Finished?)
      invariant p.Valid() && Progress(p, ops, done, made, lowest, s, end.DirtyDirectory?)
      invariant end.DirtyDirectory? ==> DirtyEnd(p, ops, done)
      decreases |ops| - done
    {
      var stop;
      stop, made, lowest, left := TryNext(p, ops, done, made, lowest, s);
      if stop.Some? && !stop.value.DirtyDirectory? {
        end := stop.value;
        break;
      }
      done := done + 1;
      end := if stop.Some? then DirtyDirectory else Finished;
    }
    if !end.Panicked? {
      ProgressIs(p, ops, done, made, lowest, s, end.DirtyDirectory?);
      SharedFrom(p.mem[..], p.Y());
      SidesGiveUserHalf(p.mem[..], p.Y());
      NoAliasFrom(p.mem[..], p.Y(), p.frames.Pushed());
    }
  }

  /** The state a run starts from, as far as its budget and its account refer to it. */
  datatype Start = Start(used: int, frames: int, m: Memory, dirs: set<int>)

  /** What holds after `done` operations of a run. */
  ghost predicate Progress(p: Paging, ops: seq<Op>, done: nat, made: seq<int>, lowest: int, s: Start, dirty: bool)
    reads p, p.mem, p.kvm, p.kvm.blocks, p.frames, p.frames.slots
    requires done <= |ops|
  {
    && Reached(p, made, Hit(ops[..done]), lowest)
    && s.frames == |p.frames.Pushed()| + FramesTaken(ops[..done])
    && (lowest in Hit(ops[..done]) || lowest == NORMAL_PAGES)
    && 0 <= s.used <= p.used <= s.used + MostPages(ops[..done]) && FreshKept(s.m, p.mem[..], p.used)
    && p.dirs == s.dirs + SetOf(made)
    && |made| == NewDirs(ops[..done]) - (if dirty then 1 else 0)
    && Ascending(made, s.used, p.used)
  }

  /** The page of the last directory made was not empty. */
  ghost predicate DirtyEnd(p: Paging, ops: seq<Op>, done: nat)
    reads p, p.mem
  {
    && p.mem.Length == NORMAL_PAGES * ENTRIES && 0 < done <= |ops| && ops[done - 1].NewDirectory?
    && 1 <= p.used <= NORMAL_PAGES && !EmptyBelow(p.mem[..], p.used - 1)
  }

  lemma Begins(p: Paging, ops: seq<Op>, s: Start)
    requires p.Valid() && LinearOk(p.mem[..], p.Y()) && Sides(p.mem[..], p.Y()) && s == Start(p.used, |p.frames.Pushed()|, p.mem[..], p.dirs)
    ensures Progress(p, ops, 0, [], NORMAL_PAGES, s, false)
  {
    hide Reached, FreshKept, HomeExcept, Sides, LinearOk, TablesOk, LeavesOk;
    NoOps(ops);
    AllHome(p.mem[..], p.Y());
    StartsReached(p);
    FreshSame(s.m, s.used);
  }

  lemma ProgressIs(p: Paging, ops: seq<Op>, done: nat, made: seq<int>, lowest: int, s: Start, dirty: bool)
    requires done <= |ops| && Progress(p, ops, done, made, lowest, s, dirty)
    ensures p.Valid() && HomeExcept(p.mem[..], p.Y(), Hit(ops[..done])) && Sides(p.mem[..], p.Y())
    ensures s.frames == |p.frames.Pushed()| + FramesTaken(ops[..done])
    ensures s.used <= p.used <= s.used + MostPages(ops[..done])
    ensures p.dirs == s.dirs + SetOf(made) && |made| == NewDirs(ops[..done]) - (if dirty then 1 else 0)
    ensures forall k :: 0 <= k < |made| ==> s.used <= made[k] < p.used
    ensures forall j, k :: 0 <= j < k < |made| ==> made[j] < made[k]
  {
    hide HomeExcept, Sides, Hit, FramesTaken, MostPages, SetOf, NewDirs, FreshKept;
  }

  /** The next operation of a run. */
  method TryNext(p: Paging, ops: seq<Op>, done: nat, made: seq<int>, lowest: int, ghost s: Start)
    returns (stop: Option<End>, made': seq<int>, lowest': int, left: int)
    requires done < |ops| && Progress(p, ops, done, made, lowest, s, false)
    modifies p.mem, p.kvm.blocks, p`tables, p`dirs, p`used, p.frames`header
    ensures Budget(p, ops, s.used, s.frames, s.m) ==> stop.None?
    ensures stop != Some(Finished)
    ensures stop == Some(Panicked) ==>
      MayPanic(p, ops[done], left) && left >= NORMAL_PAGES - s.used - MostPages(ops[..done])
    ensures stop.None? || stop == Some(DirtyDirectory) ==>
      p.Valid() && Progress(p, ops, done + 1, made', lowest', s, stop.Some?)
    ensures stop == Some(DirtyDirectory) ==> DirtyEnd(p, ops, done + 1)
    ensures stop == Some(OutOfFrames) || stop == Some(KernelPageMoved) ==>
      p.Valid() && Progress(p, ops, done, made', lowest', s, false)
    ensures stop == Some(OutOfFrames) ==> !ops[done].NewDirectory? && p.frames.Valid() && p.frames.Pushed() == []
    ensures stop == Some(KernelPageMoved) ==> exists q :: q in Hit(ops[..done]) && q < p.used + 3
  {
    hide HomeExcept, Sides, TablesOk, LeavesOk, KernelPages.Prefix, HitBy, Panics, EmptyBelow, Reached, MayPanic;
    hide Hit, FramesTaken, MostPages, NewDirs, Budget, FreshKept, TooNear, SetOf, PagesFor, Ascending;
    ReachedFacts(p, made, Hit(ops[..done]), lowest);
    ghost var now: Memory, used := p.mem[..], p.used;
    NearIs(p, lowest);
    if Budget(p, ops, s.used, s.frames, s.m) {
      InBudget(p, ops, done, s.used, s.frames, s.m, used, |p.frames.Pushed()|, now, lowest);
    }
    stop, made', lowest', left := Do(p, ops[done], made, Hit(ops[..done]), lowest);
    if stop.None? || stop.value.DirtyDirectory? {
      OneMoreOp(ops, done);
      FreshTwice(s.m, now, p.mem[..], used, p.used);
      MadeMore(made, made', s.used, used, p.used);
      ReachedFacts(p, made', Hit(ops[..done + 1]), lowest');
    } else if !stop.value.Panicked? {
      ReachedFacts(p, made', Hit(ops[..done]), lowest');
    }
  }

  ghost predicate Ascending(made: seq<int>, from: int, to: int) {
    && (forall k :: 0 <= k < |made| ==> from <= made[k] < to)
    && (forall j, k :: 0 <= j < k < |made| ==> made[j] < made[k])
  }

  lemma MadeMore(before: seq<int>, after: seq<int>, from: int, mid: int, to: int)
    requires Ascending(before, from, mid) && from <= mid <= to
    requires after == before || (after == before + [mid] && mid < to)
    ensures Ascending(after, from, to)
    ensures after == before + [mid] ==> SetOf(after) == SetOf(before) + {mid}
  {
  }

  lemma NearIs(p: Paging, lowest: int)
    requires p.Valid()
    ensures TooNear(p, lowest) <==> lowest < NORMAL_PAGES && lowest < p.used + 3
  {
    hide TablesOk, LeavesOk;
    PagesLeft(p.kvm.blocks[..], p.used);
  }

  /** Inside its budget a run cannot be stopped at operation k. */
  lemma InBudget(p: Paging, ops: seq<Op>, k: nat, used: int, frames: int, m: Memory, used1: int, frames1: int, now: Memory, lowest: int)
    requires Budget(p, ops, used, frames, m) && k < |ops|
    requires used <= used1 <= used + MostPages(ops[..k]) && FreshKept(m, now, used1)
    requires frames == frames1 + FramesTaken(ops[..k])
    requires lowest in Hit(ops[..k]) || lowest == NORMAL_PAGES
    ensures !(lowest < NORMAL_PAGES && lowest < used1 + 3)
    ensures !ops[k].NewDirectory? ==> frames1 > 0
    ensures !MayPanic(p, ops[k], NORMAL_PAGES - used1)
    ensures ops[k].NewDirectory? ==> 0 <= used1 < NORMAL_PAGES && EmptyBelow(now, used1)
  {
    hide Hit, FramesTaken, MostPages, EmptyBelow, FreshKept;
    PartOf(ops, k);
    PartOf(ops, k + 1);
    OneMoreOp(ops, k);
    if ops[k].NewDirectory? {
      StillEmpty(m, now, used1);
    }
  }

  lemma StillEmpty(m: Memory, n: Memory, f: int)
    requires 0 <= f < NORMAL_PAGES && FreshKept(m, n, f)
    ensures EmptyBelow(n, f) <==> EmptyBelow(m, f)
  {
    hide Ent;
  }

  /** A part of a run needs no more than the whole. */
  lemma {:induction false} PartOf(ops: seq<Op>, k: nat)
    requires k <= |ops|
    ensures Hit(ops[..k]) <= Hit(ops) && FramesTaken(ops[..k]) <= FramesTaken(ops) && MostPages(ops[..k]) <= MostPages(ops)
    decreases |ops| - k
  {
    if k == |ops| {
      assert ops[..k] == ops;
    } else {
      OneMoreOp(ops, k);
      hide Hit, FramesTaken, MostPages;
      PartOf(ops, k + 1);
    }
  }

  lemma NoOps(ops: seq<Op>)
    ensures Hit(ops[..0]) == {} && FramesTaken(ops[..0]) == 0 && MostPages(ops[..0]) == 0 && NewDirs(ops[..0]) == 0 && SetOf([]) == {}
  {
  }

  lemma StartsReached(p: Paging)
    requires p.Valid() && HomeExcept(p.mem[..], p.Y(), {}) && Sides(p.mem[..], p.Y())
    ensures Reached(p, [], {}, NORMAL_PAGES) && 0 <= p.used
  {
  }

  lemma ReachedFacts(p: Paging, made: seq<int>, hit: set<int>, lowest: int)
    requires Reached(p, made, hit, lowest)
    ensures p.Valid() && HomeExcept(p.mem[..], p.Y(), hit) && lowest <= NORMAL_PAGES
  {
  }

  lemma OneMoreOp(ops: seq<Op>, k: nat)
    requires k < |ops|
    ensures Hit(ops[..k + 1]) == Hit(ops[..k]) + HitBy(ops[k])
    ensures FramesTaken(ops[..k + 1]) == FramesTaken(ops[..k]) + if ops[k].NewDirectory? then 0 else 1
    ensures MostPages(ops[..k + 1]) == MostPages(ops[..k]) + PagesFor(ops[k])
    ensures NewDirs(ops[..k + 1]) == NewDirs(ops[..k]) + if ops[k].NewDirectory? then 1 else 0
  {
    assert ops[..k + 1][..k] == ops[..k];
  }

  lemma AllHome(m: Memory, y: Layout)
    requires TablesOk(m, y) && LinearOk(m, y)
    ensures HomeExcept(m, y, {})
  {
    hide EntriesOk, HighOk, Unshared, Home;
  }

  /** The machine before phy_mem_init: zeroed kernel data, and an available range that reaches MEM_NORMAL. */
  ghost predicate BeforeBoot(p: Paging, kernEnd: Word, start: Word, end: Word)
    reads p, p.mem, p.kvm, p.kvm.blocks, p.frames, p.frames.slots
  {
    && p.mem.Length == NORMAL_PAGES * ENTRIES && p.kvm.Valid() && p.mem != p.frames.slots
    && p.frames.Valid() && p.frames.header == 0 && p.frames.pageCount == 0
    && ImageFrames(p.kdir, p.ktbl) && (forall i :: 0 <= i < ENTRIES ==> Ent(p.mem[..], p.kdir, i) == 0)
    && (forall i :: 0 <= i < KernelPages.NVMBLOCKS ==> p.kvm.blocks[i] == KernelPages.Block(0, 0))
    && KERNBASE + (p.kdir + 1) * PGSIZE <= kernEnd && KERNBASE + (p.ktbl + ENTRIES) * PGSIZE <= kernEnd
    && 0 < PageUp(start) <= PageDown(end) && MEM_NORMAL <= PageDown(end)
    && var order := FrameStack.PushOrder(PageUp(start), PageDown(end));
       |order| < p.frames.slots.Length && kernEnd + |order| * 4 < KERNBASE + MEM_NORMAL
  }

  /** The pages in use when kvm_init is done: the image and the frame stack. */
  function BootUsed(kernEnd: Word, start: Word, end: Word): int {
    (kernEnd + |FrameStack.PushOrder(PageUp(start), PageDown(end))| * 4 - KERNBASE) / PGSIZE + 1
  }

  /** The same from boot: kpgdir is the one directory at first, the frames are those of the range above the
      linear part, and the budget can be read off the machine before phy_mem_init. */
  method BootAndRun(p: Paging, kernEnd: Word, start: Word, end: Word, ops: seq<Op>)
    returns (done: nat, how: End, left: int, made: seq<int>)
    requires BeforeBoot(p, kernEnd, start, end)
    modifies p, p.mem, p.kvm.blocks, p.frames, p.frames.slots
    ensures old(Budget(p, ops, BootUsed(kernEnd, start, end), HighCount(PageUp(start), PageDown(end)), p.mem[..])) ==> how.Finished?
    ensures done <= |ops| && (how.Finished? ==> done == |ops|)
    ensures how.Panicked? ==>
      done < |ops| && MayPanic(p, ops[done], left) && left >= NORMAL_PAGES - BootUsed(kernEnd, start, end) - MostPages(ops[..done])
    ensures !how.Panicked? ==>
      && p.Valid()
      && HomeExcept(p.mem[..], p.Y(), Hit(ops[..done]))
      && HalfShared(p.mem[..], p.Y()) && UserHalf(p.mem[..], p.Y())
      && NoAlias(p.mem[..], p.Y(), p.frames.Pushed())
      && HighCount(PageUp(start), PageDown(end)) == |p.frames.Pushed()| + FramesTaken(ops[..done])
      && BootUsed(kernEnd, start, end) <= p.used <= BootUsed(kernEnd, start, end) + MostPages(ops[..done])
      && p.dirs == {p.kdir} + SetOf(made)
      && |made| == NewDirs(ops[..done]) - (if how.DirtyDirectory? then 1 else 0)
      && (forall j, k :: 0 <= j < k < |made| ==> made[j] < made[k])
    ensures how.OutOfFrames? ==> done < |ops| && !ops[done].NewDirectory? && p.frames.Pushed() == []
    ensures how.KernelPageMoved? ==> done < |ops| && exists q :: q in Hit(ops[..done]) && q < p.used + 3
    ensures how.DirtyDirectory? ==>
      done > 0 && ops[done - 1].NewDirectory? && 1 <= p.used <= NORMAL_PAGES && !EmptyBelow(p.mem[..], p.used - 1)
  {
    hide HomeExcept, HalfShared, NoAlias, Sides, UserHalf, TablesOk, LeavesOk, LinearOk, Ent, Budget, HighCount, EmptyBelow, FreshKept, SetOf;
    hide FrameStack.PushOrder;
    ghost var m: Memory := p.mem[..];
    p.Boot(kernEnd, start, end);
    BudgetCarries(p, ops, p.used, HighCount(PageUp(start), PageDown(end)), m, p.mem[..]);
    done, how, left, made := Run(p, ops);
  }

  /** Boot writes to no page that is not in use afterwards. */
  lemma BudgetCarries(p: Paging, ops: seq<Op>, used: int, frames: int, m: Memory, n: Memory)
    requires 0 <= used && FreshKept(m, n, used)
    ensures Budget(p, ops, used, frames, m) ==> Budget(p, ops, used, frames, n)
  {
    hide EmptyBelow, FreshKept, Hit, MostPages, FramesTaken;
    forall f | used <= f < NORMAL_PAGES
      ensures EmptyBelow(n, f) <==> EmptyBelow(m, f)
    {
      FreshLater(m, n, used, f);
      StillEmpty(m, n, f);
    }
  }

  /** The run that breaks the linear map: after boot one page fault at 0xC0000000, which any user access there
      raises, and every directory sees a user frame where the kernel's first page was. */
  method FaultAtKernbase(p: Paging) returns (ok: bool)
    requires p.Valid() && LinearOk(p.mem[..], p.Y()) && p.frames.Pushed() != []
    modifies p.mem, p.kvm.blocks, p`tables, p`used, p.frames`header
    ensures ok && p.Valid() && !LinearOk(p.mem[..], p.Y())
    ensures forall d :: d in p.dirs ==>
      0 <= d < NORMAL_PAGES && Walk(p.mem[..], d, KERNBASE) == Some(Top(old(p.frames.Pushed())) + PTE_P + PTE_W)
    ensures Top(old(p.frames.Pushed())) >= MEM_NORMAL
  {
    hide LeavesOk, Walk, KernelPages.Prefix, Ent, Home, LinearSet, SameElsewhere, EntriesOk, HighOk, Unshared;
    ghost var m: Memory, y := p.mem[..], p.Y();
    FrameOnTop(m, y, p.frames.Pushed());
    EntryShape(m, y, y.kdir, KERN_PDX);
    ok := p.PageFault(p.kdir, KERNBASE, false);
    AllShareLinear(p.mem[..], p.Y());
  }

  /** That state is reached from boot. */
  method BootAndFault(p: Paging, kernEnd: Word, start: Word, end: Word) returns (ok: bool)
    requires BeforeBoot(p, kernEnd, start, end)
    modifies p, p.mem, p.kvm.blocks, p.frames, p.frames.slots
    ensures ok && p.Valid() && !LinearOk(p.mem[..], p.Y())
    ensures 0 <= p.kdir < NORMAL_PAGES && Walk(p.mem[..], p.kdir, KERNBASE) != Some(PTE_P + PTE_W)
  {
    hide LeavesOk, LinearOk, Ent, Walk, EntriesOk, HighOk, Unshared, FrameStack.PushOrder;
    p.Boot(kernEnd, start, end);
    assert PageDown(end) in p.frames.Pushed();
    ok := FaultAtKernbase(p);
  }
}
