// mm/memory.c: the stack of free physical frames.

module FrameStack {
  import opened Machine

  /** The frame addresses from `end` down to `start`, in the order phy_mem_init pushes them. */
  function PushOrder(start: Word, end: int): seq<int>
    decreases end - start
  {
    if end < start then [] else [end] + PushOrder(start, end - PGSIZE)
  }

  lemma {:induction false} PushOrderAt(start: Word, end: int, k: int)
    requires start <= end && (end - start) % PGSIZE == 0 && 0 <= k < |PushOrder(start, end)|
    ensures |PushOrder(start, end)| == (end - start) / PGSIZE + 1
    ensures PushOrder(start, end)[k] == end - k * PGSIZE
    decreases end - start
  {
    if end - PGSIZE < start {
      assert PushOrder(start, end - PGSIZE) == [];
    } else {
      PushOrderAt(start, end - PGSIZE, if k == 0 then 0 else k - 1);
    }
  }

  lemma OrderStep(start: Word, end: int)
    requires start <= end
    ensures PushOrder(start, end) == [end] + PushOrder(start, end - PGSIZE)
  {
  }

  lemma OrderEnds(start: Word, end: int)
    requires end < start
    ensures PushOrder(start, end) == []
  {
  }

  lemma Rounded(a: Word)
    requires a % PGSIZE == 0
    ensures PageDown(a) == a && (a > 0 ==> a >= PGSIZE) && (a - PGSIZE) % PGSIZE == 0
  {
  }

  lemma Regroup(a: seq<Word>, x: Word, b: seq<int>)
    ensures (a + [x]) + b == a + ([x] + b)
  {
  }

  class FrameStack {
    // Slot 0 exists but is never pushed: header starts at 0 and a push increments it first.
    const slots: array<Word>
    var header: int
    var pageCount: int

    ghost predicate Valid()
      reads this
    {
      -1 <= header < slots.Length
    }

    /** The frames pushed and not yet popped, the top one last. */
    function Pushed(): seq<Word>
      reads this, slots
      requires Valid()
    {
      if header <= 0 then [] else slots[1..header + 1]
    }

    /** The static structure, with free_list pointing at enough storage for `capacity` pushes. */
    constructor (capacity: nat)
      ensures Valid() && fresh(slots) && header == 0 && pageCount == 0 && slots.Length == capacity + 1
    {
      slots := new Word[capacity + 1](_ => 0);
      header := 0;
      pageCount := 0;
    }

    /** phy_mem_free. */
    method Free(addr: Word)
      requires Valid() && header + 1 < slots.Length
      modifies this`header, slots
      ensures Valid() && header == old(header) + 1
      ensures slots[header] == PageDown(addr)
      ensures forall i :: 0 <= i < slots.Length && i != header ==> slots[i] == old(slots[i])
      ensures old(header) >= 0 ==> Pushed() == old(Pushed()) + [PageDown(addr)]
    {
      header := header + 1;
      slots[header] := PageDown(addr);
    }

    /** phy_mem_alloc: the top frame while one has been pushed; the never-pushed slot 0 once; then NULL. */
    method Alloc() returns (addr: Word)
      requires Valid()
      modifies this`header
      ensures Valid()
      ensures old(header) < 0 ==> addr == 0 && header == old(header)
      ensures old(header) >= 0 ==> addr == slots[old(header)] && header == old(header) - 1
      ensures old(Pushed()) != [] ==>
        old(Pushed()) == Pushed() + [addr]
    {
      if header < 0 {
        return 0;
      }
      addr := slots[header];
      header := header - 1;
    }

    /** phy_mem_init from the two bounds of the available range on. */
    method Init(start: Word, end: Word)
      requires Valid() && header == 0 && pageCount == 0
      requires 0 < PageUp(start) && |PushOrder(PageUp(start), PageDown(end))| < slots.Length
      modifies this`header, this`pageCount, slots
      ensures Valid() && header == pageCount
      ensures Pushed() == PushOrder(PageUp(start), PageDown(end))
    {
      var startAddr, endAddr := PageUp(start), PageDown(end);
      ghost var all := PushOrder(startAddr, endAddr);
      assert Pushed() == [];
      hide Pushed, PushOrder, PageUp, PageDown;
      while endAddr >= startAddr
        invariant Valid() && header == pageCount && 0 <= header <= |all|
        invariant endAddr % PGSIZE == 0
        invariant Pushed() + PushOrder(startAddr, endAddr) == all
        invariant header + |PushOrder(startAddr, endAddr)| == |all| < slots.Length
        decreases endAddr
      {
        OrderStep(startAddr, endAddr);
        Rounded(endAddr);
        ghost var before := Pushed();
        Free(endAddr);
        Regroup(before, endAddr, PushOrder(startAddr, endAddr - PGSIZE));
        endAddr := endAddr - PGSIZE;
        pageCount := pageCount + 1;
      }
      OrderEnds(startAddr, endAddr);
    }

    /** The drain in kmap_init: pop every frame of the linear map, and push back the first one above it.
        The loop ends only because some slot still holds a frame above the linear map; it makes exactly as
        many pops as it takes to reach the first one. */
    method Drain()
      requires Valid() && exists i :: 0 <= i <= header && slots[i] >= MEM_NORMAL
      modifies this`header, slots
      ensures Valid() && 0 <= header <= old(header)
      ensures old(slots[..])[header] >= MEM_NORMAL && slots[header] == PageDown(old(slots[..])[header])
      ensures forall i :: header < i <= old(header) ==> old(slots[..])[i] < MEM_NORMAL
      ensures forall i :: 0 <= i < slots.Length && i != header ==> slots[i] == old(slots[i])
      ensures FirstHigh(old(slots[..]), old(header), old(header) - header + 1)
    {
      hide PageDown, PushOrder, Pushed;
      ghost var s, top := slots[..], header;
      ghost var high :| 0 <= high <= header && s[high] >= MEM_NORMAL;
      var addr: Word := 0;
      while addr < MEM_NORMAL
        invariant -1 <= header <= top && slots[..] == s
        invariant addr < MEM_NORMAL ==> high <= header && LowAbove(s, header, top)
        invariant addr >= MEM_NORMAL ==> header < top && addr == s[header + 1] && LowAbove(s, header + 1, top)
        decreases header, addr < MEM_NORMAL
      {
        addr := Alloc();
      }
      PutBack(addr, s);
      FirstHighIs(s, top, header);
    }

    /** The push that ends the drain; the test around it always holds. */
    method PutBack(addr: Word, ghost s: seq<Word>)
      requires Valid() && slots[..] == s && header + 1 < |s| && addr == s[header + 1] && addr >= MEM_NORMAL
      modifies this`header, slots
      ensures Valid() && header == old(header) + 1
      ensures slots[..] == s[header := PageDown(s[header])]
    {
      if addr >= MEM_NORMAL {
        Free(addr);
      }
    }

    /** virt_kern_addr, given where the kernel image ends. */
    function VirtKernAddr(kernEnd: Word): int
      reads this
    {
      kernEnd + pageCount * 4
    }
  }

  /** The slots between h and top hold frames of the linear map. */
  ghost predicate LowAbove(s: seq<Word>, h: int, top: int)
    requires -1 <= h && top < |s|
  {
    forall i :: h < i <= top ==> s[i] < MEM_NORMAL
  }

  /** The value of the n-th pop in a row, counting from 1. */
  function PopValue(slots: seq<Word>, header: int, n: int): Word
    requires -1 <= header < |slots| && n >= 1
  {
    if header - n + 1 >= 0 then slots[header - n + 1] else 0
  }

  /** The n-th pop is the first to give a frame above the linear map. */
  ghost predicate FirstHigh(slots: seq<Word>, header: int, n: int)
    requires -1 <= header < |slots|
  {
    n >= 1 && PopValue(slots, header, n) >= MEM_NORMAL && forall k :: 1 <= k < n ==> PopValue(slots, header, k) < MEM_NORMAL
  }

  lemma FirstHighIs(slots: seq<Word>, top: int, h: int)
    requires 0 <= h <= top < |slots| && slots[h] >= MEM_NORMAL && LowAbove(slots, h, top)
    ensures FirstHigh(slots, top, top - h + 1)
  {
  }

  /** n calls of phy_mem_alloc in a row give the values PopValue names, the NULLs at the end included. */
  method Pops(stack: FrameStack, n: nat) returns (addrs: seq<Word>)
    requires stack.Valid()
    modifies stack`header
    ensures stack.Valid() && |addrs| == n
    ensures forall k :: 0 <= k < n ==> addrs[k] == PopValue(stack.slots[..], old(stack.header), k + 1)
  {
    addrs := [];
    ghost var top := stack.header;
    for i := 0 to n
      invariant stack.Valid() && |addrs| == i
      invariant stack.header == if top - i >= -1 then top - i else -1
      invariant forall k :: 0 <= k < i ==> addrs[k] == PopValue(stack.slots[..], top, k + 1)
    {
      var addr := stack.Alloc();
      addrs := addrs + [addr];
    }
  }

  /** The drain loop has a first high pop to stop at if and only if a slot up to header holds a high frame;
      otherwise every pop is low and it goes on for ever. */
  lemma DrainEndsExactly(slots: seq<Word>, header: int)
    requires -1 <= header < |slots|
    ensures (exists n :: FirstHigh(slots, header, n)) <==> (exists i :: 0 <= i <= header && slots[i] >= MEM_NORMAL)
    ensures (exists n :: FirstHigh(slots, header, n)) || forall n :: n >= 1 ==> PopValue(slots, header, n) < MEM_NORMAL
  {
    if i :| 0 <= i <= header && slots[i] >= MEM_NORMAL {
      Topmost(slots, header, i);
    }
  }

  lemma {:induction false} Topmost(slots: seq<Word>, header: int, i: int)
    requires 0 <= i <= header < |slots| && slots[i] >= MEM_NORMAL
    ensures exists n :: FirstHigh(slots, header, n)
    decreases header - i
  {
    if LowAbove(slots, i, header) {
      FirstHighIs(slots, header, i);
    } else {
      var j :| i < j <= header && slots[j] >= MEM_NORMAL;
      Topmost(slots, header, j);
    }
  }

  lemma InPushOrder(start: Word, end: Word, a: int)
    requires start % PGSIZE == 0 && end % PGSIZE == 0 && start <= end
    ensures a in PushOrder(start, end) <==> a % PGSIZE == 0 && start <= a <= end
  {
    var s := PushOrder(start, end);
    PushOrderAt(start, end, 0);
    if a % PGSIZE == 0 && start <= a <= end {
      PushOrderAt(start, end, (end - a) / PGSIZE);
      assert s[(end - a) / PGSIZE] == a;
    }
    if a in s {
      var k :| 0 <= k < |s| && s[k] == a;
      PushOrderAt(start, end, k);
    }
  }

  /** What is left of the boot stack after the drain: exactly the frames above the linear map, because
      phy_mem_init leaves the lowest address on top. */
  lemma DrainKeepsHighFrames(start: Word, end: Word, n: nat, a: int)
    requires start % PGSIZE == 0 && end % PGSIZE == 0 && start <= end
    requires var s := PushOrder(start, end);
      && 1 <= n <= |s|
      && s[n - 1] >= MEM_NORMAL
      && forall k :: n <= k < |s| ==> s[k] < MEM_NORMAL
    ensures var s := PushOrder(start, end);
      a in s[..n] <==> a % PGSIZE == 0 && start <= a <= end && MEM_NORMAL <= a
  {
    var s := PushOrder(start, end);
    InPushOrder(start, end, a);
    assert s == s[..n] + s[n..];
    PushOrderAt(start, end, n - 1);
    if a in s[..n] {
      var k :| 0 <= k < n && s[..n][k] == a;
      PushOrderAt(start, end, k);
    }
  }

  /** Frames are pushed once each. */
  lemma PushedOnce(start: Word, end: Word, j: int, k: int)
    requires start % PGSIZE == 0 && end % PGSIZE == 0 && start <= end
    requires 0 <= j < k < |PushOrder(start, end)|
    ensures PushOrder(start, end)[j] > PushOrder(start, end)[k]
  {
    PushOrderAt(start, end, j);
    PushOrderAt(start, end, k);
  }
}
