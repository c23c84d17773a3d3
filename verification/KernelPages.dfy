// mm/vmmgr.c: the USED/MAPPED state of the kernel's virtual pages.

module KernelPages {
  import opened Machine

  const NVMBLOCKS: int := KERNSIZE / PGSIZE

  const VM_USED: bv8 := 1
  const VM_MAPPED: bv8 := 2

  // ~VM_MAPPED expands to ~1 << 1, so the mask clears both bits.
  const NOT_USED: bv8 := 0xFE
  const NOT_MAPPED: bv8 := 0xFC

  datatype Block = Block(address: Word, status: bv8)

  predicate Mapped(b: Block) {
    b.status & VM_MAPPED != 0
  }

  predicate Used(b: Block) {
    b.status & VM_USED != 0
  }

  predicate Available(b: Block) {
    Mapped(b) && !Used(b)
  }

  function AddressOf(i: int): Word
    requires 0 <= i < NVMBLOCKS
  {
    KERNBASE + i * PGSIZE
  }

  /** The pages kvm_alloc_page can hand out, in the order it will. */
  function FreeFrom(bs: seq<Block>, i: nat): seq<int>
    decreases |bs| - i
  {
    if i >= |bs| then []
    else (if Available(bs[i]) then [bs[i].address] else []) + FreeFrom(bs, i + 1)
  }

  lemma {:induction false} FreeSkip(bs: seq<Block>, i: nat, k: nat)
    requires i <= k <= |bs| && forall j :: i <= j < k ==> !Available(bs[j])
    ensures FreeFrom(bs, i) == FreeFrom(bs, k)
    decreases k - i
  {
    if i < k {
      FreeSkip(bs, i + 1, k);
    }
  }

  lemma {:induction false} FreeSame(bs: seq<Block>, cs: seq<Block>, i: nat)
    requires |bs| == |cs| && forall j :: i <= j < |bs| ==> bs[j] == cs[j]
    ensures FreeFrom(bs, i) == FreeFrom(cs, i)
    decreases |bs| - i
  {
    if i < |bs| {
      FreeSame(bs, cs, i + 1);
    }
  }

  /** Taking the first available page takes the head of the list. */
  lemma FreeTake(bs: seq<Block>, i: nat)
    requires i < |bs| && Available(bs[i]) && forall j :: 0 <= j < i ==> !Available(bs[j])
    ensures var cs := bs[i := bs[i].(status := bs[i].status | VM_USED)];
      FreeFrom(bs, 0) == [bs[i].address] + FreeFrom(cs, 0)
  {
    var cs := bs[i := bs[i].(status := bs[i].status | VM_USED)];
    assert !Available(cs[i]);
    FreeSkip(bs, 0, i);
    FreeSkip(cs, 0, i + 1);
    FreeSame(bs, cs, i + 1);
  }

  /** The table once the kernel has booted and nothing has been given back: the first f pages are in
      use, the rest of the linear map is free, and nothing above it is mapped. */
  ghost predicate Prefix(bs: seq<Block>, f: int) {
    && |bs| == NVMBLOCKS
    && 0 <= f <= NORMAL_PAGES
    && forall i :: 0 <= i < NVMBLOCKS ==>
      bs[i] == Block(AddressOf(i), if i < f then 3 else if i < NORMAL_PAGES then 2 else 0)
  }

  /** The addresses of the pages from i to the end of the linear map. */
  function PagesFrom(i: int): (s: seq<int>)
    requires 0 <= i
    decreases NORMAL_PAGES - i
  {
    if i >= NORMAL_PAGES then [] else [AddressOf(i)] + PagesFrom(i + 1)
  }

  lemma {:induction false} PagesFromAt(i: int, k: int)
    requires 0 <= i && 0 <= k < NORMAL_PAGES - i
    ensures |PagesFrom(i)| == NORMAL_PAGES - i && PagesFrom(i)[k] == AddressOf(i + k)
    decreases NORMAL_PAGES - i
  {
    if i + 1 < NORMAL_PAGES {
      PagesFromAt(i + 1, if k == 0 then 0 else k - 1);
    }
  }

  lemma {:induction false} PrefixFreeFrom(bs: seq<Block>, f: int, i: nat)
    requires Prefix(bs, f) && f <= i <= NORMAL_PAGES
    ensures FreeFrom(bs, i) == PagesFrom(i)
    decreases NORMAL_PAGES - i
  {
    if i < NORMAL_PAGES {
      PrefixFreeFrom(bs, f, i + 1);
      assert Available(bs[i]);
    } else {
      assert forall j :: i <= j < |bs| ==> !Available(bs[j]);
      FreeSkip(bs, i, |bs|);
    }
  }

  /** After boot the free pages are exactly those from f to the end of the linear map, lowest first. */
  lemma PrefixFree(bs: seq<Block>, f: int)
    requires Prefix(bs, f)
    ensures FreeFrom(bs, 0) == PagesFrom(f)
  {
    assert forall j :: 0 <= j < f ==> !Available(bs[j]);
    FreeSkip(bs, 0, f);
    PrefixFreeFrom(bs, f, f);
  }

  /** The table after kmap_init: the linear map is mapped, and nothing is in use. */
  ghost predicate LinearlyMapped(bs: seq<Block>) {
    |bs| == NVMBLOCKS &&
    forall i :: 0 <= i < NVMBLOCKS ==> bs[i] == if i < NORMAL_PAGES then Block(AddressOf(i), 2) else Block(0, 0)
  }

  /** What kvm_init makes of block i. */
  function InitBlock(i: int, b: Block, kernAddr: Word): Block
    requires 0 <= i < NVMBLOCKS
  {
    Block(AddressOf(i), if P2V(i * PGSIZE) <= kernAddr then b.status | 3 else b.status)
  }

  /** kvm_init after kmap_init: the pages up to the one kernAddr lies in are in use, the rest is free. */
  lemma InitMakesPrefix(bs: seq<Block>, cs: seq<Block>, kernAddr: Word)
    requires LinearlyMapped(bs) && |cs| == NVMBLOCKS && KERNBASE <= kernAddr < KERNBASE + MEM_NORMAL
    requires forall i :: 0 <= i < NVMBLOCKS ==> cs[i] == InitBlock(i, bs[i], kernAddr)
    ensures Prefix(cs, (kernAddr - KERNBASE) / PGSIZE + 1)
  {
    var f := (kernAddr - KERNBASE) / PGSIZE + 1;
    forall i | 0 <= i < NVMBLOCKS
      ensures P2V(i * PGSIZE) <= kernAddr <==> i < f
    {
    }
  }

  // ---- What kvm_init reserves ----

  /** virt_kern_addr(): the end of the kernel image plus four bytes a pushed frame. */
  function KernAddr(kernEnd: Word, count: nat): int {
    kernEnd + count * 4
  }

  /** Address a lies in a page that kvm_init marks USED. */
  predicate Reserved(a: int, kernAddr: int) {
    a / PGSIZE * PGSIZE <= kernAddr
  }

  /** The pages kvm_init marks cover the image up to kernEnd and every free-list slot 1..count that
      phy_mem_init wrote, if and only if the last slot does not cross the page kernAddr lies in;
      a 4-aligned kernEnd is enough. */
  lemma StorageIsReserved(kernEnd: Word, count: nat)
    requires KERNBASE <= kernEnd && count > 0
    ensures forall a :: KERNBASE <= a <= KernAddr(kernEnd, count) ==> Reserved(a, KernAddr(kernEnd, count))
    ensures (forall a :: kernEnd + 4 <= a < kernEnd + 4 * count + 4 ==> Reserved(a, KernAddr(kernEnd, count)))
            <==> KernAddr(kernEnd, count) % PGSIZE <= PGSIZE - 4
    ensures kernEnd % 4 == 0 ==> KernAddr(kernEnd, count) % PGSIZE <= PGSIZE - 4
  {
    var e := KernAddr(kernEnd, count);
    ReservedUpTo(e);
    LastSlot(e);
    Aligned(kernEnd, count);
    hide Reserved, KernAddr;
    if e % PGSIZE > PGSIZE - 4 {
      assert !Reserved(e + 3, e);
    }
  }

  /** An image that ends one byte behind a page start, and 1023 frames: the last slot crosses into a page that
      is not reserved. */
  lemma StorageCanMiss()
    ensures var kernEnd, count := KERNBASE + 0x10_0001, 1023;
      && kernEnd + 4 <= kernEnd + 4 * count + 3 < kernEnd + 4 * count + 4
      && !Reserved(kernEnd + 4 * count + 3, KernAddr(kernEnd, count))
  {
  }

  lemma ReservedUpTo(e: int)
    requires 0 <= e
    ensures forall a :: 0 <= a <= e ==> Reserved(a, e)
  {
    forall a | 0 <= a <= e
      ensures Reserved(a, e)
    {
      PageStart(a);
    }
  }

  lemma PageStart(a: int)
    ensures a - PGSIZE < a / PGSIZE * PGSIZE <= a && a / PGSIZE * PGSIZE == a - a % PGSIZE
  {
  }

  /** The three bytes behind e lie in a reserved page exactly when they lie in e's. */
  lemma LastSlot(e: int)
    requires 0 <= e
    ensures e % PGSIZE <= PGSIZE - 4 ==> forall a :: e < a < e + 4 ==> Reserved(a, e)
    ensures e % PGSIZE > PGSIZE - 4 ==> !Reserved(e + 3, e)
  {
    if e % PGSIZE <= PGSIZE - 4 {
      forall a | e < a < e + 4
        ensures Reserved(a, e)
      {
        SamePage(e, a);
      }
    } else {
      NextPageStart(e);
    }
  }

  lemma SamePage(e: int, a: int)
    requires 0 <= e < a && e % PGSIZE + (a - e) < PGSIZE
    ensures a / PGSIZE * PGSIZE == e - e % PGSIZE
  {
    var q := e / PGSIZE;
    assert a == q * PGSIZE + (e % PGSIZE + (a - e));
    assert a / PGSIZE == q;
  }

  lemma NextPageStart(e: int)
    requires 0 <= e && e % PGSIZE > PGSIZE - 4
    ensures (e + 3) / PGSIZE * PGSIZE > e
  {
    var q := e / PGSIZE;
    assert e + 3 >= (q + 1) * PGSIZE;
    assert (e + 3) / PGSIZE >= q + 1;
  }

  lemma Aligned(kernEnd: int, count: nat)
    ensures kernEnd >= 0 && kernEnd % 4 == 0 ==> (kernEnd + count * 4) % PGSIZE <= PGSIZE - 4
  {
    var e := (kernEnd + count * 4);
    if kernEnd % 4 == 0 {
      var j, q, r := kernEnd / 4 + count, e / PGSIZE, e % PGSIZE;
      assert r == 4 * (j - 1024 * q);
    }
  }

  class KernelPages {
    const blocks: array<Block>

    ghost predicate Valid()
      reads this, blocks
    {
      blocks.Length == NVMBLOCKS
    }

    function FreePages(): seq<int>
      reads this, blocks
    {
      FreeFrom(blocks[..], 0)
    }

    /** The static table: all zero before kmap_init. */
    constructor ()
      ensures Valid() && fresh(blocks)
      ensures forall i :: 0 <= i < NVMBLOCKS ==> blocks[i] == Block(0, 0)
    {
      blocks := new Block[NVMBLOCKS](_ => Block(0, 0));
    }

    /** kvm_init. */
    method Init(kernAddr: Word)
      requires Valid()
      modifies blocks
      ensures forall i :: 0 <= i < NVMBLOCKS ==> blocks[i] == InitBlock(i, old(blocks[i]), kernAddr)
    {
      var i := 0;
      while i < NVMBLOCKS
        invariant 0 <= i <= NVMBLOCKS
        invariant forall j :: 0 <= j < i ==> blocks[j] == InitBlock(j, old(blocks[j]), kernAddr)
        invariant forall j :: i <= j < NVMBLOCKS ==> blocks[j] == old(blocks[j])
      {
        var addr := P2V(i * PGSIZE);
        blocks[i] := blocks[i].(address := KERNBASE + i * PGSIZE);
        if addr <= kernAddr {
          blocks[i] := blocks[i].(status := blocks[i].status | (VM_USED | VM_MAPPED));
        }
        i := i + 1;
      }
    }

    /** kvm_alloc_page; None is its panic. */
    method AllocPage() returns (r: Option<Word>)
      requires Valid()
      modifies blocks
      ensures old(FreePages()) == [] ==> r == None && blocks[..] == old(blocks[..])
      ensures old(FreePages()) != [] ==>
        && r == Some(old(FreePages())[0])
        && FreePages() == old(FreePages())[1..]
        && exists i :: 0 <= i < NVMBLOCKS && Available(old(blocks[i])) && old(blocks[i].address) == r.value
                       && blocks[..] == old(blocks[..])[i := old(blocks[i]).(status := old(blocks[i].status) | VM_USED)]
      ensures forall f :: old(Prefix(blocks[..], f)) && f < NORMAL_PAGES ==>
        r == Some(AddressOf(f)) && Prefix(blocks[..], f + 1)
    {
      var i := 0;
      while i < NVMBLOCKS
        invariant 0 <= i <= NVMBLOCKS
        invariant forall j :: 0 <= j < i ==> !Available(blocks[j])
        invariant blocks[..] == old(blocks[..])
      {
        var status := blocks[i].status;
        if status & VM_MAPPED != 0 && !(status & VM_USED != 0) {
          FreeTake(blocks[..], i);
          blocks[i] := blocks[i].(status := blocks[i].status | VM_USED);
          assert blocks[..] == old(blocks[..])[i := old(blocks[i]).(status := old(blocks[i].status) | VM_USED)];
          r := Some(blocks[i].address);
          forall f | old(Prefix(blocks[..], f)) && f < NORMAL_PAGES
            ensures r == Some(AddressOf(f)) && Prefix(blocks[..], f + 1)
          {
            TakeFromPrefix(old(blocks[..]), f, i);
          }
          return;
        }
        i := i + 1;
      }
      FreeSkip(blocks[..], 0, NVMBLOCKS);
      assert forall f :: Prefix(blocks[..], f) && f < NORMAL_PAGES ==> Available(blocks[f]);
      r := None;
    }

    /** kvm_alloc_umapped_page: the first page that is not mapped, left as it is; None is its panic. */
    method AllocUnmappedPage() returns (r: Option<Word>)
      requires Valid()
      ensures r.None? <==> forall i :: 0 <= i < NVMBLOCKS ==> Mapped(blocks[i])
      ensures r.Some? ==> exists i :: 0 <= i < NVMBLOCKS && !Mapped(blocks[i]) && r.value == blocks[i].address
                                      && forall j :: 0 <= j < i ==> Mapped(blocks[j])
      ensures forall f :: Prefix(blocks[..], f) ==> r == Some(KERNBASE + MEM_NORMAL)
    {
      var i := 0;
      while i < NVMBLOCKS
        invariant 0 <= i <= NVMBLOCKS
        invariant forall j :: 0 <= j < i ==> Mapped(blocks[j])
      {
        if blocks[i].status & VM_MAPPED != 0 {
          i := i + 1;
          continue;
        }
        r := Some(blocks[i].address);
        forall f | Prefix(blocks[..], f)
          ensures r == Some(KERNBASE + MEM_NORMAL)
        {
          FirstUnmapped(blocks[..], f, i);
        }
        return;
      }
      assert forall f :: Prefix(blocks[..], f) ==> !Mapped(blocks[NORMAL_PAGES]);
      r := None;
    }

    /** kvm_free_page; false is its panic for an address below the kernel. */
    method FreePage(addr: Word) returns (ok: bool)
      requires Valid()
      modifies blocks
      ensures ok <==> KERNBASE <= addr
      ensures forall i :: 0 <= i < NVMBLOCKS ==>
        blocks[i] ==
          if ok && i == (addr - KERNBASE) / PGSIZE
          then Block(if old(blocks[i].address) == 0 then AddressOf(i) else old(blocks[i].address),
                     old(blocks[i].status) & NOT_USED)
          else old(blocks[i])
    {
      var offset: Word := V2P(addr);
      if offset >= KERNSIZE {
        return false;
      }
      var idx := offset / PGSIZE;
      if blocks[idx].address == 0 {
        blocks[idx] := blocks[idx].(address := P2V(idx * PGSIZE));
      }
      blocks[idx] := blocks[idx].(status := blocks[idx].status & NOT_USED);
      ok := true;
    }

    /** kvm_unmap_page: the mask it uses clears USED as well. */
    method UnmapPage(addr: Word) returns (ok: bool)
      requires Valid()
      modifies blocks
      ensures ok <==> KERNBASE <= addr
      ensures forall i :: 0 <= i < NVMBLOCKS ==>
        if ok && i == (addr - KERNBASE) / PGSIZE
        then !Mapped(blocks[i]) && !Used(blocks[i]) && blocks[i].address == old(blocks[i].address)
        else blocks[i] == old(blocks[i])
    {
      var offset: Word := V2P(addr);
      if offset >= KERNSIZE {
        return false;
      }
      blocks[offset / PGSIZE] := blocks[offset / PGSIZE].(status := blocks[offset / PGSIZE].status & NOT_MAPPED);
      ok := true;
    }

    /** kvm_map_page. */
    method MapPage(addr: Word) returns (ok: bool)
      requires Valid()
      modifies blocks
      ensures ok <==> KERNBASE <= addr
      ensures forall i :: 0 <= i < NVMBLOCKS ==>
        blocks[i] ==
          if ok && i == (addr - KERNBASE) / PGSIZE
          then old(blocks[i]).(status := old(blocks[i].status) | VM_MAPPED)
          else old(blocks[i])
    {
      var offset: Word := V2P(addr);
      if offset >= KERNSIZE {
        return false;
      }
      blocks[offset / PGSIZE] := blocks[offset / PGSIZE].(status := blocks[offset / PGSIZE].status | VM_MAPPED);
      ok := true;
    }
  }

  lemma TakeFromPrefix(bs: seq<Block>, f: int, i: nat)
    requires Prefix(bs, f) && f < NORMAL_PAGES
    requires i < |bs| && Available(bs[i]) && forall j :: 0 <= j < i ==> !Available(bs[j])
    ensures i == f && bs[i].address == AddressOf(f)
    ensures Prefix(bs[i := bs[i].(status := bs[i].status | VM_USED)], f + 1)
  {
    assert Available(bs[f]);
    assert forall j :: 0 <= j < f ==> Used(bs[j]);
  }

  lemma FirstUnmapped(bs: seq<Block>, f: int, i: nat)
    requires Prefix(bs, f)
    requires i < |bs| && !Mapped(bs[i]) && forall j :: 0 <= j < i ==> Mapped(bs[j])
    ensures i == NORMAL_PAGES && bs[i].address == KERNBASE + MEM_NORMAL
  {
    assert !Mapped(bs[NORMAL_PAGES]);
    assert forall j :: 0 <= j < NORMAL_PAGES ==> Mapped(bs[j]);
  }
}
