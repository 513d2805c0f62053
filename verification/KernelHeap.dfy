/** The kernel heap (src/heap.rs): first fit with splitting, a full coalescing pass on
    every free, growth page by page. */
module KernelHeap {
  import opened Base
  import opened Blocks

  const HEAP_START: int := 0x0050_0000
  const INITIAL_PAGES: nat := 256
  const MAX_PAGES: nat := 16384
  const PAGE: nat := 4096
  const HEADER: nat := 16
  const MIN_SPLIT: nat := 16
  const U32: int := 0x1_0000_0000

  /** size as u32, plus 7, rounded down to a multiple of 8: all in 32 bits. */
  function Rounded(size: nat): (r: nat)
    ensures r % 8 == 0 && r < 0x1_0000_0000
  {
    (size % U32 + 7) % U32 / 8 * 8
  }

  /** The rounded size is big enough exactly up to 2^32 - 8. */
  lemma RoundedFits(size: nat)
    requires size > 0
    ensures Rounded(size) >= size <==> size <= 0xFFFF_FFF8
    ensures Rounded(size) >= size ==> Rounded(size) < size + 8
  {
  }

  function NeedPages(size: nat): nat {
    var n := (size + HEADER + PAGE - 1) / PAGE;
    if n < 16 then 16 else n
  }

  predicate AlignedBlock(b: Block) {
    b.addr % 8 == 0 && b.size % 8 == 0
  }

  ghost predicate Aligned(bs: seq<Block>) {
    forall i :: 0 <= i < |bs| ==> AlignedBlock(bs[i])
  }

  /** Grants start right behind the header. */
  ghost predicate AtFront(bs: seq<Block>, gs: seq<Option<Grant>>) {
    |gs| == |bs| && forall i :: 0 <= i < |bs| && gs[i].Some? ==> gs[i].value.ptr == bs[i].addr + HEADER
  }

  lemma AlignedAt(bs: seq<Block>, i: nat)
    requires Aligned(bs) && i < |bs|
    ensures AlignedBlock(bs[i]) && Eight(bs[i].addr + HEADER)
  {
  }

  predicate Eight(x: int) { x % 8 == 0 }

  lemma SplitFront(bs: seq<Block>, gs: seq<Option<Grant>>, i: nat, n: nat, g: Grant)
    requires AtFront(bs, gs) && i < |bs| && n + HEADER <= bs[i].size && g.ptr == bs[i].addr + HEADER
    ensures AtFront(Split(bs, HEADER, i, n), gs[..i] + [Some(g), None] + gs[i + 1..])
  {
    var r, rs := Split(bs, HEADER, i, n), gs[..i] + [Some(g), None] + gs[i + 1..];
    forall k | 0 <= k < |r| && rs[k].Some? ensures rs[k].value.ptr == r[k].addr + HEADER {
      if k > i + 1 {
        assert rs[k] == gs[k - 1] && r[k] == bs[k - 1];
      }
    }
  }

  lemma MarkFront(bs: seq<Block>, gs: seq<Option<Grant>>, i: nat, b: Block, g: Option<Grant>)
    requires AtFront(bs, gs) && i < |bs| && b.addr == bs[i].addr && (g.Some? ==> g.value.ptr == b.addr + HEADER)
    ensures AtFront(bs[i := b], gs[i := g])
  {
  }

  lemma SplitAligned(bs: seq<Block>, i: nat, n: nat)
    requires Aligned(bs) && i < |bs| && n + HEADER <= bs[i].size && Eight(n)
    ensures Aligned(Split(bs, HEADER, i, n))
  {
    SplitParts(bs[i], n);
    hide AlignedBlock;
  }

  lemma SplitParts(b: Block, n: nat)
    requires AlignedBlock(b) && n + HEADER <= b.size && Eight(n)
    ensures AlignedBlock(Block(b.addr, n, false)) && AlignedBlock(Block(b.addr + HEADER + n, b.size - n - HEADER, true))
  {
  }

  lemma MarkAligned(bs: seq<Block>, i: nat, free: bool)
    requires Aligned(bs) && i < |bs|
    ensures Aligned(bs[i := bs[i].(free := free)])
  {
    assert AlignedBlock(bs[i].(free := free));
    hide AlignedBlock;
  }

  lemma MergeAligned(bs: seq<Block>, i: nat)
    requires Aligned(bs) && i + 1 < |bs|
    ensures Aligned(Merge(bs, HEADER, i))
  {
    MergeParts(bs[i], bs[i + 1]);
    hide AlignedBlock;
  }

  lemma MergeParts(a: Block, b: Block)
    requires AlignedBlock(a) && AlignedBlock(b)
    ensures AlignedBlock(a.(size := a.size + HEADER + b.size))
  {
  }

  lemma AppendFree(bs: seq<Block>, gs: seq<Option<Grant>>, b: Block)
    requires Aligned(bs) && Owned(bs, HEADER, gs) && AtFront(bs, gs) && b.free && b.addr % 8 == 0 && b.size % 8 == 0
    ensures Aligned(bs + [b]) && Owned(bs + [b], HEADER, gs + [None]) && AtFront(bs + [b], gs + [None]) &&
      Live(gs + [None]) == Live(gs)
  {
    var r, rs := bs + [b], gs + [None];
    forall k | 0 <= k < |r| ensures OwnedAt(r[k], HEADER, rs[k]) {
      if k < |bs| {
        assert OwnedAt(bs[k], HEADER, gs[k]);
      }
    }
    forall x | Some(x) in gs ensures Some(x) in rs {
      var k :| 0 <= k < |gs| && gs[k] == Some(x);
      assert rs[k] == Some(x);
    }
  }

  lemma OwnedFree(bs: seq<Block>, h: nat, gs: seq<Option<Grant>>, i: nat)
    requires Owned(bs, h, gs) && i < |bs|
    ensures |gs| == |bs| && OwnedAt(bs[i], h, gs[i]) && (bs[i].free ==> gs[i] == None)
  {
  }

  lemma Owns(b: Block, g: Grant)
    requires !b.free && g.ptr == b.addr + HEADER && g.n <= b.size
    ensures OwnedAt(b, HEADER, Some(g))
  {
  }

  /** live' has one grant more, 8-aligned and apart from all others. */
  ghost predicate Granted(live: set<Grant>, live': set<Grant>, g: Grant) {
    live' == live + {g} && g.ptr % 8 == 0 && forall x :: x in live ==> Apart(x, g)
  }

  /** The first free block of at least n bytes. */
  ghost predicate First(bs: seq<Block>, i: nat, n: nat)
    requires i < |bs|
  {
    bs[i].free && bs[i].size >= n && forall k :: 0 <= k < i ==> !(bs[k].free && bs[k].size >= n)
  }

  class Heap {
    var blocks: seq<Block>
    var pages: nat
    ghost var grants: seq<Option<Grant>>

    ghost predicate Valid()
      reads this
    {
      pages <= 16384 && Tiles(blocks, HEADER, HEAP_START, Top()) && Aligned(blocks) &&
      Owned(blocks, HEADER, grants) &&
      AtFront(blocks, grants)
    }

    ghost function Top(): int
      reads this
    {
      HEAP_START + pages * PAGE
    }

    constructor (avail: nat)
      ensures Valid() && Live(grants) == {} && pages == if avail < 256 then avail else 256
      ensures blocks == if avail == 0 then [] else [Block(0x50_0000, pages * 4096 - 16, true)]
    {
      blocks, pages, grants := [], 0, [];
      new;
      var ok := Expand(INITIAL_PAGES, avail);
    }

    /** Map up to n pages at the top, as many as the page allocator still has (avail),
        and append them as one free block. */
    method Expand(n: nat, avail: nat) returns (ok: bool)
      requires Valid() && n > 0
      modifies this
      ensures Valid() && Live(grants) == old(Live(grants))
      ensures var mapped := if pages == old(pages) then 0 else pages - old(pages);
        ok == (old(pages) + n <= 16384 && avail > 0) &&
        (!ok ==> blocks == old(blocks) && pages == old(pages) && grants == old(grants)) &&
        (ok ==>
          pages == old(pages) + (if avail < n then avail else n) &&
          blocks == old(blocks) + [Block(old(Top()), mapped * PAGE - HEADER, true)] && grants == old(grants) + [None])
    {
      if pages + n > MAX_PAGES {
        return false;
      }
      hide Tiles, Owned, Aligned, Live, AtFront;
      ghost var top, pages0 := Top(), pages;
      var mapped := 0;
      while mapped < n
        invariant mapped <= n && mapped <= avail && pages == pages0 + mapped
        invariant blocks == old(blocks) && grants == old(grants)
      {
        if mapped == avail {
          break;
        }
        pages := pages + 1;
        mapped := mapped + 1;
      }
      if mapped == 0 {
        return false;
      }
      var b := Block(HEAP_START + (pages - mapped) * PAGE, mapped * PAGE - HEADER, true);
      AppendTiles(blocks, HEADER, HEAP_START, top, b);
      AppendFree(blocks, grants, b);
      blocks := blocks + [b];
      grants := grants + [None];
      return true;
    }

    /** Take block i if it is free and big enough; split off the rest if that is worth a header. */
    method TryAlloc(i: nat, n: nat) returns (p: Option<int>)
      requires Valid() && i < |blocks| && Eight(n)
      modifies this`blocks, this`grants
      ensures Valid() && p.Some? == old(blocks[i].free && blocks[i].size >= n)
      ensures p.None? ==> blocks == old(blocks) && grants == old(grants)
      ensures p.Some? ==>
        p.value == old(blocks[i].addr) + HEADER && Eight(p.value) &&
        Live(grants) == old(Live(grants)) + {Grant(p.value, n)} &&
        (forall g :: g in old(Live(grants)) ==> Apart(g, Grant(p.value, n)))
      ensures p.Some? ==>
        blocks == if old(blocks[i]).size >= n + 32 then Split(old(blocks), 16, i, n)
          else old(blocks)[i := old(blocks[i]).(free := false)]
    {
      var b := blocks[i];
      if !b.free || b.size < n {
        return None;
      }
      hide Tiles, Owned, Aligned, AlignedBlock, Live, Apart, Eight, AtFront, Split, OwnedAt;
      ghost var g := Grant(b.addr + HEADER, n);
      ApartFromRest(blocks, grants, i, g);
      AlignedAt(blocks, i);
      OwnedFree(blocks, HEADER, grants, i);
      if b.size >= n + HEADER + MIN_SPLIT {
        SplitTiles(blocks, HEADER, HEAP_START, Top(), i, n);
        SplitAligned(blocks, i, n);
        SplitFront(blocks, grants, i, n, g);
        SplitOwned(blocks, HEADER, grants, i, n, g);
        LiveGranted(grants, i, g, grants[..i] + [Some(g), None] + grants[i + 1..]);
        blocks := Split(blocks, HEADER, i, n);
        grants := grants[..i] + [Some(g), None] + grants[i + 1..];
      } else {
        MarkTiles(blocks, HEADER, HEAP_START, Top(), i, false);
        MarkAligned(blocks, i, false);
        MarkFront(blocks, grants, i, b.(free := false), Some(g));
        Owns(b.(free := false), g);
        MarkOwned(blocks, HEADER, grants, i, b.(free := false), Some(g));
        LiveGranted(grants, i, g, grants[i := Some(g)]);
        blocks := blocks[i := b.(free := false)];
        grants := grants[i := Some(g)];
      }
      return Some(b.addr + HEADER);
    }

    /** The first block that fits, from the head of the list on. */
    method FirstFit(n: nat) returns (p: Option<int>)
      requires Valid() && n % 8 == 0
      modifies this`blocks, this`grants
      ensures Valid()
      ensures p.None? ==>
        blocks == old(blocks) && grants == old(grants) &&
        forall i :: 0 <= i < |blocks| ==> !(blocks[i].free && blocks[i].size >= n)
      ensures p.Some? ==> Granted(old(Live(grants)), Live(grants), Grant(p.value, n))
      ensures p.Some? ==>
        exists i :: 0 <= i < old(|blocks|) && First(old(blocks), i, n) && p.value == old(blocks)[i].addr + 16
    {
      hide Tiles, Owned, Aligned, Live, Apart;
      var i := 0;
      while i < |blocks|
        invariant i <= |blocks| && Valid() && blocks == old(blocks) && grants == old(grants)
        invariant forall k :: 0 <= k < i ==> !(blocks[k].free && blocks[k].size >= n)
      {
        p := TryAlloc(i, n);
        if p.Some? {
          return;
        }
        i := i + 1;
      }
      return None;
    }

    /** Allocate size bytes; avail is what the page allocator could still give. */
    method Kmalloc(size: nat, avail: nat) returns (p: Option<int>)
      requires Valid()
      modifies this
      ensures Valid()
      ensures size == 0 ==> p == None && blocks == old(blocks) && pages == old(pages) && grants == old(grants)
      ensures p.Some? ==> Granted(old(Live(grants)), Live(grants), Grant(p.value, Rounded(size)))
      ensures p.None? ==> Live(grants) == old(Live(grants))
      ensures p.None? && size > 0 ==>
        var atLeast := (Rounded(size) + 16 + 4095) / 4096;
        var need := if atLeast < 16 then 16 else atLeast;
        old(pages) + need > 16384 || avail < need
    {
      if size == 0 {
        return None;
      }
      hide Tiles, Owned, Aligned, Live, Apart, Rounded;
      var n := Rounded(size);
      p := FirstFit(n);
      if p.Some? {
        return;
      }
      var need := NeedPages(n);
      var ok := Expand(need, avail);
      if !ok {
        return None;
      }
      assert avail >= need ==> blocks[|blocks| - 1].free && blocks[|blocks| - 1].size >= n;
      p := FirstFit(n);
    }

    /** One pass that merges every run of free neighbours. */
    method Coalesce()
      requires Valid()
      modifies this`blocks, this`grants
      ensures Valid() && Separated(blocks) && Live(grants) == old(Live(grants))
    {
      hide Tiles, Owned, Aligned, Live;
      var i := 0;
      while i < |blocks|
        invariant i <= |blocks| && Valid() && Live(grants) == old(Live(grants))
        invariant forall k :: 0 <= k < i && k + 1 < |blocks| ==> !(blocks[k].free && blocks[k + 1].free)
        decreases |blocks| - i
      {
        if blocks[i].free && i + 1 < |blocks| && blocks[i + 1].free {
          Adjacent(blocks, i);
          if blocks[i].addr + HEADER + blocks[i].size == blocks[i + 1].addr {
            MergeTiles(blocks, HEADER, HEAP_START, Top(), i);
            MergeAligned(blocks, i);
            MergeOwned(blocks, HEADER, grants, i);
            OwnedFree(blocks, HEADER, grants, i);
            blocks := Merge(blocks, HEADER, i);
            grants := grants[..i + 1] + grants[i + 2..];
            continue;
          }
        }
        i := i + 1;
      }
    }

    /** Neighbours in the list are neighbours in memory. */
    lemma Adjacent(bs: seq<Block>, i: nat)
      requires Tiles(bs, HEADER, HEAP_START, Top()) && i + 1 < |bs|
      ensures bs[i].addr + HEADER + bs[i].size == bs[i + 1].addr
    {
    }

    /** Free the block whose usable bytes start at p; its header is the k-th of the
        list.  Freeing it a second time does nothing. */
    method Kfree(p: int, k: nat)
      requires Valid() && (p == 0 || (k < |blocks| && blocks[k].addr == p - HEADER))
      modifies this`blocks, this`grants
      ensures Valid()
      ensures p == 0 || old(blocks[k].free) ==> blocks == old(blocks) && grants == old(grants)
      ensures p != 0 && !old(blocks[k].free) ==>
        Separated(blocks) && old(grants[k]).Some? && old(grants[k]).value.ptr == p &&
        Live(grants) == old(Live(grants)) - {old(grants[k]).value}
    {
      if p == 0 || blocks[k].free {
        return;
      }
      hide Tiles, Owned, Aligned, Live;
      OwnedFree(blocks, HEADER, grants, k);
      LiveFreed(blocks, HEADER, HEAP_START, Top(), grants, k);
      MarkTiles(blocks, HEADER, HEAP_START, Top(), k, true);
      MarkAligned(blocks, k, true);
      MarkOwned(blocks, HEADER, grants, k, blocks[k].(free := true), None);
      blocks := blocks[k := blocks[k].(free := true)];
      grants := grants[k := None];
      Coalesce();
    }

    /** In every state no two live grants overlap. */
    lemma NoOverlap()
      requires Valid()
      ensures forall x, y :: x in Live(grants) && y in Live(grants) && x != y ==> Apart(x, y)
    {
      GrantsApart(blocks, HEADER, HEAP_START, Top(), grants);
    }

    /** Headers and sizes always add up to the pages of the heap. */
    lemma Conserved()
      requires Valid()
      ensures Total(blocks, HEADER) == pages * PAGE
    {
      TotalIsRange(blocks, HEADER, HEAP_START, Top());
    }

    /** A grant inside a free block is apart from all others. */
    lemma ApartFromRest(bs: seq<Block>, gs: seq<Option<Grant>>, i: nat, g: Grant)
      requires Tiles(bs, HEADER, HEAP_START, Top()) && Owned(bs, HEADER, gs) && i < |bs| && bs[i].free
      requires g.ptr == bs[i].addr + HEADER && g.n <= bs[i].size
      ensures forall x :: x in Live(gs) ==> Apart(x, g)
    {
      forall x | x in Live(gs) ensures Apart(x, g) {
        var k :| 0 <= k < |gs| && gs[k] == Some(x);
        assert OwnedAt(bs[k], HEADER, gs[k]);
        if k < i {
          InOrder(bs, HEADER, HEAP_START, Top(), k, i);
        } else if i < k {
          InOrder(bs, HEADER, HEAP_START, Top(), i, k);
        }
      }
    }
  }
}
