/** The allocator of user programs (sysrust-rt/src/allocator.rs): first fit with
    alignment padding, splitting, growth by brk, coalescing with both neighbours. */
module RuntimeHeap {
  import opened Base
  import opened Blocks

  const HEADER: nat := 24
  const HEADER_ALIGN: nat := 8
  const MIN_USABLE: nat := 16
  const PAGE: nat := 4096
  const INITIAL: nat := 65536
  const U64: int := 0x1_0000_0000_0000_0000

  /** Round up to a multiple of align. */
  function AlignUp(a: int, align: nat): (r: int)
    requires align > 0
    ensures a <= r < a + align && r % align == 0
  {
    var q := (a + align - 1) / align;
    Multiple(q, align);
    q * align
  }

  lemma Multiple(q: int, n: nat)
    requires n > 0
    ensures q * n % n == 0
  {
    var d := q - q * n / n;
    assert d * n == q * n % n;
    assert d >= 1 ==> d * n >= n;
    assert d <= -1 ==> d * n <= -1 * n;
  }

  function Max(a: nat, b: nat): (m: nat)
    ensures m >= a && m >= b && (m == a || m == b)
  {
    if a >= b then a else b
  }

  /** Bytes between the end of the header and the aligned start of the data. */
  function Padding(b: Block, align: nat): (p: nat)
    requires align > 0
    ensures p < align
  {
    AlignUp(b.addr + HEADER, align) - (b.addr + HEADER)
  }

  function Needed(b: Block, size: nat, align: nat): nat
    requires align > 0
  {
    size + Padding(b, align)
  }

  /** The first free block with room for size bytes and their padding, or -1. */
  function FirstFit(bs: seq<Block>, size: nat, align: nat, i: nat): (k: int)
    requires align > 0 && i <= |bs|
    ensures k == -1 || i <= k < |bs|
    ensures k >= 0 ==> bs[k].free && bs[k].size >= Needed(bs[k], size, align)
    decreases |bs| - i
  {
    if i == |bs| then -1
    else if bs[i].free && bs[i].size >= Needed(bs[i], size, align) then i
    else FirstFit(bs, size, align, i + 1)
  }

  /** Bytes asked from brk for a request of that size. */
  function Growth(size: nat): (n: nat)
    ensures n >= size + HEADER && n % PAGE == 0
  {
    AlignUp(size + HEADER, PAGE)
  }

  /** The list after growing at `end`: a free tail block absorbs the new one. */
  function Grow(bs: seq<Block>, end: int, size: nat): (r: seq<Block>)
    ensures r != [] && r[|r| - 1].free
  {
    var b := Block(end, Growth(size) - HEADER, true);
    if bs != [] && bs[|bs| - 1].free then Merge(bs + [b], HEADER, |bs| - 1) else bs + [b]
  }

  /** Cut a block to `needed` bytes if the rest is worth a header.  The rest is
      computed in 64 bits: a block that is too small has an enormous rest. */
  function Cut(bs: seq<Block>, i: nat, needed: nat): (r: seq<Block>)
    requires i < |bs| && needed - bs[i].size <= U64 - HEADER
  {
    var b := bs[i];
    var rest := (b.size - needed) % U64;
    if rest >= HEADER + MIN_USABLE then
      bs[..i] + [Block(b.addr, needed, b.free), Block(b.addr + HEADER + needed, rest - HEADER, true)] + bs[i + 1..]
    else bs
  }

  // ---- the block the request ends up in --------------------------------------------------------

  function Chosen(bs: seq<Block>, end: int, size: nat, align: nat): (seq<Block>, nat)
    requires align > 0
  {
    var k := FirstFit(bs, size, align, 0);
    if k >= 0 then (bs, k)
    else
      var r := Grow(bs, end, size);
      (r, |r| - 1)
  }

  /** There is room for size bytes and their padding in the chosen block. */
  predicate Fits(bs: seq<Block>, end: int, size: nat, align: nat)
    requires align > 0
  {
    var (r, k) := Chosen(bs, end, size, align);
    r != [] && k < |r| && Needed(r[k], size, align) <= r[k].size
  }

  /** For alignments up to 8 the block always fits: a fresh block is page-aligned, and a
      grown one has the old header to spare. */
  lemma SmallAlignFits(bs: seq<Block>, end: int, size: nat, align: nat)
    requires 0 < align <= 8 && 8 % align == 0 && end % PAGE == 0
    ensures Fits(bs, end, size, align)
  {
    var k := FirstFit(bs, size, align, 0);
    if k < 0 {
      var r := Grow(bs, end, size);
      var b := r[|r| - 1];
      if bs == [] || !bs[|bs| - 1].free {
        EightDivides(end + HEADER, align);
      }
    }
  }

  lemma EightDivides(a: int, align: nat)
    requires 0 < align <= 8 && 8 % align == 0 && a % 8 == 0
    ensures AlignUp(a, align) == a
  {
    hide AlignUp;
    var q := a / 8;
    assert align == 1 || align == 2 || align == 4 || align == 8;
    if align == 1 {
      OnlyMultiple(a, align, a, AlignUp(a, align));
    } else if align == 2 {
      OnlyMultiple(a, align, 4 * q, AlignUp(a, align));
    } else if align == 4 {
      OnlyMultiple(a, align, 2 * q, AlignUp(a, align));
    } else {
      OnlyMultiple(a, align, q, AlignUp(a, align));
    }
  }

  /** A multiple of n is the only one in the n numbers from it on. */
  lemma OnlyMultiple(a: int, n: nat, q: int, r: int)
    requires n > 0 && a == q * n && a <= r < a + n && r % n == 0
    ensures r == a
  {
    var d := r / n - q;
    assert d * n == r - a;
    assert d >= 1 ==> d * n >= n;
    assert d <= -1 ==> d * n <= -1 * n;
  }

  /** When nothing fits and the last block is in use, a page-aligned fresh block fits
      exactly when the page rounding leaves room for the padding. */
  lemma FreshFits(bs: seq<Block>, end: int, size: nat, align: nat)
    requires align > 0 && FirstFit(bs, size, align, 0) < 0 && (bs == [] || !bs[|bs| - 1].free)
    ensures Fits(bs, end, size, align) <==> size + (AlignUp(end + HEADER, align) - end) <= Growth(size)
  {
  }

  /** A request the allocator gets wrong: 4072 bytes at alignment 16, when the initial
      64 KB are all in use, wherever the heap starts. */
  lemma AlignedRequestFails(start: nat)
    requires 0 < start && start % PAGE == 0
    ensures FirstFit([Block(start, INITIAL - HEADER, false)], 4072, 16, 0) < 0
    ensures !Fits([Block(start, INITIAL - HEADER, false)], start + INITIAL, 4072, 16)
  {
    hide Fits;
    var bs, end := [Block(start, INITIAL - HEADER, false)], start + INITIAL;
    assert FirstFit(bs, 4072, 16, 1) == -1;
    assert (4072 + 24 + 4096 - 1) / 4096 == 1;
    EightMissing(end);
    FreshFits(bs, end, 4072, 16);
  }

  lemma EightMissing(end: int)
    requires end % PAGE == 0
    ensures AlignUp(end + HEADER, 16) == end + 32
  {
    var r := AlignUp(end + HEADER, 16);
    assert end % 16 == 0;
  }

  /** The list when alloc searches it: on the first call that of the fresh heap. */
  function Searched(bs: seq<Block>, current: nat): (r: seq<Block>)
    ensures r != []
  {
    if bs == [] then [Block(AlignUp(current, PAGE), INITIAL - HEADER, true)] else bs
  }

  function SearchedEnd(bs: seq<Block>, end: int, current: nat): int {
    if bs == [] then AlignUp(current, PAGE) + INITIAL else end
  }

  // ---- what the steps keep -------------------------------------------------------------------------

  /** Blocks tile the heap, no two free ones touch, every used one has its grant. */
  ghost predicate Sound(bs: seq<Block>, start: int, end: int, gs: seq<Option<Grant>>) {
    Tiles(bs, HEADER, start, end) && Separated(bs) && Owned(bs, HEADER, gs)
  }

  function GrowGrants(bs: seq<Block>, gs: seq<Option<Grant>>): seq<Option<Grant>> {
    if bs != [] && bs[|bs| - 1].free then gs else gs + [None]
  }

  lemma GrowKeeps(bs: seq<Block>, start: int, end: int, gs: seq<Option<Grant>>, size: nat)
    requires Sound(bs, start, end, gs)
    ensures Sound(Grow(bs, end, size), start, end + Growth(size), GrowGrants(bs, gs)) &&
      Live(GrowGrants(bs, gs)) == Live(gs)
  {
    hide Growth, Live, Separated;
    var b := Block(end, Growth(size) - HEADER, true);
    AppendTiles(bs, HEADER, start, end, b);
    AppendOwned(bs, gs, b);
    GrowSeparated(bs, end, size);
    hide Tiles, Owned;
    if bs != [] && bs[|bs| - 1].free {
      var n := |bs| - 1;
      MergeTiles(bs + [b], HEADER, start, end + Growth(size), n);
      MergeOwned(bs + [b], HEADER, gs + [None], n);
      assert (gs + [None])[..n + 1] + (gs + [None])[n + 2..] == gs;
    }
  }

  lemma GrowSeparated(bs: seq<Block>, end: int, size: nat)
    requires Separated(bs)
    ensures Separated(Grow(bs, end, size))
  {
    hide Growth;
    var r := Grow(bs, end, size);
    forall k | 0 <= k < |r| - 1 ensures !(r[k].free && r[k + 1].free) {
      if k + 1 < |bs| {
        assert !(bs[k].free && bs[k + 1].free);
      }
    }
  }

  lemma AppendOwned(bs: seq<Block>, gs: seq<Option<Grant>>, b: Block)
    requires Owned(bs, HEADER, gs) && b.free
    ensures Owned(bs + [b], HEADER, gs + [None]) && Live(gs + [None]) == Live(gs)
  {
    forall k | 0 <= k < |bs + [b]| ensures OwnedAt((bs + [b])[k], HEADER, (gs + [None])[k]) {
      if k < |bs| {
        assert OwnedAt(bs[k], HEADER, gs[k]);
      }
    }
    forall x | Some(x) in gs ensures Some(x) in gs + [None] {
    }
  }

  /** The list after block i was cut and taken, and the grants with it. */
  function Taken(bs: seq<Block>, i: nat, needed: nat): seq<Block>
    requires i < |bs| && needed - bs[i].size <= U64 - HEADER
  {
    var r := Cut(bs, i, needed);
    r[i := r[i].(free := false)]
  }

  function TakenGrants(bs: seq<Block>, gs: seq<Option<Grant>>, i: nat, needed: nat, g: Grant): seq<Option<Grant>>
    requires i < |bs| == |gs|
  {
    if bs[i].size >= needed + HEADER + MIN_USABLE then gs[..i] + [Some(g), None] + gs[i + 1..] else gs[i := Some(g)]
  }

  lemma TakeKeeps(bs: seq<Block>, start: int, end: int, gs: seq<Option<Grant>>, i: nat, needed: nat, g: Grant)
    requires Sound(bs, start, end, gs) && i < |bs| && bs[i].free && needed <= bs[i].size < U64
    requires bs[i].addr + HEADER <= g.ptr && g.ptr + g.n <= bs[i].addr + HEADER + needed
    ensures Sound(Taken(bs, i, needed), start, end, TakenGrants(bs, gs, i, needed, g))
    ensures Live(TakenGrants(bs, gs, i, needed, g)) == Live(gs) + {g} && forall x :: x in Live(gs) ==> Apart(x, g)
  {
    assert OwnedAt(bs[i], HEADER, gs[i]);
    hide Tiles, Owned, Live, Apart, Separated, Taken;
    TakenIs(bs, i, needed);
    var gs' := TakenGrants(bs, gs, i, needed, g);
    LiveGranted(gs, i, g, gs');
    ApartFromRest(bs, start, end, gs, i, g);
    if bs[i].size >= needed + HEADER + MIN_USABLE {
      SplitTiles(bs, HEADER, start, end, i, needed);
      SplitSeparated(bs, HEADER, i, needed);
      SplitOwned(bs, HEADER, gs, i, needed, g);
    } else {
      MarkTiles(bs, HEADER, start, end, i, false);
      MarkOwned(bs, HEADER, gs, i, bs[i].(free := false), Some(g));
      UsedSeparated(bs, i);
    }
  }

  /** In a block that is big enough, cutting is splitting. */
  lemma TakenIs(bs: seq<Block>, i: nat, needed: nat)
    requires i < |bs| && bs[i].free && needed <= bs[i].size < U64
    ensures Taken(bs, i, needed) ==
      if bs[i].size >= needed + 40 then Split(bs, 24, i, needed) else bs[i := bs[i].(free := false)]
  {
    assert (bs[i].size - needed) % U64 == bs[i].size - needed;
  }

  lemma UsedSeparated(bs: seq<Block>, i: nat)
    requires Separated(bs) && i < |bs|
    ensures Separated(bs[i := bs[i].(free := false)])
  {
    var r := bs[i := bs[i].(free := false)];
    forall k | 0 <= k < |r| - 1 ensures !(r[k].free && r[k + 1].free) {
      assert !(bs[k].free && bs[k + 1].free);
    }
  }

  lemma ApartFromRest(bs: seq<Block>, start: int, end: int, gs: seq<Option<Grant>>, i: nat, g: Grant)
    requires Tiles(bs, HEADER, start, end) && Owned(bs, HEADER, gs) && i < |bs| && bs[i].free
    requires bs[i].addr + HEADER <= g.ptr && g.ptr + g.n <= bs[i].addr + HEADER + bs[i].size
    ensures forall x :: x in Live(gs) ==> Apart(x, g)
  {
    forall x | x in Live(gs) ensures Apart(x, g) {
      var k :| 0 <= k < |gs| && gs[k] == Some(x);
      assert OwnedAt(bs[k], HEADER, gs[k]);
      if k < i {
        InOrder(bs, HEADER, start, end, k, i);
      } else if i < k {
        InOrder(bs, HEADER, start, end, i, k);
      }
    }
  }

  /** Taking a last block that is too small breaks the list. */
  lemma TakeBreaks(bs: seq<Block>, start: int, end: int, i: nat, needed: nat)
    requires Tiles(bs, HEADER, start, end) && i == |bs| - 1 && bs[i].size < needed &&
      needed - bs[i].size <= U64 - HEADER - MIN_USABLE
    ensures !Tiles(Taken(bs, i, needed), HEADER, start, end)
  {
    var r, rest := Taken(bs, i, needed), U64 + bs[i].size - needed;
    assert (bs[i].size - needed) % U64 == rest;
    assert r[|r| - 1] == Block(bs[i].addr + HEADER + needed, rest - HEADER, true);
  }

  // ---- freeing ----------------------------------------------------------------------------------------

  /** The block whose usable bytes contain ptr, or -1. */
  function Owner(bs: seq<Block>, ptr: int, i: nat): (k: int)
    requires i <= |bs|
    ensures k == -1 || i <= k < |bs|
    decreases |bs| - i
  {
    if i == |bs| then -1
    else if bs[i].addr + HEADER <= ptr < bs[i].addr + HEADER + bs[i].size then i
    else Owner(bs, ptr, i + 1)
  }

  /** The owner of a live pointer is the block it was granted from. */
  lemma {:induction false} OwnerFound(bs: seq<Block>, start: int, end: int, gs: seq<Option<Grant>>, j: nat, i: nat)
    requires Tiles(bs, HEADER, start, end) && Owned(bs, HEADER, gs) && i <= j < |bs| && gs[j].Some? && gs[j].value.n > 0
    ensures Owner(bs, gs[j].value.ptr, i) == j
    decreases j - i
  {
    assert OwnedAt(bs[j], HEADER, gs[j]);
    if i < j {
      InOrder(bs, HEADER, start, end, i, j);
      OwnerFound(bs, start, end, gs, j, i + 1);
    }
  }

  /** Block i absorbs its successor if both are free and they touch. */
  function Coalesced(bs: seq<Block>, i: nat): (r: seq<Block>)
    requires i < |bs|
    ensures i < |r|
  {
    if i + 1 < |bs| && bs[i + 1].free &&
    bs[i].addr + HEADER + bs[i].size == bs[i + 1].addr then Merge(bs, HEADER, i) else bs
  }

  /** The list after block i was freed and merged with both neighbours. */
  function Released(bs: seq<Block>, i: nat): seq<Block>
    requires i < |bs|
  {
    var r := Coalesced(bs[i := bs[i].(free := true)], i);
    if i > 0 && r[i - 1].free then Coalesced(r, i - 1) else r
  }

  function ReleasedGrants(bs: seq<Block>, gs: seq<Option<Grant>>, i: nat): seq<Option<Grant>>
    requires i < |bs| == |gs|
  {
    var g1 := gs[i := None];
    var g2 := if i + 1 < |bs| && bs[i + 1].free then g1[..i + 1] + g1[i + 2..] else g1;
    if i > 0 && bs[i - 1].free then g2[..i] + g2[i + 1..] else g2
  }

  /** One free block may touch free neighbours, no others do. */
  ghost predicate SeparatedBut(bs: seq<Block>, i: int, left: bool, right: bool) {
    forall k :: 0 <= k < |bs| - 1 && !(left && k + 1 == i) && !(right && k == i) ==> !(bs[k].free && bs[k + 1].free)
  }

  lemma CoalesceRight(bs: seq<Block>, start: int, end: int, gs: seq<Option<Grant>>, i: nat)
    requires Tiles(bs, HEADER, start, end) && Owned(bs, HEADER, gs) && i < |bs| && bs[i].free
    requires SeparatedBut(bs, i, true, true) && (i + 2 < |bs| && bs[i + 1].free ==> !bs[i + 2].free)
    ensures var r, rs := Coalesced(bs, i), if i + 1 < |bs| && bs[i + 1].free then gs[..i + 1] + gs[i + 2..] else gs;
      Tiles(r, HEADER, start, end) && Owned(r, HEADER, rs) && Live(rs) == Live(gs) && SeparatedBut(r, i, true, false) &&
      r[i].free && r[..i] == bs[..i]
  {
    hide Owned, Live;
    if i + 1 < |bs| && bs[i + 1].free {
      assert bs[i + 1].addr == bs[i].addr + HEADER + bs[i].size;
      MergeRightSeparated(bs, i);
      hide Tiles, Owned, Live, SeparatedBut;
      MergeTiles(bs, HEADER, start, end, i);
      MergeOwned(bs, HEADER, gs, i);
    }
  }

  lemma MergeRightSeparated(bs: seq<Block>, i: nat)
    requires i + 1 < |bs| && bs[i].free && bs[i + 1].free && SeparatedBut(bs, i, true, true) &&
      (i + 2 < |bs| ==> !bs[i + 2].free)
    ensures SeparatedBut(Merge(bs, HEADER, i), i, true, false)
  {
    var r := Merge(bs, HEADER, i);
    forall k | 0 <= k < |r| - 1 && k + 1 != i ensures !(r[k].free && r[k + 1].free) {
      if k > i {
        assert r[k] == bs[k + 1] && r[k + 1] == bs[k + 2];
        assert !(bs[k + 1].free && bs[k + 1 + 1].free);
      } else if k == i {
        assert r[k + 1] == bs[i + 2];
      } else {
        assert r[k] == bs[k] && r[k + 1] == bs[k + 1];
      }
    }
  }

  lemma CoalesceLeft(bs: seq<Block>, start: int, end: int, gs: seq<Option<Grant>>, i: nat)
    requires Tiles(bs, HEADER, start, end) && Owned(bs, HEADER, gs) && 0 < i < |bs| && bs[i].free && bs[i - 1].free
    requires SeparatedBut(bs, i, true, false) && (i > 1 ==> !bs[i - 2].free)
    ensures var r, rs := Coalesced(bs, i - 1), gs[..i] + gs[i + 1..];
      Tiles(r, HEADER, start, end) && Owned(r, HEADER, rs) && Live(rs) == Live(gs) && Separated(r)
  {
    assert bs[i - 1 + 1].addr == bs[i - 1].addr + HEADER + bs[i - 1].size;
    MergeLeftSeparated(bs, i);
    hide Tiles, Owned, Live, Separated, SeparatedBut, Merge;
    MergeTiles(bs, HEADER, start, end, i - 1);
    MergeOwned(bs, HEADER, gs, i - 1);
  }

  lemma MergeLeftSeparated(bs: seq<Block>, i: nat)
    requires 0 < i < |bs| && bs[i].free && bs[i - 1].free && SeparatedBut(bs, i, true, false) &&
      (i > 1 ==> !bs[i - 2].free)
    ensures Separated(Merge(bs, HEADER, i - 1))
  {
    var r := Merge(bs, HEADER, i - 1);
    forall k | 0 <= k < |r| - 1 ensures !(r[k].free && r[k + 1].free) {
      if k >= i {
        assert r[k] == bs[k + 1] && r[k + 1] == bs[k + 2];
        assert !(bs[k + 1].free && bs[k + 1 + 1].free);
      } else if k == i - 1 {
        assert r[k + 1] == bs[i + 1];
        assert !(bs[i].free && bs[i + 1].free);
      } else if k + 1 < i - 1 {
        assert r[k] == bs[k] && r[k + 1] == bs[k + 1];
        assert !(bs[k].free && bs[k + 1].free);
      }
    }
  }

  /** Freeing a used block and one merge on each side restore the invariant. */
  lemma ReleaseKeeps(bs: seq<Block>, start: int, end: int, gs: seq<Option<Grant>>, i: nat)
    requires Sound(bs, start, end, gs) && i < |bs| && !bs[i].free
    ensures Sound(Released(bs, i), start, end, ReleasedGrants(bs, gs, i))
    ensures gs[i].Some? && Live(ReleasedGrants(bs, gs, i)) == Live(gs) - {gs[i].value}
  {
    assert OwnedAt(bs[i], HEADER, gs[i]);
    var b1, g1 := bs[i := bs[i].(free := true)], gs[i := None];
    assert SeparatedBut(b1, i, true, true) by {
      forall k | 0 <= k < |b1| - 1 && k + 1 != i && k != i ensures !(b1[k].free && b1[k + 1].free) {
        assert !(bs[k].free && bs[k + 1].free);
      }
    }
    assert i + 2 < |bs| ==> !(bs[i + 1].free && bs[i + 1 + 1].free);
    assert i > 1 ==> !(bs[i - 2].free && bs[i - 2 + 1].free);
    hide Tiles, Owned, Live, Separated, SeparatedBut;
    LiveFreed(bs, HEADER, start, end, gs, i);
    MarkTiles(bs, HEADER, start, end, i, true);
    MarkOwned(bs, HEADER, gs, i, bs[i].(free := true), None);
    CoalesceRight(b1, start, end, g1, i);
    var b2 := Coalesced(b1, i);
    var g2 := if i + 1 < |bs| && bs[i + 1].free then g1[..i + 1] + g1[i + 2..] else g1;
    if i > 0 {
      assert b2[i - 1] == b2[..i][i - 1] == b1[..i][i - 1] == bs[i - 1];
      if i > 1 {
        assert b2[i - 2] == b2[..i][i - 2] == b1[..i][i - 2] == bs[i - 2];
      }
    }
    if i > 0 && b2[i - 1].free {
      CoalesceLeft(b2, start, end, g2, i);
    } else {
      NowSeparated(b2, i);
    }
  }

  lemma NowSeparated(bs: seq<Block>, i: nat)
    requires SeparatedBut(bs, i, true, false) && i < |bs| && (i > 0 ==> !bs[i - 1].free)
    ensures Separated(bs)
  {
    forall k | 0 <= k < |bs| - 1 ensures !(bs[k].free && bs[k + 1].free) {
    }
  }

  class Allocator {
    var blocks: seq<Block>
    var end: int
    var locked: bool
    ghost var start: int
    ghost var grants: seq<Option<Grant>>

    constructor ()
      ensures Valid() && blocks == [] && Live(grants) == {}
    {
      blocks, end, locked, start, grants := [], 0, false, 0, [];
    }

    ghost predicate Valid()
      reads this
    {
      Sound(blocks, start, end, grants) && end % PAGE == 0 && 0 <= start && end < U64
    }

    /** In every state no two live grants overlap. */
    lemma NoOverlap()
      requires Valid()
      ensures forall x, y :: x in Live(grants) && y in Live(grants) && x != y ==> Apart(x, y)
    {
      GrantsApart(blocks, HEADER, start, end, grants);
    }

    /** First allocation: a single free block from the page-aligned break on. */
    method Init(current: nat, granted: bool)
      requires Valid() && blocks == [] && (granted ==> AlignUp(current, PAGE) + INITIAL < U64)
      modifies this`blocks, this`end, this`start, this`grants
      ensures Valid() && Live(grants) == old(Live(grants))
      ensures if granted then blocks == [Block(AlignUp(current, PAGE), INITIAL - HEADER, true)] &&
        end == AlignUp(current, PAGE) + INITIAL
              else blocks == [] && end == old(end)
    {
      if !granted {
        return;
      }
      var from := AlignUp(current, PAGE);
      start := from;
      end := from + INITIAL;
      blocks := [Block(from, INITIAL - HEADER, true)];
      grants := [None];
    }

    /** Ask for more memory at the end of the heap. */
    method HeapGrow(size: nat, granted: bool) returns (ok: bool)
      requires Valid() && (granted ==> end + Growth(size) < U64)
      modifies this`blocks, this`end, this`grants
      ensures ok == granted && Live(grants) == old(Live(grants))
      ensures !ok ==> blocks == old(blocks) && end == old(end) && grants == old(grants)
      ensures Valid()
      ensures ok ==> blocks == Grow(old(blocks), old(end), size) && end == old(end) + Growth(size)
    {
      if !granted {
        return false;
      }
      GrowKeeps(blocks, start, end, grants, size);
      grants := GrowGrants(blocks, grants);
      var b := Block(end, Growth(size) - HEADER, true);
      end := end + Growth(size);
      if blocks == [] {
        blocks := [b];
      } else {
        var last := 0;
        while last + 1 < |blocks|
          invariant last < |blocks|
        {
          last := last + 1;
        }
        blocks := blocks + [b];
        if blocks[last].addr + HEADER + blocks[last].size == b.addr && blocks[last].free {
          blocks := Merge(blocks, HEADER, last);
        }
      }
      return true;
    }

    method FindFree(size: nat, align: nat) returns (k: int)
      requires align > 0
      ensures k == FirstFit(blocks, size, align, 0)
    {
      var i := 0;
      while i < |blocks|
        invariant i <= |blocks| && FirstFit(blocks, size, align, i) == FirstFit(blocks, size, align, 0)
      {
        if blocks[i].free {
          var data := blocks[i].addr + HEADER;
          var padding := AlignUp(data, align) - data;
          if blocks[i].size >= size + padding {
            return i;
          }
        }
        i := i + 1;
      }
      return -1;
    }

    /** Allocate in a heap that has been set up; `granted` says whether brk would grow it.
        The list stays intact exactly when the chosen block has room for the padding. */
    method Allocate(size: nat, align: nat, granted: bool) returns (p: Option<int>)
      requires Valid() && align > 0 && size + align < U64 / 2 && size > 0
      requires granted ==> end + Growth(size) < U64
      modifies this`blocks, this`end, this`grants
      ensures p.None? ==>
        Valid() && Live(grants) == old(Live(grants)) && FirstFit(old(blocks), size, align, 0) < 0 && !granted
      ensures p.Some? && Fits(old(blocks), old(end), size, align) ==>
        Valid() && p.value % align == 0 && Live(grants) == old(Live(grants)) + {Grant(p.value, size)} &&
        forall x :: x in old(Live(grants)) ==> Apart(x, Grant(p.value, size))
      ensures p.Some? && !Fits(old(blocks), old(end), size, align) ==> !Tiles(blocks, HEADER, start, end)
    {
      hide Tiles, Owned, Live, Separated, Apart, AlignUp, Grow;
      var k := FindFree(size, align);
      if k < 0 {
        var ok := HeapGrow(size, granted);
        if !ok {
          return None;
        }
        k := |blocks| - 1;
      }
      var from := TakeBlock(k, size, align);
      return Some(from);
    }

    /** Hand out a free block, cut to size; only the last one may be too small. */
    method TakeBlock(k: nat, size: nat, align: nat) returns (from: int)
      requires Valid() && k < |blocks| && blocks[k].free && align > 0 && size + align < U64 / 2 && size > 0
      requires Needed(blocks[k], size, align) <= blocks[k].size || k == |blocks| - 1
      modifies this`blocks, this`grants
      ensures Needed(old(blocks[k]), size, align) <= old(blocks[k]).size ==>
        Valid() && from % align == 0 && Live(grants) == old(Live(grants)) + {Grant(from, size)} &&
        forall x :: x in old(Live(grants)) ==> Apart(x, Grant(from, size))
      ensures Needed(old(blocks[k]), size, align) > old(blocks[k]).size ==> !Tiles(blocks, HEADER, start, end)
    {
      var b := blocks[k];
      Inside(blocks, HEADER, start, end, k);
      var data := b.addr + HEADER;
      from := AlignUp(data, align);
      var needed := size + (from - data);
      hide Tiles, Owned, Live, Separated, Apart, AlignUp, Cut;
      if needed <= b.size {
        TakeKeeps(blocks, start, end, grants, k, needed, Grant(from, size));
        grants := TakenGrants(blocks, grants, k, needed, Grant(from, size));
      } else {
        TakeBreaks(blocks, start, end, k, needed);
      }
      CutLonger(blocks, k, needed);
      SplitBlock(k, needed);
      blocks := blocks[k := blocks[k].(free := false)];
    }

    lemma CutLonger(bs: seq<Block>, i: nat, needed: nat)
      requires i < |bs| && needed - bs[i].size <= U64 - HEADER
      ensures i < |Cut(bs, i, needed)|
    {
    }

    method SplitBlock(i: nat, needed: nat)
      requires i < |blocks| && needed - blocks[i].size <= U64 - HEADER
      modifies this`blocks
      ensures blocks == Cut(old(blocks), i, needed)
    {
      var b := blocks[i];
      var rest := (b.size - needed) % U64;
      if rest >= HEADER + MIN_USABLE {
        blocks := blocks[..i] + [Block(b.addr, needed, b.free), Block(b.addr + HEADER + needed, rest - HEADER, true)] +
          blocks[i + 1..];
      }
    }

    /** GlobalAlloc::alloc.  current is the break at the first call; grant0 and grant1 say
        whether brk would set up and grow the heap. */
    method Alloc(size0: nat, align0: nat, current: nat, grant0: bool, grant1: bool) returns (p: Option<int>)
      requires Valid() && align0 > 0 && size0 + align0 + HEADER < U64 / 2
      requires grant0 ==> AlignUp(current, PAGE) + INITIAL < U64 - U64 / 2 - PAGE
      requires grant1 ==> end < U64 - U64 / 2 - PAGE
      modifies this
      ensures locked == old(locked)
      ensures p.None? ==>
        Valid() && Live(grants) == old(Live(grants)) &&
        (old(locked) || (old(blocks) == [] && !grant0) || !grant1)
      ensures var align, size := Max(align0, 8), Max(size0, 16);
        p.Some? ==>
          (align0 <= 8 ==> Fits(Searched(old(blocks), current), SearchedEnd(old(blocks), old(end), current), size,
            align)) &&
          if Fits(Searched(old(blocks), current), SearchedEnd(old(blocks), old(end), current), size, align) then
            Valid() && p.value % align == 0 && Live(grants) == old(Live(grants)) + {Grant(p.value, size)} &&
            forall x :: x in old(Live(grants)) ==> Apart(x, Grant(p.value, size))
          else !Tiles(blocks, HEADER, start, end)
    {
      if locked {
        return None;
      }
      hide Sound, Live, Fits, AlignUp, Max;
      locked := true;
      var align, size := Max(align0, HEADER_ALIGN), Max(size0, MIN_USABLE);
      if blocks == [] {
        Init(current, grant0);
        if blocks == [] {
          locked := false;
          return None;
        }
      }
      if align <= 8 {
        SmallAlignFits(blocks, end, size, align);
      }
      p := Allocate(size, align, grant1);
      locked := false;
    }

    /** GlobalAlloc::dealloc, for any pointer: only the block that owns it changes. */
    method Dealloc(ptr: int)
      requires Valid()
      modifies this
      ensures Valid() && locked == old(locked)
      ensures var i := Owner(old(blocks), ptr, 0);
        if old(locked) || ptr == 0 || i < 0 || old(blocks)[i].free
        then blocks == old(blocks) && grants == old(grants)
        else
          blocks == Released(old(blocks), i) && old(grants)[i].Some? &&
          Live(grants) == old(Live(grants)) - {old(grants)[i].value}
    {
      if ptr == 0 || locked {
        return;
      }
      locked := true;
      var cur := 0;
      while cur < |blocks|
        invariant cur <= |blocks| && Owner(blocks, ptr, cur) == Owner(old(blocks), ptr, 0)
        invariant blocks == old(blocks) && grants == old(grants) && start == old(start) && end == old(end) && locked
      {
        if blocks[cur].addr + HEADER <= ptr < blocks[cur].addr + HEADER + blocks[cur].size {
          Release(cur);
          locked := false;
          return;
        }
        cur := cur + 1;
      }
      locked := false;
    }

    /** Mark block cur free, and merge it with its successor, then its predecessor with it. */
    method Release(cur: nat)
      requires Valid() && cur < |blocks|
      modifies this`blocks, this`grants
      ensures Valid()
      ensures old(blocks)[cur].free ==> blocks == old(blocks) && grants == old(grants)
      ensures !old(blocks)[cur].free ==>
        blocks == Released(old(blocks), cur) && old(grants)[cur].Some? &&
        Live(grants) == old(Live(grants)) - {old(grants)[cur].value}
    {
      if blocks[cur].free {
        FreeAlready(blocks, cur);
      } else {
        ReleaseKeeps(blocks, start, end, grants, cur);
        grants := ReleasedGrants(blocks, grants, cur);
      }
      hide Sound, Live, Coalesced, ReleasedGrants;
      blocks := blocks[cur := blocks[cur].(free := true)];
      CoalesceAt(cur);
      CoalescePrevious(cur);
    }

    lemma FreeAlready(bs: seq<Block>, i: nat)
      requires Separated(bs) && i < |bs| && bs[i].free
      ensures bs[i := bs[i].(free := true)] == bs && Coalesced(bs, i) == bs && (i > 0 ==> !bs[i - 1].free)
    {
      if i > 0 {
        var k := i - 1;
        assert bs[k + 1].free;
      }
    }

    /** Look for the predecessor from the head on. */
    method CoalescePrevious(cur: nat)
      requires cur < |blocks|
      modifies this`blocks
      ensures blocks == if cur > 0 && old(blocks)[cur - 1].free then Coalesced(old(blocks), cur - 1) else old(blocks)
    {
      var prev := 0;
      while prev < |blocks|
        invariant blocks == old(blocks) && (cur > 0 ==> prev < cur)
      {
        if blocks[prev].free && prev + 1 == cur {
          CoalesceAt(prev);
          break;
        }
        if prev + 1 == cur {
          break;
        }
        prev := prev + 1;
      }
    }

    method CoalesceAt(i: nat)
      requires i < |blocks|
      modifies this`blocks
      ensures blocks == Coalesced(old(blocks), i)
    {
      if i + 1 == |blocks| || !blocks[i + 1].free {
        return;
      }
      if blocks[i].addr + HEADER + blocks[i].size == blocks[i + 1].addr {
        blocks := Merge(blocks, HEADER, i);
      }
    }
  }
}
