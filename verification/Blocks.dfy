/** Lists of blocks that tile an address range: what the runtime allocator
    (sysrust-rt/src/allocator.rs) and the kernel heap (src/heap.rs) have in common.
    The list is in the order of the next pointers. */
module Blocks {
  import opened Base

  /** A header at addr, `size` usable bytes behind it. */
  datatype Block = Block(addr: int, size: nat, free: bool)

  /** Memory handed out: n bytes from ptr on. */
  datatype Grant = Grant(ptr: int, n: nat)

  predicate Apart(a: Grant, b: Grant) {
    a.ptr + a.n <= b.ptr || b.ptr + b.n <= a.ptr
  }

  /** The blocks follow each other without gap from start to end; h is the header size. */
  ghost predicate Tiles(bs: seq<Block>, h: nat, start: int, end: int) {
    (if bs == [] then start == end
     else bs[0].addr == start && bs[|bs| - 1].addr + h + bs[|bs| - 1].size == end) &&
    (forall i :: 0 <= i < |bs| - 1 ==> bs[i + 1].addr == bs[i].addr + h + bs[i].size)
  }

  /** No two neighbours are both free. */
  ghost predicate Separated(bs: seq<Block>) {
    forall i :: 0 <= i < |bs| - 1 ==> !(bs[i].free && bs[i + 1].free)
  }

  /** Earlier blocks end before later ones start. */
  lemma {:induction false} InOrder(bs: seq<Block>, h: nat, start: int, end: int, i: nat, j: nat)
    requires Tiles(bs, h, start, end) && i < j < |bs|
    ensures bs[i].addr + h + bs[i].size <= bs[j].addr
    decreases j - i
  {
    if i + 1 < j {
      InOrder(bs, h, start, end, i + 1, j);
    }
  }

  lemma {:induction false} Inside(bs: seq<Block>, h: nat, start: int, end: int, i: nat)
    requires Tiles(bs, h, start, end) && i < |bs|
    ensures start <= bs[i].addr && bs[i].addr + h + bs[i].size <= end
  {
    if 0 < i {
      InOrder(bs, h, start, end, 0, i);
    }
    if i < |bs| - 1 {
      InOrder(bs, h, start, end, i, |bs| - 1);
    }
  }

  // ---- splitting and merging ---------------------------------------------------------------

  function Split(bs: seq<Block>, h: nat, i: nat, n: nat): (r: seq<Block>)
    requires i < |bs| && n + h <= bs[i].size
    ensures |r| == |bs| + 1
  {
    var b := bs[i];
    bs[..i] + [Block(b.addr, n, false), Block(b.addr + h + n, b.size - n - h, true)] + bs[i + 1..]
  }

  lemma SplitTiles(bs: seq<Block>, h: nat, start: int, end: int, i: nat, n: nat)
    requires Tiles(bs, h, start, end) && i < |bs| && n + h <= bs[i].size
    ensures Tiles(Split(bs, h, i, n), h, start, end)
  {
    var r := Split(bs, h, i, n);
    forall k | 0 <= k < |r| - 1 ensures r[k + 1].addr == r[k].addr + h + r[k].size {
      if k > i + 1 {
        assert r[k] == bs[k - 1] && r[k + 1] == bs[k];
        assert bs[k - 1 + 1].addr == bs[k - 1].addr + h + bs[k - 1].size;
      } else if k == i + 1 {
        assert r[k + 1] == bs[i + 1];
      } else if k + 1 < i {
        assert r[k] == bs[k] && r[k + 1] == bs[k + 1];
      }
    }
  }

  /** A free block has no free neighbours, so neither half has one. */
  lemma SplitSeparated(bs: seq<Block>, h: nat, i: nat, n: nat)
    requires Separated(bs) && i < |bs| && n + h <= bs[i].size && bs[i].free
    ensures Separated(Split(bs, h, i, n))
  {
    var r := Split(bs, h, i, n);
    forall k | 0 <= k < |r| - 1 ensures !(r[k].free && r[k + 1].free) {
      if k > i + 1 {
        assert r[k] == bs[k - 1] && r[k + 1] == bs[k];
        assert !(bs[k - 1].free && bs[k - 1 + 1].free);
      } else if k == i + 1 {
        assert r[k + 1] == bs[i + 1];
      } else if k + 1 < i {
        assert r[k] == bs[k] && r[k + 1] == bs[k + 1];
      }
    }
  }

  /** Block i absorbs the one after it. */
  function Merge(bs: seq<Block>, h: nat, i: nat): (r: seq<Block>)
    requires i + 1 < |bs|
    ensures |r| == |bs| - 1
  {
    bs[..i] + [bs[i].(size := bs[i].size + h + bs[i + 1].size)] + bs[i + 2..]
  }

  lemma MergeTiles(bs: seq<Block>, h: nat, start: int, end: int, i: nat)
    requires Tiles(bs, h, start, end) && i + 1 < |bs|
    ensures Tiles(Merge(bs, h, i), h, start, end)
  {
    var r := Merge(bs, h, i);
    assert bs[i + 1].addr == bs[i].addr + h + bs[i].size;
    forall k | 0 <= k < |r| - 1 ensures r[k + 1].addr == r[k].addr + h + r[k].size {
      if k > i {
        assert r[k] == bs[k + 1] && r[k + 1] == bs[k + 2];
        assert bs[k + 1 + 1].addr == bs[k + 1].addr + h + bs[k + 1].size;
      } else if k == i {
        assert r[k + 1] == bs[i + 2];
        assert bs[i + 1 + 1].addr == bs[i + 1].addr + h + bs[i + 1].size;
      } else if k + 1 < i {
        assert r[k] == bs[k] && r[k + 1] == bs[k + 1];
      }
    }
  }

  lemma MarkTiles(bs: seq<Block>, h: nat, start: int, end: int, i: nat, free: bool)
    requires Tiles(bs, h, start, end) && i < |bs|
    ensures Tiles(bs[i := bs[i].(free := free)], h, start, end)
  {
    var r := bs[i := bs[i].(free := free)];
    forall k | 0 <= k < |r| - 1 ensures r[k + 1].addr == r[k].addr + h + r[k].size {
      assert bs[k + 1].addr == bs[k].addr + h + bs[k].size;
    }
  }

  lemma AppendTiles(bs: seq<Block>, h: nat, start: int, end: int, b: Block)
    requires Tiles(bs, h, start, end) && b.addr == end
    ensures Tiles(bs + [b], h, start, end + h + b.size)
  {
    var r := bs + [b];
    forall k | 0 <= k < |r| - 1 ensures r[k + 1].addr == r[k].addr + h + r[k].size {
      if k + 1 < |bs| {
        assert r[k] == bs[k] && r[k + 1] == bs[k + 1];
      }
    }
  }

  /** The total of a tiling is its range. */
  function Total(bs: seq<Block>, h: nat): nat {
    if bs == [] then 0 else Total(bs[..|bs| - 1], h) + h + bs[|bs| - 1].size
  }

  lemma {:induction false} TotalIsRange(bs: seq<Block>, h: nat, start: int, end: int)
    requires Tiles(bs, h, start, end)
    ensures Total(bs, h) == end - start
    decreases |bs|
  {
    if bs != [] {
      var n := |bs| - 1;
      var front := bs[..n];
      if n > 0 {
        assert bs[n - 1 + 1].addr == bs[n - 1].addr + h + bs[n - 1].size;
      }
      assert Tiles(front, h, start, bs[n].addr) by {
        forall i | 0 <= i < |front| - 1 ensures front[i + 1].addr == front[i].addr + h + front[i].size {
          assert bs[i + 1].addr == bs[i].addr + h + bs[i].size;
        }
      }
      TotalIsRange(front, h, start, bs[n].addr);
    }
  }

  // ---- who owns what ---------------------------------------------------------------------------

  /** The grants of the used blocks: every used block has one, inside its usable bytes. */
  ghost predicate Owned(bs: seq<Block>, h: nat, gs: seq<Option<Grant>>) {
    |gs| == |bs| && forall i :: 0 <= i < |bs| ==> OwnedAt(bs[i], h, gs[i])
  }

  predicate OwnedAt(b: Block, h: nat, g: Option<Grant>) {
    if b.free then g == None
    else g.Some? && b.addr + h <= g.value.ptr && g.value.ptr + g.value.n <= b.addr + h + b.size
  }

  function Live(gs: seq<Option<Grant>>): set<Grant> {
    set g | g in gs && g.Some? :: g.value
  }

  /** Two grants never overlap. */
  lemma LiveApart(bs: seq<Block>, h: nat, start: int, end: int, gs: seq<Option<Grant>>, i: nat, j: nat)
    requires Tiles(bs, h, start, end) && Owned(bs, h, gs) && i < j < |bs| && gs[i].Some? && gs[j].Some?
    ensures Apart(gs[i].value, gs[j].value)
  {
    InOrder(bs, h, start, end, i, j);
    assert OwnedAt(bs[i], h, gs[i]) && OwnedAt(bs[j], h, gs[j]);
  }

  /** All live grants are disjoint. */
  lemma GrantsApart(bs: seq<Block>, h: nat, start: int, end: int, gs: seq<Option<Grant>>)
    requires Tiles(bs, h, start, end) && Owned(bs, h, gs)
    ensures forall x, y :: x in Live(gs) && y in Live(gs) && x != y ==> Apart(x, y)
  {
    hide Tiles;
    forall x, y | x in Live(gs) && y in Live(gs) && x != y ensures Apart(x, y) {
      var i :| 0 <= i < |gs| && gs[i] == Some(x);
      var j :| 0 <= j < |gs| && gs[j] == Some(y);
      if i < j {
        LiveApart(bs, h, start, end, gs, i, j);
      } else {
        LiveApart(bs, h, start, end, gs, j, i);
      }
    }
  }

  lemma LiveGranted(gs: seq<Option<Grant>>, i: nat, g: Grant, gs': seq<Option<Grant>>)
    requires i < |gs| && gs[i] == None && (gs' == gs[i := Some(g)] || gs' == gs[..i] + [Some(g), None] + gs[i + 1..])
    ensures Live(gs') == Live(gs) + {g}
  {
    forall x | x in Live(gs) + {g} ensures Some(x) in gs' {
      if x != g {
        var k :| 0 <= k < |gs| && gs[k] == Some(x);
        assert gs' == gs[i := Some(g)] || (if k < i then gs'[k] else gs'[k + 1]) == gs[k];
        assert gs' == gs[i := Some(g)] ==> gs'[k] == gs[k];
      } else {
        assert gs'[i] == Some(g);
      }
    }
    forall x | Some(x) in gs' ensures x in Live(gs) + {g} {
      var k :| 0 <= k < |gs'| && gs'[k] == Some(x);
      if k != i {
        var k' := if gs' == gs[i := Some(g)] || k < i then k else k - 1;
        assert gs[k'] == Some(x);
      }
    }
  }

  lemma SplitOwned(bs: seq<Block>, h: nat, gs: seq<Option<Grant>>, i: nat, n: nat, g: Grant)
    requires Owned(bs, h, gs) && i < |bs| && n + h <= bs[i].size && bs[i].addr + h <= g.ptr &&
      g.ptr + g.n <= bs[i].addr + h + n
    ensures Owned(Split(bs, h, i, n), h, gs[..i] + [Some(g), None] + gs[i + 1..])
  {
    var r, rs := Split(bs, h, i, n), gs[..i] + [Some(g), None] + gs[i + 1..];
    forall k | 0 <= k < |r| ensures OwnedAt(r[k], h, rs[k]) {
      if k < i {
        assert OwnedAt(bs[k], h, gs[k]);
      } else if k > i + 1 {
        assert OwnedAt(bs[k - 1], h, gs[k - 1]);
      }
    }
  }

  lemma MarkOwned(bs: seq<Block>, h: nat, gs: seq<Option<Grant>>, i: nat, b: Block, g: Option<Grant>)
    requires Owned(bs, h, gs) && i < |bs| && OwnedAt(b, h, g)
    ensures Owned(bs[i := b], h, gs[i := g])
  {
    var r, rs := bs[i := b], gs[i := g];
    forall k | 0 <= k < |r| ensures OwnedAt(r[k], h, rs[k]) {
      if k != i {
        assert OwnedAt(bs[k], h, gs[k]);
      }
    }
  }

  /** Two free blocks become one. */
  lemma MergeOwned(bs: seq<Block>, h: nat, gs: seq<Option<Grant>>, i: nat)
    requires Owned(bs, h, gs) && i + 1 < |bs| && bs[i].free && bs[i + 1].free
    ensures Owned(Merge(bs, h, i), h, gs[..i + 1] + gs[i + 2..]) && Live(gs[..i + 1] + gs[i + 2..]) == Live(gs)
  {
    var r, rs := Merge(bs, h, i), gs[..i + 1] + gs[i + 2..];
    assert OwnedAt(bs[i], h, gs[i]) && OwnedAt(bs[i + 1], h, gs[i + 1]);
    forall k | 0 <= k < |r| ensures OwnedAt(r[k], h, rs[k]) {
      if k < i {
        assert OwnedAt(bs[k], h, gs[k]);
      } else if k > i {
        assert OwnedAt(bs[k + 1], h, gs[k + 1]);
      }
    }
    forall x | Some(x) in gs ensures Some(x) in rs {
      var k :| 0 <= k < |gs| && gs[k] == Some(x);
      assert rs[if k <= i then k else k - 1] == Some(x);
    }
  }

  /** What is freed is gone from the live grants, and nothing else. */
  lemma LiveFreed(bs: seq<Block>, h: nat, start: int, end: int, gs: seq<Option<Grant>>, i: nat)
    requires Tiles(bs, h, start, end) && Owned(bs, h, gs) && i < |bs| && gs[i].Some? && h > 0
    ensures Live(gs[i := None]) == Live(gs) - {gs[i].value}
  {
    var rs, g := gs[i := None], gs[i].value;
    forall x | Some(x) in rs ensures x != g && Some(x) in gs {
      var k :| 0 <= k < |rs| && rs[k] == Some(x);
      assert gs[k] == Some(x);
      assert OwnedAt(bs[k], h, gs[k]) && OwnedAt(bs[i], h, gs[i]);
      if k < i {
        InOrder(bs, h, start, end, k, i);
      } else {
        InOrder(bs, h, start, end, i, k);
      }
    }
    forall x | Some(x) in gs && x != g ensures Some(x) in rs {
      var k :| 0 <= k < |gs| && gs[k] == Some(x);
      assert rs[k] == Some(x);
    }
  }
}
