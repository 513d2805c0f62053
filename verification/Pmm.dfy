/** The physical page allocator (src/pmm.rs): a bitmap, a set bit for a page in use. */
module Pmm {
  const MAX_PAGES: nat := 1048576
  const PAGE: nat := 4096

  /** Clear bits, the free pages. */
  function Clear(bits: seq<bool>): nat {
    if bits == [] then 0 else Clear(bits[..|bits| - 1]) + if bits[|bits| - 1] then 0 else 1
  }

  lemma {:induction false} ClearSet(bits: seq<bool>, i: nat, b: bool)
    requires i < |bits|
    ensures Clear(bits[i := b]) == Clear(bits) - (if bits[i] then 0 else 1) + (if b then 0 else 1)
    decreases |bits|
  {
    var n := |bits| - 1;
    if i < n {
      ClearSet(bits[..n], i, b);
      assert bits[i := b][..n] == bits[..n][i := b];
    } else {
      assert bits[i := b][..n] == bits[..n];
    }
  }

  lemma {:induction false} NoneClear(bits: seq<bool>)
    requires forall i :: 0 <= i < |bits| ==> bits[i]
    ensures Clear(bits) == 0
    decreases |bits|
  {
    if bits != [] {
      NoneClear(bits[..|bits| - 1]);
    }
  }

  class PageAllocator {
    const bitmap: array<bool>
    var freePages: nat

    /** Everything in use, as init starts out. */
    constructor ()
      ensures Valid() && fresh(bitmap) && freePages == 0
    {
      bitmap := new bool[MAX_PAGES](_ => true);
      freePages := 0;
      new;
      NoneClear(bitmap[..]);
    }

    /** The free count is the number of clear bits. */
    ghost predicate Valid()
      reads this, bitmap
    {
      bitmap.Length == MAX_PAGES && freePages == Clear(bitmap[..])
    }

    method Set(p: nat, b: bool)
      requires bitmap.Length == MAX_PAGES && p < MAX_PAGES
      modifies bitmap
      ensures bitmap[..] == old(bitmap[..])[p := b]
      ensures Clear(bitmap[..]) == old(Clear(bitmap[..])) - (if old(bitmap[p]) then 0 else 1) + (if b then 0 else 1)
    {
      ClearSet(bitmap[..], p, b);
      bitmap[p] := b;
      assert bitmap[..] == old(bitmap[..])[p := b];
    }

    /** Free the pages that lie entirely in [base, base + length). */
    method MarkRegionFree(base: nat, length: nat)
      requires Valid() && base + length < 0x1000_0000_0000
      modifies this`freePages, bitmap
      ensures Valid()
      ensures forall p :: 0 <= p < MAX_PAGES ==>
        bitmap[p] == (old(bitmap[p]) && !(base / PAGE <= p < (base + length) / PAGE))
    {
      var first, end := base / PAGE, (base + length) / PAGE;
      if first >= MAX_PAGES {
        return;
      }
      if end > MAX_PAGES {
        end := MAX_PAGES;
      }
      var p := first;
      while p < end
        invariant first <= p && (first <= end ==> p <= end) && Valid()
        invariant forall q :: 0 <= q < MAX_PAGES ==> bitmap[q] == (old(bitmap[q]) && !(first <= q < p))
      {
        if bitmap[p] {
          Set(p, false);
          freePages := freePages + 1;
        }
        p := p + 1;
      }
    }

    /** Reserve every page that [base, base + length) touches. */
    method MarkRegionUsed(base: nat, length: nat)
      requires Valid() && base + length + PAGE < 0x1000_0000_0000
      modifies this`freePages, bitmap
      ensures Valid()
      ensures forall p :: 0 <= p < MAX_PAGES ==>
        bitmap[p] == (old(bitmap[p]) || base / PAGE <= p < (base + length + PAGE - 1) / PAGE)
    {
      var first, end := base / PAGE, (base + length + PAGE - 1) / PAGE;
      if first >= MAX_PAGES {
        return;
      }
      if end > MAX_PAGES {
        end := MAX_PAGES;
      }
      var p := first;
      while p < end
        invariant first <= p && (first <= end ==> p <= end) && Valid()
        invariant forall q :: 0 <= q < MAX_PAGES ==> bitmap[q] == (old(bitmap[q]) || first <= q < p)
      {
        if !bitmap[p] {
          Set(p, true);
          freePages := freePages - 1;
        }
        p := p + 1;
      }
    }

    /** The lowest free page, word by word and bit by bit; 0 if there is none.  A free
        page 0 is handed out as 0, so it is lost. */
    method AllocPage() returns (addr: nat)
      requires Valid()
      modifies this`freePages, bitmap
      ensures Valid() && addr % PAGE == 0 && addr / PAGE < MAX_PAGES
      ensures addr != 0 ==>
        !old(bitmap[addr / PAGE]) && bitmap[..] == old(bitmap[..])[addr / PAGE := true] &&
        freePages == old(freePages) - 1
      ensures addr == 0 ==>
        (old(bitmap[0]) ==> bitmap[..] == old(bitmap[..]) && freePages == 0) &&
        (!old(bitmap[0]) ==> bitmap[..] == old(bitmap[..])[0 := true])
      ensures forall p :: 0 <= p < addr / PAGE ==> old(bitmap[p])
    {
      var i := 0;
      while i < MAX_PAGES / 32
        invariant i <= MAX_PAGES / 32 && Valid() && bitmap[..] == old(bitmap[..]) && freePages == old(freePages)
        invariant forall p :: 0 <= p < 32 * i ==> bitmap[p]
      {
        var bit := 0;
        while bit < 32
          invariant bit <= 32 && Valid() && bitmap[..] == old(bitmap[..]) && freePages == old(freePages)
          invariant forall p :: 0 <= p < 32 * i + bit ==> bitmap[p]
        {
          var p := i * 32 + bit;
          if !bitmap[p] {
            Set(p, true);
            freePages := freePages - 1;
            return p * PAGE;
          }
          bit := bit + 1;
        }
        i := i + 1;
      }
      NoneClear(bitmap[..]);
      return 0;
    }

    /** Give a page back; 0, pages out of range and free pages are ignored. */
    method FreePage(addr: nat)
      requires Valid() && addr < 0x1000_0000_0000
      modifies this`freePages, bitmap
      ensures Valid()
      ensures var p := addr / PAGE;
        if addr == 0 || p >= MAX_PAGES || !old(bitmap[p]) then bitmap[..] == old(bitmap[..]) &&
        freePages == old(freePages)
        else bitmap[..] == old(bitmap[..])[p := false] && freePages == old(freePages) + 1
    {
      if addr == 0 {
        return;
      }
      var p := addr / PAGE;
      if p >= MAX_PAGES {
        return;
      }
      if bitmap[p] {
        Set(p, false);
        freePages := freePages + 1;
      }
    }
  }
}
