/** A disk as a string of bytes, and where src/fat16.rs keeps things on it. */
module Disk {
  import opened Base

  const SECTOR: nat := 512
  const ENTRY: nat := 32

  /** d with b written at p. */
  function Splice(d: seq<byte>, p: nat, b: seq<byte>): (r: seq<byte>)
    requires p + |b| <= |d|
    ensures |r| == |d|
  {
    d[..p] + b + d[p + |b|..]
  }

  lemma SpliceRead(d: seq<byte>, p: nat, b: seq<byte>)
    requires p + |b| <= |d|
    ensures Splice(d, p, b)[p..p + |b|] == b
  {
  }

  lemma SpliceElsewhere(d: seq<byte>, p: nat, b: seq<byte>, q: nat, n: nat)
    requires p + |b| <= |d| && q + n <= |d| && (q + n <= p || p + |b| <= q)
    ensures Splice(d, p, b)[q..q + n] == d[q..q + n]
  {
    var r := Splice(d, p, b);
    if q + n <= p {
      assert r[..p] == d[..p];
      SubTake(r, p, q, q + n);
      SubTake(d, p, q, q + n);
    } else {
      var e := p + |b|;
      assert r[e..] == d[e..];
      SubDrop(r, e, q - e, q + n - e);
      SubDrop(d, e, q - e, q + n - e);
    }
  }

  lemma SpliceOn(d: seq<byte>, p: nat, a: seq<byte>, b: seq<byte>)
    requires p + |a| + |b| <= |d|
    ensures Splice(Splice(d, p, a), p + |a|, b) == Splice(d, p, a + b)
  {
  }

  lemma SpliceNothing(d: seq<byte>, p: nat)
    requires p <= |d|
    ensures Splice(d, p, []) == d
  {
  }

  /** The layout init computes from the boot sector: sector numbers and sizes. */
  datatype Geometry = Geometry(spc: nat, reserved: nat, numFats: nat, rootCount: nat, fatSize: nat)
  {
    function ClusterSize(): nat { spc * SECTOR }
    function FirstFat(): nat { reserved }
    function RootSectors(): nat { (rootCount * 32 + 511) / 512 }
    function FirstRoot(): nat { FirstFat() + numFats * fatSize }
    function FirstData(): nat { FirstRoot() + RootSectors() }
    // Two bytes each, 256 to a sector.
    function FatEntries(): nat { fatSize * 256 }

    function FatPos(f: nat): nat { (FirstFat() + f * fatSize) * SECTOR }
    function RootPos(i: nat): nat { FirstRoot() * SECTOR + ENTRY * i }
    function DataPos(c: nat): nat
      requires c >= 2
    {
      (FirstData() + (c - 2) * spc) * SECTOR
    }

    /** The fields init accepts, few enough FAT entries, and a disk that backs them all. */
    predicate Sound(size: nat) {
      spc >= 1 && numFats >= 1 && fatSize >= 1 && FatEntries() <= 0xFFF8 && DataPos(FatEntries()) <= size
    }
  }

  /** The regions follow each other: the FATs after the reserved sectors, the root directory after
      the last FAT, the clusters from the first whole sector after it, each of spc sectors. */
  lemma Regions(g: Geometry, c: nat)
    requires c >= 2
    ensures g.FatPos(0) == 512 * g.reserved && g.RootPos(0) == g.FatPos(g.numFats)
    ensures forall f :: 0 <= f ==> g.FatPos(f + 1) == g.FatPos(f) + 512 * g.fatSize
    ensures forall i :: 0 <= i ==> g.RootPos(i + 1) == g.RootPos(i) + 32
    ensures g.RootPos(g.rootCount) <= g.DataPos(2) < g.RootPos(g.rootCount) + 512 && g.DataPos(2) % 512 == 0
    ensures g.DataPos(c + 1) == g.DataPos(c) + 512 * g.spc == g.DataPos(c) + g.ClusterSize()
    ensures 512 * g.fatSize == 2 * g.FatEntries()
  {
    assert (c - 1) * g.spc == (c - 2) * g.spc + g.spc;
    forall f: nat ensures g.FatPos(f + 1) == g.FatPos(f) + 512 * g.fatSize {
      assert (f + 1) * g.fatSize == f * g.fatSize + g.fatSize;
    }
  }

  lemma ClusterInside(g: Geometry, size: nat, c: nat)
    requires g.Sound(size) && 2 <= c < g.FatEntries()
    ensures g.FirstData() * SECTOR <= g.DataPos(c) && g.DataPos(c) + g.ClusterSize() <= size
  {
    Mul(c - 2 + 1, g.FatEntries() - 2, g.spc);
    Mul(0, c - 2, g.spc);
    assert (c - 2 + 1) * g.spc == (c - 2) * g.spc + g.spc;
  }

  lemma ClustersApart(g: Geometry, a: nat, b: nat)
    requires 2 <= a < b
    ensures g.DataPos(a) + g.ClusterSize() <= g.DataPos(b)
  {
    Mul(a - 2 + 1, b - 2, g.spc);
    assert (a - 2 + 1) * g.spc == (a - 2) * g.spc + g.spc;
  }

  lemma Mul(a: int, b: int, n: nat)
    requires a <= b
    ensures a * n <= b * n
  {
  }

  /** Root entries lie between the FATs and the clusters. */
  lemma RootInside(g: Geometry, size: nat, i: nat)
    requires g.Sound(size) && i < g.rootCount
    ensures g.RootPos(i) + ENTRY <= g.FirstData() * SECTOR <= size
    ensures g.FirstRoot() * SECTOR <= g.RootPos(i)
  {
    assert 32 * g.rootCount <= g.RootSectors() * 512;
    Mul(0, g.FatEntries() - 2, g.spc);
  }

  /** FAT copies lie one after the other below the root directory. */
  lemma FatInside(g: Geometry, size: nat, f: nat)
    requires g.Sound(size) && f < g.numFats
    ensures g.FatPos(f) + g.fatSize * SECTOR ==
      g.FatPos(f + 1) <= g.FirstRoot() * SECTOR <= g.FirstData() * SECTOR <= size
  {
    assert (f + 1) * g.fatSize == f * g.fatSize + g.fatSize;
    Mul(f + 1, g.numFats, g.fatSize);
    Mul(0, g.FatEntries() - 2, g.spc);
  }

  lemma FatsApart(g: Geometry, a: nat, b: nat)
    requires a < b
    ensures g.FatPos(a) + g.fatSize * SECTOR <= g.FatPos(b)
  {
    assert (a + 1) * g.fatSize == a * g.fatSize + g.fatSize;
    Mul(a + 1, b, g.fatSize);
  }
}
