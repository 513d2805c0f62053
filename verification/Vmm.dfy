/** Four-level page tables (src/vmm.rs) kept in physical frames. */
module Vmm {
  import opened Base
  import opened Pmm

  type u64 = x: int | 0 <= x < 0x1_0000_0000_0000_0000

  /** A frame of physical memory, as 512 words; a page table if it is used as one. */
  type Table = t: seq<u64> | |t| == 512 witness seq(512, _ => 0)
  type Memory = map<int, Table>

  /** Indices from the root table down. */
  type Path = seq<nat>

  predicate Present(e: u64) { e % 2 == 1 }
  predicate Huge(e: u64) { e / 128 % 2 == 1 }

  /** Bits 12 to 51, the address in an entry. */
  function Frame(e: u64): int { e / 4096 % 0x100_0000_0000 * 4096 }

  /** An entry that refers to a lower table rather than a 2 MB or 1 GB page. */
  predicate IsTable(e: u64) { Present(e) && !Huge(e) }

  function Pml4Index(v: u64): nat { v / 0x80_0000_0000 % 512 }
  function PdptIndex(v: u64): nat { v / 0x4000_0000 % 512 }
  function PdIndex(v: u64): nat { v / 0x20_0000 % 512 }
  function PtIndex(v: u64): nat { v / 0x1000 % 512 }

  /** The number of the virtual page: the 36 bits above the page offset. */
  function Vpn(v: u64): nat { v / 4096 % 0x10_0000_0000 }

  /** The four indices are the digits of the page number. */
  lemma IndicesAreVpn(v: u64)
    ensures Vpn(v) == ((Pml4Index(v) * 512 + PdptIndex(v)) * 512 + PdIndex(v)) * 512 + PtIndex(v)
  {
    var n, o := v / 4096, v % 4096;
    var a, d := n / 512, n % 512;
    var b, e := a / 512, a % 512;
    var c, f := b / 512, b % 512;
    Quotient(v, 0x20_0000, a, d * 4096 + o);
    Quotient(v, 0x4000_0000, b, (e * 512 + d) * 4096 + o);
    Quotient(v, 0x80_0000_0000, c, ((f * 512 + e) * 512 + d) * 4096 + o);
    Quotient(n, 0x10_0000_0000, c / 512, ((c % 512 * 512 + f) * 512 + e) * 512 + d);
  }

  lemma SameIndices(v: u64, w: u64)
    ensures Vpn(v) == Vpn(w) <==>
      Pml4Index(v) == Pml4Index(w) && PdptIndex(v) == PdptIndex(w) && PdIndex(v) == PdIndex(w) &&
      PtIndex(v) == PtIndex(w)
  {
    IndicesAreVpn(v);
    IndicesAreVpn(w);
  }

  function Child(p: Path, i: nat): Path { p + [i] }

  /** tree gives the frame of every table that can be reached: the root, and one for
      every table entry.  No frame is used for two tables. */
  ghost predicate Tree(mem: Memory, tree: map<Path, int>, root: int) {
    [] in tree && tree[[]] == root &&
    (forall p :: p in tree ==> |p| <= 3 && tree[p] in mem) &&
    (forall p, q :: p in tree && q in tree && tree[p] == tree[q] ==> p == q) &&
    (forall p :: p in tree && p != [] ==> p[..|p| - 1] in tree && p[|p| - 1] < 512) &&
    (forall p: Path, i: nat {:trigger Child(p, i)} :: p in tree && |p| < 3 && i < 512 ==>
      (Child(p, i) in tree) == IsTable(mem[tree[p]][i]) &&
      (Child(p, i) in tree ==> tree[Child(p, i)] == Frame(mem[tree[p]][i])))
  }

  /** The last-level entry for the page with these indices; 0 where tables are missing. */
  ghost function PteAt(mem: Memory, tree: map<Path, int>, root: int, p: Path, d: nat): u64
    requires Tree(mem, tree, root) && |p| == 3 && d < 512
  {
    if p in tree then mem[tree[p]][d] else 0
  }

  /** One empty table is added below table p. */
  ghost predicate Extended(mem: Memory, tree: map<Path, int>, mem': Memory, tree': map<Path, int>, p: Path, i: nat,
                           f: u64)
    requires p in tree && tree[p] in mem && i < 512
  {
    f < 0x10_0000_0000_0000 - 4096 && Child(p, i) !in tree && (forall q :: q in tree ==> tree[q] != f) &&
    tree' == tree[Child(p, i) := f] && mem' == mem[tree[p] := mem[tree[p]][i := f + 7]][f := seq(512, _ => 0)]
  }

  lemma ExtendedTree(mem: Memory, tree: map<Path, int>, root: int, mem': Memory, tree': map<Path, int>, p: Path, i: nat,
                     f: u64)
    requires Tree(mem, tree, root) && p in tree && |p| < 3 && i < 512 && f % 4096 == 0 &&
      Extended(mem, tree, mem', tree', p, i, f)
    ensures Tree(mem', tree', root)
  {
    hide Frame, IsTable;
    ChildIs(p, i);
    forall q: Path, j: nat {:trigger Child(q, j)} | q in tree' && |q| < 3 && j < 512
      ensures (Child(q, j) in tree') == IsTable(mem'[tree'[q]][j])
      ensures Child(q, j) in tree' ==> tree'[Child(q, j)] == Frame(mem'[tree'[q]][j])
    {
      ExtendedChild(mem, tree, root, mem', tree', p, i, f, q, j);
    }
  }

  lemma ExtendedChild(mem: Memory, tree: map<Path, int>, root: int, mem': Memory, tree': map<Path, int>, p: Path,
                      i: nat, f: u64, q: Path, j: nat)
    requires Tree(mem, tree, root) && p in tree && |p| < 3 && i < 512 && f % 4096 == 0 &&
      Extended(mem, tree, mem', tree', p, i, f)
    requires q in tree' && |q| < 3 && j < 512
    ensures tree'[q] in mem' && (Child(q, j) in tree') == IsTable(mem'[tree'[q]][j])
    ensures Child(q, j) in tree' ==> tree'[Child(q, j)] == Frame(mem'[tree'[q]][j])
  {
    TableEntry(f);
    hide Frame, IsTable;
    ChildIs(q, j);
    ChildIs(p, i);
    var c := Child(p, i);
    if q == c {
      assert c == Child(c, j)[..|Child(c, j)| - 1];
      assert Child(c, j) !in tree;
    } else {
      assert Child(q, j) == c <==> q == p && j == i;
      assert q != p ==> tree[q] != tree[p];
    }
  }

  lemma TableEntry(f: u64)
    requires f % 4096 == 0 && f < 0x10_0000_0000_0000 - 4096
    ensures Frame(f + 7) == f && IsTable(f + 7) && !IsTable(0)
  {
    var q := f / 4096;
    Quotient(f + 7, 4096, q, 7);
    Quotient(f + 7, 128, 32 * q, 7);
    Quotient(f + 7, 2, 2048 * q + 3, 1);
    Quotient(32 * q, 2, 16 * q, 0);
    Quotient(q, 0x100_0000_0000, 0, q);
  }

  lemma ChildIs(p: Path, i: nat)
    ensures |Child(p, i)| == |p| + 1 && Child(p, i)[..|p|] == p && Child(p, i)[|p|] == i
  {
  }

  /** An empty table changes no translation. */
  lemma ExtendedSame(mem: Memory, tree: map<Path, int>, root: int, mem': Memory, tree': map<Path, int>, p: Path, i: nat,
                     f: u64, q: Path, d: nat)
    requires Tree(mem, tree, root) && p in tree && |p| < 3 && i < 512 && f % 4096 == 0 &&
      Extended(mem, tree, mem', tree', p, i, f)
    requires Tree(mem', tree', root) && |q| == 3 && d < 512
    ensures PteAt(mem', tree', root, q, d) == PteAt(mem, tree, root, q, d)
  {
    hide Frame, IsTable, Tree;
    ChildIs(p, i);
    if q in tree {
      TablesApart(mem, tree, root, p, q);
    }
  }

  /** Writing one last-level entry changes that entry and no other. */
  lemma EntryWritten(mem: Memory, tree: map<Path, int>, root: int, p: Path, d: nat, e: u64)
    requires Tree(mem, tree, root) && |p| == 3 && p in tree && d < 512
    ensures var mem' := mem[tree[p] := mem[tree[p]][d := e]];
      Tree(mem', tree, root) &&
      forall q: Path, k: nat :: |q| == 3 && k < 512 ==>
        PteAt(mem', tree, root, q, k) == if q == p && k == d then e else PteAt(mem, tree, root, q, k)
  {
    hide Frame, IsTable;
    var mem' := mem[tree[p] := mem[tree[p]][d := e]];
    forall q: Path, j: nat {:trigger Child(q, j)} | q in tree && |q| < 3 && j < 512
      ensures (Child(q, j) in tree) == IsTable(mem'[tree[q]][j])
      ensures Child(q, j) in tree ==> tree[Child(q, j)] == Frame(mem'[tree[q]][j])
    {
      assert tree[q] != tree[p];
    }
  }

  // ---- what the processor makes of it -----------------------------------------------------------

  /** The address in a 2 MB and in a 1 GB entry: bits 21 and 30 up to 51. */
  function BigFrame(e: u64): int { e / 0x20_0000 % 0x8000_0000 * 0x20_0000 }
  function GiantFrame(e: u64): int { e / 0x4000_0000 % 0x40_0000 * 0x4000_0000 }

  predicate IsBig(e: u64) { Present(e) && Huge(e) }

  /** v lies in a 2 MB page. */
  ghost predicate BigAt(mem: Memory, tree: map<Path, int>, root: int, v: u64)
    requires Tree(mem, tree, root)
  {
    var p := [Pml4Index(v), PdptIndex(v)];
    p in tree && IsBig(mem[tree[p]][PdIndex(v)])
  }

  /** The entry of that 2 MB page. */
  ghost function BigEntry(mem: Memory, tree: map<Path, int>, root: int, v: u64): u64
    requires Tree(mem, tree, root) && BigAt(mem, tree, root, v)
  {
    mem[tree[[Pml4Index(v), PdptIndex(v)]]][PdIndex(v)]
  }

  /** Where the processor finds v. */
  ghost function Translation(mem: Memory, tree: map<Path, int>, root: int, v: u64): Option<int>
    requires Tree(mem, tree, root)
  {
    var a, b := Pml4Index(v), PdptIndex(v);
    var e := PteAt(mem, tree, root, TablePath(v), PtIndex(v));
    if [a] in tree && IsBig(mem[tree[[a]]][b]) then Some(GiantFrame(mem[tree[[a]]][b]) + v % 0x4000_0000)
    else if BigAt(mem, tree, root, v) then Some(BigFrame(BigEntry(mem, tree, root, v)) + v % 0x20_0000)
    else if Present(e) then Some(Frame(e) + v % 4096)
    else None
  }

  /** The addresses of the larger pages are those of 4 KB pages, rounded down. */
  lemma LargeFrames(e: u64)
    ensures BigFrame(e) == Frame(e) / 0x20_0000 * 0x20_0000
    ensures GiantFrame(e) == Frame(e) / 0x4000_0000 * 0x4000_0000
  {
    var n := e / 4096;
    var f := n % 0x100_0000_0000;
    Quotient(e, 0x20_0000, n / 512, n % 512 * 4096 + e % 4096);
    Quotient(f * 4096, 0x20_0000, f / 512, f % 512 * 4096);
    Quotient(n / 512, 0x8000_0000, n / 0x100_0000_0000, f / 512);
    Quotient(e, 0x4000_0000, n / 0x4_0000, n % 0x4_0000 * 4096 + e % 4096);
    Quotient(f * 4096, 0x4000_0000, f / 0x4_0000, f % 0x4_0000 * 4096);
    Quotient(n / 0x4_0000, 0x40_0000, n / 0x100_0000_0000, f / 0x4_0000);
  }

  /** Within a page of any size physical addresses keep their distance. */
  lemma SameDistance(mem: Memory, tree: map<Path, int>, root: int, v: u64, w: u64)
    requires Tree(mem, tree, root) && Translation(mem, tree, root, v).Some?
    requires var a, b := Pml4Index(v), PdptIndex(v);
      if [a] in tree && IsBig(mem[tree[[a]]][b]) then v / 0x4000_0000 == w / 0x4000_0000
      else if BigAt(mem, tree, root, v) then v / 0x20_0000 == w / 0x20_0000
      else v / 4096 == w / 4096
    ensures Translation(mem, tree, root, w).Some? &&
      Translation(mem, tree, root, w).value - Translation(mem, tree, root, v).value == w - v
  {
    hide Tree, PteAt, Frame, BigFrame, GiantFrame, IsBig, Present;
    HigherIndices(v);
    HigherIndices(w);
  }

  /** Every index is found in the number of the page, of whatever size. */
  lemma HigherIndices(v: u64)
    ensures v / 0x20_0000 == v / 4096 / 512 && v / 0x4000_0000 == v / 0x20_0000 / 512 &&
      v / 0x80_0000_0000 == v / 0x4000_0000 / 512
  {
    var n := v / 4096;
    Quotient(v, 0x20_0000, n / 512, n % 512 * 4096 + v % 4096);
    var m := v / 0x20_0000;
    Quotient(v, 0x4000_0000, m / 512, m % 512 * 0x20_0000 + v % 0x20_0000);
    var k := v / 0x4000_0000;
    Quotient(v, 0x80_0000_0000, k / 512, k % 512 * 0x4000_0000 + v % 0x4000_0000);
  }

  /** The same entries for 2 MB and 1 GB pages. */
  ghost predicate SameBig(mem: Memory, tree: map<Path, int>, mem': Memory, tree': map<Path, int>, root: int)
    requires Tree(mem, tree, root) && Tree(mem', tree', root)
  {
    forall q: Path, i: nat :: |q| < 3 && i < 512 ==>
      (q in tree && IsBig(mem[tree[q]][i]) <==> q in tree' && IsBig(mem'[tree'[q]][i])) &&
      (q in tree && IsBig(mem[tree[q]][i]) ==> mem'[tree'[q]][i] == mem[tree[q]][i])
  }

  /** Then only last-level entries make a difference. */
  lemma SameTranslation(mem: Memory, tree: map<Path, int>, mem': Memory, tree': map<Path, int>, root: int, v: u64)
    requires Tree(mem, tree, root) && Tree(mem', tree', root) && SameBig(mem, tree, mem', tree', root)
    requires PteAt(mem', tree', root, TablePath(v), PtIndex(v)) == PteAt(mem, tree, root, TablePath(v), PtIndex(v))
    ensures Translation(mem', tree', root, v) == Translation(mem, tree, root, v)
    ensures BigAt(mem', tree', root, v) == BigAt(mem, tree, root, v)
  {
    hide Tree, PteAt, Frame, GiantFrame, BigFrame, IsBig, Present, Pml4Index, PdptIndex, PdIndex, PtIndex;
    IndexRange(v);
    var a, b, c := Pml4Index(v), PdptIndex(v), PdIndex(v);
    assert |[a]| < 3 && |[a, b]| < 3;
  }

  function TablePath(v: u64): Path { [Pml4Index(v), PdptIndex(v), PdIndex(v)] }

  lemma ExtendedBig(mem: Memory, tree: map<Path, int>, root: int, mem': Memory, tree': map<Path, int>, p: Path, i: nat,
                    f: u64)
    requires Tree(mem, tree, root) && p in tree && |p| < 3 && i < 512 && f % 4096 == 0 &&
      Extended(mem, tree, mem', tree', p, i, f)
    requires Tree(mem', tree', root) && !IsBig(mem[tree[p]][i])
    ensures SameBig(mem, tree, mem', tree', root)
  {
    hide IsBig, Extended;
    forall q: Path, j: nat | |q| < 3 && j < 512
      ensures q in tree && IsBig(mem[tree[q]][j]) <==> q in tree' && IsBig(mem'[tree'[q]][j])
      ensures q in tree && IsBig(mem[tree[q]][j]) ==> mem'[tree'[q]][j] == mem[tree[q]][j]
    {
      ExtendedBigAt(mem, tree, root, mem', tree', p, i, f, q, j);
    }
  }

  lemma ExtendedBigAt(mem: Memory, tree: map<Path, int>, root: int, mem': Memory, tree': map<Path, int>, p: Path,
                      i: nat, f: u64, q: Path, j: nat)
    requires Tree(mem, tree, root) && p in tree && |p| < 3 && i < 512 && f % 4096 == 0 &&
      Extended(mem, tree, mem', tree', p, i, f)
    requires Tree(mem', tree', root) && !IsBig(mem[tree[p]][i]) && |q| < 3 && j < 512
    ensures q in tree && IsBig(mem[tree[q]][j]) <==> q in tree' && IsBig(mem'[tree'[q]][j])
    ensures q in tree && IsBig(mem[tree[q]][j]) ==> mem'[tree'[q]][j] == mem[tree[q]][j]
  {
    TableEntry(f);
    assert !IsBig(f + 7) && !IsBig(0);
    hide Frame, IsTable, IsBig, Tree;
    ChildIs(p, i);
    if q in tree {
      TablesApart(mem, tree, root, p, q);
    } else if q == Child(p, i) {
      assert mem'[f][j] == 0;
    }
  }

  lemma TablesApart(mem: Memory, tree: map<Path, int>, root: int, p: Path, q: Path)
    requires Tree(mem, tree, root) && p in tree && q in tree
    ensures tree[p] in mem && tree[q] in mem && (tree[p] == tree[q] ==> p == q)
  {
  }

  lemma BigOn(mem: Memory, tree: map<Path, int>, mem1: Memory, tree1: map<Path, int>, mem2: Memory,
              tree2: map<Path, int>, root: int)
    requires Tree(mem, tree, root) && Tree(mem1, tree1, root) && Tree(mem2, tree2, root)
    requires SameBig(mem, tree, mem1, tree1, root) && SameBig(mem1, tree1, mem2, tree2, root)
    ensures SameBig(mem, tree, mem2, tree2, root)
  {
    hide Tree, IsBig;
  }

  lemma SameBigAt(mem: Memory, tree: map<Path, int>, mem': Memory, tree': map<Path, int>, root: int, v: u64)
    requires Tree(mem, tree, root) && Tree(mem', tree', root) && SameBig(mem, tree, mem', tree', root)
    ensures BigAt(mem', tree', root, v) == BigAt(mem, tree, root, v)
    ensures BigAt(mem, tree, root, v) ==> BigEntry(mem', tree', root, v) == BigEntry(mem, tree, root, v)
  {
    hide Tree, IsBig, Pml4Index, PdptIndex, PdIndex;
    IndexRange(v);
    assert |[Pml4Index(v), PdptIndex(v)]| < 3;
  }

  lemma BigItself(mem: Memory, tree: map<Path, int>, root: int)
    requires Tree(mem, tree, root)
    ensures SameBig(mem, tree, mem, tree, root)
  {
    hide Tree, IsBig;
  }

  lemma WrittenBig(mem: Memory, tree: map<Path, int>, root: int, p: Path, d: nat, e: u64)
    requires Tree(mem, tree, root) && |p| == 3 && p in tree && d < 512
    requires Tree(mem[tree[p] := mem[tree[p]][d := e]], tree, root)
    ensures SameBig(mem, tree, mem[tree[p] := mem[tree[p]][d := e]], tree, root)
  {
    hide Frame, IsTable, IsBig;
    var mem' := mem[tree[p] := mem[tree[p]][d := e]];
    forall q: Path, j: nat | q in tree && |q| < 3 && j < 512 ensures mem'[tree[q]][j] == mem[tree[q]][j] {
      assert tree[q] != tree[p];
    }
  }

  /** Writing a word of a frame that is no table changes no translation. */
  lemma DataWritten(mem: Memory, tree: map<Path, int>, root: int, f: int, d: nat, e: u64)
    requires Tree(mem, tree, root) && f in mem && d < 512 && f !in tree.Values
    ensures var mem' := mem[f := mem[f][d := e]];
      Tree(mem', tree, root) && (forall v :: Translation(mem', tree, root, v) == Translation(mem, tree, root, v))
  {
    hide Frame, IsTable, IsBig;
    var mem' := mem[f := mem[f][d := e]];
    forall q | q in tree ensures mem'[tree[q]] == mem[tree[q]] {
      assert tree[q] in tree.Values;
    }
    assert Tree(mem', tree, root);
    forall v: u64 ensures Translation(mem', tree, root, v) == Translation(mem, tree, root, v) {
      SameTranslation(mem, tree, mem', tree, root, v);
    }
  }

  lemma TableAt(mem: Memory, tree: map<Path, int>, root: int, p: Path)
    requires Tree(mem, tree, root) && p in tree
    ensures tree[p] in mem
  {
  }

  lemma FreshTable(mem: Memory, tree: map<Path, int>, p: Path, i: nat, f: u64)
    requires p in tree && tree[p] in mem && i < 512 && Child(p, i) !in tree && f < 0x10_0000_0000_0000 - 4096
    requires forall q :: q in tree ==> tree[q] != f
    ensures Extended(mem, tree, mem[tree[p] := mem[tree[p]][i := f + 7]][f := seq(512, _ => 0)], tree[Child(p, i) := f],
      p, i, f)
  {
  }

  function FlagsEntry(phys: u64, flags: u64): u64 { Frame(phys) + flags % 4096 }

  /** What a last-level entry makes of v. */
  function Mapped(e: u64, v: u64): Option<int> {
    if Present(e) then Some(Frame(e) + v % 4096) else None
  }

  /** The entry is the address of the page, of 52 bits, with the twelve flag bits. */
  lemma EntryMeans(phys: u64, flags: u64)
    ensures var page, e := phys / 4096 * 4096 % 0x10_0000_0000_0000, FlagsEntry(phys, flags);
      e == page + flags % 4096 &&
      forall w: u64 :: Mapped(e, w) == if flags % 2 == 1 then Some(page + w % 4096) else None
  {
    var n := phys / 4096;
    var q := n % 0x100_0000_0000;
    Quotient(n * 4096, 0x10_0000_0000_0000, n / 0x100_0000_0000, q * 4096);
    Quotient(q * 4096 + flags % 4096, 4096, q, flags % 4096);
  }

  lemma IndexRange(v: u64)
    ensures Pml4Index(v) < 512 && PdptIndex(v) < 512 && PdIndex(v) < 512 && PtIndex(v) < 512
  {
  }

  /** On the way to v there is no 1 GB page, and a 2 MB page lies in memory. */
  ghost predicate Tame(mem: Memory, tree: map<Path, int>, root: int, v: u64)
    requires Tree(mem, tree, root)
  {
    var a, b := Pml4Index(v), PdptIndex(v);
    !IsBig(mem[tree[[]]][a]) && ([a] in tree ==> !IsBig(mem[tree[[a]]][b])) &&
    (BigAt(mem, tree, root, v) ==> Frame(BigEntry(mem, tree, root, v)) in mem)
  }

  lemma NoOrphans(mem: Memory, tree: map<Path, int>, root: int, a: nat, b: nat, c: nat)
    requires Tree(mem, tree, root)
    ensures [a, b, c] in tree ==> [a, b] in tree
    ensures [a, b] in tree ==> [a] in tree
  {
    assert [a, b, c][..2] == [a, b] && [a, b][..1] == [a];
  }

  /** Without 2 MB and 1 GB pages the last-level entry says it all. */
  lemma EntryTranslates(mem: Memory, tree: map<Path, int>, root: int, v: u64)
    requires Tree(mem, tree, root) && Tame(mem, tree, root, v) && !BigAt(mem, tree, root, v)
    ensures Translation(mem, tree, root, v) == Mapped(PteAt(mem, tree, root, TablePath(v), PtIndex(v)), v)
  {
  }

  /** The tables that boot/boot.s builds: 2 MB pages for the first 4 GB. */
  ghost predicate Booted(mem: Memory, tree: map<Path, int>, root: int)
    requires Tree(mem, tree, root)
  {
    !IsBig(mem[tree[[]]][0]) && [0] in tree &&
    (forall b: nat :: b < 4 ==> [0, b] in tree && !IsBig(mem[tree[[0]]][b])) &&
    (forall b: nat, c: nat :: b < 4 && c < 512 ==> mem[tree[[0, b]]][c] == BootEntry(b, c))
  }

  function BootEntry(b: nat, c: nat): u64
    requires b < 4 && c < 512
  {
    (b * 512 + c) * 0x20_0000 + 0x83
  }

  /** There every address below 4 GB is its own physical address, and lies in a 2 MB page: by the
      contracts of map_page, unmap_page and get_physical no page is mapped, and what is read and written
      are words of the first frame of that page. */
  lemma BootIdentity(mem: Memory, tree: map<Path, int>, root: int, v: u64)
    requires Tree(mem, tree, root) && Booted(mem, tree, root) && v < 0x1_0000_0000
    ensures BigAt(mem, tree, root, v) && Translation(mem, tree, root, v) == Some(v as int)
    ensures Frame(BigEntry(mem, tree, root, v)) == v / 0x20_0000 * 0x20_0000
    ensures Frame(BigEntry(mem, tree, root, v)) in mem ==> Tame(mem, tree, root, v)
  {
    hide Tree, IsBig, Frame, BigFrame, PteAt, BootEntry;
    var b, c := v / 0x4000_0000, v / 0x20_0000 % 512;
    LowIndices(v);
    BootPage(b, c);
  }

  lemma LowIndices(v: u64)
    requires v < 0x1_0000_0000
    ensures Pml4Index(v) == 0 && PdptIndex(v) == v / 0x4000_0000 < 4 && PdIndex(v) == v / 0x20_0000 % 512
    ensures (v / 0x4000_0000 * 512 + v / 0x20_0000 % 512) * 0x20_0000 + v % 0x20_0000 == v
  {
    var q := v / 0x20_0000;
    Quotient(v, 0x4000_0000, q / 512, q % 512 * 0x20_0000 + v % 0x20_0000);
  }

  lemma BootPage(b: nat, c: nat)
    requires b < 4 && c < 512
    ensures var e := BootEntry(b, c);
      IsBig(e) && BigFrame(e) == Frame(e) == (b * 512 + c) * 0x20_0000
  {
    var n := b * 512 + c;
    var e := BootEntry(b, c);
    Quotient(e, 2, n * 0x10_0000 + 0x41, 1);
    Quotient(e, 128, n * 0x4000 + 1, 3);
    Quotient(n * 0x4000 + 1, 2, n * 0x2000, 1);
    Quotient(e, 4096, n * 512, 0x83);
    Quotient(n * 512, 0x100_0000_0000, 0, n * 512);
    Quotient(e, 0x20_0000, n, 0x83);
    Quotient(n, 0x8000_0000, 0, n);
  }

  /** A root table of zeros translates nothing, and pages may be mapped anywhere. */
  lemma EmptyRoot(mem: Memory, root: int, v: u64)
    requires root in mem && mem[root] == seq(512, _ => 0)
    ensures var tree := map[[] := root];
      Tree(mem, tree, root) && Tame(mem, tree, root, v) && !BigAt(mem, tree, root, v) &&
      Translation(mem, tree, root, v) == None
  {
    var tree: map<Path, int> := map[[] := root];
    forall p: Path, i: nat | p in tree && |p| < 3 && i < 512 ensures Child(p, i) !in tree && !IsTable(mem[tree[p]][i]) {
    }
  }

  lemma RootAt(mem: Memory, tree: map<Path, int>, root: int)
    requires Tree(mem, tree, root)
    ensures [] in tree && tree[[]] == root && root in mem
  {
  }

  class AddressSpace {
    const pmm: PageAllocator
    const pml4: int
    var mem: Memory
    ghost var tree: map<Path, int>

    /** Take over the tables that boot code left in CR3. */
    constructor (pmm: PageAllocator, cr3: int, mem: Memory, ghost tree: map<Path, int>)
      requires pmm.Valid() && Tree(mem, tree, cr3)
      requires forall p :: p in tree ==>
        0 < tree[p] && tree[p] % PAGE == 0 && tree[p] / PAGE < MAX_PAGES && pmm.bitmap[tree[p] / PAGE]
      ensures Valid() && this.pmm == pmm && pml4 == cr3 && this.mem == mem && this.tree == tree
    {
      this.pmm, pml4, this.mem, this.tree := pmm, cr3, mem, tree;
    }

    /** The tables form a tree, and their pages are all marked as used. */
    ghost predicate Valid()
      reads this, pmm, pmm.bitmap
    {
      pmm.Valid() && Tree(mem, tree, pml4) && (forall p :: p in tree ==> Held(tree[p]))
    }

    ghost predicate Held(f: int)
      reads pmm, pmm.bitmap
    {
      0 < f && f % PAGE == 0 && f / PAGE < pmm.bitmap.Length && pmm.bitmap[f / PAGE]
    }

    /** The last-level entry for virtual address v. */
    ghost function Entry(v: u64): u64
      requires Tree(mem, tree, pml4)
      reads this
    {
      PteAt(mem, tree, pml4, TablePath(v), PtIndex(v))
    }

    /** Where the processor finds v. */
    ghost function Physical(v: u64): Option<int>
      requires Tree(mem, tree, pml4)
      reads this
    {
      Translation(mem, tree, pml4, v)
    }

    /** v lies in a 2 MB page; the code takes its first frame for a table. */
    ghost predicate Big(v: u64)
      requires Tree(mem, tree, pml4)
      reads this
    {
      BigAt(mem, tree, pml4, v)
    }

    ghost function FirstFrame(v: u64): int
      requires Tree(mem, tree, pml4) && Big(v)
      reads this
    {
      Frame(BigEntry(mem, tree, pml4, v))
    }

    /** The next table, allocated if there is none; 0 if there is no memory for it. */
    method WalkOrAlloc(table: int, i: nat, ghost p: Path) returns (next: int)
      requires Valid() && p in tree && tree[p] == table && |p| < 3 && i < 512
      modifies this`mem, this`tree, pmm, pmm.bitmap
      ensures Valid() && SameBig(old(mem), old(tree), mem, tree, pml4)
      ensures forall w :: Entry(w) == old(Entry(w))
      ensures forall q :: q in old(tree) ==> q in tree && tree[q] == old(tree[q])
      ensures old(mem).Keys <= mem.Keys
      ensures var e := old(mem[table][i]);
        if IsBig(e) then next == Frame(e) && mem == old(mem) && tree == old(tree)
        else
          (next != 0 ==> Child(p, i) in tree && tree[Child(p, i)] == next) &&
          (old(pmm.bitmap[0]) ==> pmm.bitmap[0] && (next == 0 ==> pmm.freePages == 0))
      ensures old(pmm.bitmap[0]) ==> pmm.bitmap[0]
      ensures Child(p, i) in old(tree) ==> next != 0 && mem == old(mem) && tree == old(tree)
    {
      var e := mem[table][i];
      assert (Child(p, i) in tree) == IsTable(e);
      assert Child(p, i) in tree ==> Held(tree[Child(p, i)]);
      if Present(e) {
        return Frame(e);
      }
      next := AddTable(table, i, p);
    }

    /** Put an empty table on a free page and enter it. */
    method AddTable(table: int, i: nat, ghost p: Path) returns (next: int)
      requires Valid() && p in tree && tree[p] == table && |p| < 3 && i < 512 && Child(p, i) !in tree &&
        !IsBig(mem[table][i])
      modifies this`mem, this`tree, pmm, pmm.bitmap
      ensures Valid() && SameBig(old(mem), old(tree), mem, tree, pml4)
      ensures forall w :: Entry(w) == old(Entry(w))
      ensures forall q :: q in old(tree) ==> q in tree && tree[q] == old(tree[q])
      ensures old(mem).Keys <= mem.Keys
      ensures next != 0 ==> Child(p, i) in tree && tree[Child(p, i)] == next
      ensures old(pmm.bitmap[0]) ==> pmm.bitmap[0] && (next == 0 ==> pmm.freePages == 0)
    {
      hide Tree, Extended, IsTable, IsBig, Frame, PteAt;
      TableAt(mem, tree, pml4, p);
      var f := pmm.AllocPage();
      assert forall q :: q in tree ==> Held(tree[q]);
      if f == 0 {
        return 0;
      }
      ghost var mem0, tree0 := mem, tree;
      FreshTable(mem, tree, p, i, f);
      mem := mem[table := mem[table][i := f + 7]][f := seq(512, _ => 0)];
      tree := tree[Child(p, i) := f];
      ExtendedTree(mem0, tree0, pml4, mem, tree, p, i, f);
      ExtendedBig(mem0, tree0, pml4, mem, tree, p, i, f);
      forall w ensures Entry(w) == old(Entry(w)) {
        ExtendedSame(mem0, tree0, pml4, mem, tree, p, i, f, TablePath(w), PtIndex(w));
      }
      return f;
    }

    /** The table of last-level entries for virt, or the first frame of its 2 MB page; 0 if there is
        none and no memory for it. */
    method WalkAll(virt: u64) returns (pt: int)
      requires Valid() && Tame(mem, tree, pml4, virt)
      modifies this`mem, this`tree, pmm, pmm.bitmap
      ensures Valid() && SameBig(old(mem), old(tree), mem, tree, pml4)
      ensures forall w :: Entry(w) == old(Entry(w))
      ensures Big(virt) == old(Big(virt)) && Tame(mem, tree, pml4, virt)
      ensures if Big(virt) then pt == FirstFrame(virt) == old(FirstFrame(virt)) && mem == old(mem) && tree == old(tree)
        else
          (pt != 0 ==> TablePath(virt) in tree && tree[TablePath(virt)] == pt) &&
          (pt == 0 && old(pmm.bitmap[0]) ==> pmm.freePages == 0)
    {
      hide Tree, PteAt, Frame, IsTable, IsBig, Pml4Index, PdptIndex, PdIndex, PtIndex, Vpn;
      IndexRange(virt);
      ghost var a, b, c := Pml4Index(virt), PdptIndex(virt), PdIndex(virt);
      ghost var mem0, tree0 := mem, tree;
      RootAt(mem, tree, pml4);
      NoOrphans(mem, tree, pml4, a, b, c);
      assert Child([], a) == [a] && Child([a], b) == [a, b] && Child([a, b], c) == TablePath(virt);
      var pdpt := WalkOrAlloc(pml4, Pml4Index(virt), []);
      SameBigAt(mem0, tree0, mem, tree, pml4, virt);
      if pdpt == 0 {
        return 0;
      }
      ghost var mem1, tree1 := mem, tree;
      var pd := WalkOrAlloc(pdpt, PdptIndex(virt), [a]);
      BigOn(mem0, tree0, mem1, tree1, mem, tree, pml4);
      SameBigAt(mem0, tree0, mem, tree, pml4, virt);
      if pd == 0 {
        return 0;
      }
      ghost var mem2, tree2 := mem, tree;
      pt := WalkOrAlloc(pd, PdIndex(virt), [a, b]);
      BigOn(mem0, tree0, mem2, tree2, mem, tree, pml4);
      SameBigAt(mem0, tree0, mem, tree, pml4, virt);
    }

    /** Map the page of virt to the page of phys; ok says whether the code got that far.
        An ordinary page is mapped, and no other address changes, or none at all for lack of memory.
        In a 2 MB page the word that is written belongs to the page, not to a table: unless a table
        lies there, nothing is mapped and no address changes. */
    method MapPage(virt: u64, phys: u64, flags: u64) returns (ghost ok: bool)
      requires Valid() && Tame(mem, tree, pml4, virt)
      modifies this`mem, this`tree, pmm, pmm.bitmap
      ensures !old(Big(virt)) ==>
        Valid() && (!ok && old(pmm.bitmap[0]) ==> pmm.freePages == 0) &&
        (forall w :: Entry(w) == if ok && Vpn(w) == Vpn(virt) then FlagsEntry(phys, flags) else old(Entry(w))) &&
        (forall w ::
          Physical(w) == if ok && Vpn(w) == Vpn(virt) then Mapped(FlagsEntry(phys, flags), w) else old(Physical(w))) &&
        (ok ==>
          var page := phys / 4096 * 4096 % 0x10_0000_0000_0000;
          forall w: u64 :: Vpn(w) == Vpn(virt) ==>
            Entry(w) == page + flags % 4096 && Physical(w) == if flags % 2 == 1 then Some(page + w % 4096) else None)
      ensures old(Big(virt)) ==>
        var f := old(FirstFrame(virt));
        tree == old(tree) && (ok <==> f != 0) &&
        mem == (if ok then old(mem)[f := old(mem)[f][PtIndex(virt) := FlagsEntry(phys, flags)]] else old(mem)) &&
        (f !in tree.Values ==> Valid() && forall w :: Physical(w) == old(Physical(w)))
    {
      hide Tree, PteAt, Frame, IsTable, IsBig, Pml4Index, PdptIndex, PdIndex, PtIndex, Vpn, Translation, BigAt,
        BigEntry, SameBig, Mapped, FlagsEntry;
      ghost var mem0, tree0 := mem, tree;
      var pt := WalkAll(virt);
      forall w ensures Physical(w) == old(Physical(w)) {
        assert Entry(w) == old(Entry(w));
        SameTranslation(mem0, tree0, mem, tree, pml4, w);
      }
      if pt == 0 {
        return false;
      }
      EntryMeans(phys, flags);
      SetWord(pt, virt, FlagsEntry(phys, flags));
      return true;
    }

    /** Write a word of the table of virt, or of its 2 MB page. */
    method SetWord(pt: int, virt: u64, e: u64)
      requires Valid() && Tame(mem, tree, pml4, virt)
      requires if Big(virt) then pt == FirstFrame(virt) else TablePath(virt) in tree && tree[TablePath(virt)] == pt
      modifies this`mem
      ensures pt in old(mem) && PtIndex(virt) < 512 && mem == old(mem)[pt := old(mem)[pt][PtIndex(virt) := e]]
      ensures !old(Big(virt)) ==>
        Valid() && (forall w :: Entry(w) == if Vpn(w) == Vpn(virt) then e else old(Entry(w))) &&
        (forall w :: Physical(w) == if Vpn(w) == Vpn(virt) then Mapped(e, w) else old(Physical(w)))
      ensures old(Big(virt)) && pt !in tree.Values ==> Valid() && forall w :: Physical(w) == old(Physical(w))
    {
      hide Tree, PteAt, Pml4Index, PdptIndex, PdIndex, PtIndex, Vpn, Translation, BigAt, BigEntry, Frame, SameBig;
      IndexRange(virt);
      ghost var mem0 := mem;
      if !Big(virt) {
        TableAt(mem, tree, pml4, TablePath(virt));
        EntryWritten(mem, tree, pml4, TablePath(virt), PtIndex(virt), e);
        WrittenBig(mem, tree, pml4, TablePath(virt), PtIndex(virt), e);
      } else if pt !in tree.Values {
        DataWritten(mem, tree, pml4, pt, PtIndex(virt), e);
      }
      mem := mem[pt := mem[pt][PtIndex(virt) := e]];
      if !old(Big(virt)) {
        EntrySet(mem0, virt, e);
      }
    }

    lemma EntrySet(mem0: Memory, virt: u64, e: u64)
      requires Tree(mem0, tree, pml4) && Tree(mem, tree, pml4) && SameBig(mem0, tree, mem, tree, pml4)
      requires Tame(mem0, tree, pml4, virt) && !BigAt(mem0, tree, pml4, virt) && |TablePath(virt)| == 3
      requires forall q: Path, k: nat :: |q| == 3 && k < 512 ==>
        PteAt(mem, tree, pml4, q, k) ==
          if q == TablePath(virt) && k == PtIndex(virt) then e else PteAt(mem0, tree, pml4, q, k)
      ensures forall w ::
        Entry(w) == if Vpn(w) == Vpn(virt) then e else PteAt(mem0, tree, pml4, TablePath(w), PtIndex(w))
      ensures forall w ::
        Physical(w) == if Vpn(w) == Vpn(virt) then Mapped(e, w) else Translation(mem0, tree, pml4, w)
    {
      hide Tree, PteAt, Pml4Index, PdptIndex, PdIndex, Vpn, Translation, BigAt, BigEntry, Frame, SameBig, Tame, Mapped;
      forall w: u64
        ensures Entry(w) == if Vpn(w) == Vpn(virt) then e else PteAt(mem0, tree, pml4, TablePath(w), PtIndex(w))
        ensures Physical(w) == if Vpn(w) == Vpn(virt) then Mapped(e, w) else Translation(mem0, tree, pml4, w)
      {
        IndexRange(w);
        SameIndices(w, virt);
        if Vpn(w) == Vpn(virt) {
          SamePage(mem0, tree, mem, tree, virt, w);
          EntryTranslates(mem, tree, pml4, w);
        } else {
          SameTranslation(mem0, tree, mem, tree, pml4, w);
        }
      }
    }

    /** What holds for one address of a page holds for the others. */
    lemma SamePage(mem0: Memory, tree0: map<Path, int>, mem1: Memory, tree1: map<Path, int>, v: u64, w: u64)
      requires Tree(mem0, tree0, pml4) && Tree(mem1, tree1, pml4) && SameBig(mem0, tree0, mem1, tree1, pml4)
      requires Vpn(v) == Vpn(w) && Tame(mem0, tree0, pml4, v) && !BigAt(mem0, tree0, pml4, v)
      ensures Tame(mem1, tree1, pml4, w) && !BigAt(mem1, tree1, pml4, w)
    {
      hide Tree, IsBig, Pml4Index, PdptIndex, PdIndex, PtIndex, Vpn;
      SameIndices(v, w);
      IndexRange(v);
      RootAt(mem0, tree0, pml4);
      RootAt(mem1, tree1, pml4);
      SameBigAt(mem0, tree0, mem1, tree1, pml4, w);
      assert |[Pml4Index(v)]| < 3;
    }

    /** The next table, or 0. */
    function WalkReadonly(table: int, i: nat): int
      requires table in mem && i < 512
      reads this
    {
      if Present(mem[table][i]) then Frame(mem[table][i]) else 0
    }

    lemma Walked(p: Path, i: nat)
      requires Valid() && p in tree && |p| < 3 && i < 512
      ensures tree[p] in mem && (IsBig(mem[tree[p]][i]) ==> WalkReadonly(tree[p], i) == Frame(mem[tree[p]][i]))
      ensures !IsBig(mem[tree[p]][i]) ==>
        (Child(p, i) in tree) == (WalkReadonly(tree[p], i) != 0) &&
        (Child(p, i) in tree ==> tree[Child(p, i)] == WalkReadonly(tree[p], i))
    {
      assert (Child(p, i) in tree) == IsTable(mem[tree[p]][i]);
      assert Child(p, i) in tree ==> Held(tree[Child(p, i)]);
    }

    /** The last-level table of virt, or the first frame of its 2 MB page, or 0. */
    method FindTable(virt: u64) returns (pt: int)
      requires Valid() && Tame(mem, tree, pml4, virt)
      ensures pt == if Big(virt) then FirstFrame(virt) else if TablePath(virt) in tree then tree[TablePath(virt)] else 0
      ensures pt != 0 && !Big(virt) ==> TablePath(virt) in tree
    {
      hide Tree, PteAt, Frame, IsTable, IsBig, Pml4Index, PdptIndex, PdIndex, PtIndex, Vpn;
      IndexRange(virt);
      ghost var a, b, c := Pml4Index(virt), PdptIndex(virt), PdIndex(virt);
      RootAt(mem, tree, pml4);
      NoOrphans(mem, tree, pml4, a, b, c);
      Walked([], a);
      assert Child([], a) == [a] && Child([a], b) == [a, b] && Child([a, b], c) == TablePath(virt);
      var pdpt := WalkReadonly(pml4, Pml4Index(virt));
      if pdpt == 0 {
        return 0;
      }
      Walked([a], b);
      var pd := WalkReadonly(pdpt, PdptIndex(virt));
      if pd == 0 {
        return 0;
      }
      Walked([a, b], c);
      pt := WalkReadonly(pd, PdIndex(virt));
    }

    /** Clear the entry of virt; in a 2 MB page, a word of that page. */
    method UnmapPage(virt: u64)
      requires Valid() && Tame(mem, tree, pml4, virt)
      modifies this`mem
      ensures !old(Big(virt)) ==>
        Valid() && (forall w :: Entry(w) == if Vpn(w) == Vpn(virt) then 0 else old(Entry(w))) &&
        (forall w :: Physical(w) == if Vpn(w) == Vpn(virt) then None else old(Physical(w)))
      ensures old(Big(virt)) ==>
        var f := old(FirstFrame(virt));
        mem == (if f != 0 then old(mem)[f := old(mem)[f][PtIndex(virt) := 0]] else old(mem)) &&
        (f !in tree.Values ==> Valid() && forall w :: Physical(w) == old(Physical(w)))
    {
      hide Tree, PteAt, Pml4Index, PdptIndex, PdIndex, PtIndex, Vpn, Translation, BigAt, BigEntry, Frame, SameBig, Tame;
      var pt := FindTable(virt);
      if pt == 0 {
        if !Big(virt) {
          NothingMapped(virt);
        }
        return;
      }
      SetWord(pt, virt, 0);
    }

    lemma NothingMapped(virt: u64)
      requires Valid() && Tame(mem, tree, pml4, virt) && !Big(virt) && TablePath(virt) !in tree
      ensures forall w :: Vpn(w) == Vpn(virt) ==> Entry(w) == 0 && Physical(w) == None
    {
      hide Tree, Pml4Index, PdptIndex, PdIndex, PtIndex, Vpn, Translation, BigAt, BigEntry, Frame, SameBig, Tame;
      forall w: u64 | Vpn(w) == Vpn(virt) ensures Entry(w) == 0 && Physical(w) == None {
        SameIndices(w, virt);
        IndexRange(w);
        BigItself(mem, tree, pml4);
        SamePage(mem, tree, mem, tree, virt, w);
        EntryTranslates(mem, tree, pml4, w);
      }
    }

    /** The physical address, or 0 where nothing is mapped; in a 2 MB page, whatever its data say. */
    method GetPhysical(virt: u64) returns (phys: int)
      requires Valid() && Tame(mem, tree, pml4, virt)
      ensures !Big(virt) ==> phys == if Physical(virt).Some? then Physical(virt).value else 0
      ensures Big(virt) ==>
        var f := FirstFrame(virt);
        phys == if f == 0 then 0
                else var m := Mapped(mem[f][PtIndex(virt)], virt); if m.Some? then m.value else 0
    {
      hide Tree, Frame, Present, Pml4Index, PdptIndex, PdIndex, PtIndex, Vpn, Translation, BigAt, BigEntry;
      IndexRange(virt);
      if !Big(virt) {
        EntryTranslates(mem, tree, pml4, virt);
      }
      var pt := FindTable(virt);
      if pt == 0 {
        NothingPresent();
        return 0;
      }
      if !Big(virt) {
        TableAt(mem, tree, pml4, TablePath(virt));
      }
      var pte := mem[pt][PtIndex(virt)];
      if !Present(pte) {
        return 0;
      }
      return Frame(pte) + virt % 4096;
    }

    lemma NothingPresent()
      ensures !Present(0)
    {
    }
  }
}
