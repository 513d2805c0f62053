/** The FAT16 driver (src/fat16.rs): root directory, cached FAT, clusters. */
module Fat16 {
  import opened Base
  import opened Disk
  import opened Fats

  // ---- directory entries ---------------------------------------------------------------------

  type DirEntry = e: seq<byte> | |e| == 32 witness seq(32, _ => 0)

  const DELETED: byte := 0xE5

  function Name(e: DirEntry): seq<byte> { e[..11] }
  function Attr(e: DirEntry): byte { e[11] }
  function First(e: DirEntry): u16 { Word16(e[26], e[27]) }
  function FileSize(e: DirEntry): nat { Word16(e[28], e[29]) as int + 0x1_0000 * Word16(e[30], e[31]) as int }

  function Word16(lo: int, hi: int): u16
    requires 0 <= lo < 256 && 0 <= hi < 256
  {
    lo + 256 * hi
  }

  /** The entry with another first cluster and size. */
  function WithFile(e: DirEntry, first: u16, size: nat): (r: DirEntry)
    requires size < 0x1_0000_0000
    ensures Name(r) == Name(e) && Attr(r) == Attr(e) && r[0] == e[0] && First(r) == first && FileSize(r) == size
  {
    var lo, hi := size % 0x1_0000, size / 0x1_0000;
    e[..26] + [first % 256, first / 256, lo % 256, lo / 256, hi % 256, hi / 256]
  }

  /** memset 0, the name, and the archive attribute. */
  function FreshEntry(name: seq<byte>): (e: DirEntry)
    requires |name| == 11
    ensures Name(e) == name && e[0] == name[0] && Attr(e) == 0x20
  {
    name + [0x20] + seq(20, _ => 0)
  }

  /** The 32 bytes of a new file's entry: name, archive attribute, zeros, and little-endian the
      first cluster and the size. */
  lemma EntryBytes(name: seq<byte>, first: u16, size: nat)
    requires |name| == 11 && size < 0x1_0000_0000
    ensures var e := WithFile(FreshEntry(name), first, size);
      e[..11] == name && e[11] == 0x20 && (forall i :: 12 <= i < 26 ==> e[i] == 0) &&
      Number(e[26..28]) == first && Number(e[28..32]) == size
  {
    var lo, hi := size % 0x1_0000, size / 0x1_0000;
    var e := WithFile(FreshEntry(name), first, size);
    assert e[26..28] == [first % 256, first / 256];
    assert e[28..32] == [lo % 256, lo / 256] + [hi % 256, hi / 256];
    NumberPair(first % 256, first / 256, []);
    NumberPair(lo % 256, lo / 256, [hi % 256, hi / 256]);
    NumberPair(hi % 256, hi / 256, []);
    assert [first % 256, first / 256] + [] == [first % 256, first / 256];
    assert [hi % 256, hi / 256] + [] == [hi % 256, hi / 256];
  }

  lemma NumberPair(a: byte, b: byte, more: seq<byte>)
    ensures Number([a, b] + more) == a as int + 256 * b as int + 0x1_0000 * Number(more)
  {
    assert ([a, b] + more)[1..][1..] == more;
  }

  /** Little-endian. */
  function Number(bs: seq<byte>): nat {
    if bs == [] then 0 else bs[0] as int + 256 * Number(bs[1..])
  }

  /** Not a long-name entry or volume label, and not deleted. */
  predicate Shown(e: DirEntry) {
    e[0] != DELETED && Attr(e) != 0x0F && Attr(e) / 8 % 2 == 0
  }

  predicate InUse(e: DirEntry) {
    e[0] != 0 && e[0] != DELETED
  }

  predicate IsDirectory(e: DirEntry) {
    Attr(e) / 16 % 2 == 1
  }

  function EntryAt(g: Geometry, d: seq<byte>, i: nat): DirEntry
    requires g.Sound(|d|) && i < g.rootCount
  {
    RootInside(g, |d|, i);
    d[g.RootPos(i)..g.RootPos(i) + ENTRY]
  }

  /** The first shown entry of that name from i on, before the end of the directory. */
  function Find(g: Geometry, d: seq<byte>, name: seq<byte>, i: nat): (k: int)
    requires g.Sound(|d|) && i <= g.rootCount
    ensures k == -1 || i <= k < g.rootCount
    ensures k >= 0 ==> Shown(EntryAt(g, d, k)) && Name(EntryAt(g, d, k)) == name && EntryAt(g, d, k)[0] != 0
    decreases g.rootCount - i
  {
    if i == g.rootCount then -1
    else
      var e := EntryAt(g, d, i);
      if e[0] == 0 then -1
      else if Shown(e) && Name(e) == name then i
      else Find(g, d, name, i + 1)
  }

  /** A file or directory of that name: neither deleted nor a volume label. */
  predicate Matches(e: DirEntry, name: seq<byte>) {
    e[0] != 0 && e[0] != 0xE5 && e[11] / 8 % 2 == 0 && e[..11] == name
  }

  /** The search finds the first match before the first entry that was never used, if there is one. */
  lemma {:induction false} FindIs(g: Geometry, d: seq<byte>, name: seq<byte>, i: nat)
    requires g.Sound(|d|) && i <= g.rootCount
    ensures var k := Find(g, d, name, i);
      var end := if k >= 0 then k else g.rootCount;
      (k >= 0 ==> Matches(EntryAt(g, d, k), name)) &&
      forall j :: i <= j < end ==>
        (EntryAt(g, d, j)[0] == 0 ==> k < 0) &&
        (Matches(EntryAt(g, d, j), name) ==> exists m :: i <= m < j && EntryAt(g, d, m)[0] == 0)
    decreases g.rootCount - i
  {
    hide EntryAt, g.Sound;
    if i < g.rootCount {
      var e := EntryAt(g, d, i);
      if e[0] != 0 && !Matches(e, name) {
        FindIs(g, d, name, i + 1);
      }
    }
  }

  /** The first unused entry from i on. */
  function FindFree(g: Geometry, d: seq<byte>, i: nat): (k: int)
    requires g.Sound(|d|) && i <= g.rootCount
    ensures k == -1 || i <= k < g.rootCount
    ensures k >= 0 ==> !InUse(EntryAt(g, d, k)) && forall j :: i <= j < k ==> InUse(EntryAt(g, d, j))
    decreases g.rootCount - i
  {
    if i == g.rootCount then -1
    else if !InUse(EntryAt(g, d, i)) then i
    else FindFree(g, d, i + 1)
  }

  // ---- clusters --------------------------------------------------------------------------------

  function Cluster(g: Geometry, d: seq<byte>, c: u16): (b: seq<byte>)
    requires g.Sound(|d|) && 2 <= c < g.FatEntries()
    ensures |b| == g.ClusterSize()
  {
    ClusterInside(g, |d|, c);
    d[g.DataPos(c)..g.DataPos(c) + g.ClusterSize()]
  }

  ghost predicate InRange(g: Geometry, ch: seq<u16>) {
    forall i :: 0 <= i < |ch| ==> 2 <= ch[i] < g.FatEntries()
  }

  ghost function Data(g: Geometry, d: seq<byte>, ch: seq<u16>): (b: seq<byte>)
    requires g.Sound(|d|) && InRange(g, ch)
    ensures |b| == |ch| * g.ClusterSize()
    decreases |ch|
  {
    if ch == [] then []
    else
      var n := |ch| - 1;
      assert n * g.ClusterSize() + g.ClusterSize() == |ch| * g.ClusterSize();
      Data(g, d, ch[..n]) + Cluster(g, d, ch[n])
  }

  function Take(s: seq<byte>, n: nat): seq<byte> {
    if n <= |s| then s[..n] else s
  }

  lemma TakeTwice(s: seq<byte>, n: nat, m: nat)
    ensures Take(Take(s, n), m) == Take(s, if n > m then m else n)
  {
  }

  function Blocks(size: nat, cs: nat): nat
    requires cs > 0
  {
    (size + cs - 1) / cs
  }

  // ---- consistency -------------------------------------------------------------------------------

  /** Nothing is in use after the end of the directory. */
  ghost predicate ZeroTail(g: Geometry, d: seq<byte>)
    requires g.Sound(|d|)
  {
    forall i, j :: 0 <= i <= j < g.rootCount && EntryAt(g, d, i)[0] == 0 ==> EntryAt(g, d, j)[0] == 0
  }

  /** The chain of an entry; a file has just the clusters its size calls for. */
  ghost predicate EntryOk(g: Geometry, d: seq<byte>, fat: seq<u16>, i: nat, ch: seq<u16>)
    requires g.Sound(|d|) && i < g.rootCount
  {
    var e := EntryAt(g, d, i);
    IsChain(fat, First(e), ch) && (Shown(e) && !IsDirectory(e) ==> |ch| == Blocks(FileSize(e), g.ClusterSize()))
  }

  /** Of a directory the size says nothing about the chain. */
  lemma DirectoryOk(g: Geometry, d: seq<byte>, fat: seq<u16>, i: nat, ch: seq<u16>)
    requires g.Sound(|d|) && i < g.rootCount && EntryAt(g, d, i)[11] / 16 % 2 == 1
    ensures EntryOk(g, d, fat, i, ch) <==> IsChain(fat, First(EntryAt(g, d, i)), ch)
  {
  }

  /** Every entry in use has its own chain, and no two share a cluster. */
  ghost predicate Consistent(g: Geometry, d: seq<byte>, fat: seq<u16>, chains: map<nat, seq<u16>>) {
    g.Sound(|d|) && |fat| == g.FatEntries() && ZeroTail(g, d) &&
    (forall i :: i in chains ==> i < g.rootCount) &&
    (forall i {:trigger EntryAt(g, d, i)} :: 0 <= i < g.rootCount ==> (i in chains) == InUse(EntryAt(g, d, i))) &&
    (forall i :: i in chains ==> EntryOk(g, d, fat, i, chains[i])) &&
    (forall i, j :: i in chains && j in chains && i != j ==> Apart(chains[i], chains[j]))
  }

  /** A volume whose directory has never been used. */
  lemma FormattedConsistent(g: Geometry, d: seq<byte>, fat: seq<u16>)
    requires g.Sound(|d|) && |fat| == g.FatEntries()
    requires forall i :: 0 <= i < g.rootCount ==> EntryAt(g, d, i)[0] == 0
    ensures Consistent(g, d, fat, map[]) && forall name :: File(g, d, fat, map[], name) == None
  {
    hide EntryAt, g.Sound;
    forall name ensures File(g, d, fat, map[], name) == None {
      assert g.rootCount > 0 ==> EntryAt(g, d, 0)[0] == 0;
    }
  }

  /** What reading a file gives: its clusters, cut to its size. */
  ghost function File(g: Geometry, d: seq<byte>, fat: seq<u16>, chains: map<nat, seq<u16>>,
                      name: seq<byte>): (r: Option<seq<byte>>)
    requires Consistent(g, d, fat, chains)
  {
    var i := Find(g, d, name, 0);
    if i < 0 then None
    else
      assert EntryOk(g, d, fat, i, chains[i]);
      var b := Data(g, d, chains[i]);
      var n := FileSize(EntryAt(g, d, i));
      Some(Take(b, n))
  }

  // ---- writing one cluster, one entry, the FAT -----------------------------------------------------

  /** A write to a cluster outside a chain leaves the chain's data alone. */
  lemma {:induction false} DataKept(g: Geometry, d: seq<byte>, c: u16, b: seq<byte>, ch: seq<u16>)
    requires g.Sound(|d|) && 2 <= c < g.FatEntries() && |b| == g.ClusterSize() && InRange(g, ch) && c !in ch
    requires g.DataPos(c) + |b| <= |d|
    ensures Data(g, Splice(d, g.DataPos(c), b), ch) == Data(g, d, ch)
    decreases |ch|
  {
    if ch != [] {
      var n := |ch| - 1;
      var x := ch[n];
      assert x in ch;
      DataKept(g, d, c, b, ch[..n]);
      if x < c {
        ClustersApart(g, x, c);
      } else {
        ClustersApart(g, c, x);
      }
      ClusterInside(g, |d|, x);
      SpliceElsewhere(d, g.DataPos(c), b, g.DataPos(x), g.ClusterSize());
    }
  }

  /** Appending a written cluster appends its bytes. */
  lemma DataAppended(g: Geometry, d: seq<byte>, c: u16, b: seq<byte>, ch: seq<u16>)
    requires g.Sound(|d|) && 2 <= c < g.FatEntries() && |b| == g.ClusterSize() && InRange(g, ch) && c !in ch
    requires g.DataPos(c) + |b| <= |d|
    ensures InRange(g, ch + [c]) && Data(g, Splice(d, g.DataPos(c), b), ch + [c]) == Data(g, d, ch) + b
  {
    DataKept(g, d, c, b, ch);
    SpliceRead(d, g.DataPos(c), b);
    assert (ch + [c])[..|ch|] == ch;
  }

  /** The same bytes from the first data sector on mean the same clusters. */
  lemma {:induction false} DataSame(g: Geometry, d: seq<byte>, d': seq<byte>, ch: seq<u16>)
    requires g.Sound(|d|) && |d'| == |d| && InRange(g, ch) && g.FirstData() * SECTOR <= |d|
    requires d'[g.FirstData() * SECTOR..] == d[g.FirstData() * SECTOR..]
    ensures Data(g, d', ch) == Data(g, d, ch)
    decreases |ch|
  {
    if ch != [] {
      var n := |ch| - 1;
      DataSame(g, d, d', ch[..n]);
      ClusterInside(g, |d|, ch[n]);
      var p, s, e := g.FirstData() * SECTOR, g.DataPos(ch[n]), g.DataPos(ch[n]) + g.ClusterSize();
      SubDrop(d', p, s - p, e - p);
      SubDrop(d, p, s - p, e - p);
    }
  }

  /** The same bytes below the first data sector mean the same entries. */
  lemma EntrySame(g: Geometry, d: seq<byte>, d': seq<byte>, i: nat)
    requires g.Sound(|d|) && |d'| == |d| && i < g.rootCount && g.FirstData() * SECTOR <= |d|
    requires d'[..g.FirstData() * SECTOR] == d[..g.FirstData() * SECTOR]
    ensures EntryAt(g, d', i) == EntryAt(g, d, i)
  {
    RootInside(g, |d|, i);
    var p, s, e := g.FirstData() * SECTOR, g.RootPos(i), g.RootPos(i) + ENTRY;
    SubTake(d', p, s, e);
    SubTake(d, p, s, e);
  }

  lemma EntryWritten(g: Geometry, d: seq<byte>, k: nat, e: DirEntry, i: nat)
    requires g.Sound(|d|) && k < g.rootCount && i < g.rootCount && g.RootPos(k) + ENTRY <= |d|
    ensures EntryAt(g, Splice(d, g.RootPos(k), e), i) == if i == k then e else EntryAt(g, d, i)
  {
    RootInside(g, |d|, i);
    if i == k {
      SpliceRead(d, g.RootPos(k), e);
    } else {
      SpliceElsewhere(d, g.RootPos(k), e, g.RootPos(i), ENTRY);
    }
  }

  // ---- storing data in a new chain ----------------------------------------------------------------

  /** All chains of fat0 are still there, hold the same bytes, and share nothing with ch. */
  ghost predicate Untouched(g: Geometry, fat0: seq<u16>, d0: seq<byte>, fat: seq<u16>, d: seq<byte>, ch: seq<u16>) {
    g.Sound(|d0|) && |d| == |d0| && |fat| == |fat0| == g.FatEntries() &&
    forall f, oc {:trigger IsChain(fat0, f, oc)} ::
      IsChain(fat0, f, oc) ==> IsChain(fat, f, oc) && Apart(ch, oc) && Data(g, d, oc) == Data(g, d0, oc)
  }

  lemma UntouchedYet(g: Geometry, fat: seq<u16>, d: seq<byte>)
    requires g.Sound(|d|) && |fat| == g.FatEntries()
    ensures Untouched(g, fat, d, fat, d, [])
  {
  }

  /** Appending and writing a free cluster touches no other chain. */
  lemma StillUntouched(g: Geometry, fat0: seq<u16>, d0: seq<byte>, fat: seq<u16>, d: seq<byte>, first: u16,
                       ch: seq<u16>, c: u16, b: seq<byte>)
    requires Untouched(g, fat0, d0, fat, d, ch) && IsChain(fat, first, ch) && 2 <= c < |fat| && fat[c] == 0
    requires |b| == g.ClusterSize() && g.DataPos(c) + |b| <= |d|
    ensures Untouched(g, fat0, d0, Appended(fat, ch, c), Splice(d, g.DataPos(c), b), ch + [c])
  {
    var fat', d' := Appended(fat, ch, c), Splice(d, g.DataPos(c), b);
    forall f, oc {:trigger IsChain(fat0, f, oc)} | IsChain(fat0, f, oc)
      ensures IsChain(fat', f, oc) && Apart(ch + [c], oc) && Data(g, d', oc) == Data(g, d0, oc)
    {
      assert IsChain(fat, f, oc);
      OtherKept(fat, first, ch, c, f, oc);
      assert c in ch + [c];
      DataKept(g, d, c, b, oc);
    }
  }

  /** ch holds the first `offset` bytes of data, and no more clusters than they need. */
  ghost predicate Holds(g: Geometry, d: seq<byte>, fat: seq<u16>, first: u16, ch: seq<u16>, data: seq<byte>,
                        offset: nat)
    requires g.Sound(|d|) && |fat| == g.FatEntries()
  {
    IsChain(fat, first, ch) && offset <= |data| && offset <= |ch| * g.ClusterSize() &&
    (offset < |data| ==> offset == |ch| * g.ClusterSize()) && (ch != [] ==> (|ch| - 1) * g.ClusterSize() < |data|) &&
    Data(g, d, ch)[..offset] == data[..offset]
  }

  lemma HoldsMore(g: Geometry, d: seq<byte>, fat: seq<u16>, first: u16, ch: seq<u16>, data: seq<byte>, offset: nat,
                  c: u16, b: seq<byte>, n: nat)
    requires g.Sound(|d|) && |fat| == g.FatEntries() && Holds(g, d, fat, first, ch, data, offset) && offset < |data|
    requires 2 <= c < |fat| && fat[c] == 0 && |b| == g.ClusterSize() && g.DataPos(c) + |b| <= |d|
    requires n == if offset + g.ClusterSize() > |data| then |data| - offset else g.ClusterSize()
    requires b[..n] == data[offset..offset + n]
    ensures Holds(g, Splice(d, g.DataPos(c), b), Appended(fat, ch, c), if ch == [] then c else first, ch + [c], data,
      offset + n)
  {
    hide g.Sound, g.DataPos, Splice, IsChain, Appended, Data, g.ClusterSize;
    ChainAppended(fat, first, ch, c);
    if c in ch {
      MemberTaken(fat, first, ch, c);
    }
    ChainRange(fat, first, ch);
    DataAppended(g, d, c, b, ch);
    var before := Data(g, d, ch);
    assert |ch + [c]| * g.ClusterSize() == |ch| * g.ClusterSize() + g.ClusterSize();
    assert (before + b)[..offset + n] == before + b[..n];
    assert before == data[..offset];
    assert data[..offset] + data[offset..offset + n] == data[..offset + n];
  }

  lemma HoldsAll(g: Geometry, d: seq<byte>, fat: seq<u16>, first: u16, ch: seq<u16>, data: seq<byte>)
    requires g.Sound(|d|) && |fat| == g.FatEntries() && Holds(g, d, fat, first, ch, data, |data|)
    ensures |ch| == Blocks(|data|, g.ClusterSize()) && Data(g, d, ch)[..|data|] == data
  {
    hide g.Sound, IsChain, Blocks;
    assert data[..|data|] == data;
    ClusterPositive(g, |d|);
    BlocksAre(|data|, g.ClusterSize(), |ch|);
  }

  /** A chain that does not hold all of the data has fewer clusters than it needs. */
  lemma HoldsPart(g: Geometry, d: seq<byte>, fat: seq<u16>, first: u16, ch: seq<u16>, data: seq<byte>, offset: nat)
    requires g.Sound(|d|) && |fat| == g.FatEntries() && Holds(g, d, fat, first, ch, data, offset) && offset < |data|
    ensures |ch| < Blocks(|data|, g.ClusterSize())
  {
    hide IsChain, Data;
    var q, m := Blocks(|data|, g.ClusterSize()), |data| + g.ClusterSize() - 1;
    assert m == q * g.ClusterSize() + m % g.ClusterSize();
    if q <= |ch| {
      Mul(q, |ch|, g.ClusterSize());
    }
  }

  lemma ClusterPositive(g: Geometry, size: nat)
    requires g.Sound(size)
    ensures g.ClusterSize() > 0
  {
  }

  lemma BlocksAre(size: nat, cs: nat, n: nat)
    requires cs > 0 && size <= n * cs && (n > 0 ==> (n - 1) * cs < size)
    ensures Blocks(size, cs) == n
  {
    if n == 0 {
      Quotient(cs - 1, cs, 0, cs - 1);
    } else {
      var m := (n - 1) * cs;
      assert n * cs == m + cs;
      Quotient(size + cs - 1, cs, n, size - 1 - m);
    }
  }

  lemma {:induction false} DataPrefix(g: Geometry, d: seq<byte>, ch: seq<u16>, n: nat)
    requires g.Sound(|d|) && InRange(g, ch) && n <= |ch|
    ensures n * g.ClusterSize() <= |Data(g, d, ch)| && Data(g, d, ch[..n]) == Data(g, d, ch)[..n * g.ClusterSize()]
    decreases |ch|
  {
    Mul(n, |ch|, g.ClusterSize());
    if n < |ch| {
      var front := ch[..|ch| - 1];
      DataPrefix(g, d, front, n);
      assert front[..n] == ch[..n];
    } else {
      assert ch[..n] == ch;
    }
  }

  /** b is what the first n clusters of ch hold, all of it if more is wanted. */
  ghost predicate Collected(g: Geometry, d: seq<byte>, ch: seq<u16>, n: nat, b: seq<byte>, more: bool) {
    g.Sound(|d|) && n <= |ch| && InRange(g, ch) && |b| <= n * g.ClusterSize() && b == Data(g, d, ch[..n])[..|b|] &&
    (more ==> |b| == n * g.ClusterSize())
  }

  lemma NothingCollected(g: Geometry, d: seq<byte>, ch: seq<u16>)
    requires g.Sound(|d|) && InRange(g, ch)
    ensures Collected(g, d, ch, 0, [], true)
  {
  }

  lemma CollectedMore(g: Geometry, d: seq<byte>, ch: seq<u16>, n: nat, b: seq<byte>, copy: nat)
    requires Collected(g, d, ch, n, b, true) && n < |ch| && copy <= g.ClusterSize()
    ensures Collected(g, d, ch, n + 1, b + Cluster(g, d, ch[n])[..copy], copy == g.ClusterSize())
  {
    assert ch[..n + 1][..n] == ch[..n];
    assert (n + 1) * g.ClusterSize() == n * g.ClusterSize() + g.ClusterSize();
  }

  lemma CollectedAll(g: Geometry, d: seq<byte>, ch: seq<u16>, n: nat, b: seq<byte>, more: bool)
    requires Collected(g, d, ch, n, b, more)
    ensures var all := Data(g, d, ch);
      |b| <= |all| && b == all[..|b|] && (more && n == |ch| ==> b == all)
  {
    hide g.Sound;
    DataPrefix(g, d, ch, n);
    var all := Data(g, d, ch);
    TakeTake(all, n * g.ClusterSize(), |b|);
  }

  lemma ConsistentMounted(g: Geometry, d: seq<byte>, fat: seq<u16>, chains: map<nat, seq<u16>>)
    requires Consistent(g, d, fat, chains)
    ensures g.Sound(|d|) && |fat| == g.FatEntries()
  {
  }

  lemma NoFile(g: Geometry, d: seq<byte>, fat: seq<u16>, chains: map<nat, seq<u16>>, name: seq<byte>)
    requires Consistent(g, d, fat, chains) && Find(g, d, name, 0) < 0
    ensures File(g, d, fat, chains, name) == None
  {
  }

  /** The chain of a file that Find finds. */
  ghost function ChainAt(g: Geometry, d: seq<byte>, fat: seq<u16>, chains: map<nat, seq<u16>>,
                         name: seq<byte>): (ch: seq<u16>)
    requires Consistent(g, d, fat, chains) && Find(g, d, name, 0) >= 0
    ensures IsChain(fat, First(EntryAt(g, d, Find(g, d, name, 0))), ch) && InRange(g, ch)
    ensures var b, n := Data(g, d, ch), FileSize(EntryAt(g, d, Find(g, d, name, 0)));
      File(g, d, fat, chains, name) == Some(Take(b, n))
  {
    assert EntryOk(g, d, fat, Find(g, d, name, 0), chains[Find(g, d, name, 0)]);
    chains[Find(g, d, name, 0)]
  }

  /** Nothing below the first data sector changed: neither FAT nor directory. */
  ghost predicate SameBelow(g: Geometry, d: seq<byte>, d': seq<byte>) {
    |d'| == |d| && g.FirstData() * SECTOR <= |d| && d'[..g.FirstData() * SECTOR] == d[..g.FirstData() * SECTOR]
  }

  lemma SameYet(g: Geometry, d: seq<byte>)
    requires g.Sound(|d|)
    ensures SameBelow(g, d, d)
  {
    FatInside(g, |d|, 0);
  }

  lemma StoreStart(g: Geometry, fat: seq<u16>, d: seq<byte>, data: seq<byte>)
    requires g.Sound(|d|) && |fat| == g.FatEntries()
    ensures Untouched(g, fat, d, fat, d, []) && Holds(g, d, fat, 0, [], data, 0) && SameBelow(g, d, d)
  {
    UntouchedYet(g, fat, d);
    SameYet(g, d);
  }

  lemma StoreStep(g: Geometry, fat0: seq<u16>, d0: seq<byte>, fat: seq<u16>, d: seq<byte>, first: u16, ch: seq<u16>,
                  c: u16, b: seq<byte>,
                  data: seq<byte>, offset: nat, n: nat)
    requires g.Sound(|d|) && |fat| == g.FatEntries() && 2 <= c < |fat| && fat[c] == 0 && g.DataPos(c) + |b| <= |d|
    requires Untouched(g, fat0, d0, fat, d, ch) && Holds(g, d, fat, first, ch, data, offset) && offset < |data|
    requires SameBelow(g, d0, d) && |b| == g.ClusterSize()
    requires n == if offset + g.ClusterSize() > |data| then |data| - offset else g.ClusterSize()
    requires b[..n] == data[offset..offset + n]
    ensures ch != [] ==> ch[|ch| - 1] < |fat|
    ensures var fat', d' := Appended(fat, ch, c), Splice(d, g.DataPos(c), b);
      Untouched(g, fat0, d0, fat', d', ch + [c]) &&
      Holds(g, d', fat', if ch == [] then c else first, ch + [c], data, offset + n) &&
      SameBelow(g, d0, d') && |FreeSet(fat')| == |FreeSet(fat)| - 1
  {
    hide Untouched, Data, IsChain;
    assert IsChain(fat, first, ch);
    if ch != [] {
      MemberTaken(fat, first, ch, ch[|ch| - 1]);
    }
    StillUntouched(g, fat0, d0, fat, d, first, ch, c, b);
    HoldsMore(g, d, fat, first, ch, data, offset, c, b, n);
    AppendedSet(fat, first, ch, c);
    ClusterInside(g, |d|, c);
    SpliceElsewhere(d, g.DataPos(c), b, 0, g.FirstData() * SECTOR);
  }

  // ---- replacing one entry and its chain ------------------------------------------------------------

  /** d is d0 with entry k replaced by e; all other chains are as they were, apart from ch. */
  ghost predicate Replaced(g: Geometry, d0: seq<byte>, chains: map<nat, seq<u16>>, d: seq<byte>, fat: seq<u16>, k: nat,
                           e: DirEntry, ch: seq<u16>) {
    g.Sound(|d0|) && |d| == |d0| && |fat| == g.FatEntries() && k < g.rootCount &&
    (forall i :: i in chains ==> i < g.rootCount && InRange(g, chains[i])) &&
    (forall i {:trigger EntryAt(g, d, i)} {:trigger EntryAt(g, d0, i)} ::
      0 <= i < g.rootCount ==> EntryAt(g, d, i) == if i == k then e else EntryAt(g, d0, i)) &&
    (forall i :: i in chains && i != k ==>
      IsChain(fat, First(EntryAt(g, d0, i)), chains[i]) && Apart(ch, chains[i]) &&
      Data(g, d, chains[i]) == Data(g, d0, chains[i]))
  }

  /** The entry name goes to, or -1 if the directory is full. */
  function Place(g: Geometry, d: seq<byte>, name: seq<byte>): (k: int)
    requires g.Sound(|d|)
    ensures -1 <= k < g.rootCount
  {
    if Find(g, d, name, 0) >= 0 then Find(g, d, name, 0) else FindFree(g, d, 0)
  }

  /** Entry k is where name goes: the entry Find finds, or the first free one if there is none. */
  ghost predicate Target(g: Geometry, d: seq<byte>, name: seq<byte>, k: nat)
    requires g.Sound(|d|)
  {
    k < g.rootCount && (Find(g, d, name, 0) == k || (Find(g, d, name, 0) == -1 && FindFree(g, d, 0) == k))
  }

  /** Before the target every entry is in use or skipped, and none has the name. */
  lemma {:induction false} BeforeTarget(g: Geometry, d: seq<byte>, name: seq<byte>, k: nat, i: nat, j: nat)
    requires g.Sound(|d|) && i <= j < k < g.rootCount
    requires Find(g, d, name, i) == k ||
      (Find(g, d, name, i) == -1 && forall n :: i <= n < k ==> EntryAt(g, d, n)[0] != 0)
    ensures EntryAt(g, d, j)[0] != 0 && !(Shown(EntryAt(g, d, j)) && Name(EntryAt(g, d, j)) == name)
    decreases j - i
  {
    if i < j {
      BeforeTarget(g, d, name, k, i + 1, j);
    }
  }

  lemma TargetFound(g: Geometry, d: seq<byte>, name: seq<byte>, k: nat, j: nat)
    requires g.Sound(|d|) && Target(g, d, name, k) && j < k
    ensures EntryAt(g, d, j)[0] != 0 && !(Shown(EntryAt(g, d, j)) && Name(EntryAt(g, d, j)) == name)
  {
    BeforeTarget(g, d, name, k, 0, j);
  }

  lemma {:induction false} FindSelf(g: Geometry, d: seq<byte>, name: seq<byte>, k: nat, i: nat)
    requires g.Sound(|d|) && i <= k < g.rootCount
    requires forall j :: i <= j < k ==>
      EntryAt(g, d, j)[0] != 0 && !(Shown(EntryAt(g, d, j)) && Name(EntryAt(g, d, j)) == name)
    requires EntryAt(g, d, k)[0] != 0 && Shown(EntryAt(g, d, k)) && Name(EntryAt(g, d, k)) == name
    ensures Find(g, d, name, i) == k
    decreases k - i
  {
    if i < k {
      FindSelf(g, d, name, k, i + 1);
    }
  }

  /** Other names are found where they were. */
  lemma {:induction false} FindOther(g: Geometry, d: seq<byte>, chains: map<nat, seq<u16>>, d': seq<byte>,
                                     fat: seq<u16>, k: nat, e: DirEntry, ch: seq<u16>,
                                     name: seq<byte>, i: nat)
    requires Replaced(g, d, chains, d', fat, k, e, ch) && ZeroTail(g, d) && i <= g.rootCount
    requires e[0] != 0 && Name(e) != name && (InUse(EntryAt(g, d, k)) ==> Name(EntryAt(g, d, k)) != name)
    ensures Find(g, d', name, i) == Find(g, d, name, i)
    decreases g.rootCount - i
  {
    hide g.Sound, EntryAt, IsChain, Data, First;
    if i < g.rootCount {
      FindOther(g, d, chains, d', fat, k, e, ch, name, i + 1);
      assert EntryAt(g, d', i) == if i == k then e else EntryAt(g, d, i);
      if i == k && EntryAt(g, d, k)[0] == 0 && i + 1 < g.rootCount {
        assert EntryAt(g, d, i + 1)[0] == 0;
      }
    }
  }

  /** The volume after a write: consistent again, with ch as the chain of entry k. */
  lemma StaysConsistent(g: Geometry, d: seq<byte>, fat0: seq<u16>, chains: map<nat, seq<u16>>, d': seq<byte>,
                        fat: seq<u16>, k: nat, e: DirEntry, ch: seq<u16>, name: seq<byte>)
    requires Consistent(g, d, fat0, chains) && Replaced(g, d, chains, d', fat, k, e, ch) && Target(g, d, name, k)
    requires IsChain(fat, First(e), ch) && |ch| == Blocks(FileSize(e), g.ClusterSize()) && e[0] != 0 && InUse(e)
    ensures Consistent(g, d', fat, chains[k := ch])
  {
    hide g.Sound, EntryAt, IsChain, Blocks, FileSize, g.ClusterSize, Find, FindFree, Data, First;
    var chains' := chains[k := ch];
    TailKept(g, d, chains, d', fat, k, e, ch, name);
    forall i | i in chains' ensures EntryOk(g, d', fat, i, chains'[i]) {
      assert EntryAt(g, d', i) == if i == k then e else EntryAt(g, d, i);
      if i != k {
        assert EntryOk(g, d, fat0, i, chains[i]);
      }
    }
    forall i, j | i in chains' && j in chains' && i != j ensures Apart(chains'[i], chains'[j]) {
      if i == k || j == k {
        var o := if i == k then j else i;
        assert Apart(ch, chains[o]);
      }
    }
  }

  /** A name starting with 0xE5 writes an entry that counts as deleted: its clusters are lost. */
  lemma StaysConsistentDeleted(g: Geometry, d: seq<byte>, fat0: seq<u16>, chains: map<nat, seq<u16>>, d': seq<byte>,
                               fat: seq<u16>, k: nat, e: DirEntry, ch: seq<u16>, name: seq<byte>)
    requires Consistent(g, d, fat0, chains) && Replaced(g, d, chains, d', fat, k, e, ch) && Target(g, d, name, k)
    requires e[0] == DELETED && k !in chains
    ensures Consistent(g, d', fat, chains)
  {
    TailKept(g, d, chains, d', fat, k, e, ch, name);
    forall i | i in chains ensures EntryOk(g, d', fat, i, chains[i]) {
      assert EntryAt(g, d', i) == EntryAt(g, d, i);
      assert EntryOk(g, d, fat0, i, chains[i]);
    }
  }

  lemma TailKept(g: Geometry, d: seq<byte>, chains: map<nat, seq<u16>>, d': seq<byte>, fat: seq<u16>, k: nat,
                 e: DirEntry, ch: seq<u16>, name: seq<byte>)
    requires Replaced(g, d, chains, d', fat, k, e, ch) && ZeroTail(g, d) && Target(g, d, name, k) && e[0] != 0
    ensures ZeroTail(g, d')
  {
    forall i, j | 0 <= i <= j < g.rootCount && EntryAt(g, d', i)[0] == 0 ensures EntryAt(g, d', j)[0] == 0 {
      if i < k {
        TargetFound(g, d, name, k, i);
      }
      assert EntryAt(g, d, i)[0] == 0 ==> EntryAt(g, d, j)[0] == 0;
    }
  }

  /** The chain that a write of this name gives back. */
  ghost function OldChain(g: Geometry, d: seq<byte>, fat: seq<u16>, chains: map<nat, seq<u16>>,
                          name: seq<byte>): (ch: seq<u16>)
    requires Consistent(g, d, fat, chains)
    ensures Find(g, d, name, 0) >= 0 ==> IsChain(fat, First(EntryAt(g, d, Find(g, d, name, 0))), ch)
    ensures Find(g, d, name, 0) < 0 ==> ch == []
  {
    if Find(g, d, name, 0) >= 0 then ChainAt(g, d, fat, chains, name) else []
  }

  /** A new or reused entry of that name, which is not a directory. */
  predicate Named(e: DirEntry, name: seq<byte>) {
    Name(e) == name && !IsDirectory(e) && (e[0] != DELETED ==> Shown(e))
  }

  /** The disk and the table after data went into chain ch and entry k, from d0 and fat0. */
  ghost predicate Written(g: Geometry, d0: seq<byte>, fat0: seq<u16>, d: seq<byte>, fat: seq<u16>, k: nat, e: DirEntry,
                          e': DirEntry, ch: seq<u16>, data: seq<byte>) {
    Untouched(g, fat0, d0, fat, d, ch) && k < g.rootCount &&
    Name(e') == Name(e) && Attr(e') == Attr(e) && e'[0] == e[0] && FileSize(e') == |data| &&
    IsChain(fat, First(e'), ch) && |ch| == Blocks(|data|, g.ClusterSize()) && Take(Data(g, d, ch), |data|) == data &&
    (forall i {:trigger EntryAt(g, d, i)} {:trigger EntryAt(g, d0, i)} ::
      0 <= i < g.rootCount ==> EntryAt(g, d, i) == if i == k then e' else EntryAt(g, d0, i))
  }

  /** d2 differs from d1 only below the first data sector. */
  lemma Assembled(g: Geometry, d0: seq<byte>, fat0: seq<u16>, d1: seq<byte>, d: seq<byte>, fat: seq<u16>, k: nat,
                  e: DirEntry, first: u16, ch: seq<u16>, data: seq<byte>)
    requires g.Sound(|d0|) && |fat| == g.FatEntries() && k < g.rootCount && |data| < 0x1_0000_0000
    requires Untouched(g, fat0, d0, fat, d1, ch) && Holds(g, d1, fat, first, ch, data, |data|) && SameBelow(g, d0, d1)
    requires g.RootPos(k) + ENTRY <= |d1| == |d| && g.FirstRoot() * SECTOR <= |d|
    requires d[g.FirstRoot() * SECTOR..] ==
      Splice(d1, g.RootPos(k), WithFile(e, first, |data|))[g.FirstRoot() * SECTOR..]
    ensures Written(g, d0, fat0, d, fat, k, e, WithFile(e, first, |data|), ch, data)
  {
    hide Data, IsChain, EntryAt, WithFile, Splice, Blocks, Untouched, g.Sound, g.DataPos, g.ClusterSize;
    var e' := WithFile(e, first, |data|);
    var d2 := Splice(d1, g.RootPos(k), e');
    RootInside(g, |d0|, k);
    var q := g.FirstData() * SECTOR;
    SpliceElsewhere(d1, g.RootPos(k), e', q, |d1| - q);
    DataUnchanged(g, d1, d2, d);
    StillUntouchedBy(g, fat0, d0, fat, d1, ch, d);
    ChainRange(fat, first, ch);
    DataSame(g, d1, d, ch);
    HoldsAll(g, d1, fat, first, ch, data);
    forall i: nat | i < g.rootCount ensures EntryAt(g, d, i) == if i == k then e' else EntryAt(g, d0, i) {
      EntrySame(g, d0, d1, i);
      EntryWritten(g, d1, k, e', i);
      EntryUnchanged(g, d2, d, i);
    }
  }

  /** Writes below the first data sector touch no chain. */
  lemma StillUntouchedBy(g: Geometry, fat0: seq<u16>, d0: seq<byte>, fat: seq<u16>, d1: seq<byte>, ch: seq<u16>,
                         d: seq<byte>)
    requires Untouched(g, fat0, d0, fat, d1, ch) && |d| == |d1| && g.FirstData() * SECTOR <= |d|
    requires d[g.FirstData() * SECTOR..] == d1[g.FirstData() * SECTOR..]
    ensures Untouched(g, fat0, d0, fat, d, ch)
  {
    hide Data, g.Sound, g.DataPos, g.ClusterSize;
    forall f, oc {:trigger IsChain(fat0, f, oc)} | IsChain(fat0, f, oc)
      ensures IsChain(fat, f, oc) && Apart(ch, oc) && Data(g, d, oc) == Data(g, d0, oc)
    {
      DataSame(g, d1, d, oc);
    }
  }

  lemma ChainRange(fat: seq<u16>, f: u16, ch: seq<u16>)
    requires IsChain(fat, f, ch)
    ensures forall i :: 0 <= i < |ch| ==> 2 <= ch[i] < |fat|
  {
  }

  lemma DataUnchanged(g: Geometry, d1: seq<byte>, d2: seq<byte>, d: seq<byte>)
    requires g.Sound(|d1|) && |d| == |d2| == |d1| && g.FirstRoot() * SECTOR <= g.FirstData() * SECTOR <= |d|
    requires d[g.FirstRoot() * SECTOR..] == d2[g.FirstRoot() * SECTOR..] &&
      d2[g.FirstData() * SECTOR..] == d1[g.FirstData() * SECTOR..]
    ensures d[g.FirstData() * SECTOR..] == d1[g.FirstData() * SECTOR..]
  {
    var p, q := g.FirstRoot() * SECTOR, g.FirstData() * SECTOR;
    DropDrop(d, p, q - p);
    DropDrop(d2, p, q - p);
  }

  lemma EntryUnchanged(g: Geometry, d2: seq<byte>, d: seq<byte>, i: nat)
    requires g.Sound(|d|) && |d| == |d2| && i < g.rootCount && g.FirstRoot() * SECTOR <= |d|
    requires d[g.FirstRoot() * SECTOR..] == d2[g.FirstRoot() * SECTOR..]
    ensures EntryAt(g, d, i) == EntryAt(g, d2, i)
  {
    RootInside(g, |d|, i);
    var p, s, t := g.FirstRoot() * SECTOR, g.RootPos(i), g.RootPos(i) + ENTRY;
    SubDrop(d, p, s - p, t - p);
    SubDrop(d2, p, s - p, t - p);
  }

  lemma ToReplaced(g: Geometry, d0: seq<byte>, fat0: seq<u16>, chains: map<nat, seq<u16>>, name: seq<byte>,
                   fat1: seq<u16>,
                   d: seq<byte>, fat: seq<u16>, k: nat, e: DirEntry, e': DirEntry, ch: seq<u16>, data: seq<byte>)
    requires Consistent(g, d0, fat0, chains) && Target(g, d0, name, k) &&
      Freed(fat0, fat1, OldChain(g, d0, fat0, chains, name))
    requires Written(g, d0, fat1, d, fat, k, e, e', ch, data)
    ensures Replaced(g, d0, chains, d, fat, k, e', ch)
  {
    hide Data, g.DataPos, g.ClusterSize, Find, FindFree, EntryAt;
    forall i | i in chains
      ensures i < g.rootCount && InRange(g, chains[i])
      ensures i != k ==>
        IsChain(fat, First(EntryAt(g, d0, i)), chains[i]) && Apart(ch, chains[i]) &&
        Data(g, d, chains[i]) == Data(g, d0, chains[i])
    {
      assert EntryOk(g, d0, fat0, i, chains[i]);
      if i != k {
        KeptByFreeing(g, d0, fat0, chains, name, fat1, k, i);
        assert IsChain(fat1, First(EntryAt(g, d0, i)), chains[i]);
      }
    }
  }

  lemma KeptByFreeing(g: Geometry, d0: seq<byte>, fat0: seq<u16>, chains: map<nat, seq<u16>>, name: seq<byte>,
                      fat1: seq<u16>, k: nat, i: nat)
    requires Consistent(g, d0, fat0, chains) && Target(g, d0, name, k) &&
      Freed(fat0, fat1, OldChain(g, d0, fat0, chains, name))
    requires i in chains && i != k
    ensures IsChain(fat1, First(EntryAt(g, d0, i)), chains[i])
  {
    hide g.Sound, g.DataPos, g.ClusterSize, File, FindFree;
    var och := OldChain(g, d0, fat0, chains, name);
    var f := First(EntryAt(g, d0, i));
    assert EntryOk(g, d0, fat0, i, chains[i]);
    assert Apart(och, chains[i]) by {
      if Find(g, d0, name, 0) >= 0 {
        assert och == chains[k];
      }
    }
    forall x | x in chains[i] ensures x < |fat0| && fat1[x] == fat0[x] {
      MemberTaken(fat0, f, chains[i], x);
      assert x !in och;
    }
    ChainKept(fat0, fat1, f, chains[i]);
  }

  /** All files but the k-th still have their chains and their data. */
  ghost predicate OthersIntact(g: Geometry, d0: seq<byte>, d: seq<byte>, fat: seq<u16>, chains: map<nat, seq<u16>>,
                               k: int) {
    g.Sound(|d0|) && |d| == |d0| &&
    forall i :: i in chains && i != k ==>
      i < g.rootCount && IsChain(fat, First(EntryAt(g, d0, i)), chains[i]) && InRange(g, chains[i]) &&
      Data(g, d, chains[i]) == Data(g, d0, chains[i])
  }

  lemma OthersKept(g: Geometry, d0: seq<byte>, fat0: seq<u16>, chains: map<nat, seq<u16>>, name: seq<byte>,
                   fat1: seq<u16>, d: seq<byte>, fat: seq<u16>, k: nat, ch: seq<u16>)
    requires Consistent(g, d0, fat0, chains) && Target(g, d0, name, k) &&
      Freed(fat0, fat1, OldChain(g, d0, fat0, chains, name))
    requires Untouched(g, fat1, d0, fat, d, ch)
    ensures OthersIntact(g, d0, d, fat, chains, k)
  {
    hide Data, g.DataPos, g.ClusterSize, Find, FindFree, EntryAt;
    forall i | i in chains && i != k
      ensures i < g.rootCount && IsChain(fat, First(EntryAt(g, d0, i)), chains[i]) && InRange(g, chains[i])
      ensures Data(g, d, chains[i]) == Data(g, d0, chains[i])
    {
      assert EntryOk(g, d0, fat0, i, chains[i]);
      KeptByFreeing(g, d0, fat0, chains, name, fat1, k, i);
      assert IsChain(fat1, First(EntryAt(g, d0, i)), chains[i]);
    }
  }

  /** What a failed write leaves, as the source does not take anything back.  Without an entry for the
      file: everything as it was.  Without memory for a cluster: the chain of the file is free in the cached
      table, and the disk as it was.  Without clusters: no free cluster is left in the cached table, as the
      new data are in a chain of their own that no entry refers to; the table and the directory on disk are
      as they were, and so are the other files. */
  ghost predicate FailedWrite(g: Geometry, d0: seq<byte>, fat0: seq<u16>, d: seq<byte>, fat: seq<u16>,
                              chains: map<nat, seq<u16>>, name: seq<byte>, noMemory: bool)
    requires Consistent(g, d0, fat0, chains)
  {
    var k := Place(g, d0, name);
    if k < 0 then d == d0 && fat == fat0
    else if noMemory then d == d0 && Freed(fat0, fat, OldChain(g, d0, fat0, chains, name))
    else |FreeSet(fat)| == 0 && SameBelow(g, d0, d) && OthersIntact(g, d0, d, fat, chains, k)
  }

  lemma FreedCount(g: Geometry, d0: seq<byte>, fat0: seq<u16>, chains: map<nat, seq<u16>>, name: seq<byte>,
                   fat1: seq<u16>)
    requires Consistent(g, d0, fat0, chains) && Freed(fat0, fat1, OldChain(g, d0, fat0, chains, name))
    ensures |FreeSet(fat1)| == |FreeSet(fat0)| + |OldChain(g, d0, fat0, chains, name)|
  {
    hide FreeSet, Find;
    var och := OldChain(g, d0, fat0, chains, name);
    FreedSet(fat0, fat1, if Find(g, d0, name, 0) >= 0 then First(EntryAt(g, d0, Find(g, d0, name, 0))) else 0, och);
  }

  /** After a write the volume is consistent, the file reads as written, and all others as before. */
  lemma Rewritten(g: Geometry, d0: seq<byte>, fat0: seq<u16>, chains: map<nat, seq<u16>>, name: seq<byte>,
                  fat1: seq<u16>,
                  d: seq<byte>, fat: seq<u16>, k: nat, e: DirEntry, e': DirEntry, ch: seq<u16>, data: seq<byte>)
    requires Consistent(g, d0, fat0, chains) && Target(g, d0, name, k) && |name| == 11 && name[0] != 0 && Named(e, name)
    requires Written(g, d0, fat1, d, fat, k, e, e', ch, data) && Replaced(g, d0, chains, d, fat, k, e', ch)
    ensures var chains' := if name[0] == DELETED then chains else chains[k := ch];
      Consistent(g, d, fat, chains') &&
      File(g, d, fat, chains', name) == (if name[0] == DELETED then None else Some(data)) &&
      (forall other :: other != name ==> File(g, d, fat, chains', other) == File(g, d0, fat0, chains, other)) &&
      |ch| == Blocks(|data|, g.ClusterSize())
  {
    hide Consistent, Replaced, Data, EntryAt, Untouched, IsChain, File, g.Sound, g.DataPos, g.ClusterSize, Blocks, Find,
      FindFree, Target;
    var chains' := if name[0] == DELETED then chains else chains[k := ch];
    assert e'[0] == name[0] by { assert Name(e)[0] == e[0]; }
    if name[0] == DELETED {
      UnusedTarget(g, d0, fat0, chains, name, k);
      StaysConsistentDeleted(g, d0, fat0, chains, d, fat, k, e', ch, name);
      NeverFound(g, d, name);
      NoFile(g, d, fat, chains, name);
    } else {
      StaysConsistent(g, d0, fat0, chains, d, fat, k, e', ch, name);
      ConsistentMounted(g, d, fat, chains');
      ChainRange(fat, First(e'), ch);
      FileSelf(g, d0, fat0, chains, d, fat, k, e', ch, name);
    }
    forall other | other != name ensures File(g, d, fat, chains', other) == File(g, d0, fat0, chains, other) {
      FileOther(g, d0, fat0, chains, d, fat, k, e', ch, name, chains', other);
    }
  }

  /** A name starting with 0xE5 is never found. */
  lemma NeverFound(g: Geometry, d: seq<byte>, name: seq<byte>)
    requires g.Sound(|d|) && |name| == 11 && name[0] == DELETED
    ensures Find(g, d, name, 0) == -1
  {
  }

  lemma UnusedTarget(g: Geometry, d: seq<byte>, fat: seq<u16>, chains: map<nat, seq<u16>>, name: seq<byte>, k: nat)
    requires Consistent(g, d, fat, chains) && Target(g, d, name, k) && |name| == 11 && name[0] == DELETED
    ensures k !in chains
  {
    NeverFound(g, d, name);
  }

  lemma FileSelf(g: Geometry, d0: seq<byte>, fat0: seq<u16>, chains: map<nat, seq<u16>>, d: seq<byte>, fat: seq<u16>,
                 k: nat, e: DirEntry, ch: seq<u16>, name: seq<byte>)
    requires Consistent(g, d0, fat0, chains) && Target(g, d0, name, k) && Replaced(g, d0, chains, d, fat, k, e, ch)
    requires Shown(e) && Name(e) == name && e[0] != 0 && Consistent(g, d, fat, chains[k := ch]) && InRange(g, ch)
    ensures File(g, d, fat, chains[k := ch], name) == Some(Take(Data(g, d, ch), FileSize(e)))
  {
    hide Data, g.Sound, g.DataPos, g.ClusterSize, Find, FindFree, Target;
    assert EntryAt(g, d, k) == e;
    forall j: nat | j < k
      ensures EntryAt(g, d, j)[0] != 0 && !(Shown(EntryAt(g, d, j)) && Name(EntryAt(g, d, j)) == name)
    {
      TargetFound(g, d0, name, k, j);
      assert EntryAt(g, d, j) == EntryAt(g, d0, j);
    }
    FindSelf(g, d, name, k, 0);
  }

  lemma FileOther(g: Geometry, d0: seq<byte>, fat0: seq<u16>, chains: map<nat, seq<u16>>, d: seq<byte>, fat: seq<u16>,
                  k: nat, e: DirEntry, ch: seq<u16>,
                  name: seq<byte>, chains': map<nat, seq<u16>>, other: seq<byte>)
    requires Consistent(g, d0, fat0, chains) && Target(g, d0, name, k) && Replaced(g, d0, chains, d, fat, k, e, ch)
    requires Name(e) == name != other && e[0] != 0 && Consistent(g, d, fat, chains') &&
      (chains' == chains || chains' == chains[k := ch])
    ensures File(g, d, fat, chains', other) == File(g, d0, fat0, chains, other)
  {
    hide Data, g.Sound, g.DataPos, g.ClusterSize, FindFree, EntryAt;
    FindOther(g, d0, chains, d, fat, k, e, ch, other, 0);
    var j := Find(g, d0, other, 0);
    if j >= 0 {
      assert j != k;
      assert EntryAt(g, d, j) == EntryAt(g, d0, j);
      assert j in chains;
    }
  }

  lemma NextSector(g: Geometry, d: seq<byte>, s: nat)
    requires s < g.fatSize && g.FatPos(0) + g.fatSize * SECTOR <= |d|
    ensures var a, p := g.FatPos(0), (g.FirstFat() + s) * SECTOR;
      p == a + s * SECTOR && p + SECTOR == a + (s + 1) * SECTOR <= |d| && d[a..p] + d[p..p + SECTOR] == d[a..p + SECTOR]
  {
    Mul(s + 1, g.fatSize, SECTOR);
  }

  /** Read the first copy of the table, sector by sector. */
  method ReadTable(g: Geometry, disk: seq<byte>) returns (fat: seq<u16>)
    requires g.Sound(|disk|)
    ensures g.FatPos(0) + g.fatSize * SECTOR <= |disk| && |fat| == g.FatEntries()
    ensures Raw(fat) == disk[g.FatPos(0)..g.FatPos(0) + g.fatSize * SECTOR]
  {
    FatInside(g, |disk|, 0);
    hide g.Sound, Raw, Unraw, g.FatPos, g.FirstFat;
    var raw: seq<byte> := [];
    var s: nat := 0;
    while s < g.fatSize
      invariant s <= g.fatSize && g.FatPos(0) + s * SECTOR <= |disk| &&
        raw == disk[g.FatPos(0)..g.FatPos(0) + s * SECTOR]
    {
      var p := (g.FirstFat() + s) * SECTOR;
      NextSector(g, disk, s);
      raw := raw + disk[p..p + SECTOR];
      s := s + 1;
    }
    TableRead(g, raw);
    fat := Unraw(raw);
  }

  lemma TableRead(g: Geometry, raw: seq<byte>)
    requires |raw| == g.fatSize * SECTOR
    ensures |raw| % 2 == 0 && |Unraw(raw)| == g.FatEntries() && Raw(Unraw(raw)) == raw
  {
    hide Raw, Unraw;
    assert |raw| == 2 * g.FatEntries();
    RawUnraw(raw);
  }

  class Volume {
    const g: Geometry
    var disk: seq<byte>
    var fat: seq<u16>
    ghost var chains: map<nat, seq<u16>>

    /** Mount: cache the first copy of the table, sector by sector. */
    constructor (g: Geometry, disk: seq<byte>, ghost chains: map<nat, seq<u16>>)
      requires g.Sound(|disk|)
      ensures this.g == g && this.disk == disk && this.chains == chains && Mounted()
      ensures g.FatPos(0) + g.fatSize * SECTOR <= |disk| &&
        Raw(fat) == disk[g.FatPos(0)..g.FatPos(0) + g.fatSize * SECTOR]
    {
      var table := ReadTable(g, disk);
      this.g, this.disk, this.chains, fat := g, disk, chains, table;
    }

    ghost predicate Valid()
      reads this
    {
      Consistent(g, disk, fat, chains)
    }

    ghost predicate Mounted()
      reads this
    {
      g.Sound(|disk|) && |fat| == g.FatEntries()
    }

    // ---- sectors --------------------------------------------------------------------------------

    method ReadSector(lba: nat) returns (b: seq<byte>)
      requires (lba + 1) * SECTOR <= |disk|
      ensures b == disk[lba * SECTOR..(lba + 1) * SECTOR]
    {
      b := disk[lba * SECTOR..(lba + 1) * SECTOR];
    }

    method WriteSector(lba: nat, b: seq<byte>)
      requires |b| == SECTOR && (lba + 1) * SECTOR <= |disk|
      modifies this`disk
      ensures disk == Splice(old(disk), lba * SECTOR, b)
    {
      disk := Splice(disk, lba * SECTOR, b);
    }

    method ReadCluster(c: u16) returns (b: seq<byte>)
      requires Mounted() && 2 <= c < g.FatEntries()
      ensures b == Cluster(g, disk, c)
    {
      ClusterInside(g, |disk|, c);
      var lba := g.FirstData() + (c - 2) * g.spc;
      b := [];
      var i := 0;
      while i < g.spc
        invariant i <= g.spc && b == disk[lba * SECTOR..(lba + i) * SECTOR]
      {
        var s := ReadSector(lba + i);
        assert disk[lba * SECTOR..(lba + i + 1) * SECTOR] == disk[lba * SECTOR..(lba + i) * SECTOR] + s;
        b := b + s;
        i := i + 1;
      }
    }

    method WriteCluster(c: u16, b: seq<byte>)
      requires Mounted() && 2 <= c < g.FatEntries() && |b| == g.ClusterSize()
      modifies this`disk
      ensures g.DataPos(c) + |b| <= |old(disk)| && disk == Splice(old(disk), g.DataPos(c), b)
    {
      ClusterInside(g, |disk|, c);
      var lba := g.FirstData() + (c - 2) * g.spc;
      ghost var d, p := disk, g.DataPos(c);
      SpliceNothing(d, p);
      var i := 0;
      while i < g.spc
        invariant i <= g.spc && disk == Splice(d, p, b[..i * SECTOR])
      {
        var s := b[i * SECTOR..(i + 1) * SECTOR];
        WriteSector(lba + i, s);
        SpliceOn(d, p, b[..i * SECTOR], s);
        assert b[..i * SECTOR] + s == b[..(i + 1) * SECTOR];
        i := i + 1;
      }
      assert b[..i * SECTOR] == b;
    }

    method ReadRootEntry(i: nat) returns (e: DirEntry)
      requires Mounted() && i < g.rootCount
      ensures e == EntryAt(g, disk, i)
    {
      RootInside(g, |disk|, i);
      RootSector(g, |disk|, i);
      hide g.Sound;
      var lba, o := g.FirstRoot() + i / 16, i % 16 * ENTRY;
      var s := ReadSector(lba);
      SubSlice(disk, lba * SECTOR, (lba + 1) * SECTOR, o, o + ENTRY);
      e := s[o..o + ENTRY];
    }

    /** Read, modify and write back the sector of the entry. */
    method WriteRootEntry(i: nat, e: DirEntry)
      requires Mounted() && i < g.rootCount
      modifies this`disk
      ensures g.RootPos(i) + ENTRY <= |old(disk)| && disk == Splice(old(disk), g.RootPos(i), e)
    {
      RootInside(g, |disk|, i);
      RootSector(g, |disk|, i);
      var lba, o := g.FirstRoot() + i / 16, i % 16 * ENTRY;
      var s := ReadSector(lba);
      WriteSector(lba, Splice(s, o, e));
      SectorPatched(old(disk), lba * SECTOR, o, e);
    }

    method FindRootEntry(name: seq<byte>) returns (k: int, e: DirEntry)
      requires Mounted() && |name| == 11
      ensures k == Find(g, disk, name, 0) && (k >= 0 ==> e == EntryAt(g, disk, k))
    {
      var i := 0;
      e := seq(32, _ => 0);
      while i < g.rootCount
        invariant i <= g.rootCount && Find(g, disk, name, i) == Find(g, disk, name, 0)
      {
        e := ReadRootEntry(i);
        if e[0] == 0 {
          return -1, e;
        }
        if Shown(e) && Name(e) == name {
          return i, e;
        }
        i := i + 1;
      }
      return -1, e;
    }

    method FindFreeRootEntry() returns (k: int)
      requires Mounted()
      ensures k == FindFree(g, disk, 0)
    {
      var i := 0;
      while i < g.rootCount
        invariant i <= g.rootCount && FindFree(g, disk, i) == FindFree(g, disk, 0)
      {
        var e := ReadRootEntry(i);
        if e[0] == 0 || e[0] == DELETED {
          return i;
        }
        i := i + 1;
      }
      return -1;
    }

    // ---- the FAT --------------------------------------------------------------------------------

    function FatNext(c: u16): u16
      reads this
    {
      if c >= |fat| then 0xFFFF else fat[c]
    }

    /** The lowest free cluster, marked as the end of a chain, or 0. */
    method FatAlloc() returns (c: u16)
      requires Mounted()
      modifies this`fat
      ensures c == 0 ==> fat == old(fat) && FreeSet(fat) == {}
      ensures c != 0 ==>
        2 <= c < |old(fat)| && old(fat)[c] == 0 && fat == old(fat)[c := 0xFFFF] &&
        (forall x :: 2 <= x < c ==> old(fat)[x] != 0)
    {
      var i := 2;
      while i < |fat|
        invariant 2 <= i <= |fat| && fat == old(fat) && (forall x :: 2 <= x < i ==> fat[x] != 0)
      {
        if fat[i] == 0 {
          fat := fat[i := 0xFFFF];
          return i;
        }
        i := i + 1;
      }
      return 0;
    }

    /** Give all clusters of a chain back. */
    method FreeChain(first: u16, ghost ch: seq<u16>)
      requires Mounted() && IsChain(fat, first, ch)
      modifies this`fat
      ensures Freed(old(fat), fat, ch)
    {
      var c := first;
      ghost var n := 0;
      while 2 <= c < EOC
        invariant n <= |ch| && |fat| == |old(fat)|
        invariant n < |ch| ==> c == ch[n]
        invariant n == |ch| ==> c < 2 || c >= EOC
        invariant forall x: u16 :: x < |fat| ==> fat[x] == if x in ch[..n] then 0 else old(fat)[x]
        decreases |ch| - n
      {
        assert ch[n] !in ch[..n];
        var next := FatNext(c);
        fat := fat[c := 0];
        c := next;
        n := n + 1;
        assert ch[..n] == ch[..n - 1] + [ch[n - 1]];
      }
      assert ch[..n] == ch;
    }

    /** Write the cached table to every copy on disk. */
    method FatFlush()
      requires Mounted()
      modifies this`disk
      ensures |disk| == |old(disk)| && Flushed(g, disk, fat, g.numFats)
      ensures g.FirstRoot() * SECTOR <= |disk| && disk[g.FirstRoot() * SECTOR..] == old(disk[g.FirstRoot() * SECTOR..])
    {
      hide Flushed, Raw, Splice, g.DataPos, g.FatPos;
      var raw := Raw(fat);
      FatInside(g, |disk|, 0);
      RawSize(g, fat);
      NoneFlushed(g, disk, fat);
      var f := 0;
      while f < g.numFats
        invariant f <= g.numFats && Mounted() && |disk| == |old(disk)| && Flushed(g, disk, fat, f)
        invariant disk[g.FirstRoot() * SECTOR..] == old(disk[g.FirstRoot() * SECTOR..])
      {
        ghost var d := disk;
        FlushCopy(f, raw);
        FatInside(g, |d|, f);
        FlushedMore(g, d, fat, f);
        SpliceElsewhere(d, g.FatPos(f), raw, g.FirstRoot() * SECTOR, |d| - g.FirstRoot() * SECTOR);
        f := f + 1;
      }
    }

    method FlushCopy(f: nat, raw: seq<byte>)
      requires Mounted() && f < g.numFats && |raw| == g.fatSize * SECTOR
      modifies this`disk
      ensures g.FatPos(f) + |raw| <= |old(disk)| && disk == Splice(old(disk), g.FatPos(f), raw)
    {
      FatInside(g, |disk|, f);
      ghost var d, p := disk, g.FatPos(f);
      var lba := g.FirstFat() + f * g.fatSize;
      SpliceNothing(d, p);
      var s := 0;
      while s < g.fatSize
        invariant s <= g.fatSize && disk == Splice(d, p, raw[..s * SECTOR])
      {
        var b := raw[s * SECTOR..(s + 1) * SECTOR];
        WriteSector(lba + s, b);
        SpliceOn(d, p, raw[..s * SECTOR], b);
        assert raw[..s * SECTOR] + b == raw[..(s + 1) * SECTOR];
        s := s + 1;
      }
      assert raw[..s * SECTOR] == raw;
    }

    // ---- files ------------------------------------------------------------------------------------

    /** Walk the chain of a file and collect its bytes. */
    method ReadFile(name: seq<byte>, max: nat, noMemory: bool) returns (r: Option<seq<byte>>)
      requires Valid() && |name| == 11
      ensures var f := File(g, disk, fat, chains, name);
        r == if f.None? then None
             else if f.value == [] && FileSize(EntryAt(g, disk, Find(g, disk, name, 0))) == 0 then Some([])
             else if noMemory then None
             else Some(Take(f.value, max))
    {
      hide Consistent, IsChain, Find, File, Data, EntryAt, FileSize, First;
      assert Mounted() by { ConsistentMounted(g, disk, fat, chains); }
      var k, e := FindRootEntry(name);
      if k < 0 {
        NoFile(g, disk, fat, chains, name);
        return None;
      }
      ghost var ch := ChainAt(g, disk, fat, chains, name);
      if FileSize(e) == 0 {
        assert Data(g, disk, ch)[..0] == [];
        return Some([]);
      }
      if noMemory {
        return None;
      }
      var b := Collect(First(e), if FileSize(e) > max then max else FileSize(e), ch);
      TakeTwice(Data(g, disk, ch), FileSize(e), max);
      return Some(b);
    }

    /** The first `want` bytes of a chain, or all if it has fewer. */
    method Collect(first: u16, want: nat, ghost ch: seq<u16>) returns (b: seq<byte>)
      requires Mounted() && IsChain(fat, first, ch) && InRange(g, ch)
      ensures b == Take(Data(g, disk, ch), want)
    {
      hide Collected, Data, Cluster, g.ClusterSize, IsChain;
      var cluster, remaining: nat := first, want;
      ghost var n, full := 0, true;
      b := [];
      ClusterPositive(g, |disk|);
      NothingCollected(g, disk, ch);
      ChainWalk(fat, first, ch, 0);
      while remaining > 0 && 2 <= cluster < EOC
        invariant n <= |ch| && |b| + remaining == want
        invariant n < |ch| ==> cluster == ch[n]
        invariant n == |ch| ==> cluster < 2 || cluster >= EOC
        invariant Collected(g, disk, ch, n, b, full) && (remaining > 0 ==> full)
        decreases |ch| - n
      {
        ChainWalk(fat, first, ch, n);
        var s := ReadCluster(cluster);
        var copy := if g.ClusterSize() > remaining then remaining else g.ClusterSize();
        CollectedMore(g, disk, ch, n, b, copy);
        b := b + s[..copy];
        remaining := remaining - copy;
        cluster := FatNext(cluster);
        n, full := n + 1, copy == g.ClusterSize();
      }
      ChainWalk(fat, first, ch, n);
      CollectedAll(g, disk, ch, n, b, full);
    }

    /** Allocate clusters one by one and fill them with data. */
    method StoreData(data: seq<byte>) returns (ok: bool, first: u16, ghost ch: seq<u16>)
      requires Mounted()
      modifies this`disk, this`fat
      ensures Mounted() && |disk| == |old(disk)| && SameBelow(g, old(disk), disk)
      ensures Untouched(g, old(fat), old(disk), fat, disk, ch) && |FreeSet(fat)| == |FreeSet(old(fat))| - |ch|
      ensures if ok then Holds(g, disk, fat, first, ch, data, |data|) else |FreeSet(fat)| == 0
      ensures ok <==> Blocks(|data|, g.ClusterSize()) <= |FreeSet(old(fat))|
    {
      hide Untouched, Holds, g.ClusterSize, SameBelow, FreeSet, Blocks;
      ghost var fat0, d0 := fat, disk;
      ClusterPositive(g, |disk|);
      var prev: u16, offset := 0, 0;
      first, ch := 0, [];
      StoreStart(g, fat, disk, data);
      while offset < |data|
        invariant Mounted() && offset <= |data| && |disk| == |d0|
        invariant Untouched(g, fat0, d0, fat, disk, ch) && Holds(g, disk, fat, first, ch, data, offset)
        invariant SameBelow(g, d0, disk) && |FreeSet(fat)| == |FreeSet(fat0)| - |ch|
        invariant if ch == [] then first == 0 && prev == 0 else first != 0 && prev == ch[|ch| - 1] && 2 <= prev < |fat|
        decreases |data| - offset
      {
        ghost var fat1, first1, d1 := fat, first, disk;
        var c := FatAlloc();
        if c == 0 {
          HoldsPart(g, disk, fat, first, ch, data, offset);
          return false, first, ch;
        }
        if first == 0 {
          first := c;
        }
        if prev != 0 {
          fat := fat[prev := c];
        }
        ClusterPositive(g, |disk|);
        var n := if offset + g.ClusterSize() > |data| then |data| - offset else g.ClusterSize();
        var b := data[offset..offset + n] + seq(g.ClusterSize() - n, _ => 0);
        WriteCluster(c, b);
        StoreStep(g, fat0, d0, fat1, d1, first1, ch, c, b, data, offset, n);
        offset := offset + n;
        prev, ch := c, ch + [c];
      }
      HoldsAll(g, disk, fat, first, ch, data);
      return true, first, ch;
    }

    /** Choose the entry of a file that is to be written, and free the chain it has. */
    method MakeRoom(name: seq<byte>) returns (k: int, e: DirEntry)
      requires Valid() && |name| == 11
      requires Find(g, disk, name, 0) >= 0 ==> EntryAt(g, disk, Find(g, disk, name, 0))[11] / 16 % 2 == 0
      modifies this`fat
      ensures Mounted() && k == Place(g, disk, name) && (k < 0 ==> fat == old(fat))
      ensures k >= 0 ==>
        Target(g, disk, name, k) && Named(e, name) && Freed(old(fat), fat, OldChain(g, disk, old(fat), chains, name))
    {
      hide Consistent, File, Data, EntryAt, FreeSet, IsChain, g.Sound, First;
      ConsistentMounted(g, disk, fat, chains);
      k, e := FindRootEntry(name);
      if k >= 0 {
        FreeChain(First(e), OldChain(g, disk, fat, chains, name));
      } else {
        k := FindFreeRootEntry();
        e := FreshEntry(name);
      }
    }

    /** Store data in a new chain, then the entry, then the table. */
    method Commit(k: nat, e: DirEntry, data: seq<byte>) returns (ok: bool, ghost e': DirEntry, ghost ch: seq<u16>)
      requires Mounted() && k < g.rootCount && |data| < 0x1_0000_0000
      modifies this`disk, this`fat
      ensures ok <==> Blocks(|data|, g.ClusterSize()) <= |FreeSet(old(fat))|
      ensures !ok ==>
        SameBelow(g, old(disk), disk) && Untouched(g, old(fat), old(disk), fat, disk, ch) && |FreeSet(fat)| == 0
      ensures ok ==> Written(g, old(disk), old(fat), disk, fat, k, e, e', ch, data)
      ensures ok ==> Flushed(g, disk, fat, g.numFats) && |FreeSet(fat)| == |FreeSet(old(fat))| - |ch|
    {
      hide Data, EntryAt, Untouched, Holds, Flushed, SameBelow, FreeSet, IsChain, Written, g.DataPos, g.ClusterSize;
      e', ch := e, [];
      var first;
      ok, first, ch := StoreData(data);
      if !ok {
        return;
      }
      ghost var d1 := disk;
      e' := WithFile(e, first, |data|);
      WriteRootEntry(k, WithFile(e, first, |data|));
      FatFlush();
      Assembled(g, old(disk), old(fat), d1, disk, fat, k, e, first, ch, data);
    }

    /** Create or overwrite a file. */
    method WriteFile(name: seq<byte>, data: seq<byte>, noMemory: bool) returns (ok: bool)
      requires Valid() && |name| == 11 && name[0] != 0 && |data| + g.ClusterSize() <= 0x1_0000_0000
      requires Find(g, disk, name, 0) >= 0 ==> EntryAt(g, disk, Find(g, disk, name, 0))[11] / 16 % 2 == 0
      modifies this
      ensures ok <==> !noMemory && old(Place(g, disk, name) >= 0 &&
        Blocks(|data|, g.ClusterSize()) <= |FreeSet(fat)| + |OldChain(g, disk, fat, chains, name)|)
      ensures !ok ==> chains == old(chains) && FailedWrite(g, old(disk), old(fat), disk, fat, chains, name, noMemory)
      ensures ok ==> Valid() && Flushed(g, disk, fat, g.numFats)
      ensures ok ==> File(g, disk, fat, chains, name) == if name[0] == 0xE5 then None else Some(data)
      ensures ok ==> forall other :: other != name ==>
        File(g, disk, fat, chains, other) == old(File(g, disk, fat, chains, other))
      ensures ok ==>
        |FreeSet(fat)| == old(|FreeSet(fat)| + |OldChain(g, disk, fat, chains, name)|) - Blocks(|data|, g.ClusterSize())
    {
      hide Consistent, Find, Target, File, Data, EntryAt, Flushed, FreeSet, Freed, IsChain, Written, g.Sound, OldChain,
        g.ClusterSize, Blocks, Place, SameBelow;
      ghost var d0, fat0, chains0 := disk, fat, chains;
      ConsistentMounted(g, disk, fat, chains);
      ClusterPositive(g, |disk|);
      SameYet(g, disk);
      var k, e := MakeRoom(name);
      if k < 0 || noMemory {
        return false;
      }
      ghost var fat1 := fat;
      ghost var e', ch;
      ok, e', ch := Commit(k, e, data);
      FreedCount(g, d0, fat0, chains0, name, fat1);
      if !ok {
        OthersKept(g, d0, fat0, chains0, name, fat1, disk, fat, k, ch);
      } else {
        ToReplaced(g, d0, fat0, chains0, name, fat1, disk, fat, k, e, e', ch, data);
        chains := if name[0] == DELETED then chains else chains[k as nat := ch];
        Rewritten(g, d0, fat0, chains0, name, fat1, disk, fat, k, e, e', ch, data);
      }
    }
  }

  /** The first n copies of the table on disk equal the cache. */
  ghost predicate Flushed(g: Geometry, d: seq<byte>, fat: seq<u16>, n: nat) {
    forall f :: 0 <= f < n ==> CopyAt(g, d, fat, f)
  }

  ghost predicate CopyAt(g: Geometry, d: seq<byte>, fat: seq<u16>, f: nat) {
    g.FatPos(f) + 2 * |fat| <= |d| && d[g.FatPos(f)..g.FatPos(f) + 2 * |fat|] == Raw(fat)
  }

  lemma NoneFlushed(g: Geometry, d: seq<byte>, fat: seq<u16>)
    ensures Flushed(g, d, fat, 0)
  {
  }

  lemma RawSize(g: Geometry, fat: seq<u16>)
    requires |fat| == g.FatEntries()
    ensures |Raw(fat)| == 2 * |fat| == g.fatSize * SECTOR
  {
    hide Raw;
  }

  lemma FlushedMore(g: Geometry, d: seq<byte>, fat: seq<u16>, f: nat)
    requires g.Sound(|d|) && f < g.numFats && 2 * |fat| == g.fatSize * SECTOR && Flushed(g, d, fat, f)
    requires g.FatPos(f) + 2 * |fat| <= |d|
    ensures Flushed(g, Splice(d, g.FatPos(f), Raw(fat)), fat, f + 1)
  {
    hide g.Sound, g.FatPos, Raw, Splice;
    forall k | 0 <= k < f + 1 ensures CopyAt(g, Splice(d, g.FatPos(f), Raw(fat)), fat, k) {
      if k < f {
        assert CopyAt(g, d, fat, k);
        FatsApart(g, k, f);
        SpliceElsewhere(d, g.FatPos(f), Raw(fat), g.FatPos(k), 2 * |fat|);
      } else {
        SpliceRead(d, g.FatPos(f), Raw(fat));
      }
    }
  }

  /** The sector of an entry, and the entry's place in it. */
  lemma RootSector(g: Geometry, size: nat, i: nat)
    requires g.Sound(size) && i < g.rootCount
    ensures var lba := g.FirstRoot() + i / 16;
      (lba + 1) * SECTOR <= g.FirstData() * SECTOR <= size && lba * SECTOR + i % 16 * ENTRY == g.RootPos(i) &&
      i % 16 * ENTRY + ENTRY <= SECTOR
  {
    RootInside(g, size, i);
    assert i == 16 * (i / 16) + i % 16;
    assert i / 16 < g.RootSectors();
  }

  lemma SectorPatched(d: seq<byte>, p: nat, o: nat, e: seq<byte>)
    requires p + SECTOR <= |d| && o + |e| <= SECTOR
    ensures Splice(d, p, Splice(d[p..p + SECTOR], o, e)) == Splice(d, p + o, e)
  {
  }

  /** The table read back from a flushed disk is the cached one. */
  lemma Persistent(g: Geometry, d: seq<byte>, fat: seq<u16>, fat': seq<u16>)
    requires g.Sound(|d|) && |fat| == g.FatEntries() && Flushed(g, d, fat, g.numFats)
    requires g.FatPos(0) + g.fatSize * SECTOR <= |d| && Raw(fat') == d[g.FatPos(0)..g.FatPos(0) + g.fatSize * SECTOR]
    ensures fat' == fat
  {
    hide g.DataPos, Raw, Unraw, g.FatPos;
    assert CopyAt(g, d, fat, 0);
    RawSize(g, fat);
    UnrawRaw(fat);
    UnrawRaw(fat');
  }

  /** What a successful write leaves survives a remount: the volume mounted from its disk
      is valid and holds the same files. */
  method Remount(v: Volume) returns (w: Volume)
    requires v.Valid() && Flushed(v.g, v.disk, v.fat, v.g.numFats)
    ensures fresh(w) && w.Valid() && w.disk == v.disk && w.fat == v.fat && w.chains == v.chains
    ensures forall name :: File(w.g, w.disk, w.fat, w.chains, name) == File(v.g, v.disk, v.fat, v.chains, name)
  {
    hide Consistent, File, Raw, Flushed, v.g.Sound;
    ConsistentMounted(v.g, v.disk, v.fat, v.chains);
    w := new Volume(v.g, v.disk, v.chains);
    Persistent(v.g, v.disk, v.fat, w.fat);
  }
}
