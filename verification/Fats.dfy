/** Cluster chains in a file allocation table (src/fat16.rs). */
module Fats {
  import opened Base

  type u16 = x: int | 0 <= x < 0x1_0000

  /** Values from here on end a chain. */
  const EOC: u16 := 0xFFF8

  ghost predicate NoDup(s: seq<u16>) {
    forall i, j :: 0 <= i < j < |s| ==> s[i] != s[j]
  }

  /** ch is the chain of a file whose first cluster is `first`: linked through fat,
      without repetition, and properly ended. */
  ghost predicate IsChain(fat: seq<u16>, first: u16, ch: seq<u16>) {
    NoDup(ch) && (forall i :: 0 <= i < |ch| ==> 2 <= ch[i] < |fat|) &&
    (forall i :: 0 <= i < |ch| - 1 ==> fat[ch[i]] == ch[i + 1]) &&
    (if ch == [] then first < 2 else first == ch[0] && fat[ch[|ch| - 1]] >= 0xFFF8)
  }

  /** Every value from 0xFFF8 on ends a chain, and no other. */
  lemma ChainEnds(fat: seq<u16>, c: u16)
    requires 2 <= c < |fat|
    ensures IsChain(fat, c, [c]) <==> fat[c] >= 0xFFF8
  {
  }

  /** Following a chain from its n-th cluster. */
  lemma ChainWalk(fat: seq<u16>, first: u16, ch: seq<u16>, n: nat)
    requires IsChain(fat, first, ch)
    ensures if ch == [] then first < 2 else first == ch[0]
    ensures n < |ch| ==> 2 <= ch[n] < |fat|
    ensures n + 1 < |ch| ==> fat[ch[n]] == ch[n + 1]
    ensures n + 1 == |ch| ==> fat[ch[n]] >= 0xFFF8
  {
  }

  /** A cluster of a chain is not free. */
  lemma MemberTaken(fat: seq<u16>, first: u16, ch: seq<u16>, x: u16)
    requires IsChain(fat, first, ch) && x in ch
    ensures 2 <= x < |fat| && fat[x] != 0
  {
    var i :| 0 <= i < |ch| && ch[i] == x;
    if i < |ch| - 1 {
      assert fat[ch[i]] == ch[i + 1];
    }
  }

  lemma ChainKept(fat: seq<u16>, fat': seq<u16>, first: u16, ch: seq<u16>)
    requires IsChain(fat, first, ch) && |fat'| == |fat| && forall x :: x in ch ==> x < |fat| && fat'[x] == fat[x]
    ensures IsChain(fat', first, ch)
  {
    assert forall i :: 0 <= i < |ch| ==> ch[i] in ch;
  }

  /** fat' is fat with the clusters of ch free. */
  ghost predicate Freed(fat: seq<u16>, fat': seq<u16>, ch: seq<u16>) {
    |fat'| == |fat| && forall x: u16 :: x < |fat| ==> fat'[x] == if x in ch then 0 else fat[x]
  }

  /** The table after one more cluster c at the end of chain ch. */
  function Appended(fat: seq<u16>, ch: seq<u16>, c: u16): (fat': seq<u16>)
    requires c < |fat| && (ch != [] ==> ch[|ch| - 1] < |fat|)
    ensures |fat'| == |fat|
  {
    var marked := fat[c := 0xFFFF];
    if ch == [] then marked else marked[ch[|ch| - 1] := c]
  }

  lemma ChainAppended(fat: seq<u16>, first: u16, ch: seq<u16>, c: u16)
    requires IsChain(fat, first, ch) && 2 <= c < |fat| && fat[c] == 0
    ensures IsChain(Appended(fat, ch, c), if ch == [] then c else first, ch + [c])
  {
    var ch', fat' := ch + [c], Appended(fat, ch, c);
    forall i | 0 <= i < |ch| ensures ch[i] != c {
      MemberTaken(fat, first, ch, ch[i]);
    }
    forall i | 0 <= i < |ch'| - 1 ensures fat'[ch'[i]] == ch'[i + 1] {
      if i < |ch| - 1 {
        assert ch[i] != ch[|ch| - 1];
        assert fat[ch[i]] == ch[i + 1];
      }
    }
  }

  lemma OtherKept(fat: seq<u16>, first: u16, ch: seq<u16>, c: u16, first': u16, other: seq<u16>)
    requires IsChain(fat, first, ch) && 2 <= c < |fat| && fat[c] == 0
    requires IsChain(fat, first', other) && Apart(ch, other)
    ensures IsChain(Appended(fat, ch, c), first', other) && Apart(ch + [c], other)
  {
    forall x | x in other ensures x < |fat| && Appended(fat, ch, c)[x] == fat[x] && x != c {
      MemberTaken(fat, first', other, x);
      if ch != [] {
        assert ch[|ch| - 1] in ch;
      }
    }
    ChainKept(fat, Appended(fat, ch, c), first', other);
  }

  ghost predicate Apart(a: seq<u16>, b: seq<u16>) {
    forall x :: x in a ==> x !in b
  }

  // ---- free clusters --------------------------------------------------------------------

  function Elems(s: seq<u16>): set<int> {
    set x | x in s
  }

  lemma {:induction false} ElemsCount(s: seq<u16>)
    requires NoDup(s)
    ensures |Elems(s)| == |s|
    decreases |s|
  {
    if s != [] {
      var front := s[..|s| - 1];
      ElemsCount(front);
      assert Elems(s) == Elems(front) + {s[|s| - 1] as int};
      assert s[|s| - 1] !in front;
    }
  }

  function FreeSet(fat: seq<u16>): set<int> {
    set x | 2 <= x < |fat| && fat[x] == 0
  }

  lemma FreedSet(fat: seq<u16>, fat': seq<u16>, first: u16, ch: seq<u16>)
    requires IsChain(fat, first, ch) && Freed(fat, fat', ch) && |fat| <= 0x1_0000
    ensures FreeSet(fat') == FreeSet(fat) + Elems(ch) && |FreeSet(fat')| == |FreeSet(fat)| + |ch|
  {
    forall x: u16 | x in ch ensures x in FreeSet(fat') && x !in FreeSet(fat) {
      MemberTaken(fat, first, ch, x);
    }
    forall x | x in FreeSet(fat') ensures x in FreeSet(fat) + Elems(ch) {
      var y: u16 := x;
      assert fat'[y] == if y in ch then 0 else fat[y];
    }
    forall x | x in FreeSet(fat) ensures x in FreeSet(fat') {
      var y: u16 := x;
      assert fat'[y] == if y in ch then 0 else fat[y];
    }
    assert FreeSet(fat') == FreeSet(fat) + Elems(ch);
    ElemsCount(ch);
    assert FreeSet(fat) !! Elems(ch);
  }

  lemma AppendedSet(fat: seq<u16>, first: u16, ch: seq<u16>, c: u16)
    requires IsChain(fat, first, ch) && 2 <= c < |fat| && fat[c] == 0
    ensures FreeSet(Appended(fat, ch, c)) == FreeSet(fat) - {c as int} &&
      |FreeSet(Appended(fat, ch, c))| == |FreeSet(fat)| - 1
  {
    if ch != [] {
      MemberTaken(fat, first, ch, ch[|ch| - 1]);
    }
    assert c as int in FreeSet(fat);
  }

  // ---- raw bytes of the table --------------------------------------------------------------

  function Raw(fat: seq<u16>): (bs: seq<byte>)
    ensures |bs| == 2 * |fat|
  {
    if fat == [] then [] else Raw(fat[..|fat| - 1]) + [fat[|fat| - 1] % 256, fat[|fat| - 1] / 256]
  }

  function Unraw(bs: seq<byte>): (fat: seq<u16>)
    requires |bs| % 2 == 0
    ensures |fat| == |bs| / 2
  {
    if bs == [] then []
    else
      var lo: int, hi: int := bs[|bs| - 2], bs[|bs| - 1];
      Unraw(bs[..|bs| - 2]) + [lo + 256 * hi]
  }

  /** Reading the table back gives the table. */
  lemma {:induction false} UnrawRaw(fat: seq<u16>)
    ensures Unraw(Raw(fat)) == fat
    decreases |fat|
  {
    if fat != [] {
      var front, x := fat[..|fat| - 1], fat[|fat| - 1];
      UnrawRaw(front);
      assert Raw(fat)[..2 * |front|] == Raw(front);
      assert x % 256 + 256 * (x / 256) == x;
    }
  }

  lemma {:induction false} RawUnraw(bs: seq<byte>)
    requires |bs| % 2 == 0
    ensures Raw(Unraw(bs)) == bs
    decreases |bs|
  {
    if bs != [] {
      RawUnraw(bs[..|bs| - 2]);
      var fat := Unraw(bs);
      assert fat[..|fat| - 1] == Unraw(bs[..|bs| - 2]);
      var lo: int, hi: int := bs[|bs| - 2], bs[|bs| - 1];
      assert (lo + 256 * hi) % 256 == lo && (lo + 256 * hi) / 256 == hi;
    }
  }
}
