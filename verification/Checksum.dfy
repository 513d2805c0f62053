/** The Internet checksum of RFC 1071 (src/ipv4.rs, and with the pseudo-header
    src/tcp.rs). */
module Checksum {
  import opened Base

  const M: int := 0xFFFF
  const U32: int := 0x1_0000_0000

  /** A 16-bit load on a little-endian machine. */
  function LittleWord(lo: int, hi: int): int { lo + 256 * hi }

  /** The sum of the 16-bit words; an odd last byte counts as a low byte. */
  function Sum(d: seq<byte>): (s: nat)
    ensures s <= (|d| + 1) / 2 * M
  {
    if |d| == 0 then 0
    else if |d| == 1 then d[0]
    else LittleWord(d[0], d[1]) + Sum(d[2..])
  }

  /** The two folding steps, and the low 16 bits of the result. */
  function Fold(s: int): (f: int)
    requires 0 <= s < U32
    ensures 0 <= f <= M
  {
    var s1 := s / 0x1_0000 + s % 0x1_0000;
    var s2 := s1 + s1 / 0x1_0000;
    s2 % 0x1_0000
  }

  /** Folding twice is the ones-complement sum: congruent modulo 65535, and zero only for zero. */
  lemma FoldIs(s: int)
    requires 0 <= s < U32
    ensures Fold(s) == if s == 0 then 0 else if s % M == 0 then M else s % M
  {
    var hi, lo := s / 0x1_0000, s % 0x1_0000;
    assert s == hi * M + hi + lo;
    var s1 := hi + lo;
    assert s1 <= 2 * M;
    ModIs(s, hi, s1);
    if s1 >= 0x1_0000 {
      assert s1 / 0x1_0000 == 1;
      assert Fold(s) == s1 - M;
    } else {
      assert s1 / 0x1_0000 == 0;
      assert Fold(s) == s1;
    }
  }

  lemma ModIs(s: int, q: int, r: int)
    requires s == q * M + r && 0 <= r <= 2 * M
    ensures s % M == if r < M then r else if r < 2 * M then r - M else 0
  {
    var t := if r < M then r else if r < 2 * M then r - M else 0;
    assert exists k :: s == k * M + t by {
      if r < M {
        assert s == q * M + t;
      } else if r < 2 * M {
        assert s == (q + 1) * M + t;
      } else {
        assert s == (q + 2) * M + t;
      }
    }
  }

  function Complement(f: int): int { M - f }

  function ChecksumOf(d: seq<byte>): (c: int)
    requires |d| <= 65535
    ensures 0 <= c <= M
  {
    Complement(Fold(Sum(d)))
  }

  /** The loop of the driver; sum stays below 2^32. */
  method Compute(d: seq<byte>) returns (c: int)
    requires |d| <= 65535
    ensures c == ChecksumOf(d)
  {
    var sum, i := 0, 0;
    while |d| - i > 1
      invariant 0 <= i <= |d| && sum >= 0 && sum + Sum(d[i..]) == Sum(d)
    {
      assert d[i..][2..] == d[i + 2..];
      sum := sum + LittleWord(d[i], d[i + 1]);
      assert sum < U32;
      i := i + 2;
    }
    if |d| - i == 1 {
      sum := sum + d[i];
    }
    sum := sum / 0x1_0000 + sum % 0x1_0000;
    sum := sum + sum / 0x1_0000;
    c := Complement(sum % 0x1_0000);
  }

  /** A buffer verifies exactly when its words sum to a nonzero multiple of 65535. */
  lemma VerifiesWhen(d: seq<byte>)
    requires |d| <= 65535
    ensures ChecksumOf(d) == 0 <==> Sum(d) > 0 && Sum(d) % M == 0
  {
    FoldIs(Sum(d));
  }

  // ---- storing the checksum -----------------------------------------------------------------------

  function WithField(d: seq<byte>, k: nat, c: int): (r: seq<byte>)
    requires k + 1 < |d| && 0 <= c <= M
    ensures |r| == |d|
  {
    d[k := c % 256][k + 1 := c / 256]
  }

  lemma {:induction false} FieldAdds(d: seq<byte>, k: nat, c: int)
    requires k + 1 < |d| && k % 2 == 0 && 0 <= c <= M
    ensures Sum(WithField(d, k, c)) == Sum(WithField(d, k, 0)) + c
    decreases k
  {
    var r, z := WithField(d, k, c), WithField(d, k, 0);
    if k == 0 {
      assert r[2..] == z[2..];
    } else {
      FieldAdds(d[2..], k - 2, c);
      assert r[2..] == WithField(d[2..], k - 2, c) && z[2..] == WithField(d[2..], k - 2, 0);
    }
  }

  /** Storing the checksum of a buffer with a zero field into that field makes it verify. */
  lemma StoredVerifies(d: seq<byte>, k: nat)
    requires |d| <= 65535 && k + 1 < |d| && k % 2 == 0
    ensures ChecksumOf(WithField(d, k, ChecksumOf(WithField(d, k, 0)))) == 0
  {
    hide Sum, ChecksumOf, WithField;
    var z := WithField(d, k, 0);
    ChecksumCompletes(z);
    FieldAdds(d, k, ChecksumOf(z));
    VerifiesWhen(WithField(d, k, ChecksumOf(z)));
  }

  lemma ChecksumCompletes(d: seq<byte>)
    requires |d| <= 65535
    ensures var c := ChecksumOf(d); 0 <= c <= M && Sum(d) + c > 0 && (Sum(d) + c) % M == 0
  {
    hide Fold, Sum, Complement;
    ComplementCompletes(Sum(d));
  }

  /** A sum and its checksum add up to a nonzero multiple of 65535. */
  lemma ComplementCompletes(s: nat)
    requires s < U32
    ensures s + Complement(Fold(s)) > 0 && (s + Complement(Fold(s))) % M == 0
  {
    hide Fold;
    FoldIs(s);
    ModSplit(s);
    ModIs(s + Complement(Fold(s)), s / M, s % M + Complement(Fold(s)));
  }

  lemma ModSplit(s: int)
    ensures s == s / M * M + s % M
  {
  }

  // ---- byte order ------------------------------------------------------------------------------------

  function BigWord(hi: int, lo: int): int { 256 * hi + lo }

  function BigSum(d: seq<byte>): (s: nat)
    ensures s <= (|d| + 1) / 2 * M
  {
    if |d| == 0 then 0
    else if |d| == 1 then BigWord(d[0], 0)
    else BigWord(d[0], d[1]) + BigSum(d[2..])
  }

  function BigChecksum(d: seq<byte>): int
    requires |d| <= 65535
  {
    Complement(Fold(BigSum(d)))
  }

  function Swapped(w: int): int { w % 256 * 256 + w / 256 }

  /** Modulo 65535, loading words in the other byte order is multiplying by 256. */
  lemma {:induction false} SumsSwapped(d: seq<byte>) returns (k: int)
    ensures 256 * BigSum(d) == Sum(d) + k * M && (Sum(d) == 0 <==> BigSum(d) == 0)
    decreases |d|
  {
    if |d| == 0 {
      k := 0;
    } else if |d| == 1 {
      k := d[0];
    } else {
      var n := SumsSwapped(d[2..]);
      k := n + d[0];
    }
  }

  /** Summing little-endian words gives the byte-swapped result of summing big-endian ones. */
  lemma ByteOrder(d: seq<byte>)
    requires |d| <= 65535
    ensures ChecksumOf(d) == Swapped(BigChecksum(d))
  {
    var k := SumsSwapped(d);
    var s, b := Sum(d), BigSum(d);
    FoldIs(s);
    FoldIs(b);
    SwapIs(s, b, k);
  }

  lemma SwapIs(s: nat, b: nat, k: int)
    requires s < U32 && b < U32 && 256 * b == s + k * M && (s == 0 <==> b == 0)
    requires Fold(s) == (if s == 0 then 0 else if s % M == 0 then M else s % M)
    requires Fold(b) == (if b == 0 then 0 else if b % M == 0 then M else b % M)
    ensures Complement(Fold(s)) == Swapped(Complement(Fold(b)))
  {
    var f, g := Fold(s), Fold(b);
    var hi, lo := g / 256, g % 256;
    ModSplit(s);
    ModSplit(b);
    // 256 g = 65536 hi + 256 lo, which is hi + 256 lo modulo 65535
    var swapped := hi + 256 * lo;
    assert 256 * g == hi * M + swapped;
    var kb := (b - g) / M;
    assert b == kb * M + g by { MultipleOf(b, g); }
    var ks := (s - f) / M;
    assert s == ks * M + f by { MultipleOf(s, f); }
    assert swapped - f == (ks + k - 256 * kb - hi) * M;
    SmallMultiple(swapped - f, ks + k - 256 * kb - hi);
    ComplementSwapped(g);
  }

  lemma MultipleOf(s: nat, f: int)
    requires f == (if s == 0 then 0 else if s % M == 0 then M else s % M)
    ensures s == (s - f) / M * M + f
  {
    ModSplit(s);
    if s > 0 && s % M == 0 {
      assert s - M == (s / M - 1) * M;
    }
  }

  lemma SmallMultiple(x: int, q: int)
    requires x == q * M && -M <= x <= M
    ensures x == 0 || x == M || x == -M
  {
  }

  lemma ComplementSwapped(g: int)
    requires 0 <= g <= M
    ensures Swapped(M - g) == M - (g / 256 + 256 * (g % 256))
  {
    assert (M - g) % 256 == 255 - g % 256 && (M - g) / 256 == 255 - g / 256;
  }

  // ---- the pseudo-header -------------------------------------------------------------------------------

  /** Source address, destination address, zero, protocol 6, length, all big-endian. */
  function Pseudo(src: seq<byte>, dst: seq<byte>, n: nat): (h: seq<byte>)
    requires |src| == 4 && |dst| == 4 && n <= 1480
    ensures |h| == 12
  {
    src + dst + [0, 6, n / 256, n % 256]
  }

  /** The words are summed little-endian: the header adds the two addresses, the protocol number 6 and
      the length, each with the bytes of its words exchanged. */
  lemma PseudoSum(src: seq<byte>, dst: seq<byte>, seg: seq<byte>)
    requires |src| == 4 && |dst| == 4 && |seg| <= 1480
    ensures Sum(Pseudo(src, dst, |seg|) + seg) ==
      Sum(src) + Sum(dst) + 256 * 6 + (|seg| / 256 + 256 * (|seg| % 256)) + Sum(seg)
  {
    hide Sum, Pseudo;
    SumSplit(Pseudo(src, dst, |seg|), seg);
    HeaderSum(src, dst, |seg| / 256, |seg| % 256);
    assert Pseudo(src, dst, |seg|) == src + dst + [0, 6, |seg| / 256, |seg| % 256] by {
      PseudoParts(src, dst, |seg|);
    }
  }

  lemma PseudoParts(src: seq<byte>, dst: seq<byte>, n: nat)
    requires |src| == 4 && |dst| == 4 && n <= 1480
    ensures Pseudo(src, dst, n) == src + dst + [0, 6, n / 256, n % 256]
  {
  }

  lemma HeaderSum(src: seq<byte>, dst: seq<byte>, hi: byte, lo: byte)
    requires |src| == 4 && |dst| == 4
    ensures Sum(src + dst + [0, 6, hi, lo]) == Sum(src) + Sum(dst) + 256 * 6 + (hi + 256 * lo)
  {
    hide Sum;
    SumSplit(src + dst, [0, 6, hi, lo]);
    SumSplit(src, dst);
    SumFour(0, 6, hi, lo);
  }

  lemma SumFour(a: byte, b: byte, c: byte, d: byte)
    ensures Sum([a, b, c, d]) == a as int + 256 * b as int + c as int + 256 * d as int
  {
    assert [a, b, c, d] == [a, b] + [c, d];
    SumSplit([a, b], [c, d]);
    assert [a, b][2..] == [] && [c, d][2..] == [];
  }

  function TcpChecksum(src: seq<byte>, dst: seq<byte>, seg: seq<byte>): (c: int)
    requires |src| == 4 && |dst| == 4
    ensures |seg| > 1480 ==> c == 0
  {
    if |seg| > 1480 then 0 else ChecksumOf(Pseudo(src, dst, |seg|) + seg)
  }

  lemma {:induction false} SumSplit(a: seq<byte>, b: seq<byte>)
    requires |a| % 2 == 0
    ensures Sum(a + b) == Sum(a) + Sum(b)
    decreases |a|
  {
    if a != [] {
      SumSplit(a[2..], b);
      assert (a + b)[2..] == a[2..] + b;
    } else {
      assert a + b == b;
    }
  }

  /** The checksum does not depend on which end is called the source. */
  lemma EndsSwap(src: seq<byte>, dst: seq<byte>, seg: seq<byte>)
    requires |src| == 4 && |dst| == 4
    ensures TcpChecksum(src, dst, seg) == TcpChecksum(dst, src, seg)
  {
    if |seg| <= 1480 {
      var tail := [0, 6, |seg| / 256, |seg| % 256];
      SumSplit(Pseudo(src, dst, |seg|), seg);
      SumSplit(Pseudo(dst, src, |seg|), seg);
      SumSplit(src + dst, tail);
      SumSplit(dst + src, tail);
      SumSplit(src, dst);
      SumSplit(dst, src);
    }
  }

  /** A segment that fits verifies exactly when the words of both headers and the data sum to a nonzero
      multiple of 65535. */
  lemma SegmentVerifiesWhen(src: seq<byte>, dst: seq<byte>, seg: seq<byte>)
    requires |src| == 4 && |dst| == 4 && |seg| <= 1480
    ensures var s := Sum(src) + Sum(dst) + 256 * 6 + (|seg| / 256 + 256 * (|seg| % 256)) + Sum(seg);
      TcpChecksum(src, dst, seg) == 0 <==> s > 0 && s % M == 0
  {
    hide Sum, ChecksumOf, Pseudo;
    PseudoSum(src, dst, seg);
    VerifiesWhen(Pseudo(src, dst, |seg|) + seg);
  }

  /** A segment built with the checksum at offset 16 is accepted by the other end. */
  lemma SegmentAccepted(src: seq<byte>, dst: seq<byte>, seg: seq<byte>)
    requires |src| == 4 && |dst| == 4 && 20 <= |seg| <= 1480
    ensures var c := TcpChecksum(src, dst, WithField(seg, 16, 0));
      0 <= c <= M && TcpChecksum(dst, src, WithField(seg, 16, c)) == 0
  {
    var h := Pseudo(src, dst, |seg|);
    var d := h + seg;
    var c := TcpChecksum(src, dst, WithField(seg, 16, 0));
    assert WithField(d, 28, 0) == h + WithField(seg, 16, 0);
    assert WithField(d, 28, c) == h + WithField(seg, 16, c);
    StoredVerifies(d, 28);
    EndsSwap(src, dst, WithField(seg, 16, c));
  }
}
