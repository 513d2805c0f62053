/** 32-bit machine words as integers in [0, 2^32), with the operations the code
    generator relies on.  Bitwise operators are defined digit by digit, so that
    their algebra is available without bit-vector reasoning. */
module Word {
  import Base

  const W: int := 0x1_0000_0000
  const HALF: int := 0x8000_0000

  type word = x: int | 0 <= x < 0x1_0000_0000
  type i32 = x: int | -0x8000_0000 <= x < 0x8000_0000

  function Wrap(x: int): word {
    x % W
  }

  /** The two's complement reading of a word. */
  function Signed(a: word): i32 {
    if a < HALF then a else a - W
  }

  lemma WrapSigned(d: i32)
    ensures Signed(Wrap(d)) == d
  {
    if d < 0 {
      assert Wrap(d) == d + W;
    }
  }

  // ---- bitwise operators on naturals --------------------------------------

  datatype BitOp = BitAnd | BitOr | BitXor

  function OnBits(op: BitOp, x: nat, y: nat): (r: nat)
    requires x <= 1 && y <= 1
    ensures r <= 1
  {
    match op
    case BitAnd => if x == 1 && y == 1 then 1 else 0
    case BitOr => if x == 1 || y == 1 then 1 else 0
    case BitXor => if x == y then 0 else 1
  }

  /** Apply a Boolean operator to the low n bits of a and b. */
  function Bits(op: BitOp, a: nat, b: nat, n: nat): (r: nat)
    decreases n
  {
    if n == 0 then 0
    else 2 * Bits(op, a / 2, b / 2, n - 1) + OnBits(op, a % 2, b % 2)
  }

  function Pow2(n: nat): (r: nat)
    ensures r > 0
  {
    if n == 0 then 1 else 2 * Pow2(n - 1)
  }

  lemma {:induction false} BitsBound(op: BitOp, a: nat, b: nat, n: nat)
    ensures Bits(op, a, b, n) < Pow2(n)
    decreases n
  {
    if n > 0 {
      BitsBound(op, a / 2, b / 2, n - 1);
    }
  }

  lemma {:induction false} Pow2Values()
    ensures Pow2(32) == W
  {
    assert Pow2(8) == 256;
    assert Pow2(16) == 65536;
    assert Pow2(24) == 16777216;
  }

  /** Or is associative: what makes right-nested and left-nested `|` agree. */
  lemma {:induction false} OrAssociative(a: nat, b: nat, c: nat, n: nat)
    ensures Bits(BitOr, Bits(BitOr, a, b, n), c, n) == Bits(BitOr, a, Bits(BitOr, b, c, n), n)
    decreases n
  {
    if n > 0 {
      OrAssociative(a / 2, b / 2, c / 2, n - 1);
      var ab := Bits(BitOr, a, b, n);
      var bc := Bits(BitOr, b, c, n);
      assert ab / 2 == Bits(BitOr, a / 2, b / 2, n - 1) && ab % 2 == OnBits(BitOr, a % 2, b % 2);
      assert bc / 2 == Bits(BitOr, b / 2, c / 2, n - 1) && bc % 2 == OnBits(BitOr, b % 2, c % 2);
    }
  }

  function Bitwise(op: BitOp, a: word, b: word): word {
    BitsBound(op, a, b, 32);
    Pow2Values();
    Bits(op, a, b, 32)
  }

  /** The k-th bit of a. */
  function Bit(a: nat, k: nat): (b: nat)
    ensures b <= 1
  {
    a / Pow2(k) % 2
  }

  lemma {:induction false} HalfBit(a: nat, k: nat)
    ensures Bit(a, k + 1) == Bit(a / 2, k)
  {
    DivideTwice(a, 2, Pow2(k));
  }

  lemma DivideTwice(a: nat, m: nat, n: nat)
    requires m > 0 && n > 0
    ensures m * n > 0 && a / (m * n) == a / m / n
  {
    var q := a / m / n;
    var s, t := a / m % n, a % m;
    assert a == (q * n + s) * m + t;
    Base.Quotient(a, m * n, q, s * m + t) by {
      assert (q * n + s) * m + t == q * (m * n) + (s * m + t);
      assert s * m + t < (s + 1) * m <= n * m by { Mul(s + 1, n, m); }
    }
  }

  lemma Mul(a: int, b: int, n: nat)
    requires a <= b
    ensures a * n <= b * n
  {
  }

  lemma {:induction false} BitsAt(op: BitOp, a: nat, b: nat, n: nat, k: nat)
    requires k < n
    ensures Bit(Bits(op, a, b, n), k) == OnBits(op, Bit(a, k), Bit(b, k))
    decreases n
  {
    var c := Bits(op, a, b, n);
    if k == 0 {
      assert c % 2 == OnBits(op, a % 2, b % 2);
    } else {
      assert c / 2 == Bits(op, a / 2, b / 2, n - 1);
      HalfBit(c, k - 1);
      HalfBit(a, k - 1);
      HalfBit(b, k - 1);
      BitsAt(op, a / 2, b / 2, n - 1, k - 1);
    }
  }

  lemma {:induction false} FlippedBits(a: nat, n: nat, k: nat)
    requires k < n && a < Pow2(n)
    ensures Bit(Pow2(n) - 1 - a, k) == 1 - Bit(a, k)
    decreases n
  {
    var c := Pow2(n) - 1 - a;
    if k > 0 {
      assert c / 2 == Pow2(n - 1) - 1 - a / 2;
      HalfBit(c, k - 1);
      HalfBit(a, k - 1);
      FlippedBits(a / 2, n - 1, k - 1);
    }
  }

  lemma Flipped(a: word, k: nat)
    requires k < 32
    ensures Bit(W - 1 - a, k) == 1 - Bit(a, k)
  {
    hide Bit, Pow2;
    Pow2Values();
    FlippedBits(a, 32, k);
  }

  /** Bit by bit: and is the product, or the maximum, exclusive or the sum modulo 2. */
  lemma BitwiseAt(op: BitOp, a: word, b: word, k: nat)
    requires k < 32
    ensures var x, y, z := Bit(a, k), Bit(b, k), Bit(Bitwise(op, a, b), k);
      match op
      case BitAnd => z == x * y
      case BitOr => z == if x >= y then x else y
      case BitXor => z == (x + y) % 2
  {
    hide Bit, Bits, Pow2;
    BitsAt(op, a, b, 32, k);
  }

  // ---- arithmetic -----------------------------------------------------------

  function Product(a: word, b: word): word {
    var x: int, y: int := a, b;
    Wrap(x * y)
  }

  function ShiftLeft(a: word, n: nat): word
    decreases n
  {
    if n == 0 then a else ShiftLeft(Wrap(2 * a), n - 1)
  }

  /** The logical right shift: zeros enter from the left. */
  function ShiftRight(a: word, n: nat): word
    decreases n
  {
    if n == 0 then a else ShiftRight(a / 2, n - 1)
  }

  /** Multiplication is repeated addition. */
  lemma ProductAdds(a: word, b: word)
    ensures Product(a, 0) == 0
    ensures b + 1 < W ==> Product(a, b + 1) == Wrap(Product(a, b) + a)
  {
    var x: int, y: int := a, b;
    var q := x * y / W;
    assert x * (y + 1) == x * y + x;
    assert x * y == q * W + x * y % W;
    WrapMore(x * y % W + x, q);
  }

  lemma WrapMore(x: int, q: int)
    ensures Wrap(x + q * W) == Wrap(x)
  {
  }

  lemma WrapFactor(x: int, p: int)
    ensures Wrap(Wrap(x) * p) == Wrap(x * p)
  {
    var q := x / W;
    assert x * p == (q * W + Wrap(x)) * p == Wrap(x) * p + q * p * W;
    WrapMore(Wrap(x) * p, q * p);
  }

  /** A left shift multiplies by a power of two, modulo 2^32. */
  lemma {:induction false} ShiftLeftIs(a: word, n: nat)
    ensures ShiftLeft(a, n) == a * Pow2(n) % 0x1_0000_0000
    decreases n
  {
    if n > 0 {
      var p: int, x: int := Pow2(n - 1), a;
      ShiftLeftIs(Wrap(2 * a), n - 1);
      WrapFactor(2 * x, p);
      assert x * (2 * p) == 2 * x * p;
    }
  }

  /** A right shift divides by a power of two. */
  lemma {:induction false} ShiftRightIs(a: word, n: nat)
    ensures ShiftRight(a, n) == a / Pow2(n)
    decreases n
  {
    if n > 0 {
      ShiftRightIs(a / 2, n - 1);
      DivideTwice(a, 2, Pow2(n - 1));
    }
  }

  /** Quotient rounded toward zero, as idiv computes it. */
  function TruncDiv(n: int, d: int): int
    requires d != 0
  {
    if n >= 0 then (if d > 0 then n / d else -(n / -d))
    else (if d > 0 then -((-n) / d) else (-n) / (-d))
  }

  datatype Division = Quotient(q: word, r: word) | DivideError

  /** Signed division of a (possibly 64-bit) dividend by a word; DivideError is
      the #DE exception: divisor zero, or a quotient that does not fit. */
  function Divide(n: int, b: word): Division {
    var d := Signed(b);
    if d == 0 then DivideError
    else
      var q := TruncDiv(n, d);
      if -HALF <= q < HALF then Quotient(Wrap(q), Wrap(n - q * d)) else DivideError
  }

  /** q and r divide n by d as idiv has it: the remainder is smaller than the divisor and has the
      sign of the dividend. */
  predicate Divides(n: int, d: int, q: int, r: int) {
    n == q * d + r && (if r >= 0 then r else -r) < (if d >= 0 then d else -d) && (r == 0 || (r > 0) == (n > 0))
  }

  /** Division gives these, or an error exactly when the divisor is 0 or the quotient has more than 32 bits. */
  lemma DivideIs(n: int, b: word, q: int, r: int)
    requires Signed(b) != 0 ==> Divides(n, Signed(b), q, r)
    ensures if Signed(b) == 0 || !(-0x8000_0000 <= q < 0x8000_0000) then Divide(n, b) == DivideError
      else Divide(n, b).Quotient? && Signed(Divide(n, b).q) == q && Signed(Divide(n, b).r) == r
  {
    var d := Signed(b);
    if d != 0 {
      TruncIs(n, d);
      OneQuotient(n, d, q, r, TruncDiv(n, d), n - TruncDiv(n, d) * d);
      if -HALF <= q < HALF {
        WrapSigned(q);
        WrapSigned(r);
      }
    }
  }

  lemma TruncIs(n: int, d: int)
    requires d != 0
    ensures Divides(n, d, TruncDiv(n, d), n - TruncDiv(n, d) * d)
  {
    hide Divides;
    var m, e := if n >= 0 then n else -n, if d > 0 then d else -d;
    WholeAndRest(m, e);
    SignedParts(n, d, m / e, m % e);
  }

  lemma WholeAndRest(m: int, e: int)
    requires e > 0
    ensures m == m / e * e + m % e && 0 <= m % e < e
  {
  }

  lemma SignedParts(n: int, d: int, q: int, r: int)
    requires d != 0 && (if n >= 0 then n else -n) == q * (if d > 0 then d else -d) + r
    requires 0 <= r < if d > 0 then d else -d
    ensures var t := if (n >= 0) == (d > 0) then q else -q; Divides(n, d, t, n - t * d)
  {
    var p := q * d;
    assert q * -d == -p;
    assert -q * d == -p;
  }

  lemma OneQuotient(n: int, d: int, q: int, r: int, q': int, r': int)
    requires Divides(n, d, q, r) && Divides(n, d, q', r')
    ensures q == q' && r == r'
  {
    assert (q - q') * d == r' - r;
    if q != q' {
      Away(q - q', d);
    }
  }

  lemma Away(a: int, d: int)
    requires a != 0
    ensures (if a * d >= 0 then a * d else -(a * d)) >= if d >= 0 then d else -d
  {
  }

  // ---- flags ----------------------------------------------------------------

  /** Flags after `cmp a, b`. */
  datatype Flags = Flags(zf: bool, sf: bool, of: bool)

  function Compare(a: word, b: word): Flags {
    var d := Wrap(a - b);
    Flags(d == 0, d >= HALF, Signed(a) - Signed(b) != Signed(d))
  }

  datatype CC = E | NE | L | GE | LE | G

  /** How a condition code reads the flags, as in the Intel SDM's Jcc table. */
  predicate Holds(cc: CC, f: Flags) {
    match cc
    case E => f.zf
    case NE => !f.zf
    case L => f.sf != f.of
    case GE => f.sf == f.of
    case LE => f.zf || f.sf != f.of
    case G => !f.zf && f.sf == f.of
  }

  /** What a condition code means for the compared words. */
  predicate Relation(cc: CC, a: word, b: word) {
    match cc
    case E => a == b
    case NE => a != b
    case L => Signed(a) < Signed(b)
    case GE => Signed(a) >= Signed(b)
    case LE => Signed(a) <= Signed(b)
    case G => Signed(a) > Signed(b)
  }

  /** The flag encoding of every condition decides the signed relation. */
  lemma FlagsDecide(cc: CC, a: word, b: word)
    ensures Holds(cc, Compare(a, b)) <==> Relation(cc, a, b)
  {
    assert Wrap(a - b) == (if a >= b then a - b else a - b + W);
  }
}
