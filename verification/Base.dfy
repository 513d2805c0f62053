/** What several models share. */
module Base {
  type byte = x: int | 0 <= x < 256

  datatype Option<+T> = None | Some(value: T)

  // ---- a piece of a piece is a piece of the whole -----------------------------------------

  lemma SubSlice<T>(d: seq<T>, p: nat, q: nat, a: nat, b: nat)
    requires p <= q <= |d| && a <= b <= q - p
    ensures d[p..q][a..b] == d[p + a..p + b]
  {
    var x, y := d[p..q][a..b], d[p + a..p + b];
    forall k | 0 <= k < b - a ensures x[k] == y[k] {
      assert y[k] == d[p + a + k];
    }
  }

  lemma SubTake<T>(d: seq<T>, q: nat, a: nat, b: nat)
    requires a <= b <= q <= |d|
    ensures d[..q][a..b] == d[a..b]
  {
    var x, y := d[..q][a..b], d[a..b];
    forall k | 0 <= k < b - a ensures x[k] == y[k] {
      assert y[k] == d[a + k];
    }
  }

  lemma SubDrop<T>(d: seq<T>, p: nat, a: nat, b: nat)
    requires a <= b && p + b <= |d|
    ensures d[p..][a..b] == d[p + a..p + b]
  {
    var x, y := d[p..][a..b], d[p + a..p + b];
    forall k | 0 <= k < b - a ensures x[k] == y[k] {
      assert y[k] == d[p + a + k];
    }
  }

  lemma TakeTake<T>(d: seq<T>, q: nat, b: nat)
    requires b <= q <= |d|
    ensures d[..q][..b] == d[..b]
  {
    var x, y := d[..q][..b], d[..b];
    forall k | 0 <= k < b ensures x[k] == y[k] {
      assert y[k] == d[k];
    }
  }

  lemma DropDrop<T>(d: seq<T>, p: nat, a: nat)
    requires p + a <= |d|
    ensures d[p..][a..] == d[p + a..]
  {
    var x, y := d[p..][a..], d[p + a..];
    forall k | 0 <= k < |d| - p - a ensures x[k] == y[k] {
      assert y[k] == d[p + a + k];
    }
  }

  // ---- division ------------------------------------------------------------------------------

  lemma Quotient(x: int, d: int, q: int, r: int)
    requires d > 0 && 0 <= r < d && x == q * d + r
    ensures x / d == q && x % d == r
  {
    var k := x / d - q;
    assert k * d == r - x % d;
    assert k >= 1 ==> k * d >= d;
    assert k <= -1 ==> k * d <= -1 * d;
  }
}
