/** Tables that bind names, searched from the newest entry to the oldest. */
module Bindings {
  datatype Entry<T> = Entry(name: string, val: T)

  /** Index of the newest entry called x, or -1: the backward loop of sym::lookup. */
  function Find<T>(tab: seq<Entry<T>>, x: string): (k: int)
    ensures -1 <= k < |tab|
    ensures k >= 0 ==> tab[k].name == x
  {
    if tab == [] then -1
    else if tab[|tab| - 1].name == x then |tab| - 1
    else Find(tab[..|tab| - 1], x)
  }

  ghost predicate SameNames<A, B>(a: seq<Entry<A>>, b: seq<Entry<B>>) {
    |a| == |b| && forall k :: 0 <= k < |a| ==> a[k].name == b[k].name
  }

  lemma {:induction false} FindSame<A, B>(a: seq<Entry<A>>, b: seq<Entry<B>>, x: string)
    requires SameNames(a, b)
    ensures Find(a, x) == Find(b, x)
    decreases |a|
  {
    if a != [] && a[|a| - 1].name != x {
      FindSame(a[..|a| - 1], b[..|b| - 1], x);
    }
  }

  lemma {:induction false} FindOn<T>(a: seq<Entry<T>>, b: seq<Entry<T>>, x: string)
    ensures Find(a + b, x) == if Find(b, x) >= 0 then |a| + Find(b, x) else Find(a, x)
    decreases |b|
  {
    if b == [] {
      assert a + b == a;
    } else {
      assert (a + b)[..|a + b| - 1] == a + b[..|b| - 1];
      FindOn(a, b[..|b| - 1], x);
    }
  }

  /** The name of some entry is found. */
  lemma {:induction false} FindNamed<T>(t: seq<Entry<T>>, k: nat)
    requires k < |t|
    ensures Find(t, t[k].name) >= k
    decreases |t|
  {
    if t[|t| - 1].name != t[k].name {
      assert t[..|t| - 1][k] == t[k];
      FindNamed(t[..|t| - 1], k);
    }
  }
}
