/** The grammar of src/rc/parse.rs's expressions, one production per function of the
    precedence chain, and the proof that the chain reads exactly the trees it derives. */
module Grammar {
  import opened Word
  import opened Source
  import opened Precedence

  /** An expression as written: operands and the operators between them. */
  datatype Tree = Leaf(e: Expr) | Join(o: Oper, l: Tree, r: Tree)

  /** What the tree computes. */
  function Code(t: Tree): Expr {
    match t
    case Leaf(e) => e
    case Join(OrOr, l, r) => OrElse(Code(l), Code(r))
    case Join(AndAnd, l, r) => AndAlso(Code(l), Code(r))
    case Join(Op(b), l, r) => Binary(b, Code(l), Code(r))
  }

  /** The tree written out: its first operand, and then every operator with its operand. */
  function First(t: Tree): Expr {
    match t
    case Leaf(e) => e
    case Join(_, l, _) => First(l)
  }

  function Written(t: Tree): seq<Item> {
    match t
    case Leaf(_) => []
    case Join(o, l, r) => Written(l) + [Item(o, First(r))] + Written(r)
  }

  /** The operators of each production, from the loosest to the tightest. */
  function Operators(k: nat): set<Oper> {
    match k
    case 0 => {OrOr}
    case 1 => {AndAnd}
    case 2 => {Op(BOr)}
    case 3 => {Op(BXor)}
    case 4 => {Op(BAnd)}
    case 5 => {Op(Cmp(E)), Op(Cmp(NE))}
    case 6 => {Op(Cmp(L)), Op(Cmp(G)), Op(Cmp(LE)), Op(Cmp(GE))}
    case 7 => {Op(Shl), Op(Shr)}
    case 8 => {Op(Add), Op(Sub)}
    case 9 => {Op(Mul), Op(Div), Op(Rem)}
    case _ => {}
  }

  /** Production k derives an operand, what production k + 1 derives, or a tree of production k,
      an operator of its own and a tree of production k + 1. */
  predicate Derives(k: nat, t: Tree)
    decreases t, 10 - k
  {
    t.Leaf? ||
    (k < 10 && (Derives(k + 1, t) || (t.o in Operators(k) && Derives(k, t.l) && Derives(k + 1, t.r))))
  }

  lemma LevelOf(o: Oper, k: nat)
    ensures o in Operators(k) <==> Level(o) == k
  {
  }

  /** After the operands and operators of a tree of production k, level k's loop goes on. */
  lemma {:induction false} ReadsOn(t: Tree, rest: seq<Item>, k: nat)
    requires k < 10 && Derives(k, t) && Stops(rest, k + 1)
    ensures Chain(First(t), Written(t) + rest, k) == Precedence.Loop(Code(t), rest, k)
    decreases t, 10 - k, 0
  {
    hide Level, Operators;
    if t.Leaf? {
      assert [] + rest == rest;
      ChainSkips(t.e, rest, k + 1);
    } else if Derives(k + 1, t) {
      ReadsOn(t, rest, k + 1);
    } else {
      var more := [Item(t.o, First(t.r))] + (Written(t.r) + rest);
      assert Written(t) + rest == Written(t.l) + more;
      LevelOf(t.o, k);
      ReadsOn(t.l, more, k);
      ReadsWhole(t.r, rest, k + 1);
      assert more[1..] == Written(t.r) + rest;
    }
  }

  lemma {:induction false} ReadsWhole(t: Tree, rest: seq<Item>, k: nat)
    requires k <= 10 && Derives(k, t) && Stops(rest, k)
    ensures Chain(First(t), Written(t) + rest, k) == Parsed(Code(t), rest)
    decreases t, 10 - k, 1
  {
    hide Level, Operators;
    if k == 10 {
      assert [] + rest == rest;
    } else {
      ReadsOn(t, rest, k);
    }
  }

  /** Every tree of the grammar is read back from its written form. */
  lemma ReadsDerived(t: Tree)
    requires Derives(0, t)
    ensures Chain(First(t), Written(t), 0) == Parsed(Code(t), [])
  {
    assert Written(t) + [] == Written(t);
    ReadsWhole(t, [], 0);
  }

  /** Level k reads some tree of production k. */
  lemma {:induction false} Derivation(first: Expr, items: seq<Item>, k: nat) returns (t: Tree, rest: seq<Item>)
    requires k <= 10
    ensures Derives(k, t) && First(t) == first && Written(t) + rest == items && Stops(rest, k)
    decreases |items|, 10 - k, 1
  {
    if k == 10 {
      t, rest := Leaf(first), items;
      assert [] + rest == items;
      assert rest != [] ==> Level(rest[0].o) < 10;
    } else {
      t, rest := Derivation(first, items, k + 1);
      t, rest := Continued(t, rest, k);
    }
  }

  lemma {:induction false} Continued(l: Tree, items: seq<Item>, k: nat) returns (t: Tree, rest: seq<Item>)
    requires k < 10 && Derives(k, l) && Stops(items, k + 1)
    ensures Derives(k, t) && First(t) == First(l) && Written(t) + rest == Written(l) + items && Stops(rest, k)
    decreases |items|, 10 - k, 0
  {
    if items == [] || Level(items[0].o) < k {
      return l, items;
    }
    LevelOf(items[0].o, k);
    var r;
    r, rest := Derivation(items[0].e, items[1..], k + 1);
    assert items == [items[0]] + (Written(r) + rest);
    var j := Join(items[0].o, l, r);
    assert Written(j) + rest == Written(l) + items;
    t, rest := Continued(j, rest, k);
  }

  /** Every string of operands and operators is derived by the grammar, and both the chain and
      the flat loop read it so: the chain to that tree's code, the flat loop to an equal one. */
  lemma ReadByGrammar(first: Expr, items: seq<Item>) returns (t: Tree)
    ensures Derives(0, t) && First(t) == first && Written(t) == items
    ensures Chain(first, items, 0) == Parsed(Code(t), [])
    ensures Equal(Flat(first, items).e, Code(t))
  {
    hide Equal;
    var rest;
    t, rest := Derivation(first, items, 0);
    assert Written(t) + [] == Written(t);
    ReadsDerived(t);
    EqualSelf(first);
    FlatAgrees(first, first, items);
  }

  /** Of two operators, the tighter one takes the operand between them, and of two of the
      same production the first. */
  lemma TwoOperators(o1: Oper, i: nat, o2: Oper, j: nat, a: Expr, b: Expr, c: Expr)
    requires o1 in Operators(i) && o2 in Operators(j)
    ensures Chain(a, [Item(o1, b), Item(o2, c)], 0).e ==
      if i < j then Node(o1, a, Node(o2, b, c)) else Node(o2, Node(o1, a, b), c)
  {
    var x, y, z := Leaf(a), Leaf(b), Leaf(c);
    var inner, outer := Join(o2, y, z), Join(o1, x, y);
    var t := if i < j then Join(o1, x, inner) else Join(o2, outer, z);
    Joined(j, o2, y, z);
    Joined(i, o1, x, y);
    if i < j {
      DerivesLower(inner, j, i + 1);
      Joined(i, o1, x, inner);
      DerivesLower(t, i, 0);
    } else {
      DerivesLower(outer, i, j);
      Joined(j, o2, outer, z);
      DerivesLower(t, j, 0);
    }
    assert Written(inner) == [Item(o2, c)] && Written(outer) == [Item(o1, b)];
    assert Written(t) == [Item(o1, b), Item(o2, c)];
    assert Code(inner) == Node(o2, b, c) && Code(outer) == Node(o1, a, b);
    assert First(outer) == a == First(t);
    ReadsDerived(t);
  }

  lemma Joined(k: nat, o: Oper, l: Tree, r: Tree)
    requires o in Operators(k) && Derives(k, l) && Derives(k + 1, r)
    ensures k < 10 && Derives(k, Join(o, l, r))
  {
    LevelOf(o, k);
  }

  lemma {:induction false} DerivesLower(t: Tree, j: nat, k: nat)
    requires k <= j <= 10 && Derives(j, t)
    ensures Derives(k, t)
    decreases j - k
  {
    if k < j {
      DerivesLower(t, j, k + 1);
    }
  }
}
