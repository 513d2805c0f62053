/** The two ways src/rc/parse.rs reads operators: the layered precedence chain
    (parse_or down to parse_mul), and the flat loop parse_binops that continues after
    a leading identifier.  Both emit code as they go, so what they read is the tree
    whose code they emit. */
module Precedence {
  import opened Word
  import opened Source

  datatype Oper = OrOr | AndAnd | Op(b: BinOp)

  /** Level of the chain that handles the operator; 10 is parse_unary. */
  function Level(o: Oper): nat {
    match o
    case OrOr => 0
    case AndAnd => 1
    case Op(b) =>
      match b
      case BOr => 2
      case BXor => 3
      case BAnd => 4
      case Cmp(cc) => if cc.E? || cc.NE? then 5 else 6
      case Shl | Shr => 7
      case Add | Sub => 8
      case Mul | Div | Rem => 9
  }

  function Node(o: Oper, l: Expr, r: Expr): Expr {
    match o
    case OrOr => OrElse(l, r)
    case AndAnd => AndAlso(l, r)
    case Op(b) => Binary(b, l, r)
  }

  /** An operator and the operand after it. */
  datatype Item = Item(o: Oper, e: Expr)

  datatype Parsed = Parsed(e: Expr, rest: seq<Item>)

  // ---- the layered chain ---------------------------------------------------------------

  /** What the function of level k reads when its first operand is `first`. */
  function Chain(first: Expr, items: seq<Item>, k: nat): (r: Parsed)
    requires k <= 10
    ensures |r.rest| <= |items|
    decreases |items|, 10 - k, 1
  {
    if k == 10 then Parsed(first, items)
    else
      var l := Chain(first, items, k + 1);
      Loop(l.e, l.rest, k)
  }

  /** The loop of level k, with the left operand read. */
  function Loop(left: Expr, items: seq<Item>, k: nat): (r: Parsed)
    requires k < 10
    ensures |r.rest| <= |items|
    decreases |items|, 10 - k, 0
  {
    if items != [] && Level(items[0].o) == k then
      var r := Chain(items[0].e, items[1..], k + 1);
      Loop(Node(items[0].o, left, r.e), r.rest, k)
    else Parsed(left, items)
  }

  /** The functions of the chain, parse_or (0) down to parse_mul (9). */
  method ParseLevel(first: Expr, items: seq<Item>, k: nat) returns (e: Expr, rest: seq<Item>)
    requires k <= 10
    ensures Parsed(e, rest) == Chain(first, items, k)
    decreases |items|, 10 - k
  {
    if k == 10 {
      return first, items;
    }
    e, rest := ParseLevel(first, items, k + 1);
    while rest != [] && Level(rest[0].o) == k
      invariant |rest| <= |items| && Loop(e, rest, k) == Chain(first, items, k)
      decreases |rest|
    {
      var o := rest[0].o;
      var r;
      r, rest := ParseLevel(rest[0].e, rest[1..], k + 1);
      e := Node(o, e, r);
    }
  }

  // ---- the flat loop --------------------------------------------------------------------

  /** ||, && and | read their right operand at their own level, all others one above. */
  function RhsLevel(o: Oper): nat {
    if Level(o) <= 2 then Level(o) else Level(o) + 1
  }

  function Flat(left: Expr, items: seq<Item>): (r: Parsed)
    ensures |r.rest| <= |items|
    decreases |items|
  {
    if items == [] then Parsed(left, items)
    else
      var r := Chain(items[0].e, items[1..], RhsLevel(items[0].o));
      Flat(Node(items[0].o, left, r.e), r.rest)
  }

  /** parse_binops, with the leading identifier read. */
  method ParseBinops(first: Expr, items: seq<Item>) returns (e: Expr)
    ensures Parsed(e, []) == Flat(first, items)
  {
    e := first;
    var rest := items;
    while rest != []
      invariant Flat(e, rest) == Flat(first, items)
      decreases |rest|
    {
      var o := rest[0].o;
      var r;
      r, rest := ParseLevel(rest[0].e, rest[1..], RhsLevel(o));
      e := Node(o, e, r);
    }
  }

  // ---- the same value and the same effects ---------------------------------------------

  /** Equal but for the depth of the stack. */
  predicate SameResult(a: ERes, b: ERes) {
    match a
    case Val(v, env, _) => b.Val? && b.v == v && b.env == env
    case Fault(_) => b.Fault?
    case Timeout(_, _) => b.Timeout?
    case Wrong => b.Wrong?
  }

  ghost predicate Equal(a: Expr, b: Expr) {
    forall p: Program, fuel: nat, env: Env {:trigger Eval(p, fuel, a, env)} {:trigger Eval(p, fuel, b, env)} ::
      |env| >= p.nstatics ==> SameResult(Eval(p, fuel, a, env), Eval(p, fuel, b, env))
  }

  lemma EqualAt(a: Expr, b: Expr, p: Program, fuel: nat, env: Env)
    requires Equal(a, b) && |env| >= p.nstatics
    ensures SameResult(Eval(p, fuel, a, env), Eval(p, fuel, b, env))
  {
    hide Eval;
  }

  lemma OrResult(l: Expr, r: Expr, l': Expr, r': Expr, p: Program, fuel: nat, env: Env)
    requires |env| >= p.nstatics && Equal(l, l') && Equal(r, r')
    ensures SameResult(Eval(p, fuel, OrElse(l, r), env), Eval(p, fuel, OrElse(l', r'), env))
  {
    hide Eval, Equal, BinVal;
    EqualAt(l, l', p, fuel, env);
    var a := Eval(p, fuel, l, env);
    if a.Val? {
      EqualAt(r, r', p, fuel, a.env);
    }
    EvalOr(p, fuel, OrElse(l, r), env);
    EvalOr(p, fuel, OrElse(l', r'), env);
  }

  lemma AndResult(l: Expr, r: Expr, l': Expr, r': Expr, p: Program, fuel: nat, env: Env)
    requires |env| >= p.nstatics && Equal(l, l') && Equal(r, r')
    ensures SameResult(Eval(p, fuel, AndAlso(l, r), env), Eval(p, fuel, AndAlso(l', r'), env))
  {
    hide Eval, Equal, BinVal;
    EqualAt(l, l', p, fuel, env);
    var a := Eval(p, fuel, l, env);
    if a.Val? {
      EqualAt(r, r', p, fuel, a.env);
    }
    EvalAnd(p, fuel, AndAlso(l, r), env);
    EvalAnd(p, fuel, AndAlso(l', r'), env);
  }

  lemma ApplySame(op: BinOp, v: word, a: ERes, b: ERes)
    requires SameResult(a, b)
    ensures SameResult(Apply(op, v, a), Apply(op, v, b))
  {
    hide BinVal;
  }

  lemma BinaryResult(op: BinOp, l: Expr, r: Expr, l': Expr, r': Expr, p: Program, fuel: nat, env: Env)
    requires |env| >= p.nstatics && Equal(l, l') && Equal(r, r')
    ensures SameResult(Eval(p, fuel, Binary(op, l, r), env), Eval(p, fuel, Binary(op, l', r'), env))
  {
    hide Eval, Equal, Apply;
    EqualAt(l, l', p, fuel, env);
    var a := Eval(p, fuel, l, env);
    if a.Val? {
      EqualAt(r, r', p, fuel, a.env);
      ApplySame(op, a.v, Below(Eval(p, fuel, r, a.env), 4), Below(Eval(p, fuel, r', a.env), 4));
    }
    EvalBinary(p, fuel, Binary(op, l, r), env);
    EvalBinary(p, fuel, Binary(op, l', r'), env);
  }

  lemma NodeResult(o: Oper, l: Expr, r: Expr, l': Expr, r': Expr, p: Program, fuel: nat, env: Env)
    requires |env| >= p.nstatics && Equal(l, l') && Equal(r, r')
    ensures SameResult(Eval(p, fuel, Node(o, l, r), env), Eval(p, fuel, Node(o, l', r'), env))
  {
    hide Eval, Equal, SameResult;
    if o == OrOr {
      OrResult(l, r, l', r', p, fuel, env);
    } else if o == AndAnd {
      AndResult(l, r, l', r', p, fuel, env);
    } else {
      BinaryResult(o.b, l, r, l', r', p, fuel, env);
    }
  }

  /** Operators do not tell equal operands apart. */
  lemma NodeEqual(o: Oper, l: Expr, r: Expr, l': Expr, r': Expr)
    requires Equal(l, l') && Equal(r, r')
    ensures Equal(Node(o, l, r), Node(o, l', r'))
  {
    hide Eval;
    forall p: Program, fuel: nat, env: Env | |env| >= p.nstatics
      ensures SameResult(Eval(p, fuel, Node(o, l, r), env), Eval(p, fuel, Node(o, l', r'), env))
    {
      NodeResult(o, l, r, l', r', p, fuel, env);
    }
  }

  lemma OrRegrouped(x: Expr, y: Expr, z: Expr, p: Program, fuel: nat, env: Env)
    requires |env| >= p.nstatics
    ensures SameResult(Eval(p, fuel, OrElse(OrElse(x, y), z), env), Eval(p, fuel, OrElse(x, OrElse(y, z)), env))
  {
    hide Eval;
    EvalOr(p, fuel, OrElse(OrElse(x, y), z), env);
    EvalOr(p, fuel, OrElse(x, y), env);
    EvalOr(p, fuel, OrElse(x, OrElse(y, z)), env);
    var a := Eval(p, fuel, x, env);
    if a.Val? {
      EvalOr(p, fuel, OrElse(y, z), a.env);
    }
  }

  lemma AndRegrouped(x: Expr, y: Expr, z: Expr, p: Program, fuel: nat, env: Env)
    requires |env| >= p.nstatics
    ensures SameResult(Eval(p, fuel, AndAlso(AndAlso(x, y), z), env), Eval(p, fuel, AndAlso(x, AndAlso(y, z)), env))
  {
    hide Eval;
    EvalAnd(p, fuel, AndAlso(AndAlso(x, y), z), env);
    EvalAnd(p, fuel, AndAlso(x, y), env);
    EvalAnd(p, fuel, AndAlso(x, AndAlso(y, z)), env);
    var a := Eval(p, fuel, x, env);
    if a.Val? {
      EvalAnd(p, fuel, AndAlso(y, z), a.env);
    }
  }

  lemma BitOrRegrouped(x: Expr, y: Expr, z: Expr, p: Program, fuel: nat, env: Env)
    requires |env| >= p.nstatics
    ensures SameResult(Eval(p, fuel, Binary(BOr, Binary(BOr, x, y), z), env),
      Eval(p, fuel, Binary(BOr, x, Binary(BOr, y, z)), env))
  {
    hide Eval, BinVal;
    EvalBinary(p, fuel, Binary(BOr, Binary(BOr, x, y), z), env);
    EvalBinary(p, fuel, Binary(BOr, x, y), env);
    EvalBinary(p, fuel, Binary(BOr, x, Binary(BOr, y, z)), env);
    var a := Eval(p, fuel, x, env);
    if a.Val? {
      EvalBinary(p, fuel, Binary(BOr, y, z), a.env);
      var b := Eval(p, fuel, y, a.env);
      if b.Val? {
        var c := Eval(p, fuel, z, b.env);
        BitOrValue(a.v, b.v, if c.Val? then c.v else 0);
      }
    }
  }

  lemma BitOrValue(a: word, b: word, c: word)
    ensures BinVal(BOr, a, b).Some? && BinVal(BOr, b, c).Some?
    ensures BinVal(BOr, BinVal(BOr, a, b).value, c).Some? && BinVal(BOr, a, BinVal(BOr, b, c).value).Some?
    ensures BinVal(BOr, BinVal(BOr, a, b).value, c) == BinVal(BOr, a, BinVal(BOr, b, c).value)
  {
    OrAssociative(a, b, c, 32);
  }

  lemma Regrouped(o: Oper, x: Expr, y: Expr, z: Expr, p: Program, fuel: nat, env: Env)
    requires Level(o) <= 2 && |env| >= p.nstatics
    ensures SameResult(Eval(p, fuel, Node(o, Node(o, x, y), z), env), Eval(p, fuel, Node(o, x, Node(o, y, z)), env))
  {
    hide Eval, SameResult;
    match o
    case OrOr => OrRegrouped(x, y, z, p, fuel, env);
    case AndAnd => AndRegrouped(x, y, z, p, fuel, env);
    case Op(b) =>
      assert b == BOr;
      BitOrRegrouped(x, y, z, p, fuel, env);
  }

  /** The operators that the flat loop nests to the right associate. */
  lemma Associates(o: Oper, x: Expr, y: Expr, z: Expr)
    requires Level(o) <= 2
    ensures Equal(Node(o, Node(o, x, y), z), Node(o, x, Node(o, y, z)))
  {
    hide Eval;
    forall p: Program, fuel: nat, env: Env | |env| >= p.nstatics
      ensures SameResult(Eval(p, fuel, Node(o, Node(o, x, y), z), env), Eval(p, fuel, Node(o, x, Node(o, y, z)), env))
    {
      Regrouped(o, x, y, z, p, fuel, env);
    }
  }

  lemma EqualTrans(a: Expr, b: Expr, c: Expr)
    requires Equal(a, b) && Equal(b, c)
    ensures Equal(a, c)
  {
    hide Eval;
    forall p: Program, fuel: nat, env: Env | |env| >= p.nstatics
      ensures SameResult(Eval(p, fuel, a, env), Eval(p, fuel, c, env))
    {
      assert SameResult(Eval(p, fuel, a, env), Eval(p, fuel, b, env));
      assert SameResult(Eval(p, fuel, b, env), Eval(p, fuel, c, env));
    }
  }

  // ---- how much each level reads ---------------------------------------------------------

  /** A level stops at the first operator that binds less tightly. */
  ghost predicate Stops(items: seq<Item>, k: nat) {
    items != [] ==> Level(items[0].o) < k
  }

  lemma {:induction false} LoopStops(left: Expr, items: seq<Item>, k: nat)
    requires k < 10 && Stops(items, k + 1)
    ensures Stops(Loop(left, items, k).rest, k)
    decreases |items|, 10 - k, 0
  {
    if items != [] && Level(items[0].o) == k {
      var r := Chain(items[0].e, items[1..], k + 1);
      ChainStops(items[0].e, items[1..], k + 1);
      LoopStops(Node(items[0].o, left, r.e), r.rest, k);
    }
  }

  lemma {:induction false} ChainStops(first: Expr, items: seq<Item>, k: nat)
    requires k <= 10
    ensures Stops(Chain(first, items, k).rest, k)
    decreases |items|, 10 - k, 1
  {
    if k < 10 {
      var l := Chain(first, items, k + 1);
      ChainStops(first, items, k + 1);
      LoopStops(l.e, l.rest, k);
    }
  }

  /** Levels above the next operator's read nothing. */
  lemma {:induction false} ChainSkips(first: Expr, items: seq<Item>, k: nat)
    requires k <= 10 && Stops(items, k)
    ensures Chain(first, items, k) == Parsed(first, items)
    decreases 10 - k
  {
    if k < 10 {
      ChainSkips(first, items, k + 1);
    }
  }

  /** From level k on down, with an operator of level k next: its loop takes one turn. */
  lemma ChainTurn(first: Expr, items: seq<Item>, k: nat)
    requires k < 10 && items != [] && Level(items[0].o) == k
    ensures var r := Chain(items[0].e, items[1..], k + 1);
      Chain(first, items, k) == Chain(Node(items[0].o, first, r.e), r.rest, k)
  {
    var r := Chain(items[0].e, items[1..], k + 1);
    var first' := Node(items[0].o, first, r.e);
    ChainSkips(first, items, k + 1);
    ChainStops(items[0].e, items[1..], k + 1);
    ChainSkips(first', r.rest, k + 1);
  }

  /** The same for the whole chain, seen from a lower level. */
  lemma {:induction false} ChainStep(first: Expr, items: seq<Item>, k: nat)
    requires k < 10 && items != [] && Level(items[0].o) >= k
    ensures var r := Chain(items[0].e, items[1..], Level(items[0].o) + 1);
      Chain(first, items, k) == Chain(Node(items[0].o, first, r.e), r.rest, k)
    decreases 10 - k
  {
    if Level(items[0].o) == k {
      ChainTurn(first, items, k);
    } else {
      ChainStep(first, items, k + 1);
    }
  }

  // ---- the flat loop reads what the chain reads --------------------------------------------

  lemma {:induction false} LoopEqual(left: Expr, left': Expr, items: seq<Item>, k: nat)
    requires k < 10 && Equal(left, left')
    ensures Loop(left, items, k).rest == Loop(left', items, k).rest
    ensures Equal(Loop(left, items, k).e, Loop(left', items, k).e)
    decreases |items|
  {
    hide Equal;
    if items != [] && Level(items[0].o) == k {
      var r := Chain(items[0].e, items[1..], k + 1);
      EqualSelf(r.e);
      NodeEqual(items[0].o, left, r.e, left', r.e);
      LoopEqual(Node(items[0].o, left, r.e), Node(items[0].o, left', r.e), r.rest, k);
    }
  }

  lemma EqualSelf(a: Expr)
    ensures Equal(a, a)
  {
    hide Eval;
  }

  /** One operator per level: the operators of a level's loop are all the same. */
  lemma OneOperator(o: Oper, o': Oper)
    requires Level(o) == Level(o') <= 2
    ensures o == o'
  {
  }

  /** Reading on and then combining is the same as combining and then reading on. */
  lemma {:induction false} LoopAssociates(o: Oper, left: Expr, r: Expr, items: seq<Item>)
    requires Level(o) <= 2
    ensures var k := Level(o);
      Loop(Node(o, left, r), items, k).rest == Loop(r, items, k).rest &&
      Equal(Loop(Node(o, left, r), items, k).e, Node(o, left, Loop(r, items, k).e))
    decreases |items|
  {
    hide Equal;
    var k := Level(o);
    if items != [] && Level(items[0].o) == k {
      OneOperator(o, items[0].o);
      var n := Chain(items[0].e, items[1..], k + 1);
      var l1, l2 := Node(o, Node(o, left, r), n.e), Node(o, left, Node(o, r, n.e));
      Associates(o, left, r, n.e);
      LoopEqual(l1, l2, n.rest, k);
      LoopAssociates(o, left, Node(o, r, n.e), n.rest);
      EqualTrans(Loop(l1, n.rest, k).e, Loop(l2, n.rest, k).e, Node(o, left, Loop(Node(o, r, n.e), n.rest, k).e));
    } else {
      EqualSelf(Node(o, left, r));
    }
  }

  /** The chain from level j down does not care how level j was left behind. */
  lemma {:induction false} ChainOn(first: Expr, items: seq<Item>, j: nat, k: nat)
    requires k <= j <= 10
    ensures var l := Chain(first, items, j);
      Chain(first, items, k) == Chain(l.e, l.rest, k)
    decreases 10 - k
  {
    var l := Chain(first, items, j);
    if k == j {
      ChainStops(first, items, j);
      ChainSkips(l.e, l.rest, j);
    } else {
      ChainOn(first, items, j, k + 1);
    }
  }

  /** For every string of operands and operators after a first operand, the flat loop
      and the precedence chain read all of it, and what they read evaluates to the
      same value with the same effects. */
  lemma {:induction false} FlatAgrees(left: Expr, left': Expr, items: seq<Item>)
    requires Equal(left, left')
    ensures Flat(left, items).rest == [] && Chain(left', items, 0).rest == []
    ensures Equal(Flat(left, items).e, Chain(left', items, 0).e)
    decreases |items|
  {
    hide Equal, Chain, Loop;
    if items == [] {
      ChainSkips(left', items, 0);
    } else {
      var o, j := items[0].o, Level(items[0].o);
      var r := Chain(items[0].e, items[1..], j + 1);
      ChainStep(left', items, 0);
      EqualSelf(r.e);
      if j > 2 {
        NodeEqual(o, left, r.e, left', r.e);
        FlatAgrees(Node(o, left, r.e), Node(o, left', r.e), r.rest);
      } else {
        var n := Chain(items[0].e, items[1..], j);
        var x := RightNested(o, left', items);
        EqualSelf(n.e);
        NodeEqual(o, left, n.e, left', n.e);
        EqualTrans(Node(o, left, n.e), Node(o, left', n.e), x);
        FlatAgrees(Node(o, left, n.e), x, n.rest);
      }
    }
  }

  /** Where the flat loop nests to the right, the chain reads as far, to an equal tree x. */
  lemma RightNested(o: Oper, left: Expr, items: seq<Item>) returns (x: Expr)
    requires items != [] && items[0].o == o && Level(o) <= 2
    ensures var n := Chain(items[0].e, items[1..], Level(o));
      Equal(Node(o, left, n.e), x) && Chain(left, items, 0) == Chain(x, n.rest, 0)
  {
    var j := Level(o);
    var r := Chain(items[0].e, items[1..], j + 1);
    var n := Chain(items[0].e, items[1..], j);
    var first := Node(o, left, r.e);
    ChainStops(items[0].e, items[1..], j + 1);
    ChainSkips(first, r.rest, j + 1);
    assert Chain(first, r.rest, j) == Loop(first, r.rest, j);
    x := Loop(first, r.rest, j).e;
    LoopAssociates(o, left, r.e, r.rest);
    EqualSym(x, Node(o, left, n.e));
    ChainStep(left, items, 0);
    ChainOn(first, r.rest, j, 0);
  }

  lemma EqualSym(a: Expr, b: Expr)
    requires Equal(a, b)
    ensures Equal(b, a)
  {
    hide Eval;
  }
}
