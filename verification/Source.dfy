/** The scalar source language of rc and its meaning.

    An environment is a flat list of bindings, newest last: first the statics,
    then the parameters and locals of the running function.  A name means its
    newest binding.  Evaluation is indexed by fuel, spent on calls and on loop
    iterations, and reports `need`: how many bytes of stack below ESP the run
    takes.  Nothing else in a result depends on `need`. */
module Source {
  import opened Base
  import opened Bindings
  import opened Word
  import opened X86

  // ---- syntax ---------------------------------------------------------------------

  datatype UnOp = Minus | Bang

  datatype BinOp = Add | Sub | Mul | Div | Rem | BAnd | BOr | BXor | Shl | Shr | Cmp(cc: CC)

  datatype Expr =
    | Const(w: word)
    | Str(text: seq<byte>, addr: word)   // a literal and the address of its bytes
    | Var(x: string)
    | Unary(u: UnOp, e: Expr)
    | Binary(op: BinOp, l: Expr, r: Expr)
    | AndAlso(l: Expr, r: Expr)
    | OrElse(l: Expr, r: Expr)
    | Assign(x: string, e: Expr)
    | OpAssign(x: string, op: BinOp, e: Expr)
    | Call(f: string, args: Exprs)

  datatype Exprs = ENil | ECons(e: Expr, rest: Exprs)

  datatype Stmt =
    | Do(e: Expr)
    | Let(x: string, init: Option<Expr>)
    | If(c: Expr, thn: Stmts, els: Option<Stmts>)
    | While(c: Expr, body: Stmts)
    | Loop(body: Stmts)
    | For(x: string, lo: Expr, hi: Expr, body: Stmts)
    | Match(e: Expr, arms: Arms)
    | Block(body: Stmts)
    | Break
    | Continue
    | Return(result: Option<Expr>)

  datatype Stmts = SNil | SCons(s: Stmt, rest: Stmts)

  /** pat is None for the `_` arm. */
  datatype Arms = ANil | ACons(pat: Option<Expr>, body: Stmts, rest: Arms)

  datatype Func = Func(params: seq<string>, body: Stmts, frame: nat)

  /** frame is the number of bytes the prologue reserves; it only enters `need`. */
  datatype Program = Program(nstatics: nat, funcs: map<string, Func>)

  function ArgCount(args: Exprs): nat {
    if args.ENil? then 0 else 1 + ArgCount(args.rest)
  }

  // ---- operators ------------------------------------------------------------------

  function UnVal(u: UnOp, a: word): word {
    match u
    case Minus => Wrap(W - a)
    case Bang => W - 1 - a
  }

  function BoolWord(b: bool): word {
    if b then 1 else 0
  }

  /** None is the divide error. */
  function BinVal(op: BinOp, a: word, b: word): Option<word> {
    match op
    case Add => Some(Wrap(a + b))
    case Sub => Some(Wrap(a - b))
    case Mul => Some(Product(a, b))
    case Div => (match Divide(Signed(a), b) case Quotient(q, _) => Some(q) case DivideError => None)
    case Rem => (match Divide(Signed(a), b) case Quotient(_, r) => Some(r) case DivideError => None)
    case BAnd => Some(Bitwise(BitAnd, a, b))
    case BOr => Some(Bitwise(BitOr, a, b))
    case BXor => Some(Bitwise(BitXor, a, b))
    case Shl => Some(ShiftLeft(a, b % 32))
    case Shr => Some(ShiftRight(a, b % 32))
    case Cmp(cc) => Some(BoolWord(Relation(cc, a, b)))
  }

  /** What the operators compute, in numbers: the arithmetic is modulo 2^32, shifts and bitwise
      operators take the words as unsigned, and the comparisons as signed numbers. */
  lemma OperatorMeans(op: BinOp, a: word, b: word)
    requires !op.Div? && !op.Rem?
    ensures BinVal(op, a, b).Some? && var v := BinVal(op, a, b).value;
      match op
      case Add => v == (a + b) % 0x1_0000_0000
      case Sub => v == (a - b) % 0x1_0000_0000
      case Mul => v == a * b % 0x1_0000_0000
      case BAnd => forall k :: 0 <= k < 32 ==> Bit(v, k) == Bit(a, k) * Bit(b, k)
      case BOr => forall k :: 0 <= k < 32 ==> Bit(v, k) == Bit(a, k) + Bit(b, k) - Bit(a, k) * Bit(b, k)
      case BXor => forall k :: 0 <= k < 32 ==> Bit(v, k) == (Bit(a, k) + Bit(b, k)) % 2
      case Shl => v == a * Pow2(b % 32) % 0x1_0000_0000
      case Shr => v == a / Pow2(b % 32)
      case Cmp(E) => v == if a == b then 1 else 0
      case Cmp(NE) => v == if a != b then 1 else 0
      case Cmp(L) => v == if Signed(a) < Signed(b) then 1 else 0
      case Cmp(GE) => v == if Signed(a) >= Signed(b) then 1 else 0
      case Cmp(LE) => v == if Signed(a) <= Signed(b) then 1 else 0
      case Cmp(G) => v == if Signed(a) > Signed(b) then 1 else 0
  {
    hide Bit, Bitwise, Pow2, ShiftLeft, ShiftRight, Signed;
    if op.Shl? {
      ShiftLeftIs(a, b % 32);
    } else if op.Shr? {
      ShiftRightIs(a, b % 32);
    } else if op.BAnd? || op.BOr? || op.BXor? {
      var o := if op.BAnd? then BitAnd else if op.BOr? then BitOr else BitXor;
      forall k | 0 <= k < 32
        ensures var x, y, z := Bit(a, k), Bit(b, k), Bit(Bitwise(o, a, b), k);
          z == match o case BitAnd => x * y case BitOr => x + y - x * y case BitXor => (x + y) % 2
      {
        BitwiseAt(o, a, b, k);
      }
    }
  }

  /** Division rounds toward zero and the remainder has the sign of the dividend; it traps exactly
      when the divisor is 0 or the quotient has more than 32 bits. */
  lemma DivisionMeans(a: word, b: word, q: int, r: int)
    requires Signed(b) != 0 ==> Divides(Signed(a), Signed(b), q, r)
    ensures var traps := Signed(b) == 0 || !(-0x8000_0000 <= q < 0x8000_0000);
      (BinVal(Div, a, b).None? <==> traps) && (BinVal(Rem, a, b).None? <==> traps) &&
      (!traps ==> Signed(BinVal(Div, a, b).value) == q && Signed(BinVal(Rem, a, b).value) == r)
  {
    hide Divide, Divides, Signed;
    DivideIs(Signed(a), b, q, r);
  }

  /** Minus is the additive inverse, and ! flips every bit. */
  lemma UnaryMeans(a: word, k: nat)
    requires k < 32
    ensures Wrap(UnVal(Minus, a) + a) == 0
    ensures Bit(UnVal(Bang, a), k) == 1 - Bit(a, k)
  {
    hide Bit;
    Flipped(a, k);
  }

  // ---- results --------------------------------------------------------------------

  /** A local declared without initialiser holds no defined value. */
  type Env = seq<Entry<Option<word>>>

  /** Fault: a division trapped.  Timeout: out of fuel, after that many calls and loop
      iterations on the way there.  Wrong: the program read an undefined value, named an
      unknown function or passed the wrong number of arguments, and has no meaning. */
  datatype ERes = Val(v: word, env: Env, need: nat) | Fault(need: nat) | Timeout(rounds: nat, need: nat) | Wrong

  datatype ARes =
    | Vals(vs: seq<word>, env: Env, need: nat)
    | AFault(need: nat)
    | ATimeout(rounds: nat, need: nat)
    | AWrong

  datatype Ctl = Normal | Broke | Continued | Returned(v: Option<word>)

  datatype SRes =
    | Done(ctl: Ctl, env: Env, need: nat)
    | SFault(need: nat)
    | STimeout(rounds: nat, need: nat)
    | SWrong

  function Max(a: nat, b: nat): nat {
    if a >= b then a else b
  }

  function Deepen(r: ERes, n: nat): (q: ERes)
    ensures q.Val? == r.Val? && q.Fault? == r.Fault? && q.Timeout? == r.Timeout?
  {
    match r
    case Val(v, env, m) => Val(v, env, Max(n, m))
    case Fault(m) => Fault(Max(n, m))
    case Timeout(k, m) => Timeout(k, Max(n, m))
    case Wrong => Wrong
  }

  function Below(r: ERes, n: nat): ERes {
    match r
    case Val(v, env, m) => Val(v, env, n + m)
    case Fault(m) => Fault(n + m)
    case Timeout(k, m) => Timeout(k, n + m)
    case Wrong => Wrong
  }

  /** The same, one round later. */
  function Later(r: ERes): (q: ERes)
    ensures !r.Timeout? ==> q == r
  {
    if r.Timeout? then r.(rounds := r.rounds + 1) else r
  }

  function SDeepen(r: SRes, n: nat): SRes {
    match r
    case Done(c, env, m) => Done(c, env, Max(n, m))
    case SFault(m) => SFault(Max(n, m))
    case STimeout(k, m) => STimeout(k, Max(n, m))
    case SWrong => SWrong
  }

  function SLater(r: SRes): (q: SRes)
    ensures !r.STimeout? ==> q == r
  {
    if r.STimeout? then r.(rounds := r.rounds + 1) else r
  }

  function Failed(r: ERes): SRes
    requires !r.Val?
  {
    match r
    case Fault(m) => SFault(m)
    case Timeout(k, m) => STimeout(k, m)
    case Wrong => SWrong
  }

  /** Leave a scope that was entered with n bindings. */
  function Scoped(r: SRes, n: nat): (q: SRes)
    requires r.Done? ==> |r.env| >= n
    ensures q.Done? == r.Done?
    ensures q.Done? ==> |q.env| == n
  {
    if r.Done? then r.(env := r.env[..n]) else r
  }

  // ---- meaning of expressions -------------------------------------------------------

  function ReadVar(env: Env, x: string): Option<word> {
    var k := Find(env, x);
    if k < 0 then None else env[k].val
  }

  function WriteVar(env: Env, x: string, v: word): (env': Env)
    ensures |env'| == |env|
  {
    var k := Find(env, x);
    if k < 0 then env else env[k := Entry(x, Some(v))]
  }

  function Bind(params: seq<string>, vs: seq<word>): (env: Env)
    requires |params| == |vs|
    ensures |env| == |vs|
  {
    seq(|vs|, i requires 0 <= i < |vs| => Entry(params[i], Some(vs[i])))
  }

  function Apply(op: BinOp, a: word, r: ERes): (q: ERes)
    ensures q.Val? ==> r.Val? && q.env == r.env
  {
    if !r.Val? then r
    else match BinVal(op, a, r.v)
      case Some(v) => Val(v, r.env, r.need)
      case None => Fault(r.need)
  }

  function ArgsFailed(a: ARes): ERes
    requires !a.Vals?
  {
    match a
    case AFault(m) => Fault(m)
    case ATimeout(k, m) => Timeout(k, m)
    case AWrong => Wrong
  }

  function BodyOf(p: Program, f: string): Stmts {
    if f in p.funcs then p.funcs[f].body else SNil
  }

  function Eval(p: Program, fuel: nat, e: Expr, env: Env): (r: ERes)
    requires |env| >= p.nstatics
    ensures r.Val? ==> |r.env| == |env|
    decreases fuel, e, 0
  {
    match e
    case Const(w) => Val(w, env, 0)
    case Str(_, a) => Val(a, env, 0)
    case Var(x) =>
      var v := ReadVar(env, x);
      if v.Some? then Val(v.value, env, 0) else Wrong
    case Unary(u, e1) =>
      var r := Eval(p, fuel, e1, env);
      if r.Val? then r.(v := UnVal(u, r.v)) else r
    case Binary(op, l, r) =>
      var a := Eval(p, fuel, l, env);
      if !a.Val? then a
      else Deepen(Apply(op, a.v, Below(Eval(p, fuel, r, a.env), 4)), a.need)
    case AndAlso(l, r) =>
      var a := Eval(p, fuel, l, env);
      if !a.Val? || a.v == 0 then a
      else
        var b := Deepen(Eval(p, fuel, r, a.env), a.need);
        if b.Val? then b.(v := BoolWord(b.v != 0)) else b
    case OrElse(l, r) =>
      var a := Eval(p, fuel, l, env);
      if !a.Val? then a
      else if a.v != 0 then a.(v := 1)
      else
        var b := Deepen(Eval(p, fuel, r, a.env), a.need);
        if b.Val? then b.(v := BoolWord(b.v != 0)) else b
    case Assign(x, e1) =>
      var r := Eval(p, fuel, e1, env);
      if r.Val? then r.(env := WriteVar(r.env, x, r.v)) else r
    case OpAssign(x, op, e1) =>
      var v := ReadVar(env, x);
      if v.None? then Wrong
      else
        var r := Apply(op, v.value, Below(Eval(p, fuel, e1, env), 4));
        if r.Val? then r.(env := WriteVar(r.env, x, r.v)) else r
    case Call(f, args) =>
      var a := EvalArgs(p, fuel, args, env);
      if !a.Vals? then ArgsFailed(a)
      else if fuel == 0 then Timeout(0, a.need)
      else
        var c := Later(Invoke(p, fuel - 1, f, a.vs, a.env[..p.nstatics]));
        if c.Val? then Deepen(Below(c.(env := c.env + a.env[p.nstatics..]), 4 * |a.vs|), a.need)
        else Deepen(Below(c, 4 * |a.vs|), a.need)
  }

  /** Arguments are evaluated left to right, each pushed before the next. */
  function EvalArgs(p: Program, fuel: nat, args: Exprs, env: Env): (r: ARes)
    requires |env| >= p.nstatics
    ensures r.Vals? ==> |r.env| == |env| && |r.vs| == ArgCount(args)
    decreases fuel, args, 0
  {
    match args
    case ENil => Vals([], env, 0)
    case ECons(e, rest) =>
      match Eval(p, fuel, e, env)
      case Val(v, env1, m) =>
        (match EvalArgs(p, fuel, rest, env1)
         case Vals(vs, env2, n) => Vals([v] + vs, env2, Max(Max(m, 4), 4 + n))
         case AFault(n) => AFault(Max(m, 4 + n))
         case ATimeout(k, n) => ATimeout(k, Max(m, 4 + n))
         case AWrong => AWrong)
      case Fault(m) => AFault(m)
      case Timeout(k, m) => ATimeout(k, m)
      case Wrong => AWrong
  }

  /** Run a function on evaluated arguments; a body that falls off its end
      returns 0, and `return;` leaves the value undefined. */
  function Invoke(p: Program, fuel: nat, f: string, vs: seq<word>, statics: Env): (r: ERes)
    requires |statics| == p.nstatics
    ensures r.Val? ==> |r.env| == p.nstatics
    decreases fuel, BodyOf(p, f), 1
  {
    if f !in p.funcs || |p.funcs[f].params| != |vs| then Wrong
    else
      var fn := p.funcs[f];
      match RunList(p, fuel, fn.body, statics + Bind(fn.params, vs))
      case Done(Normal, env, m) => Val(0, env[..p.nstatics], 8 + fn.frame + m)
      case Done(Returned(Some(v)), env, m) => Val(v, env[..p.nstatics], 8 + fn.frame + m)
      case SFault(m) => Fault(8 + fn.frame + m)
      case STimeout(k, m) => Timeout(k, 8 + fn.frame + m)
      case _ => Wrong
  }

  // ---- equations, for proofs that do not look inside Eval -----------------------------

  lemma EvalUnary(p: Program, fuel: nat, e: Expr, env: Env)
    requires e.Unary? && |env| >= p.nstatics
    ensures var r := Eval(p, fuel, e.e, env);
      Eval(p, fuel, e, env) == if r.Val? then r.(v := UnVal(e.u, r.v)) else r
  {
  }

  lemma EvalCall(p: Program, fuel: nat, e: Expr, env: Env)
    requires e.Call? && |env| >= p.nstatics
    ensures var a := EvalArgs(p, fuel, e.args, env);
      Eval(p, fuel, e, env) ==
        if !a.Vals? then ArgsFailed(a)
        else if fuel == 0 then Timeout(0, a.need)
        else
          var c := Later(Invoke(p, fuel - 1, e.f, a.vs, a.env[..p.nstatics]));
          Deepen(Below(if c.Val? then c.(env := c.env + a.env[p.nstatics..]) else c, 4 * |a.vs|), a.need)
  {
    hide Invoke, EvalArgs;
  }

  lemma EvalBinary(p: Program, fuel: nat, e: Expr, env: Env)
    requires e.Binary? && |env| >= p.nstatics
    ensures var a := Eval(p, fuel, e.l, env);
      Eval(p, fuel, e, env) ==
        if a.Val? then Deepen(Apply(e.op, a.v, Below(Eval(p, fuel, e.r, a.env), 4)), a.need) else a
  {
  }

  lemma EvalAnd(p: Program, fuel: nat, e: Expr, env: Env)
    requires e.AndAlso? && |env| >= p.nstatics
    ensures var a := Eval(p, fuel, e.l, env);
      Eval(p, fuel, e, env) ==
        if !a.Val? || a.v == 0 then a
        else
          var b := Deepen(Eval(p, fuel, e.r, a.env), a.need);
          if b.Val? then b.(v := BoolWord(b.v != 0)) else b
  {
  }

  lemma EvalAssign(p: Program, fuel: nat, e: Expr, env: Env)
    requires e.Assign? && |env| >= p.nstatics
    ensures var r := Eval(p, fuel, e.e, env);
      Eval(p, fuel, e, env) == if r.Val? then r.(env := WriteVar(r.env, e.x, r.v)) else r
  {
  }

  lemma EvalOpAssign(p: Program, fuel: nat, e: Expr, env: Env)
    requires e.OpAssign? && |env| >= p.nstatics
    ensures var v := ReadVar(env, e.x);
      Eval(p, fuel, e, env) ==
        if v.None? then Wrong
        else
          var r := Apply(e.op, v.value, Below(Eval(p, fuel, e.e, env), 4));
          if r.Val? then r.(env := WriteVar(r.env, e.x, r.v)) else r
  {
  }

  lemma EvalOr(p: Program, fuel: nat, e: Expr, env: Env)
    requires e.OrElse? && |env| >= p.nstatics
    ensures var a := Eval(p, fuel, e.l, env);
      Eval(p, fuel, e, env) ==
        if !a.Val? then a
        else if a.v != 0 then a.(v := 1)
        else
          var b := Deepen(Eval(p, fuel, e.r, a.env), a.need);
          if b.Val? then b.(v := BoolWord(b.v != 0)) else b
  {
  }

  // ---- meaning of statements --------------------------------------------------------

  function Grows(s: Stmt): nat {
    if s.Let? then 1 else 0
  }

  function RunBlock(p: Program, fuel: nat, ss: Stmts, env: Env): (r: SRes)
    requires |env| >= p.nstatics
    ensures r.Done? ==> |r.env| == |env|
    decreases fuel, ss, 1
  {
    Scoped(RunList(p, fuel, ss, env), |env|)
  }

  function RunList(p: Program, fuel: nat, ss: Stmts, env: Env): (r: SRes)
    requires |env| >= p.nstatics
    ensures r.Done? ==> |r.env| >= |env|
    decreases fuel, ss, 0
  {
    match ss
    case SNil => Done(Normal, env, 0)
    case SCons(s, rest) =>
      var r := RunStmt(p, fuel, s, env);
      if r.Done? && r.ctl.Normal? then SDeepen(RunList(p, fuel, rest, r.env), r.need) else r
  }

  function RunStmt(p: Program, fuel: nat, s: Stmt, env: Env): (r: SRes)
    requires |env| >= p.nstatics
    ensures r.Done? ==> |r.env| == |env| + Grows(s)
    ensures s.Let? && r.Done? ==> r.ctl.Normal?
    decreases fuel, s, 0
  {
    match s
    case Do(e) =>
      var r := Eval(p, fuel, e, env);
      if r.Val? then Done(Normal, r.env, r.need) else Failed(r)
    case Let(x, init) =>
      // The new name is already in scope inside its own initialiser.
      var env1 := env + [Entry(x, None)];
      if init.None? then Done(Normal, env1, 0)
      else
        var r := Eval(p, fuel, init.value, env1);
        if r.Val? then Done(Normal, r.env[|env| := Entry(x, Some(r.v))], r.need) else Failed(r)
    case If(c, thn, els) =>
      var r := Eval(p, fuel, c, env);
      if !r.Val? then Failed(r)
      else if r.v != 0 then SDeepen(RunBlock(p, fuel, thn, r.env), r.need)
      else if els.Some? then SDeepen(RunBlock(p, fuel, els.value, r.env), r.need)
      else Done(Normal, r.env, r.need)
    case While(c, body) =>
      if fuel == 0 then STimeout(0, 0)
      else
        var r := Eval(p, fuel, c, env);
        if !r.Val? then Failed(r)
        else if r.v == 0 then Done(Normal, r.env, r.need)
        else
          var b := SDeepen(RunBlock(p, fuel, body, r.env), r.need);
          if !b.Done? || b.ctl.Returned? then b
          else if b.ctl.Broke? then b.(ctl := Normal)
          else SDeepen(SLater(RunStmt(p, fuel - 1, s, b.env)), b.need)
    case Loop(body) =>
      if fuel == 0 then STimeout(0, 0)
      else
        var b := RunBlock(p, fuel, body, env);
        if !b.Done? || b.ctl.Returned? then b
        else if b.ctl.Broke? then b.(ctl := Normal)
        else SDeepen(SLater(RunStmt(p, fuel - 1, s, b.env)), b.need)
    case For(x, lo, hi, body) =>
      var a := Eval(p, fuel, lo, env);
      if !a.Val? then Failed(a)
      else
        // The bound is evaluated once, with the iterator already in scope.
        var b := Eval(p, fuel, hi, a.env + [Entry(x, Some(a.v))]);
        if !b.Val? then SDeepen(Failed(b), a.need)
        else Scoped(SDeepen(RunFor(p, fuel, body, b.v, b.env), Max(a.need, b.need)), |env|)
    case Match(e, arms) =>
      var r := Eval(p, fuel, e, env);
      if r.Val? then SDeepen(RunArms(p, fuel, arms, r.v, r.env), r.need) else Failed(r)
    case Block(body) => RunBlock(p, fuel, body, env)
    case Break => Done(Broke, env, 0)
    case Continue => Done(Continued, env, 0)
    case Return(e) =>
      if e.None? then Done(Returned(None), env, 0)
      else
        var r := Eval(p, fuel, e.value, env);
        if r.Val? then Done(Returned(Some(r.v)), r.env, r.need) else Failed(r)
  }

  /** Iterations of a for loop whose iterator is the newest binding of env. */
  function RunFor(p: Program, fuel: nat, body: Stmts, hi: word, env: Env): (r: SRes)
    requires |env| > p.nstatics
    ensures r.Done? ==> |r.env| == |env| && !r.ctl.Broke? && !r.ctl.Continued?
    decreases fuel, body, 2
  {
    var k := |env| - 1;
    if fuel == 0 then STimeout(0, 0)
    else if env[k].val.None? then SWrong
    else if Signed(env[k].val.value) >= Signed(hi) then Done(Normal, env, 4)
    else ForResult(p, fuel - 1, body, hi, SDeepen(RunBlock(p, fuel, body, env), 4))
  }

  /** What a for loop comes to once its body has come to b. */
  function ForResult(p: Program, fuel: nat, body: Stmts, hi: word, b: SRes): (r: SRes)
    requires b.Done? ==> |b.env| > p.nstatics
    ensures r.Done? ==> b.Done? && |r.env| == |b.env| && !r.ctl.Broke? && !r.ctl.Continued?
    decreases fuel, body, 3
  {
    if !b.Done? || b.ctl.Returned? then b
    else if b.ctl.Broke? then b.(ctl := Normal)
    else if b.env[|b.env| - 1].val.None? then SWrong
    else SDeepen(SLater(RunFor(p, fuel, body, hi, Advanced(b.env))), b.need)
  }

  /** One more for the newest variable. */
  function Advanced(env: Env): (r: Env)
    requires |env| > 0 && env[|env| - 1].val.Some?
    ensures |r| == |env|
  {
    var k := |env| - 1;
    env[k := Entry(env[k].name, Some(Wrap(env[k].val.value + 1)))]
  }

  /** Patterns are expressions, tried in order; `_` takes whatever reaches it. */
  function RunArms(p: Program, fuel: nat, arms: Arms, v: word, env: Env): (r: SRes)
    requires |env| >= p.nstatics
    ensures r.Done? ==> |r.env| == |env|
    decreases fuel, arms, 0
  {
    match arms
    case ANil => Done(Normal, env, 0)
    case ACons(pat, body, rest) =>
      if pat.None? then RunBlock(p, fuel, body, env)
      else
        var q := Eval(p, fuel, pat.value, env);
        if !q.Val? then Failed(q)
        else if q.v == v then SDeepen(RunBlock(p, fuel, body, q.env), q.need)
        else SDeepen(RunArms(p, fuel, rest, v, q.env), q.need)
  }
}
