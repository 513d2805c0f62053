/** The scope of a new variable (src/rc/parse.rs).  The compiler enters the name of a let, and the
    iterator of a for, before it reads the initialiser or the limit.  Ordinary scoping evaluates those
    first; this is when it makes no difference, and what happens otherwise. */
module NewNames {
  import opened Base
  import opened Bindings
  import opened Word
  import opened Source

  // ---- names of an expression -----------------------------------------------------------------

  /** x is read or assigned somewhere in e. */
  predicate Occurs(x: string, e: Expr) {
    match e
    case Const(_) => false
    case Str(_, _) => false
    case Var(y) => x == y
    case Unary(_, e1) => Occurs(x, e1)
    case Binary(_, l, r) => Occurs(x, l) || Occurs(x, r)
    case AndAlso(l, r) => Occurs(x, l) || Occurs(x, r)
    case OrElse(l, r) => Occurs(x, l) || Occurs(x, r)
    case Assign(y, e1) => x == y || Occurs(x, e1)
    case OpAssign(y, _, e1) => x == y || Occurs(x, e1)
    case Call(_, args) => OccursIn(x, args)
  }

  predicate OccursIn(x: string, args: Exprs) {
    args.ECons? && (Occurs(x, args.e) || OccursIn(x, args.rest))
  }

  /** x is what the evaluation of e reads first. */
  predicate Leads(x: string, e: Expr) {
    match e
    case Const(_) => false
    case Str(_, _) => false
    case Var(y) => x == y
    case Unary(_, e1) => Leads(x, e1)
    case Binary(_, l, _) => Leads(x, l)
    case AndAlso(l, _) => Leads(x, l)
    case OrElse(l, _) => Leads(x, l)
    case Assign(_, e1) => Leads(x, e1)
    case OpAssign(y, _, _) => x == y
    case Call(_, args) => args.ECons? && Leads(x, args.e)
  }

  // ---- one more binding -----------------------------------------------------------------------

  /** The same result with one more binding, b, that was not touched. */
  function With(r: ERes, b: Entry<Option<word>>): ERes {
    if r.Val? then r.(env := r.env + [b]) else r
  }

  function ArgsWith(r: ARes, b: Entry<Option<word>>): ARes {
    if r.Vals? then r.(env := r.env + [b]) else r
  }

  lemma FindOthers(env: Env, b: Entry<Option<word>>, x: string)
    requires x != b.name
    ensures Find(env + [b], x) == Find(env, x)
  {
    FindOn(env, [b], x);
  }

  lemma WriteOthers(env: Env, b: Entry<Option<word>>, x: string, v: word)
    requires x != b.name
    ensures ReadVar(env + [b], x) == ReadVar(env, x) && WriteVar(env + [b], x, v) == WriteVar(env, x, v) + [b]
  {
    hide Find;
    FindOthers(env, b, x);
  }

  /** Evaluation does not notice a variable that does not occur: value, effects, fault and stack stay. */
  lemma {:induction false} EvalWith(p: Program, fuel: nat, e: Expr, env: Env, b: Entry<Option<word>>)
    requires |env| >= p.nstatics && !Occurs(b.name, e)
    ensures Eval(p, fuel, e, env + [b]) == With(Eval(p, fuel, e, env), b)
    decreases e, 1
  {
    hide Find, ReadVar, WriteVar, Invoke;
    match e
    case Const(_) =>
    case Str(_, _) =>
    case Var(x) => WriteOthers(env, b, x, 0);
    case Unary(_, e1) => EvalWith(p, fuel, e1, env, b);
    case Binary(_, _, _) => BothWith(p, fuel, e, env, b);
    case AndAlso(_, _) => BothWith(p, fuel, e, env, b);
    case OrElse(_, _) => BothWith(p, fuel, e, env, b);
    case Assign(x, e1) =>
      EvalWith(p, fuel, e1, env, b);
      var r := Eval(p, fuel, e1, env);
      if r.Val? {
        WriteOthers(r.env, b, x, r.v);
      }
    case OpAssign(_, _, e1) =>
      EvalWith(p, fuel, e1, env, b);
      OpAssignWith(p, fuel, e, env, b);
    case Call(f, args) =>
      ArgsEvalWith(p, fuel, args, env, b);
      var a := EvalArgs(p, fuel, args, env);
      if a.Vals? {
        var n := p.nstatics;
        assert (a.env + [b])[..n] == a.env[..n] && (a.env + [b])[n..] == a.env[n..] + [b];
        forall c: Env ensures c + (a.env[n..] + [b]) == c + a.env[n..] + [b] {
        }
      }
  }

  lemma {:induction false} BothWith(p: Program, fuel: nat, e: Expr, env: Env, b: Entry<Option<word>>)
    requires e.Binary? || e.AndAlso? || e.OrElse?
    requires |env| >= p.nstatics && !Occurs(b.name, e.l) && !Occurs(b.name, e.r)
    ensures var a := Eval(p, fuel, e.l, env);
      Eval(p, fuel, e.l, env + [b]) == With(a, b) &&
      (a.Val? ==> Eval(p, fuel, e.r, a.env + [b]) == With(Eval(p, fuel, e.r, a.env), b))
    decreases e, 0
  {
    hide Eval;
    EvalWith(p, fuel, e.l, env, b);
    var a := Eval(p, fuel, e.l, env);
    if a.Val? {
      EvalWith(p, fuel, e.r, a.env, b);
    }
  }

  lemma OpAssignWith(p: Program, fuel: nat, e: Expr, env: Env, b: Entry<Option<word>>)
    requires e.OpAssign? && |env| >= p.nstatics && e.x != b.name
    requires Eval(p, fuel, e.e, env + [b]) == With(Eval(p, fuel, e.e, env), b)
    ensures Eval(p, fuel, e, env + [b]) == With(Eval(p, fuel, e, env), b)
  {
    hide Find, Eval, ReadVar, WriteVar, BinVal;
    EvalOpAssign(p, fuel, e, env);
    EvalOpAssign(p, fuel, e, env + [b]);
    WriteOthers(env, b, e.x, 0);
    var v := ReadVar(env, e.x);
    if v.Some? {
      var r := Apply(e.op, v.value, Below(Eval(p, fuel, e.e, env), 4));
      if r.Val? {
        WriteOthers(r.env, b, e.x, r.v);
      }
    }
  }

  lemma {:induction false} ArgsEvalWith(p: Program, fuel: nat, args: Exprs, env: Env, b: Entry<Option<word>>)
    requires |env| >= p.nstatics && !OccursIn(b.name, args)
    ensures EvalArgs(p, fuel, args, env + [b]) == ArgsWith(EvalArgs(p, fuel, args, env), b)
    decreases args
  {
    hide Eval;
    if args.ECons? {
      EvalWith(p, fuel, args.e, env, b);
      var r := Eval(p, fuel, args.e, env);
      if r.Val? {
        ArgsEvalWith(p, fuel, args.rest, r.env, b);
      }
    }
  }

  // ---- let --------------------------------------------------------------------------------------

  /** let x = e as ordinary scoping has it: e does not see the new x. */
  function OrdinaryLet(p: Program, fuel: nat, x: string, e: Expr, env: Env): SRes
    requires |env| >= p.nstatics
  {
    var r := Eval(p, fuel, e, env);
    if r.Val? then Done(Normal, r.env + [Entry(x, Some(r.v))], r.need) else Failed(r)
  }

  /** If x does not occur in e, the compiler's let is the ordinary one. */
  lemma LetOrdinary(p: Program, fuel: nat, x: string, e: Expr, env: Env)
    requires |env| >= p.nstatics && !Occurs(x, e)
    ensures RunStmt(p, fuel, Let(x, Some(e)), env) == OrdinaryLet(p, fuel, x, e, env)
  {
    hide Eval;
    EvalWith(p, fuel, e, env, Entry(x, None));
  }

  /** If e starts by reading x, the compiler's let reads the new x, which holds nothing. */
  lemma LetWrong(p: Program, fuel: nat, x: string, e: Expr, env: Env)
    requires |env| >= p.nstatics && Leads(x, e)
    ensures RunStmt(p, fuel, Let(x, Some(e)), env) == SWrong
  {
    hide Eval;
    NewestUndefined(p, fuel, x, e, env);
  }

  lemma {:induction false} NewestUndefined(p: Program, fuel: nat, x: string, e: Expr, env: Env)
    requires |env| >= p.nstatics && Leads(x, e)
    ensures Eval(p, fuel, e, env + [Entry(x, None)]) == Wrong
    decreases e
  {
    match e
    case Var(_) =>
    case Unary(_, e1) => NewestUndefined(p, fuel, x, e1, env);
    case Binary(_, l, _) => NewestUndefined(p, fuel, x, l, env);
    case AndAlso(l, _) => NewestUndefined(p, fuel, x, l, env);
    case OrElse(l, _) => NewestUndefined(p, fuel, x, l, env);
    case Assign(_, e1) => NewestUndefined(p, fuel, x, e1, env);
    case OpAssign(_, _, _) =>
    case Call(_, args) => NewestUndefined(p, fuel, x, args.e, env);
  }

  /** let x = 1; let x = x + 1: ordinary scoping gives 2, the compiler's meaning gives nothing. */
  lemma LetTwice(p: Program, fuel: nat, env: Env)
    requires |env| >= p.nstatics
    ensures var again := Binary(Add, Var("x"), Const(1));
      var env1 := env + [Entry("x", Some(1))];
      RunStmt(p, fuel, Let("x", Some(Const(1))), env) == Done(Normal, env1, 0) &&
      OrdinaryLet(p, fuel, "x", again, env1) == Done(Normal, env1 + [Entry("x", Some(2))], 4) &&
      RunStmt(p, fuel, Let("x", Some(again)), env1) == SWrong
  {
    LetOrdinary(p, fuel, "x", Const(1), env);
    var again := Binary(Add, Var("x"), Const(1));
    var env1 := env + [Entry("x", Some(1))];
    EvalBinary(p, fuel, again, env1);
    LetWrong(p, fuel, "x", again, env1);
  }

  // ---- for --------------------------------------------------------------------------------------

  /** for x in lo..hi as ordinary scoping has it: hi does not see the iterator. */
  function OrdinaryFor(p: Program, fuel: nat, x: string, lo: Expr, hi: Expr, body: Stmts, env: Env): SRes
    requires |env| >= p.nstatics
  {
    var a := Eval(p, fuel, lo, env);
    if !a.Val? then Failed(a)
    else
      var b := Eval(p, fuel, hi, a.env);
      if !b.Val? then SDeepen(Failed(b), a.need)
      else
        Scoped(SDeepen(RunFor(p, fuel, body, b.v, b.env + [Entry(x, Some(a.v))]), Max(a.need, b.need)), |env|)
  }

  /** If x does not occur in hi, the compiler's for is the ordinary one. */
  lemma ForOrdinary(p: Program, fuel: nat, x: string, lo: Expr, hi: Expr, body: Stmts, env: Env)
    requires |env| >= p.nstatics && !Occurs(x, hi)
    ensures RunStmt(p, fuel, For(x, lo, hi, body), env) == OrdinaryFor(p, fuel, x, lo, hi, body, env)
  {
    hide Eval, RunFor;
    var a := Eval(p, fuel, lo, env);
    if a.Val? {
      EvalWith(p, fuel, hi, a.env, Entry(x, Some(a.v)));
    }
  }

  /** for x in lo..x: the limit is the iterator's own start value, so there are no rounds,
      whatever the x outside the loop holds. */
  lemma ForNoRounds(p: Program, fuel: nat, x: string, lo: Expr, body: Stmts, env: Env)
    requires |env| >= p.nstatics && fuel > 0
    ensures var a := Eval(p, fuel, lo, env);
      RunStmt(p, fuel, For(x, lo, Var(x), body), env) ==
        if a.Val? then Done(Normal, a.env, Max(a.need, 4)) else Failed(a)
  {
    var a := Eval(p, fuel, lo, env);
    if a.Val? {
      var env1 := a.env + [Entry(x, Some(a.v))];
      assert Eval(p, fuel, Var(x), env1) == Val(a.v, env1, 0);
      assert RunFor(p, fuel, body, a.v, env1) == Done(Normal, env1, 4);
      assert env1[..|env|] == a.env;
    }
  }
}
