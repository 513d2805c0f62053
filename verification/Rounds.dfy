/** A source run that is out of fuel has spent all of it: as many calls and loop iterations
    as it was given. */
module Rounds {
  import opened Base
  import opened Bindings
  import opened Word
  import opened Source

  predicate Spent(r: ERes, fuel: nat) {
    r.Timeout? ==> r.rounds == fuel
  }

  predicate SSpent(r: SRes, fuel: nat) {
    r.STimeout? ==> r.rounds == fuel
  }

  lemma {:induction false} EvalSpends(p: Program, fuel: nat, e: Expr, env: Env)
    requires |env| >= p.nstatics
    ensures Spent(Eval(p, fuel, e, env), fuel)
    decreases fuel, e, 1
  {
    hide Find, ReadVar, WriteVar, Invoke, BinVal;
    match e
    case Const(_) =>
    case Str(_, _) =>
    case Var(_) =>
    case Unary(_, e1) => EvalSpends(p, fuel, e1, env);
    case Binary(_, l, r) => BothSpend(p, fuel, e, env);
    case AndAlso(l, r) => BothSpend(p, fuel, e, env);
    case OrElse(l, r) => BothSpend(p, fuel, e, env);
    case Assign(_, e1) => EvalSpends(p, fuel, e1, env);
    case OpAssign(_, _, e1) => EvalSpends(p, fuel, e1, env);
    case Call(f, args) =>
      ArgsSpend(p, fuel, args, env);
      var a := EvalArgs(p, fuel, args, env);
      if a.Vals? && fuel > 0 {
        InvokeSpends(p, fuel - 1, f, a.vs, a.env[..p.nstatics]);
      }
  }

  lemma {:induction false} BothSpend(p: Program, fuel: nat, e: Expr, env: Env)
    requires e.Binary? || e.AndAlso? || e.OrElse?
    requires |env| >= p.nstatics
    ensures var a := Eval(p, fuel, e.l, env);
      Spent(a, fuel) && (a.Val? ==> Spent(Eval(p, fuel, e.r, a.env), fuel))
    decreases fuel, e, 0
  {
    hide Eval;
    EvalSpends(p, fuel, e.l, env);
    var a := Eval(p, fuel, e.l, env);
    if a.Val? {
      EvalSpends(p, fuel, e.r, a.env);
    }
  }

  lemma {:induction false} ArgsSpend(p: Program, fuel: nat, args: Exprs, env: Env)
    requires |env| >= p.nstatics
    ensures var a := EvalArgs(p, fuel, args, env);
      a.ATimeout? ==> a.rounds == fuel
    decreases fuel, args, 0
  {
    hide Eval;
    if args.ECons? {
      EvalSpends(p, fuel, args.e, env);
      var r := Eval(p, fuel, args.e, env);
      if r.Val? {
        ArgsSpend(p, fuel, args.rest, r.env);
      }
    }
  }

  lemma {:induction false} InvokeSpends(p: Program, fuel: nat, f: string, vs: seq<word>, statics: Env)
    requires |statics| == p.nstatics
    ensures Spent(Invoke(p, fuel, f, vs, statics), fuel)
    decreases fuel, BodyOf(p, f), 1
  {
    hide RunList;
    if f in p.funcs && |p.funcs[f].params| == |vs| {
      ListSpends(p, fuel, p.funcs[f].body, statics + Bind(p.funcs[f].params, vs));
    }
  }

  lemma {:induction false} ListSpends(p: Program, fuel: nat, ss: Stmts, env: Env)
    requires |env| >= p.nstatics
    ensures SSpent(RunList(p, fuel, ss, env), fuel)
    decreases fuel, ss, 0
  {
    hide RunStmt;
    if ss.SCons? {
      StmtSpends(p, fuel, ss.s, env);
      var r := RunStmt(p, fuel, ss.s, env);
      if r.Done? && r.ctl.Normal? {
        ListSpends(p, fuel, ss.rest, r.env);
      }
    }
  }

  lemma {:induction false} StmtSpends(p: Program, fuel: nat, s: Stmt, env: Env)
    requires |env| >= p.nstatics
    ensures SSpent(RunStmt(p, fuel, s, env), fuel)
    decreases fuel, s, 1
  {
    hide Eval, RunList, RunFor, RunArms;
    match s
    case Do(e) => EvalSpends(p, fuel, e, env);
    case Let(x, init) =>
      if init.Some? {
        EvalSpends(p, fuel, init.value, env + [Entry(x, None)]);
      }
    case If(c, thn, els) =>
      EvalSpends(p, fuel, c, env);
      var r := Eval(p, fuel, c, env);
      if r.Val? {
        ListSpends(p, fuel, thn, r.env);
        if els.Some? {
          ListSpends(p, fuel, els.value, r.env);
        }
      }
    case While(c, body) =>
      EvalSpends(p, fuel, c, env);
      var r := Eval(p, fuel, c, env);
      if r.Val? {
        LoopSpends(p, fuel, s, body, r.env);
      }
    case Loop(body) => LoopSpends(p, fuel, s, body, env);
    case For(x, lo, hi, body) =>
      EvalSpends(p, fuel, lo, env);
      var a := Eval(p, fuel, lo, env);
      if a.Val? {
        var env1 := a.env + [Entry(x, Some(a.v))];
        EvalSpends(p, fuel, hi, env1);
        var b := Eval(p, fuel, hi, env1);
        if b.Val? {
          ForSpends(p, fuel, body, b.v, b.env);
        }
      }
    case Match(e, arms) =>
      EvalSpends(p, fuel, e, env);
      var r := Eval(p, fuel, e, env);
      if r.Val? {
        ArmsSpend(p, fuel, arms, r.v, r.env);
      }
    case Block(body) => ListSpends(p, fuel, body, env);
    case Break =>
    case Continue =>
    case Return(e) =>
      if e.Some? {
        EvalSpends(p, fuel, e.value, env);
      }
  }

  /** The body of while or loop, and the rounds after it. */
  lemma {:induction false} LoopSpends(p: Program, fuel: nat, s: Stmt, body: Stmts, env: Env)
    requires (s.While? || s.Loop?) && body == s.body && |env| >= p.nstatics
    ensures var b := RunBlock(p, fuel, body, env);
      SSpent(b, fuel) && (b.Done? && fuel > 0 ==> SSpent(SLater(RunStmt(p, fuel - 1, s, b.env)), fuel))
    decreases fuel, s, 0
  {
    hide RunList, RunStmt;
    ListSpends(p, fuel, body, env);
    var b := RunBlock(p, fuel, body, env);
    if b.Done? && fuel > 0 {
      StmtSpends(p, fuel - 1, s, b.env);
    }
  }

  lemma {:induction false} ForSpends(p: Program, fuel: nat, body: Stmts, hi: word, env: Env)
    requires |env| > p.nstatics
    ensures SSpent(RunFor(p, fuel, body, hi, env), fuel)
    decreases fuel, body, 1
  {
    hide RunList, Signed, Wrap;
    if fuel > 0 {
      ListSpends(p, fuel, body, env);
      var b := RunBlock(p, fuel, body, env);
      if b.Done? && b.env[|env| - 1].val.Some? {
        ForSpends(p, fuel - 1, body, hi, Advanced(b.env));
      }
    }
  }

  lemma {:induction false} ArmsSpend(p: Program, fuel: nat, arms: Arms, v: word, env: Env)
    requires |env| >= p.nstatics
    ensures SSpent(RunArms(p, fuel, arms, v, env), fuel)
    decreases fuel, arms, 0
  {
    hide Eval, RunList;
    if arms.ACons? {
      if arms.pat.None? {
        ListSpends(p, fuel, arms.body, env);
      } else {
        EvalSpends(p, fuel, arms.pat.value, env);
        var q := Eval(p, fuel, arms.pat.value, env);
        if q.Val? {
          ListSpends(p, fuel, arms.body, q.env);
          ArmsSpend(p, fuel, arms.rest, v, q.env);
        }
      }
    }
  }
}
