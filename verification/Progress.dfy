/** Which programs have a meaning: those that read only variables with a value, call functions
    with the right number of arguments, break only out of loops and return values. */
module Progress {
  import opened Base
  import opened Bindings
  import opened Word
  import opened Source

  // ---- a check that looks at the program only -----------------------------------------------

  /** names are the variables that have a value. */
  predicate ExprMeant(p: Program, e: Expr, names: set<string>) {
    match e
    case Const(_) | Str(_, _) => true
    case Var(x) => x in names
    case Unary(_, e1) => ExprMeant(p, e1, names)
    case Binary(_, l, r) => ExprMeant(p, l, names) && ExprMeant(p, r, names)
    case AndAlso(l, r) => ExprMeant(p, l, names) && ExprMeant(p, r, names)
    case OrElse(l, r) => ExprMeant(p, l, names) && ExprMeant(p, r, names)
    case Assign(_, e1) => ExprMeant(p, e1, names)
    case OpAssign(x, _, e1) => x in names && ExprMeant(p, e1, names)
    case Call(f, args) => f in p.funcs && |p.funcs[f].params| == ArgCount(args) && ArgsMeant(p, args, names)
  }

  predicate ArgsMeant(p: Program, args: Exprs, names: set<string>) {
    args.ECons? ==> ExprMeant(p, args.e, names) && ArgsMeant(p, args.rest, names)
  }

  /** The variables with a value after a statement. */
  function After(s: Stmt, names: set<string>): set<string> {
    if !s.Let? then names else if s.init.Some? then names + {s.x} else names - {s.x}
  }

  predicate StmtMeant(p: Program, s: Stmt, names: set<string>, inLoop: bool) {
    match s
    case Do(e) => ExprMeant(p, e, names)
    case Let(x, init) => init.Some? ==> ExprMeant(p, init.value, names - {x})
    case If(c, thn, els) =>
      ExprMeant(p, c, names) && ListMeant(p, thn, names, inLoop) &&
      (els.Some? ==> ListMeant(p, els.value, names, inLoop))
    case While(c, body) => ExprMeant(p, c, names) && ListMeant(p, body, names, true)
    case Loop(body) => ListMeant(p, body, names, true)
    case For(x, lo, hi, body) =>
      ExprMeant(p, lo, names) && ExprMeant(p, hi, names + {x}) && ListMeant(p, body, names + {x}, true)
    case Match(e, arms) => ExprMeant(p, e, names) && ArmsMeant(p, arms, names, inLoop)
    case Block(body) => ListMeant(p, body, names, inLoop)
    case Break | Continue => inLoop
    case Return(e) => e.Some? && ExprMeant(p, e.value, names)
  }

  predicate ListMeant(p: Program, ss: Stmts, names: set<string>, inLoop: bool) {
    ss.SCons? ==> StmtMeant(p, ss.s, names, inLoop) && ListMeant(p, ss.rest, After(ss.s, names), inLoop)
  }

  predicate ArmsMeant(p: Program, arms: Arms, names: set<string>, inLoop: bool) {
    arms.ACons? ==>
      (arms.pat.Some? ==> ExprMeant(p, arms.pat.value, names)) && ListMeant(p, arms.body, names, inLoop) &&
      ArmsMeant(p, arms.rest, names, inLoop)
  }

  function Params(f: Func): set<string> {
    set x | x in f.params
  }

  /** Every function passes, if the statics in g have a value. */
  ghost predicate Meant(p: Program, g: set<string>) {
    forall f :: f in p.funcs ==> ListMeant(p, p.funcs[f].body, g + Params(p.funcs[f]), false)
  }

  // ---- environments ---------------------------------------------------------------------------

  ghost predicate Knows(env: Env, names: set<string>) {
    forall x :: x in names ==> ReadVar(env, x).Some?
  }

  /** Nothing is renamed or loses its value; env' may be longer. */
  ghost predicate Keeps(env: Env, env': Env) {
    |env| <= |env'| &&
    forall k :: 0 <= k < |env| ==> env'[k].name == env[k].name && (env[k].val.Some? ==> env'[k].val.Some?)
  }

  lemma KnowsOn(env: Env, env': Env, names: set<string>)
    requires Keeps(env, env') && |env| == |env'| && Knows(env, names)
    ensures Knows(env', names)
  {
    hide Find;
    forall x | x in names ensures ReadVar(env', x).Some? {
      FindSame(env, env', x);
      assert ReadVar(env, x).Some?;
    }
  }

  lemma WriteKeeps(env: Env, x: string, v: word)
    ensures Keeps(env, WriteVar(env, x, v))
  {
    hide Find;
  }

  lemma KeepsOn(a: Env, b: Env, c: Env)
    requires Keeps(a, b) && Keeps(b, c)
    ensures Keeps(a, c)
  {
  }

  lemma KnowsNew(env: Env, x: string, v: Option<word>, names: set<string>)
    requires Knows(env, names)
    ensures Knows(env + [Entry(x, v)], if v.Some? then names + {x} else names - {x})
  {
    var env' := env + [Entry(x, v)];
    assert env'[..|env|] == env;
    forall y | y in (if v.Some? then names + {x} else names - {x}) ensures ReadVar(env', y).Some? {
      if y != x {
        assert ReadVar(env, y).Some?;
      }
    }
  }

  /** The environment of a function. */
  lemma KnowsParams(statics: Env, params: seq<string>, vs: seq<word>, g: set<string>)
    requires |params| == |vs| && Knows(statics, g)
    ensures Knows(statics + Bind(params, vs), g + set x | x in params)
  {
    hide Find;
    var b := Bind(params, vs);
    forall x | x in g + set y | y in params ensures ReadVar(statics + b, x).Some? {
      FindOn(statics, b, x);
      if x in params {
        var k :| 0 <= k < |params| && params[k] == x;
        assert b[k].name == x;
        FindNamed(b, k);
      } else {
        assert ReadVar(statics, x).Some?;
      }
    }
  }

  // ---- progress ---------------------------------------------------------------------------------

  predicate Leaves(ctl: Ctl, inLoop: bool) {
    match ctl
    case Normal => true
    case Returned(v) => v.Some?
    case _ => inLoop
  }

  /** What is known before a step: its variables and the statics. */
  ghost predicate Ready(p: Program, g: set<string>, env: Env, names: set<string>) {
    Meant(p, g) && |env| >= p.nstatics && Knows(env, names) && Knows(env[..p.nstatics], g)
  }

  lemma ReadyOn(p: Program, g: set<string>, env: Env, names: set<string>, env': Env)
    requires Ready(p, g, env, names) && Keeps(env, env') && |env| == |env'|
    ensures Ready(p, g, env', names)
  {
    hide Meant, Knows;
    KnowsOn(env, env', names);
    KnowsOn(env[..p.nstatics], env'[..p.nstatics], g);
  }

  lemma ReadyNew(p: Program, g: set<string>, env: Env, names: set<string>, x: string, v: Option<word>)
    requires Ready(p, g, env, names)
    ensures Ready(p, g, env + [Entry(x, v)], if v.Some? then names + {x} else names - {x})
  {
    hide Meant, Knows;
    KnowsNew(env, x, v, names);
    assert (env + [Entry(x, v)])[..p.nstatics] == env[..p.nstatics];
  }

  ghost predicate Went(r: ERes, env: Env) {
    !r.Wrong? && (r.Val? ==> |r.env| == |env| && Keeps(env, r.env))
  }

  /** After a statement or statements that started in env. */
  ghost predicate Ran(r: SRes, env: Env, inLoop: bool) {
    !r.SWrong? && (r.Done? ==> Keeps(env, r.env) && Leaves(r.ctl, inLoop))
  }

  lemma {:induction false} EvalMeant(p: Program, fuel: nat, e: Expr, env: Env, g: set<string>, names: set<string>)
    requires Ready(p, g, env, names) && ExprMeant(p, e, names)
    ensures Went(Eval(p, fuel, e, env), env)
    decreases fuel, e, 1
  {
    hide Find, ReadVar, WriteVar, Invoke, EvalArgs, BinVal, UnVal, Ready, Keeps;
    ReadyIs(p, g, env, names);
    match e
    case Const(_) =>
    case Str(_, _) =>
    case Var(x) =>
    case Unary(_, e1) => EvalMeant(p, fuel, e1, env, g, names);
    case Binary(_, l, r) => BothMeant(p, fuel, e, env, g, names);
    case AndAlso(l, r) => BothMeant(p, fuel, e, env, g, names);
    case OrElse(l, r) => BothMeant(p, fuel, e, env, g, names);
    case Assign(x, e1) =>
      EvalMeant(p, fuel, e1, env, g, names);
      Written(env, Eval(p, fuel, e1, env), x);
    case OpAssign(x, op, e1) =>
      EvalMeant(p, fuel, e1, env, g, names);
      Written(env, Apply(op, ReadVar(env, x).value, Below(Eval(p, fuel, e1, env), 4)), x);
    case Call(_, _) => CallMeant(p, fuel, e, env, g, names);
  }

  lemma ReadyIs(p: Program, g: set<string>, env: Env, names: set<string>)
    requires Ready(p, g, env, names)
    ensures |env| >= p.nstatics && Keeps(env, env) && forall x :: x in names ==> ReadVar(env, x).Some?
  {
  }

  lemma Written(env: Env, r: ERes, x: string)
    requires r.Val? ==> Keeps(env, r.env)
    ensures r.Val? ==> Keeps(env, WriteVar(r.env, x, r.v))
  {
    if r.Val? {
      WriteKeeps(r.env, x, r.v);
      KeepsOn(env, r.env, WriteVar(r.env, x, r.v));
    }
  }

  lemma {:induction false} BothMeant(p: Program, fuel: nat, e: Expr, env: Env, g: set<string>, names: set<string>)
    requires e.Binary? || e.AndAlso? || e.OrElse?
    requires Ready(p, g, env, names) && ExprMeant(p, e, names)
    ensures |env| >= p.nstatics
    ensures var a := Eval(p, fuel, e.l, env);
      Went(a, env) && (a.Val? ==> Went(Eval(p, fuel, e.r, a.env), env))
    decreases fuel, e, 0
  {
    hide Eval, Keeps, Ready;
    EvalMeant(p, fuel, e.l, env, g, names);
    ReadyIs(p, g, env, names);
    var a := Eval(p, fuel, e.l, env);
    if a.Val? {
      ReadyOn(p, g, env, names, a.env);
      EvalMeant(p, fuel, e.r, a.env, g, names);
      var b := Eval(p, fuel, e.r, a.env);
      if b.Val? {
        KeepsOn(env, a.env, b.env);
      }
    }
  }

  lemma {:induction false} ArgsMean(p: Program, fuel: nat, args: Exprs, env: Env, g: set<string>, names: set<string>)
    requires Ready(p, g, env, names) && ArgsMeant(p, args, names)
    ensures |env| >= p.nstatics
    ensures var a := EvalArgs(p, fuel, args, env);
      !a.AWrong? && (a.Vals? ==> Keeps(env, a.env))
    decreases fuel, args, 0
  {
    hide Eval, Keeps, Ready;
    ReadyIs(p, g, env, names);
    if args.ECons? {
      EvalMeant(p, fuel, args.e, env, g, names);
      var r := Eval(p, fuel, args.e, env);
      if r.Val? {
        ReadyOn(p, g, env, names, r.env);
        ArgsMean(p, fuel, args.rest, r.env, g, names);
        var a := EvalArgs(p, fuel, args.rest, r.env);
        if a.Vals? {
          KeepsOn(env, r.env, a.env);
        }
      }
    }
  }

  lemma {:induction false} CallMeant(p: Program, fuel: nat, e: Expr, env: Env, g: set<string>, names: set<string>)
    requires e.Call? && Ready(p, g, env, names) && ExprMeant(p, e, names)
    ensures |env| >= p.nstatics && Went(Eval(p, fuel, e, env), env)
    decreases fuel, e, 0
  {
    hide Eval, EvalArgs, Invoke, Ready, Keeps;
    ReadyIs(p, g, env, names);
    EvalCall(p, fuel, e, env);
    ArgsMean(p, fuel, e.args, env, g, names);
    var a := EvalArgs(p, fuel, e.args, env);
    if a.Vals? && fuel > 0 {
      ReadyOn(p, g, env, names, a.env);
      StaticsReady(p, g, a.env, names);
      InvokeMeant(p, fuel - 1, e.f, a.vs, a.env[..p.nstatics], g);
      var r := Invoke(p, fuel - 1, e.f, a.vs, a.env[..p.nstatics]);
      if r.Val? {
        Rejoined(env, a.env, r.env, p.nstatics);
      }
    }
  }

  lemma StaticsReady(p: Program, g: set<string>, env: Env, names: set<string>)
    requires Ready(p, g, env, names)
    ensures Meant(p, g) && |env| >= p.nstatics && Knows(env[..p.nstatics], g)
  {
  }

  lemma Rejoined(env: Env, a: Env, statics: Env, n: nat)
    requires n <= |a| == |env| && Keeps(env, a) && Keeps(a[..n], statics) && |statics| == n
    ensures Keeps(env, statics + a[n..])
  {
    assert Keeps(a, statics + a[n..]);
    KeepsOn(env, a, statics + a[n..]);
  }

  /** A function called with the right number of arguments has a meaning. */
  lemma {:induction false} InvokeMeant(p: Program, fuel: nat, f: string, vs: seq<word>, statics: Env, g: set<string>)
    requires Meant(p, g) && |statics| == p.nstatics && Knows(statics, g)
    requires f in p.funcs && |p.funcs[f].params| == |vs|
    ensures Went(Invoke(p, fuel, f, vs, statics), statics)
    decreases fuel, BodyOf(p, f), 1
  {
    hide RunList, Knows;
    var fn := p.funcs[f];
    var env := statics + Bind(fn.params, vs);
    KnowsParams(statics, fn.params, vs, g);
    assert env[..p.nstatics] == statics;
    ListRuns(p, fuel, fn.body, env, g, g + Params(fn), false);
  }

  lemma {:induction false} ListRuns(p: Program, fuel: nat, ss: Stmts, env: Env, g: set<string>, names: set<string>,
      inLoop: bool)
    requires Ready(p, g, env, names) && ListMeant(p, ss, names, inLoop)
    ensures |env| >= p.nstatics && Ran(RunList(p, fuel, ss, env), env, inLoop)
    decreases fuel, ss, 0
  {
    hide RunStmt, Ready, Keeps;
    ReadyIs(p, g, env, names);
    if ss.SCons? {
      StmtRuns(p, fuel, ss.s, env, g, names, inLoop);
      var r := RunStmt(p, fuel, ss.s, env);
      if r.Done? && r.ctl.Normal? {
        ListRuns(p, fuel, ss.rest, r.env, g, After(ss.s, names), inLoop);
        var q := RunList(p, fuel, ss.rest, r.env);
        if q.Done? {
          KeepsOn(env, r.env, q.env);
        }
      }
    }
  }

  lemma {:induction false} BlockRuns(p: Program, fuel: nat, ss: Stmts, env: Env, g: set<string>, names: set<string>,
      inLoop: bool)
    requires Ready(p, g, env, names) && ListMeant(p, ss, names, inLoop)
    ensures |env| >= p.nstatics
    ensures var r := RunBlock(p, fuel, ss, env);
      Ran(r, env, inLoop) && (r.Done? ==> |r.env| == |env| && Ready(p, g, r.env, names))
    decreases fuel, ss, 1
  {
    hide RunList, Ready;
    ListRuns(p, fuel, ss, env, g, names, inLoop);
    var r := RunBlock(p, fuel, ss, env);
    if r.Done? {
      ReadyOn(p, g, env, names, r.env);
    }
  }

  /** The same with what is known afterwards. */
  ghost predicate RanOn(p: Program, g: set<string>, r: SRes, env: Env, names: set<string>, inLoop: bool) {
    Ran(r, env, inLoop) && (r.Done? && r.ctl.Normal? ==> Ready(p, g, r.env, names))
  }

  lemma {:induction false} EvalGoes(p: Program, fuel: nat, e: Expr, env: Env, g: set<string>, names: set<string>)
    requires Ready(p, g, env, names) && ExprMeant(p, e, names)
    ensures |env| >= p.nstatics
    ensures var r := Eval(p, fuel, e, env);
      !r.Wrong? && (r.Val? ==> Keeps(env, r.env) && Ready(p, g, r.env, names))
    decreases fuel, e, 2
  {
    hide Eval, Ready, Keeps;
    EvalMeant(p, fuel, e, env, g, names);
    ReadyIs(p, g, env, names);
    var r := Eval(p, fuel, e, env);
    if r.Val? {
      ReadyOn(p, g, env, names, r.env);
    }
  }

  lemma {:induction false} StmtRuns(p: Program, fuel: nat, s: Stmt, env: Env, g: set<string>, names: set<string>,
      inLoop: bool)
    requires Ready(p, g, env, names) && StmtMeant(p, s, names, inLoop)
    ensures |env| >= p.nstatics && RanOn(p, g, RunStmt(p, fuel, s, env), env, After(s, names), inLoop)
    decreases fuel, s, 1
  {
    hide Eval, RunList, RunBlock, RunArms, RunFor, Ready, Keeps;
    ReadyIs(p, g, env, names);
    match s
    case Do(e) => EvalGoes(p, fuel, e, env, g, names);
    case Let(_, _) => LetRuns(p, fuel, s, env, g, names, inLoop);
    case If(_, _, _) => IfRuns(p, fuel, s, env, g, names, inLoop);
    case While(_, _) => WhileRuns(p, fuel, s, env, g, names, inLoop);
    case Loop(_) => LoopRuns(p, fuel, s, env, g, names, inLoop);
    case For(_, _, _, _) => ForStmtRuns(p, fuel, s, env, g, names, inLoop);
    case Match(_, _) => MatchRuns(p, fuel, s, env, g, names, inLoop);
    case Block(body) => BlockRuns(p, fuel, body, env, g, names, inLoop);
    case Break =>
    case Continue =>
    case Return(e) => EvalGoes(p, fuel, e.value, env, g, names);
  }

  lemma {:induction false} LetRuns(p: Program, fuel: nat, s: Stmt, env: Env, g: set<string>, names: set<string>,
      inLoop: bool)
    requires s.Let? && Ready(p, g, env, names) && StmtMeant(p, s, names, inLoop)
    ensures |env| >= p.nstatics && RanOn(p, g, RunStmt(p, fuel, s, env), env, After(s, names), inLoop)
    decreases fuel, s, 0
  {
    hide Eval, Ready, Keeps;
    ReadyIs(p, g, env, names);
    var env1 := env + [Entry(s.x, None)];
    ReadyNew(p, g, env, names, s.x, None);
    KeepsNew(env, Entry(s.x, None));
    if s.init.Some? {
      EvalGoes(p, fuel, s.init.value, env1, g, names - {s.x});
      var r := Eval(p, fuel, s.init.value, env1);
      if r.Val? {
        NewHasValue(p, g, env, names, s.x, r.env, r.v);
      }
    }
  }

  lemma KeepsNew(env: Env, e: Entry<Option<word>>)
    ensures Keeps(env, env + [e])
  {
  }

  /** After its initialiser the new variable has a value. */
  lemma NewHasValue(p: Program, g: set<string>, env: Env, names: set<string>, x: string, env1: Env, v: word)
    requires Ready(p, g, env1, names - {x}) && |env1| == |env| + 1 && p.nstatics <= |env|
    requires Keeps(env + [Entry(x, None)], env1)
    ensures var env2 := env1[|env| := Entry(x, Some(v))];
      Keeps(env, env2) && Ready(p, g, env2, names + {x})
  {
    hide Meant;
    var n := |env|;
    var env2 := env1[n := Entry(x, Some(v))];
    assert (env + [Entry(x, None)])[n] == Entry(x, None);
    forall k | 0 <= k < n ensures env2[k].name == env[k].name && (env[k].val.Some? ==> env2[k].val.Some?) {
      assert (env + [Entry(x, None)])[k] == env[k];
    }
    ReadyOn(p, g, env1, names - {x}, env2);
    assert ReadVar(env2, x).Some?;
  }

  lemma {:induction false} IfRuns(p: Program, fuel: nat, s: Stmt, env: Env, g: set<string>, names: set<string>,
      inLoop: bool)
    requires s.If? && Ready(p, g, env, names) && StmtMeant(p, s, names, inLoop)
    ensures |env| >= p.nstatics && RanOn(p, g, RunStmt(p, fuel, s, env), env, names, inLoop)
    decreases fuel, s, 0
  {
    hide Eval, RunBlock, Ready, Keeps;
    EvalGoes(p, fuel, s.c, env, g, names);
    var r := Eval(p, fuel, s.c, env);
    if r.Val? {
      BlockFrom(p, fuel, s.thn, env, r.env, g, names, inLoop);
      if s.els.Some? {
        BlockFrom(p, fuel, s.els.value, env, r.env, g, names, inLoop);
      }
    }
  }

  /** A block after something else. */
  lemma {:induction false} BlockFrom(p: Program, fuel: nat, ss: Stmts, env0: Env, env: Env, g: set<string>,
      names: set<string>, inLoop: bool)
    requires Keeps(env0, env) && Ready(p, g, env, names) && ListMeant(p, ss, names, inLoop)
    ensures |env| >= p.nstatics
    ensures var r := RunBlock(p, fuel, ss, env);
      Ran(r, env0, inLoop) && (r.Done? ==> Ready(p, g, r.env, names))
    decreases fuel, ss, 2
  {
    hide RunBlock, Ready, Keeps;
    BlockRuns(p, fuel, ss, env, g, names, inLoop);
    var r := RunBlock(p, fuel, ss, env);
    if r.Done? {
      KeepsOn(env0, env, r.env);
    }
  }

  lemma {:induction false} WhileRuns(p: Program, fuel: nat, s: Stmt, env: Env, g: set<string>, names: set<string>,
      inLoop: bool)
    requires s.While? && Ready(p, g, env, names) && StmtMeant(p, s, names, inLoop)
    ensures |env| >= p.nstatics && RanOn(p, g, RunStmt(p, fuel, s, env), env, names, inLoop)
    decreases fuel, s, 0
  {
    hide Eval, RunBlock, Ready, Keeps;
    EvalGoes(p, fuel, s.c, env, g, names);
    var r := Eval(p, fuel, s.c, env);
    if r.Val? && fuel > 0 {
      BlockFrom(p, fuel, s.body, env, r.env, g, names, true);
      var b := RunBlock(p, fuel, s.body, r.env);
      if b.Done? {
        Again(p, fuel - 1, s, env, b.env, g, names, inLoop);
      }
    }
  }

  lemma {:induction false} Again(p: Program, fuel: nat, s: Stmt, env0: Env, env: Env, g: set<string>,
      names: set<string>, inLoop: bool)
    requires !s.Let? && Keeps(env0, env) && Ready(p, g, env, names) && StmtMeant(p, s, names, inLoop)
    ensures |env| >= p.nstatics && RanOn(p, g, RunStmt(p, fuel, s, env), env0, names, inLoop)
    decreases fuel, s, 2
  {
    hide RunStmt, Ready, Keeps;
    StmtRuns(p, fuel, s, env, g, names, inLoop);
    var r := RunStmt(p, fuel, s, env);
    if r.Done? {
      KeepsOn(env0, env, r.env);
    }
  }

  lemma {:induction false} LoopRuns(p: Program, fuel: nat, s: Stmt, env: Env, g: set<string>, names: set<string>,
      inLoop: bool)
    requires s.Loop? && Ready(p, g, env, names) && StmtMeant(p, s, names, inLoop)
    ensures |env| >= p.nstatics && RanOn(p, g, RunStmt(p, fuel, s, env), env, names, inLoop)
    decreases fuel, s, 0
  {
    hide RunBlock, Ready, Keeps;
    ReadyIs(p, g, env, names);
    BlockRuns(p, fuel, s.body, env, g, names, true);
    var b := RunBlock(p, fuel, s.body, env);
    if b.Done? && fuel > 0 {
      Again(p, fuel - 1, s, env, b.env, g, names, inLoop);
    }
  }

  lemma {:induction false} ForStmtRuns(p: Program, fuel: nat, s: Stmt, env: Env, g: set<string>, names: set<string>,
      inLoop: bool)
    requires s.For? && Ready(p, g, env, names) && StmtMeant(p, s, names, inLoop)
    ensures |env| >= p.nstatics && RanOn(p, g, RunStmt(p, fuel, s, env), env, names, inLoop)
    decreases fuel, s, 0
  {
    hide Eval, RunFor, Ready, Keeps;
    EvalGoes(p, fuel, s.lo, env, g, names);
    var a := Eval(p, fuel, s.lo, env);
    if a.Val? {
      var env1 := a.env + [Entry(s.x, Some(a.v))];
      ReadyNew(p, g, a.env, names, s.x, Some(a.v));
      EvalGoes(p, fuel, s.hi, env1, g, names + {s.x});
      var b := Eval(p, fuel, s.hi, env1);
      if b.Val? {
        LastHasValue(env1, b.env);
        ForRuns(p, fuel, s.body, b.v, b.env, g, names + {s.x});
        var r := RunFor(p, fuel, s.body, b.v, b.env);
        if r.Done? {
          KeepsOn(env1, b.env, r.env);
          ScopeLeft(p, g, env, names, a.env, Entry(s.x, Some(a.v)), r.env);
        }
      }
    }
  }

  lemma LastHasValue(env: Env, env': Env)
    requires |env| == |env'| > 0 && Keeps(env, env') && env[|env| - 1].val.Some?
    ensures env'[|env| - 1].val.Some?
  {
  }

  lemma ScopeLeft(p: Program, g: set<string>, env: Env, names: set<string>, a: Env, e: Entry<Option<word>>, r: Env)
    requires Ready(p, g, env, names) && |a| == |env| && Keeps(env, a) && |r| == |env| + 1 && Keeps(a + [e], r)
    ensures Keeps(env, r[..|env|]) && Ready(p, g, r[..|env|], names)
  {
    hide Ready;
    var q := r[..|env|];
    forall k | 0 <= k < |a| ensures q[k].name == a[k].name && (a[k].val.Some? ==> q[k].val.Some?) {
      assert (a + [e])[k] == a[k];
    }
    KeepsOn(env, a, q);
    ReadyOn(p, g, env, names, q);
  }

  lemma {:induction false} ForRuns(p: Program, fuel: nat, body: Stmts, hi: word, env: Env, g: set<string>,
      names: set<string>)
    requires Ready(p, g, env, names) && ListMeant(p, body, names, true) && |env| > p.nstatics
    requires env[|env| - 1].val.Some?
    ensures Ran(RunFor(p, fuel, body, hi, env), env, false)
    decreases fuel, body, 3
  {
    hide RunBlock, Ready, Keeps, Signed, Wrap, Advanced;
    ReadyIs(p, g, env, names);
    if fuel > 0 {
      BlockRuns(p, fuel, body, env, g, names, true);
      var b := RunBlock(p, fuel, body, env);
      if b.Done? {
        LastHasValue(env, b.env);
        NextRound(p, g, env, names, b.env);
        ForRuns(p, fuel - 1, body, hi, Advanced(b.env), g, names);
        var r := RunFor(p, fuel - 1, body, hi, Advanced(b.env));
        if r.Done? {
          KeepsOn(env, Advanced(b.env), r.env);
        }
      }
    }
  }

  lemma NextRound(p: Program, g: set<string>, env: Env, names: set<string>, env1: Env)
    requires Ready(p, g, env1, names) && |env| == |env1| > 0 && Keeps(env, env1) && env1[|env1| - 1].val.Some?
    ensures var env2 := Advanced(env1);
      Keeps(env, env2) && Ready(p, g, env2, names) && env2[|env2| - 1].val.Some?
  {
    hide Ready, Wrap;
    ReadyOn(p, g, env1, names, Advanced(env1));
  }

  lemma {:induction false} MatchRuns(p: Program, fuel: nat, s: Stmt, env: Env, g: set<string>, names: set<string>,
      inLoop: bool)
    requires s.Match? && Ready(p, g, env, names) && StmtMeant(p, s, names, inLoop)
    ensures |env| >= p.nstatics && RanOn(p, g, RunStmt(p, fuel, s, env), env, names, inLoop)
    decreases fuel, s, 0
  {
    hide Eval, RunArms, Ready, Keeps;
    EvalGoes(p, fuel, s.e, env, g, names);
    var r := Eval(p, fuel, s.e, env);
    if r.Val? {
      ArmsRun(p, fuel, s.arms, r.v, env, r.env, g, names, inLoop);
    }
  }

  lemma {:induction false} ArmsRun(p: Program, fuel: nat, arms: Arms, v: word, env0: Env, env: Env, g: set<string>,
      names: set<string>, inLoop: bool)
    requires Keeps(env0, env) && Ready(p, g, env, names) && ArmsMeant(p, arms, names, inLoop)
    ensures |env| >= p.nstatics && RanOn(p, g, RunArms(p, fuel, arms, v, env), env0, names, inLoop)
    decreases fuel, arms, 0
  {
    hide Eval, RunBlock, Ready, Keeps;
    ReadyIs(p, g, env, names);
    if arms.ACons? {
      if arms.pat.None? {
        BlockFrom(p, fuel, arms.body, env0, env, g, names, inLoop);
      } else {
        EvalGoes(p, fuel, arms.pat.value, env, g, names);
        var q := Eval(p, fuel, arms.pat.value, env);
        if q.Val? {
          KeepsOn(env0, env, q.env);
          BlockFrom(p, fuel, arms.body, env0, q.env, g, names, inLoop);
          ArmsRun(p, fuel, arms.rest, v, env0, q.env, g, names, inLoop);
        }
      }
    }
  }
}
