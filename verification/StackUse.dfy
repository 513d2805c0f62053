/** How much stack a run needs: what its expressions push and, for every call that is open at
    one time, the frame of the function and what its body pushes. */
module StackUse {
  import opened Base
  import opened Bindings
  import opened Word
  import opened Source

  /** The bytes an expression pushes at most, without the functions it calls. */
  function Pushed(e: Expr): nat {
    match e
    case Const(_) | Str(_, _) | Var(_) => 0
    case Unary(_, e1) => Pushed(e1)
    case Binary(_, l, r) => Max(Pushed(l), 4 + Pushed(r))
    case AndAlso(l, r) => Max(Pushed(l), Pushed(r))
    case OrElse(l, r) => Max(Pushed(l), Pushed(r))
    case Assign(_, e1) => Pushed(e1)
    case OpAssign(_, _, e1) => 4 + Pushed(e1)
    case Call(_, args) => ArgsPushed(args)
  }

  function ArgsPushed(args: Exprs): (n: nat)
    ensures n >= 4 * ArgCount(args)
  {
    match args
    case ENil => 0
    case ECons(e, rest) => Max(Pushed(e), 4 + ArgsPushed(rest))
  }

  function MayPush(e: Option<Expr>): nat {
    if e.Some? then Pushed(e.value) else 0
  }

  function StmtPushed(s: Stmt): nat {
    match s
    case Do(e) => Pushed(e)
    case Let(_, init) => MayPush(init)
    case If(c, thn, els) => Max(Pushed(c), Max(ListPushed(thn), if els.Some? then ListPushed(els.value) else 0))
    case While(c, body) => Max(Pushed(c), ListPushed(body))
    case Loop(body) => ListPushed(body)
    case For(_, lo, hi, body) => Max(4, Max(Max(Pushed(lo), Pushed(hi)), ListPushed(body)))
    case Match(e, arms) => Max(Pushed(e), ArmsPushed(arms))
    case Block(body) => ListPushed(body)
    case Break | Continue => 0
    case Return(e) => MayPush(e)
  }

  function ListPushed(ss: Stmts): nat {
    if ss.SNil? then 0 else Max(StmtPushed(ss.s), ListPushed(ss.rest))
  }

  function ArmsPushed(arms: Arms): nat {
    if arms.ANil? then 0
    else Max(MayPush(arms.pat), Max(ListPushed(arms.body), ArmsPushed(arms.rest)))
  }

  /** No function takes more than c bytes: return address, saved EBP, frame, and what it pushes. */
  ghost predicate AtMost(p: Program, c: nat) {
    forall f :: f in p.funcs ==> 8 + p.funcs[f].frame + ListPushed(p.funcs[f].body) <= c
  }

  function Calls(n: nat, c: nat): nat {
    if n == 0 then 0 else Calls(n - 1, c) + c
  }

  predicate Uses(r: ERes, n: nat) {
    !r.Wrong? ==> r.need <= n
  }

  predicate SUses(r: SRes, n: nat) {
    !r.SWrong? ==> r.need <= n
  }

  lemma {:induction false} EvalUses(p: Program, fuel: nat, e: Expr, env: Env, c: nat)
    requires |env| >= p.nstatics && AtMost(p, c)
    ensures Uses(Eval(p, fuel, e, env), Pushed(e) + Calls(fuel, c))
    decreases fuel, e, 1
  {
    hide Find, ReadVar, WriteVar, Invoke, BinVal, UnVal, AtMost;
    match e
    case Const(_) =>
    case Str(_, _) =>
    case Var(_) =>
    case Unary(_, e1) => EvalUses(p, fuel, e1, env, c);
    case Binary(_, l, r) => BothUse(p, fuel, e, env, c);
    case AndAlso(l, r) => BothUse(p, fuel, e, env, c);
    case OrElse(l, r) => BothUse(p, fuel, e, env, c);
    case Assign(_, e1) => EvalUses(p, fuel, e1, env, c);
    case OpAssign(_, _, e1) => EvalUses(p, fuel, e1, env, c);
    case Call(_, _) => CallUses(p, fuel, e, env, c);
  }

  lemma {:induction false} CallUses(p: Program, fuel: nat, e: Expr, env: Env, c: nat)
    requires e.Call? && |env| >= p.nstatics && AtMost(p, c)
    ensures Uses(Eval(p, fuel, e, env), Pushed(e) + Calls(fuel, c))
    decreases fuel, e, 0
  {
    hide Eval, EvalArgs, Invoke, AtMost;
    EvalCall(p, fuel, e, env);
    ArgsUse(p, fuel, e.args, env, c);
    var a := EvalArgs(p, fuel, e.args, env);
    if a.Vals? && fuel > 0 {
      InvokeUses(p, fuel - 1, e.f, a.vs, a.env[..p.nstatics], c);
    }
  }

  lemma {:induction false} BothUse(p: Program, fuel: nat, e: Expr, env: Env, c: nat)
    requires e.Binary? || e.AndAlso? || e.OrElse?
    requires |env| >= p.nstatics && AtMost(p, c)
    ensures var a := Eval(p, fuel, e.l, env);
      Uses(a, Pushed(e.l) + Calls(fuel, c)) &&
      (a.Val? ==> Uses(Eval(p, fuel, e.r, a.env), Pushed(e.r) + Calls(fuel, c)))
    decreases fuel, e, 0
  {
    hide Eval, AtMost;
    EvalUses(p, fuel, e.l, env, c);
    var a := Eval(p, fuel, e.l, env);
    if a.Val? {
      EvalUses(p, fuel, e.r, a.env, c);
    }
  }

  lemma {:induction false} ArgsUse(p: Program, fuel: nat, args: Exprs, env: Env, c: nat)
    requires |env| >= p.nstatics && AtMost(p, c)
    ensures var a := EvalArgs(p, fuel, args, env);
      !a.AWrong? ==> a.need <= ArgsPushed(args) + Calls(fuel, c)
    decreases fuel, args, 0
  {
    hide Eval, AtMost;
    if args.ECons? {
      EvalUses(p, fuel, args.e, env, c);
      var r := Eval(p, fuel, args.e, env);
      if r.Val? {
        ArgsUse(p, fuel, args.rest, r.env, c);
      }
    }
  }

  /** A function needs c bytes, and c more for every call it may still nest. */
  lemma {:induction false} InvokeUses(p: Program, fuel: nat, f: string, vs: seq<word>, statics: Env, c: nat)
    requires |statics| == p.nstatics && AtMost(p, c)
    ensures Uses(Invoke(p, fuel, f, vs, statics), Calls(fuel + 1, c))
    decreases fuel, BodyOf(p, f), 1
  {
    hide RunList;
    if f in p.funcs && |p.funcs[f].params| == |vs| {
      ListUses(p, fuel, p.funcs[f].body, statics + Bind(p.funcs[f].params, vs), c);
    }
  }

  lemma {:induction false} ListUses(p: Program, fuel: nat, ss: Stmts, env: Env, c: nat)
    requires |env| >= p.nstatics && AtMost(p, c)
    ensures SUses(RunList(p, fuel, ss, env), ListPushed(ss) + Calls(fuel, c))
    decreases fuel, ss, 0
  {
    hide RunStmt, AtMost;
    if ss.SCons? {
      StmtUses(p, fuel, ss.s, env, c);
      var r := RunStmt(p, fuel, ss.s, env);
      if r.Done? && r.ctl.Normal? {
        ListUses(p, fuel, ss.rest, r.env, c);
      }
    }
  }

  lemma {:induction false} StmtUses(p: Program, fuel: nat, s: Stmt, env: Env, c: nat)
    requires |env| >= p.nstatics && AtMost(p, c)
    ensures SUses(RunStmt(p, fuel, s, env), StmtPushed(s) + Calls(fuel, c))
    decreases fuel, s, 1
  {
    hide Eval, RunList, RunFor, RunArms, AtMost;
    match s
    case Do(e) => EvalUses(p, fuel, e, env, c);
    case Let(x, init) =>
      if init.Some? {
        EvalUses(p, fuel, init.value, env + [Entry(x, None)], c);
      }
    case If(_, _, _) => IfUses(p, fuel, s, env, c);
    case While(_, _) => WhileUses(p, fuel, s, env, c);
    case Loop(body) => LoopUses(p, fuel, s, body, env, c);
    case For(_, _, _, _) => ForStmtUses(p, fuel, s, env, c);
    case Match(e, arms) =>
      EvalUses(p, fuel, e, env, c);
      var r := Eval(p, fuel, e, env);
      if r.Val? {
        ArmsUse(p, fuel, arms, r.v, r.env, c);
      }
    case Block(body) => ListUses(p, fuel, body, env, c);
    case Break =>
    case Continue =>
    case Return(e) =>
      if e.Some? {
        EvalUses(p, fuel, e.value, env, c);
      }
  }

  lemma {:induction false} IfUses(p: Program, fuel: nat, s: Stmt, env: Env, c: nat)
    requires s.If? && |env| >= p.nstatics && AtMost(p, c)
    ensures SUses(RunStmt(p, fuel, s, env), StmtPushed(s) + Calls(fuel, c))
    decreases fuel, s, 0
  {
    hide Eval, RunList, AtMost;
    EvalUses(p, fuel, s.c, env, c);
    var r := Eval(p, fuel, s.c, env);
    if r.Val? {
      ListUses(p, fuel, s.thn, r.env, c);
      if s.els.Some? {
        ListUses(p, fuel, s.els.value, r.env, c);
      }
    }
  }

  lemma {:induction false} WhileUses(p: Program, fuel: nat, s: Stmt, env: Env, c: nat)
    requires s.While? && |env| >= p.nstatics && AtMost(p, c)
    ensures SUses(RunStmt(p, fuel, s, env), StmtPushed(s) + Calls(fuel, c))
    decreases fuel, s, 0
  {
    hide Eval, RunList, AtMost;
    EvalUses(p, fuel, s.c, env, c);
    var r := Eval(p, fuel, s.c, env);
    if r.Val? {
      ListUses(p, fuel, s.body, r.env, c);
      var b := RunBlock(p, fuel, s.body, r.env);
      if b.Done? && fuel > 0 {
        StmtUses(p, fuel - 1, s, b.env, c);
      }
    }
  }

  lemma {:induction false} LoopUses(p: Program, fuel: nat, s: Stmt, body: Stmts, env: Env, c: nat)
    requires s == Loop(body) && |env| >= p.nstatics && AtMost(p, c)
    ensures SUses(RunStmt(p, fuel, s, env), StmtPushed(s) + Calls(fuel, c))
    decreases fuel, s, 0
  {
    hide RunList, AtMost;
    ListUses(p, fuel, body, env, c);
    var b := RunBlock(p, fuel, body, env);
    if b.Done? && fuel > 0 {
      StmtUses(p, fuel - 1, s, b.env, c);
    }
  }

  lemma {:induction false} ForStmtUses(p: Program, fuel: nat, s: Stmt, env: Env, c: nat)
    requires s.For? && |env| >= p.nstatics && AtMost(p, c)
    ensures SUses(RunStmt(p, fuel, s, env), StmtPushed(s) + Calls(fuel, c))
    decreases fuel, s, 0
  {
    hide Eval, RunFor, AtMost;
    EvalUses(p, fuel, s.lo, env, c);
    var a := Eval(p, fuel, s.lo, env);
    if a.Val? {
      var env1 := a.env + [Entry(s.x, Some(a.v))];
      EvalUses(p, fuel, s.hi, env1, c);
      var b := Eval(p, fuel, s.hi, env1);
      if b.Val? {
        ForUses(p, fuel, s.body, b.v, b.env, c);
      }
    }
  }

  lemma {:induction false} ForUses(p: Program, fuel: nat, body: Stmts, hi: word, env: Env, c: nat)
    requires |env| > p.nstatics && AtMost(p, c)
    ensures SUses(RunFor(p, fuel, body, hi, env), Max(4, ListPushed(body)) + Calls(fuel, c))
    decreases fuel, body, 1
  {
    hide RunList, Signed, Wrap, AtMost;
    if fuel > 0 {
      ListUses(p, fuel, body, env, c);
      var b := RunBlock(p, fuel, body, env);
      if b.Done? && b.env[|env| - 1].val.Some? {
        ForUses(p, fuel - 1, body, hi, Advanced(b.env), c);
      }
    }
  }

  lemma {:induction false} ArmsUse(p: Program, fuel: nat, arms: Arms, v: word, env: Env, c: nat)
    requires |env| >= p.nstatics && AtMost(p, c)
    ensures SUses(RunArms(p, fuel, arms, v, env), ArmsPushed(arms) + Calls(fuel, c))
    decreases fuel, arms, 0
  {
    hide Eval, RunList, AtMost;
    if arms.ACons? {
      if arms.pat.None? {
        ListUses(p, fuel, arms.body, env, c);
      } else {
        EvalUses(p, fuel, arms.pat.value, env, c);
        var q := Eval(p, fuel, arms.pat.value, env);
        if q.Val? {
          ListUses(p, fuel, arms.body, q.env, c);
          ArmsUse(p, fuel, arms.rest, v, q.env, c);
        }
      }
    }
  }

  /** A run within n calls and loop iterations needs at most n + 1 times what a function takes. */
  lemma {:induction false} CallsAre(n: nat, c: nat)
    ensures Calls(n, c) == n * c
    decreases n
  {
    if n > 0 {
      CallsAre(n - 1, c);
    }
  }
}
