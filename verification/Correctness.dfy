/** Compiler correctness: running the emitted code does what the source means. */
module Correctness {
  import opened Base
  import opened Bindings
  import opened Word
  import opened X86
  import opened Machine
  import opened Source
  import opened Codegen
  import opened Steps
  import opened Simulation

  // ---- expressions ------------------------------------------------------------------

  lemma ExprCorrect(c: Ctx, fuel: nat, e: Expr, env: Env, syms: Symbols, s: State) returns (t: State)
    requires Good(c) && Ready(c, env, syms, s) && ExprCode(c.im.code, s.eip, e, syms, c.labels)
    requires Room(c, s.esp, Eval(c.p, fuel, e, env))
    ensures ExprDone(c, Eval(c.p, fuel, e, env), ExprSize(e), syms, s, t)
    decreases fuel, e, 1
  {
    hide Good, Placed, Sim, Reach, Lasts, Far, Step, BinVal, Apply, Eval, ExprCode, ExprSize;
    match e
    case Const(_) => t := LeafCorrect(c, fuel, e, env, syms, s);
    case Str(_, _) => t := LeafCorrect(c, fuel, e, env, syms, s);
    case Var(_) => t := LeafCorrect(c, fuel, e, env, syms, s);
    case Unary(_, _) => t := UnaryCorrect(c, fuel, e, env, syms, s);
    case Binary(op, l, r) => t := BinaryCorrect(c, fuel, e, env, syms, s);
    case AndAlso(l, r) => t := AndCorrect(c, fuel, e, env, syms, s);
    case OrElse(l, r) => t := OrCorrect(c, fuel, e, env, syms, s);
    case Assign(x, e1) => t := AssignCorrect(c, fuel, e, env, syms, s);
    case OpAssign(x, op, e1) => t := OpAssignCorrect(c, fuel, e, env, syms, s);
    case Call(f, args) => t := CallCorrect(c, fuel, e, env, syms, s);
  }

  lemma LeafCorrect(c: Ctx, fuel: nat, e: Expr, env: Env, syms: Symbols, s: State) returns (t: State)
    requires e.Const? || e.Str? || e.Var?
    requires Good(c) && Ready(c, env, syms, s) && ExprCode(c.im.code, s.eip, e, syms, c.labels)
    requires Room(c, s.esp, Eval(c.p, fuel, e, env))
    ensures ExprDone(c, Eval(c.p, fuel, e, env), ExprSize(e), syms, s, t)
  {
    hide Good, Placed, Sim, Reach, Lasts, Far, Step;
    match e
    case Const(w) =>
      Stay(c.im, s);
      t := SetEax(c.im, s, s, w);
    case Str(_, a) =>
      Stay(c.im, s);
      t := SetEax(c.im, s, s, a);
    case Var(x) => t := VarCorrect(c, env, syms, x, s);
  }

  lemma UnaryCorrect(c: Ctx, fuel: nat, e: Expr, env: Env, syms: Symbols, s: State) returns (t: State)
    requires e.Unary?
    requires Good(c) && Ready(c, env, syms, s) && ExprCode(c.im.code, s.eip, e, syms, c.labels)
    requires Room(c, s.esp, Eval(c.p, fuel, e, env))
    ensures ExprDone(c, Eval(c.p, fuel, e, env), ExprSize(e), syms, s, t)
    decreases fuel, e, 0
  {
    hide Good, Placed, Sim, Keeps, Reach, Lasts, Far, Step, Eval, ExprCode, ExprSize;
    CodeUnary(c.im.code, s.eip, e, syms, c.labels);
    EvalUnary(c.p, fuel, e, env);
    t := ExprCorrect(c, fuel, e.e, env, syms, s);
    if Eval(c.p, fuel, e.e, env).Val? {
      t := UnaryOp(c.im, s, t, e.u);
    }
  }

  /** Load x's value into EAX. */
  lemma VarCorrect(c: Ctx, env: Env, syms: Symbols, x: string, s: State) returns (t: State)
    requires Good(c) && Ready(c, env, syms, s)
    requires Find(syms, x) >= 0 && IsLoad(c.im.code, s.eip, EAX, syms[Find(syms, x)].val)
    requires ReadVar(env, x).Some?
    ensures Reach(c.im, s, t) && t == s.(eax := ReadVar(env, x).value, eip := s.eip + 6)
  {
    var k := Find(syms, x);
    FindSame(env, syms, x);
    VarAligned(c, syms, s.ebp, s.esp, k);
    Stay(c.im, s);
    t := LoadVar(c.im, s, s, EAX, syms[k].val);
  }

  /** With a word pushed, the environment is still represented and has room. */
  lemma PushOperand(c: Ctx, env: Env, syms: Symbols, s0: State, s: State) returns (t: State)
    requires Good(c) && Ready(c, env, syms, s) && Reach(c.im, s0, s)
    requires Here(c.im.code, s.eip, Push(EAX)) && s.esp - 4 >= c.floor
    ensures Reach(c.im, s0, t) && Ready(c, env, syms, t)
    ensures t == s.(esp := s.esp - 4, mem := s.mem[s.esp - 4 := s.eax], eip := s.eip + 1)
    ensures Keeps(s.mem, t.mem, s.esp, syms, s.ebp) && !IsVar(s.esp - 4, syms, s.ebp)
  {
    t := PushEax(c.im, s0, s);
    NotVar(c, syms, s.ebp, s.esp, s.esp - 4);
    StoreElsewhere(s.mem, s.esp - 4, s.eax, env, syms, s.ebp);
    KeepsStep(s.mem, s.esp - 4, s.eax, s.esp, syms, s.ebp);
  }

  /** From a pushed left operand to the operator's result. */
  lemma RightOperand(c: Ctx, fuel: nat, op: BinOp, r: Expr, env: Env, syms: Symbols, s0: State,
                     s: State) returns (t: State)
    requires Good(c) && Ready(c, env, syms, s) && Reach(c.im, s0, s)
    requires Here(c.im.code, s.eip, Push(EAX)) && ExprCode(c.im.code, s.eip + 1, r, syms, c.labels)
    requires OpCode(c.im.code, s.eip + 1 + ExprSize(r), op)
    requires Room(c, s.esp, Apply(op, s.eax, Below(Eval(c.p, fuel, r, env), 4)))
    ensures Reach(c.im, s0, t)
    ensures ExprDone(c, Apply(op, s.eax, Below(Eval(c.p, fuel, r, env), 4)), 1 + ExprSize(r) + 3 + OpSize(op),
      syms, s, t)
    decreases fuel, r, 2
  {
    hide Good, Sim, Reach, Lasts, Far, BinVal, OpCode, Eval, ExprCode;
    var b := Eval(c.p, fuel, r, env);
    Stay(c.im, s);
    var u := PushOperand(c, env, syms, s, s);
    var v := ExprCorrect(c, fuel, r, env, syms, u);
    Then(c.im, s, u, v);
    t := v;
    if b.Val? {
      assert Read(v.mem, s.esp - 4) == s.eax;
      t := Operate(c.im, s, v, op, s.eax);
      KeepsTrans(s.mem, u.mem, v.mem, s.esp, s.esp - 4, syms, s.ebp);
    }
    Then(c.im, s0, s, t);
  }

  lemma BinaryCorrect(c: Ctx, fuel: nat, e: Expr, env: Env, syms: Symbols, s: State) returns (t: State)
    requires e.Binary?
    requires Good(c) && Ready(c, env, syms, s) && ExprCode(c.im.code, s.eip, e, syms, c.labels)
    requires Room(c, s.esp, Eval(c.p, fuel, e, env))
    ensures ExprDone(c, Eval(c.p, fuel, e, env), ExprSize(e), syms, s, t)
    decreases fuel, e, 0
  {
    hide Good, Placed, Sim, Keeps, Reach, Lasts, Far, Step, BinVal, Eval, Apply, ExprCode, ExprSize, OpCode;
    CodeBinary(c.im.code, s.eip, e, syms, c.labels);
    EvalBinary(c.p, fuel, e, env);
    t := ExprCorrect(c, fuel, e.l, env, syms, s);
    var a := Eval(c.p, fuel, e.l, env);
    if a.Val? {
      var m := t.mem;
      t := RightOperand(c, fuel, e.op, e.r, a.env, syms, s, t);
      if Eval(c.p, fuel, e, env).Val? {
        KeepsTrans(s.mem, m, t.mem, s.esp, s.esp, syms, s.ebp);
      }
    }
  }

  /** The right operand of && or ||, made 0 or 1. */
  lemma RightBool(c: Ctx, fuel: nat, r: Expr, env: Env, syms: Symbols, s0: State, s: State) returns (t: State)
    requires Good(c) && Ready(c, env, syms, s) && Reach(c.im, s0, s)
    requires ExprCode(c.im.code, s.eip, r, syms, c.labels) && BoolCode(c.im.code, s.eip + ExprSize(r))
    requires Room(c, s.esp, Eval(c.p, fuel, r, env))
    ensures var b := Eval(c.p, fuel, r, env);
      Reach(c.im, s0, t) &&
      ExprDone(c, if b.Val? then b.(v := BoolWord(b.v != 0)) else b, ExprSize(r) + 11, syms, s, t)
    decreases fuel, r, 2
  {
    hide Good, Placed, Sim, Keeps, Reach, Lasts, Far, Step, BinVal, Eval, ExprCode;
    t := ExprCorrect(c, fuel, r, env, syms, s);
    if Eval(c.p, fuel, r, env).Val? {
      t := ToBool(c.im, s, t);
    }
    Then(c.im, s0, s, t);
  }

  lemma AndCorrect(c: Ctx, fuel: nat, e: Expr, env: Env, syms: Symbols, s: State) returns (t: State)
    requires e.AndAlso?
    requires Good(c) && Ready(c, env, syms, s) && ExprCode(c.im.code, s.eip, e, syms, c.labels)
    requires Room(c, s.esp, Eval(c.p, fuel, e, env))
    ensures ExprDone(c, Eval(c.p, fuel, e, env), ExprSize(e), syms, s, t)
    decreases fuel, e, 0
  {
    hide Good, Placed, Sim, Keeps, Reach, Lasts, Far, Step, BinVal, Eval, ExprCode, ExprSize;
    CodeAnd(c.im.code, s.eip, e, syms, c.labels);
    EvalAnd(c.p, fuel, e, env);
    t := ExprCorrect(c, fuel, e.l, env, syms, s);
    var a := Eval(c.p, fuel, e.l, env);
    if a.Val? {
      var u := Test(c.im, s, t, E, s.eip + ExprSize(e.l) + 11 + ExprSize(e.r) + 11);
      if a.v == 0 {
        t := u;
      } else {
        t := RightBool(c, fuel, e.r, a.env, syms, s, u);
        if Eval(c.p, fuel, e.r, a.env).Val? {
          KeepsTrans(s.mem, u.mem, t.mem, s.esp, s.esp, syms, s.ebp);
        }
      }
    }
  }

  lemma OrCorrect(c: Ctx, fuel: nat, e: Expr, env: Env, syms: Symbols, s: State) returns (t: State)
    requires e.OrElse?
    requires Good(c) && Ready(c, env, syms, s) && ExprCode(c.im.code, s.eip, e, syms, c.labels)
    requires Room(c, s.esp, Eval(c.p, fuel, e, env))
    ensures ExprDone(c, Eval(c.p, fuel, e, env), ExprSize(e), syms, s, t)
    decreases fuel, e, 0
  {
    hide Good, Placed, Sim, Keeps, Reach, Lasts, Far, Step, BinVal, Eval, ExprCode, ExprSize;
    CodeOr(c.im.code, s.eip, e, syms, c.labels);
    EvalOr(c.p, fuel, e, env);
    t := ExprCorrect(c, fuel, e.l, env, syms, s);
    var a := Eval(c.p, fuel, e.l, env);
    var p2 := s.eip + ExprSize(e.l) + 11 + ExprSize(e.r);
    if a.Val? {
      var u := Test(c.im, s, t, NE, p2 + 16);
      if a.v != 0 {
        t := SetEax(c.im, s, u, 1);
      } else {
        t := RightBool(c, fuel, e.r, a.env, syms, s, u);
        if Eval(c.p, fuel, e.r, a.env).Val? {
          KeepsTrans(s.mem, u.mem, t.mem, s.esp, s.esp, syms, s.ebp);
          t := Jump(c.im, s, t, p2 + 21);
        }
      }
    }
  }

  /** Store EAX to x's place. */
  lemma StoreCorrect(c: Ctx, env: Env, syms: Symbols, x: string, s0: State, s: State) returns (t: State)
    requires Good(c) && Ready(c, env, syms, s) && Reach(c.im, s0, s)
    requires Find(syms, x) >= 0 && IsStore(c.im.code, s.eip, syms[Find(syms, x)].val, EAX)
    ensures Reach(c.im, s0, t) && t == s.(mem := t.mem, eip := s.eip + 6)
    ensures Sim(t.mem, WriteVar(env, x, s.eax), syms, s.ebp) && Keeps(s.mem, t.mem, s.esp, syms, s.ebp)
  {
    var k := Find(syms, x);
    FindSame(env, syms, x);
    VarAligned(c, syms, s.ebp, s.esp, k);
    t := StoreVar(c.im, s0, s, syms[k].val);
    StoreToVar(c, s.mem, k, s.eax, env, syms, s.ebp, s.esp);
    KeepsStep(s.mem, Address(syms[k].val, s.ebp), s.eax, s.esp, syms, s.ebp);
  }

  lemma AssignCorrect(c: Ctx, fuel: nat, e: Expr, env: Env, syms: Symbols, s: State) returns (t: State)
    requires e.Assign?
    requires Good(c) && Ready(c, env, syms, s) && ExprCode(c.im.code, s.eip, e, syms, c.labels)
    requires Room(c, s.esp, Eval(c.p, fuel, e, env))
    ensures ExprDone(c, Eval(c.p, fuel, e, env), ExprSize(e), syms, s, t)
    decreases fuel, e, 0
  {
    hide Good, Placed, Sim, Keeps, Reach, Lasts, Far, Step, BinVal, Eval, ExprCode, ExprSize, Find, IsStore, WriteVar;
    EvalAssign(c.p, fuel, e, env);
    CodeAssign(c.im.code, s.eip, e, syms, c.labels);
    t := ExprCorrect(c, fuel, e.e, env, syms, s);
    var r := Eval(c.p, fuel, e.e, env);
    if r.Val? {
      var m := t.mem;
      t := StoreCorrect(c, r.env, syms, e.x, s, t);
      KeepsTrans(s.mem, m, t.mem, s.esp, s.esp, syms, s.ebp);
    }
  }

  lemma OpAssignCorrect(c: Ctx, fuel: nat, e: Expr, env: Env, syms: Symbols, s: State) returns (t: State)
    requires e.OpAssign?
    requires Good(c) && Ready(c, env, syms, s) && ExprCode(c.im.code, s.eip, e, syms, c.labels)
    requires Room(c, s.esp, Eval(c.p, fuel, e, env))
    ensures ExprDone(c, Eval(c.p, fuel, e, env), ExprSize(e), syms, s, t)
    decreases fuel, e, 0
  {
    hide Good, Placed, Sim, Keeps, Reach, Lasts, Far, Step, BinVal, Eval, Apply, ExprCode, ExprSize, OpCode, IsLoad,
      IsStore, Find, ReadVar, WriteVar;
    EvalOpAssign(c.p, fuel, e, env);
    CodeOpAssign(c.im.code, s.eip, e, syms, c.labels);
    var u := VarCorrect(c, env, syms, e.x, s);
    var r := Apply(e.op, u.eax, Below(Eval(c.p, fuel, e.e, env), 4));
    t := RightOperand(c, fuel, e.op, e.e, env, syms, s, u);
    if r.Val? {
      var m := t.mem;
      t := StoreCorrect(c, r.env, syms, e.x, s, t);
      KeepsTrans(s.mem, m, t.mem, s.esp, s.esp, syms, s.ebp);
    }
  }

  // ---- calls ------------------------------------------------------------------------

  lemma ArgsCorrect(c: Ctx, fuel: nat, args: Exprs, env: Env, syms: Symbols, s: State) returns (t: State)
    requires Good(c) && Ready(c, env, syms, s) && ArgsCode(c.im.code, s.eip, args, syms, c.labels)
    requires ARoom(c, s.esp, EvalArgs(c.p, fuel, args, env))
    ensures ArgsDone(c, EvalArgs(c.p, fuel, args, env), ArgsSize(args), syms, s, t)
    decreases fuel, args, 0
  {
    hide Good, Placed, Sim, Keeps, IsVar, Reach, Lasts, Far, Step, ExprCode, Eval;
    match args
    case ENil =>
      Stay(c.im, s);
      KeepsAll(s.mem, s.esp, syms, s.ebp);
      t := s;
    case ECons(e, rest) =>
      t := ExprCorrect(c, fuel, e, env, syms, s);
      var a := Eval(c.p, fuel, e, env);
      if a.Val? {
        var m := t.mem;
        var u := PushOperand(c, a.env, syms, s, t);
        KeepsTrans(s.mem, m, u.mem, s.esp, s.esp, syms, s.ebp);
        t := ArgsCorrect(c, fuel, rest, a.env, syms, u);
        Then(c.im, s, u, t);
        var b := EvalArgs(c.p, fuel, rest, a.env);
        if b.Vals? {
          ArgsPushed(c, a.v, b, syms, s, u, t);
        }
      }
  }

  /** The first argument stays where it was pushed while the others follow it. */
  lemma ArgsPushed(c: Ctx, v: word, b: ARes, syms: Symbols, s: State, u: State, t: State)
    requires b.Vals? && t.esp == u.esp - 4 * |b.vs| && u.esp == s.esp - 4 && u.ebp == s.ebp
    requires Read(u.mem, u.esp) == v && !IsVar(u.esp, syms, s.ebp)
    requires Keeps(s.mem, u.mem, s.esp, syms, s.ebp) && Keeps(u.mem, t.mem, u.esp, syms, s.ebp)
    requires forall k :: 0 <= k < |b.vs| ==> Word32(t.mem, t.esp, |b.vs| - 1 - k) == b.vs[k]
    ensures Keeps(s.mem, t.mem, s.esp, syms, s.ebp)
    ensures var vs := [v] + b.vs;
      forall k :: 0 <= k < |vs| ==> Word32(t.mem, t.esp, |vs| - 1 - k) == vs[k]
  {
    KeepsTrans(s.mem, u.mem, t.mem, s.esp, u.esp, syms, s.ebp);
    var vs := [v] + b.vs;
    forall k | 0 <= k < |vs| ensures Word32(t.mem, t.esp, |vs| - 1 - k) == vs[k] {
      if k == 0 {
        assert t.esp + 4 * (|vs| - 1) == u.esp;
      } else {
        assert |vs| - 1 - k == |b.vs| - 1 - (k - 1);
      }
    }
  }

  /** What the caller's environment is after a call: the callee's statics, the
      caller's own locals. */
  function AfterCall(c: Ctx, r: ERes, env: Env): ERes
    requires |env| >= c.p.nstatics
  {
    if r.Val? then r.(env := r.env + env[c.p.nstatics..]) else r
  }

  lemma CallCorrect(c: Ctx, fuel: nat, e: Expr, env: Env, syms: Symbols, s: State) returns (t: State)
    requires e.Call?
    requires Good(c) && Ready(c, env, syms, s) && ExprCode(c.im.code, s.eip, e, syms, c.labels)
    requires Room(c, s.esp, Eval(c.p, fuel, e, env))
    ensures ExprDone(c, Eval(c.p, fuel, e, env), ExprSize(e), syms, s, t)
    decreases fuel, e, 0
  {
    hide Good, Placed, Sim, Keeps, Reach, Lasts, Far, Step, Invoke, ArgsCode, ReverseCode, Eval, ExprCode, ExprSize,
      EvalArgs, ArgsSize, IsCallTo, IsAddEsp;
    CodeCall(c.im.code, s.eip, e, syms, c.labels);
    EvalCall(c.p, fuel, e, env);
    t := ArgsCorrect(c, fuel, e.args, env, syms, s);
    var a := EvalArgs(c.p, fuel, e.args, env);
    if a.Vals? {
      if fuel == 0 {
        LastsAtAll(c.im, t);
      } else {
        t := Dispatch(c, fuel - 1, e.f, a, syms, s, t);
      }
    }
  }

  /** From the pushed arguments to the callee's first instruction: the k-th argument
      is now the k-th word above the return address. */
  lemma EnterCallee(c: Ctx, f: string, vs: seq<word>, s: State, s1: State) returns (t: State)
    requires Good(c) && Reach(c.im, s, s1) && f in c.labels
    requires s1.esp % 4 == 0 && s1.esp - 4 >= c.floor && s1.esp + 4 * |vs| <= W
    requires forall k :: 0 <= k < |vs| ==> Word32(s1.mem, s1.esp, |vs| - 1 - k) == vs[k]
    requires ReverseCode(c.im.code, s1.eip, |vs|, 0)
    requires IsCallTo(c.im.code, s1.eip + 28 * (|vs| / 2), f, c.labels)
    ensures Reach(c.im, s, t) && t.eip == c.labels[f] && t.ebp == s1.ebp && t.esp == s1.esp - 4
    ensures Read(t.mem, t.esp) - c.im.base == s1.eip + 28 * (|vs| / 2) + 5
    ensures forall k :: 0 <= k < |vs| ==> Word32(t.mem, t.esp + 4, k) == vs[k]
    ensures forall a :: a < c.floor || a >= s1.esp + 4 * |vs| ==> Read(t.mem, a) == Read(s1.mem, a)
  {
    hide FuncOk, Step, Runs;
    var n := |vs|;
    var u := ReverseRun(c.im, s, s1, n, 0);
    t := CallStep(c.im, s, u, f, c.labels);
    forall k | 0 <= k < n ensures Word32(t.mem, t.esp + 4, k) == vs[k] {
      assert Word32(u.mem, s1.esp, k) == Word32(s1.mem, s1.esp, n - 1 - k);
      assert Word32(s1.mem, s1.esp, n - 1 - (n - 1 - (n - 1 - k))) == vs[n - 1 - (n - 1 - k)];
    }
  }

  /** From the pushed arguments, through reversal, call and cleanup. */
  lemma Dispatch(c: Ctx, fuel: nat, f: string, a: ARes, syms: Symbols, s: State, s1: State) returns (t: State)
    requires Good(c) && a.Vals? && |a.env| >= c.p.nstatics && s1.eip >= s.eip
    requires Ready(c, a.env, syms, s.(mem := s1.mem)) && Reach(c.im, s, s1)
    requires s1.esp == s.esp - 4 * |a.vs| && s1.ebp == s.ebp && Keeps(s.mem, s1.mem, s.esp, syms, s.ebp)
    requires forall k :: 0 <= k < |a.vs| ==> Word32(s1.mem, s1.esp, |a.vs| - 1 - k) == a.vs[k]
    requires ReverseCode(c.im.code, s1.eip, |a.vs|, 0)
    requires var q := s1.eip + 28 * (|a.vs| / 2);
      IsCallTo(c.im.code, q, f, c.labels) && (|a.vs| > 0 ==> IsAddEsp(c.im.code, q + 5, 4 * |a.vs|))
    requires Room(c, s1.esp, Invoke(c.p, fuel, f, a.vs, a.env[..c.p.nstatics]))
    ensures var r := AfterCall(c, Later(Invoke(c.p, fuel, f, a.vs, a.env[..c.p.nstatics])), a.env);
      ExprDone(c, r, s1.eip - s.eip + 28 * (|a.vs| / 2) + 5 + (if |a.vs| > 0 then 6 else 0), syms, s, t)
    decreases fuel, BodyOf(c.p, f), 3
  {
    hide FuncOk, Placed, Sim, Reach, Lasts, Far, Step, ReverseCode;
    var n := |a.vs|;
    var r := Invoke(c.p, fuel, f, a.vs, a.env[..c.p.nstatics]);
    assert f in c.labels && r.need >= 8 by { NeedsFrame(c, fuel, f, a.vs, a.env[..c.p.nstatics]); }
    var v := EnterCallee(c, f, a.vs, s, s1);
    StaticsSurvive(c, a.env, syms, s.ebp, s.esp, s1.mem, v.mem);
    t := InvokeCorrect(c, fuel, f, a.vs, a.env[..c.p.nstatics], v);
    Then(c.im, s, v, t);
    if r.Timeout? {
      FarApart(c.im, s, v);
      LastsLonger(c.im, s, v, t, r.rounds);
      Stay(c.im, s);
      t := s;
    } else if r.Val? {
      assert Keeps(s1.mem, t.mem, s.esp, c.statics, s.ebp);
      LocalsSurvive(c, a.env, r.env, syms, s.ebp, s.esp, s1.mem, t.mem);
      KeepsTrans(s.mem, s1.mem, t.mem, s.esp, s.esp, syms, s.ebp);
      if n > 0 {
        t := Discard(c.im, s, t, 4 * n);
      }
    }
  }

  /** A call that does not go wrong names a function, and needs at least the return
      address and the saved EBP. */
  lemma NeedsFrame(c: Ctx, fuel: nat, f: string, vs: seq<word>, genv: Env)
    requires Good(c) && |genv| == c.p.nstatics
    requires !Invoke(c.p, fuel, f, vs, genv).Wrong?
    ensures f in c.p.funcs && f in c.labels && |c.p.funcs[f].params| == |vs|
    ensures Invoke(c.p, fuel, f, vs, genv).need >= 8 + c.p.funcs[f].frame
  {
    hide RunList, FuncCode, ListDeep, ListFits, StaticsPlaced;
    assert FuncOk(c, f);
  }

  lemma InvokeCorrect(c: Ctx, fuel: nat, f: string, vs: seq<word>, genv: Env, s: State) returns (t: State)
    requires Good(c) && |genv| == c.p.nstatics && f in c.labels && s.eip == c.labels[f]
    requires s.esp % 4 == 0 && s.esp + 4 + 4 * |vs| < W && Sim(s.mem, genv, c.statics, s.ebp)
    requires forall k :: 0 <= k < |vs| ==> Word32(s.mem, s.esp + 4, k) == vs[k]
    requires Room(c, s.esp + 4, Invoke(c.p, fuel, f, vs, genv))
    ensures CallDone(c, Invoke(c.p, fuel, f, vs, genv), |vs|, s, t)
    decreases fuel, BodyOf(c.p, f), 2
  {
    hide Placed, Sim, Reach, Lasts, Far, Step, ListCode, RunList, ListDeep, IsVar, Keeps, ExprCode, Here, EpilogueCode;
    NeedsFrame(c, fuel, f, vs, genv);
    assert FuncOk(c, f);
    var fn := c.p.funcs[f];
    var env, syms := genv + Bind(fn.params, vs), c.statics + ParamSyms(fn.params);
    Stay(c.im, s);
    var u := Prologue(c.im, s, s, fn.frame);
    EntryReady(c, fn, vs, genv, s, u);
    t := ListCorrect(c, fuel, fn.body, env, syms, 0, None, None, u);
    Then(c.im, s, u, t);
    var r := RunList(c.p, fuel, fn.body, env);
    if r.Done? {
      ExitKeeps(c, fn, s, u, t.mem);
      t := Leave(c, fn, r, env, syms, s, u, t);
    }
  }

  /** Back to the caller, whether the body returned or fell off its end. */
  lemma Leave(c: Ctx, fn: Func, r: SRes, env: Env, syms: Symbols, s: State, u: State, v: State) returns (t: State)
    requires Good(c) && r.Done? && |r.env| >= |env| >= c.p.nstatics && Reach(c.im, s, v)
    requires r.ctl == Normal || r.ctl.Returned?
    requires u.ebp == s.esp - 4 && u.mem == s.mem[s.esp - 4 := s.ebp]
    requires syms == c.statics + ParamSyms(fn.params) && StmtReady(c, env, syms, 0, ListDeep(fn.body, 0), u)
    requires StmtDone(c, Scoped(r, |env|), ListSize(fn.body), syms, syms, 0, None, None, u, v)
    requires Here(c.im.code, u.eip + ListSize(fn.body), MovImm(EAX, 0)) &&
      EpilogueCode(c.im.code, u.eip + ListSize(fn.body) + 5)
    ensures Reach(c.im, s, t) && t.mem == v.mem
    ensures t.eip == Read(s.mem, s.esp) - c.im.base && t.esp == s.esp + 4 && t.ebp == s.ebp
    ensures Sim(t.mem, r.env[..c.p.nstatics], c.statics, s.ebp)
    ensures r.ctl == Normal ==> t.eax == 0
    ensures r.ctl.Returned? && r.ctl.v.Some? ==> t.eax == r.ctl.v.value
  {
    hide FuncOk, Placed, Sim, Keeps, IsVar, Reach, Lasts, Far, Step, ListDeep, ExprSize, ListSize, ParamSyms,
      EpilogueCode, Here;
    var n := c.p.nstatics;
    var env' := r.env[..|env|];
    assert env'[..n] == r.env[..n];
    if r.ctl.Returned? {
      t := v;
      SimStatics(c, t.mem, env'[..n], 0, s.ebp);
    } else {
      NotVar(c, syms, u.ebp, u.ebp, u.ebp);
      NotVar(c, syms, u.ebp, u.ebp, u.ebp + 4);
      KeptRead(u.mem, v.mem, u.ebp, syms, u.ebp, u.ebp);
      KeptRead(u.mem, v.mem, u.ebp, syms, u.ebp, u.ebp + 4);
      t := SetEax(c.im, s, v, 0);
      t := Epilogue(c.im, s, t);
      SimPrefix(t.mem, env', syms, u.ebp, n);
      assert syms[..n] == c.statics;
      SimStatics(c, t.mem, env'[..n], u.ebp, s.ebp);
    }
  }

  // ---- statements -------------------------------------------------------------------

  /** Evaluate an expression between statements. */
  lemma Evaluate(c: Ctx, fuel: nat, e: Expr, env: Env, syms: Symbols, off: int, deep: int, s: State) returns (t: State)
    requires Good(c) && StmtReady(c, env, syms, off, deep, s) && ExprCode(c.im.code, s.eip, e, syms, c.labels)
    requires Room(c, s.esp, Eval(c.p, fuel, e, env))
    ensures Reach(c.im, s, t)
    ensures var r := Eval(c.p, fuel, e, env);
      (r.Fault? ==> Step(c.im, t) == DivideFault) && (r.Timeout? ==> Lasts(c.im, t, r.rounds)) &&
      (r.Val? ==>
        t.eip == s.eip + ExprSize(e) && t.eax == r.v && Moved(c, syms, off, s, t) &&
        StmtReady(c, r.env, syms, off, deep, t))
    decreases fuel, e, 2
  {
    hide Good, Placed, Sim, Keeps, Reach, Lasts, Far, Step, ExprCode, Eval;
    ReadyForExpr(c, env, syms, off, deep, s);
    t := ExprCorrect(c, fuel, e, env, syms, s);
    var r := Eval(c.p, fuel, e, env);
    if r.Val? {
      KeepsRaise(s.mem, t.mem, s.esp, s.ebp + off, syms, s.ebp);
    }
  }

  lemma ListCorrect(c: Ctx, fuel: nat, ss: Stmts, env: Env, syms: Symbols, off: int,
                    brk: Option<int>, cont: Option<int>, s: State) returns (t: State)
    requires Good(c) && StmtReady(c, env, syms, off, ListDeep(ss, off), s) && ListFits(ss)
    requires ListCode(c.im.code, s.eip, ss, syms, off, brk, cont, c.labels)
    requires SRoom(c, s.esp, RunBlock(c.p, fuel, ss, env))
    ensures StmtDone(c, RunBlock(c.p, fuel, ss, env), ListSize(ss), syms, syms, off, brk, cont, s, t)
    decreases fuel, ss, 1
  {
    hide Good, Placed, Sim, Keeps, Reach, Lasts, Far, Step, RunStmt, StmtCode, StmtFits, StmtSize;
    match ss
    case SNil =>
      Stay(c.im, s);
      KeepsAll(s.mem, s.ebp + off, syms, s.ebp);
      t := s;
      assert env[..|env|] == env;
    case SCons(st, rest) =>
      t := StmtCorrect(c, fuel, st, env, syms, off, brk, cont, s);
      var r := RunStmt(c.p, fuel, st, env);
      if r.Done? {
        t := RestCorrect(c, fuel, ss, env, syms, off, brk, cont, s, t);
      }
  }

  /** The rest of a list, after its first statement went from s to u. */
  lemma RestCorrect(c: Ctx, fuel: nat, ss: Stmts, env: Env, syms: Symbols, off: int,
                    brk: Option<int>, cont: Option<int>, s: State, u: State) returns (t: State)
    requires ss.SCons?
    requires Good(c) && StmtReady(c, env, syms, off, ListDeep(ss, off), s) && ListFits(ss)
    requires ListCode(c.im.code, s.eip, ss, syms, off, brk, cont, c.labels)
    requires SRoom(c, s.esp, RunBlock(c.p, fuel, ss, env))
    requires var r := RunStmt(c.p, fuel, ss.s, env);
      r.Done? && StmtDone(c, r, StmtSize(ss.s), syms, StmtSyms(ss.s, syms, off), off, brk, cont, s, u)
    ensures StmtDone(c, RunBlock(c.p, fuel, ss, env), ListSize(ss), syms, syms, off, brk, cont, s, t)
    decreases fuel, ss, 0
  {
    hide FuncOk, Placed, Sim, Keeps, Reach, Lasts, Far, Step, RunStmt, StmtCode, StmtFits, StmtSize;
    var r := RunStmt(c.p, fuel, ss.s, env);
    var syms1, off1 := StmtSyms(ss.s, syms, off), StmtOff(ss.s, off);
    if r.ctl.Normal? {
      NextReady(c, ss.s, env, r.env, syms, off, ListDeep(ss, off), ListDeep(ss.rest, off1), s, u);
      t := ListCorrect(c, fuel, ss.rest, r.env, syms1, off1, brk, cont, u);
      var q := RunBlock(c.p, fuel, ss.rest, r.env);
      if ss.s.Let? {
        DropNewest(c, q, ListSize(ss.rest), syms, Entry(ss.s.x, Slot(off - 4)), off, off1, brk, cont, u, t);
        ScopedTwice(RunList(c.p, fuel, ss.rest, r.env), |r.env|, |env|);
        After(c, Scoped(q, |env|), ListSize(ss.rest), ListSize(ss), syms, syms, off, off, brk, cont, env,
          ListDeep(ss, off), s, u, t);
      } else {
        After(c, q, ListSize(ss.rest), ListSize(ss), syms, syms, off, off1, brk, cont, env, ListDeep(ss, off), s, u, t);
      }
    } else {
      t := u;
      assert r.env[..|env|] == r.env;
    }
  }

  lemma ScopedTwice(r: SRes, m: nat, n: nat)
    requires n <= m && (r.Done? ==> |r.env| >= m)
    ensures Scoped(Scoped(r, m), n) == Scoped(r, n)
  {
    if r.Done? {
      assert r.env[..m][..n] == r.env[..n];
    }
  }

  /** What a statement's code may assume. */
  ghost predicate StmtPre(c: Ctx, fuel: nat, st: Stmt, env: Env, syms: Symbols, off: int,
                          brk: Option<int>, cont: Option<int>, s: State)
  {
    Good(c) && StmtReady(c, env, syms, off, StmtDeep(st, off), s) && StmtFits(st) &&
    StmtCode(c.im.code, s.eip, st, syms, off, brk, cont, c.labels) &&
    SRoom(c, s.esp, RunStmt(c.p, fuel, st, env))
  }

  lemma StmtCorrect(c: Ctx, fuel: nat, st: Stmt, env: Env, syms: Symbols, off: int,
                    brk: Option<int>, cont: Option<int>, s: State) returns (t: State)
    requires StmtPre(c, fuel, st, env, syms, off, brk, cont, s)
    ensures StmtDone(c, RunStmt(c.p, fuel, st, env), StmtSize(st), syms, StmtSyms(st, syms, off), off, brk, cont, s, t)
    decreases fuel, st, 1
  {
    hide StmtPre, StmtDone, RunStmt, StmtSize, StmtSyms;
    OnlyLetDeclares(st, syms, off);
    match st
    case Do(_) => t := DoCorrect(c, fuel, st, env, syms, off, brk, cont, s);
    case Let(_, _) => t := LetCorrect(c, fuel, st, env, syms, off, brk, cont, s);
    case If(_, _, _) => t := IfCorrect(c, fuel, st, env, syms, off, brk, cont, s);
    case While(_, _) => t := WhileCorrect(c, fuel, st, env, syms, off, brk, cont, s);
    case Loop(_) => t := LoopCorrect(c, fuel, st, env, syms, off, brk, cont, s);
    case For(_, _, _, _) => t := ForCorrect(c, fuel, st, env, syms, off, brk, cont, s);
    case Match(_, _) => t := MatchCorrect(c, fuel, st, env, syms, off, brk, cont, s);
    case Block(_) => t := NestedCorrect(c, fuel, st, env, syms, off, brk, cont, s);
    case Break => t := LeaveCorrect(c, fuel, st, env, syms, off, brk, cont, s);
    case Continue => t := LeaveCorrect(c, fuel, st, env, syms, off, brk, cont, s);
    case Return(_) => t := ReturnCorrect(c, fuel, st, env, syms, off, brk, cont, s);
  }

  lemma OnlyLetDeclares(st: Stmt, syms: Symbols, off: int)
    ensures !st.Let? ==> StmtSyms(st, syms, off) == syms
  {
  }

  lemma NestedCorrect(c: Ctx, fuel: nat, st: Stmt, env: Env, syms: Symbols, off: int,
                      brk: Option<int>, cont: Option<int>, s: State) returns (t: State)
    requires st.Block? && StmtPre(c, fuel, st, env, syms, off, brk, cont, s)
    ensures StmtDone(c, RunStmt(c.p, fuel, st, env), StmtSize(st), syms, syms, off, brk, cont, s, t)
    decreases fuel, st, 0
  {
    hide Good, StmtReady, StmtDone, SRoom, RunBlock, ListCode, ListSize, ListFits, ListDeep;
    t := ListCorrect(c, fuel, st.body, env, syms, off, brk, cont, s);
  }

  /** break and continue. */
  lemma LeaveCorrect(c: Ctx, fuel: nat, st: Stmt, env: Env, syms: Symbols, off: int,
                     brk: Option<int>, cont: Option<int>, s: State) returns (t: State)
    requires (st.Break? || st.Continue?) && StmtPre(c, fuel, st, env, syms, off, brk, cont, s)
    ensures StmtDone(c, RunStmt(c.p, fuel, st, env), StmtSize(st), syms, syms, off, brk, cont, s, t)
  {
    hide FuncOk, Placed, Sim, Keeps, IsVar, Reach, Lasts, Far, Step;
    Stay(c.im, s);
    KeepsAll(s.mem, s.ebp + off, syms, s.ebp);
    t := s;
    if st.Continue? {
      t := Jump(c.im, s, s, cont.value);
      JumpFar(c.im, s, s, cont.value);
    } else if brk.Some? {
      t := Jump(c.im, s, s, brk.value);
    }
  }

  lemma DoCorrect(c: Ctx, fuel: nat, st: Stmt, env: Env, syms: Symbols, off: int,
                  brk: Option<int>, cont: Option<int>, s: State) returns (t: State)
    requires st.Do? && StmtPre(c, fuel, st, env, syms, off, brk, cont, s)
    ensures StmtDone(c, RunStmt(c.p, fuel, st, env), StmtSize(st), syms, syms, off, brk, cont, s, t)
    decreases fuel, st, 0
  {
    hide Good, Placed, Sim, Keeps, Reach, Lasts, Far, Step, Eval;
    t := Evaluate(c, fuel, st.e, env, syms, off, off, s);
  }

  lemma ReturnCorrect(c: Ctx, fuel: nat, st: Stmt, env: Env, syms: Symbols, off: int,
                      brk: Option<int>, cont: Option<int>, s: State) returns (t: State)
    requires st.Return? && StmtPre(c, fuel, st, env, syms, off, brk, cont, s)
    ensures StmtDone(c, RunStmt(c.p, fuel, st, env), StmtSize(st), syms, syms, off, brk, cont, s, t)
    decreases fuel, st, 0
  {
    hide FuncOk, Placed, Sim, Keeps, IsVar, Reach, Lasts, Far, Step, Eval, ExprCode;
    if st.result.None? {
      Stay(c.im, s);
      KeepsAll(s.mem, s.ebp + off, syms, s.ebp);
      t := LeaveFrame(c, env, syms, off, s, s);
    } else {
      var r := Eval(c.p, fuel, st.result.value, env);
      t := Evaluate(c, fuel, st.result.value, env, syms, off, off, s);
      if r.Val? {
        t := LeaveFrame(c, r.env, syms, off, s, t);
      }
    }
  }

  /** The return sequence, reached at u. */
  lemma LeaveFrame(c: Ctx, env: Env, syms: Symbols, off: int, s: State, u: State) returns (t: State)
    requires StaticsPlaced(c) && Moved(c, syms, off, s, u) && StmtReady(c, env, syms, off, off, u)
    requires EpilogueCode(c.im.code, u.eip)
    ensures Reach(c.im, s, t) && t.mem == u.mem && HasReturned(c, Some(u.eax), env, s, t)
  {
    hide Placed, Sim, Keeps, IsVar, Reach, Lasts, Far, Step;
    NotVar(c, syms, s.ebp, s.ebp + off, s.ebp);
    NotVar(c, syms, s.ebp, s.ebp + off, s.ebp + 4);
    KeptRead(s.mem, u.mem, s.ebp + off, syms, s.ebp, s.ebp);
    KeptRead(s.mem, u.mem, s.ebp + off, syms, s.ebp, s.ebp + 4);
    t := Epilogue(c.im, s, u);
    StaticsSurvive(c, env, syms, s.ebp, s.ebp + off, u.mem, u.mem);
    SimStatics(c, t.mem, env[..c.p.nstatics], s.ebp, 0);
  }

  lemma LetCorrect(c: Ctx, fuel: nat, st: Stmt, env: Env, syms: Symbols, off: int,
                   brk: Option<int>, cont: Option<int>, s: State) returns (t: State)
    requires st.Let? && StmtPre(c, fuel, st, env, syms, off, brk, cont, s)
    ensures StmtDone(c, RunStmt(c.p, fuel, st, env), StmtSize(st), syms, StmtSyms(st, syms, off), off, brk, cont, s, t)
    decreases fuel, st, 0
  {
    hide FuncOk, Placed, Sim, Keeps, IsVar, Reach, Lasts, Far, Step, Eval, ExprCode;
    var e := Entry(st.x, Slot(off - 4));
    var syms1, env1 := syms + [e], env + [Entry(st.x, None)];
    PlacedPush(c, syms, st.x, s.ebp, off);
    SimUndefined(s.mem, env, syms, s.ebp, st.x, Slot(off - 4));
    if st.init.None? {
      Stay(c.im, s);
      KeepsAll(s.mem, s.ebp + off, syms, s.ebp);
      t := s;
    } else {
      t := Evaluate(c, fuel, st.init.value, env1, syms1, off - 4, off - 4, s);
      var r := Eval(c.p, fuel, st.init.value, env1);
      if r.Val? {
        t := Initialise(c, st.x, r.env, syms, off, s, t);
      }
    }
  }

  /** Store the initial value of a let in its slot. */
  lemma Initialise(c: Ctx, x: string, env: Env, syms: Symbols, off: int, s: State, u: State) returns (t: State)
    requires StaticsPlaced(c) && IsStore(c.im.code, u.eip, Slot(off - 4), EAX)
    requires var syms1 := syms + [Entry(x, Slot(off - 4))];
      Moved(c, syms1, off - 4, s, u) && StmtReady(c, env, syms1, off - 4, off - 4, u)
    ensures Moved(c, syms, off, s, t) && t == u.(mem := t.mem, eip := u.eip + 6)
    ensures Sim(t.mem, env[|syms| := Entry(x, Some(u.eax))], syms + [Entry(x, Slot(off - 4))], s.ebp)
  {
    hide Placed, Reach, Lasts, Far, Step;
    var e := Entry(x, Slot(off - 4));
    var syms1 := syms + [e];
    VarAligned(c, syms1, s.ebp, s.ebp + off - 4, |syms|);
    t := StoreVar(c.im, s, u, Slot(off - 4));
    StoreToVar(c, u.mem, |syms|, u.eax, env, syms1, s.ebp, s.ebp + off - 4);
    KeepsStep(u.mem, s.ebp + off - 4, u.eax, s.ebp + off, syms, s.ebp);
    KeepsNarrow(s.mem, u.mem, s.ebp + off - 4, off, syms, e, s.ebp);
    KeepsTrans(s.mem, u.mem, t.mem, s.ebp + off, s.ebp + off, syms, s.ebp);
  }

  /** Evaluate a condition and test it: to the target exactly when it is zero. */
  lemma Condition(c: Ctx, fuel: nat, e: Expr, env: Env, syms: Symbols, off: int, deep: int, target: int,
                  s: State) returns (t: State)
    requires Good(c) && StmtReady(c, env, syms, off, deep, s) && ExprCode(c.im.code, s.eip, e, syms, c.labels)
    requires TestCode(c.im.code, s.eip + ExprSize(e), E, target)
    requires Room(c, s.esp, Eval(c.p, fuel, e, env))
    ensures Reach(c.im, s, t)
    ensures var r := Eval(c.p, fuel, e, env);
      (r.Fault? ==> Step(c.im, t) == DivideFault) && (r.Timeout? ==> Lasts(c.im, t, r.rounds)) &&
      (r.Val? ==>
        Moved(c, syms, off, s, t) && StmtReady(c, r.env, syms, off, deep, t) &&
        t.eip == if r.v == 0 then target else s.eip + ExprSize(e) + 11)
    decreases fuel, e, 3
  {
    hide Good, Placed, Sim, Keeps, Reach, Lasts, Far, Step, ExprCode;
    t := Evaluate(c, fuel, e, env, syms, off, deep, s);
    if Eval(c.p, fuel, e, env).Val? {
      t := Test(c.im, s, t, E, target);
    }
  }

  lemma IfCorrect(c: Ctx, fuel: nat, st: Stmt, env: Env, syms: Symbols, off: int,
                  brk: Option<int>, cont: Option<int>, s: State) returns (t: State)
    requires st.If? && StmtPre(c, fuel, st, env, syms, off, brk, cont, s)
    ensures StmtDone(c, RunStmt(c.p, fuel, st, env), StmtSize(st), syms, syms, off, brk, cont, s, t)
    decreases fuel, st, 0
  {
    hide FuncOk, Placed, Sim, Keeps, Reach, Lasts, Far, Step, Eval, ExprCode, RunBlock, ListCode, ListFits, ListOff,
      ListDeep, ListSize, TestCode, IsJmp;
    var r := Eval(c.p, fuel, st.c, env);
    var deep := StmtDeep(st, off);
    var n := ListSize(st.thn);
    var m := if st.els.None? then 0 else 5;
    var u := Condition(c, fuel, st.c, env, syms, off, deep, s.eip + ExprSize(st.c) + 11 + n + m, s);
    t := u;
    if r.Val? {
      if r.v != 0 {
        var q := RunBlock(c.p, fuel, st.thn, r.env);
        LowerReady(c, r.env, syms, off, deep, off, ListDeep(st.thn, off), u);
        t := ListCorrect(c, fuel, st.thn, r.env, syms, off, brk, cont, u);
        if st.els.Some? {
          t := Onward(c, q, n, n + 5 + ListSize(st.els.value), syms, off, brk, cont, u, t);
        }
        After(c, q, StmtSize(st) - ExprSize(st.c) - 11, StmtSize(st), syms, syms, off, off, brk, cont, env,
          deep, s, u, t);
      } else if st.els.Some? {
        var off1 := ListOff(st.thn, off);
        LowerReady(c, r.env, syms, off, deep, off1, ListDeep(st.els.value, off1), u);
        t := ListCorrect(c, fuel, st.els.value, r.env, syms, off1, brk, cont, u);
        After(c, RunBlock(c.p, fuel, st.els.value, r.env), ListSize(st.els.value), StmtSize(st), syms, syms, off, off1,
              brk, cont, env, deep, s, u, t);
      }
    }
  }

  lemma OutOfFuel(c: Ctx, syms: Symbols, off: int, brk: Option<int>, cont: Option<int>, size: nat,
                  s: State) returns (t: State)
    ensures StmtDone(c, STimeout(0, 0), size, syms, syms, off, brk, cont, s, t)
  {
    t := s;
    Stay(c.im, s);
    LastsAtAll(c.im, s);
  }

  /** What a loop comes to once its body has come to q. */
  function LoopResult(p: Program, fuel: nat, st: Stmt, q: SRes): SRes
    requires q.Done? ==> |q.env| >= p.nstatics
  {
    if !q.Done? || q.ctl.Returned? then q
    else if q.ctl.Broke? then q.(ctl := Normal)
    else SLater(RunStmt(p, fuel, st, q.env))
  }

  /** After the body of while or loop, which ran from v to w: out of the loop, out of
      the function, or back to the head of the loop. */
  lemma LoopNext(c: Ctx, fuel: nat, st: Stmt, q: SRes, env: Env, syms: Symbols, off: int,
                 brk: Option<int>, cont: Option<int>, s: State, v: State, w: State) returns (t: State)
    requires st.While? || st.Loop?
    requires Good(c) && StmtReady(c, env, syms, off, StmtDeep(st, off), s) && StmtFits(st)
    requires StmtCode(c.im.code, s.eip, st, syms, off, brk, cont, c.labels)
    requires Moved(c, syms, off, s, v) && s.eip <= v.eip <= s.eip + StmtSize(st) - 5
    requires q.Done? ==> |q.env| == |env|
    requires StmtDone(c, q, s.eip + StmtSize(st) - 5 - v.eip, syms, syms, off, Some(s.eip + StmtSize(st)), Some(s.eip),
      v, w)
    requires SRoom(c, s.esp, LoopResult(c.p, fuel, st, q))
    ensures StmtDone(c, LoopResult(c.p, fuel, st, q), StmtSize(st), syms, syms, off, brk, cont, s, t)
    decreases fuel, st, 3
  {
    hide FuncOk, Placed, Sim, Keeps, Reach, Lasts, Far, Step, ExprCode, ListCode, RunStmt, StmtFits;
    var r := LoopResult(c.p, fuel, st, q);
    var exit := s.eip + StmtSize(st);
    var deep := StmtDeep(st, off);
    assert IsJmp(c.im.code, exit - 5, s.eip);
    t := w;
    if !q.Done? || q.ctl.Returned? {
      After(c, q, 0, StmtSize(st), syms, syms, off, off, brk, cont, env, deep, s, v, w);
    } else {
      MovedOn(c, syms, off, s, v, w);
      if !q.ctl.Broke? {
        if q.ctl.Normal? {
          t := Jump(c.im, s, w, s.eip);
          JumpFar(c.im, s, w, s.eip);
        } else {
          FarOn(c.im, s, v, w);
        }
        t := LoopAgain(c, fuel, st, q, env, syms, off, brk, cont, s, t);
      }
    }
  }

  /** Back at its head in state x, the loop goes on. */
  lemma LoopAgain(c: Ctx, fuel: nat, st: Stmt, q: SRes, env: Env, syms: Symbols, off: int,
                  brk: Option<int>, cont: Option<int>, s: State, x: State) returns (t: State)
    requires Good(c) && StmtReady(c, env, syms, off, StmtDeep(st, off), s) && StmtFits(st)
    requires StmtCode(c.im.code, s.eip, st, syms, off, brk, cont, c.labels) && StmtSyms(st, syms, off) == syms
    requires q.Done? && |q.env| == |env| && Running(q.env, syms, s, x)
    requires Moved(c, syms, off, s, x) && Far(c.im, s, x) && x.eip == s.eip
    requires SRoom(c, s.esp, RunStmt(c.p, fuel, st, q.env))
    ensures StmtDone(c, SLater(RunStmt(c.p, fuel, st, q.env)), StmtSize(st), syms, syms, off, brk, cont, s, t)
    decreases fuel, st, 2
  {
    hide FuncOk, Placed, Sim, Keeps, Reach, Lasts, Far, Step, ExprCode, ListCode, RunStmt, StmtFits, StmtCode, StmtSize,
      StmtDeep, StmtSyms;
    var r, deep := RunStmt(c.p, fuel, st, q.env), StmtDeep(st, off);
    StillReady(c, env, syms, off, deep, s, q.env, deep, x);
    t := StmtCorrect(c, fuel, st, q.env, syms, off, brk, cont, x);
    if r.STimeout? {
      LastsLonger(c.im, s, x, t, r.rounds);
      Stay(c.im, s);
      t := s;
    } else {
      After(c, r, StmtSize(st), StmtSize(st), syms, syms, off, off, brk, cont, env, deep, s, x, t);
    }
  }

  lemma WhileCorrect(c: Ctx, fuel: nat, st: Stmt, env: Env, syms: Symbols, off: int,
                     brk: Option<int>, cont: Option<int>, s: State) returns (t: State)
    requires st.While? && StmtPre(c, fuel, st, env, syms, off, brk, cont, s)
    ensures StmtDone(c, RunStmt(c.p, fuel, st, env), StmtSize(st), syms, syms, off, brk, cont, s, t)
    decreases fuel, st, 0
  {
    hide FuncOk, Placed, Sim, Keeps, Reach, Lasts, Far, Step, Eval, ExprCode, RunBlock, ListCode, ListFits, ListOff,
      ListDeep, ListSize, RunStmt, StmtCode, StmtSize, TestCode, IsJmp;
    if fuel == 0 {
      NoFuel(c.p, st, env);
      t := OutOfFuel(c, syms, off, brk, cont, StmtSize(st), s);
      return;
    }
    WhileMeans(c.p, fuel, st, env);
    WhileEmitted(c.im.code, s.eip, st, syms, off, brk, cont, c.labels);
    var exit := s.eip + StmtSize(st);
    var r := Eval(c.p, fuel, st.c, env);
    t := Condition(c, fuel, st.c, env, syms, off, StmtDeep(st, off), exit, s);
    if r.Val? && r.v != 0 {
      var u, q := t, RunBlock(c.p, fuel, st.body, r.env);
      var w := ListCorrect(c, fuel, st.body, r.env, syms, off, Some(exit), Some(s.eip), u);
      t := LoopNext(c, fuel - 1, st, q, env, syms, off, brk, cont, s, u, w);
    }
  }

  /** The same outcome, with no less stack. */
  predicate Deeper(a: SRes, b: SRes) {
    if b.SWrong? then a.SWrong? else !a.SWrong? && a == b.(need := a.need) && a.need >= b.need
  }

  lemma WhileMeans(p: Program, fuel: nat, st: Stmt, env: Env)
    requires st.While? && fuel > 0 && |env| >= p.nstatics
    ensures var r, a := Eval(p, fuel, st.c, env), RunStmt(p, fuel, st, env);
      if !r.Val? then a == Failed(r)
      else if r.v == 0 then a == Done(Normal, r.env, r.need)
      else
        var q := RunBlock(p, fuel, st.body, r.env);
        Deeper(a, LoopResult(p, fuel - 1, st, q)) && (!a.SWrong? ==> a.need >= r.need && !q.SWrong? && a.need >= q.need)
  {
    hide Eval, RunBlock;
  }

  lemma MatchMeans(p: Program, fuel: nat, st: Stmt, env: Env)
    requires st.Match? && |env| >= p.nstatics
    ensures var r, a := Eval(p, fuel, st.e, env), RunStmt(p, fuel, st, env);
      if r.Val? then Deeper(a, RunArms(p, fuel, st.arms, r.v, r.env)) && (!a.SWrong? ==> a.need >= r.need)
      else a == Failed(r)
  {
    hide Eval, RunArms;
  }

  lemma ArmsMean(p: Program, fuel: nat, arms: Arms, v: word, env: Env)
    requires arms.ACons? && arms.pat.Some? && |env| >= p.nstatics
    ensures var q, a := Eval(p, fuel, arms.pat.value, env), RunArms(p, fuel, arms, v, env);
      if !q.Val? then a == Failed(q)
      else
        (!a.SWrong? ==> a.need >= q.need) &&
        Deeper(a, if q.v == v then RunBlock(p, fuel, arms.body, q.env) else RunArms(p, fuel, arms.rest, v, q.env))
  {
    hide Eval, RunBlock;
  }

  /** What a for statement comes to, given the values of its bounds. */
  lemma ForMeans(p: Program, fuel: nat, st: Stmt, env: Env)
    requires st.For? && |env| >= p.nstatics
    ensures var a, r := Eval(p, fuel, st.lo, env), RunStmt(p, fuel, st, env);
      if !a.Val? then r == Failed(a)
      else
        var b := Eval(p, fuel, st.hi, a.env + [Entry(st.x, Some(a.v))]);
        if b.Val? then
          var q := RunFor(p, fuel, st.body, b.v, b.env);
          Deeper(r, Scoped(q, |env|)) && (!r.SWrong? ==> r.need >= a.need && r.need >= b.need)
        else Deeper(r, Failed(b)) && (!r.SWrong? ==> r.need >= a.need)
  {
    hide Eval, RunFor;
  }

  lemma NoFuel(p: Program, st: Stmt, env: Env)
    requires (st.While? || st.Loop?) && |env| >= p.nstatics
    ensures RunStmt(p, 0, st, env) == STimeout(0, 0)
  {
  }

  lemma LoopCorrect(c: Ctx, fuel: nat, st: Stmt, env: Env, syms: Symbols, off: int,
                    brk: Option<int>, cont: Option<int>, s: State) returns (t: State)
    requires st.Loop? && StmtPre(c, fuel, st, env, syms, off, brk, cont, s)
    ensures StmtDone(c, RunStmt(c.p, fuel, st, env), StmtSize(st), syms, syms, off, brk, cont, s, t)
    decreases fuel, st, 0
  {
    hide FuncOk, Placed, Sim, Reach, Lasts, Far, Step, RunBlock, ListCode, ListFits;
    if fuel == 0 {
      t := OutOfFuel(c, syms, off, brk, cont, StmtSize(st), s);
      return;
    }
    var exit := s.eip + StmtSize(st);
    var q := RunBlock(c.p, fuel, st.body, env);
    Stay(c.im, s);
    KeepsAll(s.mem, s.ebp + off, syms, s.ebp);
    var w := ListCorrect(c, fuel, st.body, env, syms, off, Some(exit), Some(s.eip), s);
    t := LoopNext(c, fuel - 1, st, q, env, syms, off, brk, cont, s, s, w);
  }

  /** Store EAX to a slot that no symbol names yet. */
  lemma StoreTemp(c: Ctx, env: Env, syms: Symbols, off: int, deep: int, s0: State, s: State) returns (t: State)
    requires StaticsPlaced(c) && StmtReady(c, env, syms, off, deep, s) && deep <= off - 4 && Moved(c, syms, off, s0, s)
    requires IsStore(c.im.code, s.eip, Slot(off - 4), EAX)
    ensures Moved(c, syms, off, s0, t) && StmtReady(c, env, syms, off, deep, t)
    ensures t == s.(mem := s.mem[s.ebp + off - 4 := s.eax], eip := s.eip + 6)
    ensures !IsVar(s.ebp + off - 4, syms, s.ebp)
  {
    t := StoreVar(c.im, s0, s, Slot(off - 4));
    NotVar(c, syms, s.ebp, s.ebp + off, s.ebp + off - 4);
    StoreElsewhere(s.mem, s.ebp + off - 4, s.eax, env, syms, s.ebp);
    KeepsStep(s.mem, s.ebp + off - 4, s.eax, s.ebp + off, syms, s.ebp);
    KeepsTrans(s0.mem, s.mem, t.mem, s.ebp + off, s.ebp + off, syms, s.ebp);
  }

  /** The newest symbol takes the slot just stored. */
  lemma NameSlot(c: Ctx, env: Env, syms: Symbols, x: string, off: int, deep: int, s: State)
    requires StaticsPlaced(c) && StmtReady(c, env, syms, off, deep, s) && deep <= off - 4
    ensures StmtReady(c, env + [Entry(x, Some(Read(s.mem, s.ebp + off - 4)))], syms + [Entry(x, Slot(off - 4))],
      off - 4, deep, s)
  {
    PlacedPush(c, syms, x, s.ebp, off);
  }

  lemma ForCorrect(c: Ctx, fuel: nat, st: Stmt, env: Env, syms: Symbols, off: int,
                   brk: Option<int>, cont: Option<int>, s: State) returns (t: State)
    requires st.For? && StmtPre(c, fuel, st, env, syms, off, brk, cont, s)
    ensures StmtDone(c, RunStmt(c.p, fuel, st, env), StmtSize(st), syms, syms, off, brk, cont, s, t)
    decreases fuel, st, 0
  {
    hide FuncOk, Placed, Sim, Keeps, IsVar, Reach, Lasts, Far, Step, Eval, ExprCode, ListCode, ListFits, ForCode,
      RunFor;
    var deep := StmtDeep(st, off);
    var a := Eval(c.p, fuel, st.lo, env);
    t := Evaluate(c, fuel, st.lo, env, syms, off, deep, s);
    if a.Val? {
      t := StoreTemp(c, a.env, syms, off, deep, s, t);
      t := ForBound(c, fuel, st, env, a, syms, off, brk, cont, s, t);
    }
  }

  /** From the stored start value on. */
  lemma ForBound(c: Ctx, fuel: nat, st: Stmt, env: Env, a: ERes, syms: Symbols, off: int,
                 brk: Option<int>, cont: Option<int>, s: State, u: State) returns (t: State)
    requires st.For? && StmtPre(c, fuel, st, env, syms, off, brk, cont, s)
    requires a == Eval(c.p, fuel, st.lo, env) && a.Val?
    requires Moved(c, syms, off, s, u) && StmtReady(c, a.env, syms, off, StmtDeep(st, off), u)
    requires u.eip == s.eip + ExprSize(st.lo) + 6 && Read(u.mem, u.ebp + off - 4) == a.v
    ensures StmtDone(c, RunStmt(c.p, fuel, st, env), StmtSize(st), syms, syms, off, brk, cont, s, t)
    decreases fuel, st, 0, 0
  {
    hide FuncOk, Placed, Sim, Keeps, IsVar, Reach, Lasts, Far, Step, Eval, ExprCode, ListCode, ListFits, ForCode,
      RunFor, ListDeep, ExprSize, StaticsPlaced, RunStmt, IsStore;
    ForMeans(c.p, fuel, st, env);
    var deep := StmtDeep(st, off);
    var e := Entry(st.x, Slot(off - 4));
    var syms1, env1 := syms + [e], a.env + [Entry(st.x, Some(a.v))];
    NameSlot(c, a.env, syms, st.x, off, deep, u);
    var b := Eval(c.p, fuel, st.hi, env1);
    t := Evaluate(c, fuel, st.hi, env1, syms1, off - 4, deep, u);
    if b.Val? {
      var v := StoreTemp(c, b.env, syms1, off - 4, deep, u, t);
      LowerReady(c, b.env, syms1, off - 4, deep, off - 8, deep, v);
      var n := 53 + ListSize(st.body) + 5;
      t := ForLoop(c, fuel, st.body, b.v, b.env, syms1, off, n, brk, cont, v);
      var r := RunFor(c.p, fuel, st.body, b.v, b.env);
      After(c, r, n, n + ExprSize(st.hi) + 6, syms1, syms1, off - 4, off - 8, brk, cont, env1, deep, u, v, t);
      DropNewest(c, r, n + ExprSize(st.hi) + 6, syms, e, off, off - 4, brk, cont, u, t);
      After(c, Scoped(r, |syms|), n + ExprSize(st.hi) + 6, StmtSize(st), syms, syms, off, off, brk, cont, env, deep, s,
        u, t);
    } else {
      Then(c.im, s, u, t);
    }
  }

  /** At the head of a for loop whose iterator is the newest symbol and whose bound is
      in the unnamed slot below. */
  ghost predicate ForHead(c: Ctx, body: Stmts, hi: word, env: Env, syms: Symbols, off: int, size: nat, s: State) {
    Good(c) && |syms| > |c.statics| && syms[|syms| - 1].val == Slot(off - 4) &&
    Placed(c, syms, s.ebp, s.ebp + off - 4) &&
    StmtReady(c, env, syms, off - 8, ListDeep(body, off - 8), s) && ListFits(body) &&
    Read(s.mem, s.ebp + off - 8) == hi && ForCode(c.im.code, s.eip, off - 4, off - 8, s.eip + size) &&
    size == 53 + ListSize(body) + 5 && IsJmp(c.im.code, s.eip + size - 5, s.eip + 29) &&
    ListCode(c.im.code, s.eip + 53, body, syms, off - 8, Some(s.eip + size), Some(s.eip + 29), c.labels)
  }

  lemma ForLoop(c: Ctx, fuel: nat, body: Stmts, hi: word, env: Env, syms: Symbols, off: int, size: nat,
                brk: Option<int>, cont: Option<int>, s: State) returns (t: State)
    requires ForHead(c, body, hi, env, syms, off, size, s)
    requires SRoom(c, s.esp, RunFor(c.p, fuel, body, hi, env))
    ensures StmtDone(c, RunFor(c.p, fuel, body, hi, env), size, syms, syms, off - 8, brk, cont, s, t)
    decreases fuel, body, 2
  {
    hide FuncOk, IsVar, Placed, Reach, Lasts, Far, Step, RunBlock, ListCode, ListFits, ListDeep, ForCode, RunFor;
    var k := |env| - 1;
    if fuel == 0 {
      NoRounds(c.p, body, hi, env);
      t := OutOfFuel(c, syms, off - 8, brk, cont, size, s);
      return;
    }
    ForNeeds(c.p, fuel, body, hi, env);
    var i := env[k].val.value;
    assert SlotOk(syms[k].val, s.ebp, s.ebp + off - 4) by { NewestSlot(c, syms, s.ebp, s.ebp + off - 4); }
    assert Read(s.mem, Address(syms[k].val, s.ebp)) == i;
    Stay(c.im, s);
    var u := ForTest(c.im, s, s, off - 4, off - 8, s.eip + size);
    NotVar(c, syms, s.ebp, s.ebp + off - 4, s.esp - 4);
    StoreElsewhere(s.mem, s.esp - 4, i, env, syms, s.ebp);
    KeepsStep(s.mem, s.esp - 4, i, s.ebp + off - 8, syms, s.ebp);
    t := u;
    if Signed(i) < Signed(hi) {
      var w := ListCorrect(c, fuel, body, env, syms, off - 8, Some(s.eip + size), Some(s.eip + 29), u);
      t := ForNext(c, fuel, body, hi, env, syms, off, size, brk, cont, s, u, w);
    }
  }

  lemma NewestSlot(c: Ctx, syms: Symbols, ebp: int, lo: int)
    requires Placed(c, syms, ebp, lo) && |syms| > |c.statics|
    ensures SlotOk(syms[|syms| - 1].val, ebp, lo)
  {
  }

  lemma NoRounds(p: Program, body: Stmts, hi: word, env: Env)
    requires |env| > p.nstatics
    ensures RunFor(p, 0, body, hi, env) == STimeout(0, 0)
  {
  }

  lemma ForNeeds(p: Program, fuel: nat, body: Stmts, hi: word, env: Env)
    requires |env| > p.nstatics && fuel > 0 && !RunFor(p, fuel, body, hi, env).SWrong?
    ensures env[|env| - 1].val.Some? && RunFor(p, fuel, body, hi, env).need >= 4
    ensures var i := env[|env| - 1].val.value;
      RunFor(p, fuel, body, hi, env) ==
        if Signed(i) >= Signed(hi) then Done(Normal, env, 4) else ForOutcome(p, fuel, body, hi, env)
  {
    ForStarts(p, fuel, body, hi, env);
    ForUnfolds(p, fuel, body, hi, env);
    hide RunFor, RunBlock;
  }

  lemma ForStarts(p: Program, fuel: nat, body: Stmts, hi: word, env: Env)
    requires |env| > p.nstatics && fuel > 0 && !RunFor(p, fuel, body, hi, env).SWrong?
    ensures env[|env| - 1].val.Some?
  {
    hide RunBlock, Signed;
  }

  lemma ForUnfolds(p: Program, fuel: nat, body: Stmts, hi: word, env: Env)
    requires |env| > p.nstatics && fuel > 0 && env[|env| - 1].val.Some?
    ensures var i := env[|env| - 1].val.value;
      RunFor(p, fuel, body, hi, env) ==
        if Signed(i) >= Signed(hi) then Done(Normal, env, 4) else ForOutcome(p, fuel, body, hi, env)
  {
    hide RunBlock, Signed, Wrap;
  }

  /** What a for loop comes to when its test succeeds. */
  function ForOutcome(p: Program, fuel: nat, body: Stmts, hi: word, env: Env): SRes
    requires |env| > p.nstatics && fuel > 0
  {
    ForResult(p, fuel - 1, body, hi, SDeepen(RunBlock(p, fuel, body, env), 4))
  }

  /** The update of a for loop: one more iteration is ready to be tested. */
  lemma ForStep(c: Ctx, body: Stmts, hi: word, env: Env, env': Env, syms: Symbols, off: int, size: nat, s: State,
                x: State) returns (y: State)
    requires |env'| == |env| > 0 && env'[|env| - 1].val.Some? && Sim(x.mem, env', syms, s.ebp)
    requires ForHead(c, body, hi, env, syms, off, size, s) && Moved(c, syms, off - 8, s, x) && x.eip == s.eip + 29
    ensures Moved(c, syms, off - 8, s, y) && Far(c.im, s, y) && y.eip == s.eip
    ensures ForHead(c, body, hi, Advanced(env'), syms, off, size, y)
  {
    hide FuncOk, Placed, Sim, Keeps, IsVar, Reach, Lasts, Far, Step, ListCode, ListFits, ListDeep, ForCode;
    var k := |env| - 1;
    ForSlots(c, body, hi, env, env', syms, off, size, s, x);
    y := ForUpdate(c.im, s, x, s.eip, off - 4, off - 8, s.eip + size);
    Stay(c.im, x);
    var z := ForUpdate(c.im, x, x, s.eip, off - 4, off - 8, s.eip + size);
    FarApart(c.im, x, z);
    FarOn(c.im, s, x, z);
    StoreToVar(c, x.mem, k, y.eax, env', syms, s.ebp, s.ebp + off - 4);
    KeepsStep(x.mem, s.ebp + off - 4, y.eax, s.ebp + off - 8, syms, s.ebp);
    KeepsTrans(s.mem, x.mem, y.mem, s.ebp + off - 8, s.ebp + off - 8, syms, s.ebp);
  }

  /** The iterator's slot is a variable, the limit's is not. */
  lemma ForSlots(c: Ctx, body: Stmts, hi: word, env: Env, env': Env, syms: Symbols, off: int, size: nat, s: State,
                 x: State)
    requires ForHead(c, body, hi, env, syms, off, size, s) && Moved(c, syms, off - 8, s, x)
    requires |env'| == |env| && Sim(x.mem, env', syms, s.ebp) && env'[|env| - 1].val.Some?
    ensures var k := |env| - 1;
      Address(syms[k].val, s.ebp) == s.ebp + off - 4 && Aligned(s.ebp + off - 4) &&
      IsVar(s.ebp + off - 4, syms, s.ebp) &&
      Read(x.mem, s.ebp + off - 4) == env'[k].val.value && Read(x.mem, s.ebp + off - 8) == hi
  {
    hide FuncOk, Reach, Lasts, Far, ListCode, ListFits, ListDeep, ForCode, StaticsPlaced;
    var k := |env| - 1;
    NewestSlot(c, syms, s.ebp, s.ebp + off - 4);
    assert Address(syms[k].val, s.ebp) == s.ebp + off - 4;
    NotVar(c, syms, s.ebp, s.ebp + off - 4, s.ebp + off - 8);
    KeptRead(s.mem, x.mem, s.ebp + off - 8, syms, s.ebp, s.ebp + off - 8);
  }

  /** After the body of a for loop, which ran from v to w. */
  lemma ForNext(c: Ctx, fuel: nat, body: Stmts, hi: word, env: Env, syms: Symbols, off: int, size: nat,
                brk: Option<int>, cont: Option<int>, s: State, v: State, w: State) returns (t: State)
    requires |env| > c.p.nstatics && fuel > 0 && ForHead(c, body, hi, env, syms, off, size, s)
    requires Moved(c, syms, off - 8, s, v) && v.eip == s.eip + 53
    requires StmtDone(c, RunBlock(c.p, fuel, body, env), ListSize(body), syms, syms, off - 8, Some(s.eip + size),
      Some(s.eip + 29), v, w)
    requires SRoom(c, s.esp, ForOutcome(c.p, fuel, body, hi, env))
    ensures StmtDone(c, ForOutcome(c.p, fuel, body, hi, env), size, syms, syms, off - 8, brk, cont, s, t)
    decreases fuel, body, 1
  {
    hide FuncOk, Placed, Sim, Keeps, IsVar, Reach, Lasts, Far, Step, ListCode, ListFits, ListDeep, ForCode, RunBlock,
      RunFor, SameNames, StaticsPlaced;
    var q := RunBlock(c.p, fuel, body, env);
    t := w;
    if !q.Done? || q.ctl.Returned? || q.ctl.Broke? {
      ForLeft(c, fuel, body, hi, env, syms, off, size, brk, cont, s, v, w);
    } else {
      MovedOn(c, syms, off - 8, s, v, w);
      if q.ctl.Normal? {
        t := Jump(c.im, s, w, s.eip + 29);
      }
      t := ForAgain(c, fuel, body, hi, env, q.env, syms, off, size, brk, cont, s, t);
    }
  }

  /** The body left the loop. */
  lemma ForLeft(c: Ctx, fuel: nat, body: Stmts, hi: word, env: Env, syms: Symbols, off: int, size: nat,
                brk: Option<int>, cont: Option<int>, s: State, v: State, w: State)
    requires |env| > c.p.nstatics && fuel > 0 && ForHead(c, body, hi, env, syms, off, size, s)
    requires Moved(c, syms, off - 8, s, v) && v.eip == s.eip + 53
    requires StmtDone(c, RunBlock(c.p, fuel, body, env), ListSize(body), syms, syms, off - 8, Some(s.eip + size),
      Some(s.eip + 29), v, w)
    requires SRoom(c, s.esp, ForOutcome(c.p, fuel, body, hi, env))
    requires var q := RunBlock(c.p, fuel, body, env);
      !q.Done? || q.ctl.Returned? || q.ctl.Broke?
    ensures StmtDone(c, ForOutcome(c.p, fuel, body, hi, env), size, syms, syms, off - 8, brk, cont, s, w)
  {
    hide FuncOk, Placed, Sim, Keeps, IsVar, Reach, Lasts, Far, Step, ListCode, ListFits, ListDeep, ForCode, RunBlock,
      RunFor, SameNames, StaticsPlaced;
    var q := RunBlock(c.p, fuel, body, env);
    if q.Done? && q.ctl.Broke? {
      MovedOn(c, syms, off - 8, s, v, w);
    } else {
      After(c, q, ListSize(body), size, syms, syms, off - 8, off - 8, brk, cont, env, ListDeep(body, off - 8), s, v, w);
    }
  }

  /** After the body: the update, and the loop from its head on. */
  lemma ForAgain(c: Ctx, fuel: nat, body: Stmts, hi: word, env: Env, env1: Env, syms: Symbols, off: int, size: nat,
                 brk: Option<int>, cont: Option<int>, s: State, x: State) returns (t: State)
    requires |env1| == |env| > c.p.nstatics && fuel > 0 && ForHead(c, body, hi, env, syms, off, size, s)
    requires Moved(c, syms, off - 8, s, x) && x.eip == s.eip + 29
    requires Sim(x.mem, env1, syms, s.ebp) && env1[|env| - 1].val.Some?
    requires SRoom(c, s.esp, RunFor(c.p, fuel - 1, body, hi, Advanced(env1)))
    ensures StmtDone(c, SLater(RunFor(c.p, fuel - 1, body, hi, Advanced(env1))), size, syms, syms, off - 8, brk, cont,
      s, t)
    decreases fuel, body, 0
  {
    hide FuncOk, Placed, Sim, Keeps, IsVar, Reach, Lasts, Far, Step, ListCode, ListFits, ListDeep, ForCode, RunBlock,
      RunFor, SameNames;
    var y := ForStep(c, body, hi, env, env1, syms, off, size, s, x);
    t := ForLoop(c, fuel - 1, body, hi, Advanced(env1), syms, off, size, brk, cont, y);
    var r := RunFor(c.p, fuel - 1, body, hi, Advanced(env1));
    if r.STimeout? {
      LastsLonger(c.im, s, y, t, r.rounds);
      Stay(c.im, s);
      t := s;
    } else {
      After(c, r, size, size, syms, syms, off - 8, off - 8, brk, cont, env, ListDeep(body, off - 8), s, y, t);
    }
  }

  lemma MatchCorrect(c: Ctx, fuel: nat, st: Stmt, env: Env, syms: Symbols, off: int,
                     brk: Option<int>, cont: Option<int>, s: State) returns (t: State)
    requires st.Match? && StmtPre(c, fuel, st, env, syms, off, brk, cont, s)
    ensures StmtDone(c, RunStmt(c.p, fuel, st, env), StmtSize(st), syms, syms, off, brk, cont, s, t)
    decreases fuel, st, 0
  {
    hide FuncOk, Placed, Sim, Keeps, IsVar, Reach, Lasts, Far, Step, Eval, ExprCode, ArmsCode, ArmsFit, RunArms,
      ArmsSize, ArmsDeep, ArmCount, Compare, Effect, RunStmt;
    MatchMeans(c.p, fuel, st, env);
    var deep := StmtDeep(st, off);
    var r := Eval(c.p, fuel, st.e, env);
    t := Evaluate(c, fuel, st.e, env, syms, off, deep, s);
    if r.Val? {
      var u := StoreTemp(c, r.env, syms, off, deep, s, t);
      var n := ArmsSize(st.arms, 0);
      LowerReady(c, r.env, syms, off, deep, off - 4, deep, u);
      t := ArmsCorrect(c, fuel, st.arms, 0, r.v, r.env, syms, off - 4, off - 4, brk, cont, u);
      After(c, RunArms(c.p, fuel, st.arms, r.v, r.env), n, StmtSize(st), syms, syms, off, off - 4, brk, cont, env, deep,
        s, u, t);
    }
  }

  /** The arms from the k-th on, with the matched value in the unnamed slot tmp. */
  lemma ArmsCorrect(c: Ctx, fuel: nat, arms: Arms, k: nat, v: word, env: Env, syms: Symbols, tmp: int, off: int,
                    brk: Option<int>, cont: Option<int>, s: State) returns (t: State)
    requires Good(c) && StmtReady(c, env, syms, off, ArmsDeep(arms, off), s)
    requires off <= tmp && Aligned(s.ebp + tmp) && !IsVar(s.ebp + tmp, syms, s.ebp) && Read(s.mem, s.ebp + tmp) == v
    requires k + ArmCount(arms) <= 33 && ArmsFit(arms)
    requires ArmsCode(c.im.code, s.eip, arms, k, tmp, s.eip + ArmsSize(arms, k), syms, off, brk, cont, c.labels)
    requires SRoom(c, s.esp, RunArms(c.p, fuel, arms, v, env))
    ensures StmtDone(c, RunArms(c.p, fuel, arms, v, env), ArmsSize(arms, k), syms, syms, off, brk, cont, s, t)
    decreases fuel, arms, 2
  {
    hide FuncOk, Placed, Sim, Keeps, IsVar, Reach, Lasts, Far, Step, Eval, ExprCode, ListCode, ListFits, RunBlock,
      ListDeep, ListOff;
    match arms
    case ANil =>
      Stay(c.im, s);
      KeepsAll(s.mem, s.ebp + off, syms, s.ebp);
      t := s;
    case ACons(pat, body, rest) =>
      Stay(c.im, s);
      KeepsAll(s.mem, s.ebp + off, syms, s.ebp);
      if pat.None? {
        t := ArmBody(c, fuel, arms, k, env, env, syms, off, brk, cont, s, s);
      } else {
        t := ArmPattern(c, fuel, arms, k, v, env, syms, tmp, off, brk, cont, s);
      }
  }

  /** An arm with a pattern: into its body when the values agree, else to the next. */
  lemma ArmPattern(c: Ctx, fuel: nat, arms: Arms, k: nat, v: word, env: Env, syms: Symbols, tmp: int, off: int,
                   brk: Option<int>, cont: Option<int>, s: State) returns (t: State)
    requires arms.ACons? && arms.pat.Some?
    requires Good(c) && StmtReady(c, env, syms, off, ArmsDeep(arms, off), s)
    requires off <= tmp && Aligned(s.ebp + tmp) && !IsVar(s.ebp + tmp, syms, s.ebp) && Read(s.mem, s.ebp + tmp) == v
    requires k + ArmCount(arms) <= 33 && ArmsFit(arms)
    requires ArmsCode(c.im.code, s.eip, arms, k, tmp, s.eip + ArmsSize(arms, k), syms, off, brk, cont, c.labels)
    requires SRoom(c, s.esp, RunArms(c.p, fuel, arms, v, env))
    ensures StmtDone(c, RunArms(c.p, fuel, arms, v, env), ArmsSize(arms, k), syms, syms, off, brk, cont, s, t)
    decreases fuel, arms, 1
  {
    hide FuncOk, Placed, Sim, Keeps, IsVar, Reach, Lasts, Far, Step, Eval, ExprCode, ListCode, ListFits, RunBlock,
      ListDeep, Compare, Effect, ListOff, ListSize, ExprSize, SameNames, Here, ArmsCode, IsLoad, IsJcc, RunArms;
    ArmsEmitted(c.im.code, s.eip, arms, k, tmp, s.eip + ArmsSize(arms, k), syms, off, brk, cont, c.labels);
    ArmsMean(c.p, fuel, arms, v, env);
    var deep := ArmsDeep(arms, off);
    var q := Eval(c.p, fuel, arms.pat.value, env);
    var n := ArmSize(arms.pat, arms.body, k);
    t := Evaluate(c, fuel, arms.pat.value, env, syms, off, deep, s);
    if q.Val? {
      KeptRead(s.mem, t.mem, s.ebp + off, syms, s.ebp, s.ebp + tmp);
      var w := ArmTest(c.im, s, t, tmp, s.eip + n);
      if q.v == v {
        t := ArmBody(c, fuel, arms, k, env, q.env, syms, off, brk, cont, s, w);
      } else {
        var off1 := ListOff(arms.body, off);
        LowerReady(c, q.env, syms, off, deep, off1, ArmsDeep(arms.rest, off1), w);
        t := ArmsCorrect(c, fuel, arms.rest, k + 1, v, q.env, syms, tmp, off1, brk, cont, w);
        After(c, RunArms(c.p, fuel, arms.rest, v, q.env), ArmsSize(arms.rest, k + 1), ArmsSize(arms, k), syms, syms,
          off, off1,
              brk, cont, env, deep, s, w, t);
      }
    }
  }

  /** The body of the k-th arm, entered at u, and the way to the end of the match. */
  lemma ArmBody(c: Ctx, fuel: nat, arms: Arms, k: nat, env0: Env, env: Env, syms: Symbols, off: int,
                brk: Option<int>, cont: Option<int>, s: State, u: State) returns (t: State)
    requires arms.ACons? && Good(c) && StmtReady(c, env0, syms, off, ArmsDeep(arms, off), s)
    requires Moved(c, syms, off, s, u) && StmtReady(c, env, syms, off, ArmsDeep(arms, off), u)
    requires u.eip == s.eip + ArmSize(arms.pat, arms.body, k) - ListSize(arms.body) - ExitSize(k)
    requires k + ArmCount(arms) <= 33 && ListFits(arms.body)
    requires ListCode(c.im.code, u.eip, arms.body, syms, off, brk, cont, c.labels)
    requires k < 32 ==> IsJmp(c.im.code, u.eip + ListSize(arms.body), s.eip + ArmsSize(arms, k))
    requires SRoom(c, s.esp, RunBlock(c.p, fuel, arms.body, env))
    ensures StmtDone(c, RunBlock(c.p, fuel, arms.body, env), ArmsSize(arms, k), syms, syms, off, brk, cont, s, t)
    decreases fuel, arms, 0
  {
    hide FuncOk, Placed, Sim, Keeps, IsVar, Reach, Lasts, Far, Step, ListCode, ListFits, RunBlock, ListDeep, ListOff,
      ListSize;
    var q := RunBlock(c.p, fuel, arms.body, env);
    var deep := ArmsDeep(arms, off);
    var n := ListSize(arms.body);
    LowerReady(c, env, syms, off, deep, off, ListDeep(arms.body, off), u);
    t := ListCorrect(c, fuel, arms.body, env, syms, off, brk, cont, u);
    var size := s.eip + ArmsSize(arms, k) - u.eip;
    if k < 32 {
      t := Onward(c, q, n, size, syms, off, brk, cont, u, t);
    } else {
      assert arms.rest.ANil? && ArmsSize(arms.rest, k + 1) == 0;
    }
    After(c, q, size, ArmsSize(arms, k), syms, syms, off, off, brk, cont, env0, deep, s, u, t);
  }
}
