/** Emitting more code leaves the layout of what is there alone; the limits of the
    compiler's tables. */
module Layout {
  import opened Base
  import opened Bindings
  import opened Word
  import opened X86
  import opened Source
  import opened Codegen
  import opened Emit

  ghost predicate Grown(code: Code, code': Code) {
    forall q :: q in code ==> q in code' && code'[q] == code[q]
  }

  lemma GrownTwice(code: Code, code1: Code, code2: Code)
    requires Grown(code, code1) && Grown(code1, code2)
    ensures Grown(code, code2)
  {
  }

  /** Single instructions stay. */
  lemma AtomsGrown(code: Code, code': Code)
    requires Grown(code, code')
    ensures forall p, i {:trigger Here(code', p, i)} :: Here(code, p, i) ==> Here(code', p, i)
    ensures forall p, r, l {:trigger IsLoad(code', p, r, l)} :: IsLoad(code, p, r, l) ==> IsLoad(code', p, r, l)
    ensures forall p, r, l {:trigger IsStore(code', p, l, r)} :: IsStore(code, p, l, r) ==> IsStore(code', p, l, r)
    ensures forall p, t {:trigger IsJmp(code', p, t)} :: IsJmp(code, p, t) ==> IsJmp(code', p, t)
    ensures forall p, c, t {:trigger IsJcc(code', p, c, t)} :: IsJcc(code, p, c, t) ==> IsJcc(code', p, c, t)
    ensures forall p, t {:trigger IsJmpTo(code', p, t)} :: IsJmpTo(code, p, t) ==> IsJmpTo(code', p, t)
    ensures forall p, n {:trigger IsAddEsp(code', p, n)} :: IsAddEsp(code, p, n) ==> IsAddEsp(code', p, n)
    ensures forall p, f, ls {:trigger IsCallTo(code', p, f, ls)} :: IsCallTo(code, p, f, ls) ==>
      IsCallTo(code', p, f, ls)
  {
  }

  lemma HereGrown(code: Code, code': Code, p: int, i: Instr)
    requires Grown(code, code') && Here(code, p, i)
    ensures Here(code', p, i)
  {
  }

  lemma LoadGrown(code: Code, code': Code, p: int, r: Reg, l: Loc)
    requires Grown(code, code') && IsLoad(code, p, r, l)
    ensures IsLoad(code', p, r, l)
  {
  }

  lemma StoreGrown(code: Code, code': Code, p: int, l: Loc, r: Reg)
    requires Grown(code, code') && IsStore(code, p, l, r)
    ensures IsStore(code', p, l, r)
  {
  }

  lemma OpGrown(code: Code, code': Code, p: int, op: BinOp)
    requires Grown(code, code') && OpCode(code, p, op)
    ensures OpCode(code', p, op)
  {
  }

  lemma CallGrown(code: Code, code': Code, p: int, f: string, labels: Labels)
    requires Grown(code, code') && IsCallTo(code, p, f, labels)
    ensures IsCallTo(code', p, f, labels)
  {
  }

  lemma SequencesGrown(code: Code, code': Code)
    requires Grown(code, code')
    ensures forall p, op {:trigger OpCode(code', p, op)} :: OpCode(code, p, op) ==> OpCode(code', p, op)
    ensures forall p {:trigger BoolCode(code', p)} :: BoolCode(code, p) ==> BoolCode(code', p)
    ensures forall p, c, t {:trigger TestCode(code', p, c, t)} :: TestCode(code, p, c, t) ==> TestCode(code', p, c, t)
    ensures forall p {:trigger EpilogueCode(code', p)} :: EpilogueCode(code, p) ==> EpilogueCode(code', p)
    ensures forall p, i, h, x {:trigger ForCode(code', p, i, h, x)} :: ForCode(code, p, i, h, x) ==>
      ForCode(code', p, i, h, x)
  {
    AtomsGrown(code, code');
    hide Here, IsLoad, IsStore, IsJmp, IsJcc, Grown;
  }

  lemma {:induction false} ReverseGrown(code: Code, code': Code, p: int, argc: nat, i: nat)
    requires ReverseCode(code, p, argc, i) && Grown(code, code')
    ensures ReverseCode(code', p, argc, i)
    decreases argc / 2 - i
  {
    if i < argc / 2 {
      ReverseGrown(code, code', p + 28, argc, i + 1);
    }
  }

  lemma {:induction false} ExprGrown(code: Code, code': Code, p: int, e: Expr, syms: Symbols, labels: Labels)
    requires ExprCode(code, p, e, syms, labels) && Grown(code, code')
    ensures ExprCode(code', p, e, syms, labels)
    decreases e
  {
    hide Here, IsLoad, IsStore, IsJmp, IsJcc, IsJmpTo, IsAddEsp, IsCallTo, OpCode, BoolCode, TestCode, EpilogueCode,
      ForCode, Grown, Find, ReverseCode, OpSize, ExprSize, ArgsSize, ArgCount, ArgsCode;
    AtomsGrown(code, code');
    SequencesGrown(code, code');
    match e
    case Const(_) =>
    case Str(_, _) =>
    case Var(_) =>
    case Unary(_, e1) =>
      ExprGrown(code, code', p, e1, syms, labels);
    case Binary(_, l, r) =>
      ExprGrown(code, code', p, l, syms, labels);
      ExprGrown(code, code', p + ExprSize(l) + 1, r, syms, labels);
    case AndAlso(l, r) =>
      ExprGrown(code, code', p, l, syms, labels);
      ExprGrown(code, code', p + ExprSize(l) + 11, r, syms, labels);
    case OrElse(l, r) =>
      ExprGrown(code, code', p, l, syms, labels);
      ExprGrown(code, code', p + ExprSize(l) + 11, r, syms, labels);
    case Assign(_, e1) =>
      ExprGrown(code, code', p, e1, syms, labels);
    case OpAssign(_, _, e1) =>
      ExprGrown(code, code', p + 7, e1, syms, labels);
    case Call(_, args) =>
      ArgsGrown(code, code', p, args, syms, labels);
      ReverseGrown(code, code', p + ArgsSize(args), ArgCount(args), 0);
  }

  lemma {:induction false} ArgsGrown(code: Code, code': Code, p: int, args: Exprs, syms: Symbols, labels: Labels)
    requires ArgsCode(code, p, args, syms, labels) && Grown(code, code')
    ensures ArgsCode(code', p, args, syms, labels)
    decreases args
  {
    hide Here, Grown, ExprCode, ExprSize;
    AtomsGrown(code, code');
    if args.ECons? {
      ExprGrown(code, code', p, args.e, syms, labels);
      ArgsGrown(code, code', p + ExprSize(args.e) + 1, args.rest, syms, labels);
    }
  }

  lemma {:induction false} StmtGrown(code: Code, code': Code, p: int, s: Stmt, syms: Symbols, off: int,
                                     brk: Option<int>, cont: Option<int>, labels: Labels)
    requires StmtCode(code, p, s, syms, off, brk, cont, labels) && Grown(code, code')
    ensures StmtCode(code', p, s, syms, off, brk, cont, labels)
    decreases s
  {
    hide Here, IsLoad, IsStore, IsJmp, IsJcc, IsJmpTo, IsAddEsp, IsCallTo, OpCode, BoolCode, TestCode, EpilogueCode,
      ForCode, Grown, Find, ReverseCode, OpSize, ExprCode, ExprSize, ListOff, ListSize, ArmsSize, ArmsCode, ListCode;
    AtomsGrown(code, code');
    SequencesGrown(code, code');
    match s
    case Do(e) => ExprGrown(code, code', p, e, syms, labels);
    case Let(x, init) =>
      if init.Some? {
        ExprGrown(code, code', p, init.value, syms + [Entry(x, Slot(off - 4))], labels);
      }
    case If(c, thn, els) =>
      var p1 := p + ExprSize(c) + 11;
      ExprGrown(code, code', p, c, syms, labels);
      ListGrown(code, code', p1, thn, syms, off, brk, cont, labels);
      if els.Some? {
        ListGrown(code, code', p1 + ListSize(thn) + 5, els.value, syms, ListOff(thn, off), brk, cont, labels);
      }
    case While(c, body) =>
      var p1 := p + ExprSize(c) + 11;
      ExprGrown(code, code', p, c, syms, labels);
      ListGrown(code, code', p1, body, syms, off, Some(p1 + ListSize(body) + 5), Some(p), labels);
    case Loop(body) =>
      ListGrown(code, code', p, body, syms, off, Some(p + ListSize(body) + 5), Some(p), labels);
    case For(x, lo, hi, body) =>
      var syms1 := syms + [Entry(x, Slot(off - 4))];
      var p1 := p + ExprSize(lo) + 6;
      var p2 := p1 + ExprSize(hi) + 6;
      ExprGrown(code, code', p, lo, syms, labels);
      ExprGrown(code, code', p1, hi, syms1, labels);
      ListGrown(code, code', p2 + 53, body, syms1, off - 8, Some(p2 + 53 + ListSize(body) + 5), Some(p2 + 29), labels);
    case Match(e, arms) =>
      var p1 := p + ExprSize(e) + 6;
      ExprGrown(code, code', p, e, syms, labels);
      ArmsGrown(code, code', p1, arms, 0, off - 4, p1 + ArmsSize(arms, 0), syms, off - 4, brk, cont, labels);
    case Block(body) => ListGrown(code, code', p, body, syms, off, brk, cont, labels);
    case Break =>
    case Continue =>
    case Return(e) =>
      if e.Some? {
        ExprGrown(code, code', p, e.value, syms, labels);
      }
  }

  lemma {:induction false} ListGrown(code: Code, code': Code, p: int, ss: Stmts, syms: Symbols, off: int,
                                     brk: Option<int>, cont: Option<int>, labels: Labels)
    requires ListCode(code, p, ss, syms, off, brk, cont, labels) && Grown(code, code')
    ensures ListCode(code', p, ss, syms, off, brk, cont, labels)
    decreases ss
  {
    if ss.SCons? {
      StmtGrown(code, code', p, ss.s, syms, off, brk, cont, labels);
      ListGrown(code, code', p + StmtSize(ss.s), ss.rest, StmtSyms(ss.s, syms, off), StmtOff(ss.s, off), brk, cont,
        labels);
    }
  }

  lemma {:induction false} ArmsGrown(code: Code, code': Code, p: int, arms: Arms, k: nat, tmp: int, end: int,
                                     syms: Symbols,
                                     off: int, brk: Option<int>, cont: Option<int>, labels: Labels)
    requires ArmsCode(code, p, arms, k, tmp, end, syms, off, brk, cont, labels) && Grown(code, code')
    ensures ArmsCode(code', p, arms, k, tmp, end, syms, off, brk, cont, labels)
    decreases arms
  {
    hide Here, IsLoad, IsStore, IsJmp, IsJcc, IsJmpTo, IsAddEsp, IsCallTo, OpCode, BoolCode, TestCode, EpilogueCode,
      ForCode, Grown, Find, ReverseCode, OpSize, ExprCode, ExprSize, ListCode, ListSize, ListOff;
    AtomsGrown(code, code');
    SequencesGrown(code, code');
    if arms.ACons? {
      if arms.pat.Some? {
        ExprGrown(code, code', p, arms.pat.value, syms, labels);
      }
      var body := p + if arms.pat.None? then 0 else ExprSize(arms.pat.value) + 14;
      ListGrown(code, code', body, arms.body, syms, off, brk, cont, labels);
      ArmsGrown(code, code', p + ArmSize(arms.pat, arms.body, k), arms.rest, k + 1, tmp, end, syms,
        ListOff(arms.body, off),
                brk, cont, labels);
    }
  }
}
