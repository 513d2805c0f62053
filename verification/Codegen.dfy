/** What the compiler emits for every construct (src/rc/parse.rs), stated as a
    layout: which instruction stands at which offset of the code.  The pass that
    appends bytes and backpatches them is in Parse.dfy. */
module Codegen {
  import opened Base
  import opened Bindings
  import opened Word
  import opened X86
  import opened Source

  type Code = map<int, Instr>

  /** Where a variable lives: [ebp+off], or at an absolute address. */
  datatype Loc = Slot(off: int) | Static(addr: int)

  type Symbols = seq<Entry<Loc>>

  /** Functions whose offset is already known. */
  type Labels = map<string, int>

  // ---- single instructions --------------------------------------------------------

  predicate Here(code: Code, p: int, i: Instr) {
    p in code && code[p] == i
  }

  predicate IsLoad(code: Code, p: int, r: Reg, l: Loc) {
    p in code &&
    match l
    case Slot(o) => code[p].LoadBp? && code[p].r == r && code[p].disp == o
    case Static(a) => code[p].LoadAbs? && code[p].r == r && code[p].addr == a
  }

  predicate IsStore(code: Code, p: int, l: Loc, r: Reg) {
    p in code &&
    match l
    case Slot(o) => code[p].StoreBp? && code[p].r == r && code[p].disp == o
    case Static(a) => code[p].StoreAbs? && code[p].r == r && code[p].addr == a
  }

  predicate IsJmp(code: Code, p: int, target: int) {
    p in code && code[p].Jmp? && p + 5 + code[p].rel == target
  }

  predicate IsJcc(code: Code, p: int, cc: CC, target: int) {
    p in code && code[p].Jcc? && code[p].cc == cc && p + 6 + code[p].rel == target
  }

  /** A jump whose target is only required once it is known. */
  predicate IsJmpTo(code: Code, p: int, target: Option<int>) {
    p in code && code[p].Jmp? && (target.Some? ==> p + 5 + code[p].rel == target.value)
  }

  predicate IsCallTo(code: Code, p: int, f: string, labels: Labels) {
    p in code && code[p].CallRel? && (f in labels ==> p + 5 + code[p].rel == labels[f])
  }

  predicate IsAddEsp(code: Code, p: int, n: int) {
    p in code && code[p].AddEsp? && code[p].n == n
  }

  predicate IsSubEsp(code: Code, p: int, n: int) {
    p in code && code[p].SubEsp? && code[p].n == n
  }

  // ---- expressions ----------------------------------------------------------------

  function OpSize(op: BinOp): nat {
    match op
    case Mul | Div => 3
    case Rem => 5
    case Cmp(_) => 8
    case _ => 2
  }

  /** The operator on EAX and ECX, result to EAX. */
  predicate OperatorCode(code: Code, p: int, op: BinOp) {
    match op
    case Add => Here(code, p, Rr(AluAdd, EAX, ECX))
    case Sub => Here(code, p, Rr(AluSub, EAX, ECX))
    case Mul => Here(code, p, Imul(EAX, ECX))
    case Div => Here(code, p, Cdq) && Here(code, p + 1, IdivEcx)
    case Rem => Here(code, p, Cdq) && Here(code, p + 1, IdivEcx) && Here(code, p + 3, Rr(AluMov, EAX, EDX))
    case BAnd => Here(code, p, Rr(AluAnd, EAX, ECX))
    case BOr => Here(code, p, Rr(AluOr, EAX, ECX))
    case BXor => Here(code, p, Rr(AluXor, EAX, ECX))
    case Shl => Here(code, p, ShlCl(EAX))
    case Shr => Here(code, p, ShrCl(EAX))
    case Cmp(cc) =>
      Here(code, p, Rr(AluCmp, EAX, ECX)) && Here(code, p + 2, SetCC(cc, EAX)) && Here(code, p + 5, MovzxEaxAl)
  }

  /** Left operand on the stack, right operand in EAX; result to EAX. */
  predicate OpCode(code: Code, p: int, op: BinOp) {
    Here(code, p, Rr(AluMov, ECX, EAX)) && Here(code, p + 2, Pop(EAX)) && OperatorCode(code, p + 3, op)
  }

  /** cmp eax, 0; setne al; movzx eax, al */
  predicate BoolCode(code: Code, p: int) {
    Here(code, p, CmpEaxImm(0)) && Here(code, p + 5, SetCC(NE, EAX)) && Here(code, p + 8, MovzxEaxAl)
  }

  /** cmp eax, 0; jcc target */
  predicate TestCode(code: Code, p: int, cc: CC, target: int) {
    Here(code, p, CmpEaxImm(0)) && IsJcc(code, p + 5, cc, target)
  }

  /** Exchange [esp+lo] and [esp+hi]. */
  predicate SwapCode(code: Code, p: int, lo: int, hi: int) {
    (p in code && code[p].LoadSp? && code[p].r == EAX && code[p].disp == lo) &&
    (p + 7 in code && code[p + 7].LoadSp? && code[p + 7].r == ECX && code[p + 7].disp == hi) &&
    (p + 14 in code && code[p + 14].StoreSp? && code[p + 14].r == ECX && code[p + 14].disp == lo) &&
    (p + 21 in code && code[p + 21].StoreSp? && code[p + 21].r == EAX && code[p + 21].disp == hi)
  }

  /** The swaps from the i-th pair on that reverse argc words in place. */
  predicate ReverseCode(code: Code, p: int, argc: nat, i: nat)
    decreases argc / 2 - i
  {
    i < argc / 2 ==>
      SwapCode(code, p, 4 * i, 4 * (argc - 1 - i)) && ReverseCode(code, p + 28, argc, i + 1)
  }

  function ExprSize(e: Expr): (n: nat) {
    match e
    case Const(_) | Str(_, _) => 5
    case Var(_) => 6
    case Unary(_, e1) => ExprSize(e1) + 2
    case Binary(op, l, r) => ExprSize(l) + 1 + ExprSize(r) + 3 + OpSize(op)
    case AndAlso(l, r) => ExprSize(l) + 11 + ExprSize(r) + 11
    case OrElse(l, r) => ExprSize(l) + 11 + ExprSize(r) + 21
    case Assign(_, e1) => ExprSize(e1) + 6
    case OpAssign(_, op, e1) => 7 + ExprSize(e1) + 3 + OpSize(op) + 6
    case Call(_, args) =>
      var n := ArgCount(args);
      ArgsSize(args) + 28 * (n / 2) + 5 + (if n > 0 then 6 else 0)
  }

  function ArgsSize(args: Exprs): (n: nat) {
    if args.ENil? then 0 else ExprSize(args.e) + 1 + ArgsSize(args.rest)
  }

  predicate ExprCode(code: Code, p: int, e: Expr, syms: Symbols, labels: Labels)
    decreases e
  {
    match e
    case Const(w) => Here(code, p, MovImm(EAX, w))
    case Str(_, a) => Here(code, p, MovImm(EAX, a))
    case Var(x) => Find(syms, x) >= 0 && IsLoad(code, p, EAX, syms[Find(syms, x)].val)
    case Unary(u, e1) =>
      ExprCode(code, p, e1, syms, labels) &&
      Here(code, p + ExprSize(e1), if u.Minus? then Neg(EAX) else Not(EAX))
    case Binary(op, l, r) =>
      var p1 := p + ExprSize(l);
      ExprCode(code, p, l, syms, labels) && Here(code, p1, Push(EAX)) &&
      ExprCode(code, p1 + 1, r, syms, labels) && OpCode(code, p1 + 1 + ExprSize(r), op)
    case AndAlso(l, r) =>
      var p1 := p + ExprSize(l);
      var p2 := p1 + 11 + ExprSize(r);
      ExprCode(code, p, l, syms, labels) && TestCode(code, p1, E, p2 + 11) &&
      ExprCode(code, p1 + 11, r, syms, labels) && BoolCode(code, p2)
    case OrElse(l, r) =>
      var p1 := p + ExprSize(l);
      var p2 := p1 + 11 + ExprSize(r);
      ExprCode(code, p, l, syms, labels) && TestCode(code, p1, NE, p2 + 16) &&
      ExprCode(code, p1 + 11, r, syms, labels) && BoolCode(code, p2) &&
      IsJmp(code, p2 + 11, p2 + 21) && Here(code, p2 + 16, MovImm(EAX, 1))
    case Assign(x, e1) =>
      ExprCode(code, p, e1, syms, labels) &&
      Find(syms, x) >= 0 && IsStore(code, p + ExprSize(e1), syms[Find(syms, x)].val, EAX)
    case OpAssign(x, op, e1) =>
      var p2 := p + 7 + ExprSize(e1);
      (op.Add? || op.Sub? || op.Mul? || op.Div?) &&
      Find(syms, x) >= 0 && IsLoad(code, p, EAX, syms[Find(syms, x)].val) && Here(code, p + 6, Push(EAX)) &&
      ExprCode(code, p + 7, e1, syms, labels) && OpCode(code, p2, op) &&
      IsStore(code, p2 + 3 + OpSize(op), syms[Find(syms, x)].val, EAX)
    case Call(f, args) =>
      var n := ArgCount(args);
      var p1 := p + ArgsSize(args);
      var p2 := p1 + 28 * (n / 2);
      ArgsCode(code, p, args, syms, labels) && ReverseCode(code, p1, n, 0) &&
      IsCallTo(code, p2, f, labels) && (n > 0 ==> IsAddEsp(code, p2 + 5, 4 * n))
  }

  predicate ArgsCode(code: Code, p: int, args: Exprs, syms: Symbols, labels: Labels)
    decreases args
  {
    args.ECons? ==>
      var p1 := p + ExprSize(args.e);
      ExprCode(code, p, args.e, syms, labels) && Here(code, p1, Push(EAX)) &&
      ArgsCode(code, p1 + 1, args.rest, syms, labels)
  }

  // ---- equations, for proofs that do not look inside ExprCode -------------------------

  lemma CodeUnary(code: Code, p: int, e: Expr, syms: Symbols, labels: Labels)
    requires e.Unary?
    ensures ExprSize(e) == ExprSize(e.e) + 2
    ensures ExprCode(code, p, e, syms, labels) <==>
      ExprCode(code, p, e.e, syms, labels) && Here(code, p + ExprSize(e.e), if e.u.Minus? then Neg(EAX) else Not(EAX))
  {
    hide Here, TestCode, BoolCode, OpCode, IsJmp, IsLoad, IsStore, IsCallTo, IsAddEsp, ReverseCode, ArgsCode, ArgsSize,
      Find, OpSize;
  }

  lemma CodeBinary(code: Code, p: int, e: Expr, syms: Symbols, labels: Labels)
    requires e.Binary?
    ensures ExprSize(e) == ExprSize(e.l) + 1 + ExprSize(e.r) + 3 + OpSize(e.op)
    ensures var p1 := p + ExprSize(e.l);
      ExprCode(code, p, e, syms, labels) <==>
        ExprCode(code, p, e.l, syms, labels) && Here(code, p1, Push(EAX)) &&
        ExprCode(code, p1 + 1, e.r, syms, labels) && OpCode(code, p1 + 1 + ExprSize(e.r), e.op)
  {
    hide Here, TestCode, BoolCode, OpCode, IsJmp, IsLoad, IsStore, IsCallTo, IsAddEsp, ReverseCode, ArgsCode, ArgsSize,
      Find, OpSize;
  }

  lemma CodeAnd(code: Code, p: int, e: Expr, syms: Symbols, labels: Labels)
    requires e.AndAlso?
    ensures ExprSize(e) == ExprSize(e.l) + 11 + ExprSize(e.r) + 11
    ensures var p1 := p + ExprSize(e.l);
      var p2 := p1 + 11 + ExprSize(e.r);
      ExprCode(code, p, e, syms, labels) <==>
        ExprCode(code, p, e.l, syms, labels) && TestCode(code, p1, E, p2 + 11) &&
        ExprCode(code, p1 + 11, e.r, syms, labels) && BoolCode(code, p2)
  {
    hide Here, TestCode, BoolCode, OpCode, IsJmp, IsLoad, IsStore, IsCallTo, IsAddEsp, ReverseCode, ArgsCode, ArgsSize,
      Find, OpSize;
  }

  lemma CodeOr(code: Code, p: int, e: Expr, syms: Symbols, labels: Labels)
    requires e.OrElse?
    ensures ExprSize(e) == ExprSize(e.l) + 11 + ExprSize(e.r) + 21
    ensures var p1 := p + ExprSize(e.l);
      var p2 := p1 + 11 + ExprSize(e.r);
      ExprCode(code, p, e, syms, labels) <==>
        ExprCode(code, p, e.l, syms, labels) && TestCode(code, p1, NE, p2 + 16) &&
        ExprCode(code, p1 + 11, e.r, syms, labels) && BoolCode(code, p2) &&
        IsJmp(code, p2 + 11, p2 + 21) && Here(code, p2 + 16, MovImm(EAX, 1))
  {
    hide Here, TestCode, BoolCode, OpCode, IsJmp, IsLoad, IsStore, IsCallTo, IsAddEsp, ReverseCode, ArgsCode, ArgsSize,
      Find, OpSize;
  }

  lemma CodeAssign(code: Code, p: int, e: Expr, syms: Symbols, labels: Labels)
    requires e.Assign?
    ensures ExprSize(e) == ExprSize(e.e) + 6
    ensures ExprCode(code, p, e, syms, labels) <==>
      ExprCode(code, p, e.e, syms, labels) &&
      Find(syms, e.x) >= 0 && IsStore(code, p + ExprSize(e.e), syms[Find(syms, e.x)].val, EAX)
  {
    hide Here, TestCode, BoolCode, OpCode, IsJmp, IsLoad, IsStore, IsCallTo, IsAddEsp, ReverseCode, ArgsCode, ArgsSize,
      Find, OpSize;
  }

  lemma CodeCall(code: Code, p: int, e: Expr, syms: Symbols, labels: Labels)
    requires e.Call?
    ensures var n := ArgCount(e.args);
      ExprSize(e) == ArgsSize(e.args) + 28 * (n / 2) + 5 + if n > 0 then 6 else 0
    ensures var n, p1 := ArgCount(e.args), p + ArgsSize(e.args);
      var p2 := p1 + 28 * (n / 2);
      ExprCode(code, p, e, syms, labels) <==>
        ArgsCode(code, p, e.args, syms, labels) && ReverseCode(code, p1, n, 0) && IsCallTo(code, p2, e.f, labels) &&
        (n > 0 ==> IsAddEsp(code, p2 + 5, 4 * n))
  {
    hide Here, TestCode, BoolCode, OpCode, IsJmp, IsLoad, IsStore, IsCallTo, IsAddEsp, ReverseCode, ArgsCode, ArgsSize,
      Find, OpSize;
  }

  lemma CodeOpAssign(code: Code, p: int, e: Expr, syms: Symbols, labels: Labels)
    requires e.OpAssign?
    ensures ExprSize(e) == 7 + ExprSize(e.e) + 3 + OpSize(e.op) + 6
    ensures var p2 := p + 7 + ExprSize(e.e);
      ExprCode(code, p, e, syms, labels) <==>
        (e.op.Add? || e.op.Sub? || e.op.Mul? || e.op.Div?) &&
        Find(syms, e.x) >= 0 && IsLoad(code, p, EAX, syms[Find(syms, e.x)].val) && Here(code, p + 6, Push(EAX)) &&
        ExprCode(code, p + 7, e.e, syms, labels) && OpCode(code, p2, e.op) &&
        IsStore(code, p2 + 3 + OpSize(e.op), syms[Find(syms, e.x)].val, EAX)
  {
    hide Here, TestCode, BoolCode, OpCode, IsJmp, IsLoad, IsStore, IsCallTo, IsAddEsp, ReverseCode, ArgsCode, ArgsSize,
      Find, OpSize;
  }

  // ---- statements -----------------------------------------------------------------

  function StmtSize(s: Stmt): (n: nat)
    decreases s, 0
  {
    match s
    case Do(e) => ExprSize(e)
    case Let(_, init) => if init.None? then 0 else ExprSize(init.value) + 6
    case If(c, thn, els) =>
      ExprSize(c) + 11 + ListSize(thn) + (if els.None? then 0 else 5 + ListSize(els.value))
    case While(c, body) => ExprSize(c) + 11 + ListSize(body) + 5
    case Loop(body) => ListSize(body) + 5
    case For(_, lo, hi, body) => ExprSize(lo) + 6 + ExprSize(hi) + 6 + 53 + ListSize(body) + 5
    case Match(e, arms) => ExprSize(e) + 6 + ArmsSize(arms, 0)
    case Block(body) => ListSize(body)
    case Break | Continue => 5
    case Return(e) => (if e.None? then 0 else ExprSize(e.value)) + 4
  }

  function ListSize(ss: Stmts): (n: nat)
    decreases ss, 0
  {
    if ss.SNil? then 0 else StmtSize(ss.s) + ListSize(ss.rest)
  }

  /** parse_match keeps at most 32 jumps to the end of the match. */
  function ExitSize(k: nat): nat {
    if k < 32 then 5 else 0
  }

  function ArmSize(pat: Option<Expr>, body: Stmts, k: nat): nat
    decreases body, 1
  {
    (if pat.None? then 0 else ExprSize(pat.value) + 14) + ListSize(body) + ExitSize(k)
  }

  /** Size of the arms from the k-th on. */
  function ArmsSize(arms: Arms, k: nat): (n: nat)
    decreases arms, 0
  {
    if arms.ANil? then 0 else ArmSize(arms.pat, arms.body, k) + ArmsSize(arms.rest, k + 1)
  }

  /** LOCAL_OFFSET after a construct compiled at LOCAL_OFFSET off.  Only match
      gives its temporary back. */
  function StmtOff(s: Stmt, off: int): (o: int)
    ensures o <= off
    ensures off % 4 == 0 ==> o % 4 == 0
  {
    match s
    case Let(_, _) => off - 4
    case If(_, thn, els) =>
      var o := ListOff(thn, off);
      if els.None? then o else ListOff(els.value, o)
    case While(_, body) => ListOff(body, off)
    case Loop(body) => ListOff(body, off)
    case For(_, _, _, body) => ListOff(body, off - 8)
    case Block(body) => ListOff(body, off)
    case _ => off
  }

  function ListOff(ss: Stmts, off: int): (o: int)
    ensures o <= off
    ensures off % 4 == 0 ==> o % 4 == 0
  {
    if ss.SNil? then off else ListOff(ss.rest, StmtOff(ss.s, off))
  }

  function ArmsOff(arms: Arms, off: int): (o: int)
    ensures o <= off
    ensures off % 4 == 0 ==> o % 4 == 0
  {
    if arms.ANil? then off else ArmsOff(arms.rest, ListOff(arms.body, off))
  }

  function Min(a: int, b: int): int {
    if a <= b then a else b
  }

  /** The deepest LOCAL_OFFSET reached inside a construct. */
  function StmtDeep(s: Stmt, off: int): (o: int)
    ensures o <= StmtOff(s, off)
  {
    match s
    case Let(_, _) => off - 4
    case If(_, thn, els) =>
      if els.None? then ListDeep(thn, off)
      else Min(ListDeep(thn, off), ListDeep(els.value, ListOff(thn, off)))
    case While(_, body) => ListDeep(body, off)
    case Loop(body) => ListDeep(body, off)
    case For(_, _, _, body) => ListDeep(body, off - 8)
    case Match(_, arms) => ArmsDeep(arms, off - 4)
    case Block(body) => ListDeep(body, off)
    case _ => off
  }

  function ListDeep(ss: Stmts, off: int): (o: int)
    ensures o <= ListOff(ss, off)
  {
    if ss.SNil? then off else Min(StmtDeep(ss.s, off), ListDeep(ss.rest, StmtOff(ss.s, off)))
  }

  function ArmsDeep(arms: Arms, off: int): (o: int)
    ensures o <= ArmsOff(arms, off)
  {
    if arms.ANil? then off else Min(ListDeep(arms.body, off), ArmsDeep(arms.rest, ListOff(arms.body, off)))
  }

  /** The symbols visible after s in the same scope. */
  function StmtSyms(s: Stmt, syms: Symbols, off: int): Symbols {
    if s.Let? then syms + [Entry(s.x, Slot(off - 4))] else syms
  }

  predicate EpilogueCode(code: Code, p: int) {
    Here(code, p, Rr(AluMov, ESP, EBP)) && Here(code, p + 2, Pop(EBP)) && Here(code, p + 3, Ret)
  }

  /** From the loop test of a for to the jump back at the end of its update. */
  predicate ForCode(code: Code, p: int, it: int, hi: int, exit: int) {
    IsLoad(code, p, EAX, Slot(it)) && Here(code, p + 6, Push(EAX)) && IsLoad(code, p + 7, EAX, Slot(hi)) &&
    Here(code, p + 13, Rr(AluMov, ECX, EAX)) && Here(code, p + 15, Pop(EAX)) &&
    Here(code, p + 16, Rr(AluCmp, EAX, ECX)) && IsJcc(code, p + 18, GE, exit) && IsJmp(code, p + 24, p + 53) &&
    IsLoad(code, p + 29, EAX, Slot(it)) && Here(code, p + 35, MovImm(ECX, 1)) &&
    Here(code, p + 40, Rr(AluAdd, EAX, ECX)) && IsStore(code, p + 42, Slot(it), EAX) && IsJmp(code, p + 48, p)
  }

  /** Code for s at p.  brk is where break goes (None while that is not known yet),
      cont where continue goes (None outside loops). */
  predicate StmtCode(code: Code, p: int, s: Stmt, syms: Symbols, off: int,
                     brk: Option<int>, cont: Option<int>, labels: Labels)
    decreases s
  {
    match s
    case Do(e) => ExprCode(code, p, e, syms, labels)
    case Let(x, init) =>
      init.Some? ==>
        ExprCode(code, p, init.value, syms + [Entry(x, Slot(off - 4))], labels) &&
        IsStore(code, p + ExprSize(init.value), Slot(off - 4), EAX)
    case If(c, thn, els) =>
      var p1 := p + ExprSize(c) + 11;
      var p2 := p1 + ListSize(thn);
      ExprCode(code, p, c, syms, labels) &&
      ListCode(code, p1, thn, syms, off, brk, cont, labels) &&
      if els.None? then TestCode(code, p1 - 11, E, p2)
      else
        TestCode(code, p1 - 11, E, p2 + 5) && IsJmp(code, p2, p2 + 5 + ListSize(els.value)) &&
        ListCode(code, p2 + 5, els.value, syms, ListOff(thn, off), brk, cont, labels)
    case While(c, body) =>
      var p1 := p + ExprSize(c) + 11;
      var exit := p1 + ListSize(body) + 5;
      ExprCode(code, p, c, syms, labels) && TestCode(code, p1 - 11, E, exit) &&
      ListCode(code, p1, body, syms, off, Some(exit), Some(p), labels) && IsJmp(code, exit - 5, p)
    case Loop(body) =>
      var exit := p + ListSize(body) + 5;
      ListCode(code, p, body, syms, off, Some(exit), Some(p), labels) && IsJmp(code, exit - 5, p)
    case For(x, lo, hi, body) =>
      var syms1 := syms + [Entry(x, Slot(off - 4))];
      var p1 := p + ExprSize(lo) + 6;
      var p2 := p1 + ExprSize(hi) + 6;
      var exit := p2 + 53 + ListSize(body) + 5;
      ExprCode(code, p, lo, syms, labels) && IsStore(code, p1 - 6, Slot(off - 4), EAX) &&
      ExprCode(code, p1, hi, syms1, labels) && IsStore(code, p2 - 6, Slot(off - 8), EAX) &&
      ForCode(code, p2, off - 4, off - 8, exit) &&
      ListCode(code, p2 + 53, body, syms1, off - 8, Some(exit), Some(p2 + 29), labels) &&
      IsJmp(code, exit - 5, p2 + 29)
    case Match(e, arms) =>
      var p1 := p + ExprSize(e) + 6;
      ExprCode(code, p, e, syms, labels) && IsStore(code, p1 - 6, Slot(off - 4), EAX) &&
      ArmsCode(code, p1, arms, 0, off - 4, p1 + ArmsSize(arms, 0), syms, off - 4, brk, cont, labels)
    case Block(body) => ListCode(code, p, body, syms, off, brk, cont, labels)
    case Break => IsJmpTo(code, p, brk)
    case Continue => cont.Some? && IsJmp(code, p, cont.value)
    case Return(e) =>
      (e.Some? ==> ExprCode(code, p, e.value, syms, labels)) &&
      EpilogueCode(code, p + if e.None? then 0 else ExprSize(e.value))
  }

  predicate ListCode(code: Code, p: int, ss: Stmts, syms: Symbols, off: int,
                     brk: Option<int>, cont: Option<int>, labels: Labels)
    decreases ss
  {
    ss.SCons? ==>
      StmtCode(code, p, ss.s, syms, off, brk, cont, labels) &&
      ListCode(code, p + StmtSize(ss.s), ss.rest, StmtSyms(ss.s, syms, off), StmtOff(ss.s, off), brk, cont, labels)
  }

  /** The arms from the k-th on; the matched value is in the slot tmp. */
  predicate ArmsCode(code: Code, p: int, arms: Arms, k: nat, tmp: int, end: int, syms: Symbols, off: int,
                     brk: Option<int>, cont: Option<int>, labels: Labels)
    decreases arms
  {
    arms.ACons? ==>
      var next := p + ArmSize(arms.pat, arms.body, k);
      var body := p + if arms.pat.None? then 0 else ExprSize(arms.pat.value) + 14;
      (arms.pat.Some? ==>
        var q := p + ExprSize(arms.pat.value);
        ExprCode(code, p, arms.pat.value, syms, labels) && IsLoad(code, q, ECX, Slot(tmp)) &&
        Here(code, q + 6, Rr(AluCmp, ECX, EAX)) && IsJcc(code, q + 8, NE, next)) &&
      ListCode(code, body, arms.body, syms, off, brk, cont, labels) &&
      (k < 32 ==> IsJmp(code, next - 5, end)) &&
      ArmsCode(code, next, arms.rest, k + 1, tmp, end, syms, ListOff(arms.body, off), brk, cont, labels)
  }

  // ---- equations, for proofs that do not look inside StmtCode ------------------------

  lemma WhileEmitted(code: Code, p: int, s: Stmt, syms: Symbols, off: int, brk: Option<int>, cont: Option<int>,
                     labels: Labels)
    requires s.While?
    ensures var p1 := p + ExprSize(s.c);
      var exit := p1 + 11 + ListSize(s.body) + 5;
      p + StmtSize(s) == exit &&
      (StmtCode(code, p, s, syms, off, brk, cont, labels) <==>
        ExprCode(code, p, s.c, syms, labels) && TestCode(code, p1, E, exit) &&
        ListCode(code, p1 + 11, s.body, syms, off, Some(exit), Some(p), labels) && IsJmp(code, exit - 5, p))
  {
    hide ExprSize, ExprCode, ListSize, ListOff, ListDeep, ListCode, TestCode, IsJmp;
  }

  lemma ArmsEmitted(code: Code, p: int, arms: Arms, k: nat, tmp: int, end: int, syms: Symbols, off: int,
                    brk: Option<int>, cont: Option<int>, labels: Labels)
    requires arms.ACons? && arms.pat.Some? && ArmsCode(code, p, arms, k, tmp, end, syms, off, brk, cont, labels)
    ensures var q, next := p + ExprSize(arms.pat.value), p + ArmSize(arms.pat, arms.body, k);
      ExprCode(code, p, arms.pat.value, syms, labels) && IsLoad(code, q, ECX, Slot(tmp)) &&
      Here(code, q + 6, Rr(AluCmp, ECX, EAX)) && IsJcc(code, q + 8, NE, next) &&
      q + 14 == next - ListSize(arms.body) - ExitSize(k) &&
      ListCode(code, q + 14, arms.body, syms, off, brk, cont, labels) && (k < 32 ==> IsJmp(code, next - 5, end)) &&
      ArmsCode(code, next, arms.rest, k + 1, tmp, end, syms, ListOff(arms.body, off), brk, cont, labels)
  {
    hide ExprSize, ExprCode, ListSize, ListOff, ListCode, IsJmp, IsLoad, IsJcc, Here;
  }

  function ArmCount(arms: Arms): nat {
    if arms.ANil? then 0 else 1 + ArmCount(arms.rest)
  }

  /** No match has more than 33 arms: only 32 jumps to the end are kept, and the
      last arm can do without. */
  predicate StmtFits(s: Stmt) {
    match s
    case If(_, thn, els) => ListFits(thn) && (els.Some? ==> ListFits(els.value))
    case While(_, body) => ListFits(body)
    case Loop(body) => ListFits(body)
    case For(_, _, _, body) => ListFits(body)
    case Match(_, arms) => ArmCount(arms) <= 33 && ArmsFit(arms)
    case Block(body) => ListFits(body)
    case _ => true
  }

  predicate ListFits(ss: Stmts) {
    ss.SCons? ==> StmtFits(ss.s) && ListFits(ss.rest)
  }

  predicate ArmsFit(arms: Arms) {
    arms.ACons? ==> ListFits(arms.body) && ArmsFit(arms.rest)
  }

  // ---- functions ------------------------------------------------------------------

  /** The k-th parameter is at [ebp+8+4k]. */
  function ParamSyms(params: seq<string>): (syms: Symbols)
    ensures |syms| == |params|
  {
    seq(|params|, k requires 0 <= k < |params| => Entry(params[k], Slot(8 + 4 * k)))
  }

  function FuncSize(fn: Func): nat {
    9 + ListSize(fn.body) + 9
  }

  /** The frame parse_function reserves: what LOCAL_OFFSET ended at, rounded up to 16. */
  function FrameSize(body: Stmts): nat {
    (-ListOff(body, 0) + 15) / 16 * 16
  }

  predicate FuncCode(code: Code, p: int, fn: Func, statics: Symbols, labels: Labels) {
    var end := p + 9 + ListSize(fn.body);
    Here(code, p, Push(EBP)) && Here(code, p + 1, Rr(AluMov, EBP, ESP)) && IsSubEsp(code, p + 3, fn.frame) &&
    ListCode(code, p + 9, fn.body, statics + ParamSyms(fn.params), 0, None, None, labels) &&
    Here(code, end, MovImm(EAX, 0)) && EpilogueCode(code, end + 5)
  }
}
