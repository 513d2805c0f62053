/** What the compiler's fixed tables can hold, as a property of the source. */
module Limits {
  import opened Base
  import opened Bindings
  import opened X86
  import opened Source
  import opened Codegen
  import opened Tables
  import Scopes

  /** Breaks that leave the loop around s, not one inside it. */
  function StmtBreaks(s: Stmt): nat {
    match s
    case If(_, thn, els) => ListBreaks(thn) + (if els.None? then 0 else ListBreaks(els.value))
    case Match(_, arms) => ArmsBreaks(arms)
    case Block(body) => ListBreaks(body)
    case Break => 1
    case _ => 0
  }

  function ListBreaks(ss: Stmts): nat {
    if ss.SNil? then 0 else StmtBreaks(ss.s) + ListBreaks(ss.rest)
  }

  function ArmsBreaks(arms: Arms): nat {
    if arms.ANil? then 0 else ListBreaks(arms.body) + ArmsBreaks(arms.rest)
  }

  /** s fits below `depth` open loops, with `room` free symbol table entries. */
  predicate StmtIn(s: Stmt, depth: nat, room: int) {
    match s
    case Let(_, _) => room >= 1
    case If(_, thn, els) => ListIn(thn, depth, room) && (els.Some? ==> ListIn(els.value, depth, room))
    case While(_, body) => LoopIn(body, depth, room)
    case Loop(body) => LoopIn(body, depth, room)
    case For(_, _, _, body) => room >= 1 && LoopIn(body, depth, room - 1)
    case Match(_, arms) => ArmsIn(arms, depth, room)
    case Block(body) => ListIn(body, depth, room)
    case _ => true
  }

  predicate LoopIn(body: Stmts, depth: nat, room: int)
    decreases body, 1
  {
    depth < 16 && ListBreaks(body) <= 32 && ListIn(body, depth + 1, room)
  }

  predicate ListIn(ss: Stmts, depth: nat, room: int)
    decreases ss, 0
  {
    ss.SCons? ==> StmtIn(ss.s, depth, room) && ListIn(ss.rest, depth, room - Grows(ss.s))
  }

  predicate ArmsIn(arms: Arms, depth: nat, room: int) {
    arms.ACons? ==> ListIn(arms.body, depth, room) && ArmsIn(arms.rest, depth, room)
  }

  // ---- what is left of the tables ---------------------------------------------------------

  /** Locals stay that close to EBP. */
  const FAR: int := 0x4000_0000

  /** That many more breaks, when `used` are in the list of the innermost of `depth` loops, and
      a frame that deep. */
  predicate Held(breaks: nat, deep: int, depth: nat, used: nat) {
    (depth > 0 && breaks > 0 ==> used + breaks <= MAX_BREAKS) && -FAR <= deep
  }

  predicate StmtHeld(s: Stmt, depth: nat, room: int, used: nat, off: int) {
    StmtIn(s, depth, room) && Held(StmtBreaks(s), StmtDeep(s, off), depth, used)
  }

  predicate ListHeld(ss: Stmts, depth: nat, room: int, used: nat, off: int) {
    ListIn(ss, depth, room) && Held(ListBreaks(ss), ListDeep(ss, off), depth, used)
  }

  predicate ArmsHeld(arms: Arms, depth: nat, room: int, used: nat, off: int) {
    ArmsIn(arms, depth, room) && Held(ArmsBreaks(arms), ArmsDeep(arms, off), depth, used)
  }

  predicate LoopHeld(body: Stmts, depth: nat, room: int, off: int) {
    LoopIn(body, depth, room) && -FAR <= ListDeep(body, off)
  }

  /** Breaks in the list of the innermost loop, after more of them. */
  function UsedAfter(depth: nat, used: nat, breaks: nat): nat {
    if depth > 0 then used + breaks else 0
  }

  // ---- names ----------------------------------------------------------------------------

  /** All variables of e are in scope, all functions it calls exist, and compound
      assignment is used with the operators that have it. */
  predicate ExprNamed(e: Expr, syms: Symbols, labels: Labels) {
    match e
    case Var(x) => Find(syms, x) >= 0
    case Unary(_, e1) => ExprNamed(e1, syms, labels)
    case Binary(_, l, r) => ExprNamed(l, syms, labels) && ExprNamed(r, syms, labels)
    case AndAlso(l, r) => ExprNamed(l, syms, labels) && ExprNamed(r, syms, labels)
    case OrElse(l, r) => ExprNamed(l, syms, labels) && ExprNamed(r, syms, labels)
    case Assign(x, e1) => Find(syms, x) >= 0 && ExprNamed(e1, syms, labels)
    case OpAssign(x, op, e1) =>
      (op.Add? || op.Sub? || op.Mul? || op.Div?) && Find(syms, x) >= 0 && ExprNamed(e1, syms, labels)
    case Call(f, args) => f in labels && ArgsNamed(args, syms, labels)
    case _ => true
  }

  predicate ArgsNamed(args: Exprs, syms: Symbols, labels: Labels) {
    args.ECons? ==> ExprNamed(args.e, syms, labels) && ArgsNamed(args.rest, syms, labels)
  }

  /** The same for statements; break and continue only occur in loops. */
  predicate StmtNamed(s: Stmt, syms: Symbols, off: int, depth: nat, labels: Labels) {
    match s
    case Do(e) => ExprNamed(e, syms, labels)
    case Let(x, init) => init.Some? ==> ExprNamed(init.value, syms + [Entry(x, Slot(off - 4))], labels)
    case If(c, thn, els) =>
      ExprNamed(c, syms, labels) && ListNamed(thn, syms, off, depth, labels) &&
      (els.Some? ==> ListNamed(els.value, syms, ListOff(thn, off), depth, labels))
    case While(c, body) => ExprNamed(c, syms, labels) && ListNamed(body, syms, off, depth + 1, labels)
    case Loop(body) => ListNamed(body, syms, off, depth + 1, labels)
    case For(x, lo, hi, body) =>
      var inner := syms + [Entry(x, Slot(off - 4))];
      ExprNamed(lo, syms, labels) && ExprNamed(hi, inner, labels) && ListNamed(body, inner, off - 8, depth + 1, labels)
    case Match(e, arms) => ExprNamed(e, syms, labels) && ArmsNamed(arms, syms, off - 4, depth, labels)
    case Block(body) => ListNamed(body, syms, off, depth, labels)
    case Break | Continue => depth > 0
    case Return(result) => result.Some? ==> ExprNamed(result.value, syms, labels)
  }

  predicate ListNamed(ss: Stmts, syms: Symbols, off: int, depth: nat, labels: Labels) {
    ss.SCons? ==>
      StmtNamed(ss.s, syms, off, depth, labels) &&
      ListNamed(ss.rest, StmtSyms(ss.s, syms, off), StmtOff(ss.s, off), depth, labels)
  }

  predicate ArmsNamed(arms: Arms, syms: Symbols, off: int, depth: nat, labels: Labels) {
    arms.ACons? ==>
      (arms.pat.Some? ==> ExprNamed(arms.pat.value, syms, labels)) && ListNamed(arms.body, syms, off, depth, labels) &&
      ArmsNamed(arms.rest, syms, ListOff(arms.body, off), depth, labels)
  }

  // ---- declared names ------------------------------------------------------------------------

  function StmtDeclares(s: Stmt): set<string> {
    match s
    case Let(x, _) => {x}
    case If(_, thn, els) => ListDeclares(thn) + if els.None? then {} else ListDeclares(els.value)
    case While(_, body) => ListDeclares(body)
    case Loop(body) => ListDeclares(body)
    case For(x, _, _, body) => {x} + ListDeclares(body)
    case Match(_, arms) => ArmsDeclare(arms)
    case Block(body) => ListDeclares(body)
    case _ => {}
  }

  function ListDeclares(ss: Stmts): set<string> {
    if ss.SNil? then {} else StmtDeclares(ss.s) + ListDeclares(ss.rest)
  }

  function ArmsDeclare(arms: Arms): set<string> {
    if arms.ANil? then {} else ListDeclares(arms.body) + ArmsDeclare(arms.rest)
  }

  /** Names that differ also differ in their first 31 characters. */
  ghost predicate CutApart(names: set<string>) {
    forall a, b :: a in names && b in names && Scopes.Truncate(a) == Scopes.Truncate(b) ==> a == b
  }

  // ---- calls: each may need an entry of the fixup table --------------------------------------

  function ExprCalls(e: Expr): nat {
    match e
    case Unary(_, e1) => ExprCalls(e1)
    case Binary(_, l, r) => ExprCalls(l) + ExprCalls(r)
    case AndAlso(l, r) => ExprCalls(l) + ExprCalls(r)
    case OrElse(l, r) => ExprCalls(l) + ExprCalls(r)
    case Assign(_, e1) => ExprCalls(e1)
    case OpAssign(_, _, e1) => ExprCalls(e1)
    case Call(_, args) => 1 + ArgsCalls(args)
    case _ => 0
  }

  function ArgsCalls(args: Exprs): nat {
    if args.ENil? then 0 else ExprCalls(args.e) + ArgsCalls(args.rest)
  }

  function OptCalls(e: Option<Expr>): nat {
    if e.None? then 0 else ExprCalls(e.value)
  }

  function StmtCalls(s: Stmt): nat {
    match s
    case Do(e) => ExprCalls(e)
    case Let(_, init) => OptCalls(init)
    case If(c, thn, els) => ExprCalls(c) + ListCalls(thn) + if els.None? then 0 else ListCalls(els.value)
    case While(c, body) => ExprCalls(c) + ListCalls(body)
    case Loop(body) => ListCalls(body)
    case For(_, lo, hi, body) => ExprCalls(lo) + ExprCalls(hi) + ListCalls(body)
    case Match(e, arms) => ExprCalls(e) + ArmsCalls(arms)
    case Block(body) => ListCalls(body)
    case Break | Continue => 0
    case Return(result) => OptCalls(result)
  }

  function ListCalls(ss: Stmts): nat {
    if ss.SNil? then 0 else StmtCalls(ss.s) + ListCalls(ss.rest)
  }

  function ArmsCalls(arms: Arms): nat {
    if arms.ANil? then 0 else OptCalls(arms.pat) + ListCalls(arms.body) + ArmsCalls(arms.rest)
  }

  // ---- string literals, in the order they are compiled ------------------------------------------

  /** String literals in the order the compiler meets them. */
  function ExprLits(e: Expr): seq<Lit> {
    match e
    case Const(_) | Var(_) => []
    case Str(text, a) => [Lit(text, a)]
    case Unary(_, e1) => ExprLits(e1)
    case Binary(_, l, r) => ExprLits(l) + ExprLits(r)
    case AndAlso(l, r) => ExprLits(l) + ExprLits(r)
    case OrElse(l, r) => ExprLits(l) + ExprLits(r)
    case Assign(_, e1) => ExprLits(e1)
    case OpAssign(_, _, e1) => ExprLits(e1)
    case Call(_, args) => ArgsLits(args)
  }

  function ArgsLits(args: Exprs): seq<Lit> {
    if args.ENil? then [] else ExprLits(args.e) + ArgsLits(args.rest)
  }

  function OptLits(e: Option<Expr>): seq<Lit> {
    if e.None? then [] else ExprLits(e.value)
  }

  function StmtLits(s: Stmt): seq<Lit> {
    match s
    case Do(e) => ExprLits(e)
    case Let(_, init) => if init.None? then [] else ExprLits(init.value)
    case If(c, thn, els) => ExprLits(c) + ListLits(thn) + (if els.None? then [] else ListLits(els.value))
    case While(c, body) => ExprLits(c) + ListLits(body)
    case Loop(body) => ListLits(body)
    case For(_, lo, hi, body) => ExprLits(lo) + ExprLits(hi) + ListLits(body)
    case Match(e, arms) => ExprLits(e) + ArmsLits(arms)
    case Block(body) => ListLits(body)
    case Break | Continue => []
    case Return(e) => if e.None? then [] else ExprLits(e.value)
  }

  function ListLits(ss: Stmts): seq<Lit> {
    if ss.SNil? then [] else StmtLits(ss.s) + ListLits(ss.rest)
  }

  function ArmsLits(arms: Arms): seq<Lit> {
    if arms.ANil? then []
    else OptLits(arms.pat) + ListLits(arms.body) + ArmsLits(arms.rest)
  }
}
