/** The single-pass compiler (src/rc/parse.rs): it walks the program once, appends
    code, and patches jump, call and string operands as their targets become known. */
module Parse {
  import opened Base
  import opened Bindings
  import opened Word
  import opened X86
  import opened Source
  import opened Codegen
  import opened Emit
  import opened Layout
  import opened Tables
  import opened Limits
  import opened Shapes

  ghost predicate Reachable(syms: Symbols) {
    forall k :: 0 <= k < |syms| ==> InRange(syms[k].val)
  }

  predicate InRange(l: Loc) {
    match l
    case Slot(o) => -FAR <= o <= FAR
    case Static(a) => 0 <= a < W
  }

  function LoadOf(l: Loc): Instr {
    match l
    case Slot(o) => LoadBp(EAX, Signed(Wrap(o)))
    case Static(a) => LoadAbs(EAX, Wrap(a))
  }

  function StoreOf(l: Loc): Instr {
    match l
    case Slot(o) => StoreBp(Signed(Wrap(o)), EAX)
    case Static(a) => StoreAbs(Wrap(a), EAX)
  }

  lemma Accesses(code: Code, p: int, l: Loc)
    requires InRange(l)
    ensures Here(code, p, LoadOf(l)) ==> IsLoad(code, p, EAX, l)
    ensures Here(code, p, StoreOf(l)) ==> IsStore(code, p, l, EAX)
  {
    if l.Slot? {
      WrapSigned(l.off);
    }
  }

  lemma ReadsSlot(code: Code, p: int, r: Reg, o: int)
    requires -FAR <= o <= FAR && Here(code, p, LoadBp(r, Signed(Wrap(o))))
    ensures IsLoad(code, p, r, Slot(o))
  {
    WrapSigned(o);
  }

  predicate BoolExpr(code: Code, p: int, r: Expr, syms: Symbols, labels: Labels) {
    ExprCode(code, p, r, syms, labels) && BoolCode(code, p + ExprSize(r))
  }

  lemma BoolGrown(code: Code, code': Code, p: int, r: Expr, syms: Symbols, labels: Labels)
    requires BoolExpr(code, p, r, syms, labels) && Grown(code, code')
    ensures BoolExpr(code', p, r, syms, labels)
  {
    hide ExprCode, Grown, BoolCode;
    ExprGrown(code, code', p, r, syms, labels);
    SequencesGrown(code, code');
  }

  /** The first n swaps of a reversal of argc words. */
  ghost predicate SwapsCode(code: Code, p: int, argc: nat, n: nat) {
    forall i :: 0 <= i < n ==> SwapCode(code, p + 28 * i, 4 * i, 4 * (argc - 1 - i))
  }

  lemma SwapsGrown(code: Code, code': Code, p: int, argc: nat, n: nat)
    requires SwapsCode(code, p, argc, n) && Grown(code, code') && SwapCode(code', p + 28 * n, 4 * n, 4 * (argc - 1 - n))
    ensures SwapsCode(code', p, argc, n + 1)
  {
    forall i | 0 <= i < n + 1 ensures SwapCode(code', p + 28 * i, 4 * i, 4 * (argc - 1 - i)) {
      if i < n {
        assert SwapCode(code, p + 28 * i, 4 * i, 4 * (argc - 1 - i));
      }
    }
  }

  lemma {:induction false} SwapsReverse(code: Code, p: int, argc: nat, i: nat)
    requires SwapsCode(code, p, argc, argc / 2) && i <= argc / 2
    ensures ReverseCode(code, p + 28 * i, argc, i)
    decreases argc / 2 - i
  {
    hide SwapCode;
    if i < argc / 2 {
      SwapsReverse(code, p, argc, i + 1);
      assert p + 28 * (i + 1) == p + 28 * i + 28;
    }
  }

  lemma {:induction false} ArgsNeedRoom(args: Exprs)
    ensures ArgCount(args) <= ArgsSize(args)
  {
    hide ExprSize;
    if args.ECons? {
      ArgsNeedRoom(args.rest);
    }
  }

  /** The instruction of an operator that needs only one. */
  function OneInstr(op: BinOp): Instr
    requires !op.Div? && !op.Rem? && !op.Cmp?
  {
    match op
    case Add => Rr(AluAdd, EAX, ECX)
    case Sub => Rr(AluSub, EAX, ECX)
    case Mul => Imul(EAX, ECX)
    case BAnd => Rr(AluAnd, EAX, ECX)
    case BOr => Rr(AluOr, EAX, ECX)
    case BXor => Rr(AluXor, EAX, ECX)
    case Shl => ShlCl(EAX)
    case Shr => ShrCl(EAX)
  }

  /** How full the compiler's tables and buffer are, and whether a fault happened (not sound)
      or was reported. */
  datatype Load = Load(sound: bool, reported: bool, callable: bool, fixups: nat, strings: nat, pos: nat) {
    predicate Clean() { sound && !reported }
    predicate Honest() { sound || reported }
  }

  /** No report is taken back. */
  ghost predicate Stays(a: Load, b: Load) {
    a.reported ==> b.reported
  }

  /** No fault goes unreported. */
  ghost predicate Faithful(a: Load, b: Load) {
    Stays(a, b) && (a.Honest() ==> b.Honest())
  }

  /** With room for that many calls, literals and bytes there is no fault, and no more than those are
      taken. */
  ghost predicate Takes(a: Load, b: Load, calls: nat, texts: nat, size: nat) {
    a.Clean() && a.callable && a.fixups + calls <= MAX_FIXUPS && a.strings + texts <= MAX_STRINGS &&
    a.pos + size <= CODE_MAX ==>
      b.Clean() && b.callable && b.fixups <= a.fixups + calls && b.strings <= a.strings + texts && b.pos == a.pos + size
  }

  /** One construct after another. */
  lemma Chained(a: Load, b: Load, c: Load, calls1: nat, texts1: nat, size1: nat, calls2: nat, texts2: nat, size2: nat)
    ensures Stays(a, b) && Stays(b, c) ==> Stays(a, c)
    ensures Faithful(a, b) && Stays(b, c) && (b.Clean() ==> Faithful(b, c)) ==> Faithful(a, c)
    ensures Takes(a, b, calls1, texts1, size1) && (b.Clean() ==> Takes(b, c, calls2, texts2, size2)) ==>
      Takes(a, c, calls1 + calls2, texts1 + texts2, size1 + size2)
  {
  }

  /** One construct after another, and then something that takes nothing. */
  lemma ChainedAndDone(a: Load, b: Load, c: Load, d: Load,
                       calls1: nat, texts1: nat, size1: nat, calls2: nat, texts2: nat, size2: nat)
    requires Stays(c, d) && Faithful(c, d) && Takes(c, d, 0, 0, 0)
    ensures Stays(a, b) && Stays(b, c) ==> Stays(a, d)
    ensures Faithful(a, b) && Stays(b, c) && (b.Clean() ==> Faithful(b, c)) ==> Faithful(a, d)
    ensures Takes(a, b, calls1, texts1, size1) && (b.Clean() ==> Takes(b, c, calls2, texts2, size2)) ==>
      Takes(a, d, calls1 + calls2, texts1 + texts2, size1 + size2)
  {
  }

  lemma Refused(a: Load, b: Load)
    requires b.reported
    ensures Stays(a, b) && Faithful(a, b)
  {
  }

  /** One more fixup for a call of a function that exists. */
  lemma OneMoreCall(fixups: seq<FixupEntry>, f: string, p: nat, labels: Labels, a: Load, b: Load, c: Load)
    requires a.fixups == b.fixups == |fixups| && a.callable == b.callable == Callable(fixups, labels)
    requires c == b.(fixups := |fixups| + 1, callable := Callable(fixups + [FixupEntry(f, p)], labels))
    ensures Stays(a, b) ==> Stays(a, c)
    ensures Faithful(a, b) ==> Faithful(a, c)
    ensures Takes(a, b, 0, 0, 5) && f in labels ==> Takes(a, c, 1, 0, 5)
  {
  }

  lemma OneMoreText(a: Load, b: Load, c: Load)
    requires a.strings == b.strings && c == b.(strings := b.strings + 1)
    ensures Stays(a, b) ==> Stays(a, c)
    ensures Faithful(a, b) ==> Faithful(a, c)
    ensures Takes(a, b, 0, 0, 5) ==> Takes(a, c, 0, 1, 5)
  {
  }

  lemma TooManyTexts(a: Load, b: Load)
    requires a.strings >= 128
    ensures Takes(a, b, 0, 1, 5)
  {
  }

  lemma TooMany(a: Load, b: Load)
    requires a.fixups >= 256
    ensures Takes(a, b, 1, 0, 5)
  {
  }

  lemma Still(a: Load)
    ensures Stays(a, a) && Faithful(a, a) && Takes(a, a, 0, 0, 0)
  {
  }

  /** Every function that waits to be resolved exists. */
  ghost predicate Callable(fixups: seq<FixupEntry>, labels: Labels) {
    forall k :: 0 <= k < |fixups| ==> fixups[k].name in labels
  }

  /** The loop stack after n more breaks in its innermost loop. */
  ghost predicate MoreBreaks(loops: seq<LoopCtx>, loops': seq<LoopCtx>, n: nat) {
    |loops'| == |loops| &&
    (|loops| > 0 ==>
      var d := |loops| - 1;
      loops'[..d] == loops[..d] && loops'[d].cont == loops[d].cont && |loops'[d].breaks| == |loops[d].breaks| + n)
  }

  lemma OneMoreBreak(loops: seq<LoopCtx>, p: nat)
    requires |loops| > 0
    ensures var d := |loops| - 1;
      MoreBreaks(loops, loops[d := loops[d].(breaks := loops[d].breaks + [p])], 1)
  {
  }

  lemma MoreAndMore(a: seq<LoopCtx>, b: seq<LoopCtx>, c: seq<LoopCtx>, m: nat, n: nat)
    requires MoreBreaks(a, b, m) && MoreBreaks(b, c, n)
    ensures MoreBreaks(a, c, m + n)
  {
  }

  lemma MoreSame(a: seq<LoopCtx>, b: seq<LoopCtx>, n: nat)
    requires MoreBreaks(a, b, n)
    ensures |a| == |b|
    ensures |a| > 0 ==> b[|a| - 1].cont == a[|a| - 1].cont && |b[|a| - 1].breaks| == |a[|a| - 1].breaks| + n
  {
  }

  lemma MoreOnTop(a: seq<LoopCtx>, cont: Position, b: seq<LoopCtx>, n: nat)
    requires MoreBreaks(a + [LoopCtx(cont, [])], b, n)
    ensures |b| == |a| + 1 && b[..|a|] == a && b[|a|].cont == cont && |b[|a|].breaks| == n
  {
    assert (a + [LoopCtx(cont, [])])[..|a|] == a;
  }

  lemma NoBreaks(a: seq<LoopCtx>)
    ensures MoreBreaks(a, a, 0)
  {
  }

  /** Test and update of a for, but for the jump to its exit. */
  predicate ForHeadCode(code: Code, p: int, it: int, hi: int) {
    CompareCode(code, p, it, hi) && IsJmp(code, p + 24, p + 53) && UpdateCode(code, p + 29, it, p)
  }

  predicate CompareCode(code: Code, p: int, it: int, hi: int) {
    IsLoad(code, p, EAX, Slot(it)) && Here(code, p + 6, Push(EAX)) && IsLoad(code, p + 7, EAX, Slot(hi)) &&
    Here(code, p + 13, Rr(AluMov, ECX, EAX)) && Here(code, p + 15, Pop(EAX)) && Here(code, p + 16, Rr(AluCmp, EAX, ECX))
  }

  predicate UpdateCode(code: Code, p: int, it: int, start: int) {
    IsLoad(code, p, EAX, Slot(it)) && Here(code, p + 6, MovImm(ECX, 1)) &&
    Here(code, p + 11, Rr(AluAdd, EAX, ECX)) && IsStore(code, p + 13, Slot(it), EAX) && IsJmp(code, p + 19, start)
  }

  lemma CompareGrown(code: Code, code': Code, p: int, it: int, hi: int)
    requires CompareCode(code, p, it, hi) && Grown(code, code')
    ensures CompareCode(code', p, it, hi)
  {
    hide Here, IsLoad, Grown;
    AtomsGrown(code, code');
  }

  lemma HeadGrown(code: Code, code': Code, p: int, it: int, hi: int)
    requires ForHeadCode(code, p, it, hi) && Grown(code, code')
    ensures ForHeadCode(code', p, it, hi)
  {
    hide Here, IsLoad, IsStore, IsJmp, Grown;
    AtomsGrown(code, code');
  }

  lemma HeadDone(code: Code, p: int, it: int, hi: int, exit: int)
    requires ForHeadCode(code, p, it, hi) && IsJcc(code, p + 18, GE, exit)
    ensures ForCode(code, p, it, hi, exit)
  {
  }

  /** A displacement computed for a target within the buffer reaches it. */
  lemma Reaches(code: Code, q: int, target: int)
    requires 0 <= q <= CODE_MAX && 0 <= target <= CODE_MAX
    ensures Here(code, q, Jmp(RelTo(q + 5, target))) ==> IsJmp(code, q, target)
    ensures forall cc {:trigger IsJcc(code, q, cc, target)} ::
      Here(code, q, Jcc(cc, RelTo(q + 6, target))) ==> IsJcc(code, q, cc, target)
  {
    RelToReaches(q + 5, target);
    RelToReaches(q + 6, target);
  }

  // ---- match: its arms, and the jumps to its end ------------------------------------

  /** One arm, but for its jump to the end of the match. */
  predicate ArmCode(code: Code, p: int, pat: Option<Expr>, body: Stmts, k: nat, tmp: int, syms: Symbols, off: int,
                    brk: Option<int>, cont: Option<int>, labels: Labels) {
    (pat.Some? ==> PatternCode(code, p, pat.value, tmp, p + ArmSize(pat, body, k), syms, labels)) &&
    ListCode(code, p + PatternSize(pat), body, syms, off, brk, cont, labels)
  }

  predicate PatternCode(code: Code, p: int, pat: Expr, tmp: int, next: int, syms: Symbols, labels: Labels) {
    var q := p + ExprSize(pat);
    ExprCode(code, p, pat, syms, labels) && IsLoad(code, q, ECX, Slot(tmp)) &&
    Here(code, q + 6, Rr(AluCmp, ECX, EAX)) && IsJcc(code, q + 8, NE, next)
  }

  function PatternSize(pat: Option<Expr>): nat {
    if pat.None? then 0 else ExprSize(pat.value) + 14
  }

  /** With the jump of the test, what PutPattern leaves is PatternCode. */
  lemma PatternGrown(code: Code, code': Code, p: int, pat: Expr, tmp: int, next: int, syms: Symbols, labels: Labels)
    requires Grown(code, code') && ExprCode(code, p, pat, syms, labels)
    requires var q := p + ExprSize(pat);
      IsLoad(code, q, ECX, Slot(tmp)) && Here(code, q + 6, Rr(AluCmp, ECX, EAX)) &&
      Here(code, q + 8, Jcc(NE, RelTo(q + 14, next))) && 0 <= q + 8 <= CODE_MAX && 0 <= next <= CODE_MAX
    ensures PatternCode(code', p, pat, tmp, next, syms, labels)
  {
    hide ExprCode, ExprSize, Here, IsLoad, IsJcc, Grown, RelTo;
    AtomsGrown(code, code');
    ExprGrown(code, code', p, pat, syms, labels);
    Reaches(code', p + ExprSize(pat) + 8, next);
  }

  lemma ArmGrown(code: Code, code': Code, p: int, pat: Option<Expr>, body: Stmts, k: nat, tmp: int, syms: Symbols,
                 off: int,
                 brk: Option<int>, cont: Option<int>, labels: Labels)
    requires ArmCode(code, p, pat, body, k, tmp, syms, off, brk, cont, labels) && Grown(code, code')
    ensures ArmCode(code', p, pat, body, k, tmp, syms, off, brk, cont, labels)
  {
    hide ExprCode, ListCode, Here, IsLoad, IsJcc, Grown, ExprSize, ArmSize;
    AtomsGrown(code, code');
    ListGrown(code, code', p + PatternSize(pat), body, syms, off, brk, cont, labels);
    if pat.Some? {
      ExprGrown(code, code', p, pat.value, syms, labels);
    }
  }

  lemma ArmsFromArm(code: Code, p: int, arms: Arms, k: nat, tmp: int, end: int, syms: Symbols, off: int,
                    brk: Option<int>, cont: Option<int>, labels: Labels)
    requires arms.ACons? && ArmCode(code, p, arms.pat, arms.body, k, tmp, syms, off, brk, cont, labels)
    requires var next := p + ArmSize(arms.pat, arms.body, k);
      (k < 32 ==> IsJmp(code, next - 5, end)) &&
      ArmsCode(code, next, arms.rest, k + 1, tmp, end, syms, ListOff(arms.body, off), brk, cont, labels)
    ensures ArmsCode(code, p, arms, k, tmp, end, syms, off, brk, cont, labels)
  {
    hide ExprCode, ListCode, Here, IsLoad, IsJcc, IsJmp, ListOff;
  }

  /** An arm compiled into code1, and later ones into code2. */
  lemma ArmsDone(code1: Code, code2: Code, p: int, arms: Arms, k: nat, tmp: int, end: int, syms: Symbols, off: int,
                 brk: Option<int>, cont: Option<int>, labels: Labels)
    requires arms.ACons? && ArmCode(code1, p, arms.pat, arms.body, k, tmp, syms, off, brk, cont, labels) &&
      Grown(code1, code2)
    requires var next := p + ArmSize(arms.pat, arms.body, k);
      (k < 32 ==> 5 <= next <= CODE_MAX && Here(code1, next - 5, Jmp(RelTo(next, end)))) && 0 <= end <= CODE_MAX &&
      ArmsCode(code2, next, arms.rest, k + 1, tmp, end, syms, ListOff(arms.body, off), brk, cont, labels)
    ensures ArmsCode(code2, p, arms, k, tmp, end, syms, off, brk, cont, labels)
  {
    hide ArmCode, ArmsCode, ListOff, RelTo, Here, IsJmp, Grown;
    AtomsGrown(code1, code2);
    ArmGrown(code1, code2, p, arms.pat, arms.body, k, tmp, syms, off, brk, cont, labels);
    var next := p + ArmSize(arms.pat, arms.body, k);
    if k < 32 {
      Reaches(code2, next - 5, end);
    }
    ArmsFromArm(code2, p, arms, k, tmp, end, syms, off, brk, cont, labels);
  }

  /** The jumps whose operands are listed in ps. */
  ghost function HolesOf(ps: seq<nat>): set<int> {
    set i | 0 <= i < |ps| :: Site(ps[i])
  }

  /** ps lists the operands of jumps to end, in the order they were emitted. */
  ghost predicate EndJumps(code: Code, ps: seq<nat>, end: int) {
    (forall i :: 0 <= i < |ps| ==> Here(code, Site(ps[i]), Jmp(RelTo(ps[i] + 4, end)))) &&
    (forall i, j :: 0 <= i < j < |ps| ==> ps[i] < ps[j])
  }

  lemma JumpAdded(code: Code, code': Code, ps: seq<nat>, end: int, p: nat)
    requires EndJumps(code, ps, end) && Grown(code, code') && Here(code', p, Jmp(RelTo(p + 5, end)))
    requires forall q :: q in HolesOf(ps) ==> q < p
    ensures EndJumps(code', ps + [p + 1], end) && HolesOf(ps + [p + 1]) == HolesOf(ps) + {p}
  {
    hide RelTo;
    var ps' := ps + [p + 1];
    forall i | 0 <= i < |ps| ensures Here(code', Site(ps[i]), Jmp(RelTo(ps[i] + 4, end))) && ps[i] < p + 1 {
      assert Site(ps[i]) in HolesOf(ps);
    }
    assert Site(ps'[|ps|]) == p;
    forall q | q in HolesOf(ps) + {p} ensures q in HolesOf(ps') {
      if q in HolesOf(ps) {
        var i :| 0 <= i < |ps| && q == Site(ps[i]);
        assert Site(ps'[i]) == q;
      }
    }
  }

  lemma JumpsGrown(code: Code, code': Code, ps: seq<nat>, end: int)
    requires EndJumps(code, ps, end) && Grown(code, code')
    ensures EndJumps(code', ps, end)
  {
    hide RelTo;
  }

  lemma FirstHole(code: Code, ps: seq<nat>, end: int, i: nat)
    requires EndJumps(code, ps, end) && i < |ps|
    ensures Site(ps[i]) in HolesOf(ps[i..]) && HolesOf(ps[i..]) - {Site(ps[i])} == HolesOf(ps[i + 1..])
    ensures Here(code, Site(ps[i]), Jmp(RelTo(ps[i] + 4, end)))
  {
    hide RelTo;
    var here, rest := ps[i..], ps[i + 1..];
    assert Site(here[0]) in HolesOf(here);
    forall q | q in HolesOf(rest) ensures q in HolesOf(here) && q != Site(ps[i]) {
      var j :| 0 <= j < |rest| && q == Site(rest[j]);
      assert here[j + 1] == rest[j];
    }
    forall q | q in HolesOf(here) && q != Site(ps[i]) ensures q in HolesOf(rest) {
      var j :| 0 <= j < |here| && q == Site(here[j]);
      assert rest[j - 1] == here[j];
    }
  }

  class Compiler {
    const out: CodeBuffer
    const base: word
    // Where every function of the program ends up.
    ghost const labels: Labels

    var syms: Symbols
    var localOffset: int
    var loops: seq<LoopCtx>
    var known: Labels
    var fixups: seq<FixupEntry>
    var strings: seq<StringEntry>
    var hadError: bool
    // The exit of each open loop, and what each string literal's address should be.
    ghost var exits: seq<Position>
    ghost var lits: seq<Lit>

    /** An empty code buffer; statics are the symbols at scope 0. */
    constructor (base: word, statics: Symbols, ghost labels: Labels)
      requires Reachable(statics) && (forall f :: f in labels ==> 0 <= labels[f] <= CODE_MAX)
      ensures Valid() && Clean() && fresh(out) && fresh(out.buf)
      ensures this.base == base && this.labels == labels && syms == statics && localOffset == 0
      ensures loops == [] && known == map[] && fixups == [] && strings == [] && lits == []
      ensures out.pos == 0 && out.pending == map[] && out.code == map[] && out.data == map[] && exits == []
    {
      out := new CodeBuffer();
      this.base, this.labels := base, labels;
      syms, localOffset, loops, known := statics, 0, [], map[];
      fixups, strings, hadError := [], [], false;
      exits, lits := [], [];
    }

    ghost predicate Clean()
      reads this, out
    {
      !hadError && out.Clean()
    }

    ghost predicate Reported()
      reads this, out
    {
      out.overflow || hadError
    }

    /** Every fault so far has been reported. */
    ghost predicate Honest()
      reads this, out
    {
      out.sound || Reported()
    }

    /** No new fault goes unreported, and no report is taken back. */
    twostate predicate Steady()
      reads this, out
    {
      (old(Honest()) ==> Honest()) && (old(Reported()) ==> Reported())
    }

    ghost function Use(): (u: Load)
      reads this, out
      ensures u.Clean() == Clean()
    {
      Load(out.sound, Reported(), Callable(fixups, labels), |fixups|, |strings|, out.pos)
    }

    /** From the start of the method to its end: what fits is faithful, and takes no more than that if it
        also is good; what does not fit is not without a fault. */
    twostate predicate Kept(fit: bool, good: bool, calls: nat, texts: nat, size: nat)
      reads this, out
    {
      Stays(old(Use()), Use()) && (fit ==> Faithful(old(Use()), Use())) &&
      (fit && good ==> Takes(old(Use()), Use(), calls, texts, size)) && (Clean() ==> fit)
    }

    /** Nothing but size more bytes. */
    twostate predicate Fed(size: nat)
      reads this, out
    {
      Stays(old(Use()), Use()) && Faithful(old(Use()), Use()) && Takes(old(Use()), Use(), 0, 0, size)
    }

    /** e is compiled: faults are reported, a good expression is accepted, and without faults
        its code is laid out behind what was there. */
    twostate predicate ExprDone(e: Expr)
      reads this, out
    {
      Kept(true, ExprNamed(e, syms, labels), ExprCalls(e), |ExprLits(e)|, ExprSize(e)) &&
      (Clean() ==>
        old(Clean()) && Progress(old(Now()), Now(), |loops|, {}) && lits == old(lits) + ExprLits(e) &&
        ExprCode(out.code, old(out.pos), e, syms, labels) && out.pos == old(out.pos) + ExprSize(e))
    }

    /** The same for a statement, which also may take slots, symbols and breaks, and goes unreported
        where it exceeds the tables. */
    twostate predicate StmtDone(s: Stmt)
      reads this, out
    {
      Kept(old(StmtFit(s)), old(StmtGood(s)), StmtCalls(s), |StmtLits(s)|, StmtSize(s)) &&
      (Clean() ==>
        old(Clean()) && Progress(old(Now()), Now(), |loops|, {}) && lits == old(lits) + StmtLits(s) &&
        StmtCode(out.code, old(out.pos), s, old(syms), old(localOffset), old(Brk()), old(Cont()), labels) &&
        out.pos == old(out.pos) + StmtSize(s) && syms == StmtSyms(s, old(syms), old(localOffset)) &&
        localOffset == StmtOff(s, old(localOffset)) && MoreBreaks(old(loops), loops, StmtBreaks(s)) &&
        exits == old(exits))
    }

    /** The same for a list of statements; what becomes of its symbols is up to the caller. */
    twostate predicate ListDone(ss: Stmts)
      reads this, out
    {
      Kept(old(ListFit(ss)), old(ListGood(ss)), ListCalls(ss), |ListLits(ss)|, ListSize(ss)) &&
      (Clean() ==>
        old(Clean()) && Progress(old(Now()), Now(), |loops|, {}) && lits == old(lits) + ListLits(ss) &&
        ListCode(out.code, old(out.pos), ss, old(syms), old(localOffset), old(Brk()), old(Cont()), labels) &&
        out.pos == old(out.pos) + ListSize(ss) &&
        localOffset == ListOff(ss, old(localOffset)) && MoreBreaks(old(loops), loops, ListBreaks(ss)) &&
        exits == old(exits))
    }

    /** A statement or list fits into the tables as they are. */
    ghost predicate StmtFit(s: Stmt)
      reads this`syms, this`known, this`loops, this`localOffset
    {
      StmtHeld(s, |loops|, SymRoom(), Used(), localOffset)
    }

    ghost predicate ListFit(ss: Stmts)
      reads this`syms, this`known, this`loops, this`localOffset
    {
      ListHeld(ss, |loops|, SymRoom(), Used(), localOffset)
    }

    ghost predicate ArmsFit(arms: Arms)
      reads this`syms, this`known, this`loops, this`localOffset
    {
      ArmsHeld(arms, |loops|, SymRoom(), Used(), localOffset)
    }

    ghost predicate BothFit(thn: Stmts, els: Stmts)
      reads this`syms, this`known, this`loops, this`localOffset
    {
      ListFit(thn) && ListHeld(els, |loops|, SymRoom(), UsedAfter(|loops|, Used(), ListBreaks(thn)),
        ListOff(thn, localOffset))
    }

    /** The names in it are in scope. */
    ghost predicate StmtGood(s: Stmt)
      reads this`syms, this`loops, this`localOffset
    {
      StmtNamed(s, syms, localOffset, |loops|, labels)
    }

    ghost predicate ListGood(ss: Stmts)
      reads this`syms, this`loops, this`localOffset
    {
      ListNamed(ss, syms, localOffset, |loops|, labels)
    }

    ghost predicate ArmsGood(arms: Arms)
      reads this`syms, this`loops, this`localOffset
    {
      ArmsNamed(arms, syms, localOffset, |loops|, labels)
    }

    ghost predicate ArmGood(pat: Option<Expr>, body: Stmts)
      reads this`syms, this`loops, this`localOffset
    {
      (pat.Some? ==> ExprNamed(pat.value, syms, labels)) && ListGood(body)
    }

    ghost predicate BothGood(thn: Stmts, els: Stmts)
      reads this`syms, this`loops, this`localOffset
    {
      ListGood(thn) && ListNamed(els, syms, ListOff(thn, localOffset), |loops|, labels)
    }

    ghost predicate LoopGood(body: Stmts)
      reads this`syms, this`loops, this`localOffset
    {
      ListNamed(body, syms, localOffset, |loops| + 1, labels)
    }

    ghost predicate Invariant()
      reads this, out
    {
      LoopsTracked(loops, exits, out.code, out.pending) &&
      FixupsTracked(fixups, labels, out.code, out.pending) &&
      StringsTracked(strings, lits, out.code, out.pending) &&
      (forall f :: f in known ==> f in labels && labels[f] == known[f] && 0 <= known[f] <= CODE_MAX) &&
      (forall f :: f in labels ==> 0 <= labels[f] <= CODE_MAX) &&
      Reachable(syms) && -FAR <= localOffset <= 0
    }

    ghost predicate Valid()
      reads this, out, out.buf
    {
      out.Valid() && |loops| <= MAX_LOOP_DEPTH && (Clean() ==> Invariant())
    }

    ghost function Now(): Snap
      reads out
    {
      Snap(out.code, out.pos, out.pending)
    }

    method Error()
      requires Valid()
      modifies this`hadError
      ensures Valid() && hadError && Use() == old(Use()).(reported := true)
    {
      hadError := true;
    }

    // ---- emission ---------------------------------------------------------------

    method Put(i: Instr)
      requires Valid()
      modifies out`pos, out`overflow, out`code, out.buf
      ensures Valid() && Fed(Size(i))
      ensures Clean() ==>
        old(Clean()) && Progress(old(Now()), Now(), |loops|, {}) && Here(out.code, old(out.pos), i) &&
        out.pos == old(out.pos) + Size(i)
    {
      hide LoopsTracked, FixupsTracked, StringsTracked, SameKinds, Progress, Encode, Size;
      ghost var a := Now();
      ghost var bytes := out.buf[..out.pos];
      out.Emit(i);
      if Clean() {
        LaidBelow(bytes, a.code, a.pending);
        Emitted(a, Now(), i, |loops|);
        KeepTables(a);
      }
    }

    /** The tables still describe what is pending. */
    lemma KeepTables(a: Snap)
      requires LoopsTracked(loops, exits, a.code, a.pending)
      requires FixupsTracked(fixups, labels, a.code, a.pending)
      requires StringsTracked(strings, lits, a.code, a.pending)
      requires SameKinds(a, Now())
      ensures LoopsTracked(loops, exits, out.code, out.pending)
      ensures FixupsTracked(fixups, labels, out.code, out.pending)
      ensures StringsTracked(strings, lits, out.code, out.pending)
    {
      LoopsGrown(loops, exits, a.code, a.pending, out.code, out.pending);
      FixupsGrown(fixups, labels, a.code, a.pending, out.code, out.pending);
      StringsGrown(strings, lits, a.code, a.pending, out.code, out.pending);
    }

    /** Emit an instruction with a placeholder the caller will fill. */
    method PutHole(ghost i: Instr, op: Instr) returns (p: nat)
      requires Valid() && Patchable(i) && op == Hole(i)
      modifies out`pos, out`overflow, out`code, out`pending, out.buf
      ensures Valid() && Fed(Size(i))
      ensures Clean() ==>
        old(Clean()) && Progress(old(Now()), Now(), |loops|, {old(out.pos)}) &&
        out.pending == old(out.pending)[old(out.pos) := Local] &&
        Here(out.code, old(out.pos), i) && out.pos == old(out.pos) + Size(i) && p == out.pos - 4
    {
      hide LoopsTracked, FixupsTracked, StringsTracked, SameKinds, Progress, Encode, Size;
      ghost var a := Now();
      ghost var bytes := out.buf[..out.pos];
      p := out.EmitHole(i, op, Local);
      if Clean() {
        LaidBelow(bytes, a.code, a.pending);
        Opened(a, Now(), i, |loops|);
        KeepTables(a);
      }
    }

    /** Emit an instruction with a placeholder that a table will keep track of. */
    method Defer(ghost i: Instr, op: Instr, ghost tag: Tag) returns (p: nat)
      requires out.Valid() && Patchable(i) && op == Hole(i)
      modifies out`pos, out`overflow, out`code, out`pending, out.buf
      ensures out.Valid() && Fed(Size(i))
      ensures Clean() ==>
        old(Clean()) && p == out.pos - 4 && old(out.pos) !in old(out.code) &&
        (forall q :: q in old(out.pending) ==> q < old(out.pos)) &&
        Now() == Snap(old(out.code)[old(out.pos) := i], old(out.pos) + Size(i), old(out.pending)[old(out.pos) := tag])
      ensures !out.overflow ==>
        out.buf[..out.pos] == old(out.buf[..out.pos]) + Encode(op) && p == old(out.pos) + Size(i) - 4
    {
      hide Laid, Size, Encode;
      ghost var a, bytes := Now(), out.buf[..out.pos];
      p := out.EmitHole(i, op, tag);
      if Clean() {
        LaidPending(bytes, a.code, a.pending);
      }
    }

    /** Fill the placeholder at p, the operand of the instruction at q. */
    method Fill(p: nat, v: word, ghost q: int)
      requires Valid()
      requires Clean() ==>
        q in out.pending && out.pending[q] == Local && p == q + Size(out.code[q]) - 4 && v == OperandOf(out.code[q])
      modifies out`pending, out`sound, out.buf
      ensures Valid()
      ensures Clean() ==> old(Clean()) && Now() == old(Now()).(pending := old(out.pending) - {q})
      ensures Fed(0)
    {
      hide LoopsTracked, FixupsTracked, StringsTracked, SameKinds, Progress, Encode, Size;
      ghost var a := Now();
      out.PatchDword(p, v, q);
      if old(Clean()) {
        Filled(a, Now(), q);
        KeepTables(a);
      }
    }

    method Put2(i: Instr, j: Instr)
      requires Valid()
      modifies out`pos, out`overflow, out`code, out.buf
      ensures Valid() && Fed(Size(i) + Size(j))
      ensures Clean() ==>
        old(Clean()) && Progress(old(Now()), Now(), |loops|, {}) && out.pos == old(out.pos) + Size(i) + Size(j) &&
        Here(out.code, old(out.pos), i) && Here(out.code, old(out.pos) + Size(i), j)
    {
      hide Valid, Size, Stays, Faithful, Takes, Callable, Use;
      ghost var a, u := Now(), Use();
      Put(i);
      ghost var b, v := Now(), Use();
      Put(j);
      Chained(u, v, Use(), 0, 0, Size(i), 0, 0, Size(j));
      if Clean() {
        Onwards(a, b, Now(), |loops|, {});
      }
    }

    method Put3(i: Instr, j: Instr, k: Instr)
      requires Valid()
      modifies out`pos, out`overflow, out`code, out.buf
      ensures Valid() && Fed(Size(i) + Size(j) + Size(k))
      ensures Clean() ==>
        old(Clean()) && Progress(old(Now()), Now(), |loops|, {}) &&
        out.pos == old(out.pos) + Size(i) + Size(j) + Size(k) &&
        Here(out.code, old(out.pos), i) && Here(out.code, old(out.pos) + Size(i), j) &&
        Here(out.code, old(out.pos) + Size(i) + Size(j), k)
    {
      hide Valid, Size, Stays, Faithful, Takes, Callable, Use;
      ghost var a, u := Now(), Use();
      Put2(i, j);
      ghost var b, v := Now(), Use();
      Put(k);
      Chained(u, v, Use(), 0, 0, Size(i) + Size(j), 0, 0, Size(k));
      if Clean() {
        Onwards(a, b, Now(), |loops|, {});
      }
    }

    method PutOperator(op: BinOp)
      requires Valid()
      modifies out`pos, out`overflow, out`code, out.buf
      ensures Valid() && Fed(OpSize(op))
      ensures Clean() ==>
        old(Clean()) && Progress(old(Now()), Now(), |loops|, {}) &&
        OperatorCode(out.code, old(out.pos), op) && out.pos == old(out.pos) + OpSize(op)
    {
      hide Valid, Progress, Here, Stays, Faithful, Takes, Callable, Use;
      if op.Div? {
        Put2(Cdq, IdivEcx);
      } else if op.Rem? {
        Put3(Cdq, IdivEcx, Rr(AluMov, EAX, EDX));
      } else if op.Cmp? {
        Put3(Rr(AluCmp, EAX, ECX), SetCC(op.cc, EAX), MovzxEaxAl);
      } else {
        Put(OneInstr(op));
      }
    }

    /** mov ecx, eax; pop eax; and the operator. */
    method CompileOp(op: BinOp)
      requires Valid()
      modifies out`pos, out`overflow, out`code, out.buf
      ensures Valid() && Fed(3 + OpSize(op))
      ensures Clean() ==>
        old(Clean()) && Progress(old(Now()), Now(), |loops|, {}) &&
        OpCode(out.code, old(out.pos), op) && out.pos == old(out.pos) + 3 + OpSize(op)
    {
      hide Valid, Progress, Here, OperatorCode, Stays, Faithful, Takes, Callable, Use;
      ghost var a, u := Now(), Use();
      Put2(Rr(AluMov, ECX, EAX), Pop(EAX));
      ghost var b, v := Now(), Use();
      PutOperator(op);
      Chained(u, v, Use(), 0, 0, 3, 0, 0, OpSize(op));
      if Clean() {
        Onwards(a, b, Now(), |loops|, {});
        Extends(b, Now(), |loops|, {});
      }
    }

    lemma SymbolInRange(k: nat)
      requires Valid() && k < |syms|
      ensures Clean() ==> InRange(syms[k].val)
    {
    }

    /** Load x into EAX, or report it as undefined. */
    method PutLoad(x: string)
      requires Valid()
      modifies this`hadError, out`pos, out`overflow, out`code, out.buf
      ensures Valid() && Kept(true, Find(syms, x) >= 0, 0, 0, 6)
      ensures Clean() ==>
        old(Clean()) && Progress(old(Now()), Now(), |loops|, {}) && out.pos == old(out.pos) + 6 &&
        Find(syms, x) >= 0 && IsLoad(out.code, old(out.pos), EAX, syms[Find(syms, x)].val)
    {
      hide Valid, Progress, Find, Stays, Faithful, Takes, Callable;
      ghost var p, u := out.pos, Use();
      var k := Find(syms, x);
      if k < 0 {
        Error();
        Put(MovImm(EAX, 0));
        Refused(u, Use());
      } else {
        SymbolInRange(k);
        Put(LoadOf(syms[k].val));
        if Clean() {
          Accesses(out.code, p, syms[k].val);
        }
      }
    }

    method PutStore(x: string)
      requires Valid()
      modifies this`hadError, out`pos, out`overflow, out`code, out.buf
      ensures Valid() && Kept(true, Find(syms, x) >= 0, 0, 0, 6)
      ensures Clean() ==>
        old(Clean()) && Progress(old(Now()), Now(), |loops|, {}) && out.pos == old(out.pos) + 6 &&
        Find(syms, x) >= 0 && IsStore(out.code, old(out.pos), syms[Find(syms, x)].val, EAX)
    {
      hide Valid, Progress, Find, Stays, Faithful, Takes, Callable;
      ghost var p, u := out.pos, Use();
      var k := Find(syms, x);
      if k < 0 {
        Error();
        Put(MovImm(EAX, 0));
        Refused(u, Use());
      } else {
        SymbolInRange(k);
        Put(StoreOf(syms[k].val));
        if Clean() {
          Accesses(out.code, p, syms[k].val);
        }
      }
    }

    // ---- jumps --------------------------------------------------------------------

    /** cmp eax, 0 and a conditional jump whose target comes later. */
    method PutTest(cc: CC, ghost target: int) returns (p: nat)
      requires Valid()
      modifies out`pos, out`overflow, out`code, out`pending, out.buf
      ensures Valid() && Fed(11)
      ensures Clean() ==>
        old(Clean()) && Progress(old(Now()), Now(), |loops|, {old(out.pos) + 5}) && out.pos == old(out.pos) + 11 &&
        Here(out.code, old(out.pos), CmpEaxImm(0)) && p == out.pos - 4 &&
        Here(out.code, old(out.pos) + 5, Jcc(cc, RelTo(old(out.pos) + 11, target)))
    {
      hide Valid, Progress, Here, RelTo, Stays, Faithful, Takes, Callable, Use;
      ghost var a, u := Now(), Use();
      Put(CmpEaxImm(0));
      ghost var b, v := Now(), Use();
      p := PutHole(Jcc(cc, RelTo(b.pos + 6, target)), Jcc(cc, 0));
      Chained(u, v, Use(), 0, 0, 5, 0, 0, 6);
      if Clean() {
        OpenedMore(a, b, Now(), |loops|, {});
        Extends(b, Now(), |loops|, {b.pos});
        assert {} + {b.pos} == {b.pos};
      }
    }

    method PutJump(ghost target: int) returns (p: nat)
      requires Valid()
      modifies out`pos, out`overflow, out`code, out`pending, out.buf
      ensures Valid() && Fed(5)
      ensures Clean() ==>
        old(Clean()) && Progress(old(Now()), Now(), |loops|, {old(out.pos)}) && out.pos == old(out.pos) + 5 &&
        p == out.pos - 4 && Here(out.code, old(out.pos), Jmp(RelTo(old(out.pos) + 5, target)))
    {
      hide Valid, Progress, Stays, Faithful, Takes, Callable, Use;
      p := PutHole(Jmp(RelTo(out.pos + 5, target)), Jmp(0));
    }

    /** Let the jump with operand at p come here. */
    method Land(p: nat, ghost q: int, ghost i: Instr, ghost target: int)
      requires Valid() && (i.Jmp? || i.Jcc?)
      requires Clean() ==>
        q in out.pending && out.pending[q] == Local && Here(out.code, q, i) && target == out.pos &&
        p == q + Size(i) - 4 &&
        i.rel == RelTo(p + 4, target)
      modifies out`pending, out`sound, out.buf
      ensures Valid() && Fed(0)
      ensures Clean() ==> old(Clean()) && Now() == old(Now()).(pending := old(out.pending) - {q})
    {
      ghost var from := p + 4;
      RelToReaches(from, target);
      Fill(p, Wrap(out.pos - (p + 4)), q);
    }

    lemma InBuffer()
      requires Valid()
      ensures out.pos <= CODE_MAX && (Clean() ==> -FAR <= localOffset <= 0)
    {
    }

    /** A hole that is open: its instruction waits with its operand still to come. */
    lemma HoleOpen(b: Snap, f: Snap, depth: nat, holes: set<int>, q: int)
      requires Progress(b, f, depth, holes) && q in holes
      ensures q in f.pending && f.pending[q] == Local
    {
    }

    /** cmp eax, 0; setne al; movzx eax, al */
    method PutBool()
      requires Valid()
      modifies out`pos, out`overflow, out`code, out.buf
      ensures Valid() && Fed(11)
      ensures Clean() ==>
        old(Clean()) && Progress(old(Now()), Now(), |loops|, {}) &&
        BoolCode(out.code, old(out.pos)) && out.pos == old(out.pos) + 11
    {
      hide Valid, Progress, Here, Stays, Faithful, Takes, Callable, Use;
      Put3(CmpEaxImm(0), SetCC(NE, EAX), MovzxEaxAl);
    }

    // ---- expressions --------------------------------------------------------------

    method CompileExpr(e: Expr)
      requires Valid()
      modifies this`fixups, this`strings, this`hadError, this`lits, out`pos, out`overflow, out`code, out`pending,
        out`sound, out.buf
      ensures Valid() && ExprDone(e)
      decreases e, 1
    {
      hide Valid, Progress, ExprCode, ExprSize, ExprLits;
      if hadError {
        return;
      }
      match e {
        case Const(w) => CompileLeaf(e);
        case Str(text, a) => CompileString(e);
        case Var(x) => CompileLeaf(e);
        case Unary(u, e1) => CompileUnary(e);
        case Binary(op, l, r) => CompileBinary(e);
        case AndAlso(l, r) => CompileAnd(e);
        case OrElse(l, r) => CompileOr(e);
        case Assign(x, e1) => CompileAssign(e);
        case OpAssign(x, op, e1) =>
          if op.Add? || op.Sub? || op.Mul? || op.Div? {
            CompileOpAssign(e);
          } else {
            Error();
          }
        case Call(f, args) => CompileCall(e);
      }
    }

    method CompileLeaf(e: Expr)
      requires (e.Const? || e.Var?) && Valid()
      modifies this`fixups, this`strings, this`hadError, this`lits, out`pos, out`overflow, out`code, out`pending,
        out`sound, out.buf
      ensures Valid() && ExprDone(e)
      decreases e, 0
    {
      hide Valid, Progress, Find, Stays, Faithful, Takes, Callable;
      if e.Const? {
        Put(MovImm(EAX, e.w));
      } else {
        PutLoad(e.x);
      }
    }

    method CompileUnary(e: Expr)
      requires e.Unary? && Valid()
      modifies this`fixups, this`strings, this`hadError, this`lits, out`pos, out`overflow, out`code, out`pending,
        out`sound, out.buf
      ensures Valid() && ExprDone(e)
      decreases e, 0
    {
      hide Valid, Progress, ExprCode, ExprSize, Here, Grown, Stays, Faithful, Takes, Callable;
      ghost var a, u := Now(), Use();
      CompileExpr(e.e);
      ghost var b, v := Now(), Use();
      Put(if e.u.Minus? then Neg(EAX) else Not(EAX));
      Chained(u, v, Use(), ExprCalls(e), |ExprLits(e)|, ExprSize(e.e), 0, 0, 2);
      CodeUnary(out.code, a.pos, e, syms, labels);
      if Clean() {
        Onwards(a, b, Now(), |loops|, {});
        Extends(b, Now(), |loops|, {});
        ExprGrown(b.code, out.code, a.pos, e.e, syms, labels);
      }
    }

    method CompileBinary(e: Expr)
      requires e.Binary? && Valid()
      modifies this`fixups, this`strings, this`hadError, this`lits, out`pos, out`overflow, out`code, out`pending,
        out`sound, out.buf
      ensures Valid() && ExprDone(e)
      decreases e, 0
    {
      hide Valid, Progress, ExprCode, ExprSize, OpCode, OpSize, Here, Grown, Stays, Faithful, Takes, Callable, Use,
        Clean;
      ghost var a, u0 := Now(), Use();
      CompileExpr(e.l);
      ghost var b, u1 := Now(), Use();
      Put(Push(EAX));
      ghost var c, u2 := Now(), Use();
      CompileExpr(e.r);
      ghost var d, u3 := Now(), Use();
      CompileOp(e.op);
      Chained(u0, u1, u2, ExprCalls(e.l), |ExprLits(e.l)|, ExprSize(e.l), 0, 0, 1);
      Chained(u0, u2, u3, ExprCalls(e.l), |ExprLits(e.l)|, ExprSize(e.l) + 1, ExprCalls(e.r), |ExprLits(e.r)|,
        ExprSize(e.r));
      Chained(u0, u3, Use(), ExprCalls(e), |ExprLits(e)|, ExprSize(e.l) + 1 + ExprSize(e.r), 0, 0, 3 + OpSize(e.op));
      CodeBinary(out.code, a.pos, e, syms, labels);
      if Clean() {
        Onwards(c, d, Now(), |loops|, {});
        Extends(d, Now(), |loops|, {});
        ExprGrown(d.code, out.code, c.pos, e.r, syms, labels);
        Onwards(b, c, Now(), |loops|, {});
        Extends(c, Now(), |loops|, {});
        Onwards(a, b, Now(), |loops|, {});
        Extends(b, Now(), |loops|, {});
        ExprGrown(b.code, out.code, a.pos, e.l, syms, labels);
        assert lits == old(lits) + ExprLits(e);
      }
    }

    method CompileString(e: Expr)
      requires e.Str? && Valid()
      modifies this`fixups, this`strings, this`hadError, this`lits, out`pos, out`overflow, out`code, out`pending,
        out`sound, out.buf
      ensures Valid() && ExprDone(e)
      ensures if old(|strings|) < 128 then |strings| == old(|strings|) + 1 else hadError && strings == old(strings)
      decreases e, 0
    {
      hide LoopsTracked, FixupsTracked, StringsTracked, SameKind, Progress, Encode, Laid, RelTo, LoopTracked, out.Valid,
        DataKept, Stays, Faithful, Takes, Callable;
      ghost var a, u := Now(), Use();
      var n := |strings|;
      var p := Defer(MovImm(EAX, e.addr), MovImm(EAX, 0), StringRef(n));
      ghost var v := Use();
      if n < MAX_STRINGS {
        strings := strings + [StringEntry(e.text, p)];
        lits := lits + [Lit(e.text, e.addr)];
        if Clean() {
          Deferred(a, Now(), MovImm(EAX, e.addr), StringRef(n), |loops|);
          OtherKinds(a.code, a.pending, a.pos, MovImm(EAX, e.addr), StringRef(n));
          LoopsGrown(loops, exits, a.code, a.pending, out.code, out.pending);
          FixupsGrown(fixups, labels, a.code, a.pending, out.code, out.pending);
          StringAdded(old(strings), old(lits), a.code, a.pending, Lit(e.text, e.addr), a.pos);
        }
        OneMoreText(u, v, Use());
      } else {
        hadError := true;
        Refused(u, Use());
        TooManyTexts(u, Use());
      }
    }

    method CompileAnd(e: Expr)
      requires e.AndAlso? && Valid()
      modifies this`fixups, this`strings, this`hadError, this`lits, out`pos, out`overflow, out`code, out`pending,
        out`sound, out.buf
      ensures Valid() && ExprDone(e)
      decreases e, 0
    {
      hide Valid, Progress, ExprCode, ExprSize, Here, Grown, TestCode, BoolCode, Stays, Faithful, Takes, Callable;
      ghost var a, u0 := Now(), Use();
      CompileExpr(e.l);
      ghost var b, u1 := Now(), Use();
      AndTail(e.r);
      Chained(u0, u1, Use(), ExprCalls(e.l), |ExprLits(e.l)|, ExprSize(e.l), ExprCalls(e.r), |ExprLits(e.r)|,
        ExprSize(e.r) + 22);
      CodeAnd(out.code, a.pos, e, syms, labels);
      if Clean() {
        Onwards(a, b, Now(), |loops|, {});
        Extends(b, Now(), |loops|, {});
        ExprGrown(b.code, out.code, a.pos, e.l, syms, labels);
        assert lits == old(lits) + ExprLits(e);
      }
    }

    /** A right operand of && or ||, made 0 or 1. */
    method CompileBool(r: Expr)
      requires Valid()
      modifies this`fixups, this`strings, this`hadError, this`lits, out`pos, out`overflow, out`code, out`pending,
        out`sound, out.buf
      ensures Valid() && Kept(true, ExprNamed(r, syms, labels), ExprCalls(r), |ExprLits(r)|, ExprSize(r) + 11)
      ensures Clean() ==>
        old(Clean()) && Progress(old(Now()), Now(), |loops|, {}) && lits == old(lits) + ExprLits(r) &&
        BoolExpr(out.code, old(out.pos), r, syms, labels) && out.pos == old(out.pos) + ExprSize(r) + 11
      decreases r, 2
    {
      hide Valid, Progress, ExprCode, ExprSize, Grown, BoolCode, Stays, Faithful, Takes, Callable;
      ghost var a, u0 := Now(), Use();
      CompileExpr(r);
      ghost var b, u1 := Now(), Use();
      PutBool();
      Chained(u0, u1, Use(), ExprCalls(r), |ExprLits(r)|, ExprSize(r), 0, 0, 11);
      if Clean() {
        Onwards(a, b, Now(), |loops|, {});
        Extends(b, Now(), |loops|, {});
        ExprGrown(b.code, out.code, a.pos, r, syms, labels);
      }
    }

    /** `&& r`, with the left operand in EAX. */
    method AndTail(r: Expr)
      requires Valid()
      modifies this`fixups, this`strings, this`hadError, this`lits, out`pos, out`overflow, out`code, out`pending,
        out`sound, out.buf
      ensures Valid() && Kept(true, ExprNamed(r, syms, labels), ExprCalls(r), |ExprLits(r)|, ExprSize(r) + 22)
      ensures var p2 := old(out.pos) + 11 + ExprSize(r);
        Clean() ==>
          old(Clean()) && Progress(old(Now()), Now(), |loops|, {}) && lits == old(lits) + ExprLits(r) &&
          out.pos == p2 + 11 &&
          TestCode(out.code, old(out.pos), E, p2 + 11) && BoolExpr(out.code, old(out.pos) + 11, r, syms, labels)
      decreases r, 3
    {
      hide Valid, Progress, ExprSize, Here, Grown, RelTo, BoolExpr, Stays, Faithful, Takes, Callable;
      ghost var b, u0 := Now(), Use();
      ghost var q := b.pos + 5;
      var j := PutTest(E, b.pos + 11 + ExprSize(r) + 11);
      ghost var c, u1 := Now(), Use();
      CompileBool(r);
      ghost var f, u2 := Now(), Use();
      if Clean() {
        Extends(c, f, |loops|, {});
      }
      LandTest(j, b, c, q, E, {});
      ChainedAndDone(u0, u1, u2, Use(), 0, 0, 11, ExprCalls(r), |ExprLits(r)|, ExprSize(r) + 11);

    }

    /** The end of ||: skip the 1 that the jump at q lands on. */
    method OrEnd(j: nat, ghost b: Snap, ghost q: int)
      requires Valid()
      requires Clean() ==>
        Progress(b, Now(), |loops|, {q}) && Here(out.code, q, Jcc(NE, RelTo(q + 6, out.pos + 5))) && j == q + 2
      modifies out`pos, out`overflow, out`code, out`pending, out`sound, out.buf
      ensures Valid() && Fed(10)
      ensures Clean() ==>
        old(Clean()) && Progress(b, Now(), |loops|, {}) && Grown(old(out.code), out.code) &&
        out.pos == old(out.pos) + 10 &&
        Here(out.code, old(out.pos), Jmp(RelTo(old(out.pos) + 5, out.pos))) &&
        Here(out.code, old(out.pos) + 5, MovImm(EAX, 1))
    {
      hide Valid, Progress, Here, RelTo, Stays, Faithful, Takes, Callable, Use;
      ghost var f, u0 := Now(), Use();
      var end := SkipJump(j, b, q, NE, f.pos + 10);
      ghost var h, u1 := Now(), Use();
      Put(MovImm(EAX, 1));
      ghost var k, u2 := Now(), Use();
      if Clean() {
        Onwards(b, h, k, |loops|, {f.pos});
        Extends(h, k, |loops|, {});
        HoleOpen(b, k, |loops|, {f.pos}, f.pos);
      }
      Land(end, f.pos, Jmp(RelTo(f.pos + 5, k.pos)), k.pos);
      ChainedAndDone(u0, u1, u2, Use(), 0, 0, 5, 0, 0, 5);
      if Clean() {
        GrownTwice(f.code, h.code, k.code);
        Closed(b, k, Now(), |loops|, {f.pos}, f.pos);
        assert {f.pos} - {f.pos} == {};
      }
    }

    lemma HolesLess(b: Snap, f: Snap, depth: nat, q: int)
      requires Progress(b, f, depth, {q})
      ensures {q} + {f.pos} - {q} == {f.pos}
    {
      assert q in {q};
    }

    /** `|| r`, with the left operand in EAX. */
    method OrTail(r: Expr)
      requires Valid()
      modifies this`fixups, this`strings, this`hadError, this`lits, out`pos, out`overflow, out`code, out`pending,
        out`sound, out.buf
      ensures Valid() && Kept(true, ExprNamed(r, syms, labels), ExprCalls(r), |ExprLits(r)|, ExprSize(r) + 32)
      ensures var p2 := old(out.pos) + 11 + ExprSize(r);
        Clean() ==>
          old(Clean()) && Progress(old(Now()), Now(), |loops|, {}) && lits == old(lits) + ExprLits(r) &&
          out.pos == p2 + 21 &&
          TestCode(out.code, old(out.pos), NE, p2 + 16) && BoolExpr(out.code, old(out.pos) + 11, r, syms, labels) &&
          IsJmp(out.code, p2 + 11, p2 + 21) && Here(out.code, p2 + 16, MovImm(EAX, 1))
      decreases r, 3
    {
      hide Valid, Progress, ExprSize, Here, Grown, RelTo, BoolExpr, Stays, Faithful, Takes, Callable, Use, Clean;
      ghost var b, u0 := Now(), Use();
      ghost var q := b.pos + 5;
      ghost var p2 := b.pos + 11 + ExprSize(r);
      var j := PutTest(NE, p2 + 16);
      ghost var c, u1 := Now(), Use();
      CompileBool(r);
      ghost var f, u2 := Now(), Use();
      if Clean() {
        Onwards(b, c, f, |loops|, {q});
        Extends(c, f, |loops|, {});
      }
      OrEnd(j, b, q);
      Chained(u0, u1, u2, 0, 0, 11, ExprCalls(r), |ExprLits(r)|, ExprSize(r) + 11);
      Chained(u0, u2, Use(), ExprCalls(r), |ExprLits(r)|, ExprSize(r) + 22, 0, 0, 10);
      InBuffer();
      if Clean() {
        BoolGrown(f.code, out.code, c.pos, r, syms, labels);
        AtomsGrown(f.code, out.code);
        Reaches(out.code, q, p2 + 16);
        Reaches(out.code, p2 + 11, p2 + 21);
      }
    }

    method CompileOr(e: Expr)
      requires e.OrElse? && Valid()
      modifies this`fixups, this`strings, this`hadError, this`lits, out`pos, out`overflow, out`code, out`pending,
        out`sound, out.buf
      ensures Valid() && ExprDone(e)
      decreases e, 0
    {
      hide Valid, Progress, ExprCode, ExprSize, Here, Grown, TestCode, BoolCode, IsJmp, Stays, Faithful, Takes,
        Callable;
      ghost var a, u0 := Now(), Use();
      CompileExpr(e.l);
      ghost var b, u1 := Now(), Use();
      OrTail(e.r);
      Chained(u0, u1, Use(), ExprCalls(e.l), |ExprLits(e.l)|, ExprSize(e.l), ExprCalls(e.r), |ExprLits(e.r)|,
        ExprSize(e.r) + 32);
      CodeOr(out.code, a.pos, e, syms, labels);
      if Clean() {
        Onwards(a, b, Now(), |loops|, {});
        Extends(b, Now(), |loops|, {});
        ExprGrown(b.code, out.code, a.pos, e.l, syms, labels);
        assert lits == old(lits) + ExprLits(e);
      }
    }

    method CompileAssign(e: Expr)
      requires e.Assign? && Valid()
      modifies this`fixups, this`strings, this`hadError, this`lits, out`pos, out`overflow, out`code, out`pending,
        out`sound, out.buf
      ensures Valid() && ExprDone(e)
      decreases e, 0
    {
      hide Valid, Progress, Here, Find, Stays, Faithful, Takes, Callable;
      ghost var a, u0 := Now(), Use();
      CompileExpr(e.e);
      ghost var b, u1 := Now(), Use();
      PutStore(e.x);
      Chained(u0, u1, Use(), ExprCalls(e.e), |ExprLits(e.e)|, ExprSize(e.e), 0, 0, 6);
      if Clean() {
        Onwards(a, b, Now(), |loops|, {});
        Extends(b, Now(), |loops|, {});
        ExprGrown(b.code, out.code, a.pos, e.e, syms, labels);
      }
    }

    method CompileOpAssign(e: Expr)
      requires e.OpAssign? && (e.op.Add? || e.op.Sub? || e.op.Mul? || e.op.Div?) && Valid()
      modifies this`fixups, this`strings, this`hadError, this`lits, out`pos, out`overflow, out`code, out`pending,
        out`sound, out.buf
      ensures Valid() && ExprDone(e)
      decreases e, 0
    {
      hide Valid, Progress, Here, Find, ExprCode, ExprSize, ExprLits, ExprNamed, ExprCalls, OpCode, OpSize, IsLoad,
        IsStore, Grown, Stays, Faithful, Takes, Callable, Use, Clean;
      ghost var a, u0 := Now(), Use();
      OpAssignShape(e, syms, labels);
      PutLoad(e.x);
      ghost var b, u1 := Now(), Use();
      Put(Push(EAX));
      ghost var c, u2 := Now(), Use();
      CompileExpr(e.e);
      ghost var d, u3 := Now(), Use();
      OpStore(e.op, e.x);
      Chained(u0, u1, u2, 0, 0, 6, 0, 0, 1);
      Chained(u0, u2, u3, 0, 0, 7, ExprCalls(e.e), |ExprLits(e.e)|, ExprSize(e.e));
      Chained(u0, u3, Use(), ExprCalls(e), |ExprLits(e)|, 7 + ExprSize(e.e), 0, 0, 9 + OpSize(e.op));
      CodeOpAssign(out.code, a.pos, e, syms, labels);
      if Clean() {
        Onwards(c, d, Now(), |loops|, {});
        Extends(d, Now(), |loops|, {});
        ExprGrown(d.code, out.code, c.pos, e.e, syms, labels);
        Onwards(b, c, Now(), |loops|, {});
        Onwards(a, b, Now(), |loops|, {});
        Extends(c, Now(), |loops|, {});
        Extends(b, Now(), |loops|, {});
        LoadGrown(b.code, out.code, a.pos, EAX, syms[Find(syms, e.x)].val);
        HereGrown(c.code, out.code, b.pos, Push(EAX));
      }
    }

    lemma OpAssignShape(e: Expr, syms: Symbols, labels: Labels)
      requires e.OpAssign? && (e.op.Add? || e.op.Sub? || e.op.Mul? || e.op.Div?)
      ensures ExprCalls(e) == ExprCalls(e.e) && ExprLits(e) == ExprLits(e.e)
      ensures ExprNamed(e, syms, labels) <==> Find(syms, e.x) >= 0 && ExprNamed(e.e, syms, labels)
    {
    }

    /** Apply op to what was pushed and EAX, and store the result in x. */
    method OpStore(op: BinOp, x: string)
      requires Valid()
      modifies this`hadError, out`pos, out`overflow, out`code, out.buf
      ensures Valid() && Kept(true, Find(syms, x) >= 0, 0, 0, 9 + OpSize(op))
      ensures var q := old(out.pos) + 3 + OpSize(op);
        Clean() ==>
          old(Clean()) && Progress(old(Now()), Now(), |loops|, {}) && out.pos == q + 6 &&
          OpCode(out.code, old(out.pos), op) &&
          Find(syms, x) >= 0 && IsStore(out.code, q, syms[Find(syms, x)].val, EAX)
    {
      hide Valid, Progress, Here, Find, OpCode, OpSize, IsStore, Grown, Stays, Faithful, Takes, Callable;
      ghost var a, u := Now(), Use();
      CompileOp(op);
      ghost var b, v := Now(), Use();
      PutStore(x);
      Chained(u, v, Use(), 0, 0, 3 + OpSize(op), 0, 0, 6);
      if Clean() {
        Onwards(a, b, Now(), |loops|, {});
        Extends(b, Now(), |loops|, {});
        OpGrown(b.code, out.code, a.pos, op);
      }
    }

    method CompileCall(e: Expr)
      requires e.Call? && Valid()
      modifies this`fixups, this`strings, this`hadError, this`lits, out`pos, out`overflow, out`code, out`pending,
        out`sound, out.buf
      ensures Valid() && ExprDone(e)
      decreases e, 0
    {
      hide Valid, Progress, Here, ArgsCode, ArgsSize, ArgsLits, ArgsNamed, ArgsCalls, ReverseCode, IsCallTo, IsAddEsp,
        Stays, Faithful, Takes, Callable, ExprCode, ExprSize, Grown;
      ghost var a, u0, n := Now(), Use(), ArgCount(e.args);
      CompileArgs(e.args);
      ghost var b, u1 := Now(), Use();
      InBuffer();
      ArgsNeedRoom(e.args);
      CompileReverse(ArgCount(e.args));
      ghost var c, u2 := Now(), Use();
      CallTail(e.f, ArgCount(e.args));
      Chained(u0, u1, u2, ArgsCalls(e.args), |ArgsLits(e.args)|, ArgsSize(e.args), 0, 0, 28 * (n / 2));
      Chained(u0, u2, Use(), ArgsCalls(e.args), |ArgsLits(e.args)|, ArgsSize(e.args) + 28 * (n / 2), 1, 0,
        5 + if n > 0 then 6 else 0);
      CodeCall(out.code, a.pos, e, syms, labels);
      if Clean() {
        Onwards(b, c, Now(), |loops|, {});
        Onwards(a, b, Now(), |loops|, {});
        Extends(b, Now(), |loops|, {});
        Extends(c, Now(), |loops|, {});
        ArgsGrown(b.code, out.code, a.pos, e.args, syms, labels);
        ReverseGrown(c.code, out.code, b.pos, ArgCount(e.args), 0);
      }
    }

    // ---- calls --------------------------------------------------------------------

    /** The call, and the removal of its arguments. */
    method CallTail(f: string, argc: nat)
      requires Valid() && (Clean() ==> argc <= CODE_MAX)
      modifies this`fixups, this`hadError, out`pos, out`overflow, out`code, out`pending, out`sound, out.buf
      ensures Valid() && Kept(true, f in labels, 1, 0, 5 + if argc > 0 then 6 else 0)
      ensures Clean() ==>
        old(Clean()) && Progress(old(Now()), Now(), |loops|, {}) &&
        out.pos == old(out.pos) + (5 + if argc > 0 then 6 else 0) &&
        IsCallTo(out.code, old(out.pos), f, labels) && (argc > 0 ==> IsAddEsp(out.code, old(out.pos) + 5, 4 * argc))
    {
      hide Valid, Progress, IsCallTo, IsAddEsp, Grown, Stays, Faithful, Takes, Callable;
      ghost var c, u := Now(), Use();
      PutCall(f);
      ghost var d, v := Now(), Use();
      PutDiscard(argc);
      Chained(u, v, Use(), 1, 0, 5, 0, 0, if argc > 0 then 6 else 0);
      if Clean() {
        Onwards(c, d, Now(), |loops|, {});
        Extends(d, Now(), |loops|, {});
        CallGrown(d.code, out.code, c.pos, f, labels);
      }
    }

    method CompileArgs(args: Exprs)
      requires Valid()
      modifies this`fixups, this`strings, this`hadError, this`lits, out`pos, out`overflow, out`code, out`pending,
        out`sound, out.buf
      ensures Valid() && Kept(true, ArgsNamed(args, syms, labels), ArgsCalls(args), |ArgsLits(args)|, ArgsSize(args))
      ensures Clean() ==>
        old(Clean()) && Progress(old(Now()), Now(), |loops|, {}) && lits == old(lits) + ArgsLits(args) &&
        ArgsCode(out.code, old(out.pos), args, syms, labels) && out.pos == old(out.pos) + ArgsSize(args)
      decreases args, 0
    {
      hide Valid, Progress, ExprCode, ExprSize, Callable;
      if args.ECons? {
        ghost var a, u0 := Now(), Use();
        CompileExpr(args.e);
        ghost var b, u1 := Now(), Use();
        Put(Push(EAX));
        ghost var c, u2 := Now(), Use();
        CompileArgs(args.rest);
        Chained(u0, u1, u2, ExprCalls(args.e), |ExprLits(args.e)|, ExprSize(args.e), 0, 0, 1);
        Chained(u0, u2, Use(), ExprCalls(args.e), |ExprLits(args.e)|, ExprSize(args.e) + 1, ArgsCalls(args.rest),
          |ArgsLits(args.rest)|, ArgsSize(args.rest));
        if Clean() {
          Onwards(b, c, Now(), |loops|, {});
          Onwards(a, b, Now(), |loops|, {});
          Extends(c, Now(), |loops|, {});
          Extends(b, Now(), |loops|, {});
          ExprGrown(b.code, out.code, a.pos, args.e, syms, labels);
          assert lits == old(lits) + ArgsLits(args);
        }
      } else {
        Nothing();
        Still(Use());
        assert lits == old(lits) + ArgsLits(args);
      }
    }

    /** Emitting nothing is progress. */
    lemma Nothing()
      requires Valid()
      ensures Clean() ==> Progress(Now(), Now(), |loops|, {})
    {
      if Clean() {
        LaidBelow(out.buf[..out.pos], out.code, out.pending);
      }
    }

    /** Swap the i-th word with the i-th from the top, for every pair of the argc pushed words. */
    method CompileReverse(argc: nat)
      requires Valid() && (Clean() ==> argc <= CODE_MAX)
      modifies out`pos, out`overflow, out`code, out.buf
      ensures Valid() && Fed(28 * (argc / 2))
      ensures Clean() ==>
        old(Clean()) && Progress(old(Now()), Now(), |loops|, {}) &&
        ReverseCode(out.code, old(out.pos), argc, 0) && out.pos == old(out.pos) + 28 * (argc / 2)
    {
      hide Valid, Progress, SwapCode, Grown, Stays, Faithful, Takes, Callable, Use;
      ghost var a, u := Now(), Use();
      var i := 0;
      Nothing();
      Still(Use());
      while i < argc / 2
        invariant i <= argc / 2 && Valid() && Fed(28 * i)
        invariant Clean() ==>
          old(Clean()) && Progress(a, Now(), |loops|, {}) && out.pos == a.pos + 28 * i &&
          SwapsCode(out.code, a.pos, argc, i)
      {
        ghost var b, v := Now(), Use();
        PutSwap(4 * i, 4 * (argc - 1 - i));
        Chained(u, v, Use(), 0, 0, 28 * i, 0, 0, 28);
        if Clean() {
          Onwards(a, b, Now(), |loops|, {});
          Extends(b, Now(), |loops|, {});
          SwapsGrown(b.code, out.code, a.pos, argc, i);
        }
        i := i + 1;
      }
      if Clean() {
        SwapsReverse(out.code, a.pos, argc, 0);
      }
    }

    method PutSwap(lo: nat, hi: nat)
      requires Valid() && (Clean() ==> lo <= 4 * CODE_MAX && hi <= 4 * CODE_MAX)
      modifies out`pos, out`overflow, out`code, out.buf
      ensures Valid() && Fed(28)
      ensures Clean() ==>
        old(Clean()) && Progress(old(Now()), Now(), |loops|, {}) && SwapCode(out.code, old(out.pos), lo, hi) &&
        out.pos == old(out.pos) + 28
    {
      hide Valid, Progress, Stays, Faithful, Takes, Callable, Use;
      ghost var a, u := Now(), Use();
      var l, h := Signed(Wrap(lo)), Signed(Wrap(hi));
      Put2(LoadSp(EAX, l), LoadSp(ECX, h));
      ghost var b, v := Now(), Use();
      Put2(StoreSp(l, ECX), StoreSp(h, EAX));
      Chained(u, v, Use(), 0, 0, 14, 0, 0, 14);
      if Clean() {
        Onwards(a, b, Now(), |loops|, {});
        Extends(b, Now(), |loops|, {});
      }
    }

    method PutCall(f: string)
      requires Valid()
      modifies this`fixups, this`hadError, out`pos, out`overflow, out`code, out`pending, out`sound, out.buf
      ensures Valid() && Kept(true, f in labels, 1, 0, 5)
      ensures Clean() ==>
        old(Clean()) && Progress(old(Now()), Now(), |loops|, {}) &&
        IsCallTo(out.code, old(out.pos), f, labels) && out.pos == old(out.pos) + 5
    {
      if Find(syms, f) < 0 && f in known {
        DirectCall(f);
      } else {
        ForwardCall(f);
      }
    }

    method DirectCall(f: string)
      requires Valid() && f in known
      modifies out`pos, out`overflow, out`code, out.buf
      ensures Valid() && Fed(5)
      ensures Clean() ==>
        old(Clean()) && Progress(old(Now()), Now(), |loops|, {}) &&
        IsCallTo(out.code, old(out.pos), f, labels) && out.pos == old(out.pos) + 5
    {
      hide LoopsTracked, FixupsTracked, StringsTracked, Progress, RelTo, Laid;
      ghost var p := out.pos;
      Put(CallRel(RelTo(out.pos + 5, known[f])));
      RelToReaches(p + 5, known[f]);
    }

    /** A call to a function that is not defined yet: its operand waits for the end. */
    method ForwardCall(f: string)
      requires Valid()
      modifies this`fixups, this`hadError, out`pos, out`overflow, out`code, out`pending, out`sound, out.buf
      ensures Valid() && Kept(true, f in labels, 1, 0, 5)
      ensures if old(|fixups|) < 256 then |fixups| == old(|fixups|) + 1 else hadError && fixups == old(fixups)
      ensures Clean() ==>
        old(Clean()) && Progress(old(Now()), Now(), |loops|, {}) &&
        IsCallTo(out.code, old(out.pos), f, labels) && out.pos == old(out.pos) + 5
    {
      hide LoopsTracked, FixupsTracked, StringsTracked, SameKind, Progress, Encode, Laid, RelTo, LoopTracked, out.Valid,
        DataKept, Stays, Faithful, Takes, Callable, CallTarget;
      ghost var a, u := Now(), Use();
      var n := |fixups|;
      InBuffer();
      ghost var d := CallTarget(f, out.pos + 1, labels);
      var p := Defer(CallRel(d), CallRel(0), Fixup(n));
      ghost var v := Use();
      if n < MAX_FIXUPS {
        fixups := fixups + [FixupEntry(f, p)];
        if Clean() {
          FixupDeferred(a, f, d, |old(fixups)|);
          LoopsGrown(loops, exits, a.code, a.pending, out.code, out.pending);
          StringsGrown(strings, lits, a.code, a.pending, out.code, out.pending);
          FixupAdded(old(fixups), labels, a.code, a.pending, f, a.pos);
        }
        OneMoreCall(old(fixups), f, p, labels, u, v, Use());
      } else {
        hadError := true;
        Refused(u, Use());
        TooMany(u, Use());
      }
    }

    lemma FixupDeferred(a: Snap, f: string, d: int, n: nat)
      requires d == CallTarget(f, a.pos + 1, labels) && a.pos !in a.code &&
        (forall q :: q in a.pending ==> q < a.pos) && 0 <= a.pos <= CODE_MAX
      requires Now() == Snap(a.code[a.pos := CallRel(d)], a.pos + 5, a.pending[a.pos := Fixup(n)])
      requires forall g :: g in labels ==> 0 <= labels[g] <= CODE_MAX
      ensures Progress(a, Now(), |loops|, {}) && IsCallTo(out.code, a.pos, f, labels)
      ensures SameKind(a.code, a.pending, out.code, out.pending, 1) &&
        SameKind(a.code, a.pending, out.code, out.pending, 3)
    {
      hide Progress, SameKind, RelTo;
      Deferred(a, Now(), CallRel(d), Fixup(n), |loops|);
      OtherKinds(a.code, a.pending, a.pos, CallRel(d), Fixup(n));
      if f in labels {
        RelToReaches(a.pos + 5, labels[f]);
      }
    }

    method PutDiscard(argc: nat)
      requires Valid() && (Clean() ==> argc <= CODE_MAX)
      modifies out`pos, out`overflow, out`code, out.buf
      ensures Valid() && Fed(if argc > 0 then 6 else 0)
      ensures Clean() ==>
        old(Clean()) && Progress(old(Now()), Now(), |loops|, {}) &&
        out.pos == old(out.pos) + (if argc > 0 then 6 else 0) &&
        (argc > 0 ==> IsAddEsp(out.code, old(out.pos), 4 * argc))
    {
      hide Valid, Progress, Stays, Faithful, Takes, Callable;
      if argc == 0 {
        Nothing();
        Still(Use());
      } else {
        Put(AddEsp(Wrap(4 * argc)));
      }
    }

    // ---- statements ---------------------------------------------------------------

    ghost function Brk(): Option<int>
      reads this`exits
    {
      if |exits| > 0 then Some(exits[|exits| - 1]) else None
    }

    ghost function Cont(): Option<int>
      reads this`loops
    {
      if |loops| > 0 then Some(loops[|loops| - 1].cont) else None
    }

    /** Free entries of the symbol table, which also holds the functions. */
    ghost function SymRoom(): int
      reads this`syms, this`known
    {
      MAX_SYMBOLS - BUILTINS - |known| - |syms|
    }

    /** How many breaks the innermost loop already has. */
    ghost function Used(): nat
      reads this`loops
    {
      if |loops| > 0 then |loops[|loops| - 1].breaks| else 0
    }

    ghost predicate LoopFit(body: Stmts)
      reads this`syms, this`known, this`loops, this`localOffset
    {
      LoopHeld(body, |loops|, SymRoom(), localOffset)
    }

    /** Open a loop: silently dropped when the stack is full. */
    method LoopPush(cont: Position, ghost exit: Position)
      requires Valid()
      modifies this`loops, this`exits, out`sound
      ensures Valid() && Kept(old(|loops|) < MAX_LOOP_DEPTH, true, 0, 0, 0)
      ensures Clean() ==> old(Clean()) && loops == old(loops) + [LoopCtx(cont, [])] && exits == old(exits) + [exit]
      ensures loops == Pushed(old(loops), cont)
    {
      if Clean() {
        LoopOpened(loops, exits, out.code, out.pending, cont, exit);
      }
      if |loops| < MAX_LOOP_DEPTH {
        loops := loops + [LoopCtx(cont, [])];
        exits := exits + [exit];
      } else {
        out.sound := false;
      }
    }

    /** Close the innermost loop: every break in it comes here. */
    method LoopPop()
      requires Valid() && (Clean() ==> |loops| > 0 && exits[|loops| - 1] == out.pos)
      modifies this`loops, this`exits, out`pending, out`sound, out.buf
      ensures Valid() && Fed(0)
      ensures Clean() ==>
        old(Clean()) && loops == old(loops)[..|old(loops)| - 1] && exits == old(exits)[..|old(loops)| - 1] &&
        Dropped(old(out.pending), out.pending, |old(loops)| - 1)
      ensures loops == Popped(old(loops))
      ensures old(loops) != [] ==>
        out.buf[..] == Patched(old(out.buf[..]), old(loops[|loops| - 1].breaks), out.pos)
    {
      hide Patched, Overwritten, FixupsTracked, StringsTracked, LoopsTracked, LoopTracked, Released, Dropped, Laid,
        SameKind, DataKept;
      if |loops| == 0 {
        return;
      }
      var d := |loops| - 1;
      ghost var a := Now();
      NewestExit();
      PatchBreaks(loops[d].breaks);
      if Clean() {
        LoopClosed(loops, exits, a.code, a.pending, out.pending);
        FixupsGrown(fixups, labels, a.code, a.pending, out.code, out.pending);
        StringsGrown(strings, lits, a.code, a.pending, out.code, out.pending);
      }
      loops := loops[..d];
      exits := if |exits| > d then exits[..d] else exits;
    }

    /** Let the breaks bs of the innermost loop come here. */
    method PatchBreaks(bs: seq<nat>)
      requires Valid() && |loops| > 0 && bs == loops[|loops| - 1].breaks && (Clean() ==> exits[|loops| - 1] == out.pos)
      modifies out`pending, out`sound, out.buf
      ensures out.Valid() && Fed(0)
      ensures Clean() ==> old(Clean()) && Dropped(old(out.pending), out.pending, |loops| - 1)
      ensures out.buf[..] == Patched(old(out.buf[..]), bs, out.pos)
    {
      hide Overwritten, FixupsTracked, StringsTracked, LoopsTracked, LoopTracked, Released, Dropped, RelTo, out.Valid,
        Reachable;
      ghost var d, exit := |loops| - 1, out.pos;
      if Clean() {
        TopTracked(loops, exits, out.code, out.pending);
        ReleasedNone(out.pending, d);
      }
      var i := 0;
      while i < |bs|
        invariant i <= |bs| && out.Valid() && Fed(0)
        invariant Clean() ==> old(Clean()) && Released(old(out.pending), out.pending, d, i)
        invariant out.buf[..] == Patched(old(out.buf[..]), bs[..i], out.pos)
      {
        if Clean() {
          ReleasedOne(old(out.pending), out.pending, bs, d, exit, i, out.code);
          BreakSite(bs, d, exit, out.code, old(out.pending), i);
          RelToReaches(bs[i] + 4, exit);
        }
        out.PatchDword(bs[i], Wrap(out.pos - (bs[i] + 4)), Site(bs[i]));
        assert bs[..i + 1][..i] == bs[..i];
        i := i + 1;
      }
      assert bs[..i] == bs;
      if Clean() {
        ReleasedAll(bs, d, exit, out.code, old(out.pending), out.pending);
      }
    }

    // ---- one method per statement -------------------------------------------------

    method CompileStmt(s: Stmt)
      requires Valid()
      modifies this`syms, this`localOffset, this`loops, this`exits, this`fixups, this`strings, this`hadError, this`lits,
        out`pos, out`overflow, out`code, out`pending, out`sound, out.buf
      ensures Valid() && StmtDone(s)
      decreases s, 3
    {
      hide Valid, Progress, ExprCode, ExprSize, StmtCode, StmtSize, ListCode, ListSize, StmtOff, StmtDeep, ListOff,
        ListDeep, StmtLits, StmtBreaks, StmtIn, MoreBreaks;
      if hadError {
        return;
      }
      match s {
        case Do(_) => CompileDo(s);
        case Let(_, _) => CompileLet(s);
        case If(_, _, _) => CompileIf(s);
        case While(_, _) => CompileWhile(s);
        case Loop(_) => CompileLoop(s);
        case For(_, _, _, _) => CompileFor(s);
        case Match(_, _) => CompileMatch(s);
        case Block(body) => CompileNested(s);
        case Break => CompileBreak(s);
        case Continue => CompileContinue(s);
        case Return(_) => CompileReturn(s);
      }
    }

    method CompileDo(s: Stmt)
      requires s.Do? && Valid()
      modifies this`syms, this`localOffset, this`loops, this`exits, this`fixups, this`strings, this`hadError, this`lits,
        out`pos, out`overflow, out`code, out`pending, out`sound, out.buf
      ensures Valid() && StmtDone(s)
      decreases s, 1
    {
      hide Valid, Progress, ExprCode, ExprSize, Laid;
      InBuffer();
      CompileExpr(s.e);
    }

    method CompileReturn(s: Stmt)
      requires s.Return? && Valid()
      modifies this`syms, this`localOffset, this`loops, this`exits, this`fixups, this`strings, this`hadError, this`lits,
        out`pos, out`overflow, out`code, out`pending, out`sound, out.buf
      ensures Valid() && StmtDone(s)
      decreases s, 1
    {
      hide Valid, Progress, ExprCode, ExprSize, ExprLits, ExprNamed, ExprCalls, StmtCode, StmtSize, StmtOff, StmtDeep,
        StmtLits, StmtBreaks, StmtHeld, StmtNamed, StmtCalls, EpilogueCode, Stays, Faithful, Takes, Callable, Grown;
      ghost var a, u := Now(), Use();
      InBuffer();
      ReturnShape(s, syms, localOffset, labels, |loops|, SymRoom(), Used());
      if s.result.Some? {
        CompileExpr(s.result.value);
      } else {
        Nothing();
        Still(u);
      }
      assert Clean() ==> lits == old(lits) + OptLits(s.result);
      ghost var b, v := Now(), Use();
      PutEpilogue();
      Chained(u, v, Use(), StmtCalls(s), |StmtLits(s)|, StmtSize(s) - 4, 0, 0, 4);
      ReturnEmitted(out.code, a.pos, s, syms, localOffset, Brk(), Cont(), labels);
      if Clean() {
        Onwards(a, b, Now(), |loops|, {});
        Extends(b, Now(), |loops|, {});
        if s.result.Some? {
          ExprGrown(b.code, out.code, a.pos, s.result.value, syms, labels);
        }
      }
    }

    /** A block, or the body of unsafe. */
    method CompileNested(s: Stmt)
      requires s.Block? && Valid()
      modifies this`syms, this`localOffset, this`loops, this`exits, this`fixups, this`strings, this`hadError, this`lits,
        out`pos, out`overflow, out`code, out`pending, out`sound, out.buf
      ensures Valid() && StmtDone(s)
      decreases s, 1
    {
      hide Valid, Progress, ListCode, ListSize, ListOff, ListDeep, ListLits;
      CompileBlock(s.body);
    }

    /** A list of statements in a scope of its own. */
    method CompileBlock(ss: Stmts)
      requires Valid()
      modifies this`syms, this`localOffset, this`loops, this`exits, this`fixups, this`strings, this`hadError, this`lits,
        out`pos, out`overflow, out`code, out`pending, out`sound, out.buf
      ensures Valid() && ListDone(ss)
      ensures Clean() ==> syms == old(syms)
      decreases ss, 3
    {
      hide Progress, ListCode, ListSize, ListOff, ListDeep, ListLits, LoopsTracked, FixupsTracked, StringsTracked, Laid;
      var n := |syms|;
      CompileList(ss);
      if |syms| >= n {
        syms := syms[..n];
      }
    }

    method CompileList(ss: Stmts)
      requires Valid()
      modifies this`syms, this`localOffset, this`loops, this`exits, this`fixups, this`strings, this`hadError, this`lits,
        out`pos, out`overflow, out`code, out`pending, out`sound, out.buf
      ensures Valid() && ListDone(ss)
      ensures Clean() ==> |syms| >= |old(syms)| && syms[..|old(syms)|] == old(syms)
      decreases ss, 2
    {
      hide Valid, Progress, StmtCode, StmtSize, StmtOff, StmtDeep, StmtLits, StmtBreaks, StmtHeld, StmtNamed, StmtCalls,
        ListCode, ListSize, ListOff, ListDeep, ListLits, ListBreaks, ListHeld, ListNamed, ListCalls, Stays, Faithful,
        Takes, Callable, Grown, MoreBreaks, Use, Clean;
      ghost var a, u := Now(), Use();
      if ss.SNil? {
        NoStmts(ss);
        return;
      }
      ListShape(ss, syms, localOffset, labels, |loops|, SymRoom(), Used());
      CompileStmt(ss.s);
      ghost var b, v, loops1 := Now(), Use(), loops;
      if Clean() {
        MoreSame(old(loops), loops, StmtBreaks(ss.s));
      }
      CompileList(ss.rest);
      Chained(u, v, Use(), StmtCalls(ss.s), |StmtLits(ss.s)|, StmtSize(ss.s), ListCalls(ss.rest), |ListLits(ss.rest)|,
        ListSize(ss.rest));
      ListEmitted(out.code, a.pos, ss, old(syms), old(localOffset), old(Brk()), old(Cont()), labels);
      if Clean() {
        MoreSame(loops1, loops, ListBreaks(ss.rest));
        Onwards(a, b, Now(), |loops|, {});
        Extends(b, Now(), |loops|, {});
        StmtGrown(b.code, out.code, a.pos, ss.s, old(syms), old(localOffset), old(Brk()), old(Cont()), labels);
        assert lits == old(lits) + ListLits(ss);
        MoreAndMore(old(loops), loops1, loops, StmtBreaks(ss.s), ListBreaks(ss.rest));
      }
    }

    lemma NoStmts(ss: Stmts)
      requires ss.SNil? && Valid()
      ensures Clean() ==> Progress(Now(), Now(), |loops|, {}) && ListFit(ss)
      ensures ListSize(ss) == ListCalls(ss) == ListBreaks(ss) == 0 && ListLits(ss) == [] &&
        ListOff(ss, localOffset) == localOffset
      ensures lits == lits + ListLits(ss) && MoreBreaks(loops, loops, 0) && Stays(Use(), Use()) &&
        Faithful(Use(), Use()) && Takes(Use(), Use(), 0, 0, 0)
      ensures ListCode(out.code, out.pos, ss, syms, localOffset, Brk(), Cont(), labels)
    {
      Nothing();
    }

    method CompileBreak(s: Stmt)
      requires s.Break? && Valid()
      modifies this`syms, this`localOffset, this`loops, this`exits, this`fixups, this`strings, this`hadError, this`lits,
        out`pos, out`overflow, out`code, out`pending, out`sound, out.buf
      ensures Valid() && StmtDone(s)
      decreases s, 1
    {
      hide Valid, Progress, RelTo, Stays, Faithful, Takes, MoreBreaks, Callable, Here, IsJmp;
      if |loops| == 0 {
        Error();
        Refused(old(Use()), Use());
        return;
      }
      ghost var p := out.pos;
      InBuffer();
      NewestExit();
      PutBreak();
      if Clean() {
        Reaches(out.code, p, exits[|loops| - 1]);
        assert lits == old(lits) + [];
      }
    }

    /** A fault that is not reported. */
    method Lose(ghost u: Load)
      requires out.Valid() && |loops| <= MAX_LOOP_DEPTH && Stays(u, Use())
      modifies out`sound
      ensures Valid() && !Clean() && Stays(u, Use())
    {
      hide Laid, DataKept;
      out.sound := false;
    }

    lemma EmptyJump()
      ensures Encode(Jmp(0)) == [0xE9, 0, 0, 0, 0]
    {
      assert Dword(0) == [0, 0, 0, 0];
    }

    /** A jump out of the innermost loop; the 33rd and later ones are never patched. */
    method PutBreak()
      requires Valid() && |loops| > 0
      modifies this`loops, out`pos, out`overflow, out`code, out`pending, out`sound, out.buf
      ensures Valid() && Kept(old(|loops[|loops| - 1].breaks| < MAX_BREAKS), true, 0, 0, 5)
      ensures Clean() ==>
        old(Clean()) && Progress(old(Now()), Now(), |loops|, {}) && MoreBreaks(old(loops), loops, 1) &&
        |exits| == |loops| &&
        out.pos == old(out.pos) + 5 && Here(out.code, old(out.pos), Jmp(RelTo(old(out.pos) + 5, exits[|loops| - 1])))
      ensures !out.overflow ==>
        loops == Broken(old(loops), old(out.pos) + 1) &&
        out.buf[..out.pos] == old(out.buf[..out.pos]) + [0xE9, 0, 0, 0, 0]
    {
      EmptyJump();
      hide LoopsTracked, FixupsTracked, StringsTracked, SameKind, Progress, Encode, Laid, RelTo, LoopTracked, out.Valid,
        DataKept, Reachable, Stays, Faithful, Takes, Callable, MoreBreaks;
      ghost var a, u := Now(), Use();
      var d := |loops| - 1;
      var bs := loops[d].breaks;
      ghost var exit: Position := if |exits| > d then exits[d] else 0;
      var p := Defer(Jmp(RelTo(out.pos + 5, exit)), Jmp(0), LoopExit(d, |bs|));
      if |bs| < MAX_BREAKS {
        loops := loops[d := loops[d].(breaks := bs + [p])];
        OneMoreBreak(old(loops), p);
        if Clean() {
          TopTracked(old(loops), exits, a.code, a.pending);
          BreakMade(old(loops), exits, a, Now());
          FixupsGrown(fixups, labels, a.code, a.pending, out.code, out.pending);
          StringsGrown(strings, lits, a.code, a.pending, out.code, out.pending);
        }
      } else {
        Lose(u);
      }
    }

    method CompileContinue(s: Stmt)
      requires s.Continue? && Valid()
      modifies this`syms, this`localOffset, this`loops, this`exits, this`fixups, this`strings, this`hadError, this`lits,
        out`pos, out`overflow, out`code, out`pending, out`sound, out.buf
      ensures Valid() && StmtDone(s)
      decreases s, 1
    {
      hide LoopsTracked, FixupsTracked, StringsTracked, Progress, Encode, Laid, RelTo, IsJmp;
      if |loops| == 0 {
        Error();
        return;
      }
      PutBack(loops[|loops| - 1].cont);
      assert lits == old(lits) + [];
    }

    method CompileLet(s: Stmt)
      requires s.Let? && Valid()
      modifies this`syms, this`localOffset, this`loops, this`exits, this`fixups, this`strings, this`hadError, this`lits,
        out`pos, out`overflow, out`code, out`pending, out`sound, out.buf
      ensures Valid() && StmtDone(s)
      decreases s, 1
    {
      hide Valid, Progress, ExprCode, ExprSize, ExprLits, ExprNamed, ExprCalls, StmtCode, StmtSize, StmtOff, StmtDeep,
        StmtLits, StmtBreaks, StmtHeld, StmtNamed, StmtCalls, IsStore, Stays, Faithful, Takes, Callable, Grown;
      ghost var a, u, off := Now(), Use(), localOffset;
      LetShape(s, syms, off, labels, |loops|, SymRoom(), Used());
      NewVariable(s.x);
      NoBreaks(loops);
      if s.init.None? {
        Nothing();
        LetEmitted(out.code, a.pos, s, old(syms), off, old(Brk()), old(Cont()), labels);
        assert lits == old(lits) + StmtLits(s);
        return;
      }
      ghost var v := Use();
      Initialise(s.init.value);
      Chained(u, v, Use(), 0, 0, 0, ExprCalls(s.init.value), |ExprLits(s.init.value)|, StmtSize(s));
      LetEmitted(out.code, a.pos, s, old(syms), off, old(Brk()), old(Cont()), labels);
    }

    /** Evaluate e into the newest slot. */
    method Initialise(e: Expr)
      requires Valid()
      modifies this`fixups, this`strings, this`hadError, this`lits, out`pos, out`overflow, out`code, out`pending,
        out`sound, out.buf
      ensures Valid() && Kept(true, ExprNamed(e, syms, labels), ExprCalls(e), |ExprLits(e)|, ExprSize(e) + 6)
      ensures Clean() ==>
        old(Clean()) && Progress(old(Now()), Now(), |loops|, {}) && lits == old(lits) + ExprLits(e) &&
        ExprCode(out.code, old(out.pos), e, syms, labels) && out.pos == old(out.pos) + ExprSize(e) + 6 &&
        IsStore(out.code, out.pos - 6, Slot(localOffset), EAX)
      decreases e, 2
    {
      hide Valid, Progress, ExprCode, ExprSize, ExprLits, ExprNamed, ExprCalls, IsStore, Stays, Faithful, Takes,
        Callable, Grown;
      ghost var a, u := Now(), Use();
      CompileExpr(e);
      ghost var b, v := Now(), Use();
      InBuffer();
      PutSlot(localOffset);
      Chained(u, v, Use(), ExprCalls(e), |ExprLits(e)|, ExprSize(e), 0, 0, 6);
      if Clean() {
        Onwards(a, b, Now(), |loops|, {});
        Extends(b, Now(), |loops|, {});
        ExprGrown(b.code, out.code, a.pos, e, syms, labels);
      }
    }

    /** Take four more bytes of the frame. */
    method NewSlot()
      requires Valid()
      modifies this`localOffset, out`sound
      ensures Valid() && Kept(-FAR <= localOffset, true, 0, 0, 0) && localOffset == old(localOffset) - 4
      ensures Clean() ==> old(Clean()) && -FAR <= localOffset <= 0
    {
      localOffset := localOffset - 4;
      if localOffset < -FAR {
        out.sound := false;
      }
    }

    /** A new variable in the next slot. */
    method NewVariable(x: string)
      requires Valid()
      modifies this`localOffset, this`syms, out`sound
      ensures Valid() && Kept(old(SymRoom() >= 1 && -FAR <= localOffset - 4), true, 0, 0, 0) &&
        localOffset == old(localOffset) - 4
      ensures Clean() ==> old(Clean()) && syms == old(syms) + [Entry(x, Slot(localOffset))] && -FAR <= localOffset <= 0
    {
      hide Valid, Stays, Faithful, Takes, Callable;
      ghost var u := Use();
      NewSlot();
      ghost var v := Use();
      AddSym(x, Slot(localOffset));
      Chained(u, v, Use(), 0, 0, 0, 0, 0, 0);
    }

    /** Add a symbol; a full table drops it with no effect on the compilation. */
    method AddSym(x: string, l: Loc)
      requires Valid() && (Clean() ==> InRange(l))
      modifies this`syms, out`sound
      ensures Valid() && Kept(old(SymRoom() >= 1), true, 0, 0, 0)
      ensures Clean() ==> old(Clean()) && syms == old(syms) + [Entry(x, l)] && |syms| <= MAX_SYMBOLS
      ensures syms == old(syms) + if old(SymRoom()) >= 1 then [Entry(x, l)] else []
    {
      if |syms| + |known| + BUILTINS < MAX_SYMBOLS {
        syms := syms + [Entry(x, l)];
      } else {
        out.sound := false;
      }
    }

    /** Store EAX at [ebp+off]. */
    method PutSlot(off: int)
      requires Valid() && (Clean() ==> -FAR <= off <= FAR)
      modifies out`pos, out`overflow, out`code, out.buf
      ensures Valid() && Fed(6)
      ensures Clean() ==>
        old(Clean()) && Progress(old(Now()), Now(), |loops|, {}) && IsStore(out.code, old(out.pos), Slot(off), EAX) &&
        out.pos == old(out.pos) + 6
    {
      hide Valid, Progress;
      ghost var p := out.pos;
      Put(StoreOf(Slot(off)));
      if Clean() {
        Accesses(out.code, p, Slot(off));
      }
    }

    method CompileIf(s: Stmt)
      requires s.If? && Valid()
      modifies this`syms, this`localOffset, this`loops, this`exits, this`fixups, this`strings, this`hadError, this`lits,
        out`pos, out`overflow, out`code, out`pending, out`sound, out.buf
      ensures Valid() && StmtDone(s)
      decreases s, 2
    {
      hide StmtDone, Valid;
      if s.els.None? {
        CompileShortIf(s);
      } else {
        CompileIfElse(s);
      }
    }

    method CompileShortIf(s: Stmt)
      requires s.If? && s.els.None? && Valid()
      modifies this`syms, this`localOffset, this`loops, this`exits, this`fixups, this`strings, this`hadError, this`lits,
        out`pos, out`overflow, out`code, out`pending, out`sound, out.buf
      ensures Valid() && StmtDone(s)
      decreases s, 1
    {
      hide Valid, Progress, ExprCode, ExprSize, ExprLits, ExprNamed, ExprCalls, StmtCode, StmtSize, StmtOff, StmtDeep,
        StmtLits, StmtBreaks, StmtHeld, StmtNamed, StmtCalls, ListCode, ListSize, ListOff, ListDeep, ListLits,
        ListBreaks, ListHeld, ListNamed, ListCalls, Here, MoreBreaks, TestCode, IsJmp, Stays, Faithful, Takes, Callable,
        Grown, IfElseCode;
      ghost var a, u := Now(), Use();
      IfShape(s, syms, localOffset, labels, |loops|, SymRoom(), Used());
      CompileExpr(s.c);
      ghost var b, v := Now(), Use();
      IfThen(s.thn);
      Chained(u, v, Use(), ExprCalls(s.c), |ExprLits(s.c)|, ExprSize(s.c), ListCalls(s.thn), |ListLits(s.thn)|,
        11 + ListSize(s.thn));
      IfEmitted(out.code, a.pos, s, old(syms), old(localOffset), old(Brk()), old(Cont()), labels);
      if Clean() {
        MoreSame(old(loops), loops, StmtBreaks(s));
        Onwards(a, b, Now(), |loops|, {});
        Extends(b, Now(), |loops|, {});
        ExprGrown(b.code, out.code, a.pos, s.c, old(syms), labels);
        assert lits == old(lits) + StmtLits(s);
      }
    }

    method CompileIfElse(s: Stmt)
      requires s.If? && s.els.Some? && Valid()
      modifies this`syms, this`localOffset, this`loops, this`exits, this`fixups, this`strings, this`hadError, this`lits,
        out`pos, out`overflow, out`code, out`pending, out`sound, out.buf
      ensures Valid() && StmtDone(s)
      decreases s, 1
    {
      hide Valid, Progress, ExprCode, ExprSize, ExprLits, ExprNamed, ExprCalls, StmtCode, StmtSize, StmtOff, StmtDeep,
        StmtLits, StmtBreaks, StmtHeld, StmtNamed, StmtCalls, ListCode, ListSize, ListOff, ListDeep, ListLits,
        ListBreaks, ListHeld, ListNamed, ListCalls, Here, MoreBreaks, TestCode, IsJmp, Stays, Faithful, Takes, Callable,
        Grown, IfElseCode;
      ghost var a, u := Now(), Use();
      var els := s.els.value;
      IfElseShape(s, syms, localOffset, labels, |loops|, SymRoom(), Used());
      CompileExpr(s.c);
      ghost var b, v := Now(), Use();
      IfThenElse(s.thn, els, s);
      Chained(u, v, Use(), ExprCalls(s.c), |ExprLits(s.c)|, ExprSize(s.c), ListCalls(s.thn) + ListCalls(els),
        |ListLits(s.thn)| + |ListLits(els)|, 11 + ListSize(s.thn) + (5 + ListSize(els)));
      IfElseEmitted(out.code, a.pos, s, old(syms), old(localOffset), old(Brk()), old(Cont()), labels);
      if Clean() {
        MoreSame(old(loops), loops, StmtBreaks(s));
        Onwards(a, b, Now(), |loops|, {});
        Extends(b, Now(), |loops|, {});
        ExprGrown(b.code, out.code, a.pos, s.c, old(syms), labels);
        assert lits == old(lits) + StmtLits(s);
      }
    }

    /** A test of EAX, which goes to target if it is zero, and a block; the test is still open. */
    method TestedBlock(thn: Stmts, ghost target: int) returns (j: nat)
      requires Valid()
      modifies this`syms, this`localOffset, this`loops, this`exits, this`fixups, this`strings, this`hadError, this`lits,
        out`pos, out`overflow, out`code, out`pending, out`sound, out.buf
      ensures Valid() && Kept(old(ListFit(thn)), old(ListGood(thn)), ListCalls(thn), |ListLits(thn)|,
        11 + ListSize(thn))
      ensures var p := old(out.pos);
        Clean() ==>
          old(Clean()) && Progress(old(Now()), Now(), |loops|, {p + 5}) && lits == old(lits) + ListLits(thn) &&
          j == p + 7 &&
          Here(out.code, p, CmpEaxImm(0)) && Here(out.code, p + 5, Jcc(E, RelTo(p + 11, target))) &&
          ListCode(out.code, p + 11, thn, old(syms), old(localOffset), old(Brk()), old(Cont()), labels) &&
          out.pos == p + 11 + ListSize(thn) && syms == old(syms) && localOffset == ListOff(thn, old(localOffset)) &&
          MoreBreaks(old(loops), loops, ListBreaks(thn)) && exits == old(exits)
      decreases thn, 4
    {
      hide Valid, Progress, ListCode, ListSize, ListOff, ListDeep, ListLits, ListBreaks, ListHeld, ListNamed, ListCalls,
        Grown, Here, RelTo, MoreBreaks, Stays, Faithful, Takes, Callable, ListFit, ListGood;
      ghost var b, u0 := Now(), Use();
      j := PutTest(E, target);
      ghost var c, u1 := Now(), Use();
      CompileBlock(thn);
      Chained(u0, u1, Use(), 0, 0, 11, ListCalls(thn), |ListLits(thn)|, ListSize(thn));
      if Clean() {
        MoreSame(old(loops), loops, ListBreaks(thn));
        Onwards(b, c, Now(), |loops|, {b.pos + 5});
        Extends(c, Now(), |loops|, {});
        HereGrown(c.code, out.code, b.pos, CmpEaxImm(0));
        HereGrown(c.code, out.code, b.pos + 5, Jcc(E, RelTo(b.pos + 11, target)));
      }
    }

    /** The test of an if with no else, and the branch it skips. */
    method IfThen(thn: Stmts)
      requires Valid()
      modifies this`syms, this`localOffset, this`loops, this`exits, this`fixups, this`strings, this`hadError, this`lits,
        out`pos, out`overflow, out`code, out`pending, out`sound, out.buf
      ensures Valid() && Kept(old(ListFit(thn)), old(ListGood(thn)), ListCalls(thn), |ListLits(thn)|,
        11 + ListSize(thn))
      ensures Clean() ==>
        old(Clean()) && Progress(old(Now()), Now(), |loops|, {}) && lits == old(lits) + ListLits(thn) &&
        TestCode(out.code, old(out.pos), E, out.pos) &&
        ListCode(out.code, old(out.pos) + 11, thn, old(syms), old(localOffset), old(Brk()), old(Cont()), labels) &&
        out.pos == old(out.pos) + (11 + ListSize(thn)) &&
        syms == old(syms) && localOffset == ListOff(thn, old(localOffset)) &&
        MoreBreaks(old(loops), loops, ListBreaks(thn)) && exits == old(exits)
      decreases thn, 5
    {
      hide Valid, Progress, ListCode, ListSize, ListOff, ListDeep, ListLits, ListBreaks, ListHeld, ListNamed, ListCalls,
        Grown, Here, RelTo, MoreBreaks, IsJcc, Stays, Faithful, Takes, Callable, ListFit, ListGood;
      ghost var b, u, q := Now(), Use(), out.pos + 5;
      var j := TestedBlock(thn, out.pos + 11 + ListSize(thn));
      ghost var v := Use();
      LandOnly(j, b, q, E);
      Chained(u, v, Use(), ListCalls(thn), |ListLits(thn)|, 11 + ListSize(thn), 0, 0, 0);
    }

    /** The test, the branch, the jump over the other branch, and that branch. */
    method IfThenElse(thn: Stmts, els: Stmts, ghost s: Stmt)
      requires Valid() && s.If? && s.thn == thn && s.els == Some(els)
      modifies this`syms, this`localOffset, this`loops, this`exits, this`fixups, this`strings, this`hadError, this`lits,
        out`pos, out`overflow, out`code, out`pending, out`sound, out.buf
      ensures Valid() && Kept(old(BothFit(thn, els)), old(BothGood(thn, els)), ListCalls(thn) + ListCalls(els),
        |ListLits(thn)| + |ListLits(els)|, 11 + ListSize(thn) + (5 + ListSize(els)))
      ensures Clean() ==>
        old(Clean()) && Progress(old(Now()), Now(), |loops|, {}) && lits == old(lits) + ListLits(thn) + ListLits(els) &&
        IfElseCode(out.code, old(out.pos), thn, els, old(syms), old(localOffset), old(Brk()), old(Cont()), labels) &&
        out.pos == old(out.pos) + (11 + ListSize(thn) + 5 + ListSize(els)) &&
        syms == old(syms) && localOffset == ListOff(els, ListOff(thn, old(localOffset))) &&
        MoreBreaks(old(loops), loops, (ListBreaks(thn) + ListBreaks(els))) && exits == old(exits)
      decreases s, 0
    {
      hide Valid, Progress, ListCode, ListSize, ListOff, ListDeep, ListLits, ListBreaks, ListHeld, ListNamed, ListCalls,
        Grown, Here, RelTo, MoreBreaks, Stays, Faithful, Takes, Callable, IsJmp, Use;
      ghost var b, u, q := Now(), Use(), out.pos + 5;
      ghost var p2 := b.pos + 11 + ListSize(thn);
      var j := TestedBlock(thn, p2 + 5);
      ghost var d, v, loops1 := Now(), Use(), loops;
      if Clean() {
        MoreSame(old(loops), loops, ListBreaks(thn));
      }
      ElseTail(els, j, b, q);
      Chained(u, v, Use(), ListCalls(thn), |ListLits(thn)|, 11 + ListSize(thn), ListCalls(els), |ListLits(els)|,
        5 + ListSize(els));
      InBuffer();
      if Clean() {
        MoreSame(loops1, loops, ListBreaks(els));
        MoreAndMore(old(loops), loops1, loops, ListBreaks(thn), ListBreaks(els));
        HereGrown(d.code, out.code, b.pos, CmpEaxImm(0));
        HereGrown(d.code, out.code, q, Jcc(E, RelTo(q + 6, p2 + 5)));
        Reaches(out.code, q, p2 + 5);
        ListGrown(d.code, out.code, b.pos + 11, thn, old(syms), old(localOffset), old(Brk()), old(Cont()), labels);
        assert lits == old(lits) + (ListLits(thn) + ListLits(els));
      }
    }

    /** The jump over the else branch, and the branch. */
    method ElseTail(els: Stmts, j: nat, ghost b: Snap, ghost q: int)
      requires Valid()
      requires Clean() ==>
        Progress(b, Now(), |loops|, {q}) && Here(out.code, q, Jcc(E, RelTo(q + 6, out.pos + 5))) && j == q + 2
      modifies this`syms, this`localOffset, this`loops, this`exits, this`fixups, this`strings, this`hadError, this`lits,
        out`pos, out`overflow, out`code, out`pending, out`sound, out.buf
      ensures Valid() && Kept(old(ListFit(els)), old(ListGood(els)), ListCalls(els), |ListLits(els)|, 5 + ListSize(els))
      ensures Clean() ==>
        old(Clean()) && Progress(b, Now(), |loops|, {}) && Grown(old(out.code), out.code) &&
        lits == old(lits) + ListLits(els) &&
        IsJmp(out.code, old(out.pos), out.pos) &&
        ListCode(out.code, old(out.pos) + 5, els, old(syms), old(localOffset), old(Brk()), old(Cont()), labels) &&
        out.pos == old(out.pos) + (5 + ListSize(els)) &&
        syms == old(syms) && localOffset == ListOff(els, old(localOffset)) &&
        MoreBreaks(old(loops), loops, ListBreaks(els)) && exits == old(exits)
      decreases els, 4
    {
      hide Valid, Progress, ListCode, ListSize, ListOff, ListDeep, ListLits, ListBreaks, ListHeld, ListNamed, ListCalls,
        Grown, Here, RelTo, MoreBreaks, Stays, Faithful, Takes, Callable, ListFit, ListGood, IsJmp, Use, Clean;
      ghost var p, u0 := out.pos, Use();
      ghost var end := p + 5 + ListSize(els);
      var k := SkipJump(j, b, q, E, end);
      ghost var f, u1 := Now(), Use();
      CompileBlock(els);
      ghost var g, u2 := Now(), Use();
      if Clean() {
        MoreSame(old(loops), loops, ListBreaks(els));
        Onwards(b, f, g, |loops|, {p});
        Extends(f, g, |loops|, {});
        GrownTwice(old(out.code), f.code, g.code);
        HoleOpen(b, g, |loops|, {p}, p);
      }
      Land(k, p, Jmp(RelTo(p + 5, end)), end);
      ChainedAndDone(u0, u1, u2, Use(), 0, 0, 5, ListCalls(els), |ListLits(els)|, ListSize(els));
      InBuffer();
      if Clean() {
        Closed(b, g, Now(), |loops|, {p}, p);
        assert {p} - {p} == {};
        Reaches(out.code, p, end);
      }
    }

    /** Jump over what follows, and let the test at q come here. */
    method SkipJump(j: nat, ghost b: Snap, ghost q: int, ghost cc: CC, ghost end: int) returns (k: nat)
      requires Valid()
      requires Clean() ==>
        Progress(b, Now(), |loops|, {q}) && Here(out.code, q, Jcc(cc, RelTo(q + 6, out.pos + 5))) && j == q + 2
      modifies out`pos, out`overflow, out`code, out`pending, out`sound, out.buf
      ensures Valid() && Fed(5)
      ensures Clean() ==>
        old(Clean()) && Progress(b, Now(), |loops|, {old(out.pos)}) && Grown(old(out.code), out.code) &&
        out.pos == old(out.pos) + 5 &&
        Here(out.code, old(out.pos), Jmp(RelTo(old(out.pos) + 5, end))) && k == old(out.pos) + 1
    {
      hide Valid, Progress, Here, RelTo, Stays, Faithful, Takes, Callable, Use;
      ghost var f, u0 := Now(), Use();
      k := PutJump(end);
      ghost var g, u1 := Now(), Use();
      if Clean() {
        OpenedMore(b, f, g, |loops|, {q});
        Extends(f, g, |loops|, {f.pos});
        HoleOpen(b, g, |loops|, {q} + {f.pos}, q);
      }
      Land(j, q, Jcc(cc, RelTo(q + 6, g.pos)), g.pos);
      Chained(u0, u1, Use(), 0, 0, 5, 0, 0, 0);
      if Clean() {
        Closed(b, g, Now(), |loops|, {q} + {f.pos}, q);
        HolesLess(b, f, |loops|, q);
      }
    }

    /** Jump back to code that is already there. */
    method PutBack(target: Position)
      requires Valid()
      modifies out`pos, out`overflow, out`code, out.buf
      ensures Valid() && Fed(5)
      ensures Clean() ==>
        old(Clean()) && Progress(old(Now()), Now(), |loops|, {}) && IsJmp(out.code, old(out.pos), target) &&
        out.pos == old(out.pos) + 5
    {
      hide Valid, Progress, RelTo;
      ghost var p := out.pos;
      InBuffer();
      Put(Jmp(RelTo(out.pos + 5, target)));
      if Clean() {
        Reaches(out.code, p, target);
      }
    }

    /** Open a loop, compile its body and jump back to cont; the loop stays open. */
    method LoopBody(body: Stmts, cont: Position, ghost exit: Position)
      requires Valid()
      modifies this`syms, this`localOffset, this`loops, this`exits, this`fixups, this`strings, this`hadError, this`lits,
        out`pos, out`overflow, out`code, out`pending, out`sound, out.buf
      ensures Valid() && Kept(old(LoopFit(body)), old(LoopGood(body)), ListCalls(body), |ListLits(body)|,
        ListSize(body) + 5)
      ensures Clean() ==>
        old(Clean()) && Progress(old(Now()), Now(), |old(loops)| + 1, {}) && lits == old(lits) + ListLits(body) &&
        ListCode(out.code, old(out.pos), body, old(syms), old(localOffset), Some(exit), Some(cont), labels) &&
        IsJmp(out.code, old(out.pos) + ListSize(body), cont) && out.pos == old(out.pos) + ListSize(body) + 5 &&
        syms == old(syms) && localOffset == ListOff(body, old(localOffset)) &&
        |loops| == |old(loops)| + 1 && loops[..|old(loops)|] == old(loops) && exits == old(exits) + [exit]
      decreases body, 5
    {
      hide Valid, Progress, ListCode, ListSize, ListOff, ListDeep, ListLits, ListHeld, ListNamed, ListCalls, Grown,
        IsJmp, Stays, Faithful, Takes, Callable, LoopFit, LoopGood, Use, Clean;
      ghost var a, u := Now(), Use();
      OpenedBody(body, cont, exit);
      ghost var b, v := Now(), Use();
      PutBack(cont);
      Chained(u, v, Use(), ListCalls(body), |ListLits(body)|, ListSize(body), 0, 0, 5);
      if Clean() {
        Onwards(a, b, Now(), |loops|, {});
        Extends(b, Now(), |loops|, {});
        ListGrown(b.code, out.code, a.pos, body, old(syms), old(localOffset), Some(exit), Some(cont), labels);
      }
    }

    /** Open a loop and compile its body. */
    method OpenedBody(body: Stmts, cont: Position, ghost exit: Position)
      requires Valid()
      modifies this`syms, this`localOffset, this`loops, this`exits, this`fixups, this`strings, this`hadError, this`lits,
        out`pos, out`overflow, out`code, out`pending, out`sound, out.buf
      ensures Valid() && Kept(old(LoopFit(body)), old(LoopGood(body)), ListCalls(body), |ListLits(body)|,
        ListSize(body))
      ensures Clean() ==>
        old(Clean()) && Progress(old(Now()), Now(), |old(loops)| + 1, {}) && lits == old(lits) + ListLits(body) &&
        ListCode(out.code, old(out.pos), body, old(syms), old(localOffset), Some(exit), Some(cont), labels) &&
        out.pos == old(out.pos) + ListSize(body) && syms == old(syms) &&
        localOffset == ListOff(body, old(localOffset)) &&
        |loops| == |old(loops)| + 1 && loops[..|old(loops)|] == old(loops) && exits == old(exits) + [exit]
      decreases body, 4
    {
      hide Valid, Progress, ListCode, ListSize, ListOff, ListDeep, ListLits, ListBreaks, ListHeld, ListNamed, ListCalls,
        LoopHeld, MoreBreaks, Stays, Faithful, Takes, Callable, Use;
      ghost var u := Use();
      LoopHolds(body, |loops|, SymRoom(), localOffset);
      LoopPush(cont, exit);
      ghost var v := Use();
      CompileBlock(body);
      Chained(u, v, Use(), 0, 0, 0, ListCalls(body), |ListLits(body)|, ListSize(body));
      if Clean() {
        MoreOnTop(old(loops), cont, loops, ListBreaks(body));
      }
    }

    /** The rest of a while: the test, the body, the jump back to start, and every exit. */
    method WhileTail(body: Stmts, start: Position)
      requires Valid()
      modifies this`syms, this`localOffset, this`loops, this`exits, this`fixups, this`strings, this`hadError, this`lits,
        out`pos, out`overflow, out`code, out`pending, out`sound, out.buf
      ensures Valid() && Kept(old(LoopFit(body)), old(LoopGood(body)), ListCalls(body), |ListLits(body)|,
        11 + (ListSize(body) + 5))
      ensures var exit := old(out.pos) + 11 + ListSize(body) + 5;
        Clean() ==>
          old(Clean()) && Progress(old(Now()), Now(), |loops|, {}) && lits == old(lits) + ListLits(body) &&
          out.pos == exit &&
          TestCode(out.code, old(out.pos), E, exit) &&
          ListCode(out.code, old(out.pos) + 11, body, old(syms), old(localOffset), Some(exit), Some(start), labels) &&
          IsJmp(out.code, exit - 5, start) &&
          syms == old(syms) && localOffset == ListOff(body, old(localOffset)) && loops == old(loops) &&
          exits == old(exits)
      decreases body, 6
    {
      hide Valid, Progress, ListCode, ListSize, ListOff, ListDeep, ListLits, ListBreaks, ListHeld, ListNamed, ListCalls,
        Grown, RelTo, Dropped, Here, IsJmp, IsJcc, Stays, Faithful, Takes, Callable, LoopFit, LoopGood;
      ghost var b, u0, q := Now(), Use(), out.pos + 5;
      ghost var exit := Cap(b.pos + 11 + ListSize(body) + 5);
      var j := PutTest(E, exit);
      ghost var c, u1, depth := Now(), Use(), |loops|;
      if Clean() {
        NoDeeper();
      }
      InBuffer();
      LoopBody(body, start, exit);
      ghost var u2 := Use();
      InBuffer();
      if Clean() {
        Extends(c, Now(), depth + 1, {});
      }
      CloseLoop(j, b, c, q, E, depth);
      ChainedAndDone(u0, u1, u2, Use(), 0, 0, 11, ListCalls(body), |ListLits(body)|, ListSize(body) + 5);
      if Clean() {
        assert loops == old(loops);
      }
    }

    /** Let the loop's test at q exit here, and every break with it. */
    method CloseLoop(j: nat, ghost b: Snap, ghost c: Snap, ghost q: int, ghost cc: CC, ghost depth: nat)
      requires Valid()
      requires Clean() ==>
        |loops| == depth + 1 && |exits| == depth + 1 && exits[depth] == out.pos && q < c.pos &&
        Progress(b, c, depth, {q}) && Progress(c, Now(), depth + 1, {}) &&
        (forall r {:trigger c.pending[r]} :: r in c.pending && c.pending[r].LoopExit? ==> c.pending[r].depth < depth) &&
        Here(out.code, q, Jcc(cc, RelTo(q + 6, out.pos))) && j == q + 2 && 0 <= q <= CODE_MAX
      modifies this`loops, this`exits, out`pending, out`sound, out.buf
      ensures Valid() && Fed(0)
      ensures Clean() ==>
        old(Clean()) && Progress(b, Now(), depth, {}) && IsJcc(out.code, q, cc, out.pos) &&
        loops == old(loops)[..depth] && exits == old(exits)[..depth]
    {
      hide Valid, Progress, RelTo, Dropped, Here, Stays, Faithful, Takes, Callable, Use;
      ghost var g, u := Now(), Use();
      if Clean() {
        HoleOpen(b, c, depth, {q}, q);
        HoleKept(c, g, depth + 1, q);
      }
      Land(j, q, Jcc(cc, RelTo(q + 6, out.pos)), out.pos);
      ghost var v := Use();
      LoopPop();
      Chained(u, v, Use(), 0, 0, 0, 0, 0, 0);
      InBuffer();
      if Clean() {
        LoopDone(b, c, g, Now(), depth, q);
        Reaches(out.code, q, out.pos);
      }
    }

    /** Pending breaks belong to open loops. */
    lemma NoDeeper()
      requires Valid() && Clean()
      ensures |exits| == |loops|
      ensures forall r {:trigger out.pending[r]} :: r in out.pending && out.pending[r].LoopExit? ==>
        out.pending[r].depth < |loops|
    {
    }

    lemma HoleKept(c: Snap, g: Snap, depth: nat, q: int)
      requires Progress(c, g, depth, {}) && q < c.pos && q in c.pending && c.pending[q] == Local
      ensures q in g.pending && g.pending[q] == Local
    {
      assert g.pending[q] == c.pending[q];
    }

    method CompileLoop(s: Stmt)
      requires s.Loop? && Valid()
      modifies this`syms, this`localOffset, this`loops, this`exits, this`fixups, this`strings, this`hadError, this`lits,
        out`pos, out`overflow, out`code, out`pending, out`sound, out.buf
      ensures Valid() && StmtDone(s)
      decreases s, 1
    {
      hide Valid, Progress, StmtCode, StmtSize, StmtOff, StmtDeep, StmtLits, StmtBreaks, StmtHeld, StmtNamed, StmtCalls,
        ListCode, ListSize, ListOff, ListDeep, ListLits, ListBreaks, ListHeld, ListNamed, ListCalls, LoopHeld, Dropped,
        IsJmp, Stays, Faithful, Takes, Callable;
      ghost var a, u := Now(), Use();
      LoopShape(s, syms, localOffset, labels, |loops|, SymRoom(), Used());
      InBuffer();
      if Clean() {
        NoDeeper();
      }
      LoopBody(s.body, out.pos, Cap(out.pos + ListSize(s.body) + 5));
      InBuffer();
      ghost var b, v := Now(), Use();
      NewestExit();
      LoopPop();
      Chained(u, v, Use(), ListCalls(s.body), |ListLits(s.body)|, ListSize(s.body) + 5, 0, 0, 0);
      LoopEmitted(out.code, a.pos, s, old(syms), old(localOffset), old(Brk()), old(Cont()), labels);
      if Clean() {
        assert loops == old(loops);
        NoBreaks(loops);
        LoopPassed(a, b, Now(), |loops|, {});
      }
    }

    /** Every open loop has an exit. */
    lemma NewestExit()
      requires Valid()
      ensures Clean() ==> |exits| == |loops|
    {
    }

    method CompileWhile(s: Stmt)
      requires s.While? && Valid()
      modifies this`syms, this`localOffset, this`loops, this`exits, this`fixups, this`strings, this`hadError, this`lits,
        out`pos, out`overflow, out`code, out`pending, out`sound, out.buf
      ensures Valid() && StmtDone(s)
      decreases s, 1
    {
      hide Valid, Progress, ExprCode, ExprSize, ExprLits, ExprNamed, ExprCalls, StmtCode, StmtSize, StmtOff, StmtDeep,
        StmtLits, StmtBreaks, StmtHeld, StmtNamed, StmtCalls, ListCode, ListSize, ListOff, ListDeep, ListLits,
        ListBreaks, ListHeld, ListNamed, ListCalls, LoopHeld, Dropped, IsJmp, TestCode, Stays, Faithful, Takes,
        Callable, Grown, Use, Clean;
      ghost var a, u := Now(), Use();
      WhileShape(s, syms, localOffset, labels, |loops|, SymRoom(), Used());
      InBuffer();
      var start := out.pos;
      CompileExpr(s.c);
      ghost var b, v := Now(), Use();
      WhileTail(s.body, start);
      Chained(u, v, Use(), ExprCalls(s.c), |ExprLits(s.c)|, ExprSize(s.c), ListCalls(s.body), |ListLits(s.body)|,
        11 + (ListSize(s.body) + 5));
      WhileEmitted(out.code, a.pos, s, old(syms), old(localOffset), old(Brk()), old(Cont()), labels);
      if Clean() {
        NoBreaks(loops);
        Onwards(a, b, Now(), |loops|, {});
        Extends(b, Now(), |loops|, {});
        ExprGrown(b.code, out.code, a.pos, s.c, syms, labels);
        assert lits == old(lits) + StmtLits(s);
      }
    }

    method CompileFor(s: Stmt)
      requires s.For? && Valid()
      modifies this`syms, this`localOffset, this`loops, this`exits, this`fixups, this`strings, this`hadError, this`lits,
        out`pos, out`overflow, out`code, out`pending, out`sound, out.buf
      ensures Valid() && StmtDone(s)
      decreases s, 1
    {
      hide Valid, Progress, ExprCode, ExprSize, ExprLits, ExprNamed, ExprCalls, StmtCode, StmtSize, StmtOff, StmtDeep,
        StmtLits, StmtBreaks, StmtHeld, StmtNamed, StmtCalls, ListCode, ListSize, ListOff, ListDeep, ListLits,
        ListBreaks, ListHeld, ListNamed, ListCalls, LoopHeld, IsJmp, IsStore, ForCode, Here, MoreBreaks, Stays,
        Faithful, Takes, Callable, Grown, Use, Clean;
      ghost var a, u0 := Now(), Use();
      ForShape(s, syms, localOffset, labels, |loops|, SymRoom(), Used());
      var n := |syms|;
      ForBinding(s.x, s.lo);
      var off := localOffset;
      ghost var b, u1, syms1 := Now(), Use(), syms;
      ForRest(s.hi, s.body, off, n);
      Chained(u0, u1, Use(), ExprCalls(s.lo), |ExprLits(s.lo)|, ExprSize(s.lo) + 6, ExprCalls(s.hi) + ListCalls(s.body),
        |ExprLits(s.hi)| + |ListLits(s.body)|, ExprSize(s.hi) + 6 + (53 + (ListSize(s.body) + 5)));
      ForEmitted(out.code, a.pos, s, old(syms), old(localOffset), old(Brk()), old(Cont()), labels);
      if Clean() {
        Onwards(a, b, Now(), |loops|, {});
        Extends(b, Now(), |loops|, {});
        StoreGrown(b.code, out.code, b.pos - 6, Slot(off), EAX);
        ExprGrown(b.code, out.code, a.pos, s.lo, old(syms), labels);
        assert syms1[..n] == old(syms);
        NoBreaks(loops);
        assert lits == old(lits) + StmtLits(s);
      }
    }

    ghost predicate RestFit(body: Stmts)
      reads this`syms, this`known, this`loops, this`localOffset
    {
      LoopHeld(body, |loops|, SymRoom(), localOffset - 4) && -FAR <= localOffset - 4
    }

    ghost predicate RestGood(hi: Expr, body: Stmts)
      reads this`syms, this`loops, this`localOffset
    {
      ExprNamed(hi, syms, labels) && ListNamed(body, syms, localOffset - 4, |loops| + 1, labels)
    }

    /** The limit of a for and all that follows; the iterator is at off, and n symbols are outside the loop. */
    method ForRest(hi: Expr, body: Stmts, off: int, n: nat)
      requires Valid() && localOffset == off && (Clean() ==> n <= |syms|)
      modifies this`syms, this`localOffset, this`loops, this`exits, this`fixups, this`strings, this`hadError, this`lits,
        out`pos, out`overflow, out`code, out`pending, out`sound, out.buf
      ensures Valid() && Kept(old(RestFit(body)), old(RestGood(hi, body)), ExprCalls(hi) + ListCalls(body),
        |ExprLits(hi)| + |ListLits(body)|, ExprSize(hi) + 6 + (53 + (ListSize(body) + 5)))
      ensures var p1 := old(out.pos);
        var p2 := p1 + ExprSize(hi) + 6;
        var exit := p2 + 53 + ListSize(body) + 5;
        Clean() ==>
          old(Clean()) && Progress(old(Now()), Now(), |loops|, {}) &&
          lits == old(lits) + ExprLits(hi) + ListLits(body) && out.pos == exit &&
          ExprCode(out.code, p1, hi, old(syms), labels) && IsStore(out.code, p2 - 6, Slot(off - 4), EAX) &&
          ForCode(out.code, p2, off, off - 4, exit) &&
          ListCode(out.code, p2 + 53, body, old(syms), off - 4, Some(exit), Some(p2 + 29), labels) &&
          IsJmp(out.code, exit - 5, p2 + 29) &&
          syms == old(syms)[..n] && localOffset == ListOff(body, off - 4) && loops == old(loops) && exits == old(exits)
      decreases body, 7
    {
      hide Valid, Progress, ExprCode, ExprSize, ExprLits, ExprNamed, ExprCalls, ListCode, ListSize, ListOff, ListDeep,
        ListLits, ListBreaks, ListHeld, ListNamed, ListCalls, LoopHeld, IsJmp, IsStore, ForCode, Here, Stays, Faithful,
        Takes, Callable, Grown, Use, Clean;
      ghost var b, u0 := Now(), Use();
      CompileToSlot(hi);
      ghost var c, u1 := Now(), Use();
      ForTail(body, off);
      Chained(u0, u1, Use(), ExprCalls(hi), |ExprLits(hi)|, ExprSize(hi) + 6, ListCalls(body), |ListLits(body)|,
        53 + (ListSize(body) + 5));
      DropSyms(n);
      if Clean() {
        Onwards(b, c, Now(), |loops|, {});
        Extends(c, Now(), |loops|, {});
        StoreGrown(c.code, out.code, c.pos - 6, Slot(off - 4), EAX);
        ExprGrown(c.code, out.code, b.pos, hi, old(syms), labels);
      }
    }

    /** Close a scope that was opened with n symbols. */
    method DropSyms(n: nat)
      requires Valid()
      modifies this`syms
      ensures Valid() && Clean() == old(Clean()) && Use() == old(Use())
      ensures syms == if n <= |old(syms)| then old(syms)[..n] else old(syms)
    {
      hide FixupsTracked, StringsTracked, LoopsTracked, Laid;
      if |syms| >= n {
        syms := syms[..n];
      }
    }

    /** for x in lo: x gets a slot that holds lo. */
    method ForBinding(x: string, lo: Expr)
      requires Valid()
      modifies this`syms, this`localOffset, this`loops, this`exits, this`fixups, this`strings, this`hadError, this`lits,
        out`pos, out`overflow, out`code, out`pending, out`sound, out.buf
      ensures Valid() && Kept(old(SymRoom() >= 1 && -FAR <= localOffset - 4), old(ExprNamed(lo, syms, labels)),
        ExprCalls(lo), |ExprLits(lo)|, ExprSize(lo) + 6) && localOffset == old(localOffset) - 4
      ensures loops == old(loops) && exits == old(exits)
      ensures Clean() ==>
        old(Clean()) && Progress(old(Now()), Now(), |loops|, {}) && lits == old(lits) + ExprLits(lo) &&
        ExprCode(out.code, old(out.pos), lo, old(syms), labels) && out.pos == old(out.pos) + ExprSize(lo) + 6 &&
        IsStore(out.code, out.pos - 6, Slot(localOffset), EAX) && syms == old(syms) + [Entry(x, Slot(localOffset))]
    {
      hide Valid, Progress, ExprCode, ExprSize, ExprLits, ExprNamed, ExprCalls, IsStore, Stays, Faithful, Takes,
        Callable, Grown, Use, Clean;
      ghost var a, u0 := Now(), Use();
      CompileExpr(lo);
      ghost var b, u1 := Now(), Use();
      NewVariable(x);
      ghost var u2 := Use();
      PutSlot(localOffset);
      Chained(u0, u1, u2, ExprCalls(lo), |ExprLits(lo)|, ExprSize(lo), 0, 0, 0);
      Chained(u0, u2, Use(), ExprCalls(lo), |ExprLits(lo)|, ExprSize(lo), 0, 0, 6);
      if Clean() {
        Onwards(a, b, Now(), |loops|, {});
        Extends(b, Now(), |loops|, {});
        ExprGrown(b.code, out.code, a.pos, lo, old(syms), labels);
      }
    }

    /** Evaluate e into a new slot with no name: the limit of a for, the value of a match. */
    method CompileToSlot(e: Expr)
      requires Valid()
      modifies this`syms, this`localOffset, this`loops, this`exits, this`fixups, this`strings, this`hadError, this`lits,
        out`pos, out`overflow, out`code, out`pending, out`sound, out.buf
      ensures Valid() && Kept(old(-FAR <= localOffset - 4), old(ExprNamed(e, syms, labels)), ExprCalls(e),
        |ExprLits(e)|, ExprSize(e) + 6) && localOffset == old(localOffset) - 4
      ensures loops == old(loops) && exits == old(exits) && syms == old(syms)
      ensures Clean() ==>
        old(Clean()) && Progress(old(Now()), Now(), |loops|, {}) && lits == old(lits) + ExprLits(e) &&
        ExprCode(out.code, old(out.pos), e, syms, labels) && out.pos == old(out.pos) + ExprSize(e) + 6 &&
        IsStore(out.code, out.pos - 6, Slot(localOffset), EAX) && -FAR <= localOffset <= 0
    {
      hide Valid, Progress, ExprCode, ExprSize, ExprLits, ExprNamed, ExprCalls, IsStore, Stays, Faithful, Takes,
        Callable, Grown;
      ghost var a, u0 := Now(), Use();
      CompileExpr(e);
      ghost var b, u1 := Now(), Use();
      NewSlot();
      ghost var u2 := Use();
      PutSlot(localOffset);
      Chained(u0, u1, u2, ExprCalls(e), |ExprLits(e)|, ExprSize(e), 0, 0, 0);
      Chained(u0, u2, Use(), ExprCalls(e), |ExprLits(e)|, ExprSize(e), 0, 0, 6);
      if Clean() {
        Onwards(a, b, Now(), |loops|, {});
        Extends(b, Now(), |loops|, {});
        ExprGrown(b.code, out.code, a.pos, e, syms, labels);
      }
    }

    /** The rest of a for: test, update, body and exits.  The iterator is at it, the limit below it. */
    method ForTail(body: Stmts, it: int)
      requires Valid() && (Clean() ==> localOffset == it - 4 && -FAR <= localOffset <= 0)
      modifies this`syms, this`localOffset, this`loops, this`exits, this`fixups, this`strings, this`hadError, this`lits,
        out`pos, out`overflow, out`code, out`pending, out`sound, out.buf
      ensures Valid() && Kept(old(LoopFit(body)), old(LoopGood(body)), ListCalls(body), |ListLits(body)|,
        53 + (ListSize(body) + 5))
      ensures var p := old(out.pos);
        var exit := p + 53 + ListSize(body) + 5;
        Clean() ==>
          old(Clean()) && Progress(old(Now()), Now(), |loops|, {}) && lits == old(lits) + ListLits(body) &&
          out.pos == exit &&
          ForCode(out.code, p, it, it - 4, exit) &&
          ListCode(out.code, p + 53, body, old(syms), old(localOffset), Some(exit), Some(p + 29), labels) &&
          IsJmp(out.code, exit - 5, p + 29) &&
          syms == old(syms) && localOffset == ListOff(body, old(localOffset)) && loops == old(loops) &&
          exits == old(exits)
      decreases body, 6
    {
      hide Valid, Progress, ListCode, ListSize, ListOff, ListDeep, ListLits, ListBreaks, ListHeld, ListNamed, ListCalls,
        Grown, RelTo, Dropped, Here, IsJmp, ForHeadCode, IsJcc, ForCode, Stays, Faithful, Takes, Callable, LoopFit,
        LoopGood;
      ghost var b, u0, q := Now(), Use(), out.pos + 18;
      ghost var exit := Cap(b.pos + 53 + ListSize(body) + 5);
      var j, update := ForHead(it, it - 4, exit);
      ghost var c, u1, depth := Now(), Use(), |loops|;
      if Clean() {
        NoDeeper();
      }
      InBuffer();
      LoopBody(body, update, exit);
      ghost var u2 := Use();
      InBuffer();
      if Clean() {
        Extends(c, Now(), depth + 1, {});
      }
      CloseLoop(j, b, c, q, GE, depth);
      ChainedAndDone(u0, u1, u2, Use(), 0, 0, 53, ListCalls(body), |ListLits(body)|, ListSize(body) + 5);
      if Clean() {
        assert loops == old(loops);
        HeadGrown(c.code, out.code, b.pos, it, it - 4);
        HeadDone(out.code, b.pos, it, it - 4, exit);
      }
    }

    /** Test and update of a for; the exit jump stays open. */
    method ForHead(it: int, hi: int, ghost exit: int) returns (j: nat, update: Position)
      requires Valid() && (Clean() ==> -FAR <= it <= FAR && -FAR <= hi <= FAR)
      modifies out`pos, out`overflow, out`code, out`pending, out`sound, out.buf
      ensures Valid() && Fed(53)
      ensures var p := old(out.pos);
        Clean() ==>
          old(Clean()) && Progress(old(Now()), Now(), |loops|, {p + 18}) && out.pos == p + 53 && j == p + 20 &&
          update == p + 29 &&
          Here(out.code, p + 18, Jcc(GE, RelTo(p + 24, exit))) && ForHeadCode(out.code, p, it, hi)
    {
      hide Valid, Progress, Here, RelTo, CompareCode, UpdateCode, IsJmp, Stays, Faithful, Takes, Callable, Use;
      ghost var a, u0 := Now(), Use();
      InBuffer();
      var start := out.pos;
      PutCompare(it, hi);
      ghost var b, u1 := Now(), Use();
      j := PutHole(Jcc(GE, RelTo(out.pos + 6, exit)), Jcc(GE, 0));
      ghost var c, u2 := Now(), Use();
      if Clean() {
        OpenedMore(a, b, c, |loops|, {});
        assert {} + {b.pos} == {b.pos};
        Extends(b, c, |loops|, {b.pos});
        CompareGrown(b.code, c.code, a.pos, it, hi);
      }
      update := ForUpdate(it, start, a, b.pos);
      Chained(u0, u1, u2, 0, 0, 18, 0, 0, 6);
      Chained(u0, u2, Use(), 0, 0, 24, 0, 0, 29);
      if Clean() {
        CompareGrown(c.code, out.code, a.pos, it, hi);
        AtomsGrown(c.code, out.code);
      }
    }

    /** cmp of the iterator with the limit */
    method PutCompare(it: int, hi: int)
      requires Valid() && (Clean() ==> -FAR <= it <= FAR && -FAR <= hi <= FAR)
      modifies out`pos, out`overflow, out`code, out.buf
      ensures Valid() && Fed(18)
      ensures Clean() ==>
        old(Clean()) && Progress(old(Now()), Now(), |loops|, {}) &&
        CompareCode(out.code, old(out.pos), it, hi) && out.pos == old(out.pos) + 18
    {
      hide Valid, Progress, Here, IsLoad, LoadOf, Stays, Faithful, Takes, Callable, Use, Clean;
      ghost var a, u0 := Now(), Use();
      PutLoadSlot(it);
      ghost var b, u1 := Now(), Use();
      Put(Push(EAX));
      ghost var c, u2 := Now(), Use();
      PutLoadSlot(hi);
      ghost var d, u3 := Now(), Use();
      Put3(Rr(AluMov, ECX, EAX), Pop(EAX), Rr(AluCmp, EAX, ECX));
      Chained(u0, u1, u2, 0, 0, 6, 0, 0, 1);
      Chained(u0, u2, u3, 0, 0, 7, 0, 0, 6);
      Chained(u0, u3, Use(), 0, 0, 13, 0, 0, 5);
      if Clean() {
        Onwards(c, d, Now(), |loops|, {});
        Onwards(b, c, Now(), |loops|, {});
        Onwards(a, b, Now(), |loops|, {});
        Extends(b, Now(), |loops|, {});
        AtomsGrown(b.code, out.code);
        Extends(c, Now(), |loops|, {});
        AtomsGrown(c.code, out.code);
        Extends(d, Now(), |loops|, {});
        AtomsGrown(d.code, out.code);
      }
    }

    /** The jump to the body, and the update it skips; the exit jump at q stays open. */
    method ForUpdate(it: int, start: Position, ghost a: Snap, ghost q: int) returns (update: Position)
      requires Valid() && (Clean() ==> -FAR <= it <= FAR && Progress(a, Now(), |loops|, {q}))
      modifies out`pos, out`overflow, out`code, out`pending, out`sound, out.buf
      ensures Valid() && Fed(29)
      ensures var p := old(out.pos);
        Clean() ==>
          old(Clean()) && Progress(a, Now(), |loops|, {q}) && Grown(old(out.code), out.code) && out.pos == p + 29 &&
          update == p + 5 &&
          IsJmp(out.code, p, p + 29) && UpdateCode(out.code, p + 5, it, start)
    {
      hide Valid, Progress, Here, RelTo, UpdateCode, IsJmp, Stays, Faithful, Takes, Callable, Use, MoreBreaks;
      ghost var b, u0 := Now(), Use();
      var skip := PutJump(b.pos + 29);
      InBuffer();
      update := out.pos;
      ghost var c, u1 := Now(), Use();
      PutUpdate(it, start);
      ghost var d, u2 := Now(), Use();
      if Clean() {
        Onwards(b, c, d, |loops|, {b.pos});
        OpenedMore(a, b, d, |loops|, {q});
        HoleOpen(a, d, |loops|, {q} + {b.pos}, b.pos);
        Extends(c, d, |loops|, {});
        Extends(b, d, |loops|, {b.pos});
      }
      Land(skip, b.pos, Jmp(RelTo(b.pos + 5, d.pos)), d.pos);
      ChainedAndDone(u0, u1, u2, Use(), 0, 0, 5, 0, 0, 24);
      InBuffer();
      if Clean() {
        Closed(a, d, Now(), |loops|, {q} + {b.pos}, b.pos);
        HolesBut(a, b, |loops|, q);
        Reaches(out.code, b.pos, b.pos + 29);
      }
    }

    lemma HolesBut(a: Snap, b: Snap, depth: nat, q: int)
      requires Progress(a, b, depth, {q})
      ensures {q} + {b.pos} - {b.pos} == {q}
    {
      assert q in {q};
    }

    /** Add 1 to the iterator and go back to the test. */
    method PutUpdate(it: int, start: Position)
      requires Valid() && (Clean() ==> -FAR <= it <= FAR)
      modifies out`pos, out`overflow, out`code, out.buf
      ensures Valid() && Fed(24)
      ensures Clean() ==>
        old(Clean()) && Progress(old(Now()), Now(), |loops|, {}) &&
        UpdateCode(out.code, old(out.pos), it, start) && out.pos == old(out.pos) + 24
    {
      hide Valid, Progress, Here, IsLoad, IsStore, IsJmp, Stays, Faithful, Takes, Callable, Use;
      ghost var a, u0 := Now(), Use();
      PutLoadSlot(it);
      ghost var b, u1 := Now(), Use();
      Put2(MovImm(ECX, 1), Rr(AluAdd, EAX, ECX));
      ghost var c, u2 := Now(), Use();
      PutSlot(it);
      ghost var d, u3 := Now(), Use();
      PutBack(start);
      Chained(u0, u1, u2, 0, 0, 6, 0, 0, 7);
      Chained(u0, u2, u3, 0, 0, 13, 0, 0, 6);
      Chained(u0, u3, Use(), 0, 0, 19, 0, 0, 5);
      if Clean() {
        Onwards(c, d, Now(), |loops|, {});
        Onwards(b, c, Now(), |loops|, {});
        Onwards(a, b, Now(), |loops|, {});
        Extends(b, Now(), |loops|, {});
        AtomsGrown(b.code, out.code);
        Extends(c, Now(), |loops|, {});
        AtomsGrown(c.code, out.code);
        Extends(d, Now(), |loops|, {});
        AtomsGrown(d.code, out.code);
      }
    }

    /** Load [ebp+off] into EAX. */
    method PutLoadSlot(off: int)
      requires Valid() && (Clean() ==> -FAR <= off <= FAR)
      modifies out`pos, out`overflow, out`code, out.buf
      ensures Valid() && Fed(6)
      ensures Clean() ==>
        old(Clean()) && Progress(old(Now()), Now(), |loops|, {}) && IsLoad(out.code, old(out.pos), EAX, Slot(off)) &&
        out.pos == old(out.pos) + 6
    {
      hide Valid, Progress;
      ghost var p := out.pos;
      Put(LoadOf(Slot(off)));
      if Clean() {
        Accesses(out.code, p, Slot(off));
      }
    }

    method CompileMatch(s: Stmt)
      requires s.Match? && Valid()
      modifies this`syms, this`localOffset, this`loops, this`exits, this`fixups, this`strings, this`hadError, this`lits,
        out`pos, out`overflow, out`code, out`pending, out`sound, out.buf
      ensures Valid() && StmtDone(s)
      decreases s, 1
    {
      hide Valid, Progress, ExprCode, ExprSize, ExprLits, ExprNamed, ExprCalls, StmtCode, StmtSize, StmtOff, StmtDeep,
        StmtLits, StmtBreaks, StmtHeld, StmtNamed, StmtCalls, ArmsCode, ArmsSize, ArmsOff, ArmsDeep, ArmsLits,
        ArmsBreaks, ArmsHeld, ArmsNamed, ArmsCalls, IsStore, MoreBreaks, Here, Stays, Faithful, Takes, Callable, Grown,
        Use;
      InBuffer();
      var saved := localOffset;
      ghost var a, u := Now(), Use();
      MatchShape(s, syms, localOffset, labels, |loops|, SymRoom(), Used());
      CompileToSlot(s.e);
      ghost var b, v := Now(), Use();
      MatchArms(s.arms);
      Chained(u, v, Use(), ExprCalls(s.e), |ExprLits(s.e)|, ExprSize(s.e) + 6, ArmsCalls(s.arms), |ArmsLits(s.arms)|,
        ArmsSize(s.arms, 0));
      GiveBack(saved);
      MatchEmitted(out.code, a.pos, s, old(syms), old(localOffset), old(Brk()), old(Cont()), labels);
      if Clean() {
        MoreSame(old(loops), loops, ArmsBreaks(s.arms));
        Onwards(a, b, Now(), |loops|, {});
        Extends(b, Now(), |loops|, {});
        ExprGrown(b.code, out.code, a.pos, s.e, syms, labels);
        StoreGrown(b.code, out.code, b.pos - 6, Slot(saved - 4), EAX);
        assert lits == old(lits) + StmtLits(s);
      }
    }

    /** Give the frame space below off back. */
    method GiveBack(off: int)
      requires Valid() && (Clean() ==> -FAR <= off <= 0)
      modifies this`localOffset
      ensures Valid() && Clean() == old(Clean()) && Use() == old(Use()) && localOffset == off
    {
      localOffset := off;
    }

    /** All arms of a match on the value in the newest slot, and the landing of their jumps to the end. */
    method MatchArms(arms: Arms)
      requires Valid()
      modifies this`syms, this`localOffset, this`loops, this`exits, this`fixups, this`strings, this`hadError, this`lits,
        out`pos, out`overflow, out`code, out`pending, out`sound, out.buf
      ensures Valid() && Kept(old(ArmsFit(arms)), old(ArmsGood(arms)), ArmsCalls(arms), |ArmsLits(arms)|,
        ArmsSize(arms, 0))
      ensures Clean() ==>
        old(Clean()) && Progress(old(Now()), Now(), |loops|, {}) && lits == old(lits) + ArmsLits(arms) &&
        ArmsCode(out.code, old(out.pos), arms, 0, old(localOffset), out.pos, old(syms), old(localOffset), old(Brk()),
          old(Cont()), labels) && out.pos == old(out.pos) + ArmsSize(arms, 0) &&
        syms == old(syms) && localOffset == ArmsOff(arms, old(localOffset)) &&
        MoreBreaks(old(loops), loops, ArmsBreaks(arms)) && exits == old(exits)
      decreases arms, 4
    {
      hide Valid, Progress, ArmsCode, ArmsSize, ArmsOff, ArmsDeep, ArmsLits, ArmsBreaks, ArmsHeld, ArmsNamed, ArmsCalls,
        MoreBreaks, EndJumps, Grown, Stays, Faithful, Takes, Callable, ArmsFit, ArmsGood;
      ghost var b, u := Now(), Use();
      ghost var end := out.pos + ArmsSize(arms, 0);
      InBuffer();
      if Clean() {
        NothingYet(end);
      }
      var ps := CompileArms(arms, 0, localOffset, [], b, end);
      ghost var v := Use();
      LandAll(ps, b, end);
      Chained(u, v, Use(), ArmsCalls(arms), |ArmsLits(arms)|, ArmsSize(arms, 0), 0, 0, 0);
    }

    lemma NothingYet(end: int)
      requires Valid() && Clean()
      ensures Progress(Now(), Now(), |loops|, HolesOf([])) && EndJumps(out.code, [], end)
    {
      Nothing();
      assert HolesOf([]) == {};
    }

    /** Compile arms from the k-th on; ps are the jumps to the end so far, ps' those with the new ones. */
    method CompileArms(arms: Arms, k: nat, tmp: int, ps: seq<nat>, ghost b: Snap,
                       ghost end: int) returns (ps': seq<nat>)
      requires Valid()
      requires Clean() ==>
        Progress(b, Now(), |loops|, HolesOf(ps)) && EndJumps(out.code, ps, end) && end == out.pos + ArmsSize(arms, k) &&
        -FAR <= tmp <= 0
      modifies this`syms, this`localOffset, this`loops, this`exits, this`fixups, this`strings, this`hadError, this`lits,
        out`pos, out`overflow, out`code, out`pending, out`sound, out.buf
      ensures Valid() && Kept(old(ArmsFit(arms)), old(ArmsGood(arms)), ArmsCalls(arms), |ArmsLits(arms)|,
        ArmsSize(arms, k))
      ensures Clean() ==>
        old(Clean()) && Progress(b, Now(), |loops|, HolesOf(ps')) && EndJumps(out.code, ps', end) &&
        Grown(old(out.code), out.code) && lits == old(lits) + ArmsLits(arms) &&
        ArmsCode(out.code, old(out.pos), arms, k, tmp, end, old(syms), old(localOffset), old(Brk()), old(Cont()),
          labels) && out.pos == old(out.pos) + ArmsSize(arms, k) &&
        syms == old(syms) && localOffset == ArmsOff(arms, old(localOffset)) &&
        MoreBreaks(old(loops), loops, ArmsBreaks(arms)) && exits == old(exits)
      decreases arms, 3
    {
      hide Valid, Progress, ArmsCode, ArmsSize, ArmsOff, ArmsDeep, ArmsLits, ArmsBreaks, ArmsHeld, ArmsNamed, ArmsCalls,
        ListCode, ListSize, ListOff, ListDeep, ListLits, ListBreaks, ListHeld, ListNamed, ListCalls, ArmSize, ArmCode,
        MoreBreaks, EndJumps, Grown, RelTo, HolesOf, IsJmp, Here, OptCalls, OptLits, ExprNamed, Stays, Faithful, Takes,
        Callable, Use, Clean, Size, Encode;
      if arms.ANil? {
        NoArms(arms, k, tmp, end);
        return ps;
      }
      ps' := MoreArms(arms, k, tmp, ps, b, end);
    }

    /** The k-th arm and the ones after it. */
    method MoreArms(arms: Arms, k: nat, tmp: int, ps: seq<nat>, ghost b: Snap,
                       ghost end: int) returns (ps': seq<nat>)
      requires Valid() && arms.ACons?
      requires Clean() ==>
        Progress(b, Now(), |loops|, HolesOf(ps)) && EndJumps(out.code, ps, end) && end == out.pos + ArmsSize(arms, k) &&
        -FAR <= tmp <= 0
      modifies this`syms, this`localOffset, this`loops, this`exits, this`fixups, this`strings, this`hadError, this`lits,
        out`pos, out`overflow, out`code, out`pending, out`sound, out.buf
      ensures Valid() && Kept(old(ArmsFit(arms)), old(ArmsGood(arms)), ArmsCalls(arms), |ArmsLits(arms)|,
        ArmsSize(arms, k))
      ensures Clean() ==>
        old(Clean()) && Progress(b, Now(), |loops|, HolesOf(ps')) && EndJumps(out.code, ps', end) &&
        Grown(old(out.code), out.code) && lits == old(lits) + ArmsLits(arms) &&
        ArmsCode(out.code, old(out.pos), arms, k, tmp, end, old(syms), old(localOffset), old(Brk()), old(Cont()),
          labels) && out.pos == old(out.pos) + ArmsSize(arms, k) &&
        syms == old(syms) && localOffset == ArmsOff(arms, old(localOffset)) &&
        MoreBreaks(old(loops), loops, ArmsBreaks(arms)) && exits == old(exits)
      decreases arms, 2
    {
      hide Valid, Progress, ArmsCode, ArmsSize, ArmsOff, ArmsDeep, ArmsLits, ArmsBreaks, ArmsHeld, ArmsNamed, ArmsCalls,
        ListCode, ListSize, ListOff, ListDeep, ListLits, ListBreaks, ListHeld, ListNamed, ListCalls, ArmSize, ArmCode,
        MoreBreaks, EndJumps, Grown, RelTo, HolesOf, IsJmp, Here, OptCalls, OptLits, ExprNamed, Stays, Faithful, Takes,
        Callable, Use, Clean, Size, Encode, SymRoom, Fed, ExprDone;
      ghost var a, u := Now(), Use();
      ArmsShape(arms, k, syms, localOffset, labels, |loops|, SymRoom(), Used());
      var one := CompileArm(arms.pat, arms.body, k, tmp, end);
      ghost var c, v, loops1 := Now(), Use(), loops;
      if Clean() {
        MoreSame(old(loops), loops, ListBreaks(arms.body));
        AddExit(b, a, c, |loops|, ps, one, end, k);
      }
      ps' := CompileArms(arms.rest, k + 1, tmp, ps + one, b, end);
      Chained(u, v, Use(), OptCalls(arms.pat) + ListCalls(arms.body), |OptLits(arms.pat)| + |ListLits(arms.body)|,
        ArmSize(arms.pat, arms.body, k), ArmsCalls(arms.rest), |ArmsLits(arms.rest)|, ArmsSize(arms.rest, k + 1));
      InBuffer();
      if Clean() {
        MoreSame(loops1, loops, ArmsBreaks(arms.rest));
        MoreAndMore(old(loops), loops1, loops, ListBreaks(arms.body), ArmsBreaks(arms.rest));
        GrownTwice(a.code, c.code, out.code);
        ArmsDone(c.code, out.code, a.pos, arms, k, tmp, end, old(syms), old(localOffset), old(Brk()), old(Cont()),
          labels);
        assert lits == old(lits) + ArmsLits(arms);
      }
    }

    lemma NoArms(arms: Arms, k: nat, tmp: int, end: int)
      requires arms.ANil? && Valid()
      ensures Clean() ==> ArmsFit(arms)
      ensures ArmsCode(out.code, out.pos, arms, k, tmp, end, syms, localOffset, Brk(), Cont(), labels)
      ensures MoreBreaks(loops, loops, 0) && Grown(out.code, out.code) && lits == lits + ArmsLits(arms)
      ensures ArmsSize(arms, k) == ArmsCalls(arms) == ArmsBreaks(arms) == 0 && ArmsLits(arms) == [] &&
        ArmsOff(arms, localOffset) == localOffset
      ensures Stays(Use(), Use()) && Faithful(Use(), Use()) && Takes(Use(), Use(), 0, 0, 0)
    {
    }

    /** The jumps to the end, with the one of the arm compiled from a to c. */
    lemma AddExit(b: Snap, a: Snap, c: Snap, depth: nat, ps: seq<nat>, one: seq<nat>, end: int, k: nat)
      requires Progress(b, a, depth, HolesOf(ps)) && Progress(a, c, depth, HolesOf(one)) && EndJumps(a.code, ps, end)
      requires if k < 32 then c.pos >= 5 && one == [c.pos - 4] &&
        Here(c.code, c.pos - 5, Jmp(RelTo(c.pos, end))) else one == []
      ensures Progress(b, c, depth, HolesOf(ps + one)) && EndJumps(c.code, ps + one, end) && Grown(a.code, c.code)
    {
      hide RelTo, EndJumps;
      Joined(b, a, c, depth, HolesOf(ps), HolesOf(one));
      if k < 32 {
        assert Site(one[0]) in HolesOf(one);
        JumpAdded(a.code, c.code, ps, end, c.pos - 5);
        assert HolesOf(one) == {c.pos - 5};
      } else {
        assert ps + one == ps;
        assert HolesOf(one) == {};
        JumpsGrown(a.code, c.code, ps, end);
      }
    }

    /** One arm: pattern test, body, and (for the first 32) the jump to the end. */
    method CompileArm(pat: Option<Expr>, body: Stmts, k: nat, tmp: int, ghost end: int) returns (one: seq<nat>)
      requires Valid() && (Clean() ==> -FAR <= tmp <= 0)
      modifies this`syms, this`localOffset, this`loops, this`exits, this`fixups, this`strings, this`hadError, this`lits,
        out`pos, out`overflow, out`code, out`pending, out`sound, out.buf
      ensures Valid() && Kept(old(ListFit(body)), old(ArmGood(pat, body)), OptCalls(pat) + ListCalls(body),
        |OptLits(pat)| + |ListLits(body)|, ArmSize(pat, body, k))
      ensures Clean() ==>
        old(Clean()) && Progress(old(Now()), Now(), |loops|, HolesOf(one)) &&
        lits == old(lits) + (OptLits(pat) + ListLits(body)) &&
        ArmCode(out.code, old(out.pos), pat, body, k, tmp, old(syms), old(localOffset), old(Brk()), old(Cont()),
          labels) && out.pos == old(out.pos) + ArmSize(pat, body, k) &&
        syms == old(syms) && localOffset == ListOff(body, old(localOffset)) &&
        MoreBreaks(old(loops), loops, ListBreaks(body)) && exits == old(exits)
      ensures Clean() && k < 32 ==>
        out.pos >= 5 && one == [out.pos - 4] && Here(out.code, out.pos - 5, Jmp(RelTo(out.pos, end)))
      ensures k >= 32 ==> one == []
      decreases body, 6
    {
      hide Valid, Progress, ListCode, ListSize, ListOff, ListDeep, ListLits, ListBreaks, ListHeld, ListNamed, ListCalls,
        MoreBreaks, HolesOf, Here, ExprSize, ExprLits, ExprCalls, ExprNamed, PatternCode, Stays, Faithful, Takes,
        Callable, ListFit, ListGood;
      if pat.Some? {
        one := PatternArm(pat.value, body, k, tmp, end);
      } else {
        one := ArmTail(body, k, end);
        if Clean() {
          assert lits == old(lits) + ([] + ListLits(body));
        }
      }
    }

    method PatternArm(pat: Expr, body: Stmts, k: nat, tmp: int, ghost end: int) returns (one: seq<nat>)
      requires Valid() && (Clean() ==> -FAR <= tmp <= 0)
      modifies this`syms, this`localOffset, this`loops, this`exits, this`fixups, this`strings, this`hadError, this`lits,
        out`pos, out`overflow, out`code, out`pending, out`sound, out.buf
      ensures Valid() && Kept(old(ListFit(body)), old(ExprNamed(pat, syms, labels) && ListGood(body)),
        ExprCalls(pat) + ListCalls(body), |ExprLits(pat)| + |ListLits(body)|,
        ExprSize(pat) + 14 + (ListSize(body) + ExitSize(k)))
      ensures Clean() ==>
        old(Clean()) && Progress(old(Now()), Now(), |loops|, HolesOf(one)) &&
        lits == old(lits) + (ExprLits(pat) + ListLits(body)) &&
        PatternCode(out.code, old(out.pos), pat, tmp, out.pos, old(syms), labels) &&
        ListCode(out.code, old(out.pos) + ExprSize(pat) + 14, body, old(syms), old(localOffset), old(Brk()),
          old(Cont()), labels) && out.pos == old(out.pos) + (ExprSize(pat) + 14 + ListSize(body) + ExitSize(k)) &&
        syms == old(syms) && localOffset == ListOff(body, old(localOffset)) &&
        MoreBreaks(old(loops), loops, ListBreaks(body)) && exits == old(exits)
      ensures Clean() && k < 32 ==>
        out.pos >= 5 && one == [out.pos - 4] && Here(out.code, out.pos - 5, Jmp(RelTo(out.pos, end)))
      ensures k >= 32 ==> one == []
      decreases body, 5
    {
      hide Valid, Progress, ListCode, ListSize, ListOff, ListDeep, ListLits, ListBreaks, ListHeld, ListNamed, ListCalls,
        ExprCode, ExprSize, ExprLits, ExprNamed, ExprCalls, MoreBreaks, Grown, RelTo, HolesOf, Here, PatternCode,
        IsLoad, Stays, Faithful, Takes, Callable, ExitSize, IsJcc, Use, Clean, ListFit, ListGood;
      ghost var next := out.pos + ExprSize(pat) + 14 + ListSize(body) + ExitSize(k);
      ghost var a, u0 := Now(), Use();
      var j := PutPattern(pat, tmp, next);
      ghost var b, u1, q := Now(), Use(), out.pos - 6;
      one := ArmTail(body, k, end);
      ghost var c, u2 := Now(), Use();
      if Clean() {
        MoreSame(old(loops), loops, ListBreaks(body));
        Extends(b, c, |loops|, HolesOf(one));
      }
      LandTest(j, a, b, q, NE, HolesOf(one));
      ChainedAndDone(u0, u1, u2, Use(), ExprCalls(pat), |ExprLits(pat)|, ExprSize(pat) + 14, ListCalls(body),
        |ListLits(body)|, ListSize(body) + ExitSize(k));
      InBuffer();
      if Clean() {
        PatternGrown(b.code, out.code, a.pos, pat, tmp, next, old(syms), labels);
        assert lits == old(lits) + (ExprLits(pat) + ListLits(body));
      }
    }

    /** Let the conditional jump at q, the only hole from a to b, come here; later holes stay. */
    method LandTest(j: nat, ghost a: Snap, ghost b: Snap, ghost q: int, ghost cc: CC, ghost holes: set<int>)
      requires Valid()
      requires Clean() ==>
        Progress(a, b, |loops|, {q}) && Progress(b, Now(), |loops|, holes) && 0 <= q < b.pos && j == q + 2 &&
        Here(out.code, q, Jcc(cc, RelTo(q + 6, out.pos)))
      modifies out`pending, out`sound, out.buf
      ensures Valid() && Fed(0)
      ensures Clean() ==> old(Clean()) && Progress(a, Now(), |loops|, holes) && IsJcc(out.code, q, cc, out.pos)
    {
      hide Valid, Progress, RelTo, Here, IsJcc, Stays, Faithful, Takes, Callable, Use;
      ghost var c := Now();
      if Clean() {
        Joined(a, b, c, |loops|, {q}, holes);
        HoleOpen(a, c, |loops|, {q} + holes, q);
      }
      Land(j, q, Jcc(cc, RelTo(q + 6, out.pos)), out.pos);
      if Clean() {
        Closed(a, c, Now(), |loops|, {q} + holes, q);
        OthersAbove(b, c, |loops|, holes, q);
        TestLands(a, b, c, q, cc, holes);
      }
    }

    /** The same if nothing else is open. */
    method LandOnly(j: nat, ghost a: Snap, ghost q: int, ghost cc: CC)
      requires Valid()
      requires Clean() ==>
        Progress(a, Now(), |loops|, {q}) && 0 <= q && j == q + 2 && Here(out.code, q, Jcc(cc, RelTo(q + 6, out.pos)))
      modifies out`pending, out`sound, out.buf
      ensures Valid() && Fed(0)
      ensures Clean() ==> old(Clean()) && Progress(a, Now(), |loops|, {}) && IsJcc(out.code, q, cc, out.pos)
    {
      hide Valid, Progress, RelTo, Here, IsJcc, Stays, Faithful, Takes, Callable, Use;
      Nothing();
      if Clean() {
        HoleBelow(a, q);
      }
      LandTest(j, a, Now(), q, cc, {});
    }

    lemma HoleBelow(a: Snap, q: int)
      requires Valid() && Clean() && Progress(a, Now(), |loops|, {q})
      ensures q < out.pos
    {
      assert q in {q};
      LaidPending(out.buf[..out.pos], out.code, out.pending);
    }

    lemma TestLands(a: Snap, b: Snap, c: Snap, q: int, cc: CC, holes: set<int>)
      requires Valid() && Progress(a, b, |loops|, {q}) && Progress(b, c, |loops|, holes) && c.pos == out.pos && 0 <= q
      requires Here(out.code, q, Jcc(cc, RelTo(q + 6, out.pos)))
      ensures IsJcc(out.code, q, cc, out.pos)
    {
      hide RelTo;
      assert q in {q};
      Reaches(out.code, q, out.pos);
    }

    lemma OthersAbove(b: Snap, c: Snap, depth: nat, holes: set<int>, q: int)
      requires Progress(b, c, depth, holes) && q < b.pos
      ensures {q} + holes - {q} == holes
    {
    }

    /** The body of an arm, and the jump to the end. */
    method ArmTail(body: Stmts, k: nat, ghost end: int) returns (one: seq<nat>)
      requires Valid()
      modifies this`syms, this`localOffset, this`loops, this`exits, this`fixups, this`strings, this`hadError, this`lits,
        out`pos, out`overflow, out`code, out`pending, out`sound, out.buf
      ensures Valid() && Kept(old(ListFit(body)), old(ListGood(body)), ListCalls(body), |ListLits(body)|,
        ListSize(body) + ExitSize(k))
      ensures Clean() ==>
        old(Clean()) && Progress(old(Now()), Now(), |loops|, HolesOf(one)) && lits == old(lits) + ListLits(body) &&
        ListCode(out.code, old(out.pos), body, old(syms), old(localOffset), old(Brk()), old(Cont()), labels) &&
        out.pos == old(out.pos) + (ListSize(body) + ExitSize(k)) &&
        syms == old(syms) && localOffset == ListOff(body, old(localOffset)) &&
        MoreBreaks(old(loops), loops, ListBreaks(body)) && exits == old(exits)
      ensures Clean() && k < 32 ==>
        out.pos >= 5 && one == [out.pos - 4] && Here(out.code, out.pos - 5, Jmp(RelTo(out.pos, end)))
      ensures k >= 32 ==> one == []
      decreases body, 4
    {
      hide Valid, Progress, ListCode, ListSize, ListOff, ListDeep, ListLits, ListBreaks, ListHeld, ListNamed, ListCalls,
        MoreBreaks, Grown, RelTo, Here, ListFit, ListGood, Stays, Faithful, Takes, Callable;
      ghost var a, u := Now(), Use();
      CompileBlock(body);
      if k >= 32 {
        one := [];
        assert HolesOf(one) == {};
        return;
      }
      ghost var b, v := Now(), Use();
      var p := PutJump(end);
      Chained(u, v, Use(), ListCalls(body), |ListLits(body)|, ListSize(body), 0, 0, 5);
      one := [p];
      if Clean() {
        MoreSame(old(loops), loops, ListBreaks(body));
        OpenedMore(a, b, Now(), |loops|, {});
        assert Site(one[0]) == b.pos;
        assert HolesOf(one) == {} + {b.pos};
        Extends(b, Now(), |loops|, {b.pos});
        ListGrown(b.code, out.code, a.pos, body, old(syms), old(localOffset), old(Brk()), old(Cont()), labels);
      }
    }

    /** Compare the value in tmp with a pattern, and go to next if they differ. */
    method PutPattern(pat: Expr, tmp: int, ghost next: int) returns (j: nat)
      requires Valid() && (Clean() ==> -FAR <= tmp <= 0)
      modifies this`fixups, this`strings, this`hadError, this`lits, out`pos, out`overflow, out`code, out`pending,
        out`sound, out.buf
      ensures Valid() && Kept(true, ExprNamed(pat, syms, labels), ExprCalls(pat), |ExprLits(pat)|, ExprSize(pat) + 14)
      ensures var q := old(out.pos) + ExprSize(pat);
        Clean() ==>
          old(Clean()) && Progress(old(Now()), Now(), |loops|, {q + 8}) && lits == old(lits) + ExprLits(pat) &&
          out.pos == q + 14 && j == q + 10 &&
          ExprCode(out.code, old(out.pos), pat, syms, labels) && IsLoad(out.code, q, ECX, Slot(tmp)) &&
          Here(out.code, q + 6, Rr(AluCmp, ECX, EAX)) && Here(out.code, q + 8, Jcc(NE, RelTo(q + 14, next)))
    {
      hide Valid, Progress, ExprCode, ExprSize, ExprLits, RelTo, Here, Stays, Faithful, Takes, Callable, Use, Clean;
      ghost var a, u0 := Now(), Use();
      CompileExpr(pat);
      ghost var b, u1 := Now(), Use();
      Put2(LoadBp(ECX, Signed(Wrap(tmp))), Rr(AluCmp, ECX, EAX));
      ghost var c, u2 := Now(), Use();
      j := PutHole(Jcc(NE, RelTo(out.pos + 6, next)), Jcc(NE, 0));
      Chained(u1, u2, Use(), 0, 0, 8, 0, 0, 6);
      Chained(u0, u1, Use(), ExprCalls(pat), |ExprLits(pat)|, ExprSize(pat), 0, 0, 14);
      if Clean() {
        OpenedMore(b, c, Now(), |loops|, {});
        assert {} + {c.pos} == {c.pos};
        Joined(a, b, Now(), |loops|, {}, {c.pos});
        Extends(c, Now(), |loops|, {c.pos});
        Extends(b, Now(), |loops|, {c.pos});
        ExprGrown(b.code, out.code, a.pos, pat, syms, labels);
        ReadsSlot(out.code, b.pos, ECX, tmp);
      }
    }

    /** Patch every jump of ps to here. */
    method LandAll(ps: seq<nat>, ghost b: Snap, ghost end: int)
      requires Valid()
      requires Clean() ==> Progress(b, Now(), |loops|, HolesOf(ps)) && EndJumps(out.code, ps, end) && end == out.pos
      modifies out`pending, out`sound, out.buf
      ensures Valid() && Fed(0)
      ensures Clean() ==> old(Clean()) && Progress(b, Now(), |loops|, {})
    {
      hide Valid, Progress, EndJumps, RelTo;
      var i := 0;
      assert ps[0..] == ps;
      while i < |ps|
        invariant i <= |ps| && Valid() && Fed(0) && (Clean() ==> old(Clean()))
        invariant Clean() ==> Progress(b, Now(), |loops|, HolesOf(ps[i..]))
      {
        ghost var c := Now();
        ghost var q := Site(ps[i]);
        if Clean() {
          FirstHole(out.code, ps, end, i);
          HoleOpen(b, c, |loops|, HolesOf(ps[i..]), q);
        }
        Land(ps[i], q, Jmp(RelTo(ps[i] + 4, end)), end);
        if Clean() {
          Closed(b, c, Now(), |loops|, HolesOf(ps[i..]), q);
        }
        i := i + 1;
      }
      assert HolesOf(ps[i..]) == {};
    }

    method PutEpilogue()
      requires Valid()
      modifies out`pos, out`overflow, out`code, out.buf
      ensures Valid() && Fed(4)
      ensures Clean() ==>
        old(Clean()) && Progress(old(Now()), Now(), |loops|, {}) &&
        EpilogueCode(out.code, old(out.pos)) && out.pos == old(out.pos) + 4
    {
      hide Valid, Progress, Here;
      Put3(Rr(AluMov, ESP, EBP), Pop(EBP), Ret);
    }
  }
}
