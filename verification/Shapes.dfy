/** What the layout, the limits and the names of a statement come to, kind by kind. */
module Shapes {
  import opened Base
  import opened Bindings
  import opened Word
  import opened X86
  import opened Source
  import opened Codegen
  import opened Tables
  import opened Limits

  lemma ListShape(ss: Stmts, syms: Symbols, off: int, labels: Labels, depth: nat, room: int, used: nat)
    requires ss.SCons?
    ensures ListSize(ss) == StmtSize(ss.s) + ListSize(ss.rest) && ListCalls(ss) == StmtCalls(ss.s) + ListCalls(ss.rest)
    ensures ListLits(ss) == StmtLits(ss.s) + ListLits(ss.rest) &&
      ListBreaks(ss) == StmtBreaks(ss.s) + ListBreaks(ss.rest)
    ensures ListOff(ss, off) == ListOff(ss.rest, StmtOff(ss.s, off))
    ensures ListHeld(ss, depth, room, used, off) <==>
      StmtHeld(ss.s, depth, room, used, off) &&
      ListHeld(ss.rest, depth, room - Grows(ss.s), UsedAfter(depth, used, StmtBreaks(ss.s)), StmtOff(ss.s, off))
    ensures ListNamed(ss, syms, off, depth, labels) <==>
      StmtNamed(ss.s, syms, off, depth, labels) &&
      ListNamed(ss.rest, StmtSyms(ss.s, syms, off), StmtOff(ss.s, off), depth, labels)
  {
    hide StmtSize, StmtCalls, StmtLits, StmtBreaks, StmtOff, StmtDeep, StmtIn, StmtNamed, StmtCode, StmtSyms;
  }

  lemma ListEmitted(code: Code, p: int, ss: Stmts, syms: Symbols, off: int, brk: Option<int>, cont: Option<int>,
                    labels: Labels)
    requires ss.SCons?
    ensures ListCode(code, p, ss, syms, off, brk, cont, labels) <==>
      StmtCode(code, p, ss.s, syms, off, brk, cont, labels) &&
      ListCode(code, p + StmtSize(ss.s), ss.rest, StmtSyms(ss.s, syms, off), StmtOff(ss.s, off), brk, cont, labels)
  {
    hide StmtSize, StmtCalls, StmtLits, StmtBreaks, StmtOff, StmtDeep, StmtIn, StmtNamed, StmtCode, StmtSyms;
  }

  lemma ReturnShape(s: Stmt, syms: Symbols, off: int, labels: Labels, depth: nat, room: int, used: nat)
    requires s.Return?
    ensures StmtSize(s) == 4 + if s.result.None? then 0 else ExprSize(s.result.value)
    ensures StmtCalls(s) == OptCalls(s.result) && StmtLits(s) == OptLits(s.result) && StmtBreaks(s) == 0
    ensures StmtOff(s, off) == off && StmtSyms(s, syms, off) == syms
    ensures StmtHeld(s, depth, room, used, off) <==> -FAR <= off
    ensures StmtNamed(s, syms, off, depth, labels) <==> (s.result.Some? ==> ExprNamed(s.result.value, syms, labels))
  {
    hide ExprSize, ExprCode, EpilogueCode, OptCalls, ExprNamed;
  }

  lemma ReturnEmitted(code: Code, p: int, s: Stmt, syms: Symbols, off: int, brk: Option<int>, cont: Option<int>,
                      labels: Labels)
    requires s.Return?
    ensures var n := if s.result.None? then 0 else ExprSize(s.result.value);
      StmtCode(code, p, s, syms, off, brk, cont, labels) <==>
        (s.result.Some? ==> ExprCode(code, p, s.result.value, syms, labels)) && EpilogueCode(code, p + n)
  {
    hide ExprSize, ExprCode, EpilogueCode, OptCalls, ExprNamed;
  }

  lemma LetShape(s: Stmt, syms: Symbols, off: int, labels: Labels, depth: nat, room: int, used: nat)
    requires s.Let?
    ensures StmtSize(s) == if s.init.None? then 0 else ExprSize(s.init.value) + 6
    ensures StmtCalls(s) == OptCalls(s.init) && StmtLits(s) == OptLits(s.init) && StmtBreaks(s) == 0
    ensures StmtOff(s, off) == off - 4 && StmtSyms(s, syms, off) == syms + [Entry(s.x, Slot(off - 4))]
    ensures StmtHeld(s, depth, room, used, off) <==> room >= 1 && -FAR <= off - 4
    ensures StmtNamed(s, syms, off, depth, labels) <==>
      (s.init.Some? ==> ExprNamed(s.init.value, syms + [Entry(s.x, Slot(off - 4))], labels))
  {
    hide ExprSize, ExprCode, IsStore, OptCalls, ExprNamed;
  }

  lemma LetEmitted(code: Code, p: int, s: Stmt, syms: Symbols, off: int, brk: Option<int>, cont: Option<int>,
                   labels: Labels)
    requires s.Let?
    ensures StmtCode(code, p, s, syms, off, brk, cont, labels) <==>
      (s.init.Some? ==>
        ExprCode(code, p, s.init.value, syms + [Entry(s.x, Slot(off - 4))], labels) &&
        IsStore(code, p + ExprSize(s.init.value), Slot(off - 4), EAX))
  {
    hide ExprSize, ExprCode, IsStore, OptCalls, ExprNamed;
  }

  lemma IfShape(s: Stmt, syms: Symbols, off: int, labels: Labels, depth: nat, room: int, used: nat)
    requires s.If? && s.els.None?
    ensures StmtSize(s) == ExprSize(s.c) + (11 + ListSize(s.thn)) && StmtCalls(s) == ExprCalls(s.c) + ListCalls(s.thn)
    ensures StmtLits(s) == ExprLits(s.c) + ListLits(s.thn) && StmtBreaks(s) == ListBreaks(s.thn)
    ensures StmtOff(s, off) == ListOff(s.thn, off) && StmtSyms(s, syms, off) == syms
    ensures StmtHeld(s, depth, room, used, off) <==> ListHeld(s.thn, depth, room, used, off)
    ensures StmtNamed(s, syms, off, depth, labels) <==>
      ExprNamed(s.c, syms, labels) && ListNamed(s.thn, syms, off, depth, labels)
  {
    hide ExprSize, ExprCode, ExprCalls, ExprNamed, ListSize, ListCalls, ListBreaks, ListOff, ListDeep, ListIn,
      ListNamed, ListCode, TestCode;
    assert ExprLits(s.c) + ListLits(s.thn) + [] == ExprLits(s.c) + ListLits(s.thn);
  }

  lemma IfEmitted(code: Code, p: int, s: Stmt, syms: Symbols, off: int, brk: Option<int>, cont: Option<int>,
                  labels: Labels)
    requires s.If? && s.els.None?
    ensures var p1 := p + ExprSize(s.c);
      StmtCode(code, p, s, syms, off, brk, cont, labels) <==>
        ExprCode(code, p, s.c, syms, labels) && TestCode(code, p1, E, p1 + 11 + ListSize(s.thn)) &&
        ListCode(code, p1 + 11, s.thn, syms, off, brk, cont, labels)
  {
    hide ExprSize, ExprCode, ExprCalls, ExprNamed, ListSize, ListCalls, ListBreaks, ListOff, ListDeep, ListIn,
      ListNamed, ListCode, TestCode;
  }

  lemma IfElseShape(s: Stmt, syms: Symbols, off: int, labels: Labels, depth: nat, room: int, used: nat)
    requires s.If? && s.els.Some?
    ensures var els := s.els.value;
      StmtSize(s) == ExprSize(s.c) + (11 + ListSize(s.thn) + (5 + ListSize(els))) &&
      StmtCalls(s) == ExprCalls(s.c) + (ListCalls(s.thn) + ListCalls(els)) &&
      StmtLits(s) == ExprLits(s.c) + (ListLits(s.thn) + ListLits(els)) &&
      StmtBreaks(s) == ListBreaks(s.thn) + ListBreaks(els) &&
      StmtOff(s, off) == ListOff(els, ListOff(s.thn, off)) &&
      StmtSyms(s, syms, off) == syms &&
      (StmtHeld(s, depth, room, used, off) <==>
        ListHeld(s.thn, depth, room, used, off) &&
        ListHeld(els, depth, room, UsedAfter(depth, used, ListBreaks(s.thn)), ListOff(s.thn, off))) &&
      (StmtNamed(s, syms, off, depth, labels) <==>
        ExprNamed(s.c, syms, labels) && ListNamed(s.thn, syms, off, depth, labels) &&
        ListNamed(els, syms, ListOff(s.thn, off), depth, labels))
  {
    hide ExprSize, ExprCode, ExprCalls, ExprNamed, ListSize, ListCalls, ListBreaks, ListOff, ListDeep, ListIn,
      ListNamed, ListCode, TestCode, IsJmp;
    var els := s.els.value;
    assert ExprLits(s.c) + ListLits(s.thn) + ListLits(els) == ExprLits(s.c) + (ListLits(s.thn) + ListLits(els));
  }

  lemma IfElseEmitted(code: Code, p: int, s: Stmt, syms: Symbols, off: int, brk: Option<int>, cont: Option<int>,
                      labels: Labels)
    requires s.If? && s.els.Some?
    ensures var els, p1 := s.els.value, p + ExprSize(s.c);
      StmtCode(code, p, s, syms, off, brk, cont, labels) <==>
        ExprCode(code, p, s.c, syms, labels) && IfElseCode(code, p1, s.thn, els, syms, off, brk, cont, labels)
  {
    hide ExprSize, ExprCode, ExprCalls, ExprNamed, ListSize, ListCalls, ListBreaks, ListOff, ListDeep, ListIn,
      ListNamed, ListCode, TestCode, IsJmp;
  }

  predicate IfElseCode(code: Code, p: int, thn: Stmts, els: Stmts, syms: Symbols, off: int,
                       brk: Option<int>, cont: Option<int>, labels: Labels) {
    var p2 := p + 11 + ListSize(thn);
    TestCode(code, p, E, p2 + 5) && ListCode(code, p + 11, thn, syms, off, brk, cont, labels) &&
    IsJmp(code, p2, p2 + 5 + ListSize(els)) && ListCode(code, p2 + 5, els, syms, ListOff(thn, off), brk, cont, labels)
  }

  lemma WhileShape(s: Stmt, syms: Symbols, off: int, labels: Labels, depth: nat, room: int, used: nat)
    requires s.While?
    ensures StmtSize(s) == ExprSize(s.c) + (11 + (ListSize(s.body) + 5)) &&
      StmtCalls(s) == ExprCalls(s.c) + ListCalls(s.body)
    ensures StmtLits(s) == ExprLits(s.c) + ListLits(s.body) && StmtBreaks(s) == 0
    ensures StmtOff(s, off) == ListOff(s.body, off) && StmtSyms(s, syms, off) == syms
    ensures StmtHeld(s, depth, room, used, off) <==> LoopHeld(s.body, depth, room, off)
    ensures StmtNamed(s, syms, off, depth, labels) <==>
      ExprNamed(s.c, syms, labels) && ListNamed(s.body, syms, off, depth + 1, labels)
  {
    hide ExprSize, ExprCode, ExprCalls, ExprNamed, ListSize, ListCalls, ListLits, ListOff, ListDeep, LoopIn, ListNamed,
      ListCode, TestCode, IsJmp;
  }

  lemma LoopShape(s: Stmt, syms: Symbols, off: int, labels: Labels, depth: nat, room: int, used: nat)
    requires s.Loop?
    ensures StmtSize(s) == ListSize(s.body) + 5 && StmtCalls(s) == ListCalls(s.body) && StmtLits(s) == ListLits(s.body)
    ensures StmtOff(s, off) == ListOff(s.body, off) && StmtSyms(s, syms, off) == syms
    ensures StmtBreaks(s) == 0 && (StmtHeld(s, depth, room, used, off) <==> LoopHeld(s.body, depth, room, off))
    ensures StmtNamed(s, syms, off, depth, labels) <==> ListNamed(s.body, syms, off, depth + 1, labels)
  {
    hide ListSize, ListCalls, ListLits, ListOff, ListDeep, LoopIn, ListNamed, ListCode, IsJmp;
  }

  lemma LoopEmitted(code: Code, p: int, s: Stmt, syms: Symbols, off: int, brk: Option<int>, cont: Option<int>,
                    labels: Labels)
    requires s.Loop?
    ensures var exit := p + ListSize(s.body) + 5;
      StmtCode(code, p, s, syms, off, brk, cont, labels) <==>
        ListCode(code, p, s.body, syms, off, Some(exit), Some(p), labels) && IsJmp(code, exit - 5, p)
  {
    hide ListSize, ListCalls, ListLits, ListOff, ListDeep, LoopIn, ListNamed, ListCode, IsJmp;
  }

  /** The body of a loop that fits has a loop to itself. */
  lemma LoopHolds(body: Stmts, depth: nat, room: int, off: int)
    ensures LoopHeld(body, depth, room, off) <==> depth < MAX_LOOP_DEPTH && ListHeld(body, depth + 1, room, 0, off)
  {
    hide ListIn, ListDeep, ListBreaks;
  }

  lemma ForShape(s: Stmt, syms: Symbols, off: int, labels: Labels, depth: nat, room: int, used: nat)
    requires s.For?
    ensures StmtSize(s) == ExprSize(s.lo) + 6 + (ExprSize(s.hi) + 6) + (53 + (ListSize(s.body) + 5))
    ensures StmtCalls(s) == ExprCalls(s.lo) + ExprCalls(s.hi) + ListCalls(s.body)
    ensures StmtLits(s) == ExprLits(s.lo) + ExprLits(s.hi) + ListLits(s.body) && StmtBreaks(s) == 0
    ensures StmtOff(s, off) == ListOff(s.body, off - 8) && StmtSyms(s, syms, off) == syms
    ensures StmtHeld(s, depth, room, used, off) <==>
      room >= 1 && -FAR <= off - 8 && LoopHeld(s.body, depth, room - 1, off - 8)
    ensures var inner := syms + [Entry(s.x, Slot(off - 4))];
      StmtNamed(s, syms, off, depth, labels) <==>
        ExprNamed(s.lo, syms, labels) && ExprNamed(s.hi, inner, labels) &&
        ListNamed(s.body, inner, off - 8, depth + 1, labels)
  {
    hide ExprSize, ExprCode, ExprCalls, ExprLits, ExprNamed, ListSize, ListCalls, ListLits, ListOff, ListDeep, LoopIn,
      ListNamed, ListCode, IsStore, ForCode, IsJmp;
  }

  lemma ForEmitted(code: Code, p: int, s: Stmt, syms: Symbols, off: int, brk: Option<int>, cont: Option<int>,
                   labels: Labels)
    requires s.For?
    ensures var inner, p1 := syms + [Entry(s.x, Slot(off - 4))], p + ExprSize(s.lo) + 6;
      var p2 := p1 + ExprSize(s.hi) + 6;
      var exit := p2 + 53 + ListSize(s.body) + 5;
      StmtCode(code, p, s, syms, off, brk, cont, labels) <==>
        ExprCode(code, p, s.lo, syms, labels) && IsStore(code, p1 - 6, Slot(off - 4), EAX) &&
        ExprCode(code, p1, s.hi, inner, labels) && IsStore(code, p2 - 6, Slot(off - 8), EAX) &&
        ForCode(code, p2, off - 4, off - 8, exit) &&
        ListCode(code, p2 + 53, s.body, inner, off - 8, Some(exit), Some(p2 + 29), labels) &&
        IsJmp(code, exit - 5, p2 + 29)
  {
    hide ExprSize, ExprCode, ExprCalls, ExprLits, ExprNamed, ListSize, ListCalls, ListLits, ListOff, ListDeep, LoopIn,
      ListNamed, ListCode, IsStore, ForCode, IsJmp;
  }

  lemma MatchShape(s: Stmt, syms: Symbols, off: int, labels: Labels, depth: nat, room: int, used: nat)
    requires s.Match?
    ensures StmtSize(s) == ExprSize(s.e) + 6 + ArmsSize(s.arms, 0) && StmtCalls(s) == ExprCalls(s.e) + ArmsCalls(s.arms)
    ensures StmtLits(s) == ExprLits(s.e) + ArmsLits(s.arms) && StmtBreaks(s) == ArmsBreaks(s.arms)
    ensures StmtOff(s, off) == off && StmtSyms(s, syms, off) == syms
    ensures StmtHeld(s, depth, room, used, off) <==> -FAR <= off - 4 && ArmsHeld(s.arms, depth, room, used, off - 4)
    ensures StmtNamed(s, syms, off, depth, labels) <==>
      ExprNamed(s.e, syms, labels) && ArmsNamed(s.arms, syms, off - 4, depth, labels)
  {
    hide ExprSize, ExprCode, ExprCalls, ExprLits, ExprNamed, ArmsSize, ArmsCalls, ArmsLits, ArmsBreaks, ArmsIn,
      ArmsNamed, ArmsCode, IsStore;
  }

  lemma MatchEmitted(code: Code, p: int, s: Stmt, syms: Symbols, off: int, brk: Option<int>, cont: Option<int>,
                     labels: Labels)
    requires s.Match?
    ensures var p1 := p + ExprSize(s.e) + 6;
      StmtCode(code, p, s, syms, off, brk, cont, labels) <==>
        ExprCode(code, p, s.e, syms, labels) && IsStore(code, p1 - 6, Slot(off - 4), EAX) &&
        ArmsCode(code, p1, s.arms, 0, off - 4, p1 + ArmsSize(s.arms, 0), syms, off - 4, brk, cont, labels)
  {
    hide ExprSize, ExprCode, ExprCalls, ExprLits, ExprNamed, ArmsSize, ArmsCalls, ArmsLits, ArmsBreaks, ArmsIn,
      ArmsNamed, ArmsCode, IsStore;
  }

  lemma ArmsShape(arms: Arms, k: nat, syms: Symbols, off: int, labels: Labels, depth: nat, room: int, used: nat)
    requires arms.ACons?
    ensures ArmsSize(arms, k) == ArmSize(arms.pat, arms.body, k) + ArmsSize(arms.rest, k + 1)
    ensures ArmsCalls(arms) == OptCalls(arms.pat) + ListCalls(arms.body) + ArmsCalls(arms.rest)
    ensures ArmsLits(arms) == OptLits(arms.pat) + ListLits(arms.body) + ArmsLits(arms.rest)
    ensures ArmsBreaks(arms) == ListBreaks(arms.body) + ArmsBreaks(arms.rest)
    ensures ArmsOff(arms, off) == ArmsOff(arms.rest, ListOff(arms.body, off))
    ensures ArmsHeld(arms, depth, room, used, off) <==>
      ListHeld(arms.body, depth, room, used, off) &&
      ArmsHeld(arms.rest, depth, room, UsedAfter(depth, used, ListBreaks(arms.body)), ListOff(arms.body, off))
    ensures ArmsNamed(arms, syms, off, depth, labels) <==>
      (arms.pat.Some? ==> ExprNamed(arms.pat.value, syms, labels)) && ListNamed(arms.body, syms, off, depth, labels) &&
      ArmsNamed(arms.rest, syms, ListOff(arms.body, off), depth, labels)
  {
    hide ArmSize, ListCalls, ListLits, ListBreaks, ListOff, ListDeep, ListIn, ListNamed, ExprNamed, OptCalls, OptLits;
  }
}
