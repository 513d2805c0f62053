/** Slots and frames: LOCAL_OFFSET hands out slots, parse_function reserves what it
    ended at, and parse_match gives its temporary back (src/rc/parse.rs). */
module Frames {
  import opened Base
  import opened Word
  import opened X86
  import opened Machine
  import opened Source
  import opened Codegen
  import opened Steps
  import opened Parse

  /** Offsets from EBP of all slots a construct uses, in the order it takes them. */
  function StmtSlots(s: Stmt, off: int): seq<int> {
    match s
    case Let(_, _) => [off - 4]
    case If(_, thn, els) =>
      ListSlots(thn, off) + if els.None? then [] else ListSlots(els.value, ListOff(thn, off))
    case While(_, body) => ListSlots(body, off)
    case Loop(body) => ListSlots(body, off)
    case For(_, _, _, body) => [off - 4, off - 8] + ListSlots(body, off - 8)
    case Match(_, arms) => [off - 4] + ArmsSlots(arms, off - 4)
    case Block(body) => ListSlots(body, off)
    case _ => []
  }

  function ListSlots(ss: Stmts, off: int): seq<int> {
    if ss.SNil? then [] else StmtSlots(ss.s, off) + ListSlots(ss.rest, StmtOff(ss.s, off))
  }

  function ArmsSlots(arms: Arms, off: int): seq<int> {
    if arms.ANil? then [] else ListSlots(arms.body, off) + ArmsSlots(arms.rest, ListOff(arms.body, off))
  }

  predicate StmtPlain(s: Stmt) {
    match s
    case If(_, thn, els) => ListPlain(thn) && (els.Some? ==> ListPlain(els.value))
    case While(_, body) => ListPlain(body)
    case Loop(body) => ListPlain(body)
    case For(_, _, _, body) => ListPlain(body)
    case Match(_, _) => false
    case Block(body) => ListPlain(body)
    case _ => true
  }

  predicate ListPlain(ss: Stmts) {
    ss.SCons? ==> StmtPlain(ss.s) && ListPlain(ss.rest)
  }

  /** Each slot lies below the one before it, all between lo and hi. */
  ghost predicate Falling(slots: seq<int>, hi: int, lo: int) {
    lo <= hi && (forall i :: 0 <= i < |slots| ==> lo <= slots[i] <= hi - 4) &&
    (forall i, j :: 0 <= i < j < |slots| ==> slots[j] <= slots[i] - 4)
  }

  lemma FallOn(a: seq<int>, b: seq<int>, hi: int, mid: int, lo: int)
    requires Falling(a, hi, mid) && Falling(b, mid, lo)
    ensures Falling(a + b, hi, lo)
  {
  }

  lemma {:induction false} StmtSlotsFall(s: Stmt, off: int)
    requires StmtPlain(s)
    ensures Falling(StmtSlots(s, off), off, StmtOff(s, off))
    decreases s
  {
    match s
    case If(_, thn, els) =>
      ListSlotsFall(thn, off);
      if els.Some? {
        ListSlotsFall(els.value, ListOff(thn, off));
        FallOn(ListSlots(thn, off), ListSlots(els.value, ListOff(thn, off)), off, ListOff(thn, off), StmtOff(s, off));
      } else {
        assert ListSlots(thn, off) + [] == ListSlots(thn, off);
      }
    case While(_, body) => ListSlotsFall(body, off);
    case Loop(body) => ListSlotsFall(body, off);
    case For(_, _, _, body) =>
      ListSlotsFall(body, off - 8);
      FallOn([off - 4, off - 8], ListSlots(body, off - 8), off, off - 8, ListOff(body, off - 8));
    case Block(body) => ListSlotsFall(body, off);
    case _ =>
  }

  /** Without match, all slots are disjoint and lie above the final LOCAL_OFFSET. */
  lemma {:induction false} ListSlotsFall(ss: Stmts, off: int)
    requires ListPlain(ss)
    ensures Falling(ListSlots(ss, off), off, ListOff(ss, off))
    decreases ss
  {
    if ss.SCons? {
      StmtSlotsFall(ss.s, off);
      ListSlotsFall(ss.rest, StmtOff(ss.s, off));
      FallOn(StmtSlots(ss.s, off), ListSlots(ss.rest, StmtOff(ss.s, off)), off, StmtOff(ss.s, off), ListOff(ss, off));
    }
  }

  /** All slots of a body lie inside the frame that parse_function reserves. */
  ghost predicate Covered(body: Stmts) {
    forall i :: 0 <= i < |ListSlots(body, 0)| ==> 0 <= ListSlots(body, 0)[i] + FrameSize(body)
  }

  lemma PlainIsCovered(body: Stmts)
    requires ListPlain(body)
    ensures Covered(body)
  {
    ListSlotsFall(body, 0);
    RoundedUp(body);
  }

  lemma RoundedUp(body: Stmts)
    ensures -ListOff(body, 0) <= FrameSize(body) < -ListOff(body, 0) + 16
  {
    hide ListOff;
  }

  // ---- with match: the exact condition ---------------------------------------------------

  /** d is the lowest of the slots, or off if there are none. */
  ghost predicate Lowest(slots: seq<int>, off: int, d: int) {
    d <= off && (forall i :: 0 <= i < |slots| ==> d <= slots[i]) &&
    (d == off || exists i :: 0 <= i < |slots| && slots[i] == d)
  }

  lemma LowestOn(a: seq<int>, b: seq<int>, off: int, off': int, d: int, d': int)
    requires Lowest(a, off, d) && Lowest(b, off', d') && d <= off'
    ensures Lowest(a + b, off, Min(d, d'))
  {
    if d' < d {
      var i :| 0 <= i < |b| && b[i] == d';
      assert (a + b)[|a| + i] == d';
    } else if d < off {
      var i :| 0 <= i < |a| && a[i] == d;
      assert (a + b)[i] == d;
    }
  }

  lemma {:induction false} StmtLowest(s: Stmt, off: int)
    ensures Lowest(StmtSlots(s, off), off, StmtDeep(s, off))
    decreases s
  {
    match s
    case Let(_, _) => assert [off - 4][0] == off - 4;
    case If(_, thn, els) =>
      ListLowest(thn, off);
      if els.Some? {
        ListLowest(els.value, ListOff(thn, off));
        LowestOn(ListSlots(thn, off), ListSlots(els.value, ListOff(thn, off)), off, ListOff(thn, off),
                 ListDeep(thn, off), ListDeep(els.value, ListOff(thn, off)));
      } else {
        assert ListSlots(thn, off) + [] == ListSlots(thn, off);
      }
    case While(_, body) => ListLowest(body, off);
    case Loop(body) => ListLowest(body, off);
    case For(_, _, _, body) =>
      ListLowest(body, off - 8);
      assert [off - 4, off - 8][1] == off - 8;
      LowestOn([off - 4, off - 8], ListSlots(body, off - 8), off, off - 8, off - 8, ListDeep(body, off - 8));
    case Match(_, arms) =>
      ArmsLowest(arms, off - 4);
      assert [off - 4][0] == off - 4;
      LowestOn([off - 4], ArmsSlots(arms, off - 4), off, off - 4, off - 4, ArmsDeep(arms, off - 4));
    case Block(body) => ListLowest(body, off);
    case _ =>
  }

  lemma {:induction false} ListLowest(ss: Stmts, off: int)
    ensures Lowest(ListSlots(ss, off), off, ListDeep(ss, off))
    decreases ss
  {
    if ss.SCons? {
      StmtLowest(ss.s, off);
      ListLowest(ss.rest, StmtOff(ss.s, off));
      LowestOn(StmtSlots(ss.s, off), ListSlots(ss.rest, StmtOff(ss.s, off)), off, StmtOff(ss.s, off),
               StmtDeep(ss.s, off), ListDeep(ss.rest, StmtOff(ss.s, off)));
    }
  }

  lemma {:induction false} ArmsLowest(arms: Arms, off: int)
    ensures Lowest(ArmsSlots(arms, off), off, ArmsDeep(arms, off))
    decreases arms
  {
    if arms.ACons? {
      ListLowest(arms.body, off);
      ArmsLowest(arms.rest, ListOff(arms.body, off));
      LowestOn(ListSlots(arms.body, off), ArmsSlots(arms.rest, ListOff(arms.body, off)), off, ListOff(arms.body, off),
               ListDeep(arms.body, off), ArmsDeep(arms.rest, ListOff(arms.body, off)));
    }
  }

  /** The reserved frame covers every slot exactly when it reaches the deepest LOCAL_OFFSET. */
  lemma CoveredExactly(body: Stmts)
    ensures Covered(body) <==> ListDeep(body, 0) + FrameSize(body) >= 0
  {
    ListLowest(body, 0);
    RoundedUp(body);
    if ListDeep(body, 0) < 0 {
      var i :| 0 <= i < |ListSlots(body, 0)| && ListSlots(body, 0)[i] == ListDeep(body, 0);
    }
  }

  // ---- a body whose match goes wrong -------------------------------------------------------

  /** match 3 { 1 + 2 => return 7, _ => return 9 } */
  function BadMatch(): Stmt {
    Match(Const(3),
          ACons(Some(Binary(Add, Const(1), Const(2))), SCons(Return(Some(Const(7))), SNil),
          ACons(None, SCons(Return(Some(Const(9))), SNil), ANil)))
  }

  /** Four locals and the match: the temporary is the fifth slot of a four-slot frame. */
  function BadBody(): Stmts {
    SCons(Let("a", None), SCons(Let("b", None), SCons(Let("c", None), SCons(Let("d", None), SCons(BadMatch(), SNil)))))
  }

  lemma BadBodyNotCovered()
    ensures !Covered(BadBody()) && FrameSize(BadBody()) == 16 && ListDeep(BadBody(), 0) == -20
  {
    var arms := BadMatch().arms;
    var last := SCons(BadMatch(), SNil);
    assert ListOff(arms.body, -20) == -20 && ListOff(arms.rest.body, -20) == -20;
    assert ListDeep(arms.body, -20) == -20 && ListDeep(arms.rest.body, -20) == -20;
    assert ArmsDeep(arms.rest, -20) == -20;
    assert ArmsDeep(arms, -20) == -20;
    assert StmtDeep(BadMatch(), -16) == -20 && StmtOff(BadMatch(), -16) == -16;
    assert ListDeep(last, -16) == -20 && ListOff(last, -16) == -16;
    assert ListDeep(SCons(Let("d", None), last), -12) == -20 && ListOff(SCons(Let("d", None), last), -12) == -16;
    assert ListDeep(BadBody().rest.rest, -8) == -20 && ListOff(BadBody().rest.rest, -8) == -16;
    assert ListDeep(BadBody().rest, -4) == -20 && ListOff(BadBody().rest, -4) == -16;
    CoveredExactly(BadBody());
  }

  /** There, evaluating the pattern 1 + 2 pushes over the temporary: the arm is not
      taken although the temporary held 3. */
  lemma ArmMissed(im: Image, s: State, next: int, syms: Symbols, labels: Labels) returns (t: State)
    requires PatternCode(im.code, s.eip, Binary(Add, Const(1), Const(2)), -20, next, syms, labels)
    requires s.esp == s.ebp - 16 && s.ebp >= 64 && s.ebp % 4 == 0
    requires Read(s.mem, s.ebp - 20) == 3
    ensures Reach(im, s, t) && t.eip == next
  {
    hide Reach, Step, ExprCode, OpCode, Here, IsLoad, IsJcc;
    var e := Binary(Add, Const(1), Const(2));
    CodeBinary(im.code, s.eip, e, syms, labels);
    CodeConst(im.code, s.eip, 1, syms, labels);
    CodeConst(im.code, s.eip + 6, 2, syms, labels);
    Stay(im, s);
    t := SetEax(im, s, s, 1);
    t := PushEax(im, s, t);
    t := SetEax(im, s, t, 2);
    t := Operate(im, s, t, Add, 1);
    t := ArmTest(im, s, t, -20, next);
  }

  // ---- a match with too many arms -------------------------------------------------------------

  /** From its 33rd arm on a match has no jumps to its end left: an empty arm that was
      taken continues with the arm after it, and enters it if that is the default. */
  lemma ArmFallsThrough(im: Image, s: State, arms: Arms, w: word, k: nat, tmp: int, end: int, syms: Symbols, off: int,
                        brk: Option<int>, cont: Option<int>, labels: Labels) returns (t: State)
    requires k >= 32 && arms.ACons? && arms.pat == Some(Const(w)) && arms.body == SNil && arms.rest.ACons?
    requires ArmsCode(im.code, s.eip, arms, k, tmp, end, syms, off, brk, cont, labels)
    requires Aligned(s.ebp + tmp) && Read(s.mem, s.ebp + tmp) == w
    ensures Reach(im, s, t) && t.eip == s.eip + ArmSize(arms.pat, arms.body, k) && t.mem == s.mem
    ensures ArmsCode(im.code, t.eip, arms.rest, k + 1, tmp, end, syms, off, brk, cont, labels)
    ensures arms.rest.pat.None? ==> ListCode(im.code, t.eip, arms.rest.body, syms, off, brk, cont, labels)
  {
    hide Reach, Step, ExprCode, Here, IsLoad, IsJcc;
    CodeConst(im.code, s.eip, w, syms, labels);
    Stay(im, s);
    t := SetEax(im, s, s, w);
    t := ArmTest(im, s, t, tmp, s.eip + ArmSize(arms.pat, arms.body, k));
  }

  lemma CodeConst(code: Code, p: int, w: word, syms: Symbols, labels: Labels)
    ensures ExprSize(Const(w)) == 5
    ensures ExprCode(code, p, Const(w), syms, labels) ==> Here(code, p, MovImm(EAX, w))
  {
  }
}
