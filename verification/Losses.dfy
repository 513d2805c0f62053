/** What becomes of a program that exceeds the tables of src/rc/parse.rs: the 33rd break of a loop,
    the 17th nested loop and the symbol after the last free entry. */
module Losses {
  import opened Base
  import opened Bindings
  import opened Word
  import opened X86
  import opened Machine
  import opened Source
  import opened Codegen
  import opened Steps
  import opened Emit
  import opened Tables

  // ---- the 33rd break ---------------------------------------------------------------------------

  /** A break is listed exactly when fewer than 32 are, a loop exactly when fewer than 16 are open. */
  lemma ListedExactly(loops: seq<LoopCtx>, p: nat, cont: Position)
    requires |loops| > 0 && p !in loops[|loops| - 1].breaks
    ensures p in Broken(loops, p)[|loops| - 1].breaks <==> |loops[|loops| - 1].breaks| < 32
    ensures |Pushed(loops, cont)| == |loops| + 1 <==> |loops| < 16
  {
    var bs := loops[|loops| - 1].breaks;
    assert (bs + [p])[|bs|] == p;
  }

  /** The five bytes of a break that was never patched do nothing. */
  lemma LostBreak(base: word, bytes: seq<byte>, s: State)
    requires 0 <= s.eip && s.eip + 5 <= |bytes| && bytes[s.eip..s.eip + 5] == [0xE9, 0, 0, 0, 0]
    ensures ByteStep(base, bytes, s) == Next(s.(eip := s.eip + 5))
  {
    assert Encode(Jmp(0)) == [0xE9, 0, 0, 0, 0] by {
      assert Dword(0) == [0, 0, 0, 0];
    }
    hide Encode, Decode;
    var bs := bytes[s.eip..];
    assert bs[..5] == bytes[s.eip..s.eip + 5];
    DecodeEncode(Jmp(0), bs);
  }

  /** Such a break in front of other statements runs into them: it does not leave the loop. */
  lemma BreakIgnored(im: Image, s: State, rest: Stmts, syms: Symbols, off: int, brk: Option<int>, cont: Option<int>,
                     labels: Labels) returns (t: State)
    requires Here(im.code, s.eip, Jmp(0)) && ListCode(im.code, s.eip + 5, rest, syms, off, brk, cont, labels)
    ensures Reach(im, s, t) && t == s.(eip := s.eip + 5)
    ensures ListCode(im.code, t.eip, rest, syms, off, brk, cont, labels)
  {
    hide Reach, ListCode;
    Stay(im, s);
    t := Jump(im, s, s, s.eip + 5);
  }

  // ---- what closing a loop patches -----------------------------------------------------------------

  /** Operands that do not overlap and lie in the buffer. */
  ghost predicate Spaced(bs: seq<nat>, n: nat) {
    (forall i :: 0 <= i < |bs| ==> 1 <= bs[i] && bs[i] + 4 <= n) &&
    (forall i, j :: 0 <= i < j < |bs| ==> bs[i] + 5 <= bs[j])
  }

  lemma OverwrittenAt(bytes: seq<byte>, p: nat, v: word, q: nat)
    requires p + 4 <= |bytes| && q + 4 <= |bytes|
    ensures Overwritten(bytes, p, v)[p..p + 4] == Dword(v)
    ensures q + 4 <= p || p + 4 <= q ==> Overwritten(bytes, p, v)[q..q + 4] == bytes[q..q + 4]
  {
    hide Dword;
  }

  /** Every listed jump gets its operand, and nothing else changes. */
  lemma {:induction false} PatchedEach(bytes: seq<byte>, bs: seq<nat>, target: int)
    requires Spaced(bs, |bytes|)
    ensures var bytes' := Patched(bytes, bs, target);
      (forall i :: 0 <= i < |bs| ==> bytes'[bs[i]..bs[i] + 4] == Dword(Wrap(target - (bs[i] + 4)))) &&
      (forall k :: 0 <= k < |bytes| && Outside(bs, k) ==> bytes'[k] == bytes[k])
    decreases |bs|
  {
    hide Dword, Wrap, Overwritten, Outside;
    if bs != [] {
      var n := |bs| - 1;
      var some := Patched(bytes, bs[..n], target);
      PatchedEach(bytes, bs[..n], target);
      var v := Wrap(target - (bs[n] + 4));
      forall i | 0 <= i < |bs| ensures Overwritten(some, bs[n], v)[bs[i]..bs[i] + 4] ==
        Dword(Wrap(target - (bs[i] + 4))) {
        OverwrittenAt(some, bs[n], v, bs[i]);
        if i < n {
          assert bs[..n][i] == bs[i] && bs[i] + 5 <= bs[n];
        }
      }
      forall k | 0 <= k < |bytes| && Outside(bs, k) ensures Overwritten(some, bs[n], v)[k] == bytes[k] {
        OutsideLast(bs, k);
        OverwrittenElsewhere(some, bs[n], v, k);
      }
    }
  }

  lemma OverwrittenElsewhere(bytes: seq<byte>, p: nat, v: word, k: nat)
    requires p + 4 <= |bytes| && k < |bytes| && (k < p || p + 4 <= k)
    ensures Overwritten(bytes, p, v)[k] == bytes[k]
  {
    hide Dword;
  }

  lemma OutsideLast(bs: seq<nat>, k: int)
    requires bs != [] && Outside(bs, k)
    ensures Outside(bs[..|bs| - 1], k) && (k < bs[|bs| - 1] || bs[|bs| - 1] + 4 <= k)
  {
  }

  ghost predicate Outside(bs: seq<nat>, k: int) {
    forall i :: 0 <= i < |bs| ==> k < bs[i] || bs[i] + 4 <= k
  }

  /** The jump of a listed break then goes to target. */
  lemma BreakLands(bytes: seq<byte>, bs: seq<nat>, target: int, i: nat)
    requires Spaced(bs, |bytes|) && i < |bs| && bytes[bs[i] - 1] == 0xE9
    ensures EncodedAt(Patched(bytes, bs, target), bs[i] - 1, Jmp(RelTo(bs[i] + 4, target)))
  {
    hide Patched, RelTo, Dword;
    var b := bs[i];
    var bytes' := Patched(bytes, bs, target);
    PatchedEach(bytes, bs, target);
    forall j | 0 <= j < |bs| ensures b - 1 < bs[j] || bs[j] + 4 <= b - 1 {
      if j < i {
        assert bs[j] + 5 <= bs[i];
      } else if i < j {
        assert bs[i] + 5 <= bs[j];
      }
    }
    assert Outside(bs, b - 1);
    RelToReaches(b + 4, target);
    assert bytes'[b - 1..b + 4] == [0xE9] + bytes'[b..b + 4];
    assert bytes'[b - 1..b - 1 + 5] == bytes'[b - 1..b + 4];
  }

  // ---- the 17th loop ---------------------------------------------------------------------------------

  /** With 16 loops open, a 17th is not opened, and `continue` in it is that of the 16th.  A break in it
      joins the list of the 16th; when the 17th is closed, it is the 16th that is popped. */
  lemma SeventeenthLoop(loops: seq<LoopCtx>, cont: Position, p: nat)
    requires |loops| == 16
    ensures var top := loops[15];
      Pushed(loops, cont) == loops &&
      (|top.breaks| < 32 ==>
        Broken(Pushed(loops, cont), p)[15] == top.(breaks := top.breaks + [p])) &&
      Popped(Broken(Pushed(loops, cont), p)) == loops[..15]
  {
  }

  /** So all breaks of the 16th loop up to there land where the 17th ends, inside the 16th; and a break
      behind that joins the list of the 15th. */
  lemma SixteenthBreaks(loops: seq<LoopCtx>, cont: Position, p: nat, bytes: seq<byte>, end: int, i: nat, q: nat)
    requires |loops| == 16 && |loops[15].breaks| < 32
    requires |loops[14].breaks| < 32
    requires var bs := loops[15].breaks + [p];
      Spaced(bs, |bytes|) && i < |bs| && bytes[bs[i] - 1] == 0xE9
    ensures var inner := Broken(Pushed(loops, cont), p);
      var bs := inner[15].breaks;
      EncodedAt(Patched(bytes, bs, end), bs[i] - 1, Jmp(RelTo(bs[i] + 4, end))) &&
      Broken(Popped(inner), q)[14].breaks == loops[14].breaks + [q]
  {
    hide Patched, RelTo, EncodedAt;
    SeventeenthLoop(loops, cont, p);
    BreakLands(bytes, loops[15].breaks + [p], end, i);
  }

  // ---- the stack of loops in general ----------------------------------------------------------------

  datatype Event = Opens(cont: Position) | Breaks(p: nat) | Closes

  /** The stack of the source, and one that is never full. */
  function Kept(loops: seq<LoopCtx>, e: Event): seq<LoopCtx> {
    match e
    case Opens(cont) => Pushed(loops, cont)
    case Breaks(p) => if loops == [] then [] else Broken(loops, p)
    case Closes => Popped(loops)
  }

  function Ideal(loops: seq<LoopCtx>, e: Event): seq<LoopCtx> {
    match e
    case Opens(cont) => loops + [LoopCtx(cont, [])]
    case Breaks(p) =>
      if loops == [] then []
      else
        var d := |loops| - 1;
        loops[d := loops[d].(breaks := loops[d].breaks + [p])]
    case Closes => Popped(loops)
  }

  function KeptAll(es: seq<Event>): seq<LoopCtx> {
    if es == [] then [] else Kept(KeptAll(es[..|es| - 1]), es[|es| - 1])
  }

  function IdealAll(es: seq<Event>): seq<LoopCtx> {
    if es == [] then [] else Ideal(IdealAll(es[..|es| - 1]), es[|es| - 1])
  }

  /** No event finds the table it needs full. */
  predicate Allowed(loops: seq<LoopCtx>, e: Event) {
    match e
    case Opens(_) => |loops| < 16
    case Breaks(_) => loops != [] ==> |loops[|loops| - 1].breaks| < 32
    case Closes => true
  }

  predicate AllAllowed(es: seq<Event>) {
    es != [] ==> AllAllowed(es[..|es| - 1]) && Allowed(IdealAll(es[..|es| - 1]), es[|es| - 1])
  }

  lemma OneAllowed(loops: seq<LoopCtx>, e: Event)
    ensures Kept(loops, e) == Ideal(loops, e) <==> Allowed(loops, e)
  {
    if e.Breaks? && loops != [] {
      var d := |loops| - 1;
      assert |(loops[d].breaks + [e.p])| == |loops[d].breaks| + 1;
      assert loops[d := loops[d].(breaks := loops[d].breaks + [e.p])][d].breaks == loops[d].breaks + [e.p];
    }
  }

  /** Over every run of loops and breaks: the source's stack is at all times the one that is never full
      exactly when no loop is opened below 16 others and no loop has more than 32 breaks. */
  lemma {:induction false} StackExact(es: seq<Event>)
    ensures (forall n :: 0 <= n <= |es| ==> KeptAll(es[..n]) == IdealAll(es[..n])) <==> AllAllowed(es)
    decreases |es|
  {
    hide Kept, Ideal, Allowed;
    if es == [] {
      assert es[..0] == [];
    } else {
      var m := |es| - 1;
      var before := es[..m];
      StackExact(before);
      forall n | 0 <= n <= m ensures es[..n] == before[..n] {
      }
      assert before == es[..m] && es[..|es|] == es && before[..m] == before;
      OneAllowed(IdealAll(before), es[m]);
      if forall n :: 0 <= n <= |es| ==> KeptAll(es[..n]) == IdealAll(es[..n]) {
        assert forall n :: 0 <= n <= m ==> KeptAll(before[..n]) == IdealAll(before[..n]);
        assert KeptAll(es[..|es|]) == IdealAll(es[..|es|]);
      }
    }
  }

  // ---- a full symbol table -----------------------------------------------------------------------------

  /** let x = v with a full table: v goes to the new slot at off, but no symbol names it.  Reading x gives
      the older x, if there is one; otherwise the compiler reports an undefined variable. */
  lemma LostSymbol(im: Image, s: State, x: string, syms: Symbols, labels: Labels, m: Memory, off: int, v: word)
    returns (t: State)
    requires Find(syms, x) >= 0 && ExprCode(im.code, s.eip, Var(x), syms, labels)
    requires var l := syms[Find(syms, x)].val;
      Aligned(Address(l, s.ebp)) && Address(l, s.ebp) != s.ebp + off
    requires s.mem == m[s.ebp + off := v]
    ensures Reach(im, s, t) && t.eip == s.eip + 6 && t.eax == Read(m, Address(syms[Find(syms, x)].val, s.ebp))
  {
    hide Reach, Step;
    Stay(im, s);
    t := LoadVar(im, s, s, EAX, syms[Find(syms, x)].val);
  }
}
