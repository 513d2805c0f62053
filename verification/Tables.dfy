/** The compiler's bookkeeping of operands that are still to be patched: the break
    lists of the open loops, the forward calls and the string literals. */
module Tables {
  import opened Base
  import opened Word
  import opened X86
  import opened Source
  import opened Codegen
  import opened Emit
  import opened Layout
  import Scopes

  const MAX_LOOP_DEPTH: nat := 16
  const MAX_BREAKS: nat := 32
  const MAX_FIXUPS: nat := 256
  const MAX_STRINGS: nat := 128
  const MAX_SYMBOLS: nat := Scopes.MAX_SYMBOLS
  const BUILTINS: nat := Scopes.BUILTINS

  /** An offset into the code buffer. */
  type Position = x: int | 0 <= x <= CODE_MAX

  function Cap(x: int): Position {
    if x < 0 then 0 else if x <= CODE_MAX then x else CODE_MAX
  }

  datatype LoopCtx = LoopCtx(cont: Position, breaks: seq<nat>)
  // ---- the stack of loops, as the source keeps it -----------------------------------------------

  /** loop_push: nothing happens at depth 16. */
  function Pushed(loops: seq<LoopCtx>, cont: Position): seq<LoopCtx> {
    if |loops| < MAX_LOOP_DEPTH then loops + [LoopCtx(cont, [])] else loops
  }

  /** loop_add_break: the 33rd is not noted. */
  function Broken(loops: seq<LoopCtx>, p: nat): (loops': seq<LoopCtx>)
    requires |loops| > 0
    ensures |loops'| == |loops|
  {
    var d := |loops| - 1;
    var bs := loops[d].breaks;
    if |bs| < MAX_BREAKS then loops[d := loops[d].(breaks := bs + [p])] else loops
  }

  /** loop_pop, but for the patches. */
  function Popped(loops: seq<LoopCtx>): seq<LoopCtx> {
    if loops == [] then [] else loops[..|loops| - 1]
  }

  /** The patches of loop_pop: the jumps with operands at bs go to target. */
  function Patched(bytes: seq<byte>, bs: seq<nat>, target: int): (bytes': seq<byte>)
    ensures |bytes'| == |bytes|
  {
    if bs == [] then bytes
    else
      var n := |bs| - 1;
      Overwritten(Patched(bytes, bs[..n], target), bs[n], Wrap(target - (bs[n] + 4)))
  }

  datatype FixupEntry = FixupEntry(name: string, patch: nat)
  datatype StringEntry = StringEntry(text: seq<byte>, patch: nat)

  /** A string literal and the address its bytes are meant to have. */
  datatype Lit = Lit(text: seq<byte>, addr: word)

  /** The displacement that takes a jump ending at `from` to `to`. */
  function RelTo(from: int, to: int): i32 {
    Signed(Wrap(to - from))
  }

  lemma RelToReaches(from: int, to: int)
    ensures Wrap(RelTo(from, to)) == Wrap(to - from)
    ensures -HALF <= to - from < HALF ==> from + RelTo(from, to) == to
  {
    var w := Wrap(to - from);
    if w >= HALF {
      assert (w - W) % W == w;
    }
    if -HALF <= to - from < HALF {
      WrapSigned(to - from);
    }
  }

  /** The one-byte-opcode instruction whose operand is at b. */
  function Site(b: int): int {
    b - 1
  }

  // ---- what the tables say about pending instructions -------------------------------

  /** bs lists exactly the pending breaks of the loop at depth d. */
  ghost predicate LoopTracked(bs: seq<nat>, d: nat, exit: int, code: Code, pending: map<int, Tag>) {
    (forall i :: 0 <= i < |bs| ==> BreakAt(bs[i], LoopExit(d, i), exit, code, pending)) &&
    (forall q {:trigger pending[q]} :: q in pending && pending[q].LoopExit? && pending[q].depth == d ==>
      pending[q].entry < |bs| && bs[pending[q].entry] == q + 1)
  }

  ghost predicate BreakAt(b: nat, t: Tag, exit: int, code: Code, pending: map<int, Tag>) {
    b - 1 in pending && pending[b - 1] == t && Here(code, b - 1, Jmp(RelTo(b + 4, exit)))
  }

  ghost predicate LoopsTracked(loops: seq<LoopCtx>, exits: seq<Position>, code: Code, pending: map<int, Tag>) {
    |exits| == |loops| &&
    (forall d :: 0 <= d < |loops| ==> LoopTracked(loops[d].breaks, d, exits[d], code, pending)) &&
    (forall q {:trigger pending[q]} :: q in pending && pending[q].LoopExit? ==> pending[q].depth < |loops|)
  }

  function CallTarget(f: string, patch: int, labels: Labels): i32 {
    if f in labels then RelTo(patch + 4, labels[f]) else 0
  }

  ghost predicate FixupAt(x: FixupEntry, t: Tag, labels: Labels, code: Code, pending: map<int, Tag>) {
    x.patch - 1 in pending && pending[x.patch - 1] == t &&
    Here(code, x.patch - 1, CallRel(CallTarget(x.name, x.patch, labels)))
  }

  ghost predicate FixupsTracked(fixups: seq<FixupEntry>, labels: Labels, code: Code, pending: map<int, Tag>) {
    (forall i :: 0 <= i < |fixups| ==> FixupAt(fixups[i], Fixup(i), labels, code, pending)) &&
    (forall q {:trigger pending[q]} :: q in pending && pending[q].Fixup? ==>
      pending[q].entry < |fixups| && fixups[pending[q].entry].patch == q + 1)
  }

  ghost predicate StringAt(x: StringEntry, t: Tag, l: Lit, code: Code, pending: map<int, Tag>) {
    x.text == l.text && x.patch - 1 in pending && pending[x.patch - 1] == t &&
    Here(code, x.patch - 1, MovImm(EAX, l.addr))
  }

  ghost predicate StringsTracked(strings: seq<StringEntry>, lits: seq<Lit>, code: Code, pending: map<int, Tag>) {
    |lits| == |strings| &&
    (forall i :: 0 <= i < |strings| ==> StringAt(strings[i], StringRef(i), lits[i], code, pending)) &&
    (forall q {:trigger pending[q]} :: q in pending && pending[q].StringRef? ==>
      pending[q].entry < |strings| && strings[pending[q].entry].patch == q + 1)
  }

  function Kind(t: Tag): nat {
    match t
    case Local => 0
    case LoopExit(_, _) => 1
    case Fixup(_) => 2
    case StringRef(_) => 3
  }

  /** Emission that leaves the pending instructions of one kind alone. */
  ghost predicate SameKind(code: Code, pending: map<int, Tag>, code': Code, pending': map<int, Tag>, k: nat) {
    Grown(code, code') &&
    (forall q {:trigger pending'[q]} {:trigger pending[q]} ::
      (q in pending && Kind(pending[q]) == k) == (q in pending' && Kind(pending'[q]) == k)) &&
    (forall q {:trigger pending'[q]} {:trigger pending[q]} ::
      q in pending && Kind(pending[q]) == k ==> q in pending' && pending'[q] == pending[q])
  }

  lemma LoopsGrown(loops: seq<LoopCtx>, exits: seq<Position>, code: Code, pending: map<int, Tag>, code': Code,
                   pending': map<int, Tag>)
    requires SameKind(code, pending, code', pending', 1) && LoopsTracked(loops, exits, code, pending)
    ensures LoopsTracked(loops, exits, code', pending')
  {
    forall d | 0 <= d < |loops| ensures LoopTracked(loops[d].breaks, d, exits[d], code', pending') {
      var bs := loops[d].breaks;
      assert LoopTracked(bs, d, exits[d], code, pending);
      forall i | 0 <= i < |bs| ensures BreakAt(bs[i], LoopExit(d, i), exits[d], code', pending') {
        assert BreakAt(bs[i], LoopExit(d, i), exits[d], code, pending);
      }
    }
  }

  lemma FixupsGrown(fixups: seq<FixupEntry>, labels: Labels, code: Code, pending: map<int, Tag>, code': Code,
                    pending': map<int, Tag>)
    requires SameKind(code, pending, code', pending', 2) && FixupsTracked(fixups, labels, code, pending)
    ensures FixupsTracked(fixups, labels, code', pending')
  {
    forall i | 0 <= i < |fixups| ensures FixupAt(fixups[i], Fixup(i), labels, code', pending') {
      assert FixupAt(fixups[i], Fixup(i), labels, code, pending);
    }
  }

  lemma StringsGrown(strings: seq<StringEntry>, lits: seq<Lit>, code: Code, pending: map<int, Tag>, code': Code,
                     pending': map<int, Tag>)
    requires SameKind(code, pending, code', pending', 3) && StringsTracked(strings, lits, code, pending)
    ensures StringsTracked(strings, lits, code', pending')
  {
    forall i | 0 <= i < |strings| ensures StringAt(strings[i], StringRef(i), lits[i], code', pending') {
      assert StringAt(strings[i], StringRef(i), lits[i], code, pending);
    }
  }

  /** A new pending instruction of another kind leaves these tables alone. */
  lemma OtherKinds(code: Code, pending: map<int, Tag>, p: int, i: Instr, t: Tag)
    requires p !in code && p !in pending
    ensures forall k {:trigger SameKind(code, pending, code[p := i], pending[p := t], k)} ::
      k != Kind(t) ==> SameKind(code, pending, code[p := i], pending[p := t], k)
  {
  }

  lemma FixupAdded(fixups: seq<FixupEntry>, labels: Labels, code: Code, pending: map<int, Tag>, f: string, p: nat)
    requires FixupsTracked(fixups, labels, code, pending) && p !in code && p !in pending
    ensures FixupsTracked(fixups + [FixupEntry(f, p + 1)], labels, code[p := CallRel(CallTarget(f, p + 1, labels))],
      pending[p := Fixup(|fixups|)])
  {
    var fixups' := fixups + [FixupEntry(f, p + 1)];
    var code', pending' := code[p := CallRel(CallTarget(f, p + 1, labels))], pending[p := Fixup(|fixups|)];
    forall i | 0 <= i < |fixups'| ensures FixupAt(fixups'[i], Fixup(i), labels, code', pending') {
      if i < |fixups| {
        assert FixupAt(fixups[i], Fixup(i), labels, code, pending);
      }
    }
  }

  lemma StringAdded(strings: seq<StringEntry>, lits: seq<Lit>, code: Code, pending: map<int, Tag>, l: Lit, p: nat)
    requires StringsTracked(strings, lits, code, pending) && p !in code && p !in pending
    ensures StringsTracked(strings + [StringEntry(l.text, p + 1)], lits + [l], code[p := MovImm(EAX, l.addr)],
      pending[p := StringRef(|strings|)])
  {
    var strings', lits' := strings + [StringEntry(l.text, p + 1)], lits + [l];
    var code', pending' := code[p := MovImm(EAX, l.addr)], pending[p := StringRef(|strings|)];
    forall i | 0 <= i < |strings'| ensures StringAt(strings'[i], StringRef(i), lits'[i], code', pending') {
      if i < |strings| {
        assert StringAt(strings[i], StringRef(i), lits[i], code, pending);
      }
    }
  }

  // ---- opening and closing loops ------------------------------------------------------

  lemma LoopOpened(loops: seq<LoopCtx>, exits: seq<Position>, code: Code, pending: map<int, Tag>, cont: Position,
                   exit: Position)
    requires LoopsTracked(loops, exits, code, pending)
    ensures LoopsTracked(loops + [LoopCtx(cont, [])], exits + [exit], code, pending)
  {
    var loops', exits' := loops + [LoopCtx(cont, [])], exits + [exit];
    forall d | 0 <= d < |loops'| ensures LoopTracked(loops'[d].breaks, d, exits'[d], code, pending) {
      if d < |loops| {
        assert LoopTracked(loops[d].breaks, d, exits[d], code, pending);
      }
    }
  }

  /** One more break of the innermost loop. */
  lemma BreakAdded(loops: seq<LoopCtx>, exits: seq<Position>, code: Code, pending: map<int, Tag>, p: nat)
    requires LoopsTracked(loops, exits, code, pending) && |loops| > 0 && p !in code && p !in pending
    ensures var d := |loops| - 1;
      var bs := loops[d].breaks;
      LoopsTracked(loops[d := loops[d].(breaks := bs + [p + 1])], exits, code[p := Jmp(RelTo(p + 5, exits[d]))],
        pending[p := LoopExit(d, |bs|)])
  {
    hide RelTo;
    var top := |loops| - 1;
    var bs := loops[top].breaks;
    var loops' := loops[top := loops[top].(breaks := bs + [p + 1])];
    var code', pending' := code[p := Jmp(RelTo(p + 5, exits[top]))], pending[p := LoopExit(top, |bs|)];
    forall d | 0 <= d < |loops'| ensures LoopTracked(loops'[d].breaks, d, exits[d], code', pending') {
      var cs := loops[d].breaks;
      assert LoopTracked(cs, d, exits[d], code, pending);
      forall i | 0 <= i < |cs| ensures BreakAt(cs[i], LoopExit(d, i), exits[d], code', pending') {
        assert BreakAt(cs[i], LoopExit(d, i), exits[d], code, pending);
      }
      if d == top {
        assert BreakAt(p + 1, LoopExit(top, |bs|), exits[d], code', pending');
        assert loops'[d].breaks == bs + [p + 1];
      } else {
        assert loops'[d].breaks == cs;
      }
    }
  }

  /** pending' is pending without the first n breaks of the loop at depth d. */
  ghost predicate Released(pending: map<int, Tag>, pending': map<int, Tag>, d: nat, n: nat) {
    (forall q {:trigger pending'[q]} {:trigger pending[q]} ::
      (q in pending') == (q in pending && !(pending[q].LoopExit? && pending[q].depth == d && pending[q].entry < n))) &&
    (forall q {:trigger pending'[q]} :: q in pending' ==> q in pending && pending'[q] == pending[q])
  }

  lemma ReleasedOne(pending: map<int, Tag>, pending': map<int, Tag>, bs: seq<nat>, d: nat, exit: int, n: nat,
                    code: Code)
    requires LoopTracked(bs, d, exit, code, pending) && n < |bs| && Released(pending, pending', d, n)
    ensures Site(bs[n]) in pending' && Released(pending, pending' - {Site(bs[n])}, d, n + 1)
  {
    assert BreakAt(bs[n], LoopExit(d, n), exit, code, pending);
    assert pending[Site(bs[n])] == LoopExit(d, n);
  }

  lemma ReleasedNone(pending: map<int, Tag>, d: nat)
    ensures Released(pending, pending, d, 0)
  {
  }

  lemma TopTracked(loops: seq<LoopCtx>, exits: seq<Position>, code: Code, pending: map<int, Tag>)
    requires LoopsTracked(loops, exits, code, pending) && |loops| > 0
    ensures |exits| == |loops| && LoopTracked(loops[|loops| - 1].breaks, |loops| - 1, exits[|loops| - 1], code, pending)
  {
  }

  lemma BreakSite(bs: seq<nat>, d: nat, exit: int, code: Code, pending: map<int, Tag>, i: nat)
    requires LoopTracked(bs, d, exit, code, pending) && i < |bs|
    ensures Here(code, Site(bs[i]), Jmp(RelTo(bs[i] + 4, exit)))
  {
    hide RelTo;
    assert BreakAt(bs[i], LoopExit(d, i), exit, code, pending);
  }

  /** pending' is pending without the breaks of the loop at depth d. */
  ghost predicate Dropped(pending: map<int, Tag>, pending': map<int, Tag>, d: nat) {
    (forall q {:trigger pending'[q]} {:trigger pending[q]} ::
      (q in pending') == (q in pending && !(pending[q].LoopExit? && pending[q].depth == d))) &&
    (forall q {:trigger pending'[q]} :: q in pending' ==> q in pending && pending'[q] == pending[q])
  }

  lemma ReleasedAll(bs: seq<nat>, d: nat, exit: int, code: Code, pending: map<int, Tag>, pending': map<int, Tag>)
    requires LoopTracked(bs, d, exit, code, pending) && Released(pending, pending', d, |bs|)
    ensures Dropped(pending, pending', d)
  {
  }

  /** Without its breaks, the innermost loop can be closed. */
  lemma LoopClosed(loops: seq<LoopCtx>, exits: seq<Position>, code: Code, pending: map<int, Tag>,
                   pending': map<int, Tag>)
    requires LoopsTracked(loops, exits, code, pending) && |loops| > 0
    requires Dropped(pending, pending', |loops| - 1)
    ensures LoopsTracked(loops[..|loops| - 1], exits[..|loops| - 1], code, pending')
    ensures SameKind(code, pending, code, pending', 2) && SameKind(code, pending, code, pending', 3)
    ensures forall q :: q in pending' && pending'[q].LoopExit? ==> pending'[q].depth + 1 < |loops|
  {
    var top := |loops| - 1;
    assert LoopTracked(loops[top].breaks, top, exits[top], code, pending);
    forall d | 0 <= d < top ensures LoopTracked(loops[d].breaks, d, exits[d], code, pending') {
      var bs := loops[d].breaks;
      assert LoopTracked(bs, d, exits[d], code, pending);
      forall i | 0 <= i < |bs| ensures BreakAt(bs[i], LoopExit(d, i), exits[d], code, pending') {
        assert BreakAt(bs[i], LoopExit(d, i), exits[d], code, pending);
        assert pending[Site(bs[i])] == LoopExit(d, i);
      }
    }
    forall q | q in pending' && pending'[q].LoopExit? ensures pending'[q].depth < top {
      assert pending[q].depth < |loops|;
    }
  }

  // ---- what one construct may do to the code and to what is pending -----------------

  datatype Snap = Snap(code: Code, pos: int, pending: map<int, Tag>)

  /** Nothing but holes of the current construct became pending or stopped being so. */
  ghost predicate SameKinds(a: Snap, b: Snap) {
    SameKind(a.code, a.pending, b.code, b.pending, 1) && SameKind(a.code, a.pending, b.code, b.pending, 2) &&
    SameKind(a.code, a.pending, b.code, b.pending, 3)
  }

  /** From a to b code was added at a.pos and above.  Below a.pos nothing became
      pending or stopped being so; above, holes are the operands the construct will
      patch itself, and all else that is pending belongs to the innermost loop or to
      a final pass. */
  ghost predicate Progress(a: Snap, b: Snap, depth: nat, holes: set<int>) {
    a.pos <= b.pos && Grown(a.code, b.code) &&
    (forall q {:trigger b.pending[q]} {:trigger a.pending[q]} :: q < a.pos ==> (q in a.pending) == (q in b.pending)) &&
    (forall q {:trigger b.pending[q]} {:trigger a.pending[q]} ::
      q < a.pos && q in a.pending ==> q in b.pending && b.pending[q] == a.pending[q]) &&
    (forall q :: q in holes ==> a.pos <= q < b.pos && q in b.pending && b.pending[q] == Local) &&
    (forall q {:trigger b.pending[q]} :: q in b.pending && q >= a.pos ==> q in holes || Outgoing(b.pending[q], depth))
  }

  predicate Outgoing(t: Tag, depth: nat) {
    !t.Local? && (t.LoopExit? ==> t.depth + 1 == depth)
  }

  lemma Onwards(a: Snap, b: Snap, c: Snap, depth: nat, holes: set<int>)
    requires Progress(a, b, depth, holes) && Progress(b, c, depth, {})
    ensures Progress(a, c, depth, holes)
  {
    forall q | q in c.pending && q >= a.pos ensures q in holes || Outgoing(c.pending[q], depth) {
      if q < b.pos {
        assert q in b.pending && b.pending[q] == c.pending[q];
      }
    }
    forall q | q < a.pos
      ensures (q in a.pending) == (q in c.pending)
      ensures q in a.pending ==> q in c.pending && c.pending[q] == a.pending[q]
    {
      assert q in a.pending ==> b.pending[q] == a.pending[q];
      assert q in c.pending ==> c.pending[q] == b.pending[q];
    }
    forall q | q in holes ensures q in c.pending && c.pending[q] == Local {
      assert b.pending[q] == Local;
    }
  }

  /** Code was emitted at the end and nothing became pending. */
  lemma Emitted(a: Snap, b: Snap, i: Instr, depth: nat)
    requires b.code == a.code[a.pos := i] && a.pos !in a.code && b.pending == a.pending && b.pos == a.pos + Size(i)
    requires forall q :: q in a.pending ==> q < a.pos
    ensures Progress(a, b, depth, {}) && SameKinds(a, b)
  {
  }

  /** The same, but the operand is a hole of the emitting construct. */
  lemma Opened(a: Snap, b: Snap, i: Instr, depth: nat)
    requires b.code == a.code[a.pos := i] && a.pos !in a.code && b.pending == a.pending[a.pos := Local] &&
      b.pos == a.pos + Size(i)
    requires forall q :: q in a.pending ==> q < a.pos
    ensures Progress(a, b, depth, {a.pos}) && SameKinds(a, b)
  {
  }

  /** The same, but the operand will be patched by a loop exit or a final pass. */
  lemma Deferred(a: Snap, b: Snap, i: Instr, t: Tag, depth: nat)
    requires b.code == a.code[a.pos := i] && a.pos !in a.code && b.pending == a.pending[a.pos := t] &&
      b.pos == a.pos + Size(i)
    requires forall q :: q in a.pending ==> q < a.pos
    requires Outgoing(t, depth)
    ensures Progress(a, b, depth, {})
  {
  }

  /** A break of the innermost loop joins its list; other tables are not affected. */
  lemma BreakMade(loops: seq<LoopCtx>, exits: seq<Position>, a: Snap, b: Snap)
    requires LoopsTracked(loops, exits, a.code, a.pending) && |loops| > 0 && a.pos >= 0 && a.pos !in a.code
    requires forall q :: q in a.pending ==> q < a.pos
    requires var d := |loops| - 1;
      b == Snap(a.code[a.pos := Jmp(RelTo(a.pos + 5, exits[d]))], a.pos + 5,
        a.pending[a.pos := LoopExit(d, |loops[d].breaks|)])
    ensures Progress(a, b, |loops|, {})
    ensures SameKind(a.code, a.pending, b.code, b.pending, 2) && SameKind(a.code, a.pending, b.code, b.pending, 3)
    ensures var d := |loops| - 1;
      LoopsTracked(loops[d := loops[d].(breaks := loops[d].breaks + [a.pos + 1])], exits, b.code, b.pending)
  {
    hide LoopsTracked, SameKind, Progress, RelTo;
    TopTracked(loops, exits, a.code, a.pending);
    var d := |loops| - 1;
    var i, t := Jmp(RelTo(a.pos + 5, exits[d])), LoopExit(d, |loops[d].breaks|);
    Deferred(a, b, i, t, |loops|);
    OtherKinds(a.code, a.pending, a.pos, i, t);
    BreakAdded(loops, exits, a.code, a.pending, a.pos);
  }

  /** Two stretches of code, each with holes of its own. */
  lemma Joined(a: Snap, b: Snap, c: Snap, depth: nat, h1: set<int>, h2: set<int>)
    requires Progress(a, b, depth, h1) && Progress(b, c, depth, h2)
    ensures Progress(a, c, depth, h1 + h2)
  {
    forall q | q in c.pending && q >= a.pos ensures q in h1 + h2 || Outgoing(c.pending[q], depth) {
      if q < b.pos {
        assert q in b.pending && b.pending[q] == c.pending[q];
      }
    }
    forall q | q < a.pos
      ensures (q in a.pending) == (q in c.pending)
      ensures q in a.pending ==> q in c.pending && c.pending[q] == a.pending[q]
    {
      assert q in a.pending ==> b.pending[q] == a.pending[q];
      assert q in c.pending ==> c.pending[q] == b.pending[q];
    }
    forall q | q in h1 + h2 ensures a.pos <= q < c.pos && q in c.pending && c.pending[q] == Local {
      if q in h1 {
        assert b.pending[q] == Local;
      }
    }
  }

  lemma OpenedMore(a: Snap, b: Snap, c: Snap, depth: nat, holes: set<int>)
    requires Progress(a, b, depth, holes) && Progress(b, c, depth, {b.pos})
    ensures Progress(a, c, depth, holes + {b.pos})
  {
    hide Progress;
    Joined(a, b, c, depth, holes, {b.pos});
  }

  lemma Filled(b: Snap, c: Snap, q: int)
    requires q in b.pending && b.pending[q] == Local && c == b.(pending := b.pending - {q})
    ensures SameKinds(b, c)
  {
  }

  lemma Closed(a: Snap, b: Snap, c: Snap, depth: nat, holes: set<int>, q: int)
    requires Progress(a, b, depth, holes) && q in holes
    requires c == b.(pending := b.pending - {q})
    ensures Progress(a, c, depth, holes - {q})
  {
  }

  /** What was emitted before is still there. */
  lemma Extends(b: Snap, c: Snap, depth: nat, holes: set<int>)
    requires Progress(b, c, depth, holes)
    ensures Grown(b.code, c.code)
    ensures forall p, i {:trigger Here(c.code, p, i)} :: Here(b.code, p, i) ==> Here(c.code, p, i)
  {
  }

  /** Seen from outside, a closed loop is progress like any other. */
  lemma LoopPassed(a: Snap, b: Snap, c: Snap, depth: nat, holes: set<int>)
    requires Progress(a, b, depth + 1, holes) && c.code == b.code && c.pos == b.pos
    requires Dropped(b.pending, c.pending, depth)
    requires forall q {:trigger a.pending[q]} :: q in a.pending && a.pending[q].LoopExit? ==> a.pending[q].depth < depth
    ensures Progress(a, c, depth, holes)
  {
    forall q | q < a.pos
      ensures (q in a.pending) == (q in c.pending)
      ensures q in a.pending ==> q in c.pending && c.pending[q] == a.pending[q]
    {
      assert q in a.pending ==> b.pending[q] == a.pending[q];
      assert q in b.pending ==> a.pending[q] == b.pending[q];
    }
    forall q | q in holes ensures q in c.pending && c.pending[q] == Local {
      assert b.pending[q] == Local;
    }
    forall q | q in c.pending && q >= a.pos ensures q in holes || Outgoing(c.pending[q], depth) {
      assert b.pending[q] == c.pending[q];
    }
  }

  /** A whole loop: test with hole q, body one level deeper, exit filled, breaks dropped. */
  lemma LoopDone(b: Snap, c: Snap, g: Snap, h: Snap, depth: nat, q: int)
    requires Progress(b, c, depth, {q}) && Progress(c, g, depth + 1, {})
    requires h.code == g.code && h.pos == g.pos && Dropped(g.pending - {q}, h.pending, depth)
    requires forall r {:trigger c.pending[r]} :: r in c.pending && c.pending[r].LoopExit? ==> c.pending[r].depth < depth
    ensures Progress(b, h, depth, {})
  {
    assert q in {q};
    forall r | r < b.pos
      ensures (r in b.pending) == (r in h.pending)
      ensures r in b.pending ==> r in h.pending && h.pending[r] == b.pending[r]
    {
      assert r in b.pending ==>
        c.pending[r] == b.pending[r] && g.pending[r] == c.pending[r] && (g.pending - {q})[r] == b.pending[r];
      assert r in h.pending ==> (g.pending - {q})[r] == h.pending[r];
      assert r in g.pending ==> c.pending[r] == g.pending[r];
    }
    forall r | r in h.pending && r >= b.pos ensures Outgoing(h.pending[r], depth) {
      assert (g.pending - {q})[r] == h.pending[r] == g.pending[r];
      if r < c.pos {
        assert c.pending[r] == g.pending[r];
      }
    }
  }
}
