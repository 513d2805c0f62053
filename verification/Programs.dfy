/** Whole programs (parse_function and parse_program in src/rc/parse.rs). */
module Programs {
  import opened Base
  import opened Bindings
  import opened Word
  import opened X86
  import opened Source
  import opened Codegen
  import opened Emit
  import opened Layout
  import opened Tables
  import opened Limits
  import opened Parse

  datatype Def = Def(name: string, fn: Func)

  /** Where the n-th function starts: the entry jump takes the first five bytes. */
  function At(defs: seq<Def>, n: nat): int
    requires n <= |defs|
  {
    if n == 0 then 5 else At(defs, n - 1) + FuncSize(defs[n - 1].fn)
  }

  function LabelsOf(defs: seq<Def>, n: nat): Labels
    requires n <= |defs|
  {
    if n == 0 then map[] else LabelsOf(defs, n - 1)[defs[n - 1].name := Cap(At(defs, n - 1))]
  }

  function LitsOf(defs: seq<Def>, n: nat): seq<Lit>
    requires n <= |defs|
  {
    if n == 0 then [] else LitsOf(defs, n - 1) + ListLits(defs[n - 1].fn.body)
  }

  ghost predicate Distinct(defs: seq<Def>) {
    forall i, j :: 0 <= i < j < |defs| ==> defs[i].name != defs[j].name
  }

  function FunctionNames(defs: seq<Def>): set<string> {
    set i | 0 <= i < |defs| :: defs[i].name
  }

  /** The frame a function reserves is the one its body's locals call for. */
  ghost predicate Framed(defs: seq<Def>) {
    forall i :: 0 <= i < |defs| ==> defs[i].fn.frame == FrameSize(defs[i].fn.body)
  }

  lemma {:induction false} LabelAt(defs: seq<Def>, n: nat, i: nat)
    requires Distinct(defs) && i < n <= |defs|
    ensures defs[i].name in LabelsOf(defs, n) && LabelsOf(defs, n)[defs[i].name] == Cap(At(defs, i))
    decreases n
  {
    if i < n - 1 {
      LabelAt(defs, n - 1, i);
    }
  }

  lemma {:induction false} LabelsNamed(defs: seq<Def>, n: nat, f: string)
    requires n <= |defs| && f in LabelsOf(defs, n)
    ensures exists i :: 0 <= i < n && defs[i].name == f
    decreases n
  {
    if f != defs[n - 1].name {
      LabelsNamed(defs, n - 1, f);
    }
  }

  lemma {:induction false} LabelsInBuffer(defs: seq<Def>, n: nat)
    requires n <= |defs|
    ensures forall f :: f in LabelsOf(defs, n) ==> 0 <= LabelsOf(defs, n)[f] <= CODE_MAX
    decreases n
  {
    if n > 0 {
      LabelsInBuffer(defs, n - 1);
    }
  }

  // ---- one function -----------------------------------------------------------------

  /** The capacity a function needs from the compiler's tables. */
  predicate FuncIn(fn: Func, room: int) {
    1 + |fn.params| <= room && ListHeld(fn.body, 0, room - 1 - |fn.params|, 0, 0)
  }

  /** All names in a function are in scope. */
  predicate FuncNamed(fn: Func, statics: Symbols, labels: Labels) {
    ListNamed(fn.body, statics + ParamSyms(fn.params), 0, 0, labels)
  }

  /** Add the function to the symbol table, at the current position. */
  method AddFunction(c: Compiler, f: string)
    requires c.Valid() && (c.Clean() ==> f in c.labels && c.labels[f] == c.out.pos)
    modifies c`known, c.out`sound
    ensures c.Valid() && c.Kept(old(c.SymRoom() >= 1), true, 0, 0, 0)
    ensures c.Clean() ==> old(c.Clean()) && c.known == old(c.known)[f := c.out.pos]
    ensures c.Clean() && f !in old(c.known) ==> |c.known| == |old(c.known)| + 1
  {
    hide LoopsTracked, FixupsTracked, StringsTracked, Laid;
    if |c.syms| + |c.known| + BUILTINS < MAX_SYMBOLS {
      c.known := c.known[f := c.out.pos];
    } else {
      c.out.sound := false;
    }
  }

  method AddParams(c: Compiler, params: seq<string>)
    requires c.Valid()
    modifies c`syms, c.out`sound
    ensures c.Valid() && c.Kept(old(|params| > 0 ==> c.SymRoom() >= |params|), true, 0, 0, 0)
    ensures c.Clean() ==> old(c.Clean()) && c.syms == old(c.syms) + ParamSyms(params)
  {
    hide c.Valid, Stays, Faithful, Takes, c.Use;
    ghost var u := c.Use();
    Still(u);
    var k := 0;
    while k < |params|
      invariant k <= |params| && c.Valid() && c.Kept(old(k > 0 ==> c.SymRoom() >= k), true, 0, 0, 0)
      invariant c.Clean() ==> old(c.Clean()) && c.syms == old(c.syms) + ParamSyms(params)[..k] && k <= MAX_SYMBOLS
    {
      ghost var v := c.Use();
      c.AddSym(params[k], Slot(8 + 4 * k));
      Chained(u, v, c.Use(), 0, 0, 0, 0, 0, 0);
      k := k + 1;
      assert ParamSyms(params)[..k] == ParamSyms(params)[..k - 1] + [Entry(params[k - 1], Slot(8 + 4 * (k - 1)))];
    }
    assert ParamSyms(params)[..k] == ParamSyms(params);
  }

  /** push ebp; mov ebp, esp; sub esp, frame: the frame is filled in at the end. */
  method PutPrologue(c: Compiler, ghost frame: word) returns (j: nat)
    requires c.Valid()
    modifies c.out`pos, c.out`overflow, c.out`code, c.out`pending, c.out`sound, c.out.buf
    ensures c.Valid() && c.Fed(9)
    ensures var p := old(c.out.pos);
      c.Clean() ==>
        old(c.Clean()) && Progress(old(c.Now()), c.Now(), |c.loops|, {p + 3}) && c.out.pos == p + 9 && j == p + 5 &&
        Here(c.out.code, p, Push(EBP)) && Here(c.out.code, p + 1, Rr(AluMov, EBP, ESP)) &&
        Here(c.out.code, p + 3, SubEsp(frame))
  {
    hide c.Valid, Progress, Here, Stays, Faithful, Takes, Callable, c.Use;
    ghost var a, u := c.Now(), c.Use();
    c.Put2(Push(EBP), Rr(AluMov, EBP, ESP));
    ghost var b, v := c.Now(), c.Use();
    j := c.PutHole(SubEsp(frame), SubEsp(0));
    Chained(u, v, c.Use(), 0, 0, 3, 0, 0, 6);
    if c.Clean() {
      OpenedMore(a, b, c.Now(), |c.loops|, {});
      assert {} + {b.pos} == {b.pos};
      Extends(b, c.Now(), |c.loops|, {b.pos});
    }
  }

  /** The value returned when the body falls off its end, and the epilogue. */
  method PutEnd(c: Compiler)
    requires c.Valid()
    modifies c.out`pos, c.out`overflow, c.out`code, c.out`pending, c.out`sound, c.out.buf
    ensures c.Valid() && c.Fed(9)
    ensures var p := old(c.out.pos);
      c.Clean() ==>
        old(c.Clean()) && Progress(old(c.Now()), c.Now(), |c.loops|, {}) && c.out.pos == p + 9 &&
        Here(c.out.code, p, MovImm(EAX, 0)) && EpilogueCode(c.out.code, p + 5)
  {
    hide c.Valid, Progress, Here, EpilogueCode, Stays, Faithful, Takes, Callable, c.Use;
    ghost var a, u := c.Now(), c.Use();
    c.Put(MovImm(EAX, 0));
    ghost var b, v := c.Now(), c.Use();
    c.PutEpilogue();
    Chained(u, v, c.Use(), 0, 0, 5, 0, 0, 4);
    if c.Clean() {
      Onwards(a, b, c.Now(), |c.loops|, {});
      Extends(b, c.Now(), |c.loops|, {});
    }
  }

  /** Prologue, body and epilogue, and at last the frame size. */
  method PutFunction(c: Compiler, fn: Func)
    requires c.Valid() && (c.Clean() ==> c.loops == [] && c.exits == []) && fn.frame == FrameSize(fn.body) &&
      c.localOffset == 0
    modifies c`syms, c`localOffset, c`loops, c`exits, c`fixups, c`strings, c`hadError, c`lits,
      c.out`pos, c.out`overflow, c.out`code, c.out`pending, c.out`sound, c.out.buf
    ensures c.Valid() && c.Kept(old(c.ListFit(fn.body)), old(c.ListGood(fn.body)), ListCalls(fn.body),
      |ListLits(fn.body)|, FuncSize(fn))
    ensures c.Clean() ==>
      old(c.Clean()) && Progress(old(c.Now()), c.Now(), 0, {}) && c.lits == old(c.lits) + ListLits(fn.body) &&
      BodyCode(c.out.code, old(c.out.pos), fn, old(c.syms), c.labels) && c.out.pos == old(c.out.pos) + FuncSize(fn) &&
      c.syms == old(c.syms) && c.loops == [] && c.exits == []
  {
    hide c.Valid, Progress, Here, EpilogueCode, ListCode, ListOff, ListDeep, ListHeld, ListNamed, ListCalls, ListLits,
      ListSize, ListBreaks, MoreBreaks, Grown, IsSubEsp, Stays, Faithful, Takes, Callable, c.ListFit, c.ListGood, c.Use,
      c.Clean;
    ghost var a, u0 := c.Now(), c.Use();
    ghost var frame := Wrap(fn.frame);
    var j := PutPrologue(c, frame);
    ghost var b, u1 := c.Now(), c.Use();
    PutBody(c, fn.body);
    ghost var u2 := c.Use();
    c.InBuffer();
    if c.Clean() {
      Extends(b, c.Now(), 0, {});
      HereGrown(b.code, c.out.code, a.pos, Push(EBP));
      HereGrown(b.code, c.out.code, a.pos + 1, Rr(AluMov, EBP, ESP));
      HereGrown(b.code, c.out.code, a.pos + 3, SubEsp(frame));
    }
    FillHole(c, j, Wrap((-c.localOffset + 15) / 16 * 16), a, b, a.pos + 3, SubEsp(frame));
    ChainedAndDone(u0, u1, u2, c.Use(), 0, 0, 9, ListCalls(fn.body), |ListLits(fn.body)|, ListSize(fn.body) + 9);
    if c.Clean() {
      FrameReserved(c.out.code, a.pos + 3, fn);
    }
  }

  /** The body of a function, and its end. */
  method PutBody(c: Compiler, body: Stmts)
    requires c.Valid() && (c.Clean() ==> c.loops == [] && c.exits == []) && c.localOffset == 0
    modifies c`syms, c`localOffset, c`loops, c`exits, c`fixups, c`strings, c`hadError, c`lits,
      c.out`pos, c.out`overflow, c.out`code, c.out`pending, c.out`sound, c.out.buf
    ensures c.Valid() && c.Kept(old(c.ListFit(body)), old(c.ListGood(body)), ListCalls(body), |ListLits(body)|,
      ListSize(body) + 9)
    ensures var p := old(c.out.pos);
      var end := p + ListSize(body);
      c.Clean() ==>
        old(c.Clean()) && Progress(old(c.Now()), c.Now(), 0, {}) && c.lits == old(c.lits) + ListLits(body) &&
        c.out.pos == end + 9 &&
        ListCode(c.out.code, p, body, old(c.syms), 0, None, None, c.labels) &&
        Here(c.out.code, end, MovImm(EAX, 0)) && EpilogueCode(c.out.code, end + 5) &&
        c.syms == old(c.syms) && c.localOffset == ListOff(body, 0) && c.loops == [] && c.exits == []
  {
    hide c.Valid, Progress, Here, EpilogueCode, ListCode, ListOff, ListDeep, ListHeld, ListNamed, ListCalls, ListLits,
      ListSize, ListBreaks, MoreBreaks, Grown, Stays, Faithful, Takes, Callable, c.ListFit, c.ListGood;
    ghost var a, u := c.Now(), c.Use();
    c.CompileBlock(body);
    ghost var d, v := c.Now(), c.Use();
    if c.Clean() {
      MoreSame([], c.loops, ListBreaks(body));
    }
    PutEnd(c);
    Chained(u, v, c.Use(), ListCalls(body), |ListLits(body)|, ListSize(body), 0, 0, 9);
    if c.Clean() {
      Onwards(a, d, c.Now(), 0, {});
      Extends(d, c.Now(), 0, {});
      ListGrown(d.code, c.out.code, a.pos, body, c.syms, 0, None, None, c.labels);
    }
  }

  lemma FrameReserved(code: Code, p: int, fn: Func)
    requires fn.frame == FrameSize(fn.body) && -FAR <= ListOff(fn.body, 0)
    requires Here(code, p, SubEsp(Wrap(fn.frame)))
    ensures IsSubEsp(code, p, fn.frame)
  {
    assert 0 <= fn.frame < W;
  }

  /** Fill the operand at j of the instruction i at q, the only hole from a to b. */
  method FillHole(c: Compiler, j: nat, v: word, ghost a: Snap, ghost b: Snap, ghost q: int, ghost i: Instr)
    requires c.Valid()
    requires c.Clean() ==>
      Progress(a, b, |c.loops|, {q}) && Progress(b, c.Now(), |c.loops|, {}) && q < b.pos && Here(c.out.code, q, i) &&
      j == q + Size(i) - 4 && Patchable(i) && v == OperandOf(i)
    modifies c.out`pending, c.out`sound, c.out.buf
    ensures c.Valid() && c.Fed(0)
    ensures c.Clean() ==> old(c.Clean()) && Progress(a, c.Now(), |c.loops|, {})
  {
    hide c.Valid, Progress, Size;
    ghost var d := c.Now();
    if c.Clean() {
      Onwards(a, b, d, |c.loops|, {q});
      c.HoleOpen(a, d, |c.loops|, {q}, q);
    }
    c.Fill(j, v, q);
    if c.Clean() {
      Closed(a, d, c.Now(), |c.loops|, {q}, q);
      assert {q} - {q} == {};
    }
  }

  /** FuncCode, with the symbols of the parameters given. */
  predicate BodyCode(code: Code, p: int, fn: Func, syms: Symbols, labels: Labels) {
    var end := p + 9 + ListSize(fn.body);
    Here(code, p, Push(EBP)) && Here(code, p + 1, Rr(AluMov, EBP, ESP)) && IsSubEsp(code, p + 3, fn.frame) &&
    ListCode(code, p + 9, fn.body, syms, 0, None, None, labels) &&
    Here(code, end, MovImm(EAX, 0)) && EpilogueCode(code, end + 5)
  }

  /** The symbols of the function and of its parameters, and no locals yet. */
  method EnterFunction(c: Compiler, d: Def)
    requires c.Valid() && (c.Clean() ==> d.name in c.labels && c.labels[d.name] == c.out.pos && d.name !in c.known)
    modifies c`known, c`syms, c`localOffset, c.out`sound
    ensures c.Valid() && c.Kept(old(c.SymRoom() >= 1 + |d.fn.params|), true, 0, 0, 0) && c.localOffset == 0
    ensures c.Clean() ==>
      old(c.Clean()) && c.known == old(c.known)[d.name := c.out.pos] &&
      c.syms == old(c.syms) + ParamSyms(d.fn.params) &&
      c.SymRoom() == old(c.SymRoom()) - 1 - |d.fn.params|
  {
    hide c.Valid, Stays, Faithful, Takes, Callable;
    ghost var u := c.Use();
    AddFunction(c, d.name);
    ghost var v := c.Use();
    AddParams(c, d.fn.params);
    Chained(u, v, c.Use(), 0, 0, 0, 0, 0, 0);
    c.GiveBack(0);
  }

  method CompileFunction(c: Compiler, d: Def)
    requires c.Valid() && d.fn.frame == FrameSize(d.fn.body)
    requires c.Clean() ==>
      c.loops == [] && c.exits == [] && d.name in c.labels && c.labels[d.name] == c.out.pos && d.name !in c.known
    modifies c, c.out`pos, c.out`overflow, c.out`code, c.out`pending, c.out`sound, c.out.buf
    ensures c.Valid() && c.Kept(old(FuncIn(d.fn, c.SymRoom())), old(FuncNamed(d.fn, c.syms, c.labels)),
      ListCalls(d.fn.body), |ListLits(d.fn.body)|, FuncSize(d.fn))
    ensures c.Clean() ==>
      old(c.Clean()) && Progress(old(c.Now()), c.Now(), 0, {}) && c.lits == old(c.lits) + ListLits(d.fn.body) &&
      FuncCode(c.out.code, old(c.out.pos), d.fn, old(c.syms), c.labels) &&
      c.out.pos == old(c.out.pos) + FuncSize(d.fn) &&
      c.syms == old(c.syms) && c.known == old(c.known)[d.name := old(c.out.pos)] && c.loops == [] && c.exits == []
  {
    hide c.Valid, Progress, BodyCode, FuncCode, ListLits, ListCalls, ListHeld, ListNamed, FuncSize, FrameSize,
      ParamSyms, Stays, Faithful, Takes, Callable;
    var n := |c.syms|;
    ghost var u := c.Use();
    EnterFunction(c, d);
    ghost var v := c.Use();
    PutFunction(c, d.fn);
    Chained(u, v, c.Use(), 0, 0, 0, ListCalls(d.fn.body), |ListLits(d.fn.body)|, FuncSize(d.fn));
    c.DropSyms(n);
    if c.Clean() {
      assert (old(c.syms) + ParamSyms(d.fn.params))[..n] == old(c.syms);
      IsFunction(c.out.code, old(c.out.pos), d.fn, old(c.syms), c.labels);
    }
  }

  lemma IsFunction(code: Code, p: int, fn: Func, statics: Symbols, labels: Labels)
    requires BodyCode(code, p, fn, statics + ParamSyms(fn.params), labels)
    ensures FuncCode(code, p, fn, statics, labels)
  {
    hide ListCode, Here, IsSubEsp, EpilogueCode;
  }

  /** All functions of defs up to the n-th are in code. */
  ghost predicate Compiled(code: Code, defs: seq<Def>, n: nat, statics: Symbols, labels: Labels)
    requires n <= |defs|
  {
    forall i :: 0 <= i < n ==> FuncCode(code, At(defs, i), defs[i].fn, statics, labels)
  }

  lemma CompiledMore(code: Code, code': Code, defs: seq<Def>, n: nat, statics: Symbols, labels: Labels)
    requires n < |defs| && Compiled(code, defs, n, statics, labels) && Grown(code, code')
    requires FuncCode(code', At(defs, n), defs[n].fn, statics, labels)
    ensures Compiled(code', defs, n + 1, statics, labels)
  {
    hide FuncCode, Grown, At;
    forall i | 0 <= i < n + 1 ensures FuncCode(code', At(defs, i), defs[i].fn, statics, labels) {
      if i < n {
        FuncGrown(code, code', At(defs, i), defs[i].fn, statics, labels);
      }
    }
  }

  lemma FuncGrown(code: Code, code': Code, p: int, fn: Func, statics: Symbols, labels: Labels)
    requires FuncCode(code, p, fn, statics, labels) && Grown(code, code')
    ensures FuncCode(code', p, fn, statics, labels)
  {
    hide ListCode, ListSize, ParamSyms, EpilogueCode;
    SequencesGrown(code, code');
    AtomsGrown(code, code');
    ListGrown(code, code', p + 9, fn.body, statics + ParamSyms(fn.params), 0, None, None, labels);
  }

  /** The program fits: room is what the statics leave of the symbol table. */
  ghost predicate Fits(defs: seq<Def>, room: int) {
    forall i :: 0 <= i < |defs| ==> FuncIn(defs[i].fn, room - i)
  }

  function CallsOf(defs: seq<Def>, n: nat): nat
    requires n <= |defs|
  {
    if n == 0 then 0 else CallsOf(defs, n - 1) + ListCalls(defs[n - 1].fn.body)
  }

  /** Names are in scope everywhere, and calls, literals and code fit into their tables. */
  ghost predicate WellFormed(defs: seq<Def>, statics: Symbols) {
    (forall i :: 0 <= i < |defs| ==> FuncNamed(defs[i].fn, statics, LabelsOf(defs, |defs|))) &&
    CallsOf(defs, |defs|) <= 256 && |LitsOf(defs, |defs|)| <= 128 && At(defs, |defs|) <= 65536
  }

  lemma {:induction false} Increasing(defs: seq<Def>, n: nat, m: nat)
    requires n <= m <= |defs|
    ensures CallsOf(defs, n) <= CallsOf(defs, m) && |LitsOf(defs, n)| <= |LitsOf(defs, m)| && At(defs, n) <= At(defs, m)
    decreases m
  {
    if n < m {
      Increasing(defs, n, m - 1);
    }
  }

  /** Without errors after the n-th function, and with no more used than that many functions may. */
  ghost predicate Fine(c: Compiler, defs: seq<Def>, n: nat)
    requires n <= |defs|
    reads c, c.out
  {
    !c.Reported() && Callable(c.fixups, c.labels) && |c.fixups| <= CallsOf(defs, n) &&
    |c.strings| <= |LitsOf(defs, n)| &&
    c.out.pos == At(defs, n)
  }

  /** Compile the functions one after the other. */
  method CompileDefs(c: Compiler, defs: seq<Def>)
    requires c.Valid() && Framed(defs) && Distinct(defs) && c.labels == LabelsOf(defs, |defs|)
    requires c.Clean() ==> c.loops == [] && c.exits == [] && c.known == map[] && c.lits == [] && c.out.pos == 5
    modifies c, c.out`pos, c.out`overflow, c.out`code, c.out`pending, c.out`sound, c.out.buf
    ensures c.Valid() && (old(c.Reported()) ==> c.Reported())
    ensures c.Clean() ==> old(c.Clean()) && AfterDefs(c, defs, |defs|, old(c.Now()), old(c.syms))
    ensures old(c.Honest() && Fits(defs, c.SymRoom())) ==> c.Honest()
    ensures c.Clean() ==> old(Fits(defs, c.SymRoom()))
    ensures old(c.out.sound && Fits(defs, c.SymRoom()) && WellFormed(defs, c.syms) && Fine(c, defs, 0)) ==>
      Fine(c, defs, |defs|)
  {
    hide c.Valid, Progress, AfterDefs, FuncIn, FuncNamed, FuncSize, LabelsOf, LitsOf, CallsOf, ListLits, ListCalls, At;
    ghost var a := c.Now();
    ghost var room, statics := c.SymRoom(), c.syms;
    var n := 0;
    if c.Clean() {
      c.Nothing();
      NoDefs(c, defs);
    }
    while n < |defs| && !c.hadError
      invariant n <= |defs| && c.Valid() && (old(c.Reported()) ==> c.Reported())
      invariant c.Clean() ==> old(c.Clean()) && AfterDefs(c, defs, n, a, statics) && c.SymRoom() == room - n
      invariant c.Clean() ==> forall i :: 0 <= i < n ==> FuncIn(defs[i].fn, room - i)
      invariant old(c.Honest()) && Fits(defs, room) ==> c.Honest()
      invariant old(c.out.sound && Fits(defs, c.SymRoom()) && WellFormed(defs, c.syms) && Fine(c, defs, 0)) ==>
        Fine(c, defs, n)
    {
      Next(defs, n);
      CompileDef(c, defs, n, a, statics);
      n := n + 1;
    }
  }

  /** Compile the n-th function. */
  method CompileDef(c: Compiler, defs: seq<Def>, n: nat, ghost a: Snap, ghost statics: Symbols)
    requires c.Valid() && Framed(defs) && Distinct(defs) && c.labels == LabelsOf(defs, |defs|) && n < |defs|
    requires c.Clean() ==> AfterDefs(c, defs, n, a, statics)
    modifies c, c.out`pos, c.out`overflow, c.out`code, c.out`pending, c.out`sound, c.out.buf
    ensures c.Valid() && c.Kept(old(FuncIn(defs[n].fn, c.SymRoom())), FuncNamed(defs[n].fn, statics, c.labels),
      ListCalls(defs[n].fn.body), |ListLits(defs[n].fn.body)|, FuncSize(defs[n].fn))
    ensures c.Clean() ==> old(c.Clean()) && AfterDefs(c, defs, n + 1, a, statics) && c.SymRoom() == old(c.SymRoom()) - 1
  {
    hide c.Valid, Progress, Compiled, FuncCode, ListLits, At, FuncIn, FuncSize, FrameSize;
    ghost var b := c.Now();
    if c.Clean() {
      c.InBuffer();
      LabelAt(defs, |defs|, n);
      NewName(defs, n);
    }
    CompileFunction(c, defs[n]);
    if c.Clean() {
      Onwards(a, b, c.Now(), 0, {});
      Extends(b, c.Now(), 0, {});
      Next(defs, n);
      CompiledMore(b.code, c.out.code, defs, n, statics, c.labels);
    }
  }

  /** The compiler after the n-th function, when it started in state a. */
  ghost predicate AfterDefs(c: Compiler, defs: seq<Def>, n: nat, a: Snap, statics: Symbols)
    requires n <= |defs|
    reads c, c.out
  {
    Progress(a, c.Now(), 0, {}) && c.lits == LitsOf(defs, n) && c.out.pos == At(defs, n) &&
    Compiled(c.out.code, defs, n, statics, c.labels) && c.known == LabelsOf(defs, n) &&
    c.syms == statics && c.loops == [] && c.exits == []
  }

  lemma NoDefs(c: Compiler, defs: seq<Def>)
    requires Progress(c.Now(), c.Now(), |c.loops|, {}) && c.loops == [] && c.exits == [] && c.known == map[] &&
      c.lits == []
    requires c.out.pos == 5
    ensures AfterDefs(c, defs, 0, c.Now(), c.syms)
  {
  }

  lemma Next(defs: seq<Def>, n: nat)
    requires n < |defs|
    ensures At(defs, n + 1) == At(defs, n) + FuncSize(defs[n].fn) <= At(defs, |defs|)
    ensures CallsOf(defs, n + 1) == CallsOf(defs, n) + ListCalls(defs[n].fn.body) <= CallsOf(defs, |defs|)
    ensures |LitsOf(defs, n + 1)| == |LitsOf(defs, n)| + |ListLits(defs[n].fn.body)| <= |LitsOf(defs, |defs|)|
  {
    Increasing(defs, n + 1, |defs|);
  }

  lemma NewName(defs: seq<Def>, n: nat)
    requires Distinct(defs) && n < |defs|
    ensures defs[n].name !in LabelsOf(defs, n)
  {
    if defs[n].name in LabelsOf(defs, n) {
      LabelsNamed(defs, n, defs[n].name);
    }
  }
}
