/** Running a compiled program from its entry point. */
module Execution {
  import opened Base
  import opened Bindings
  import opened Word
  import opened X86
  import opened Machine
  import opened Source
  import opened Codegen
  import opened Steps
  import opened Simulation
  import opened Correctness
  import opened Rounds
  import opened Emit
  import opened Tables
  import opened Programs
  import opened Link

  function FuncsOf(defs: seq<Def>, n: nat): map<string, Func>
    requires n <= |defs|
  {
    if n == 0 then map[] else FuncsOf(defs, n - 1)[defs[n - 1].name := defs[n - 1].fn]
  }

  function ProgramOf(statics: seq<StaticDef>, defs: seq<Def>): Program {
    Program(|statics|, FuncsOf(defs, |defs|))
  }

  /** The statics when main starts: those with a recorded initialiser are defined. */
  function InitEnv(statics: seq<StaticDef>): (env: Env)
    ensures |env| == |statics|
  {
    seq(|statics|, k requires 0 <= k < |statics| =>
      Entry(statics[k].name, if Recorded(statics, k) then statics[k].init else None))
  }

  /** Frames cover all slots, and no match has more than 33 arms. */
  ghost predicate SoundFrames(defs: seq<Def>) {
    forall i :: 0 <= i < |defs| ==> ListDeep(defs[i].fn.body, 0) + defs[i].fn.frame >= 0 && ListFits(defs[i].fn.body)
  }

  /** Load address and statics fit below 4 GiB, word-aligned. */
  predicate Loadable(base: word, n: nat) {
    base % 4 == 0 && base + 65536 + 4 * n + 8 < W
  }

  function FloorOf(base: word, statics: seq<StaticDef>): int {
    base + 65536 + 4 * |statics|
  }

  function CtxOf(code: Code, base: word, statics: seq<StaticDef>, defs: seq<Def>): Ctx {
    Ctx(Image(base, code), ProgramOf(statics, defs), LabelsOf(defs, |defs|), StaticSyms(statics, base),
      FloorOf(base, statics))
  }

  // ---- a complete image is a good one ----------------------------------------------------

  lemma {:induction false} FuncFound(defs: seq<Def>, n: nat, f: string) returns (i: nat)
    requires n <= |defs| && f in FuncsOf(defs, n)
    ensures i < n && defs[i].name == f && FuncsOf(defs, n)[f] == defs[i].fn
    decreases n
  {
    if f == defs[n - 1].name {
      i := n - 1;
    } else {
      i := FuncFound(defs, n - 1, f);
    }
  }

  lemma {:induction false} AtGrows(defs: seq<Def>, i: nat, n: nat)
    requires i <= n <= |defs|
    ensures 5 <= At(defs, i) <= At(defs, n)
    decreases n
  {
    AtPositive(defs, i);
    if i < n {
      AtGrows(defs, i, n - 1);
    }
  }

  lemma StaticsFit(code: Code, base: word, statics: seq<StaticDef>, defs: seq<Def>)
    requires Loadable(base, |statics|)
    ensures StaticsPlaced(CtxOf(code, base, statics, defs))
    ensures forall k :: 0 <= k < |statics| ==> StaticAddr(base, k) == base + 65536 + 4 * k
  {
    hide LabelsOf, FuncsOf;
    forall k | 0 <= k < |statics|
      ensures StaticAddr(base, k) == base + CODE_MAX + 4 * k && Aligned(StaticAddr(base, k))
    {
    }
  }

  lemma ImageGood(bytes: seq<byte>, code: Code, base: word, statics: seq<StaticDef>, defs: seq<Def>)
    requires ProgramImage(bytes, code, base, statics, defs) && Distinct(defs) && Framed(defs) && SoundFrames(defs)
    requires Loadable(base, |statics|)
    ensures Good(CtxOf(code, base, statics, defs))
  {
    hide FuncCode, LabelsOf, FuncsOf, StartCode, At, TextSize, Texts, LitsOf, StaticSyms, ListDeep, ListFits, Encode,
      StaticsPlaced;
    var c := CtxOf(code, base, statics, defs);
    StaticsFit(code, base, statics, defs);
    forall q | q in code ensures 0 <= q && base + q + 8 < W {
      assert EncodedAt(bytes, q, code[q]);
    }
    forall f | f in c.p.funcs ensures FuncOk(c, f) {
      var i := FuncFound(defs, |defs|, f);
      LabelAt(defs, |defs|, i);
      AtGrows(defs, i, |defs|);
      assert FuncCode(code, At(defs, i), defs[i].fn, StaticSyms(statics, base), c.labels);
      FrameAligned(defs[i].fn.body);
    }
  }

  lemma FrameAligned(body: Stmts)
    ensures FrameSize(body) % 4 == 0
  {
    hide ListOff;
    var n := (-ListOff(body, 0) + 15) / 16;
    assert n * 16 % 4 == 0;
  }

  // ---- initialisers -----------------------------------------------------------------------

  /** Memory after the first n initialisers. */
  function Written(m: Memory, inits: seq<Init>, n: nat): Memory
    requires n <= |inits|
  {
    if n == 0 then m else Written(m, inits, n - 1)[inits[n - 1].addr := inits[n - 1].value]
  }

  ghost predicate InitsBelow(inits: seq<Init>, floor: int) {
    forall k :: 0 <= k < |inits| ==> Aligned(inits[k].addr) && inits[k].addr < floor
  }

  lemma {:induction false} InitsRun(im: Image, s0: State, s: State, p: int, inits: seq<Init>, n: nat) returns (t: State)
    requires Reach(im, s0, s) && s.eip == p && InitsCode(im.code, p, inits, |inits|) && n <= |inits|
    requires InitsBelow(inits, W)
    ensures Reach(im, s0, t) && t == s.(mem := Written(s.mem, inits, n), eip := p + 11 * n, eax := t.eax)
    decreases n
  {
    hide Reach, Step, Aligned;
    t := s;
    if n > 0 {
      t := InitsRun(im, s0, s, p, inits, n - 1);
      var i := inits[n - 1];
      assert InitCode(im.code, p + 11 * (n - 1), i);
      t := SetEax(im, s0, t, i.value);
      t := StoreVar(im, s0, t, Static(i.addr));
    }
  }

  lemma {:induction false} WrittenBelow(m: Memory, inits: seq<Init>, n: nat, floor: int)
    requires n <= |inits| && InitsBelow(inits, floor)
    ensures forall a :: a >= floor ==> Read(Written(m, inits, n), a) == Read(m, a)
    decreases n
  {
    if n > 0 {
      WrittenBelow(m, inits, n - 1, floor);
    }
  }

  lemma {:induction false} WrittenPrefix(m: Memory, inits: seq<Init>, more: seq<Init>, n: nat)
    requires n <= |inits|
    ensures Written(m, inits + more, n) == Written(m, inits, n)
    decreases n
  {
    if n > 0 {
      WrittenPrefix(m, inits, more, n - 1);
    }
  }

  /** Every recorded static holds its initial value. */
  lemma {:induction false} InitsHold(m: Memory, statics: seq<StaticDef>, base: word, n: nat)
    requires Loadable(base, |statics|) && n <= |statics|
    ensures InitsBelow(InitsOf(statics, base, n), base + CODE_MAX + 4 * n)
    ensures var inits := InitsOf(statics, base, n);
      (forall k :: 0 <= k < n && Recorded(statics, k) ==>
        Read(Written(m, inits, |inits|), StaticAddr(base, k)) == statics[k].init.value)
    decreases n
  {
    if n > 0 {
      InitsHold(m, statics, base, n - 1);
      var inits, a := InitsOf(statics, base, n - 1), StaticAddr(base, n - 1);
      assert a == base + CODE_MAX + 4 * (n - 1) && Aligned(a);
      if Recorded(statics, n - 1) {
        var one := [Init(a, statics[n - 1].init.value)];
        WrittenPrefix(m, inits, one, |inits|);
        assert Written(m, inits + one, |inits| + 1) == Written(m, inits, |inits|)[a := statics[n - 1].init.value];
        forall k | 0 <= k < n - 1 ensures StaticAddr(base, k) == base + CODE_MAX + 4 * k {
        }
      } else {
        assert inits + [] == inits;
      }
    }
  }

  // ---- from the entry point to the return --------------------------------------------------

  /** A call of the image's entry point: the return address is on an aligned stack. */
  ghost predicate Entered(base: word, statics: seq<StaticDef>, s: State) {
    s.eip == 0 && s.esp % 4 == 0 && FloorOf(base, statics) <= s.esp - 4 && s.esp + 8 < W
  }

  /** What the caller of the image sees: EAX holds main's value, ESP and EBP are as
      before the call, memory above the statics' floor and the frame is untouched. */
  ghost predicate Left(c: Ctx, r: ERes, s: State, t: State) {
    r.Val? ==>
      t.eip == Read(s.mem, s.esp) - c.im.base && t.eax == r.v && t.esp == s.esp + 4 && t.ebp == s.ebp &&
      Sim(t.mem, r.env, c.statics, s.ebp) && Keeps(s.mem, t.mem, s.esp, c.statics, s.ebp)
  }

  /** The entry code up to the call of main. */
  lemma ReachCall(bytes: seq<byte>, code: Code, base: word, statics: seq<StaticDef>, defs: seq<Def>,
                  s: State) returns (u: State)
    requires ProgramImage(bytes, code, base, statics, defs) && Loadable(base, |statics|) && Entered(base, statics, s)
    ensures var c := CtxOf(code, base, statics, defs);
      Reach(c.im, s, u) && u.esp == s.esp && u.ebp == s.ebp &&
      IsCallTo(code, u.eip, "main", c.labels) && Here(code, u.eip + 5, Ret) &&
      (forall k :: 0 <= k < |statics| && Recorded(statics, k) ==>
        Read(u.mem, StaticAddr(base, k)) == statics[k].init.value) &&
      (forall a :: a >= c.floor ==> Read(u.mem, a) == Read(s.mem, a))
  {
    hide Compiled, LabelsOf, FuncsOf, At, TextSize, Texts, LitsOf, Reach, Step, InitsOf, Encoded, IsJmp, Recorded,
      StaticAddr, StaticSyms, InitsCode, IsCallTo;
    var im := Image(base, code);
    var inits, start := InitsOf(statics, base, |statics|), StartAt(defs);
    InitsHold(s.mem, statics, base, |statics|);
    WrittenBelow(s.mem, inits, |inits|, FloorOf(base, statics));
    Stay(im, s);
    u := Jump(im, s, s, start);
    u := InitsRun(im, s, u, start, inits, |inits|);
  }

  /** ... and to the first instruction of main. */
  lemma ReachMain(bytes: seq<byte>, code: Code, base: word, statics: seq<StaticDef>, defs: seq<Def>,
                  s: State) returns (u: State)
    requires ProgramImage(bytes, code, base, statics, defs) && Loadable(base, |statics|) && Entered(base, statics, s)
    ensures var c := CtxOf(code, base, statics, defs);
      Reach(c.im, s, u) && "main" in c.labels && u.eip == c.labels["main"] && u.esp == s.esp - 4 && u.ebp == s.ebp &&
      Sim(u.mem, InitEnv(statics), c.statics, s.ebp) &&
      (forall a :: a >= s.esp ==> Read(u.mem, a) == Read(s.mem, a)) &&
      Here(code, Read(u.mem, u.esp) - base, Ret)
  {
    hide Compiled, LabelsOf, FuncsOf, At, TextSize, Texts, LitsOf, Reach, Step, InitsOf, Encode, IsJmp, Recorded,
      StaticSyms, StartCode, IsCallTo, Sim, InitEnv;
    var c := CtxOf(code, base, statics, defs);
    var t := ReachCall(bytes, code, base, statics, defs, s);
    assert EncodedAt(bytes, t.eip + 5, Ret);
    u := CallStep(c.im, s, t, "main", c.labels);
    assert base + t.eip + 5 < W;
    forall k | 0 <= k < |statics| ensures StaticAddr(base, k) < c.floor {
    }
    InitsSim(u.mem, statics, base, s.ebp);
  }

  lemma InitsSim(m: Memory, statics: seq<StaticDef>, base: word, ebp: int)
    requires forall k :: 0 <= k < |statics| && Recorded(statics, k) ==>
      Read(m, StaticAddr(base, k)) == statics[k].init.value
    ensures Sim(m, InitEnv(statics), StaticSyms(statics, base), ebp)
  {
    hide Recorded;
  }

  /** The whole program: called at its entry point, the byte image returns main's
      value and leaves the statics as the source semantics says, or faults on a
      division exactly when the source does. */
  lemma ProgramCorrect(bytes: seq<byte>, code: Code, base: word, statics: seq<StaticDef>, defs: seq<Def>, fuel: nat,
                       s: State)
    returns (n: nat, t: State)
    requires ProgramImage(bytes, code, base, statics, defs) && Distinct(defs) && Framed(defs) && SoundFrames(defs)
    requires Loadable(base, |statics|) && Entered(base, statics, s)
    requires Room(CtxOf(code, base, statics, defs), s.esp,
      Invoke(ProgramOf(statics, defs), fuel, "main", [], InitEnv(statics)))
    ensures var r := Invoke(ProgramOf(statics, defs), fuel, "main", [], InitEnv(statics));
      ByteRuns(base, bytes, s, n, t) && Left(CtxOf(code, base, statics, defs), r, s, t) &&
      (r.Fault? ==> ByteStep(base, bytes, t) == DivideFault) && (r.Timeout? ==> n >= r.rounds)
  {
    hide ProgramImage, Good, LabelsOf, FuncsOf, Step, Invoke, StaticSyms, InitEnv, Runs, ByteRuns, ByteStep, Sim, Keeps,
      Lasts;
    var c := CtxOf(code, base, statics, defs);
    var r := Invoke(c.p, fuel, "main", [], InitEnv(statics));
    ImageGood(bytes, code, base, statics, defs);
    var u := ReachMain(bytes, code, base, statics, defs, s);
    t := InvokeCorrect(c, fuel, "main", [], InitEnv(statics), u);
    Then(c.im, s, u, t);
    if r.Timeout? {
      n, t := LongRun(c.im, s, t, r.rounds);
    } else {
      if r.Val? {
        StaticsFit(code, base, statics, defs);
        t := BackToCaller(c, r, s, u, t);
      }
      n :| Runs(c.im, s, n, t);
    }
    Fetched(bytes, c, base, statics, defs, s, n, t);
  }

  lemma BackToCaller(c: Ctx, r: ERes, s: State, u: State, v: State) returns (t: State)
    requires r.Val? && CallDone(c, r, 0, u, v) && Reach(c.im, s, v) && StaticsPlaced(c) && c.floor <= s.esp
    requires u.esp == s.esp - 4 && u.ebp == s.ebp && s.esp % 4 == 0 && s.esp + 8 < W &&
      Here(c.im.code, Read(u.mem, u.esp) - c.im.base, Ret)
    requires forall a :: a >= s.esp ==> Read(u.mem, a) == Read(s.mem, a)
    ensures Reach(c.im, s, t) && Left(c, r, s, t)
  {
    hide Reach, Step;
    assert !IsVar(s.esp, c.statics, s.ebp);
    assert Read(v.mem, s.esp) == Read(s.mem, s.esp);
    t := v.(esp := s.esp + 4, eip := Read(v.mem, s.esp) - c.im.base);
    Go(c.im, s, v, Ret, t);
    forall a | a >= s.esp && !IsVar(a, c.statics, s.ebp) ensures Read(t.mem, a) == Read(s.mem, a) {
      assert Read(v.mem, a) == Read(u.mem, a);
    }
  }

  lemma Fetched(bytes: seq<byte>, c: Ctx, base: word, statics: seq<StaticDef>, defs: seq<Def>, s: State, n: nat,
                t: State)
    requires ProgramImage(bytes, c.im.code, base, statics, defs) && c.im.base == base && Runs(c.im, s, n, t)
    ensures ByteRuns(base, bytes, s, n, t)
    ensures Step(c.im, t) == DivideFault ==> ByteStep(base, bytes, t) == DivideFault
  {
    hide Runs, ByteRuns, Exec, Decode, Compiled, StartCode;
    BytesRefine(c.im, bytes, s, n, t);
    if t.eip in c.im.code {
      FetchAgrees(c.im, bytes, t);
    }
  }

  // ---- compiler and machine together ----------------------------------------------------------

  /** Called in state s, the bytes run as a program with outcome r does. */
  ghost predicate Behaves(bytes: seq<byte>, base: word, statics: seq<StaticDef>, r: ERes, s: State) {
    exists n: nat, t: State ::
      ByteRuns(base, bytes, s, n, t) && Left(CtxOf(map[], base, statics, []), r, s, t) &&
      (r.Fault? ==> ByteStep(base, bytes, t) == DivideFault) && (r.Timeout? ==> n >= r.rounds)
  }

  ghost predicate Means(bytes: seq<byte>, base: word, statics: seq<StaticDef>, defs: seq<Def>) {
    forall fuel: nat, s: State ::
      var r := Invoke(ProgramOf(statics, defs), fuel, "main", [], InitEnv(statics));
      Entered(base, statics, s) && Room(CtxOf(map[], base, statics, []), s.esp, r) ==>
        Behaves(bytes, base, statics, r, s)
  }

  /** A program that does not end: whatever the fuel, the source runs out of it, and never needs more
      stack than there is. */
  ghost predicate Endless(base: word, statics: seq<StaticDef>, defs: seq<Def>, s: State) {
    forall fuel: nat ::
      var r := Invoke(ProgramOf(statics, defs), fuel, "main", [], InitEnv(statics));
      r.Timeout? && Room(CtxOf(map[], base, statics, []), s.esp, r)
  }

  /** The bytes of such a program run for ever. */
  lemma RunsForEver(bytes: seq<byte>, base: word, statics: seq<StaticDef>, defs: seq<Def>, s: State, n: nat)
    returns (t: State)
    requires Means(bytes, base, statics, defs) && Entered(base, statics, s) && Endless(base, statics, defs, s)
    ensures ByteRuns(base, bytes, s, n, t)
  {
    hide Invoke, Entered, Room, ByteRuns, ByteStep, Left;
    var r := Invoke(ProgramOf(statics, defs), n, "main", [], InitEnv(statics));
    InvokeSpends(ProgramOf(statics, defs), n, "main", [], InitEnv(statics));
    assert Behaves(bytes, base, statics, r, s);
    var m: nat, u: State :| ByteRuns(base, bytes, s, m, u) && m >= r.rounds;
    t := ByteRunsFewer(base, bytes, s, m, u, n);
  }

  /** The statics with the values the program gives them. */
  function Declared(statics: seq<StaticDef>): Env {
    seq(|statics|, k requires 0 <= k < |statics| => Entry(statics[k].name, statics[k].init))
  }

  /** A program starts with them exactly when it initialises at most 128. */
  lemma DeclaredEnv(statics: seq<StaticDef>)
    ensures InitEnv(statics) == Declared(statics) <==> InitCount(statics, |statics|) <= 128
  {
    hide Recorded, InitCount;
    AllRecorded(statics, |statics|);
    if InitEnv(statics) == Declared(statics) {
      forall k | 0 <= k < |statics| && statics[k].init.Some? ensures Recorded(statics, k) {
        assert InitEnv(statics)[k] == Declared(statics)[k];
      }
    }
  }

  /** Every acceptable program is compiled, and its bytes do what it means wherever they
      are called with enough stack.  They start from the declared values of the statics exactly
      when at most 128 of them have one. */
  method Translate(base: word, statics: seq<StaticDef>, defs: seq<Def>) returns (bytes: seq<byte>, ok: bool)
    requires Framed(defs) && Distinct(defs) && Linked(LitsOf(defs, |defs|), base, At(defs, |defs|))
    ensures Acceptable(base, statics, defs) ==> ok
    ensures InitEnv(statics) == Declared(statics) <==> InitCount(statics, |statics|) <= 128
    ensures var room := 225 - |statics|;
      ok && 0 <= room && Plain(statics, defs) && Fits(defs, room) && SoundFrames(defs) && Loadable(base, |statics|) ==>
        Means(bytes, base, statics, defs)
  {
    hide ProgramImage, Acceptable, Plain, Fits, Means, SoundFrames, Linked, At, LitsOf;
    var c;
    DeclaredEnv(statics);
    c, ok := CompileProgram(base, statics, defs);
    bytes := if c.out.pos <= c.out.buf.Length then c.out.buf[..c.out.pos] else [];
    if ok && c.out.sound && Plain(statics, defs) && SoundFrames(defs) && Loadable(base, |statics|) {
      ImageMeans(bytes, c.out.code, base, statics, defs);
    }
  }

  lemma ImageMeans(bytes: seq<byte>, code: Code, base: word, statics: seq<StaticDef>, defs: seq<Def>)
    requires ProgramImage(bytes, code, base, statics, defs) && Distinct(defs) && Framed(defs) && SoundFrames(defs) &&
      Loadable(base, |statics|)
    ensures Means(bytes, base, statics, defs)
  {
    hide ProgramImage, Framed, Distinct, SoundFrames, Invoke, Entered, ByteRuns, ByteStep, Sim, Keeps, FuncsOf,
      LabelsOf, StaticSyms, InitEnv;
    forall fuel: nat, s: State | Entered(base, statics, s) &&
        Room(CtxOf(map[], base, statics, []), s.esp,
          Invoke(ProgramOf(statics, defs), fuel, "main", [], InitEnv(statics)))
      ensures Behaves(bytes, base, statics, Invoke(ProgramOf(statics, defs), fuel, "main", [], InitEnv(statics)), s)
    {
      var n, t := ProgramCorrect(bytes, code, base, statics, defs, fuel, s);
      assert ByteRuns(base, bytes, s, n, t);
    }
  }
}
