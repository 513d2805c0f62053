/** Programs that certainly do what they mean: no reliance on undefined values, and enough stack. */
module Guarantee {
  import opened Base
  import opened Bindings
  import opened Word
  import opened Machine
  import opened Source
  import opened Codegen
  import opened Tables
  import opened Limits
  import Scopes
  import opened Programs
  import opened Link
  import opened Execution
  import opened Progress
  import opened StackUse

  /** The names of the statics that have a value when main starts. */
  ghost function Valued(statics: seq<StaticDef>): set<string> {
    set x | x in StaticNames(statics) && ReadVar(InitEnv(statics), x).Some?
  }

  /** Main and everything it may call read only variables with a value, pass the right number of
      arguments, break only out of loops and return values. */
  ghost predicate Complete(statics: seq<StaticDef>, defs: seq<Def>) {
    var p := ProgramOf(statics, defs);
    Meant(p, Valued(statics)) && "main" in p.funcs && p.funcs["main"].params == []
  }

  /** Such a program has a meaning, and with c bytes of stack for every call and loop iteration, c being
      enough for any one function, its bytes do what it means. */
  lemma Guaranteed(bytes: seq<byte>, base: word, statics: seq<StaticDef>, defs: seq<Def>, fuel: nat, c: nat, s: State)
    requires Means(bytes, base, statics, defs) && Entered(base, statics, s) && Complete(statics, defs)
    requires AtMost(ProgramOf(statics, defs), c) && s.esp - (fuel + 1) * c >= base + 65536 + 4 * |statics|
    ensures var r := Invoke(ProgramOf(statics, defs), fuel, "main", [], InitEnv(statics));
      !r.Wrong? && Behaves(bytes, base, statics, r, s)
  {
    hide Invoke, Entered, Behaves, Meant, AtMost, ReadVar, InitEnv;
    var p := ProgramOf(statics, defs);
    assert Knows(InitEnv(statics), Valued(statics));
    InvokeMeant(p, fuel, "main", [], InitEnv(statics), Valued(statics));
    InvokeUses(p, fuel, "main", [], InitEnv(statics), c);
    CallsAre(fuel + 1, c);
  }

  /** fn main() { return w; } */
  function Returning(w: word): seq<Def> {
    var body := SCons(Return(Some(Const(w))), SNil);
    [Def("main", Func([], body, FrameSize(body)))]
  }

  /** There are programs to which all of this applies. */
  lemma Smallest(base: word, w: word)
    ensures Framed(Returning(w)) && Distinct(Returning(w)) && Linked(LitsOf(Returning(w), 1), base, At(Returning(w), 1))
    ensures Acceptable(base, [], Returning(w)) && SoundFrames(Returning(w)) && Complete([], Returning(w))
    ensures AtMost(ProgramOf([], Returning(w)), 8)
    ensures Invoke(ProgramOf([], Returning(w)), 0, "main", [], []) == Val(w, [], 8)
  {
    hide Acceptable, Complete;
    SmallestTables(w);
    SmallestAccepted(base, w);
    SmallestMeant(w);
  }

  lemma OneReturn(w: word, syms: Symbols, labels: Labels)
    ensures var b := Returning(w)[0].fn.body;
      ListLits(b) == [] && ListCalls(b) == 0 && ListDeclares(b) == {} && ListOff(b, 0) == 0 == ListDeep(b, 0) &&
      ListSize(b) <= 100 && ListFits(b) && ListHeld(b, 0, 224, 0, 0) && ListNamed(b, syms, 0, 0, labels)
  {
    assert Returning(w)[0].fn.body.rest == SNil;
  }

  lemma SmallestTables(w: word)
    ensures var d := Returning(w);
      Framed(d) && SoundFrames(d) && LitsOf(d, 1) == [] && CallsOf(d, 1) == 0 && At(d, 1) <= 200 &&
      FuncsOf(d, 1) == map["main" := d[0].fn] && "main" in LabelsOf(d, 1) && StartAt(d) == At(d, 1) &&
      FunctionNames(d) == {"main"}
  {
    hide ListLits, ListCalls, ListDeclares, ListOff, ListDeep, ListSize, ListFits, ListHeld, ListNamed;
    OneReturn(w, [], map[]);
    var d := Returning(w);
    assert LitsOf(d, 0) == [] && CallsOf(d, 0) == 0 && At(d, 0) == 5 && FuncsOf(d, 0) == map[];
  }

  lemma SmallestAccepted(base: word, w: word)
    ensures Acceptable(base, [], Returning(w))
  {
    hide ListLits, ListCalls, ListDeclares, ListOff, ListDeep, ListSize, ListFits, ListHeld, ListNamed, LitsOf, CallsOf,
      At, FuncsOf, LabelsOf, StartAt, Scopes.Builtins, FunctionNames;
    var d := Returning(w);
    SmallestTables(w);
    OneReturn(w, StaticSyms([], base) + ParamSyms([]), LabelsOf(d, 1));
    NotBuiltin();
    assert VisibleIn([], d, d[0].fn) == {"main"};
  }

  lemma NotBuiltin()
    ensures Scopes.Truncate("main") == "main" && "main" !in Scopes.Builtins()
  {
  }

  lemma SmallestMeant(w: word)
    ensures var p := ProgramOf([], Returning(w));
      Complete([], Returning(w)) && AtMost(p, 8) && Invoke(p, 0, "main", [], []) == Val(w, [], 8)
  {
    hide ListLits, ListCalls, ListDeclares, ListDeep, ListSize, ListFits, ListHeld, ListNamed, LitsOf, CallsOf, At,
      FuncsOf, LabelsOf, StartAt;
    SmallestTables(w);
    OneReturn(w, [], map[]);
    var body := Returning(w)[0].fn.body;
    var p := ProgramOf([], Returning(w));
    assert body.rest == SNil;
    assert p.funcs == map["main" := Func([], body, 0)];
    assert StmtPushed(body.s) == 0 && ListPushed(body) == 0;
    assert forall names :: StmtMeant(p, body.s, names, false) && ListMeant(p, body, names, false);
    assert [] + Bind([], []) == [];
    assert RunStmt(p, 0, body.s, []) == Done(Returned(Some(w)), [], 0);
    assert RunList(p, 0, body, []) == Done(Returned(Some(w)), [], 0);
  }
}
