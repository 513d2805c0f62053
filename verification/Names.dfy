/** One table for everything that has a name (src/rc/sym.rs): built-in functions, statics,
    functions and locals, under their first 31 characters.  The compiler's model keeps
    variables and functions apart and does not cut names; this is when that is the same. */
module Names {
  import opened Base
  import opened Bindings
  import opened Scopes
  import opened Source
  import opened Codegen
  import opened Limits
  import opened Programs
  import opened Link
  import opened Word

  datatype Meaning = Variable(l: Loc) | Function(at: int) | Kernel(n: nat)

  type Table = seq<Entry<Meaning>>

  // ---- the table ------------------------------------------------------------------------------

  function KernelTable(): (t: Table)
    ensures |t| == |Builtins()| && forall k :: 0 <= k < |t| ==> t[k] == Entry(Builtins()[k], Kernel(k))
  {
    seq(|Builtins()|, k requires 0 <= k < |Builtins()| => Entry(Builtins()[k], Kernel(k)))
  }

  function VariableTable(syms: Symbols): (t: Table)
    ensures |t| == |syms| && forall k :: 0 <= k < |t| ==> t[k] == Entry(Truncate(syms[k].name), Variable(syms[k].val))
  {
    seq(|syms|, k requires 0 <= k < |syms| => Entry(Truncate(syms[k].name), Variable(syms[k].val)))
  }

  /** The first n functions, at their offsets. */
  function FunctionTable(defs: seq<Def>, n: nat): (t: Table)
    requires n <= |defs|
    ensures |t| == n && forall k :: 0 <= k < n ==> t[k] == Entry(Truncate(defs[k].name), Function(At(defs, k)))
  {
    seq(n, k requires 0 <= k < n => Entry(Truncate(defs[k].name), Function(At(defs, k))))
  }

  /** The table while the n-th function is compiled, with its parameters and locals. */
  function TableAt(statics: Symbols, defs: seq<Def>, n: nat, locals: Symbols): Table
    requires n <= |defs|
  {
    KernelTable() + VariableTable(statics) + FunctionTable(defs, n) + VariableTable(locals)
  }

  /** What the compiler takes x for: it cuts the name and searches backwards. */
  function Lookup(t: Table, x: string): Option<Meaning> {
    var k := Find(t, Truncate(x));
    if k < 0 then None else Some(t[k].val)
  }

  // ---- searching a table made of parts -------------------------------------------------------

  function First(a: Option<Meaning>, b: Option<Meaning>): Option<Meaning> {
    if a.Some? then a else b
  }

  lemma LookupOn(a: Table, b: Table, x: string)
    ensures Lookup(a + b, x) == First(Lookup(b, x), Lookup(a, x))
  {
    FindOn(a, b, Truncate(x));
  }

  lemma LookupParts(k: Table, v: Table, f: Table, l: Table, x: string)
    ensures Lookup(k + v + f + l, x) == First(Lookup(l, x), First(Lookup(f, x), First(Lookup(v, x), Lookup(k, x))))
  {
    hide Lookup;
    LookupOn(k + v + f, l, x);
    LookupOn(k + v, f, x);
    LookupOn(k, v, x);
  }

  function NamesOf(syms: Symbols): set<string> {
    set k | 0 <= k < |syms| :: syms[k].name
  }

  /** x is the only one of these names that is cut to what x is cut to. */
  ghost predicate Alone(x: string, names: set<string>) {
    forall y :: y in names && Truncate(y) == Truncate(x) ==> y == x
  }

  lemma VariableLookup(syms: Symbols, x: string)
    requires Alone(x, NamesOf(syms))
    ensures Lookup(VariableTable(syms), x) ==
      if Find(syms, x) < 0 then None else Some(Variable(syms[Find(syms, x)].val))
  {
    CutSearch(syms, VariableTable(syms), x);
  }

  /** Searching cut names for a cut name. */
  lemma {:induction false} CutSearch(syms: Symbols, t: Table, x: string)
    requires |t| == |syms| && (forall k :: 0 <= k < |t| ==> t[k].name == Truncate(syms[k].name))
    requires Alone(x, NamesOf(syms))
    ensures Find(t, Truncate(x)) == Find(syms, x)
    decreases |syms|
  {
    hide Truncate;
    if syms != [] {
      var n := |syms| - 1;
      assert syms[n].name in NamesOf(syms);
      if syms[n].name != x {
        forall y | y in NamesOf(syms[..n]) ensures y in NamesOf(syms) {
        }
        CutSearch(syms[..n], t[..n], x);
      }
    }
  }

  lemma KernelLookup(x: string)
    ensures Lookup(KernelTable(), x).Some? <==> Truncate(x) in Builtins()
  {
    hide Builtins, Truncate;
    var t := KernelTable();
    if Truncate(x) in Builtins() {
      var k :| 0 <= k < |Builtins()| && Builtins()[k] == Truncate(x);
      FindNamed(t, k);
    }
  }

  lemma {:induction false} FunctionLookup(defs: seq<Def>, n: nat, x: string)
    requires n <= |defs| && Distinct(defs) && Alone(x, FunctionNames(defs))
    ensures var r := Lookup(FunctionTable(defs, n), x);
      if x in LabelsOf(defs, n)
      then exists i :: 0 <= i < n && defs[i].name == x && r == Some(Function(At(defs, i)))
      else r == None
  {
    hide LabelsOf, At, Truncate;
    var t := FunctionTable(defs, n);
    var k := Find(t, Truncate(x));
    if x in LabelsOf(defs, n) {
      LabelsNamed(defs, n, x);
      var i :| 0 <= i < n && defs[i].name == x;
      FindNamed(t, i);
    }
    if k >= 0 {
      assert defs[k].name in FunctionNames(defs);
      LabelOf(defs, n, k);
    }
  }

  lemma {:induction false} LabelOf(defs: seq<Def>, n: nat, i: nat)
    requires i < n <= |defs|
    ensures defs[i].name in LabelsOf(defs, n)
    decreases n
  {
    if i < n - 1 {
      LabelOf(defs, n - 1, i);
    }
  }

  // ---- when variables and functions can be kept apart -----------------------------------------------

  /** A variable that is in scope is found in the one table, with its place. */
  lemma {:induction false} VariableFound(statics: Symbols, defs: seq<Def>, n: nat, locals: Symbols, x: string)
    requires n <= |defs| && Distinct(defs) && Find(statics + locals, x) >= 0
    requires Alone(x, NamesOf(statics + locals) + FunctionNames(defs)) && NamesOf(statics) !! FunctionNames(defs)
    ensures Lookup(TableAt(statics, defs, n, locals), x) ==
      Some(Variable((statics + locals)[Find(statics + locals, x)].val))
  {
    hide Lookup, Find, Builtins, KernelTable, VariableTable, FunctionTable, LabelsOf, At, Truncate;
    var k, v, f, l := KernelTable(), VariableTable(statics), FunctionTable(defs, n), VariableTable(locals);
    PartsNamed(statics, locals);
    FindOn(statics, locals, x);
    VariableLookup(statics, x);
    VariableLookup(locals, x);
    FunctionLookup(defs, n, x);
    NameFound(statics, x);
    NotAFunction(defs, n, x);
    LookupParts(k, v, f, l, x);
  }

  lemma NameFound(syms: Symbols, x: string)
    ensures Find(syms, x) >= 0 <==> x in NamesOf(syms)
  {
    hide Find;
    if Find(syms, x) >= 0 {
      assert syms[Find(syms, x)].name in NamesOf(syms);
    } else if x in NamesOf(syms) {
      var k :| 0 <= k < |syms| && syms[k].name == x;
      FindNamed(syms, k);
    }
  }

  lemma {:induction false} NotAFunction(defs: seq<Def>, n: nat, x: string)
    requires n <= |defs|
    ensures x in LabelsOf(defs, n) ==> x in FunctionNames(defs)
  {
    if x in LabelsOf(defs, n) {
      LabelsNamed(defs, n, x);
    }
  }

  lemma PartsNamed(a: Symbols, b: Symbols)
    ensures NamesOf(a + b) == NamesOf(a) + NamesOf(b)
  {
    forall x | x in NamesOf(a) ensures x in NamesOf(a + b) {
      var k :| 0 <= k < |a| && a[k].name == x;
      assert (a + b)[k].name == x;
    }
    forall x | x in NamesOf(b) ensures x in NamesOf(a + b) {
      var k :| 0 <= k < |b| && b[k].name == x;
      assert (a + b)[|a| + k].name == x;
    }
  }

  /** A call of a function of the program never finds a built-in one: it finds that function if
      it is known and no local hides it, and is otherwise left to the fixups. */
  lemma {:induction false} CallFound(statics: Symbols, defs: seq<Def>, n: nat, locals: Symbols, i: nat)
    requires n <= |defs| && i < |defs| && Distinct(defs)
    requires Alone(defs[i].name, NamesOf(statics + locals) + FunctionNames(defs))
    requires defs[i].name !in NamesOf(statics) && Truncate(defs[i].name) !in Builtins()
    ensures var r := Lookup(TableAt(statics, defs, n, locals), defs[i].name);
      if Find(statics + locals, defs[i].name) >= 0 then r.Some? && r.value.Variable?
      else r == if i < n then Some(Function(At(defs, i))) else None
  {
    hide Lookup, Find, Builtins, KernelTable, VariableTable, FunctionTable, LabelsOf, At, Truncate;
    var x := defs[i].name;
    var k, v, f, l := KernelTable(), VariableTable(statics), FunctionTable(defs, n), VariableTable(locals);
    PartsNamed(statics, locals);
    FindOn(statics, locals, x);
    VariableLookup(statics, x);
    VariableLookup(locals, x);
    NameFound(statics, x);
    FunctionLookup(defs, n, x);
    KernelLookup(x);
    KnownWhen(defs, n, i);
    LookupParts(k, v, f, l, x);
  }

  lemma {:induction false} KnownWhen(defs: seq<Def>, n: nat, i: nat)
    requires n <= |defs| && i < |defs| && Distinct(defs)
    ensures defs[i].name in LabelsOf(defs, n) <==> i < n
  {
    if i < n {
      LabelOf(defs, n, i);
    } else if defs[i].name in LabelsOf(defs, n) {
      LabelsNamed(defs, n, defs[i].name);
    }
  }

  /** At every point of a function of a plain program the table holds names of `VisibleIn`, which are
      apart when cut: it starts with the statics and the parameters, ... */
  lemma {:induction false} PlainStart(base: word, statics: seq<StaticDef>, defs: seq<Def>, i: nat)
    requires Plain(statics, defs) && i < |defs|
    ensures var names := VisibleIn(statics, defs, defs[i].fn);
      var syms := StaticSyms(statics, base);
      CutApart(names) && FunctionNames(defs) <= names && ListDeclares(defs[i].fn.body) <= names &&
      NamesOf(syms + ParamSyms(defs[i].fn.params)) <= names && NamesOf(syms) == StaticNames(statics)
  {
    hide Builtins, StaticAddr, Truncate, ListDeclares;
    var syms, params := StaticSyms(statics, base), defs[i].fn.params;
    PartsNamed(syms, ParamSyms(params));
    StaticsNamed(statics, base);
    forall x | x in NamesOf(ParamSyms(params)) ensures x in VisibleIn(statics, defs, defs[i].fn) {
      var k :| 0 <= k < |params| && ParamSyms(params)[k].name == x;
      assert params[k] == x;
    }
  }

  lemma StaticsNamed(statics: seq<StaticDef>, base: word)
    ensures NamesOf(StaticSyms(statics, base)) == StaticNames(statics)
  {
    hide StaticAddr;
    var syms := StaticSyms(statics, base);
    forall k | 0 <= k < |statics|
      ensures syms[k].name in StaticNames(statics) && statics[k].name in NamesOf(syms)
    {
      assert syms[k].name == statics[k].name;
    }
  }

  /** ... and each statement adds names that it declares. */
  lemma PlainLocals(s: Stmt, syms: Symbols, off: int)
    ensures NamesOf(StmtSyms(s, syms, off)) <= NamesOf(syms) + StmtDeclares(s)
    ensures s.For? ==> NamesOf(syms + [Entry(s.x, Slot(off - 4))]) <= NamesOf(syms) + StmtDeclares(s)
  {
    if s.Let? || s.For? {
      PartsNamed(syms, [Entry(s.x, Slot(off - 4))]);
      assert NamesOf([Entry(s.x, Slot(off - 4))]) == {s.x} by {
        assert [Entry(s.x, Slot(off - 4))][0].name == s.x;
      }
    }
  }

  /** There, every name stands alone. */
  lemma {:induction false} PlainAlone(names: set<string>, syms: Symbols, defs: seq<Def>, x: string)
    requires CutApart(names) && NamesOf(syms) + FunctionNames(defs) <= names && x in names
    ensures Alone(x, NamesOf(syms) + FunctionNames(defs))
  {
  }

  // ---- when they cannot ---------------------------------------------------------------------------------

  /** Variables in different places are all found in the one table exactly when their names are apart
      also when cut; of two that are not, one name means the other variable. */
  lemma FoundWhenApart(syms: Symbols)
    requires forall i, j :: 0 <= i < j < |syms| ==> syms[i].val != syms[j].val
    ensures (forall x :: x in NamesOf(syms) ==>
        Find(syms, x) >= 0 && Lookup(VariableTable(syms), x) == Some(Variable(syms[Find(syms, x)].val))) <==>
      CutApart(NamesOf(syms))
  {
    hide Lookup, Find, Truncate;
    forall x | x in NamesOf(syms) ensures Find(syms, x) >= 0 {
      var k :| 0 <= k < |syms| && syms[k].name == x;
      FindNamed(syms, k);
    }
    if CutApart(NamesOf(syms)) {
      forall x | x in NamesOf(syms)
        ensures Lookup(VariableTable(syms), x) == Some(Variable(syms[Find(syms, x)].val))
      {
        VariableLookup(syms, x);
      }
    } else {
      var a, b :| a in NamesOf(syms) && b in NamesOf(syms) && Truncate(a) == Truncate(b) && a != b;
      SameLookup(VariableTable(syms), a, b);
      OtherPlace(syms, Find(syms, a), Find(syms, b));
    }
  }

  lemma OtherPlace(syms: Symbols, i: int, j: int)
    requires 0 <= i < |syms| && 0 <= j < |syms| && syms[i].name != syms[j].name
    requires forall i, j :: 0 <= i < j < |syms| ==> syms[i].val != syms[j].val
    ensures syms[i].val != syms[j].val
  {
  }

  lemma SameLookup(t: Table, a: string, b: string)
    requires Truncate(a) == Truncate(b)
    ensures Lookup(t, a) == Lookup(t, b)
  {
  }

  /** For two locals: both names mean the later one exactly when they agree in their first 31 characters. */
  lemma {:induction false} LongNamesMerge(statics: Symbols, defs: seq<Def>, n: nat, x: string, y: string)
    requires n <= |defs| && x != y
    ensures var locals := [Entry(x, Slot(-4)), Entry(y, Slot(-8))];
      Lookup(TableAt(statics, defs, n, locals), y) == Some(Variable(Slot(-8))) &&
      Lookup(TableAt(statics, defs, n, locals), x) ==
        Some(Variable(if Truncate(x) == Truncate(y) then Slot(-8) else Slot(-4)))
  {
    hide KernelTable, FunctionTable, At, Builtins, Truncate;
    var locals := [Entry(x, Slot(-4)), Entry(y, Slot(-8))];
    var t := TableAt(statics, defs, n, locals);
    assert t[|t| - 1] == Entry(Truncate(y), Variable(Slot(-8)));
    var u := t[..|t| - 1];
    assert u[|u| - 1] == Entry(Truncate(x), Variable(Slot(-4)));
    assert Find(u, Truncate(x)) == |u| - 1;
  }

  /** A call of a function named like a built-in one, before its definition, is a call of the
      built-in one. */
  lemma {:induction false} BuiltinCalled(statics: Symbols, defs: seq<Def>, n: nat, i: nat)
    requires n <= i < |defs| && Distinct(defs) && Alone(defs[i].name, NamesOf(statics) + FunctionNames(defs)) &&
      defs[i].name !in NamesOf(statics)
    requires Truncate(defs[i].name) in Builtins()
    ensures var r := Lookup(TableAt(statics, defs, n, []), defs[i].name);
      r.Some? && r.value.Kernel?
  {
    hide Lookup, Find, Builtins, KernelTable, VariableTable, FunctionTable, LabelsOf, At, Truncate;
    var x := defs[i].name;
    var k, v, f, l := KernelTable(), VariableTable(statics), FunctionTable(defs, n), VariableTable([]);
    VariableLookup(statics, x);
    VariableLookup([], x);
    NameFound(statics, x);
    FunctionLookup(defs, n, x);
    KnownWhen(defs, n, i);
    KernelLookup(x);
    OnlyKernels(x);
    LookupParts(k, v, f, l, x);
  }

  lemma OnlyKernels(x: string)
    ensures Lookup(KernelTable(), x).Some? ==> Lookup(KernelTable(), x).value.Kernel?
  {
  }

  /** A static is hidden by a function of the same name as soon as that is defined. */
  lemma {:induction false} StaticHidden(statics: Symbols, defs: seq<Def>, n: nat, i: nat)
    requires i < n <= |defs| && Distinct(defs) && Alone(defs[i].name, FunctionNames(defs)) &&
      defs[i].name in NamesOf(statics)
    ensures Lookup(TableAt(statics, defs, n, []), defs[i].name) == Some(Function(At(defs, i)))
  {
    hide Lookup, Find, Builtins, KernelTable, VariableTable, FunctionTable, LabelsOf, At, Truncate;
    var x := defs[i].name;
    var k, v, f, l := KernelTable(), VariableTable(statics), FunctionTable(defs, n), VariableTable([]);
    VariableLookup([], x);
    FunctionLookup(defs, n, x);
    KnownWhen(defs, n, i);
    LookupParts(k, v, f, l, x);
  }
}
