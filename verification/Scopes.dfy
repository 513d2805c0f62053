/** The symbol table (src/rc/sym.rs): a flat array with a scope depth per entry acts
    as a stack of maps. */
module Scopes {
  import opened Base
  import opened Bindings

  const MAX_NAME: nat := 31
  const MAX_SYMBOLS: nat := 256
  /** How many kernel functions sym::init puts in the table first. */
  const BUILTINS: nat := 31

  function Builtins(): (names: seq<string>)
    ensures |names| == BUILTINS
  {
    [
      "puts", "putchar", "getchar", "sleep", "malloc", "free", "strlen", "strcmp", "strcpy", "memset", "memcpy",
      "serial_puts", "serial_putchar", "compile", "run_program", "run_protected", "clear", "set_color", "open",
      "read", "fwrite", "close", "create_file", "get_ticks", "heap_free", "free_pages", "ip_to_string",
      "tcp_connect", "tcp_send", "tcp_recv", "tcp_close"
    ]
  }

  datatype Info = Info(kind: int, offset: int, addr: int)
  datatype Scoped = Scoped(info: Info, depth: nat)

  /** A symbol has a name, what it stands for, and the depth of its scope. */
  type Symbol = Entry<Scoped>

  type Stack = seq<map<string, Info>>

  // ---- the specification: lexical scoping ---------------------------------------------------

  /** Innermost scope first. */
  function Resolve(scopes: Stack, x: string): Option<Info> {
    if scopes == [] then None
    else
      var top := scopes[|scopes| - 1];
      if x in top then Some(top[x]) else Resolve(scopes[..|scopes| - 1], x)
  }

  function Declare(scopes: Stack, x: string, i: Info): Stack
    requires scopes != []
  {
    scopes[|scopes| - 1 := scopes[|scopes| - 1][x := i]]
  }

  /** Leaving the outermost scope only empties it. */
  function Leave(scopes: Stack): Stack
    requires scopes != []
  {
    if |scopes| == 1 then [map[]] else scopes[..|scopes| - 1]
  }

  // ---- what the flat table stands for --------------------------------------------------------

  /** The names declared at one depth; a later declaration hides an earlier one. */
  function AtDepth(table: seq<Symbol>, d: nat): map<string, Info> {
    if table == [] then map[]
    else
      var last := table[|table| - 1];
      var m := AtDepth(table[..|table| - 1], d);
      if last.val.depth == d then m[last.name := last.val.info] else m
  }

  ghost function StackOf(table: seq<Symbol>, scope: nat): (s: Stack)
    ensures |s| == scope + 1
  {
    seq(scope + 1, d requires 0 <= d => AtDepth(table, d))
  }

  /** Depths never decrease along the table, and none exceeds the current one. */
  ghost predicate Ordered(table: seq<Symbol>, scope: nat) {
    (forall i, j :: 0 <= i <= j < |table| ==> table[i].val.depth <= table[j].val.depth) &&
    (forall i :: 0 <= i < |table| ==> table[i].val.depth <= scope)
  }

  lemma {:induction false} AtDepthDeeper(table: seq<Symbol>, d: nat, scope: nat)
    requires Ordered(table, scope) && d > scope
    ensures AtDepth(table, d) == map[]
    decreases |table|
  {
    if table != [] {
      AtDepthDeeper(table[..|table| - 1], d, scope);
    }
  }

  lemma {:induction false} NoneFound(table: seq<Symbol>, x: string, d: nat)
    requires Find(table, x) < 0
    ensures x !in AtDepth(table, d)
    decreases |table|
  {
    if table != [] {
      NoneFound(table[..|table| - 1], x, d);
    }
  }

  /** In the stack, the scope of the newest symbol of a name is the innermost one that has it. */
  lemma {:induction false} NewestScope(table: seq<Symbol>, x: string, scope: nat)
    requires Ordered(table, scope) && Find(table, x) >= 0
    ensures var s := table[Find(table, x)];
      x in AtDepth(table, s.val.depth) && AtDepth(table, s.val.depth)[x] == s.val.info &&
      forall d :: s.val.depth < d ==> x !in AtDepth(table, d)
    decreases |table|
  {
    var n := |table| - 1;
    if table[n].name == x {
      var front := table[..n];
      assert Ordered(front, table[n].val.depth);
      forall d | table[n].val.depth < d ensures x !in AtDepth(table, d) {
        AtDepthDeeper(front, d, table[n].val.depth);
      }
    } else {
      NewestScope(table[..n], x, scope);
      var s := table[Find(table[..n], x)];
      assert table[..n][Find(table[..n], x)] == s;
    }
  }

  lemma {:induction false} ResolveTo(scopes: Stack, x: string, d: nat)
    requires d < |scopes| && x in scopes[d] && forall e :: d < e < |scopes| ==> x !in scopes[e]
    ensures Resolve(scopes, x) == Some(scopes[d][x])
    decreases |scopes|
  {
    var n := |scopes| - 1;
    if d < n {
      ResolveTo(scopes[..n], x, d);
    }
  }

  lemma {:induction false} ResolveNone(scopes: Stack, x: string)
    requires forall d :: 0 <= d < |scopes| ==> x !in scopes[d]
    ensures Resolve(scopes, x) == None
    decreases |scopes|
  {
    if scopes != [] {
      ResolveNone(scopes[..|scopes| - 1], x);
    }
  }

  /** The backward search of the table is lexical scoping. */
  lemma SearchIsScoping(table: seq<Symbol>, x: string, scope: nat)
    requires Ordered(table, scope)
    ensures var i := Find(table, x);
      Resolve(StackOf(table, scope), x) == if i < 0 then None else Some(table[i].val.info)
  {
    var i := Find(table, x);
    var scopes := StackOf(table, scope);
    if i < 0 {
      forall d | 0 <= d < |scopes| ensures x !in scopes[d] {
        NoneFound(table, x, d);
      }
      ResolveNone(scopes, x);
    } else {
      NewestScope(table, x, scope);
      ResolveTo(scopes, x, table[i].val.depth);
    }
  }

  lemma Declared(table: seq<Symbol>, s: Symbol, scope: nat)
    requires Ordered(table, scope) && s.val.depth == scope
    ensures Ordered(table + [s], scope) &&
      StackOf(table + [s], scope) == Declare(StackOf(table, scope), s.name, s.val.info)
  {
    assert (table + [s])[..|table|] == table;
  }

  lemma Entered(table: seq<Symbol>, scope: nat)
    requires Ordered(table, scope)
    ensures Ordered(table, scope + 1) && StackOf(table, scope + 1) == StackOf(table, scope) + [map[]]
  {
    AtDepthDeeper(table, scope + 1, scope);
  }

  /** Dropping the symbols of the current depth. */
  lemma {:induction false} Dropped(table: seq<Symbol>, n: nat, scope: nat, d: nat)
    requires Ordered(table, scope) && n <= |table| && (forall i :: n <= i < |table| ==> table[i].val.depth == scope) &&
      d != scope
    ensures AtDepth(table[..n], d) == AtDepth(table, d)
    decreases |table| - n
  {
    if n < |table| {
      var front := table[..|table| - 1];
      assert table[..n] == front[..n];
      Dropped(front, n, scope, d);
    } else {
      assert table[..n] == table;
    }
  }

  lemma {:induction false} NoneAt(table: seq<Symbol>, d: nat)
    requires forall i :: 0 <= i < |table| ==> table[i].val.depth != d
    ensures AtDepth(table, d) == map[]
    decreases |table|
  {
    if table != [] {
      NoneAt(table[..|table| - 1], d);
    }
  }

  lemma Left(table: seq<Symbol>, n: nat, scope: nat)
    requires Ordered(table, scope) && n <= |table| && (forall i :: n <= i < |table| ==> table[i].val.depth == scope)
    requires n == 0 || table[n - 1].val.depth != scope
    ensures var scope' := if scope > 0 then scope - 1 else 0;
      Ordered(table[..n], scope') && StackOf(table[..n], scope') == Leave(StackOf(table, scope))
  {
    var rest := table[..n];
    forall i | 0 <= i < n ensures rest[i].val.depth < scope {
      assert table[i].val.depth <= table[n - 1].val.depth <= scope;
    }
    if scope == 0 {
      NoneAt(rest, 0);
    } else {
      forall d: nat | d < scope ensures AtDepth(rest, d) == AtDepth(table, d) {
        Dropped(table, n, scope, d);
      }
    }
  }

  function Truncate(x: string): string {
    if |x| <= MAX_NAME then x else x[..MAX_NAME]
  }

  class SymbolTable {
    const symbols: array<Symbol>
    var count: nat
    var scope: nat

    constructor ()
      ensures Valid() && fresh(symbols) && Stack() == [map[]]
    {
      symbols := new Symbol[MAX_SYMBOLS](_ => Entry("", Scoped(Info(0, 0, 0), 0)));
      count, scope := 0, 0;
    }

    ghost predicate Valid()
      reads this, symbols
    {
      symbols.Length == MAX_SYMBOLS && count <= MAX_SYMBOLS && Ordered(symbols[..count], scope)
    }

    ghost function Stack(): (s: Stack)
      requires Valid()
      reads this, symbols
      ensures |s| == scope + 1
    {
      StackOf(symbols[..count], scope)
    }

    /** Declare x in the current scope, under its first 31 characters. */
    method Add(x: string, info: Info) returns (ok: bool)
      requires Valid()
      modifies this`count, symbols
      ensures Valid() && ok == (old(count) < 256)
      ensures ok ==> Stack() == Declare(old(Stack()), Truncate(x), info)
      ensures !ok ==> Stack() == old(Stack())
    {
      if count >= MAX_SYMBOLS {
        return false;
      }
      ghost var table := symbols[..count];
      var s := Entry(Truncate(x), Scoped(info, scope));
      symbols[count] := s;
      count := count + 1;
      Declared(table, s, scope);
      assert symbols[..count] == table + [s];
      return true;
    }

    /** Search from the newest symbol to the oldest. */
    method Lookup(x: string) returns (r: Option<Info>)
      requires Valid()
      ensures r == Resolve(Stack(), x)
    {
      SearchIsScoping(symbols[..count], x, scope);
      var i: int := count - 1;
      while i >= 0
        invariant -1 <= i < count
        invariant Find(symbols[..i + 1], x) == Find(symbols[..count], x)
      {
        assert symbols[..i + 1][..i] == symbols[..i];
        if symbols[i].name == x {
          return Some(symbols[i].val.info);
        }
        i := i - 1;
      }
      return None;
    }

    method EnterScope()
      requires Valid()
      modifies this`scope
      ensures Valid() && Stack() == old(Stack()) + [map[]]
    {
      Entered(symbols[..count], scope);
      scope := scope + 1;
    }

    method LeaveScope()
      requires Valid()
      modifies this`count, this`scope
      ensures Valid() && Stack() == Leave(old(Stack()))
    {
      ghost var table, n := symbols[..count], count;
      while count > 0 && symbols[count - 1].val.depth == scope
        invariant count <= n && scope == old(scope)
        invariant forall i :: count <= i < n ==> symbols[i].val.depth == scope
      {
        count := count - 1;
      }
      assert symbols[..count] == table[..count];
      Left(table, count, scope);
      if scope > 0 {
        scope := scope - 1;
      }
    }
  }

  // ---- runs ------------------------------------------------------------------------------------

  /** A balanced run: declarations, and nested scopes that are entered and left. */
  datatype Run = Empty | Decl(x: string, info: Info, rest: Run) | Nested(body: Run, rest: Run)

  function Perform(scopes: Stack, run: Run): (s: Stack)
    requires scopes != []
    ensures s != []
    decreases run
  {
    match run
    case Empty => scopes
    case Decl(x, info, rest) => Perform(Declare(scopes, Truncate(x), info), rest)
    case Nested(body, rest) => Perform(Leave(Perform(scopes + [map[]], body)), rest)
  }

  /** A run touches the scope it runs in and none below it. */
  lemma {:induction false} RunStaysInScope(scopes: Stack, top: map<string, Info>, run: Run)
    ensures var s := Perform(scopes + [top], run);
      |s| == |scopes| + 1 && s[..|scopes|] == scopes
    decreases run, 0
  {
    match run
    case Empty =>
    case Decl(x, info, rest) =>
      var top' := top[Truncate(x) := info];
      assert Declare(scopes + [top], Truncate(x), info) == scopes + [top'];
      RunStaysInScope(scopes, top', rest);
    case Nested(body, rest) =>
      ScopeUndone(scopes + [top], body);
      RunStaysInScope(scopes, top, rest);
  }

  /** What a scope declares is gone with it, and what it hid is visible again. */
  lemma {:induction false} ScopeUndone(scopes: Stack, body: Run)
    requires scopes != []
    ensures Leave(Perform(scopes + [map[]], body)) == scopes
    decreases body, 1
  {
    RunStaysInScope(scopes, map[], body);
  }

  /** A new name is found again exactly when it has at most 31 characters. */
  lemma FoundWhenShort(scopes: Stack, x: string, info: Info)
    requires scopes != [] && Resolve(scopes, x) == None
    ensures Resolve(Declare(scopes, Truncate(x), info), x) == Some(info) <==> |x| <= 31
  {
    var s := Declare(scopes, Truncate(x), info);
    assert s[..|s| - 1] == scopes[..|s| - 1];
  }
}
