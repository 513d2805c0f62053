/** The final passes of parse_program: forward calls, string literals, entry code. */
module Link {
  import opened Base
  import opened Bindings
  import opened Word
  import opened X86
  import opened Machine
  import opened Source
  import opened Codegen
  import opened Emit
  import opened Layout
  import opened Tables
  import opened Limits
  import opened Parse
  import opened Programs
  import Scopes

  function TagIndex(t: Tag): nat {
    match t
    case Local => 0
    case LoopExit(_, entry) => entry
    case Fixup(entry) => entry
    case StringRef(entry) => entry
  }

  /** pending' is pending without the first n instructions of kind k. */
  ghost predicate Gone(pending: map<int, Tag>, pending': map<int, Tag>, k: nat, n: nat) {
    (forall q {:trigger pending'[q]} {:trigger pending[q]} ::
      (q in pending') == (q in pending && !(Kind(pending[q]) == k && TagIndex(pending[q]) < n))) &&
    (forall q {:trigger pending'[q]} :: q in pending' ==> q in pending && pending'[q] == pending[q])
  }

  /** pending' is pending without all instructions of kind k. */
  ghost predicate Cleared(pending: map<int, Tag>, pending': map<int, Tag>, k: nat) {
    (forall q {:trigger pending'[q]} {:trigger pending[q]} ::
      (q in pending') == (q in pending && Kind(pending[q]) != k)) &&
    (forall q {:trigger pending'[q]} :: q in pending' ==> q in pending && pending'[q] == pending[q])
  }

  lemma GoneOne(pending: map<int, Tag>, pending': map<int, Tag>, k: nat, n: nat, q: int)
    requires Gone(pending, pending', k, n) && q in pending && Kind(pending[q]) == k && TagIndex(pending[q]) == n
    requires forall r {:trigger pending[r]} :: r in pending && Kind(pending[r]) == k && TagIndex(pending[r]) == n ==>
      r == q
    ensures q in pending' && Gone(pending, pending' - {q}, k, n + 1)
  {
  }

  lemma FixupSite(fixups: seq<FixupEntry>, labels: Labels, code: Code, pending: map<int, Tag>, i: nat)
    requires FixupsTracked(fixups, labels, code, pending) && i < |fixups|
    ensures var q := Site(fixups[i].patch);
      q in pending && pending[q] == Fixup(i) &&
      Here(code, q, CallRel(CallTarget(fixups[i].name, fixups[i].patch, labels))) &&
      (forall r {:trigger pending[r]} :: r in pending && Kind(pending[r]) == 2 && TagIndex(pending[r]) == i ==> r == q)
  {
    assert FixupAt(fixups[i], Fixup(i), labels, code, pending);
  }

  lemma FixupsCleared(fixups: seq<FixupEntry>, labels: Labels, code: Code, pending: map<int, Tag>,
                      pending': map<int, Tag>)
    requires FixupsTracked(fixups, labels, code, pending) && Gone(pending, pending', 2, |fixups|)
    ensures Cleared(pending, pending', 2) && FixupsTracked([], labels, code, pending')
    ensures SameKind(code, pending, code, pending', 1) && SameKind(code, pending, code, pending', 3)
  {
  }

  /** Patch every call that was compiled before its function was known. */
  method ResolveFixups(c: Compiler) returns (ok: bool)
    requires c.Valid() && (c.Clean() ==> c.known == c.labels)
    modifies c`fixups, c.out`pending, c.out`sound, c.out.buf
    ensures ok ==> c.Valid() && c.Steady()
    ensures ok && c.Clean() ==> old(c.Clean()) && Cleared(old(c.out.pending), c.out.pending, 2)
    ensures ok ==> c.fixups == []
    ensures old(c.Clean() && Callable(c.fixups, c.labels)) ==> ok
  {
    hide FixupsTracked, LoopsTracked, StringsTracked, SameKind, Gone, Cleared, RelTo, Laid;
    ghost var a := c.Now();
    var i := 0;
    if c.Clean() {
      assert Gone(a.pending, a.pending, 2, 0) by { NoneGone(a.pending, 2); }
    }
    while i < |c.fixups|
      invariant i <= |c.fixups| && c.fixups == old(c.fixups) && c.out.Valid() && c.Steady()
      invariant c.Clean() ==> old(c.Clean()) && Gone(a.pending, c.out.pending, 2, i)
    {
      var x := c.fixups[i];
      if x.name !in c.known {
        return false;
      }
      if c.Clean() {
        FixupSite(c.fixups, c.labels, a.code, a.pending, i);
        GoneOne(a.pending, c.out.pending, 2, i, Site(x.patch));
        RelToReaches(x.patch + 4, c.labels[x.name]);
      }
      c.out.PatchDword(x.patch, Wrap(c.known[x.name] - (x.patch + 4)), Site(x.patch));
      i := i + 1;
    }
    if c.Clean() {
      FixupsCleared(c.fixups, c.labels, a.code, a.pending, c.out.pending);
      LoopsGrown(c.loops, c.exits, a.code, a.pending, c.out.code, c.out.pending);
      StringsGrown(c.strings, c.lits, a.code, a.pending, c.out.code, c.out.pending);
    }
    c.fixups := [];
    return true;
  }

  /** No fault so far, every called function exists, and the tables are not over full. */
  ghost predicate Ready(c: Compiler)
    reads c, c.out
  {
    c.Clean() && Callable(c.fixups, c.labels) && |c.fixups| <= MAX_FIXUPS && |c.strings| <= MAX_STRINGS
  }

  lemma NoneGone(pending: map<int, Tag>, k: nat)
    ensures Gone(pending, pending, k, 0)
  {
  }

  // ---- string literals ----------------------------------------------------------------

  /** Bytes taken by the first n literals, each with its NUL. */
  function TextSize(lits: seq<Lit>, n: nat): nat
    requires n <= |lits|
  {
    if n == 0 then 0 else TextSize(lits, n - 1) + |lits[n - 1].text| + 1
  }

  /** Every literal has the address it gets when the literals are placed at start. */
  ghost predicate Linked(lits: seq<Lit>, base: word, start: int) {
    forall i :: 0 <= i < |lits| ==> lits[i].addr == Wrap(base + start + TextSize(lits, i))
  }

  /** The first n literals one after the other, each NUL-terminated. */
  function Texts(lits: seq<Lit>, n: nat): (bs: seq<byte>)
    requires n <= |lits|
    ensures |bs| == TextSize(lits, n)
  {
    if n == 0 then [] else Texts(lits, n - 1) + (lits[n - 1].text + [0])
  }

  /** The i-th literal is where Linked says it is. */
  lemma {:induction false} TextFound(lits: seq<Lit>, n: nat, i: nat)
    requires i < n <= |lits|
    ensures var p := TextSize(lits, i);
      p + |lits[i].text| + 1 <= TextSize(lits, n) && Texts(lits, n)[p..p + |lits[i].text| + 1] == lits[i].text + [0]
    decreases n
  {
    var p, e := TextSize(lits, i), TextSize(lits, i) + |lits[i].text| + 1;
    var last := lits[n - 1].text + [0];
    if i < n - 1 {
      TextFound(lits, n - 1, i);
      assert (Texts(lits, n - 1) + last)[p..e] == Texts(lits, n - 1)[p..e];
    } else {
      assert (Texts(lits, n - 1) + last)[p..e] == last;
    }
  }

  lemma StringSite(strings: seq<StringEntry>, lits: seq<Lit>, code: Code, pending: map<int, Tag>, i: nat)
    requires StringsTracked(strings, lits, code, pending) && i < |strings|
    ensures |lits| == |strings| && strings[i].text == lits[i].text
    ensures var q := Site(strings[i].patch);
      q in pending && pending[q] == StringRef(i) && Here(code, q, MovImm(EAX, lits[i].addr)) &&
      (forall r {:trigger pending[r]} :: r in pending && Kind(pending[r]) == 3 && TagIndex(pending[r]) == i ==> r == q)
  {
    assert StringAt(strings[i], StringRef(i), lits[i], code, pending);
  }

  lemma StringsCleared(strings: seq<StringEntry>, lits: seq<Lit>, code: Code, pending: map<int, Tag>,
                       pending': map<int, Tag>)
    requires StringsTracked(strings, lits, code, pending) && Gone(pending, pending', 3, |strings|)
    ensures Cleared(pending, pending', 3) && StringsTracked([], [], code, pending')
    ensures SameKind(code, pending, code, pending', 1) && SameKind(code, pending, code, pending', 2)
  {
  }

  /** Append one literal and its NUL, and let the instruction at q load its address. */
  method PlaceString(c: Compiler, x: StringEntry, ghost q: int)
    requires c.out.Valid()
    requires c.Clean() ==>
      q in c.out.pending && Here(c.out.code, q, MovImm(EAX, Wrap(c.base + c.out.pos))) && x.patch == q + 1
    modifies c.out, c.out.buf
    ensures c.out.Valid() && c.Fed(|x.text| + 1)
    ensures c.Clean() ==>
      old(c.Clean()) && c.out.code == old(c.out.code) && c.out.pending == old(c.out.pending) - {q} &&
      c.out.pos == old(c.out.pos) + |x.text| + 1 && c.out.data == old(c.out.data) + Spread(x.text + [0], old(c.out.pos))
  {
    hide Laid, DataKept, Spread;
    var addr := Wrap(c.base + c.out.pos);
    c.out.Data(x.text + [0]);
    c.out.PatchDword(x.patch, addr, q);
  }

  /** Append all literals and patch every instruction that loads the address of one. */
  method PlaceStrings(c: Compiler)
    requires c.Valid() && (c.Clean() ==> Linked(c.lits, c.base, c.out.pos) && c.out.data == map[])
    modifies c`strings, c`lits, c.out, c.out.buf
    ensures c.Valid() && c.Steady() && c.strings == []
    ensures c.Clean() ==>
      old(c.Clean()) && Cleared(old(c.out.pending), c.out.pending, 3) && c.out.code == old(c.out.code) &&
      c.out.pos == old(c.out.pos) + TextSize(old(c.lits), |old(c.lits)|) &&
      c.out.data == Spread(Texts(old(c.lits), |old(c.lits)|), old(c.out.pos))
    ensures old(Ready(c) && c.out.pos + TextSize(c.lits, |c.lits|) <= 65536) ==> c.Clean()
  {
    hide FixupsTracked, LoopsTracked, StringsTracked, SameKind, Gone, Cleared, Laid, DataKept, Spread, Linked, Wrap,
      Reachable, Here, TextSize, Texts;
    ghost var a := c.Now();
    var i := 0;
    if c.Clean() {
      NoneGone(a.pending, 3);
      CountMatches(c);
      SpreadMore([], [], a.pos);
      NoTexts(c.lits);
    }
    while i < |c.strings|
      invariant i <= |c.strings| && c.strings == old(c.strings) && c.lits == old(c.lits) && c.out.Valid() && c.Steady()
      invariant c.Clean() ==>
        old(c.Clean()) && Gone(a.pending, c.out.pending, 3, i) && c.out.code == a.code &&
        c.out.pos == a.pos + TextSize(c.lits, i) && c.out.data == Spread(Texts(c.lits, i), a.pos)
      invariant old(Ready(c) && c.out.pos + TextSize(c.lits, |c.lits|) <= CODE_MAX) ==> c.Clean()
    {
      ghost var q := Site(c.strings[i].patch);
      if c.Clean() {
        StringSite(c.strings, c.lits, a.code, a.pending, i);
        GoneOne(a.pending, c.out.pending, 3, i, q);
        SpreadMore(Texts(c.lits, i), c.strings[i].text + [0], a.pos);
        LinkedAt(c.lits, c.base, a.pos, i);
        TextsNext(c.lits, i);
        TextsIncrease(c.lits, i + 1, |c.lits|);
      }
      PlaceString(c, c.strings[i], q);
      i := i + 1;
    }
    if c.Clean() {
      StringsCleared(c.strings, c.lits, a.code, a.pending, c.out.pending);
      LoopsGrown(c.loops, c.exits, a.code, a.pending, c.out.code, c.out.pending);
      FixupsGrown(c.fixups, c.labels, a.code, a.pending, c.out.code, c.out.pending);
    }
    c.strings, c.lits := [], [];
  }

  lemma TextsNext(lits: seq<Lit>, i: nat)
    requires i < |lits|
    ensures Texts(lits, i + 1) == Texts(lits, i) + (lits[i].text + [0]) &&
      TextSize(lits, i + 1) == TextSize(lits, i) + |lits[i].text| + 1
  {
  }

  lemma {:induction false} TextsIncrease(lits: seq<Lit>, n: nat, m: nat)
    requires n <= m <= |lits|
    ensures TextSize(lits, n) <= TextSize(lits, m)
    decreases m
  {
    if n < m {
      TextsIncrease(lits, n, m - 1);
    }
  }

  lemma NoTexts(lits: seq<Lit>)
    ensures Texts(lits, 0) == [] && TextSize(lits, 0) == 0
  {
  }

  lemma LinkedAt(lits: seq<Lit>, base: word, start: int, i: nat)
    requires Linked(lits, base, start) && i < |lits|
    ensures lits[i].addr == Wrap(base + start + TextSize(lits, i))
  {
  }

  lemma SpreadMore(bs: seq<byte>, more: seq<byte>, p: int)
    ensures Spread(bs + more, p) == Spread(bs, p) + Spread(more, p + |bs|)
    ensures Spread([], p) == map[]
  {
  }

  lemma CountMatches(c: Compiler)
    requires c.Valid() && c.Clean()
    ensures |c.lits| == |c.strings|
  {
  }

  // ---- entry code -----------------------------------------------------------------------

  datatype Init = Init(addr: word, value: word)

  /** mov eax, value; mov [addr], eax for the first n initialisers. */
  ghost predicate InitsCode(code: Code, p: int, inits: seq<Init>, n: nat)
    requires n <= |inits|
  {
    forall k :: 0 <= k < n ==> InitCode(code, p + 11 * k, inits[k])
  }

  predicate InitCode(code: Code, p: int, i: Init) {
    Here(code, p, MovImm(EAX, i.value)) && Here(code, p + 5, StoreAbs(i.addr, EAX))
  }

  /** The entry code: initialisers, call main, ret. */
  ghost predicate StartCode(code: Code, p: int, inits: seq<Init>, labels: Labels) {
    InitsCode(code, p, inits, |inits|) && IsCallTo(code, p + 11 * |inits|, "main", labels) &&
    Here(code, p + 11 * |inits| + 5, Ret)
  }

  lemma InitsMore(code: Code, code': Code, p: int, inits: seq<Init>, n: nat)
    requires n < |inits| && InitsCode(code, p, inits, n) && Grown(code, code') && InitCode(code', p + 11 * n, inits[n])
    ensures InitsCode(code', p, inits, n + 1)
  {
    AtomsGrown(code, code');
    hide Here, Grown;
    forall k | 0 <= k < n + 1 ensures InitCode(code', p + 11 * k, inits[k]) {
      if k < n {
        assert InitCode(code, p + 11 * k, inits[k]);
      }
    }
  }

  lemma InitsGrown(code: Code, code': Code, p: int, inits: seq<Init>)
    requires InitsCode(code, p, inits, |inits|) && Grown(code, code')
    ensures InitsCode(code', p, inits, |inits|)
  {
    AtomsGrown(code, code');
    hide Here, Grown;
    forall k | 0 <= k < |inits| ensures InitCode(code', p + 11 * k, inits[k]) {
      assert InitCode(code, p + 11 * k, inits[k]);
    }
  }

  method PutInits(c: Compiler, inits: seq<Init>)
    requires c.Valid()
    modifies c.out`pos, c.out`overflow, c.out`code, c.out.buf
    ensures c.Valid() && c.Fed(11 * |inits|)
    ensures c.Clean() ==>
      old(c.Clean()) && Grown(old(c.out.code), c.out.code) && c.out.pos == old(c.out.pos) + 11 * |inits| &&
      InitsCode(c.out.code, old(c.out.pos), inits, |inits|)
  {
    hide c.Valid, Progress, InitsCode, Grown, Here;
    ghost var p, code := c.out.pos, c.out.code;
    var k := 0;
    NoInits(code, p, inits);
    while k < |inits|
      invariant k <= |inits| && c.Valid() && c.Fed(11 * k)
      invariant c.Clean() ==>
        old(c.Clean()) && Grown(code, c.out.code) && c.out.pos == p + 11 * k && InitsCode(c.out.code, p, inits, k)
    {
      ghost var a := c.Now();
      c.Put2(MovImm(EAX, inits[k].value), StoreAbs(inits[k].addr, EAX));
      if c.Clean() {
        Extends(a, c.Now(), |c.loops|, {});
        GrownTwice(code, a.code, c.out.code);
        InitsMore(a.code, c.out.code, p, inits, k);
      }
      k := k + 1;
    }
  }

  lemma NoInits(code: Code, p: int, inits: seq<Init>)
    ensures Grown(code, code) && InitsCode(code, p, inits, 0)
  {
  }

  /** Initialisers, the call of main, and the entry jump to all that. */
  method PutStart(c: Compiler, inits: seq<Init>, entry: nat) returns (ok: bool)
    requires c.Valid()
    requires c.Clean() ==>
      entry == 1 && c.out.pending == map[0 := Local] && Here(c.out.code, 0, Jmp(RelTo(5, c.out.pos))) &&
      c.known == c.labels
    modifies c.out`pos, c.out`overflow, c.out`code, c.out`pending, c.out`sound, c.out.buf
    ensures ok ==> c.Valid() && c.Steady()
    ensures ok && c.Clean() ==>
      old(c.Clean()) && c.out.pending == map[] && Grown(old(c.out.code), c.out.code) && "main" in c.labels &&
      c.out.pos >= old(c.out.pos) &&
      IsJmp(c.out.code, 0, old(c.out.pos)) && StartCode(c.out.code, old(c.out.pos), inits, c.labels)
    ensures old(Ready(c) && c.out.pos + 11 * |inits| + 6 <= 65536) && "main" in c.labels ==> ok && c.Clean()
  {
    hide c.Valid, Progress, InitsCode, Grown, Here, RelTo, IsJmp;
    ghost var a := c.Now();
    c.InBuffer();
    var start := c.out.pos;
    PutInits(c, inits);
    if "main" !in c.known {
      return false;
    }
    ghost var b := c.Now();
    PutMain(c, c.known["main"]);
    if c.Clean() {
      InitsGrown(b.code, c.out.code, start, inits);
      GrownTwice(a.code, b.code, c.out.code);
      AtomsGrown(a.code, c.out.code);
      Reaches(c.out.code, 0, start);
    }
    EntryJump(c, entry, start);
    return true;
  }

  /** call main; ret: the operand is filled in after the ret. */
  method PutMain(c: Compiler, target: int)
    requires c.Valid()
    requires c.Clean() ==> c.out.pending == map[0 := Local] && "main" in c.labels && c.labels["main"] == target
    modifies c.out`pos, c.out`overflow, c.out`code, c.out`pending, c.out`sound, c.out.buf
    ensures c.Valid() && c.Fed(6)
    ensures c.Clean() ==>
      old(c.Clean()) && c.out.pending == map[0 := Local] && Grown(old(c.out.code), c.out.code) &&
      IsCallTo(c.out.code, old(c.out.pos), "main", c.labels) && Here(c.out.code, old(c.out.pos) + 5, Ret) &&
      c.out.pos == old(c.out.pos) + 6
  {
    hide c.Valid, RelTo, Grown, Stays, Faithful, Takes, Callable, Here, IsCallTo, c.Use, c.Clean;
    c.InBuffer();
    ghost var q, u := c.out.pos, c.Use();
    if c.Clean() {
      LabelInBuffer(c, "main", 0);
    }
    var j := OpenMain(c, target);
    ghost var v := c.Use();
    if c.Clean() {
      CallReaches(c.out.code, q, "main", c.labels);
    }
    FillCall(c, j, target, q);
    AddedAndRemoved(q);
    Chained(u, v, c.Use(), 0, 0, 6, 0, 0, 0);
  }

  /** The call of main, with its operand still open, and the return to the loader. */
  method OpenMain(c: Compiler, ghost target: int) returns (j: nat)
    requires c.Valid() && (c.Clean() ==> c.out.pending == map[0 := Local] && c.out.pos != 0)
    modifies c.out`pos, c.out`overflow, c.out`code, c.out`pending, c.out`sound, c.out.buf
    ensures c.Valid() && c.Fed(6)
    ensures var q := old(c.out.pos);
      c.Clean() ==>
        old(c.Clean()) && q != 0 && c.out.pending == map[0 := Local][q := Local] &&
        Grown(old(c.out.code), c.out.code) &&
        Here(c.out.code, q, CallRel(RelTo(q + 5, target))) && Here(c.out.code, q + 5, Ret) &&
        c.out.pos == q + 6 && j == q + 1
  {
    hide c.Valid, Progress, RelTo, Grown, Stays, Faithful, Takes, Callable, Here, c.Use, c.Clean;
    ghost var a, q, u := c.Now(), c.out.pos, c.Use();
    j := c.PutHole(CallRel(RelTo(c.out.pos + 5, target)), CallRel(0));
    ghost var b, v := c.Now(), c.Use();
    c.Put(Ret);
    if c.Clean() {
      Extends(a, b, |c.loops|, {q});
      Extends(b, c.Now(), |c.loops|, {});
      GrownTwice(a.code, b.code, c.out.code);
      HereGrown(b.code, c.out.code, q, CallRel(RelTo(q + 5, target)));
    }
    Chained(u, v, c.Use(), 0, 0, 5, 0, 0, 1);
  }

  /** Fill the operand of the call at q. */
  method FillCall(c: Compiler, j: nat, target: int, ghost q: int)
    requires c.Valid()
    requires c.Clean() ==>
      q in c.out.pending && c.out.pending[q] == Local && Here(c.out.code, q, CallRel(RelTo(q + 5, target))) &&
      j == q + 1 &&
      0 <= q <= CODE_MAX && 0 <= target <= CODE_MAX
    modifies c.out`pending, c.out`sound, c.out.buf
    ensures c.Valid() && c.Fed(0)
    ensures c.Clean() ==> old(c.Clean()) && c.Now() == old(c.Now()).(pending := old(c.out.pending) - {q})
  {
    hide c.Valid, RelTo, Stays, Faithful, Takes, Callable, c.Use;
    if c.Clean() {
      RelToReaches(q + 5, target);
    }
    c.Fill(j, Wrap(target - (j + 4)), q);
  }

  lemma AddedAndRemoved(q: int)
    ensures q != 0 ==> map[0 := Local][q := Local] - {q} == map[0 := Local]
  {
  }

  lemma CallReaches(code: Code, q: int, f: string, labels: Labels)
    requires f in labels && 0 <= labels[f] <= CODE_MAX && 0 <= q <= CODE_MAX &&
      Here(code, q, CallRel(RelTo(q + 5, labels[f])))
    ensures IsCallTo(code, q, f, labels)
  {
    hide RelTo;
    RelToReaches(q + 5, labels[f]);
  }

  lemma LabelInBuffer(c: Compiler, f: string, q: int)
    requires c.Valid() && c.Clean() && f in c.labels && q in c.out.pending
    ensures 0 <= c.labels[f] <= CODE_MAX && q < c.out.pos
  {
    LaidPending(c.out.buf[..c.out.pos], c.out.code, c.out.pending);
  }

  method EntryJump(c: Compiler, entry: nat, start: nat)
    requires c.Valid()
    requires c.Clean() ==> entry == 1 && c.out.pending == map[0 := Local] && Here(c.out.code, 0, Jmp(RelTo(5, start)))
    modifies c.out`pending, c.out`sound, c.out.buf
    ensures c.Valid() && c.Fed(0)
    ensures c.Clean() ==> old(c.Clean()) && c.out.pending == map[]
  {
    hide c.Valid, RelTo, c.Use, Stays, Faithful, Takes, Callable;
    RelToReaches(5, start);
    c.Fill(entry, Wrap(start - (entry + 4)), 0);
  }

  // ---- the whole program ------------------------------------------------------------------

  datatype StaticDef = StaticDef(name: string, init: Option<word>)

  const MAX_INITS: nat := 128

  /** Statics live right behind the code buffer. */
  function StaticAddr(base: word, k: nat): word {
    Wrap(base + CODE_MAX + 4 * k)
  }

  function StaticSyms(statics: seq<StaticDef>, base: word): (syms: Symbols)
    ensures |syms| == |statics|
  {
    seq(|statics|, k requires 0 <= k < |statics| => Entry(statics[k].name, Static(StaticAddr(base, k))))
  }

  /** Is the k-th static initialised?  Only the first 128 initialisers are recorded. */
  predicate Recorded(statics: seq<StaticDef>, k: nat)
    requires k < |statics|
  {
    statics[k].init.Some? && InitCount(statics, k) < MAX_INITS
  }

  function InitCount(statics: seq<StaticDef>, n: nat): nat
    requires n <= |statics|
  {
    if n == 0 then 0 else InitCount(statics, n - 1) + if statics[n - 1].init.Some? then 1 else 0
  }

  function InitsOf(statics: seq<StaticDef>, base: word, n: nat): seq<Init>
    requires n <= |statics|
  {
    if n == 0 then []
    else
      InitsOf(statics, base, n - 1) +
      if Recorded(statics, n - 1) then [Init(StaticAddr(base, n - 1), statics[n - 1].init.value)] else []
  }

  /** All initialisers are recorded exactly when there are at most 128. */
  lemma {:induction false} AllRecorded(statics: seq<StaticDef>, n: nat)
    requires n <= |statics|
    ensures (forall k :: 0 <= k < n && statics[k].init.Some? ==> Recorded(statics, k)) <==> InitCount(statics, n) <= 128
    decreases n
  {
    if n > 0 {
      AllRecorded(statics, n - 1);
    }
  }

  lemma {:induction false} InitsCounted(statics: seq<StaticDef>, base: word, n: nat)
    requires n <= |statics|
    ensures |InitsOf(statics, base, n)| ==
      if InitCount(statics, n) <= 128 then InitCount(statics, n) else 128
    decreases n
  {
    if n > 0 {
      InitsCounted(statics, base, n - 1);
    }
  }

  /** Give every static its address and its symbol. */
  method DeclareStatics(c: Compiler, statics: seq<StaticDef>) returns (inits: seq<Init>)
    requires c.Valid() && c.syms == []
    modifies c`syms, c.out`sound
    ensures c.Valid() && c.Kept(old(|statics| > 0 ==> c.SymRoom() >= |statics|), true, 0, 0, 0)
    ensures inits == InitsOf(statics, c.base, |statics|)
    ensures c.Clean() ==> old(c.Clean()) && c.syms == StaticSyms(statics, c.base)
  {
    hide c.Valid, Stays, Faithful, Takes, Callable, c.Use;
    ghost var u := c.Use();
    Still(u);
    inits := [];
    var k := 0;
    while k < |statics|
      invariant k <= |statics| && c.Valid() && c.Kept(old(k > 0 ==> c.SymRoom() >= k), true, 0, 0, 0)
      invariant inits == InitsOf(statics, c.base, k)
      invariant c.Clean() ==> old(c.Clean()) && c.syms == StaticSyms(statics, c.base)[..k]
    {
      var addr := StaticAddr(c.base, k);
      ghost var v := c.Use();
      c.AddSym(statics[k].name, Static(addr));
      Chained(u, v, c.Use(), 0, 0, 0, 0, 0, 0);
      InitsCounted(statics, c.base, k);
      if statics[k].init.Some? && |inits| < MAX_INITS {
        inits := inits + [Init(addr, statics[k].init.value)];
      }
      k := k + 1;
      assert StaticSyms(statics, c.base)[..k] ==
        StaticSyms(statics, c.base)[..k - 1] + [Entry(statics[k - 1].name, Static(addr))];
    }
    assert StaticSyms(statics, c.base)[..k] == StaticSyms(statics, c.base);
  }

  /** The entry jump is all that is left when the other passes are done. */
  lemma OnlyEntry(a: Snap, b: Snap, pending1: map<int, Tag>, pending2: map<int, Tag>)
    requires a.pending == map[0 := Local] && a.pos == 5 && Progress(a, b, 0, {})
    requires Cleared(b.pending, pending1, 2) && Cleared(pending1, pending2, 3)
    ensures pending2 == map[0 := Local]
  {
    assert a.pending[0] == Local;
    assert b.pending[0] == Local;
    assert pending1[0] == Local;
    assert pending2[0] == Local;
    forall q | q in pending2 ensures q == 0 {
      assert pending2[q] == pending1[q] == b.pending[q];
      assert q >= 5 ==> Outgoing(b.pending[q], 0);
      assert q < 5 ==> q in a.pending;
    }
  }

  /** Where the entry code starts: behind the functions and the literals. */
  function StartAt(defs: seq<Def>): int {
    At(defs, |defs|) + TextSize(LitsOf(defs, |defs|), |LitsOf(defs, |defs|)|)
  }

  /** A complete program: bytes encode code, code holds every function, the entry
      jump and the entry code, and the literals are where their addresses say. */
  ghost predicate ProgramImage(bytes: seq<byte>, code: Code, base: word, statics: seq<StaticDef>, defs: seq<Def>) {
    var labels := LabelsOf(defs, |defs|);
    var lits := LitsOf(defs, |defs|);
    Encoded(bytes, code) && |bytes| <= 65536 &&
    Compiled(code, defs, |defs|, StaticSyms(statics, base), labels) && "main" in labels &&
    IsJmp(code, 0, StartAt(defs)) && StartCode(code, StartAt(defs), InitsOf(statics, base, |statics|), labels) &&
    0 <= At(defs, |defs|) && StartAt(defs) <= |bytes| && bytes[At(defs, |defs|)..StartAt(defs)] == Texts(lits, |lits|)
  }

  function StaticNames(statics: seq<StaticDef>): set<string> {
    set k | 0 <= k < |statics| :: statics[k].name
  }

  /** All names that may be in the symbol table while fn is compiled, built-in functions apart. */
  function VisibleIn(statics: seq<StaticDef>, defs: seq<Def>, fn: Func): set<string> {
    StaticNames(statics) + FunctionNames(defs) + (set k | 0 <= k < |fn.params| :: fn.params[k]) + ListDeclares(fn.body)
  }

  /** No two names become one when they are cut, and functions have names of their own: neither a static
      nor a built-in function is called so. */
  ghost predicate Plain(statics: seq<StaticDef>, defs: seq<Def>) {
    (forall i :: 0 <= i < |defs| ==>
      CutApart(VisibleIn(statics, defs, defs[i].fn)) && Scopes.Truncate(defs[i].name) !in Scopes.Builtins()) &&
    StaticNames(statics) !! FunctionNames(defs)
  }

  /** Everything the compiler demands of a program: names in scope, a main, and no table
      or buffer overflow, reported or not. */
  ghost predicate Acceptable(base: word, statics: seq<StaticDef>, defs: seq<Def>) {
    var room := 225 - |statics|;
    0 <= room && Plain(statics, defs) && Fits(defs, room) && WellFormed(defs, StaticSyms(statics, base)) &&
    "main" in LabelsOf(defs, |defs|) &&
    StartAt(defs) + 11 * |InitsOf(statics, base, |statics|)| + 6 <= 65536
  }

  /** Compile a program.  Success means the image is complete, with no operand left
      to patch, unless names clash or a table silently overflowed; and none does if the
      program Fits. */
  method CompileProgram(base: word, statics: seq<StaticDef>, defs: seq<Def>) returns (c: Compiler, ok: bool)
    requires Framed(defs) && Distinct(defs)
    requires Linked(LitsOf(defs, |defs|), base, At(defs, |defs|))
    ensures fresh(c) && fresh(c.out) && fresh(c.out.buf)
    ensures ok && c.out.sound && Plain(statics, defs) ==>
      c.out.pos <= c.out.buf.Length && c.out.pending == map[] &&
      ProgramImage(c.out.buf[..c.out.pos], c.out.code, base, statics, defs)
    ensures var room := 225 - |statics|;
      ok ==> (c.out.sound <==> 0 <= room && Fits(defs, room))
    ensures Acceptable(base, statics, defs) ==> ok
  {
    hide c.Valid, Progress, LabelsOf, StaticSyms, ProgramImage, AfterDefs, Here, RelTo, Linked, Fits, WellFormed, Fine,
      InitsOf, StartAt;
    var inits, entry;
    c, inits, entry := Begin(base, statics, defs);
    ghost var a := c.Now();
    NothingUsed(c, defs);
    CompileDefs(c, defs);
    FineAfter(c, defs, StaticSyms(statics, base));
    if c.hadError {
      return c, false;
    }
    ok := LinkProgram(c, inits, entry, a, statics, defs);
    ok := ok && !c.out.overflow;
  }

  /** The statics, and the jump to the entry code. */
  method Begin(base: word, statics: seq<StaticDef>, ghost defs: seq<Def>)
    returns (c: Compiler, inits: seq<Init>, entry: nat)
    ensures fresh(c) && fresh(c.out) && fresh(c.out.buf) && c.Valid() && c.fixups == [] && c.strings == []
    ensures c.base == base && c.labels == LabelsOf(defs, |defs|) && inits == InitsOf(statics, base, |statics|)
    ensures c.out.data == map[]
    ensures c.Clean() ==>
      c.out.pos == 5 && c.syms == StaticSyms(statics, base) && c.loops == [] && c.exits == [] && c.known == map[] &&
      c.lits == [] && entry == 1 &&
      c.out.pending == map[0 := Local] && Here(c.out.code, 0, Jmp(RelTo(5, StartAt(defs))))
    ensures c.Clean() <==> |statics| <= 225
    ensures c.Clean() ==> c.SymRoom() == 225 - |statics|
  {
    hide c.Valid, Progress, Here, RelTo, LabelsOf, StartAt, InitsOf, StaticSyms, Grown, IsJmp, Callable;
    LabelsInBuffer(defs, |defs|);
    c, inits := Declared(base, statics, LabelsOf(defs, |defs|));
    entry := c.PutHole(Jmp(RelTo(5, StartAt(defs))), Jmp(0));
  }

  /** A compiler that knows the statics and nothing else. */
  method Declared(base: word, statics: seq<StaticDef>, ghost labels: Labels) returns (c: Compiler, inits: seq<Init>)
    requires forall f :: f in labels ==> 0 <= labels[f] <= CODE_MAX
    ensures fresh(c) && fresh(c.out) && fresh(c.out.buf) && c.Valid() && c.fixups == [] && c.strings == []
    ensures c.base == base && c.labels == labels && inits == InitsOf(statics, base, |statics|)
    ensures c.out.data == map[] && c.out.pos == 0 && c.out.pending == map[] && c.Use().callable
    ensures c.loops == [] && c.exits == [] && c.known == map[] && c.lits == []
    ensures c.Clean() ==> c.syms == StaticSyms(statics, base)
    ensures c.Clean() <==> |statics| <= 225
    ensures c.Clean() ==> c.SymRoom() == 225 - |statics|
  {
    hide c.Valid, c.Invariant, InitsOf, StaticSyms;
    c := new Compiler(base, [], labels);
    inits := DeclareStatics(c, statics);
  }

  lemma NothingUsed(c: Compiler, defs: seq<Def>)
    requires c.fixups == [] && c.strings == [] && (c.Clean() ==> c.out.pos == 5)
    ensures c.Clean() ==> Fine(c, defs, 0)
  {
  }

  lemma FineAfter(c: Compiler, defs: seq<Def>, syms: Symbols)
    ensures Fine(c, defs, |defs|) && WellFormed(defs, syms) && c.Honest() ==> Ready(c) && !c.hadError
  {
    hide FuncNamed, LabelsOf, CallsOf, LitsOf, At, Callable;
  }

  /** The passes after the last function. */
  method LinkProgram(c: Compiler, inits: seq<Init>, entry: nat, ghost a: Snap, ghost statics: seq<StaticDef>,
                     ghost defs: seq<Def>)
    returns (ok: bool)
    requires c.Valid() && c.labels == LabelsOf(defs, |defs|) && inits == InitsOf(statics, c.base, |statics|)
    requires Linked(LitsOf(defs, |defs|), c.base, At(defs, |defs|))
    requires c.Clean() ==>
      AfterDefs(c, defs, |defs|, a, StaticSyms(statics, c.base)) && c.out.data == map[] && entry == 1 &&
      a.pending == map[0 := Local] && a.pos == 5 && Here(a.code, 0, Jmp(RelTo(5, StartAt(defs))))
    modifies c`fixups, c`strings, c`lits, c.out, c.out.buf
    ensures ok ==> c.Valid() && c.Steady()
    ensures ok && c.Clean() ==>
      old(c.Clean()) && c.out.pos <= c.out.buf.Length && c.out.pending == map[] &&
      ProgramImage(c.out.buf[..c.out.pos], c.out.code, c.base, statics, defs)
    ensures old(Ready(c)) && "main" in c.labels && StartAt(defs) + 11 * |inits| + 6 <= 65536 ==>
      ok && c.Clean()
  {
    hide c.Valid, c.Invariant, Progress, Compiled, Cleared, Grown, Here, RelTo, StartCode, Linked, Texts, TextSize, At,
      LitsOf, LabelsOf, Spread, StaticSyms, IsJmp, ProgramImage;
    ghost var b := c.Now();
    ok := ResolveFixups(c);
    if !ok {
      return;
    }
    ghost var pending1 := c.out.pending;
    PlaceStrings(c);
    ghost var d := c.Now();
    if c.Clean() {
      OnlyEntry(a, b, pending1, d.pending);
      Extends(a, b, 0, {});
    }
    ok := PutStart(c, inits, entry);
    if ok && c.Clean() {
      Finished(c, d, c.base, statics, defs);
    }
  }

  lemma Finished(c: Compiler, d: Snap, base: word, statics: seq<StaticDef>, defs: seq<Def>)
    requires c.Valid() && c.Clean() && c.out.pending == map[] && c.labels == LabelsOf(defs, |defs|) &&
      "main" in c.labels
    requires Compiled(d.code, defs, |defs|, StaticSyms(statics, base), c.labels) && Grown(d.code, c.out.code)
    requires d.pos == StartAt(defs) <= c.out.pos && IsJmp(c.out.code, 0, d.pos) &&
      StartCode(c.out.code, d.pos, InitsOf(statics, base, |statics|), c.labels)
    requires var lits := LitsOf(defs, |defs|);
      c.out.data == Spread(Texts(lits, |lits|), At(defs, |defs|))
    ensures c.out.pos <= c.out.buf.Length
    ensures ProgramImage(c.out.buf[..c.out.pos], c.out.code, base, statics, defs)
  {
    hide Compiled, Grown, StartCode, IsJmp, At, TextSize, Texts, Laid, LabelsOf, LitsOf, StaticSyms, FuncCode;
    var bytes, lits, p := c.out.buf[..c.out.pos], LitsOf(defs, |defs|), At(defs, |defs|);
    AllEncoded(bytes, c.out.code);
    CompiledGrown(d.code, c.out.code, defs, StaticSyms(statics, base), c.labels);
    AtPositive(defs, |defs|);
    DataInPlace(bytes, c.out.code, map[], Texts(lits, |lits|), p);
  }

  lemma {:induction false} AtPositive(defs: seq<Def>, n: nat)
    requires n <= |defs|
    ensures At(defs, n) >= 5
    decreases n
  {
    if n > 0 {
      AtPositive(defs, n - 1);
    }
  }

  lemma AllEncoded(bytes: seq<byte>, code: Code)
    requires Laid(bytes, code, map[])
    ensures Encoded(bytes, code)
  {
    forall q | q in code ensures EncodedAt(bytes, q, code[q]) {
      assert LaidAt(bytes, q, code[q]);
    }
  }

  lemma CompiledGrown(code: Code, code': Code, defs: seq<Def>, statics: Symbols, labels: Labels)
    requires Compiled(code, defs, |defs|, statics, labels) && Grown(code, code')
    ensures Compiled(code', defs, |defs|, statics, labels)
  {
    hide FuncCode, Grown, At;
    forall i | 0 <= i < |defs| ensures FuncCode(code', At(defs, i), defs[i].fn, statics, labels) {
      FuncGrown(code, code', At(defs, i), defs[i].fn, statics, labels);
    }
  }

  lemma DataInPlace(bytes: seq<byte>, code: Code, pending: map<int, Tag>, text: seq<byte>, p: int)
    requires DataKept(bytes, code, pending, Spread(text, p)) && 0 <= p && p + |text| <= |bytes|
    ensures bytes[p..p + |text|] == text
  {
    forall k | 0 <= k < |text| ensures bytes[p + k] == text[k] {
      assert Within(p + k, p, |text|);
      assert Spread(text, p)[p + k] == text[k];
    }
  }
}
