/** How the machine's memory represents a source environment. */
module Simulation {
  import opened Base
  import opened Bindings
  import opened Word
  import opened X86
  import opened Machine
  import opened Source
  import opened Codegen
  import opened Steps

  /** A compiled program in memory.  statics places the first bindings of every
      environment; all of them lie below floor, and the stack stays above it. */
  datatype Ctx = Ctx(im: Image, p: Program, labels: Labels, statics: Symbols, floor: int)

  ghost predicate StaticsPlaced(c: Ctx) {
    |c.statics| == c.p.nstatics &&
    (forall k :: 0 <= k < |c.statics| ==>
      c.statics[k].val.Static? && Aligned(c.statics[k].val.addr) && c.statics[k].val.addr < c.floor) &&
    (forall i, j :: 0 <= i < j < |c.statics| ==> c.statics[i].val != c.statics[j].val)
  }

  /** syms are the statics followed by slots at or above lo, none of them the saved
      EBP or the return address, no two at the same place. */
  ghost predicate Placed(c: Ctx, syms: Symbols, ebp: int, lo: int) {
    |c.statics| <= |syms| && syms[..|c.statics|] == c.statics && c.floor <= lo &&
    (forall k :: |c.statics| <= k < |syms| ==> SlotOk(syms[k].val, ebp, lo)) &&
    (forall i, j :: |c.statics| <= i < j < |syms| ==> syms[i].val != syms[j].val)
  }

  predicate SlotOk(l: Loc, ebp: int, lo: int) {
    l.Slot? && (l.off <= -4 || l.off >= 8) && lo <= ebp + l.off && Aligned(ebp + l.off)
  }

  /** Memory m holds every defined value of env at the place of its symbol. */
  ghost predicate Sim(m: Memory, env: Env, syms: Symbols, ebp: int) {
    SameNames(env, syms) &&
    forall k :: 0 <= k < |env| && env[k].val.Some? ==> Read(m, Address(syms[k].val, ebp)) == env[k].val.value
  }

  ghost predicate IsVar(a: int, syms: Symbols, ebp: int) {
    exists k :: 0 <= k < |syms| && Address(syms[k].val, ebp) == a
  }

  /** From address lo up, m' differs from m at most in the variables. */
  ghost predicate Keeps(m: Memory, m': Memory, lo: int, syms: Symbols, ebp: int) {
    forall a :: a >= lo && !IsVar(a, syms, ebp) ==> Read(m', a) == Read(m, a)
  }

  lemma NotVar(c: Ctx, syms: Symbols, ebp: int, lo: int, a: int)
    requires StaticsPlaced(c) && Placed(c, syms, ebp, lo)
    requires c.floor <= a < lo || a == ebp || a == ebp + 4
    requires c.floor <= ebp
    ensures !IsVar(a, syms, ebp)
  {
    forall k | 0 <= k < |syms| ensures Address(syms[k].val, ebp) != a {
      if k < |c.statics| {
        assert syms[k] == syms[..|c.statics|][k] == c.statics[k];
      } else {
        assert SlotOk(syms[k].val, ebp, lo);
      }
    }
  }

  lemma VarAligned(c: Ctx, syms: Symbols, ebp: int, lo: int, k: int)
    requires StaticsPlaced(c) && Placed(c, syms, ebp, lo) && 0 <= k < |syms|
    ensures Aligned(Address(syms[k].val, ebp))
    ensures Address(syms[k].val, ebp) >= lo || Address(syms[k].val, ebp) < c.floor
  {
    if k < |c.statics| {
      assert syms[k] == syms[..|c.statics|][k] == c.statics[k];
    } else {
      assert SlotOk(syms[k].val, ebp, lo);
    }
  }

  lemma VarsDistinct(c: Ctx, syms: Symbols, ebp: int, lo: int, i: int, j: int)
    requires StaticsPlaced(c) && Placed(c, syms, ebp, lo) && 0 <= i < j < |syms|
    ensures Address(syms[i].val, ebp) != Address(syms[j].val, ebp)
  {
    var n := |c.statics|;
    assert forall k :: 0 <= k < n ==> syms[k] == syms[..n][k] == c.statics[k];
    if j >= n {
      assert SlotOk(syms[j].val, ebp, lo);
      if i >= n {
        assert SlotOk(syms[i].val, ebp, lo);
      }
    }
  }

  /** A store to no variable leaves the environment represented. */
  lemma StoreElsewhere(m: Memory, a: int, v: word, env: Env, syms: Symbols, ebp: int)
    requires Sim(m, env, syms, ebp) && !IsVar(a, syms, ebp)
    ensures Sim(m[a := v], env, syms, ebp)
  {
  }

  lemma StoreToVar(c: Ctx, m: Memory, k: int, v: word, env: Env, syms: Symbols, ebp: int, lo: int)
    requires StaticsPlaced(c) && Placed(c, syms, ebp, lo)
    requires Sim(m, env, syms, ebp) && 0 <= k < |syms|
    ensures Sim(m[Address(syms[k].val, ebp) := v], env[k := Entry(env[k].name, Some(v))], syms, ebp)
  {
    var m' := m[Address(syms[k].val, ebp) := v];
    var env' := env[k := Entry(env[k].name, Some(v))];
    forall j | 0 <= j < |env'| && env'[j].val.Some?
      ensures Read(m', Address(syms[j].val, ebp)) == env'[j].val.value
    {
      if j < k {
        VarsDistinct(c, syms, ebp, lo, j, k);
      } else if k < j {
        VarsDistinct(c, syms, ebp, lo, k, j);
      }
    }
  }

  lemma KeepsStep(m: Memory, a: int, v: word, lo: int, syms: Symbols, ebp: int)
    requires a < lo || IsVar(a, syms, ebp)
    ensures Keeps(m, m[a := v], lo, syms, ebp)
  {
  }

  lemma KeepsAll(m: Memory, lo: int, syms: Symbols, ebp: int)
    ensures Keeps(m, m, lo, syms, ebp)
  {
  }

  lemma KeptRead(m: Memory, m': Memory, lo: int, syms: Symbols, ebp: int, a: int)
    requires Keeps(m, m', lo, syms, ebp) && a >= lo && !IsVar(a, syms, ebp)
    ensures Read(m', a) == Read(m, a)
  {
  }

  lemma KeepsTrans(m: Memory, m1: Memory, m2: Memory, lo: int, lo2: int, syms: Symbols, ebp: int)
    requires Keeps(m, m1, lo, syms, ebp) && Keeps(m1, m2, lo2, syms, ebp) && lo2 <= lo
    ensures Keeps(m, m2, lo, syms, ebp)
  {
    forall a | a >= lo && !IsVar(a, syms, ebp) ensures Read(m2, a) == Read(m, a) {
      assert Read(m1, a) == Read(m, a);
    }
  }

  /** Memory equal on all variables represents the same environment. */
  lemma SimTransfer(m: Memory, m': Memory, env: Env, syms: Symbols, ebp: int)
    requires Sim(m, env, syms, ebp)
    requires forall k :: 0 <= k < |syms| ==> Read(m', Address(syms[k].val, ebp)) == Read(m, Address(syms[k].val, ebp))
    ensures Sim(m', env, syms, ebp)
  {
  }

  lemma SimUndefined(m: Memory, env: Env, syms: Symbols, ebp: int, x: string, l: Loc)
    requires Sim(m, env, syms, ebp)
    ensures Sim(m, env + [Entry(x, None)], syms + [Entry(x, l)], ebp)
  {
  }

  lemma SimPrefix(m: Memory, env: Env, syms: Symbols, ebp: int, n: nat)
    requires Sim(m, env, syms, ebp) && n <= |env|
    ensures Sim(m, env[..n], syms[..n], ebp)
  {
  }

  /** Static places do not depend on the frame. */
  lemma SimStatics(c: Ctx, m: Memory, env: Env, ebp: int, ebp': int)
    requires StaticsPlaced(c) && Sim(m, env, c.statics, ebp)
    ensures Sim(m, env, c.statics, ebp')
  {
  }

  /** Put back together: statics from one environment, the rest from another. */
  lemma SimJoin(c: Ctx, m: Memory, genv: Env, lenv: Env, syms: Symbols, ebp: int)
    requires StaticsPlaced(c) && |syms| >= |c.statics| && syms[..|c.statics|] == c.statics
    requires Sim(m, genv, c.statics, ebp) && Sim(m, lenv, syms[|c.statics|..], ebp)
    ensures Sim(m, genv + lenv, syms, ebp)
  {
    var n := |c.statics|;
    forall k | 0 <= k < |syms|
      ensures (genv + lenv)[k].name == syms[k].name
      ensures (genv + lenv)[k].val.Some? ==> Read(m, Address(syms[k].val, ebp)) == (genv + lenv)[k].val.value
    {
      if k < n {
        assert syms[k] == syms[..n][k];
      } else {
        assert syms[k] == syms[n..][k - n];
      }
    }
  }

  /** A call that changed nothing from esp up but statics leaves the locals alone. */
  lemma LocalsSurvive(c: Ctx, env: Env, genv: Env, syms: Symbols, ebp: int, esp: int, m: Memory, m': Memory)
    requires StaticsPlaced(c) && Placed(c, syms, ebp, esp) && Sim(m, env, syms, ebp)
    requires Keeps(m, m', esp, c.statics, ebp) && Sim(m', genv, c.statics, ebp)
    ensures Sim(m', genv + env[c.p.nstatics..], syms, ebp) && Keeps(m, m', esp, syms, ebp)
  {
    var n := |c.statics|;
    assert forall k :: 0 <= k < n ==> syms[k] == syms[..n][k] == c.statics[k];
    var lenv, lsyms := env[n..], syms[n..];
    forall k | 0 <= k < |lenv|
      ensures lenv[k].name == lsyms[k].name
      ensures lenv[k].val.Some? ==> Read(m', Address(lsyms[k].val, ebp)) == lenv[k].val.value
    {
      assert SlotOk(syms[n + k].val, ebp, esp);
      var a := Address(syms[n + k].val, ebp);
      assert !IsVar(a, c.statics, ebp);
      assert Read(m', a) == Read(m, a);
      assert lenv[k] == env[n + k] && lsyms[k] == syms[n + k];
    }
    SimJoin(c, m', genv, lenv, syms, ebp);
    forall a | a >= esp && !IsVar(a, syms, ebp) ensures Read(m', a) == Read(m, a) {
      forall k | 0 <= k < n ensures Address(c.statics[k].val, ebp) != a {
        assert Address(syms[k].val, ebp) != a;
      }
      assert !IsVar(a, c.statics, ebp);
    }
  }

  /** Stack traffic between floor and esp does not show in the statics. */
  lemma StaticsSurvive(c: Ctx, env: Env, syms: Symbols, ebp: int, lo: int, m: Memory, m': Memory)
    requires StaticsPlaced(c) && Placed(c, syms, ebp, lo) && Sim(m, env, syms, ebp)
    requires forall a :: a < c.floor ==> Read(m', a) == Read(m, a)
    ensures |env| >= c.p.nstatics && Sim(m', env[..c.p.nstatics], c.statics, ebp)
  {
    SimPrefix(m, env, syms, ebp, c.p.nstatics);
    SimTransfer(m, m', env[..c.p.nstatics], c.statics, ebp);
  }

  // ---- preconditions and postconditions of the simulation --------------------------

  ghost predicate FuncOk(c: Ctx, f: string)
    requires f in c.p.funcs
  {
    var fn := c.p.funcs[f];
    f in c.labels && FuncCode(c.im.code, c.labels[f], fn, c.statics, c.labels) &&
    fn.frame % 4 == 0 && ListDeep(fn.body, 0) + fn.frame >= 0 && ListFits(fn.body)
  }

  /** The image holds every function of the program, with a frame that covers the
      deepest slot its body uses. */
  ghost predicate Good(c: Ctx) {
    StaticsPlaced(c) && 8 <= c.floor &&
    (forall q :: q in c.im.code ==> 0 <= q && c.im.base + q + 8 < W) &&
    (forall f {:trigger FuncOk(c, f)} :: f in c.p.funcs ==> FuncOk(c, f))
  }

  ghost predicate Ready(c: Ctx, env: Env, syms: Symbols, s: State) {
    |env| == |syms| >= |c.statics| == c.p.nstatics && Placed(c, syms, s.ebp, s.esp) && s.esp % 4 == 0 &&
    s.ebp >= s.esp && s.ebp + 8 < W &&
    Sim(s.mem, env, syms, s.ebp)
  }

  /** An evaluated expression: value in EAX, stack and frame pointer as before. */
  ghost predicate ExprDone(c: Ctx, r: ERes, size: nat, syms: Symbols, s: State, t: State) {
    Reach(c.im, s, t) &&
    (r.Val? ==>
      t.eip == s.eip + size && t.eax == r.v && t.esp == s.esp && t.ebp == s.ebp &&
      Sim(t.mem, r.env, syms, s.ebp) && Keeps(s.mem, t.mem, s.esp, syms, s.ebp)) &&
    (r.Fault? ==> Step(c.im, t) == DivideFault) && (r.Timeout? ==> Lasts(c.im, t, r.rounds))
  }

  predicate Room(c: Ctx, esp: int, r: ERes) {
    !r.Wrong? && esp - r.need >= c.floor
  }

  /** Evaluated arguments: pushed left to right, the last one at ESP. */
  ghost predicate ArgsDone(c: Ctx, r: ARes, size: nat, syms: Symbols, s: State, t: State) {
    Reach(c.im, s, t) &&
    (r.Vals? ==>
      t.eip == s.eip + size && t.esp == s.esp - 4 * |r.vs| && t.ebp == s.ebp &&
      Sim(t.mem, r.env, syms, s.ebp) && Keeps(s.mem, t.mem, s.esp, syms, s.ebp) &&
      (forall k :: 0 <= k < |r.vs| ==> Word32(t.mem, t.esp, |r.vs| - 1 - k) == r.vs[k])) &&
    (r.AFault? ==> Step(c.im, t) == DivideFault) && (r.ATimeout? ==> Lasts(c.im, t, r.rounds))
  }

  predicate ARoom(c: Ctx, esp: int, r: ARes) {
    !r.AWrong? && esp - r.need >= c.floor
  }

  /** A call seen by its caller, from the callee's first instruction s: it returns to
      the address on the stack, keeps EBP and touches nothing above the argc
      argument words but the statics. */
  ghost predicate CallDone(c: Ctx, r: ERes, argc: nat, s: State, t: State) {
    Reach(c.im, s, t) &&
    (r.Val? ==>
      t.eip == Read(s.mem, s.esp) - c.im.base && t.esp == s.esp + 4 && t.ebp == s.ebp && t.eax == r.v &&
      Sim(t.mem, r.env, c.statics, s.ebp) && Keeps(s.mem, t.mem, s.esp + 4 + 4 * argc, c.statics, s.ebp)) &&
    (r.Fault? ==> Step(c.im, t) == DivideFault) && (r.Timeout? ==> Lasts(c.im, t, r.rounds))
  }

  /** Between statements: ESP at or below the deepest slot, slots above LOCAL_OFFSET. */
  ghost predicate StmtReady(c: Ctx, env: Env, syms: Symbols, off: int, deep: int, s: State) {
    |env| == |syms| >= |c.statics| == c.p.nstatics && Placed(c, syms, s.ebp, s.ebp + off) &&
    Sim(s.mem, env, syms, s.ebp) &&
    c.floor <= s.esp <= s.ebp + deep && deep <= off <= 0 && off % 4 == 0 &&
    s.esp % 4 == 0 && s.ebp % 4 == 0 && s.ebp + 8 < W
  }

  /** The caller's state, as the return sequence rebuilds it. */
  ghost predicate HasReturned(c: Ctx, v: Option<word>, env: Env, s: State, t: State)
    requires |env| >= |c.statics|
  {
    t.esp == s.ebp + 8 && t.ebp == Read(s.mem, s.ebp) && t.eip == Read(s.mem, s.ebp + 4) - c.im.base &&
    (v.Some? ==> t.eax == v.value) && Sim(t.mem, env[..|c.statics|], c.statics, 0)
  }

  /** A finished statement: where control is, what memory represents, and that
      nothing from LOCAL_OFFSET up has changed but the variables. */
  ghost predicate StmtDone(c: Ctx, r: SRes, size: nat, syms: Symbols, syms': Symbols, off: int,
                           brk: Option<int>, cont: Option<int>, s: State, t: State)
  {
    Reach(c.im, s, t) &&
    (r.SFault? ==> Step(c.im, t) == DivideFault) && (r.STimeout? ==> Lasts(c.im, t, r.rounds)) &&
    (r.Done? ==>
      |r.env| >= |c.statics| && Keeps(s.mem, t.mem, s.ebp + off, syms, s.ebp) &&
      match r.ctl
      case Normal => Running(r.env, syms', s, t) && t.eip == s.eip + size
      case Broke => brk.Some? ==> Running(r.env, syms, s, t) && t.eip == brk.value
      case Continued => cont.Some? && Running(r.env, syms, s, t) && t.eip == cont.value && Far(c.im, s, t)
      case Returned(v) => HasReturned(c, v, r.env, s, t))
  }

  ghost predicate Running(env: Env, syms: Symbols, s: State, t: State) {
    t.esp == s.esp && t.ebp == s.ebp && Sim(t.mem, env, syms, s.ebp)
  }

  predicate SRoom(c: Ctx, esp: int, r: SRes) {
    !r.SWrong? && esp - r.need >= c.floor
  }

  lemma ReadyForExpr(c: Ctx, env: Env, syms: Symbols, off: int, deep: int, s: State)
    requires StmtReady(c, env, syms, off, deep, s)
    ensures Ready(c, env, syms, s)
  {
    forall k | |c.statics| <= k < |syms| ensures SlotOk(syms[k].val, s.ebp, s.esp) {
      assert SlotOk(syms[k].val, s.ebp, s.ebp + off);
    }
  }

  /** Still ready after control moved on without touching ESP and EBP. */
  lemma StillReady(c: Ctx, env: Env, syms: Symbols, off: int, deep: int, s: State, env': Env, deep': int, t: State)
    requires StmtReady(c, env, syms, off, deep, s) && deep <= deep' <= off
    requires |env'| == |env| && Running(env', syms, s, t)
    ensures StmtReady(c, env', syms, off, deep', t)
  {
  }

  lemma PlacedLower(c: Ctx, syms: Symbols, ebp: int, lo: int, lo': int)
    requires Placed(c, syms, ebp, lo) && c.floor <= lo' <= lo
    ensures Placed(c, syms, ebp, lo')
  {
    forall k | |c.statics| <= k < |syms| ensures SlotOk(syms[k].val, ebp, lo') {
      assert SlotOk(syms[k].val, ebp, lo);
    }
  }

  /** A new slot right below LOCAL_OFFSET. */
  lemma PlacedPush(c: Ctx, syms: Symbols, x: string, ebp: int, off: int)
    requires StaticsPlaced(c) && Placed(c, syms, ebp, ebp + off) && off <= 0 && off % 4 == 0 && ebp % 4 == 0
    requires c.floor <= ebp + off - 4 && 0 <= ebp + off - 4 && ebp + off - 4 < W
    ensures Placed(c, syms + [Entry(x, Slot(off - 4))], ebp, ebp + off - 4)
  {
    var syms' := syms + [Entry(x, Slot(off - 4))];
    PlacedLower(c, syms, ebp, ebp + off, ebp + off - 4);
    assert syms'[..|c.statics|] == syms[..|c.statics|];
    forall k | |c.statics| <= k < |syms'|
      ensures SlotOk(syms'[k].val, ebp, ebp + off - 4)
      ensures k < |syms| ==> syms'[k].val != Slot(off - 4)
    {
      if k < |syms| {
        assert SlotOk(syms[k].val, ebp, ebp + off);
      }
    }
  }

  /** Addresses from LOCAL_OFFSET up are variables of the extended table only if
      they were variables already. */
  lemma KeepsNarrow(m: Memory, m': Memory, lo: int, off: int, syms: Symbols, e: Entry<Loc>, ebp: int)
    requires Keeps(m, m', lo, syms + [e], ebp) && e.val.Slot? && e.val.off < off && lo <= ebp + off
    ensures Keeps(m, m', ebp + off, syms, ebp)
  {
    forall a | a >= ebp + off && !IsVar(a, syms, ebp) ensures Read(m', a) == Read(m, a) {
      assert !IsVar(a, syms + [e], ebp);
    }
  }

  lemma KeepsRaise(m: Memory, m': Memory, lo: int, lo': int, syms: Symbols, ebp: int)
    requires Keeps(m, m', lo, syms, ebp) && lo <= lo'
    ensures Keeps(m, m', lo', syms, ebp)
  {
  }

  /** Control moved from s to u with the frame intact. */
  ghost predicate Moved(c: Ctx, syms: Symbols, off: int, s: State, u: State) {
    Reach(c.im, s, u) && u.esp == s.esp && u.ebp == s.ebp && Keeps(s.mem, u.mem, s.ebp + off, syms, s.ebp)
  }

  lemma MovedOn(c: Ctx, syms: Symbols, off: int, s: State, u: State, v: State)
    requires Moved(c, syms, off, s, u) && Moved(c, syms, off, u, v)
    ensures Moved(c, syms, off, s, v)
  {
    Then(c.im, s, u, v);
    KeepsTrans(s.mem, u.mem, v.mem, s.ebp + off, s.ebp + off, syms, s.ebp);
  }

  /** Moving on and then finishing a statement is finishing it. */
  lemma After(c: Ctx, r: SRes, size': nat, size: nat, syms: Symbols, syms': Symbols, off: int, off': int,
              brk: Option<int>, cont: Option<int>, env: Env, deep: int, s: State, u: State, t: State)
    requires StaticsPlaced(c) && StmtReady(c, env, syms, off, deep, s) && Moved(c, syms, off, s, u) && off' <= off
    requires StmtDone(c, r, size', syms, syms', off', brk, cont, u, t)
    requires u.eip + size' == s.eip + size || (r.Done? ==> r.ctl != Normal)
    ensures StmtDone(c, r, size, syms, syms', off, brk, cont, s, t)
  {
    Then(c.im, s, u, t);
    if r.Done? {
      if r.ctl.Continued? {
        FarOn(c.im, s, u, t);
      }
      KeepsRaise(u.mem, t.mem, s.ebp + off', s.ebp + off, syms, s.ebp);
      KeepsTrans(s.mem, u.mem, t.mem, s.ebp + off, s.ebp + off, syms, s.ebp);
      NotVar(c, syms, s.ebp, s.ebp + off, s.ebp);
      NotVar(c, syms, s.ebp, s.ebp + off, s.ebp + 4);
      assert Read(u.mem, s.ebp) == Read(s.mem, s.ebp) && Read(u.mem, s.ebp + 4) == Read(s.mem, s.ebp + 4);
    }
  }

  /** Leaving the scope of the newest symbol. */
  lemma DropNewest(c: Ctx, r: SRes, size: nat, syms: Symbols, e: Entry<Loc>, off: int, off': int,
                   brk: Option<int>, cont: Option<int>, u: State, t: State)
    requires StmtDone(c, r, size, syms + [e], syms + [e], off', brk, cont, u, t)
    requires |syms| >= |c.statics| && (r.Done? ==> |r.env| == |syms| + 1)
    requires e.val.Slot? && e.val.off < off && off' <= off
    ensures StmtDone(c, Scoped(r, |syms|), size, syms, syms, off, brk, cont, u, t)
  {
    if r.Done? {
      KeepsNarrow(u.mem, t.mem, u.ebp + off', off, syms, e, u.ebp);
      var n := |syms|;
      assert (syms + [e])[..n] == syms;
      assert r.env[..n][..|c.statics|] == r.env[..|c.statics|];
      if (r.ctl.Normal? || r.ctl.Continued? || (r.ctl.Broke? && brk.Some?)) {
        SimPrefix(t.mem, r.env, syms + [e], u.ebp, n);
      }
    }
  }

  /** Ready for what follows st, with its binding if it was a let. */
  lemma NextReady(c: Ctx, st: Stmt, env: Env, env': Env, syms: Symbols, off: int, deep: int, deep': int, s: State,
                  u: State)
    requires StaticsPlaced(c) && StmtReady(c, env, syms, off, deep, s)
    requires Running(env', StmtSyms(st, syms, off), s, u)
    requires deep <= deep' <= StmtOff(st, off)
    ensures StmtReady(c, env', StmtSyms(st, syms, off), StmtOff(st, off), deep', u)
  {
    if st.Let? {
      PlacedPush(c, syms, st.x, s.ebp, off);
    } else {
      PlacedLower(c, syms, s.ebp, s.ebp + off, s.ebp + StmtOff(st, off));
    }
  }

  /** LOCAL_OFFSET may be lower than the lowest visible slot. */
  lemma LowerReady(c: Ctx, env: Env, syms: Symbols, off: int, deep: int, off': int, deep': int, s: State)
    requires StmtReady(c, env, syms, off, deep, s) && deep <= deep' <= off' <= off && off' % 4 == 0
    ensures StmtReady(c, env, syms, off', deep', s)
  {
    PlacedLower(c, syms, s.ebp, s.ebp + off, s.ebp + off');
  }

  /** A statement that ends at a jump goes on to the jump's target. */
  lemma Onward(c: Ctx, r: SRes, size': nat, size: nat, syms: Symbols, off: int,
               brk: Option<int>, cont: Option<int>, s: State, t: State) returns (t': State)
    requires StmtDone(c, r, size', syms, syms, off, brk, cont, s, t)
    requires IsJmp(c.im.code, s.eip + size', s.eip + size)
    ensures StmtDone(c, r, size, syms, syms, off, brk, cont, s, t')
  {
    t' := t;
    if r.Done? && r.ctl.Normal? {
      t' := Jump(c.im, s, t, s.eip + size);
    }
  }

  // ---- function entry and exit --------------------------------------------------------

  /** After the prologue, statics and arguments are the environment of the body. */
  lemma EntryReady(c: Ctx, fn: Func, vs: seq<word>, genv: Env, s: State, u: State)
    requires StaticsPlaced(c) && |genv| == c.p.nstatics && |fn.params| == |vs|
    requires s.esp % 4 == 0 && fn.frame % 4 == 0 && c.floor <= s.esp - 4 - fn.frame && s.esp + 4 + 4 * |vs| < W
    requires Sim(s.mem, genv, c.statics, s.ebp) && ListDeep(fn.body, 0) + fn.frame >= 0
    requires forall k :: 0 <= k < |vs| ==> Word32(s.mem, s.esp + 4, k) == vs[k]
    requires u.ebp == s.esp - 4 && u.esp == s.esp - 4 - fn.frame && u.mem == s.mem[s.esp - 4 := s.ebp]
    ensures StmtReady(c, genv + Bind(fn.params, vs), c.statics + ParamSyms(fn.params), 0, ListDeep(fn.body, 0), u)
  {
    hide ListDeep, IsVar, ParamSyms, Bind, Placed, Sim, StaticsPlaced, Word32;
    StaticsCounted(c);
    FrameAligned(s.esp, fn.frame);
    ParamsPlaced(c, fn.params, u.ebp);
    EntrySim(c, fn.params, vs, genv, s, u);
  }

  lemma FrameAligned(esp: int, frame: int)
    requires esp % 4 == 0 && frame % 4 == 0
    ensures (esp - 4) % 4 == 0 && (esp - 4 - frame) % 4 == 0
  {
  }

  lemma StaticsCounted(c: Ctx)
    requires StaticsPlaced(c)
    ensures |c.statics| == c.p.nstatics
  {
  }

  lemma ParamsPlaced(c: Ctx, params: seq<string>, ebp: int)
    requires ebp % 4 == 0 && c.floor <= ebp && 0 <= ebp && ebp + 8 + 4 * |params| < W
    ensures Placed(c, c.statics + ParamSyms(params), ebp, ebp)
  {
    var psyms := ParamSyms(params);
    var syms := c.statics + psyms;
    assert syms[..|c.statics|] == c.statics;
    forall k | |c.statics| <= k < |syms| ensures SlotOk(syms[k].val, ebp, ebp) {
      assert syms[k] == psyms[k - |c.statics|];
      assert (ebp + 8 + 4 * (k - |c.statics|)) % 4 == 0;
    }
    forall i, j | |c.statics| <= i < j < |syms| ensures syms[i].val != syms[j].val {
      assert syms[i] == psyms[i - |c.statics|] && syms[j] == psyms[j - |c.statics|];
    }
  }

  lemma EntrySim(c: Ctx, params: seq<string>, vs: seq<word>, genv: Env, s: State, u: State)
    requires StaticsPlaced(c) && |params| == |vs| && Sim(s.mem, genv, c.statics, s.ebp)
    requires s.esp % 4 == 0 && c.floor <= s.esp - 4 && u.ebp == s.esp - 4 && u.mem == s.mem[s.esp - 4 := s.ebp]
    requires forall k :: 0 <= k < |vs| ==> Word32(s.mem, s.esp + 4, k) == vs[k]
    ensures Sim(u.mem, genv + Bind(params, vs), c.statics + ParamSyms(params), u.ebp)
  {
    hide Sim;
    var syms := c.statics + ParamSyms(params);
    SimStatics(c, s.mem, genv, s.ebp, u.ebp);
    forall a | a < c.floor ensures Read(u.mem, a) == Read(s.mem, a) {
    }
    SimTransfer(s.mem, u.mem, genv, c.statics, u.ebp);
    ArgsSim(params, vs, s, u);
    assert syms[|c.statics|..] == ParamSyms(params) && syms[..|c.statics|] == c.statics;
    SimJoin(c, u.mem, genv, Bind(params, vs), syms, u.ebp);
  }

  lemma ArgsSim(params: seq<string>, vs: seq<word>, s: State, u: State)
    requires |params| == |vs| && u.ebp == s.esp - 4 && u.mem == s.mem[s.esp - 4 := s.ebp]
    requires forall k :: 0 <= k < |vs| ==> Word32(s.mem, s.esp + 4, k) == vs[k]
    ensures Sim(u.mem, Bind(params, vs), ParamSyms(params), u.ebp)
  {
    forall k | 0 <= k < |vs| ensures Read(u.mem, Address(ParamSyms(params)[k].val, u.ebp)) == vs[k] {
      assert Word32(s.mem, s.esp + 4, k) == vs[k];
    }
  }

  /** Above the arguments, a body only changed statics. */
  lemma ExitKeeps(c: Ctx, fn: Func, s: State, u: State, m: Memory)
    requires u.ebp == s.esp - 4 && u.mem == s.mem[s.esp - 4 := s.ebp] && c.floor <= u.ebp
    requires StaticsPlaced(c) && Keeps(u.mem, m, u.ebp, c.statics + ParamSyms(fn.params), u.ebp)
    ensures Keeps(s.mem, m, s.esp + 4 + 4 * |fn.params|, c.statics, s.ebp)
  {
    var psyms := ParamSyms(fn.params);
    var syms := c.statics + psyms;
    forall a | a >= s.esp + 4 + 4 * |fn.params| && !IsVar(a, c.statics, s.ebp) ensures Read(m, a) == Read(s.mem, a) {
      forall k | 0 <= k < |syms| ensures Address(syms[k].val, u.ebp) != a {
        if k < |c.statics| {
          assert syms[k] == c.statics[k];
          assert Address(c.statics[k].val, s.ebp) != a;
        } else {
          assert syms[k] == psyms[k - |c.statics|];
        }
      }
      assert !IsVar(a, syms, u.ebp);
    }
  }
}
