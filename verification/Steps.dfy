/** Runs of the short instruction sequences that the layouts are made of. */
module Steps {
  import opened Base
  import opened Word
  import opened X86
  import opened Machine
  import opened Source
  import opened Codegen

  function Address(l: Loc, ebp: int): int {
    match l
    case Slot(o) => ebp + o
    case Static(a) => a
  }

  lemma PushEax(im: Image, s0: State, s: State) returns (t: State)
    requires Reach(im, s0, s) && Here(im.code, s.eip, Push(EAX)) && s.esp >= 4 && s.esp % 4 == 0
    ensures Reach(im, s0, t)
    ensures t == s.(esp := s.esp - 4, mem := s.mem[s.esp - 4 := s.eax], eip := s.eip + 1)
  {
    t := s.(esp := s.esp - 4, mem := s.mem[s.esp - 4 := s.eax], eip := s.eip + 1);
    Go(im, s0, s, Push(EAX), t);
  }

  lemma LoadVar(im: Image, s0: State, s: State, r: Reg, l: Loc) returns (t: State)
    requires Reach(im, s0, s) && IsLoad(im.code, s.eip, r, l) && Aligned(Address(l, s.ebp))
    ensures Reach(im, s0, t)
    ensures t == Set(s.(eip := s.eip + 6), r, Read(s.mem, Address(l, s.ebp)))
  {
    t := Set(s.(eip := s.eip + 6), r, Read(s.mem, Address(l, s.ebp)));
    Go(im, s0, s, im.code[s.eip], t);
  }

  lemma StoreVar(im: Image, s0: State, s: State, l: Loc) returns (t: State)
    requires Reach(im, s0, s) && IsStore(im.code, s.eip, l, EAX) && Aligned(Address(l, s.ebp))
    ensures Reach(im, s0, t)
    ensures t == s.(mem := s.mem[Address(l, s.ebp) := s.eax], eip := s.eip + 6)
  {
    t := s.(mem := s.mem[Address(l, s.ebp) := s.eax], eip := s.eip + 6);
    Go(im, s0, s, im.code[s.eip], t);
  }

  lemma SetEax(im: Image, s0: State, s: State, v: word) returns (t: State)
    requires Reach(im, s0, s) && Here(im.code, s.eip, MovImm(EAX, v))
    ensures Reach(im, s0, t) && t == s.(eax := v, eip := s.eip + 5)
  {
    t := s.(eax := v, eip := s.eip + 5);
    Go(im, s0, s, MovImm(EAX, v), t);
  }

  lemma UnaryOp(im: Image, s0: State, s: State, u: UnOp) returns (t: State)
    requires Reach(im, s0, s) && Here(im.code, s.eip, if u.Minus? then Neg(EAX) else Not(EAX))
    ensures Reach(im, s0, t) && t == s.(eax := UnVal(u, s.eax), eip := s.eip + 2)
  {
    t := s.(eax := UnVal(u, s.eax), eip := s.eip + 2);
    Go(im, s0, s, im.code[s.eip], t);
  }

  lemma Jump(im: Image, s0: State, s: State, target: int) returns (t: State)
    requires Reach(im, s0, s) && IsJmp(im.code, s.eip, target)
    ensures Reach(im, s0, t) && t == s.(eip := target)
  {
    t := s.(eip := target);
    Go(im, s0, s, im.code[s.eip], t);
  }

  lemma JumpFar(im: Image, s0: State, s: State, target: int)
    requires Reach(im, s0, s) && IsJmp(im.code, s.eip, target)
    ensures Far(im, s0, s.(eip := target))
  {
    var t := s.(eip := target);
    assert Runs(im, t, 0, t);
    assert Runs(im, s, 1, t);
    FarOn(im, s0, s, t);
  }

  /** A conditional jump after cmp a, b goes exactly when the relation holds. */
  lemma Branch(im: Image, s0: State, s: State, cc: CC, a: word, b: word, target: int) returns (t: State)
    requires Reach(im, s0, s) && IsJcc(im.code, s.eip, cc, target) && s.flags == Compare(a, b)
    ensures Reach(im, s0, t) && t == s.(eip := if Relation(cc, a, b) then target else s.eip + 6)
  {
    FlagsDecide(cc, a, b);
    t := s.(eip := if Relation(cc, a, b) then target else s.eip + 6);
    Go(im, s0, s, im.code[s.eip], t);
  }

  lemma CompareZero(im: Image, s0: State, s: State) returns (t: State)
    requires Reach(im, s0, s) && Here(im.code, s.eip, CmpEaxImm(0))
    ensures Reach(im, s0, t) && t == s.(flags := Compare(s.eax, 0), eip := s.eip + 5)
  {
    t := s.(flags := Compare(s.eax, 0), eip := s.eip + 5);
    Go(im, s0, s, CmpEaxImm(0), t);
  }

  lemma Test(im: Image, s0: State, s: State, cc: CC, target: int) returns (t: State)
    requires Reach(im, s0, s) && TestCode(im.code, s.eip, cc, target)
    ensures Reach(im, s0, t)
    ensures t == s.(flags := t.flags, eip := if Relation(cc, s.eax, 0) then target else s.eip + 11)
  {
    t := CompareZero(im, s0, s);
    t := Branch(im, s0, t, cc, s.eax, 0, target);
  }

  /** setcc al; movzx eax, al after cmp a, b. */
  lemma SetBool(im: Image, s0: State, s: State, cc: CC, a: word, b: word) returns (t: State)
    requires Reach(im, s0, s) && s.flags == Compare(a, b)
    requires Here(im.code, s.eip, SetCC(cc, EAX)) && Here(im.code, s.eip + 3, MovzxEaxAl)
    ensures Reach(im, s0, t) && t == s.(eax := BoolWord(Relation(cc, a, b)), eip := s.eip + 6)
  {
    FlagsDecide(cc, a, b);
    var bit := BoolWord(Relation(cc, a, b));
    var u := s.(eax := s.eax - s.eax % 256 + bit, eip := s.eip + 3);
    Go(im, s0, s, SetCC(cc, EAX), u);
    assert u.eax % 256 == bit;
    t := s.(eax := bit, eip := s.eip + 6);
    Go(im, s0, u, MovzxEaxAl, t);
  }

  lemma ToBool(im: Image, s0: State, s: State) returns (t: State)
    requires Reach(im, s0, s) && BoolCode(im.code, s.eip)
    ensures Reach(im, s0, t)
    ensures t == s.(eax := BoolWord(s.eax != 0), flags := t.flags, eip := s.eip + 11)
  {
    t := CompareZero(im, s0, s);
    t := SetBool(im, s0, t, NE, s.eax, 0);
  }

  // ---- binary operators -----------------------------------------------------------

  /** mov ecx, eax; pop eax */
  lemma TakeOperands(im: Image, s0: State, s: State) returns (t: State)
    requires Reach(im, s0, s)
    requires Here(im.code, s.eip, Rr(AluMov, ECX, EAX)) && Here(im.code, s.eip + 2, Pop(EAX))
    requires s.esp % 4 == 0 && s.esp + 4 < W
    ensures Reach(im, s0, t)
    ensures t == s.(ecx := s.eax, eax := Read(s.mem, s.esp), esp := s.esp + 4, eip := s.eip + 3)
  {
    var u := s.(ecx := s.eax, eip := s.eip + 2);
    Go(im, s0, s, Rr(AluMov, ECX, EAX), u);
    t := s.(ecx := s.eax, eax := Read(s.mem, s.esp), esp := s.esp + 4, eip := s.eip + 3);
    Go(im, s0, u, Pop(EAX), t);
  }

  /** What operator code leaves behind, started with l on the stack. */
  ghost predicate OpDone(im: Image, s: State, op: BinOp, l: word, t: State) {
    match BinVal(op, l, s.eax)
    case Some(v) => t.esp == s.esp + 4 &&
      t == s.(eax := v, ecx := t.ecx, edx := t.edx, flags := t.flags, esp := t.esp, eip := s.eip + 3 + OpSize(op))
    case None => Step(im, t) == DivideFault
  }

  lemma Division(im: Image, s0: State, s: State, t: State, op: BinOp, l: word) returns (w: State)
    requires op.Div? || op.Rem?
    requires Reach(im, s0, t) && OpCode(im.code, s.eip, op)
    requires t == s.(ecx := s.eax, eax := l, esp := t.esp, eip := s.eip + 3) && t.esp == s.esp + 4
    ensures Reach(im, s0, w) && OpDone(im, s, op, l, w)
  {
    hide Reach, Divide;
    var u := t.(edx := if l >= HALF then W - 1 else 0, eip := s.eip + 4);
    Go(im, s0, t, Cdq, u);
    assert Dividend(u) == Signed(l);
    match Divide(Signed(l), s.eax) {
      case DivideError =>
        w := u;
        assert im.code[u.eip] == IdivEcx;
      case Quotient(q, r) =>
        w := u.(eax := q, edx := r, eip := s.eip + 6);
        Go(im, s0, u, IdivEcx, w);
        if op.Rem? {
          var x := w.(eax := r, eip := s.eip + 8);
          Go(im, s0, w, Rr(AluMov, EAX, EDX), x);
          w := x;
        }
    }
  }

  lemma Operate(im: Image, s0: State, s: State, op: BinOp, l: word) returns (t: State)
    requires Reach(im, s0, s) && OpCode(im.code, s.eip, op)
    requires s.esp % 4 == 0 && s.esp + 4 < W && Read(s.mem, s.esp) == l
    ensures Reach(im, s0, t) && OpDone(im, s, op, l, t)
  {
    hide Reach, Step;
    var u := TakeOperands(im, s0, s);
    if op.Div? || op.Rem? {
      t := Division(im, s0, s, u, op, l);
    } else if op.Cmp? {
      var x := u.(flags := Compare(l, s.eax), eip := s.eip + 5);
      Go(im, s0, u, Rr(AluCmp, EAX, ECX), x);
      t := SetBool(im, s0, x, op.cc, l, s.eax);
    } else {
      t := Arithmetic(im, s0, s, u, op, l);
    }
  }

  lemma Arithmetic(im: Image, s0: State, s: State, u: State, op: BinOp, l: word) returns (t: State)
    requires !op.Div? && !op.Rem? && !op.Cmp?
    requires Reach(im, s0, u) && OpCode(im.code, s.eip, op)
    requires u == s.(ecx := s.eax, eax := l, esp := u.esp, eip := s.eip + 3) && u.esp == s.esp + 4
    ensures Reach(im, s0, t) && OpDone(im, s, op, l, t)
  {
    hide Reach, Step, Bitwise, ShiftRight, Wrap;
    t := u.(eax := BinVal(op, l, s.eax).value, eip := s.eip + 3 + OpSize(op));
    Go(im, s0, u, im.code[u.eip], t);
  }

  // ---- calls ----------------------------------------------------------------------

  lemma CallStep(im: Image, s0: State, s: State, f: string, labels: Labels) returns (t: State)
    requires Reach(im, s0, s) && IsCallTo(im.code, s.eip, f, labels) && f in labels
    requires s.esp >= 4 && s.esp % 4 == 0
    ensures Reach(im, s0, t)
    ensures t == s.(esp := s.esp - 4, mem := s.mem[s.esp - 4 := Wrap(im.base + s.eip + 5)], eip := labels[f])
  {
    t := s.(esp := s.esp - 4, mem := s.mem[s.esp - 4 := Wrap(im.base + s.eip + 5)], eip := labels[f]);
    Go(im, s0, s, im.code[s.eip], t);
  }

  lemma Discard(im: Image, s0: State, s: State, n: nat) returns (t: State)
    requires Reach(im, s0, s) && IsAddEsp(im.code, s.eip, n) && s.esp + n < W
    ensures Reach(im, s0, t) && t == s.(esp := s.esp + n, eip := s.eip + 6)
  {
    t := s.(esp := s.esp + n, eip := s.eip + 6);
    Go(im, s0, s, im.code[s.eip], t);
  }

  lemma Prologue(im: Image, s0: State, s: State, frame: nat) returns (t: State)
    requires Reach(im, s0, s)
    requires Here(im.code, s.eip, Push(EBP)) && Here(im.code, s.eip + 1, Rr(AluMov, EBP, ESP)) &&
      IsSubEsp(im.code, s.eip + 3, frame)
    requires s.esp % 4 == 0 && s.esp >= 4 + frame
    ensures Reach(im, s0, t)
    ensures t == s.(ebp := s.esp - 4, esp := s.esp - 4 - frame, mem := s.mem[s.esp - 4 := s.ebp], eip := s.eip + 9)
  {
    hide Reach;
    var u := s.(esp := s.esp - 4, mem := s.mem[s.esp - 4 := s.ebp], eip := s.eip + 1);
    Go(im, s0, s, Push(EBP), u);
    var v := u.(ebp := u.esp, eip := s.eip + 3);
    Go(im, s0, u, Rr(AluMov, EBP, ESP), v);
    t := v.(esp := v.esp - frame, eip := s.eip + 9);
    Go(im, s0, v, im.code[v.eip], t);
  }

  lemma Epilogue(im: Image, s0: State, s: State) returns (t: State)
    requires Reach(im, s0, s) && EpilogueCode(im.code, s.eip)
    requires s.ebp % 4 == 0 && s.ebp + 8 < W
    ensures Reach(im, s0, t)
    ensures t == s.(esp := s.ebp + 8, ebp := Read(s.mem, s.ebp), eip := Read(s.mem, s.ebp + 4) - im.base)
  {
    var u := s.(esp := s.ebp, eip := s.eip + 2);
    Go(im, s0, s, Rr(AluMov, ESP, EBP), u);
    var v := u.(esp := s.ebp + 4, ebp := Read(s.mem, s.ebp), eip := s.eip + 3);
    Go(im, s0, u, Pop(EBP), v);
    t := v.(esp := s.ebp + 8, eip := Read(s.mem, s.ebp + 4) - im.base);
    Go(im, s0, v, Ret, t);
  }

  // ---- argument reversal ----------------------------------------------------------

  lemma Swap(im: Image, s0: State, s: State, lo: nat, hi: nat) returns (t: State)
    requires Reach(im, s0, s) && SwapCode(im.code, s.eip, lo, hi)
    requires Aligned(s.esp + lo) && Aligned(s.esp + hi)
    ensures Reach(im, s0, t)
    ensures t == s.(eax := t.eax, ecx := t.ecx, eip := s.eip + 28, mem :=
      s.mem[s.esp + lo := Read(s.mem, s.esp + hi)][s.esp + hi := Read(s.mem, s.esp + lo)])
  {
    var a := Read(s.mem, s.esp + lo);
    var b := Read(s.mem, s.esp + hi);
    var s1 := s.(eax := a, eip := s.eip + 7);
    Go(im, s0, s, im.code[s.eip], s1);
    var s2 := s1.(ecx := b, eip := s.eip + 14);
    Go(im, s0, s1, im.code[s1.eip], s2);
    var s3 := s2.(mem := s.mem[s.esp + lo := b], eip := s.eip + 21);
    Go(im, s0, s2, im.code[s2.eip], s3);
    t := s3.(mem := s3.mem[s.esp + hi := a], eip := s.eip + 28);
    Go(im, s0, s3, im.code[s3.eip], t);
  }

  /** The i-th word above esp. */
  function Word32(m: Memory, esp: int, i: int): word {
    Read(m, esp + 4 * i)
  }

  /** The swaps from pair i on reverse the words between i and n - 1 - i. */
  lemma {:induction false} ReverseRun(im: Image, s0: State, s: State, n: nat, i: nat) returns (t: State)
    requires Reach(im, s0, s) && ReverseCode(im.code, s.eip, n, i) && i <= n / 2
    requires s.esp % 4 == 0 && s.esp + 4 * n <= W
    ensures Reach(im, s0, t)
    ensures t == s.(eax := t.eax, ecx := t.ecx, mem := t.mem, eip := s.eip + 28 * (n / 2 - i))
    ensures forall k :: i <= k < n - i ==> Word32(t.mem, s.esp, k) == Word32(s.mem, s.esp, n - 1 - k)
    ensures forall a :: a < s.esp + 4 * i || a >= s.esp + 4 * (n - i) ==> Read(t.mem, a) == Read(s.mem, a)
    decreases n / 2 - i
  {
    if i == n / 2 {
      t := s;
    } else {
      var u := Swap(im, s0, s, 4 * i, 4 * (n - 1 - i));
      t := ReverseRun(im, s0, u, n, i + 1);
    }
  }

  // ---- loops and arms -------------------------------------------------------------

  /** The test of a for loop leaves for the body or the exit. */
  lemma ForTest(im: Image, s0: State, s: State, it: int, hi: int, exit: int) returns (t: State)
    requires Reach(im, s0, s) && ForCode(im.code, s.eip, it, hi, exit)
    requires Aligned(s.ebp + it) && Aligned(s.ebp + hi) && s.esp >= 4 && s.esp % 4 == 0
    requires s.esp <= s.ebp + hi
    ensures Reach(im, s0, t)
    ensures var i := Read(s.mem, s.ebp + it); var h := Read(s.mem, s.ebp + hi);
      t == s.(eax := i, ecx := h, flags := t.flags, mem := s.mem[s.esp - 4 := i],
              eip := if Signed(i) >= Signed(h) then exit else s.eip + 53)
  {
    hide Reach;
    var p := s.eip;
    var i := Read(s.mem, s.ebp + it);
    var h := Read(s.mem, s.ebp + hi);
    t := LoadVar(im, s0, s, EAX, Slot(it));
    t := PushEax(im, s0, t);
    t := LoadVar(im, s0, t, EAX, Slot(hi));
    t := TakeOperands(im, s0, t);
    var u := t.(flags := Compare(i, h), eip := p + 18);
    Go(im, s0, t, Rr(AluCmp, EAX, ECX), u);
    t := Branch(im, s0, u, GE, i, h, exit);
    if Signed(i) < Signed(h) {
      t := Jump(im, s0, t, p + 53);
    }
  }

  /** The update of a for loop adds one to the iterator and goes back to the test. */
  lemma ForUpdate(im: Image, s0: State, s: State, p: int, it: int, hi: int, exit: int) returns (t: State)
    requires Reach(im, s0, s) && ForCode(im.code, p, it, hi, exit) && s.eip == p + 29
    requires Aligned(s.ebp + it)
    ensures Reach(im, s0, t)
    ensures var i := Wrap(Read(s.mem, s.ebp + it) + 1);
      t == s.(eax := i, ecx := 1, mem := s.mem[s.ebp + it := i], eip := p)
  {
    t := LoadVar(im, s0, s, EAX, Slot(it));
    var u := t.(ecx := 1, eip := p + 40);
    Go(im, s0, t, MovImm(ECX, 1), u);
    var v := u.(eax := Wrap(u.eax + 1), eip := p + 42);
    Go(im, s0, u, Rr(AluAdd, EAX, ECX), v);
    t := StoreVar(im, s0, v, Slot(it));
    t := Jump(im, s0, t, p);
  }

  /** Compare the matched value in slot tmp with the pattern value in EAX. */
  lemma ArmTest(im: Image, s0: State, s: State, tmp: int, next: int) returns (t: State)
    requires Reach(im, s0, s) && IsLoad(im.code, s.eip, ECX, Slot(tmp)) && Aligned(s.ebp + tmp)
    requires Here(im.code, s.eip + 6, Rr(AluCmp, ECX, EAX)) && IsJcc(im.code, s.eip + 8, NE, next)
    ensures Reach(im, s0, t)
    ensures t == s.(ecx := t.ecx, flags := t.flags,
      eip := if Read(s.mem, s.ebp + tmp) == s.eax then s.eip + 14 else next)
  {
    var v := Read(s.mem, s.ebp + tmp);
    t := LoadVar(im, s0, s, ECX, Slot(tmp));
    var u := t.(flags := Compare(v, s.eax), eip := s.eip + 8);
    Go(im, s0, t, Rr(AluCmp, ECX, EAX), u);
    t := Branch(im, s0, u, NE, v, s.eax, next);
  }
}
