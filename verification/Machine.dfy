/** A small x86-32 machine: the registers and flags the emitted code uses, and an
    aligned, word-addressed data memory.  Code is not part of the data memory:
    EIP is kept as an offset from the load base and the code never writes itself. */
module Machine {
  import opened Base
  import opened Word
  import opened X86

  type Memory = map<int, word>

  datatype State = State(
    eax: word, ecx: word, edx: word, ebx: word, esp: word, ebp: word, esi: word, edi: word,
    flags: Flags, mem: Memory, eip: int)

  /** The loaded program: its load address and the instruction at each offset. */
  datatype Image = Image(base: word, code: map<int, Instr>)

  datatype Outcome = Next(s: State) | DivideFault | Stuck

  function Read(m: Memory, a: int): word {
    if a in m then m[a] else 0
  }

  /** Addresses are 32-bit and dword accesses aligned; anything else is Stuck. */
  predicate Aligned(a: int) {
    0 <= a < W && a % 4 == 0
  }

  function Get(s: State, r: Reg): word {
    match r
    case EAX => s.eax case ECX => s.ecx case EDX => s.edx case EBX => s.ebx
    case ESP => s.esp case EBP => s.ebp case ESI => s.esi case EDI => s.edi
  }

  function Set(s: State, r: Reg, v: word): State {
    match r
    case EAX => s.(eax := v) case ECX => s.(ecx := v) case EDX => s.(edx := v) case EBX => s.(ebx := v)
    case ESP => s.(esp := v) case EBP => s.(ebp := v) case ESI => s.(esi := v) case EDI => s.(edi := v)
  }

  function LoadAt(s: State, r: Reg, a: int): Outcome {
    if Aligned(a) then Next(Set(s, r, Read(s.mem, a))) else Stuck
  }

  function StoreAt(s: State, a: int, v: word): Outcome {
    if Aligned(a) then Next(s.(mem := s.mem[a := v])) else Stuck
  }

  function PushWord(s: State, v: word): Outcome {
    if s.esp >= 4 then StoreAt(s.(esp := s.esp - 4), s.esp - 4, v) else Stuck
  }

  function MoveEsp(s: State, d: int): Outcome {
    if 0 <= s.esp + d < W then Next(s.(esp := s.esp + d)) else Stuck
  }

  function ExecAlu(a: Alu, s: State, dst: Reg, v: word): State {
    var d := Get(s, dst);
    match a
    case AluAdd => Set(s, dst, Wrap(d + v))
    case AluSub => Set(s, dst, Wrap(d - v))
    case AluAnd => Set(s, dst, Bitwise(BitAnd, d, v))
    case AluOr => Set(s, dst, Bitwise(BitOr, d, v))
    case AluXor => Set(s, dst, Bitwise(BitXor, d, v))
    case AluCmp => s.(flags := Compare(d, v))
    case AluMov => Set(s, dst, v)
  }

  /** The 64-bit dividend edx:eax. */
  function Dividend(s: State): int {
    Signed(s.edx) * W + s.eax
  }

  /** The effect of an instruction; s.eip already points past it.  Arithmetic
      leaves the flags alone: the emitted code only tests flags set by cmp. */
  function Effect(base: word, i: Instr, s: State): Outcome {
    match i
    case PushImm(v) => PushWord(s, v)
    case Push(r) => PushWord(s, Get(s, r))
    case Pop(r) =>
      if Aligned(s.esp) && s.esp + 4 < W then Next(Set(s.(esp := s.esp + 4), r, Read(s.mem, s.esp))) else Stuck
    case MovImm(r, v) => Next(Set(s, r, v))
    case Rr(a, d, x) => Next(ExecAlu(a, s, d, Get(s, x)))
    case LoadBp(r, o) => LoadAt(s, r, s.ebp + o)
    case StoreBp(o, r) => StoreAt(s, s.ebp + o, Get(s, r))
    case LoadSp(r, o) => LoadAt(s, r, s.esp + o)
    case StoreSp(o, r) => StoreAt(s, s.esp + o, Get(s, r))
    case LeaBp(r, o) => Next(Set(s, r, Wrap(s.ebp + o)))
    case LoadAbs(r, a) => LoadAt(s, r, a)
    case StoreAbs(a, r) => StoreAt(s, a, Get(s, r))
    case LoadInd(d, x) => LoadAt(s, d, Get(s, x))
    case StoreInd(d, x) => StoreAt(s, Get(s, d), Get(s, x))
    case LoadIndByte(d, x) => Stuck
    case StoreIndByte(d, x) => Stuck
    case Imul(d, x) => Next(Set(s, d, Product(Get(s, d), Get(s, x))))
    case Cdq => Next(s.(edx := if s.eax >= HALF then W - 1 else 0))
    case IdivEcx =>
      (match Divide(Dividend(s), s.ecx)
       case Quotient(q, r) => Next(s.(eax := q, edx := r))
       case DivideError => DivideFault)
    case Neg(r) => Next(Set(s, r, Wrap(W - Get(s, r))))
    case Not(r) => Next(Set(s, r, W - 1 - Get(s, r)))
    case ShlCl(r) => Next(Set(s, r, ShiftLeft(Get(s, r), s.ecx % 32)))
    case ShrCl(r) => Next(Set(s, r, ShiftRight(Get(s, r), s.ecx % 32)))
    case SetCC(c, r) => Next(Set(s, r, Get(s, r) - Get(s, r) % 256 + (if Holds(c, s.flags) then 1 else 0)))
    case MovzxEaxAl => Next(s.(eax := s.eax % 256))
    case CmpEaxImm(v) => Next(s.(flags := Compare(s.eax, v)))
    case CallEax => PushWord(s.(eip := s.eax - base), Wrap(base + s.eip))
    case CallRel(d) => PushWord(s.(eip := s.eip + d), Wrap(base + s.eip))
    case Ret =>
      if Aligned(s.esp) && s.esp + 4 < W then Next(s.(esp := s.esp + 4, eip := Read(s.mem, s.esp) - base)) else Stuck
    case Jmp(d) => Next(s.(eip := s.eip + d))
    case Jcc(c, d) => Next(if Holds(c, s.flags) then s.(eip := s.eip + d) else s)
    case SubEsp(n) => MoveEsp(s, -(n as int))
    case AddEsp(n) => MoveEsp(s, n)
  }

  function Exec(base: word, i: Instr, s: State): Outcome {
    Effect(base, i, s.(eip := s.eip + Size(i)))
  }

  function Step(im: Image, s: State): Outcome {
    if s.eip in im.code then Exec(im.base, im.code[s.eip], s) else Stuck
  }

  // ---- runs ---------------------------------------------------------------------

  ghost predicate Runs(im: Image, s: State, n: nat, t: State)
    decreases n
  {
    if n == 0 then s == t
    else Step(im, s).Next? && Runs(im, Step(im, s).s, n - 1, t)
  }

  ghost predicate Reach(im: Image, s: State, t: State) {
    exists n: nat :: Runs(im, s, n, t)
  }

  /** The same with at least one step. */
  ghost predicate Far(im: Image, s: State, t: State) {
    exists n: nat :: n > 0 && Runs(im, s, n, t)
  }

  /** From s on the machine takes at least n steps. */
  ghost predicate Lasts(im: Image, s: State, n: nat) {
    exists m: nat, t: State :: m >= n && Runs(im, s, m, t)
  }

  lemma {:induction false} RunsCompose(im: Image, s: State, n: nat, t: State, m: nat, u: State)
    requires Runs(im, s, n, t) && Runs(im, t, m, u)
    ensures Runs(im, s, n + m, u)
    decreases n
  {
    if n > 0 {
      RunsCompose(im, Step(im, s).s, n - 1, t, m, u);
    }
  }

  lemma Stay(im: Image, s: State)
    ensures Reach(im, s, s)
  {
    assert Runs(im, s, 0, s);
  }

  lemma Then(im: Image, s: State, t: State, u: State)
    requires Reach(im, s, t) && Reach(im, t, u)
    ensures Reach(im, s, u)
  {
    var n: nat :| Runs(im, s, n, t);
    var m: nat :| Runs(im, t, m, u);
    RunsCompose(im, s, n, t, m, u);
  }

  lemma FarOn(im: Image, s: State, t: State, u: State)
    requires (Far(im, s, t) && Reach(im, t, u)) || (Reach(im, s, t) && Far(im, t, u))
    ensures Far(im, s, u)
  {
    if Far(im, s, t) && Reach(im, t, u) {
      var n: nat :| n > 0 && Runs(im, s, n, t);
      var m: nat :| Runs(im, t, m, u);
      RunsCompose(im, s, n, t, m, u);
    } else {
      var n: nat :| Runs(im, s, n, t);
      var m: nat :| m > 0 && Runs(im, t, m, u);
      RunsCompose(im, s, n, t, m, u);
    }
  }

  /** A run to another state takes a step. */
  lemma FarApart(im: Image, s: State, t: State)
    requires Reach(im, s, t) && s != t
    ensures Far(im, s, t)
  {
  }

  lemma LastsAtAll(im: Image, s: State)
    ensures Lasts(im, s, 0)
  {
    assert Runs(im, s, 0, s);
  }

  /** One more round before a long run. */
  lemma LastsLonger(im: Image, s: State, t: State, u: State, n: nat)
    requires Far(im, s, t) && Reach(im, t, u) && Lasts(im, u, n)
    ensures Lasts(im, s, n + 1)
  {
    FarOn(im, s, t, u);
    var k: nat :| k > 0 && Runs(im, s, k, u);
    var m: nat, v: State :| m >= n && Runs(im, u, m, v);
    RunsCompose(im, s, k, u, m, v);
  }

  lemma LongRun(im: Image, s: State, t: State, n: nat) returns (m: nat, u: State)
    requires Reach(im, s, t) && Lasts(im, t, n)
    ensures m >= n && Runs(im, s, m, u)
  {
    var k: nat :| Runs(im, s, k, t);
    m, u :| m >= n && Runs(im, t, m, u);
    RunsCompose(im, s, k, t, m, u);
    m := k + m;
  }

  lemma OneStep(im: Image, t: State, u: State)
    requires Step(im, t) == Next(u)
    ensures Reach(im, t, u)
  {
    assert Runs(im, u, 0, u);
    assert Runs(im, t, 1, u);
  }

  /** Extend a run by one instruction. */
  lemma Go(im: Image, s: State, t: State, i: Instr, u: State)
    requires Reach(im, s, t)
    requires t.eip in im.code && im.code[t.eip] == i && Exec(im.base, i, t) == Next(u)
    ensures Reach(im, s, u)
  {
    OneStep(im, t, u);
    Then(im, s, t, u);
  }

  // ---- the same machine fetching bytes ------------------------------------------

  /** Fetch, decode and execute from the raw output file. */
  function ByteStep(base: word, bytes: seq<byte>, s: State): Outcome {
    if 0 <= s.eip < |bytes| && Decode(bytes[s.eip..]).Some? then
      Exec(base, Decode(bytes[s.eip..]).value, s)
    else Stuck
  }

  ghost predicate ByteRuns(base: word, bytes: seq<byte>, s: State, n: nat, t: State)
    decreases n
  {
    if n == 0 then s == t
    else ByteStep(base, bytes, s).Next? && ByteRuns(base, bytes, ByteStep(base, bytes, s).s, n - 1, t)
  }

  /** A run can be cut short. */
  lemma {:induction false} ByteRunsFewer(base: word, bytes: seq<byte>, s: State, n: nat, t: State, m: nat)
    returns (u: State)
    requires ByteRuns(base, bytes, s, n, t) && m <= n
    ensures ByteRuns(base, bytes, s, m, u)
    decreases m
  {
    hide ByteStep;
    if m == 0 {
      u := s;
    } else {
      u := ByteRunsFewer(base, bytes, ByteStep(base, bytes, s).s, n - 1, t, m - 1);
    }
  }

  /** Every instruction of the image is where the bytes say it is. */
  ghost predicate Encoded(bytes: seq<byte>, code: map<int, Instr>) {
    forall p :: p in code ==> EncodedAt(bytes, p, code[p])
  }

  ghost predicate EncodedAt(bytes: seq<byte>, p: int, i: Instr) {
    0 <= p && p + Size(i) <= |bytes| && bytes[p..p + Size(i)] == Encode(i)
  }

  lemma FetchAgrees(im: Image, bytes: seq<byte>, s: State)
    requires Encoded(bytes, im.code) && s.eip in im.code
    ensures ByteStep(im.base, bytes, s) == Step(im, s)
  {
    var i := im.code[s.eip];
    assert EncodedAt(bytes, s.eip, i);
    assert Encode(i) <= bytes[s.eip..] by {
      SubDrop(bytes, s.eip, 0, Size(i));
      assert bytes[s.eip..][..Size(i)] == bytes[s.eip..][0..Size(i)];
    }
    DecodeEncode(i, bytes[s.eip..]);
  }

  /** Whatever the instruction-level machine does, the byte-level machine does. */
  lemma {:induction false} BytesRefine(im: Image, bytes: seq<byte>, s: State, n: nat, t: State)
    requires Encoded(bytes, im.code) && Runs(im, s, n, t)
    ensures ByteRuns(im.base, bytes, s, n, t)
    decreases n
  {
    hide Exec, Decode;
    if n > 0 {
      FetchAgrees(im, bytes, s);
      BytesRefine(im, bytes, Step(im, s).s, n - 1, t);
    }
  }
}
