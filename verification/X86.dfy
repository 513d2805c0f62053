/** The x86-32 instructions the emitter can produce, their byte encoding
    (src/rc/emit.rs) and an independent decoder that reads ModR/M and SIB bytes
    field by field. */
module X86 {
  import opened Base
  import opened Word

  datatype Reg = EAX | ECX | EDX | EBX | ESP | EBP | ESI | EDI

  function Num(r: Reg): (n: nat)
    ensures n < 8
  {
    match r
    case EAX => 0 case ECX => 1 case EDX => 2 case EBX => 3
    case ESP => 4 case EBP => 5 case ESI => 6 case EDI => 7
  }

  function RegOf(n: nat): (r: Reg)
    requires n < 8
    ensures Num(r) == n
  {
    if n == 0 then EAX else if n == 1 then ECX else if n == 2 then EDX else if n == 3 then EBX
    else if n == 4 then ESP else if n == 5 then EBP else if n == 6 then ESI else EDI
  }

  function Nibble(cc: CC): (n: nat)
    ensures n < 16
  {
    match cc
    case E => 4 case NE => 5 case L => 12 case GE => 13 case LE => 14 case G => 15
  }

  function CCOf(n: nat): Option<CC> {
    if n == 4 then Some(E) else if n == 5 then Some(NE)
    else if n == 12 then Some(L) else if n == 13 then Some(GE)
    else if n == 14 then Some(LE) else if n == 15 then Some(G)
    else None
  }

  datatype Alu = AluAdd | AluSub | AluAnd | AluOr | AluXor | AluCmp | AluMov

  datatype Instr =
    | PushImm(imm: word)
    | Push(r: Reg)
    | Pop(r: Reg)
    | MovImm(r: Reg, imm: word)
    | Rr(alu: Alu, dst: Reg, src: Reg)       // op dst, src on registers
    | LoadBp(r: Reg, disp: i32)              // mov r, [ebp+disp32]
    | StoreBp(disp: i32, r: Reg)
    | LoadSp(r: Reg, disp: i32)              // mov r, [esp+disp32]
    | StoreSp(disp: i32, r: Reg)
    | LeaBp(r: Reg, disp: i32)
    | LoadAbs(r: Reg, addr: word)
    | StoreAbs(addr: word, r: Reg)
    | LoadInd(dst: Reg, src: Reg)            // mov dst, [src]
    | StoreInd(dst: Reg, src: Reg)           // mov [dst], src
    | LoadIndByte(dst: Reg, src: Reg)
    | StoreIndByte(dst: Reg, src: Reg)
    | Imul(dst: Reg, src: Reg)
    | Cdq
    | IdivEcx
    | Neg(r: Reg)
    | Not(r: Reg)
    | ShlCl(r: Reg)
    | ShrCl(r: Reg)
    | SetCC(cc: CC, r: Reg)
    | MovzxEaxAl
    | CmpEaxImm(imm: word)
    | CallEax
    | CallRel(rel: i32)
    | Ret
    | Jmp(rel: i32)
    | Jcc(cc: CC, rel: i32)
    | SubEsp(n: word)
    | AddEsp(n: word)

  // ---- encoding ---------------------------------------------------------------

  /** A 32-bit value, least significant byte first. */
  function Dword(d: word): (bs: seq<byte>)
    ensures |bs| == 4
  {
    var d1 := d / 256;
    var d2 := d1 / 256;
    [d % 256, d1 % 256, d2 % 256, d2 / 256]
  }

  function UnDword(bs: seq<byte>): (d: word)
    requires |bs| >= 4
  {
    var b0: int, b1: int, b2: int, b3: int := bs[0], bs[1], bs[2], bs[3];
    b0 + 256 * (b1 + 256 * (b2 + 256 * b3))
  }

  lemma DwordRoundTrip(d: word, bs: seq<byte>)
    requires |bs| >= 4 && bs[..4] == Dword(d)
    ensures UnDword(bs) == d
  {
    assert bs[0] == bs[..4][0] && bs[1] == bs[..4][1] && bs[2] == bs[..4][2] && bs[3] == bs[..4][3];
  }

  function ModRM(mod: nat, reg: Reg, rm: Reg): byte
    requires mod < 4
  {
    64 * mod + 8 * Num(reg) + Num(rm)
  }

  /** The memory operand [rm]: EBP has no mod=00 form and takes a zero disp8,
      ESP needs a SIB byte. */
  function Indirect(reg: Reg, rm: Reg): (bs: seq<byte>)
    ensures 1 <= |bs| <= 2
  {
    if rm == EBP then [ModRM(1, reg, EBP), 0]
    else if rm == ESP then [ModRM(0, reg, ESP), 0x24]
    else [ModRM(0, reg, rm)]
  }

  function AluOpcode(a: Alu): byte {
    match a
    case AluAdd => 0x01 case AluSub => 0x29 case AluAnd => 0x21 case AluOr => 0x09
    case AluXor => 0x31 case AluCmp => 0x39 case AluMov => 0x89
  }

  predicate HasMemory(i: Instr) {
    i.LoadBp? || i.StoreBp? || i.LoadSp? || i.StoreSp? || i.LeaBp? || i.LoadAbs? || i.StoreAbs?
    || i.LoadInd? || i.StoreInd? || i.LoadIndByte? || i.StoreIndByte?
  }

  predicate HasImmediate(i: Instr) {
    i.PushImm? || i.MovImm? || i.CmpEaxImm? || i.CallRel? || i.Jmp? || i.Jcc? || i.SubEsp? || i.AddEsp?
  }

  function EncodeMemory(i: Instr): (bs: seq<byte>)
    requires HasMemory(i)
    ensures |bs| == Size(i)
  {
    match i
    case LoadBp(r, o) => [0x8B, ModRM(2, r, EBP)] + Dword(Wrap(o))
    case StoreBp(o, r) => [0x89, ModRM(2, r, EBP)] + Dword(Wrap(o))
    case LoadSp(r, o) => [0x8B, ModRM(2, r, ESP), 0x24] + Dword(Wrap(o))
    case StoreSp(o, r) => [0x89, ModRM(2, r, ESP), 0x24] + Dword(Wrap(o))
    case LeaBp(r, o) => [0x8D, ModRM(2, r, EBP)] + Dword(Wrap(o))
    case LoadAbs(r, a) => [0x8B, ModRM(0, r, EBP)] + Dword(a)
    case StoreAbs(a, r) => [0x89, ModRM(0, r, EBP)] + Dword(a)
    case LoadInd(d, s) => [0x8B] + Indirect(d, s)
    case StoreInd(d, s) => [0x89] + Indirect(s, d)
    case LoadIndByte(d, s) => [0x0F, 0xB6] + Indirect(d, s)
    case StoreIndByte(d, s) => [0x88] + Indirect(s, d)
  }

  function EncodeImmediate(i: Instr): (bs: seq<byte>)
    requires HasImmediate(i)
    ensures |bs| == Size(i)
  {
    match i
    case PushImm(v) => [0x68] + Dword(v)
    case MovImm(r, v) => [0xB8 + Num(r)] + Dword(v)
    case CmpEaxImm(v) => [0x3D] + Dword(v)
    case CallRel(d) => [0xE8] + Dword(Wrap(d))
    case Jmp(d) => [0xE9] + Dword(Wrap(d))
    case Jcc(c, d) => [0x0F, 0x80 + Nibble(c)] + Dword(Wrap(d))
    case SubEsp(n) => [0x81, 0xEC] + Dword(n)
    case AddEsp(n) => [0x81, 0xC4] + Dword(n)
  }

  function EncodeRegister(i: Instr): (bs: seq<byte>)
    requires !HasMemory(i) && !HasImmediate(i)
    ensures |bs| == Size(i)
  {
    match i
    case Push(r) => [0x50 + Num(r)]
    case Pop(r) => [0x58 + Num(r)]
    case Rr(a, d, s) => [AluOpcode(a), ModRM(3, s, d)]
    case Imul(d, s) => [0x0F, 0xAF, ModRM(3, d, s)]
    case Cdq => [0x99]
    case IdivEcx => [0xF7, 0xF9]
    case Neg(r) => [0xF7, 0xD8 + Num(r)]
    case Not(r) => [0xF7, 0xD0 + Num(r)]
    case ShlCl(r) => [0xD3, 0xE0 + Num(r)]
    case ShrCl(r) => [0xD3, 0xE8 + Num(r)]
    case SetCC(c, r) => [0x0F, 0x90 + Nibble(c), 0xC0 + Num(r)]
    case MovzxEaxAl => [0x0F, 0xB6, 0xC0]
    case CallEax => [0xFF, 0xD0]
    case Ret => [0xC3]
  }

  function Encode(i: Instr): (bs: seq<byte>)
    ensures |bs| == Size(i)
  {
    if HasMemory(i) then EncodeMemory(i)
    else if HasImmediate(i) then EncodeImmediate(i)
    else EncodeRegister(i)
  }

  function Size(i: Instr): (n: nat)
    ensures 1 <= n <= 7
  {
    match i
    case Push(_) | Pop(_) | Cdq | Ret => 1
    case Rr(_, _, _) | IdivEcx | Neg(_) | Not(_) | ShlCl(_) | ShrCl(_) | CallEax => 2
    case Imul(_, _) | SetCC(_, _) | MovzxEaxAl => 3
    case PushImm(_) | MovImm(_, _) | CmpEaxImm(_) | CallRel(_) | Jmp(_) => 5
    case LoadBp(_, _) | StoreBp(_, _) | LeaBp(_, _) | LoadAbs(_, _) | StoreAbs(_, _) => 6
    case Jcc(_, _) | SubEsp(_) | AddEsp(_) => 6
    case LoadSp(_, _) | StoreSp(_, _) => 7
    case LoadInd(_, s) => if s == EBP || s == ESP then 3 else 2
    case StoreInd(d, _) => if d == EBP || d == ESP then 3 else 2
    case StoreIndByte(d, _) => if d == EBP || d == ESP then 3 else 2
    case LoadIndByte(_, s) => if s == EBP || s == ESP then 4 else 3
  }

  // ---- decoding ---------------------------------------------------------------

  /** What a ModR/M byte (with its SIB byte and displacement) designates. */
  datatype Operand =
    | Direct(rm: Reg)
    | AtBp(disp: i32)
    | AtSp(disp: i32)
    | AtAbs(addr: word)
    | AtReg(base: Reg)

  /** Decode the ModR/M operand that starts at bs[0]. */
  function DecodeRM(bs: seq<byte>): Option<(Reg, Operand)> {
    if |bs| < 1 then None
    else
      var mod := bs[0] / 64;
      var reg := RegOf(bs[0] / 8 % 8);
      var rm := RegOf(bs[0] % 8);
      if mod == 3 then Some((reg, Direct(rm)))
      else if mod == 2 then
        if rm == EBP && |bs| >= 5 then Some((reg, AtBp(Signed(UnDword(bs[1..])))))
        else if rm == ESP && |bs| >= 6 && bs[1] == 0x24 then Some((reg, AtSp(Signed(UnDword(bs[2..])))))
        else None
      else if mod == 1 then
        if rm == EBP && |bs| >= 2 && bs[1] == 0 then Some((reg, AtReg(EBP))) else None
      else if rm == EBP then
        if |bs| >= 5 then Some((reg, AtAbs(UnDword(bs[1..])))) else None
      else if rm == ESP then
        if |bs| >= 2 && bs[1] == 0x24 then Some((reg, AtReg(ESP))) else None
      else Some((reg, AtReg(rm)))
  }

  function AluOf(b: byte): Option<Alu> {
    if b == 0x01 then Some(AluAdd) else if b == 0x29 then Some(AluSub)
    else if b == 0x21 then Some(AluAnd) else if b == 0x09 then Some(AluOr)
    else if b == 0x31 then Some(AluXor) else if b == 0x39 then Some(AluCmp)
    else if b == 0x89 then Some(AluMov)
    else None
  }

  function DecodeStore(reg: Reg, op: Operand): Instr {
    match op
    case Direct(rm) => Rr(AluMov, rm, reg)
    case AtBp(d) => StoreBp(d, reg)
    case AtSp(d) => StoreSp(d, reg)
    case AtAbs(a) => StoreAbs(a, reg)
    case AtReg(b) => StoreInd(b, reg)
  }

  function DecodeLoad(reg: Reg, op: Operand): Option<Instr> {
    match op
    case Direct(_) => None
    case AtBp(d) => Some(LoadBp(reg, d))
    case AtSp(d) => Some(LoadSp(reg, d))
    case AtAbs(a) => Some(LoadAbs(reg, a))
    case AtReg(b) => Some(LoadInd(reg, b))
  }

  /** Opcodes that carry a ModR/M byte after a one-byte opcode. */
  function DecodeModRM(op: byte, bs: seq<byte>): Option<Instr> {
    var m := DecodeRM(bs);
    if m.None? then None
    else
      var (reg, rm) := m.value;
      if op == 0x89 then Some(DecodeStore(reg, rm))
      else if op == 0x8B then DecodeLoad(reg, rm)
      else if op == 0x8D then if rm.AtBp? then Some(LeaBp(reg, rm.disp)) else None
      else if op == 0x88 then if rm.AtReg? then Some(StoreIndByte(rm.base, reg)) else None
      else if !rm.Direct? then None
      else if op == 0xF7 then
        if reg == EDI && rm.rm == ECX then Some(IdivEcx)
        else if reg == EBX then Some(Neg(rm.rm))
        else if reg == EDX then Some(Not(rm.rm))
        else None
      else if op == 0xD3 then
        if reg == ESP then Some(ShlCl(rm.rm)) else if reg == EBP then Some(ShrCl(rm.rm)) else None
      else if op == 0xFF then
        if reg == EDX && rm.rm == EAX then Some(CallEax) else None
      else if op == 0x81 then
        if rm.rm != ESP || |bs| < 5 then None
        else if reg == EBP then Some(SubEsp(UnDword(bs[1..])))
        else if reg == EAX then Some(AddEsp(UnDword(bs[1..])))
        else None
      else if AluOf(op).Some? then Some(Rr(AluOf(op).value, rm.rm, reg))
      else None
  }

  /** Opcodes behind the 0F escape byte. */
  function DecodeEscape(bs: seq<byte>): Option<Instr> {
    if |bs| < 2 then None
    else if 0x80 <= bs[0] < 0x90 then
      if CCOf(bs[0] - 0x80).Some? &&
      |bs| >= 5 then Some(Jcc(CCOf(bs[0] - 0x80).value, Signed(UnDword(bs[1..])))) else None
    else
      var m := DecodeRM(bs[1..]);
      if m.None? then None
      else
        var (reg, rm) := m.value;
        if bs[0] == 0xAF then if rm.Direct? then Some(Imul(reg, rm.rm)) else None
        else if bs[0] == 0xB6 then
          if rm.AtReg? then Some(LoadIndByte(reg, rm.base))
          else if rm.Direct? && reg == EAX && rm.rm == EAX then Some(MovzxEaxAl)
          else None
        else if 0x90 <= bs[0] < 0xA0 && CCOf(bs[0] - 0x90).Some? && rm.Direct? && reg == EAX then
          Some(SetCC(CCOf(bs[0] - 0x90).value, rm.rm))
        else None
  }

  /** Opcodes with an immediate and no ModR/M byte. */
  function DecodeImm(op: byte, bs: seq<byte>): Option<Instr> {
    if |bs| < 4 then None
    else
      var v := UnDword(bs);
      if op == 0x68 then Some(PushImm(v))
      else if 0xB8 <= op < 0xC0 then Some(MovImm(RegOf(op - 0xB8), v))
      else if op == 0x3D then Some(CmpEaxImm(v))
      else if op == 0xE8 then Some(CallRel(Signed(v)))
      else if op == 0xE9 then Some(Jmp(Signed(v)))
      else None
  }

  /** The instruction that starts at bs[0], if it is one the emitter produces. */
  function Decode(bs: seq<byte>): Option<Instr> {
    if |bs| < 1 then None
    else
      var op := bs[0];
      if 0x50 <= op < 0x58 then Some(Push(RegOf(op - 0x50)))
      else if 0x58 <= op < 0x60 then Some(Pop(RegOf(op - 0x58)))
      else if op == 0x99 then Some(Cdq)
      else if op == 0xC3 then Some(Ret)
      else if op == 0x0F then DecodeEscape(bs[1..])
      else if op == 0x68 || 0xB8 <= op < 0xC0 || op == 0x3D || op == 0xE8 || op == 0xE9 then DecodeImm(op, bs[1..])
      else DecodeModRM(op, bs[1..])
  }

  // ---- round trip ---------------------------------------------------------------

  lemma RegRoundTrip(r: Reg)
    ensures RegOf(Num(r)) == r
  {
  }

  lemma Fields(m: nat, a: nat, b: nat)
    requires m < 4 && a < 8 && b < 8
    ensures var x := 64 * m + 8 * a + b; x / 64 == m && x / 8 % 8 == a && x % 8 == b
  {
  }

  lemma ModRMRoundTrip(mod: nat, reg: Reg, rm: Reg)
    requires mod < 4
    ensures var b := ModRM(mod, reg, rm);
      b / 64 == mod && RegOf(b / 8 % 8) == reg && RegOf(b % 8) == rm
  {
    Fields(mod, Num(reg), Num(rm));
    RegRoundTrip(reg);
    RegRoundTrip(rm);
  }

  lemma DwordAt(d: word, bs: seq<byte>, k: nat)
    requires |bs| >= k + 4 && bs[k..k + 4] == Dword(d)
    ensures UnDword(bs[k..]) == d
  {
    SubDrop(bs, k, 0, 4);
    assert bs[k..][..4] == bs[k..][0..4];
    DwordRoundTrip(d, bs[k..]);
  }

  lemma DirectRoundTrip(reg: Reg, rm: Reg, bs: seq<byte>)
    requires |bs| >= 1 && bs[0] == ModRM(3, reg, rm)
    ensures DecodeRM(bs) == Some((reg, Direct(rm)))
  {
    ModRMRoundTrip(3, reg, rm);
  }

  /** Operands with a 32-bit displacement. */
  lemma OperandRoundTrip(mod: nat, reg: Reg, rm: Reg, d: word, bs: seq<byte>)
    requires mod == 0 || mod == 2
    requires rm == EBP && |bs| >= 5 && bs[0] == ModRM(mod, reg, rm) && bs[1..5] == Dword(d)
    ensures DecodeRM(bs) == Some((reg, if mod == 2 then AtBp(Signed(d)) else AtAbs(d)))
  {
    ModRMRoundTrip(mod, reg, rm);
    DwordAt(d, bs, 1);
  }

  lemma StackOperandRoundTrip(reg: Reg, d: word, bs: seq<byte>)
    requires |bs| >= 6 && bs[0] == ModRM(2, reg, ESP) && bs[1] == 0x24 && bs[2..6] == Dword(d)
    ensures DecodeRM(bs) == Some((reg, AtSp(Signed(d))))
  {
    ModRMRoundTrip(2, reg, ESP);
    DwordAt(d, bs, 2);
  }

  lemma IndirectRoundTrip(reg: Reg, rm: Reg, bs: seq<byte>)
    requires Indirect(reg, rm) <= bs
    ensures DecodeRM(bs) == Some((reg, AtReg(rm)))
  {
    assert bs[0] == Indirect(reg, rm)[0];
    if rm == EBP {
      ModRMRoundTrip(1, reg, rm);
      assert bs[1] == Indirect(reg, rm)[1];
    } else {
      ModRMRoundTrip(0, reg, rm);
      if rm == ESP {
        assert bs[1] == Indirect(reg, rm)[1];
      }
    }
  }

  lemma Tail(i: Instr, bs: seq<byte>, k: nat)
    requires Encode(i) <= bs && k <= Size(i)
    ensures |bs| >= Size(i) && bs[k..Size(i)] == Encode(i)[k..]
    ensures forall j :: 0 <= j < Size(i) ==> bs[j] == Encode(i)[j]
  {
  }

  lemma DecodeFrame(i: Instr, bs: seq<byte>)
    requires i.LoadBp? || i.StoreBp? || i.LeaBp? || i.LoadSp? || i.StoreSp?
    requires Encode(i) <= bs
    ensures Decode(bs) == Some(i)
  {
    Tail(i, bs, 1);
    var b1 := bs[1..];
    WrapSigned(i.disp);
    if i.LoadSp? || i.StoreSp? {
      assert b1[2..6] == bs[3..7] == Dword(Wrap(i.disp));
      StackOperandRoundTrip(i.r, Wrap(i.disp), b1);
    } else {
      assert b1[1..5] == bs[2..6] == Dword(Wrap(i.disp));
      OperandRoundTrip(2, i.r, EBP, Wrap(i.disp), b1);
    }
  }

  lemma DecodeAbsolute(i: Instr, bs: seq<byte>)
    requires i.LoadAbs? || i.StoreAbs?
    requires Encode(i) <= bs
    ensures Decode(bs) == Some(i)
  {
    Tail(i, bs, 1);
    var b1 := bs[1..];
    assert b1[1..5] == bs[2..6] == Dword(i.addr);
    OperandRoundTrip(0, i.r, EBP, i.addr, b1);
  }

  lemma DecodeIndirect(i: Instr, bs: seq<byte>)
    requires i.LoadInd? || i.StoreInd? || i.StoreIndByte?
    requires Encode(i) <= bs
    ensures Decode(bs) == Some(i)
  {
    Tail(i, bs, 1);
    if i.LoadInd? {
      IndirectRoundTrip(i.dst, i.src, bs[1..]);
    } else {
      IndirectRoundTrip(i.src, i.dst, bs[1..]);
    }
  }

  lemma DecodeLoadByte(i: Instr, bs: seq<byte>)
    requires i.LoadIndByte? && Encode(i) <= bs
    ensures Decode(bs) == Some(i)
  {
    Tail(i, bs, 2);
    assert bs[1..][1..] == bs[2..];
    IndirectRoundTrip(i.dst, i.src, bs[2..]);
  }

  lemma DecodeImmediate(i: Instr, bs: seq<byte>)
    requires HasImmediate(i) && Encode(i) <= bs
    ensures Decode(bs) == Some(i)
  {
    Tail(i, bs, 1);
    var b1 := bs[1..];
    assert b1[..4] == bs[1..5];
    match i
    case PushImm(v) => DwordRoundTrip(v, b1);
    case MovImm(r, v) => DwordRoundTrip(v, b1); RegRoundTrip(r);
    case CmpEaxImm(v) => DwordRoundTrip(v, b1);
    case CallRel(d) => WrapSigned(d); DwordRoundTrip(Wrap(d), b1);
    case Jmp(d) => WrapSigned(d); DwordRoundTrip(Wrap(d), b1);
    case Jcc(c, d) => WrapSigned(d); assert b1[1..5] == bs[2..6] == Dword(Wrap(d)); DwordAt(Wrap(d), b1, 1);
    case SubEsp(n) => assert b1[1..5] == bs[2..6] == Dword(n); DwordAt(n, b1, 1);
    case AddEsp(n) => assert b1[1..5] == bs[2..6] == Dword(n); DwordAt(n, b1, 1);
  }

  lemma DecodeUnary(i: Instr, bs: seq<byte>)
    requires i.IdivEcx? || i.Neg? || i.Not? || i.ShlCl? || i.ShrCl?
    requires Encode(i) <= bs
    ensures Decode(bs) == Some(i)
  {
    Tail(i, bs, 0);
    match i
    case IdivEcx => DirectRoundTrip(EDI, ECX, bs[1..]);
    case Neg(r) => DirectRoundTrip(EBX, r, bs[1..]);
    case Not(r) => DirectRoundTrip(EDX, r, bs[1..]);
    case ShlCl(r) => DirectRoundTrip(ESP, r, bs[1..]);
    case ShrCl(r) => DirectRoundTrip(EBP, r, bs[1..]);
  }

  lemma DecodeBinary(i: Instr, bs: seq<byte>)
    requires i.Rr? || i.Imul? || i.SetCC? || i.MovzxEaxAl? || i.CallEax?
    requires Encode(i) <= bs
    ensures Decode(bs) == Some(i)
  {
    Tail(i, bs, 0);
    match i
    case Rr(a, d, s) => DirectRoundTrip(s, d, bs[1..]);
    case Imul(d, s) => DirectRoundTrip(d, s, bs[1..][1..]);
    case SetCC(c, r) => DirectRoundTrip(EAX, r, bs[1..][1..]);
    case MovzxEaxAl => DirectRoundTrip(EAX, EAX, bs[1..][1..]);
    case CallEax => DirectRoundTrip(EDX, EAX, bs[1..]);
  }

  lemma DecodeOneByte(i: Instr, bs: seq<byte>)
    requires i.Push? || i.Pop? || i.Cdq? || i.Ret?
    requires Encode(i) <= bs
    ensures Decode(bs) == Some(i)
  {
    Tail(i, bs, 0);
    if i.Push? || i.Pop? {
      RegRoundTrip(i.r);
    }
  }

  /** Whatever bytes follow, decoding at an encoded instruction gives it back. */
  lemma DecodeEncode(i: Instr, bs: seq<byte>)
    requires Encode(i) <= bs
    ensures Decode(bs) == Some(i)
  {
    if i.LoadBp? || i.StoreBp? || i.LeaBp? || i.LoadSp? || i.StoreSp? {
      DecodeFrame(i, bs);
    } else if i.LoadAbs? || i.StoreAbs? {
      DecodeAbsolute(i, bs);
    } else if i.LoadIndByte? {
      DecodeLoadByte(i, bs);
    } else if HasMemory(i) {
      DecodeIndirect(i, bs);
    } else if HasImmediate(i) {
      DecodeImmediate(i, bs);
    } else if i.Push? || i.Pop? || i.Cdq? || i.Ret? {
      DecodeOneByte(i, bs);
    } else if i.Rr? || i.Imul? || i.SetCC? || i.MovzxEaxAl? || i.CallEax? {
      DecodeBinary(i, bs);
    } else {
      DecodeUnary(i, bs);
    }
  }

  function Assemble(prog: seq<Instr>): (bs: seq<byte>) {
    if prog == [] then [] else Encode(prog[0]) + Assemble(prog[1..])
  }

  /** Decode instruction after instruction until the bytes run out. */
  function Disassemble(bs: seq<byte>): Option<seq<Instr>>
    decreases |bs|
  {
    if bs == [] then Some([])
    else
      var i := Decode(bs);
      if i.None? || Size(i.value) > |bs| then None
      else
        var rest := Disassemble(bs[Size(i.value)..]);
        if rest.None? then None else Some([i.value] + rest.value)
  }

  lemma DisassembleFirst(i: Instr, rest: seq<byte>)
    requires Disassemble(rest).Some?
    ensures Disassemble(Encode(i) + rest) == Some([i] + Disassemble(rest).value)
  {
    var bs := Encode(i) + rest;
    DecodeEncode(i, bs);
    assert bs[Size(i)..] == rest;
  }

  /** Decoding the bytes of any sequence of emitter calls yields that sequence. */
  lemma {:induction false} EncodingRoundTrip(prog: seq<Instr>)
    ensures Disassemble(Assemble(prog)) == Some(prog)
  {
    hide Encode, Decode;
    if prog != [] {
      var rest := Assemble(prog[1..]);
      EncodingRoundTrip(prog[1..]);
      DisassembleFirst(prog[0], rest);
      assert [prog[0]] + prog[1..] == prog;
      assert Assemble(prog) == Encode(prog[0]) + rest;
    }
  }
}
