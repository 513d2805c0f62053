/** The code buffer of src/rc/emit.rs: bytes are appended, and 32-bit operands of
    already emitted instructions are overwritten once their value is known.

    `code` is the code as it is meant to be when compilation ends.  The bytes in the
    buffer are those of `code`, except that the operand of an instruction in
    `pending` is still the placeholder 0. */
module Emit {
  import opened Base
  import opened Word
  import opened X86
  import opened Machine
  import opened Codegen

  const CODE_MAX: nat := 65536

  /** Who will patch a pending instruction: the construct that emitted it, the end of
      the loop at some depth, the final fixup pass or the string pass; and as which
      entry of their tables. */
  datatype Tag = Local | LoopExit(depth: nat, entry: nat) | Fixup(entry: nat) | StringRef(entry: nat)

  predicate Patchable(i: Instr) {
    i.Jmp? || i.Jcc? || i.CallRel? || i.SubEsp? || i.MovImm?
  }

  /** i with its 32-bit operand replaced by v. */
  function WithOperand(i: Instr, v: word): (j: Instr)
    requires Patchable(i)
    ensures Patchable(j) && Size(j) == Size(i)
  {
    match i
    case Jmp(_) => Jmp(Signed(v))
    case Jcc(cc, _) => Jcc(cc, Signed(v))
    case CallRel(_) => CallRel(Signed(v))
    case SubEsp(_) => SubEsp(v)
    case MovImm(r, _) => MovImm(r, v)
  }

  /** The operand of i as the 32-bit word stored in the code. */
  function OperandOf(i: Instr): word
    requires Patchable(i)
  {
    match i
    case Jmp(d) => Wrap(d)
    case Jcc(_, d) => Wrap(d)
    case CallRel(d) => Wrap(d)
    case SubEsp(n) => n
    case MovImm(_, v) => v
  }

  function Hole(i: Instr): Instr
    requires Patchable(i)
  {
    WithOperand(i, 0)
  }

  /** Patching the hole of i with i's operand gives the bytes of i. */
  lemma PatchFills(i: Instr)
    requires Patchable(i)
    ensures Size(i) >= 5 && Encode(Hole(i))[..Size(i) - 4] + Dword(OperandOf(i)) == Encode(i)
  {
    assert |Dword(OperandOf(i))| == 4;
    assert Encode(i)[..Size(i) - 4] == Encode(Hole(i))[..Size(i) - 4];
    assert Encode(i)[Size(i) - 4..] == Dword(OperandOf(i));
  }

  /** The bytes of every instruction of code, holes where it is pending. */
  ghost predicate Laid(bytes: seq<byte>, code: Code, pending: map<int, Tag>) {
    (forall q :: q in pending ==> q in code && Patchable(code[q])) &&
    (forall q :: q in code ==> LaidAt(bytes, q, if q in pending then Hole(code[q]) else code[q])) &&
    (forall q, r :: q in code && r in code && q < r ==> q + Size(code[q]) <= r)
  }

  ghost predicate LaidAt(bytes: seq<byte>, q: int, i: Instr) {
    EncodedAt(bytes, q, i)
  }

  lemma LaidAppend(bytes: seq<byte>, more: seq<byte>, code: Code, pending: map<int, Tag>)
    requires Laid(bytes, code, pending)
    ensures Laid(bytes + more, code, pending)
  {
    forall q | q in code ensures LaidAt(bytes + more, q, if q in pending then Hole(code[q]) else code[q]) {
      var i := if q in pending then Hole(code[q]) else code[q];
      assert LaidAt(bytes, q, i);
      assert (bytes + more)[q..q + Size(i)] == bytes[q..q + Size(i)];
    }
  }

  lemma LaidBelow(bytes: seq<byte>, code: Code, pending: map<int, Tag>)
    requires Laid(bytes, code, pending)
    ensures forall q :: q in code ==> 0 <= q && q + Size(code[q]) <= |bytes|
  {
    forall q | q in code ensures 0 <= q && q + Size(code[q]) <= |bytes| {
      assert LaidAt(bytes, q, if q in pending then Hole(code[q]) else code[q]);
    }
  }

  lemma LaidPending(bytes: seq<byte>, code: Code, pending: map<int, Tag>)
    requires Laid(bytes, code, pending)
    ensures forall q :: q in pending ==> q in code && q < |bytes|
    ensures |bytes| !in code && |bytes| !in pending
  {
    LaidBelow(bytes, code, pending);
  }

  /** A new instruction at the end of the bytes. */
  lemma LaidNew(bytes: seq<byte>, i: Instr, code: Code, pending: map<int, Tag>, hole: bool, tag: Tag)
    requires Laid(bytes, code, pending) && (hole ==> Patchable(i))
    ensures |bytes| !in code
    ensures Laid(bytes + Encode(if hole then Hole(i) else i), code[|bytes| := i],
      if hole then pending[|bytes| := tag] else pending)
  {
    hide Encode, Size;
    var j := if hole then Hole(i) else i;
    var bytes' := bytes + Encode(j);
    var code' := code[|bytes| := i];
    var pending' := if hole then pending[|bytes| := tag] else pending;
    LaidAppend(bytes, Encode(j), code, pending);
    LaidBelow(bytes, code, pending);
    forall q | q in code' ensures LaidAt(bytes', q, if q in pending' then Hole(code'[q]) else code'[q]) {
      if q == |bytes| {
        assert bytes'[q..q + Size(j)] == Encode(j);
      } else {
        assert LaidAt(bytes', q, if q in pending then Hole(code[q]) else code[q]);
      }
    }
  }

  /** An operand that is waited for is in the buffer. */
  lemma HoleInside(bytes: seq<byte>, code: Code, pending: map<int, Tag>, q: int)
    requires Laid(bytes, code, pending) && q in pending
    ensures q in code && Patchable(code[q]) && 0 <= q + Size(code[q]) - 4 && q + Size(code[q]) <= |bytes|
  {
    hide Encode, Dword, WithOperand;
    assert LaidAt(bytes, q, Hole(code[q]));
    PatchFills(code[q]);
  }

  /** Filling the hole at q. */
  lemma LaidPatch(bytes: seq<byte>, bytes': seq<byte>, code: Code, pending: map<int, Tag>, q: int)
    requires Laid(bytes, code, pending) && q in pending
    requires var p := q + Size(code[q]) - 4;
      0 <= p && p + 4 <= |bytes| && bytes' == bytes[..p] + Dword(OperandOf(code[q])) + bytes[p + 4..]
    ensures Laid(bytes', code, pending - {q})
  {
    hide Encode, Dword, Size, WithOperand;
    var i := code[q];
    var p := q + Size(i) - 4;
    PatchFills(i);
    forall r | r in code ensures LaidAt(bytes', r, if r in pending - {q} then Hole(code[r]) else code[r]) {
      var j := if r in pending then Hole(code[r]) else code[r];
      assert LaidAt(bytes, r, j);
      if r == q {
        assert bytes'[q..q + Size(i)] == bytes[q..p] + Dword(OperandOf(i));
        SubSlice(bytes, q, q + Size(i), 0, Size(i) - 4);
        assert bytes[q..p] == bytes[q..q + Size(i)][..Size(i) - 4];
      } else if r < q {
        assert r + Size(code[r]) <= q;
        assert bytes'[r..r + Size(j)] == bytes[r..r + Size(j)];
      } else {
        assert q + Size(i) <= r;
        assert bytes'[r..r + Size(j)] == bytes[r..r + Size(j)];
      }
    }
  }

  /** Bytes that are data, not code: in place, and no operand to be patched among them. */
  ghost predicate DataKept(bytes: seq<byte>, code: Code, pending: map<int, Tag>, data: map<int, byte>) {
    (forall k :: k in data ==> 0 <= k < |bytes| && bytes[k] == data[k]) &&
    (forall q, k :: q in pending && q in code && k in data ==> k < q || q + Size(code[q]) <= k)
  }

  predicate Within(k: int, lo: int, n: nat) {
    lo <= k < lo + n
  }

  /** bs at the positions from p on. */
  function Spread(bs: seq<byte>, p: int): map<int, byte> {
    map k: int | p <= k < p + |bs| && Within(k, p, |bs|) :: bs[k - p]
  }

  lemma DataPatch(bytes: seq<byte>, bytes': seq<byte>, code: Code, pending: map<int, Tag>, q: int, data: map<int, byte>)
    requires DataKept(bytes, code, pending, data) && q in pending && q in code && Patchable(code[q])
    requires var p := q + Size(code[q]) - 4;
      0 <= p && p + 4 <= |bytes| && bytes' == bytes[..p] + Dword(OperandOf(code[q])) + bytes[p + 4..]
    ensures DataKept(bytes', code, pending - {q}, data)
  {
    hide Encode, Dword, WithOperand;
    PatchFills(code[q]);
    forall k | k in data ensures 0 <= k < |bytes'| && bytes'[k] == data[k] {
      assert k < q || q + Size(code[q]) <= k;
    }
  }

  /** bytes with the word v written at p, as far as they reach. */
  function Overwritten(bytes: seq<byte>, p: nat, v: word): (bytes': seq<byte>)
    ensures |bytes'| == |bytes|
  {
    if p + 4 <= |bytes| then bytes[..p] + Dword(v) + bytes[p + 4..] else bytes
  }

  class CodeBuffer {
    const buf: array<byte>
    var pos: nat
    var overflow: bool
    ghost var code: Code
    ghost var pending: map<int, Tag>
    ghost var data: map<int, byte>
    // False once an operand was patched that nobody was waiting for.
    ghost var sound: bool

    constructor ()
      ensures Valid() && fresh(buf) && Clean()
      ensures pos == 0 && code == map[] && pending == map[] && data == map[]
    {
      buf := new byte[CODE_MAX](_ => 0);
      pos, overflow := 0, false;
      code, pending, data, sound := map[], map[], map[], true;
    }

    ghost predicate Clean()
      reads this
    {
      !overflow && sound
    }

    ghost predicate Valid()
      reads this, buf
    {
      buf.Length == CODE_MAX && pos <= CODE_MAX &&
      (Clean() ==> Laid(buf[..pos], code, pending) && DataKept(buf[..pos], code, pending, data))
    }

    /** Append one byte, or note that it was dropped. */
    method Byte(b: byte)
      requires Valid()
      modifies this`pos, this`overflow, buf
      ensures Valid()
      ensures old(pos) < 65536 ==> overflow == old(overflow) && buf[..pos] == old(buf[..pos]) + [b]
      ensures old(pos) == 65536 ==> overflow && pos == old(pos) && buf[..] == old(buf[..])
      ensures old(overflow) ==> overflow
    {
      if pos < CODE_MAX {
        buf[pos] := b;
        pos := pos + 1;
        assert buf[..pos] == old(buf[..pos]) + [b];
        if Clean() {
          LaidAppend(old(buf[..pos]), [b], code, pending);
        }
      } else {
        overflow := true;
      }
    }

    /** Append all bytes of bs; without overflow they all arrive. */
    method Bytes(bs: seq<byte>)
      requires Valid()
      modifies this`pos, this`overflow, buf
      ensures Valid()
      ensures overflow || (!old(overflow) && buf[..pos] == old(buf[..pos]) + bs)
      ensures old(overflow) ==> overflow
      ensures !old(overflow) && old(pos) + |bs| <= 65536 ==> !overflow && pos == old(pos) + |bs|
    {
      var k := 0;
      while k < |bs|
        invariant k <= |bs| && Valid()
        invariant overflow || (!old(overflow) && buf[..pos] == old(buf[..pos]) + bs[..k])
        invariant old(overflow) ==> overflow
        invariant !old(overflow) && old(pos) + |bs| <= CODE_MAX ==> !overflow && pos == old(pos) + k
      {
        Byte(bs[k]);
        k := k + 1;
        assert bs[..k] == bs[..k - 1] + [bs[k - 1]];
      }
      assert bs[..k] == bs;
    }

    /** Append bytes that are not code. */
    method Data(bs: seq<byte>)
      requires Valid()
      modifies this`pos, this`overflow, this`data, buf
      ensures Valid() && (old(overflow) ==> overflow)
      ensures !old(overflow) && old(pos) + |bs| <= 65536 ==> !overflow && pos == old(pos) + |bs|
      ensures Clean() ==>
        old(Clean()) && pos == old(pos) + |bs| &&
        data == old(data) + Spread(bs, old(pos))
    {
      hide Laid;
      ghost var bytes, n := buf[..pos], pos;
      if Clean() {
        LaidBelow(bytes, code, pending);
        LaidPending(bytes, code, pending);
      }
      Bytes(bs);
      data := data + Spread(bs, n);
    }

    /** Append an instruction. */
    method Emit(i: Instr)
      requires Valid()
      modifies this`pos, this`overflow, this`code, buf
      ensures Valid()
      ensures Clean() ==>
        old(Clean()) && pos == old(pos) + Size(i) && old(pos) !in old(code) && code == old(code)[old(pos) := i]
      ensures old(overflow) ==> overflow
      ensures !old(overflow) && old(pos) + Size(i) <= 65536 ==> !overflow && pos == old(pos) + Size(i)
    {
      Bytes(Encode(i));
      if Clean() {
        LaidNew(old(buf[..pos]), i, code, pending, false, Local);
      }
      code := code[old(pos) := i];
    }

    /** Append an instruction whose operand is not known yet; p is where it will go. */
    method EmitHole(ghost i: Instr, op: Instr, ghost tag: Tag) returns (p: nat)
      requires Valid() && Patchable(i) && op == Hole(i)
      modifies this`pos, this`overflow, this`code, this`pending, buf
      ensures Valid()
      ensures Clean() ==>
        old(Clean()) && pos == old(pos) + Size(i) && p == pos - 4 && old(pos) !in old(code) &&
        code == old(code)[old(pos) := i] && pending == old(pending)[old(pos) := tag]
      ensures old(overflow) ==> overflow
      ensures !old(overflow) && old(pos) + Size(i) <= 65536 ==> !overflow && pos == old(pos) + Size(i)
      ensures !overflow ==> buf[..pos] == old(buf[..pos]) + Encode(op) && pos == old(pos) + Size(i) && p == pos - 4
    {
      hide Encode, Size, Dword, WithOperand, Laid;
      var bs := Encode(op);
      PatchFills(i);
      Bytes(bs[..|bs| - 4]);
      p := pos;
      Bytes(bs[|bs| - 4..]);
      if !overflow {
        assert bs[..|bs| - 4] + bs[|bs| - 4..] == bs;
        assert buf[..pos] == old(buf[..pos]) + bs;
      }
      if Clean() {
        LaidNew(old(buf[..pos]), i, code, pending, true, tag);
      }
      code := code[old(pos) := i];
      pending := pending[old(pos) := tag];
    }

    /** Overwrite the operand at p.  When p is the operand of the pending instruction
        at q and v is the operand it waits for, that instruction is done. */
    method PatchDword(p: nat, v: word, ghost q: int)
      requires Valid()
      modifies this`pending, this`sound, buf
      ensures Valid()
      ensures old(Clean()) && q in old(pending) && p == q + Size(code[q]) - 4 && v == OperandOf(code[q]) ==>
        Clean() && pending == old(pending) - {q}
      ensures buf[..] == Overwritten(old(buf[..]), p, v)
      ensures Clean() ==> old(Clean())
    {
      hide Encode, Size, Dword, Hole, OperandOf, Laid, DataKept;
      ghost var bytes := buf[..pos];
      WriteDword(p, v);
      if Clean() && q in pending {
        HoleInside(bytes, code, pending, q);
      }
      if Clean() && q in pending && p == q + Size(code[q]) - 4 && v == OperandOf(code[q]) {
        LaidPatch(bytes, buf[..pos], code, pending, q);
        DataPatch(bytes, buf[..pos], code, pending, q, data);
        pending := pending - {q};
      } else {
        sound := false;
      }
    }

    /** Four bytes at p, as far as the buffer reaches. */
    method WriteDword(p: nat, v: word)
      requires buf.Length == CODE_MAX && pos <= CODE_MAX
      modifies buf
      ensures p + 4 <= pos ==> buf[..pos] == old(buf[..pos])[..p] + Dword(v) + old(buf[..pos])[p + 4..]
      ensures buf[..] == Overwritten(old(buf[..]), p, v)
    {
      hide Dword;
      var bs := Dword(v);
      if p + 4 <= CODE_MAX {
        buf[p], buf[p + 1], buf[p + 2], buf[p + 3] := bs[0], bs[1], bs[2], bs[3];
      }
    }
  }
}
