/** An instruction decoder for the subset the emitter uses, written from the
    instruction format: REX prefix, opcode, ModRM, displacement, immediate. It
    knows nothing of `Encode`; the two meet in the round-trip lemmas. */
module Decoder {
  import opened Ir
  import opened Words
  import opened Machine
  import opened Encoding

  /** A decoded instruction and its length in bytes. */
  datatype Decoded = Decoded(asm: Asm, len: nat)

  function At(c: Bytes, i: int): int { if 0 <= i < |c| then c[i] else -1 }

  /** Unsigned little-endian field. */
  function Field(c: Bytes, i: int, n: nat): nat
    requires 0 <= i && i + n <= |c|
    decreases n
  {
    if n == 0 then 0 else c[i] + 256 * Field(c, i + 1, n - 1)
  }

  function Pow256(n: nat): (p: nat)
    ensures p > 0
  {
    if n == 0 then 1 else 256 * Pow256(n - 1)
  }

  /** Two's-complement field of 1 or 4 bytes. */
  function SField(c: Bytes, i: int, n: nat): int
    requires 0 <= i && i + n <= |c|
  {
    var x := Field(c, i, n);
    if 2 * x >= Pow256(n) then x - Pow256(n) else x
  }

  predicate Avail(c: Bytes, i: int, n: nat) { 0 <= i && i + n <= |c| }

  // ---------- ModRM ----------

  function Mode(m: int): int { m / 64 }
  function RegField(m: int): int { m / 8 % 8 }
  function RmField(m: int): int { m % 8 }

  function Ext(bit: bool, field: int): RegId
    requires 0 <= field < 8
  {
    field + if bit then 8 else 0
  }

  datatype Operand = InReg(rm: RegId) | InMem(base: RegId, disp: int) | InMem0(base: RegId)

  /** Operand and length of the ModRM byte at `i` with its displacement. */
  function RmOperand(c: Bytes, i: int, b: bool): Option<(Operand, nat)> {
    var m := At(c, i);
    if m < 0 then None
    else if Mode(m) == 3 then Some((InReg(Ext(b, RmField(m))), 1))
    else if RmField(m) == 4 then None // SIB
    else if Mode(m) == 0 then (if RmField(m) == 5 then None else Some((InMem0(Ext(b, RmField(m))), 1)))
    else
      var n := if Mode(m) == 1 then 1 else 4;
      if Avail(c, i + 1, n) then Some((InMem(Ext(b, RmField(m)), SField(c, i + 1, n)), 1 + n)) else None
  }

  function RegOperand(c: Bytes, i: int, r: bool): Option<RegId> {
    if At(c, i) < 0 then None else Some(Ext(r, RegField(At(c, i))))
  }

  // ---------- instructions ----------

  function AluOfCode(op: int): Option<AluOp> {
    if op == 0x03 then Some(AAdd) else if op == 0x2B then Some(ASub) else if op == 0x23 then Some(AAnd)
    else if op == 0x0B then Some(AOr) else if op == 0x33 then Some(AXor) else None
  }

  function CcOfCode(k: int): Option<CC> {
    if k == 4 then Some(CE) else if k == 5 then Some(CNE) else if k == 12 then Some(CL) else if k == 13 then Some(CGE)
    else if k == 14 then Some(CLE) else if k == 15 then Some(CG) else None
  }

  /** `alu reg, r/m` with ModRM at `i`; `len` bytes precede it. */
  function AluForm(c: Bytes, i: int, op: AluOp, r: bool, b: bool, len: nat): Option<Decoded> {
    match (RegOperand(c, i, r), RmOperand(c, i, b))
    case (Some(d), Some((InReg(s), n))) => Some(Decoded(Alu(op, d, s), len + n))
    case (Some(d), Some((InMem(base, disp), n))) => Some(Decoded(AluMem(op, d, base, disp), len + n))
    case _ => None
  }

  function MovStoreForm(c: Bytes, i: int, r: bool, b: bool): Option<Decoded> {
    match (RegOperand(c, i, r), RmOperand(c, i, b))
    case (Some(s), Some((InReg(d), n))) => Some(Decoded(MovRR(d, s), 2 + n))
    case (Some(s), Some((InMem(base, disp), n))) => Some(Decoded(Store(base, disp, s), 2 + n))
    case _ => None
  }

  function LoadForm(c: Bytes, i: int, r: bool, b: bool): Option<Decoded> {
    match (RegOperand(c, i, r), RmOperand(c, i, b))
    case (Some(d), Some((InMem(base, disp), n))) => Some(Decoded(Load(d, base, disp), 2 + n))
    case _ => None
  }

  function CmpForm(c: Bytes, i: int, r: bool, b: bool): Option<Decoded> {
    match (RegOperand(c, i, r), RmOperand(c, i, b))
    case (Some(x), Some((InReg(y), n))) => Some(Decoded(CmpRR(x, y), 2 + n))
    case (Some(x), Some((InMem(base, disp), n))) => Some(Decoded(CmpMem(x, base, disp), 2 + n))
    case _ => None
  }

  /** `0F B6 /r`: byte load with zero extension, or `movzx rax, al`. */
  function ByteForm(c: Bytes, i: int, r: bool, b: bool): Option<Decoded> {
    match (RegOperand(c, i, r), RmOperand(c, i, b))
    case (Some(d), Some((InReg(s), n))) => if d == RAX && s == RAX then Some(Decoded(MovzxAl, 3 + n)) else None
    case (Some(d), Some((InMem(base, disp), n))) => Some(Decoded(Asm.LoadByte(d, base, disp, false), 3 + n))
    case (Some(d), Some((InMem0(base), n))) => Some(Decoded(Asm.LoadByte(d, base, 0, true), 3 + n))
    case _ => None
  }

  /** `C7 /0`: store or load an immediate. */
  function ImmForm(c: Bytes, i: int, r: bool, b: bool): Option<Decoded> {
    match (RegOperand(c, i, r), RmOperand(c, i, b))
    case (Some(e), Some((InReg(d), n))) =>
      if e == 0 && Avail(c, i + n, 4) then Some(Decoded(MovImm(d, SField(c, i + n, 4)), 2 + n + 4)) else None
    case (Some(e), Some((InMem(base, disp), n))) =>
      if e == 0 && Avail(c, i + n, 4) then Some(Decoded(StoreImm(base, disp, SField(c, i + n, 4)), 2 + n + 4)) else None
    case _ => None
  }

  /** One-operand groups `F7` and `FF`, and shifts by cl, selected by the reg field. */
  function GroupForm(c: Bytes, i: int, op: int, b: bool): Option<Decoded> {
    match (RegOperand(c, i, false), RmOperand(c, i, b))
    case (Some(e), Some((InReg(d), n))) =>
      if op == 0xF7 && e == 3 then Some(Decoded(Asm.Neg(d), 2 + n))
      else if op == 0xF7 && e == 6 then Some(Decoded(Asm.Div(d), 2 + n))
      else if op == 0xF7 && e == 7 then Some(Decoded(IDiv(d), 2 + n))
      else if op == 0xFF && e == 0 then Some(Decoded(Inc(d), 2 + n))
      else if op == 0xFF && e == 1 then Some(Decoded(Dec(d), 2 + n))
      else if op == 0xD3 && d == RAX && e == 4 then Some(Decoded(ShiftCl(SShl), 2 + n))
      else if op == 0xD3 && d == RAX && e == 5 then Some(Decoded(ShiftCl(SShr), 2 + n))
      else if op == 0xD3 && d == RAX && e == 7 then Some(Decoded(ShiftCl(SSar), 2 + n))
      else None
    case _ => None
  }

  /** `83`/`81` on rsp: add and sub of an immediate. */
  function RspForm(c: Bytes, i: int, b: bool, width: nat): Option<Decoded> {
    match (RegOperand(c, i, false), RmOperand(c, i, b))
    case (Some(e), Some((InReg(d), n))) =>
      if d != RSP || !Avail(c, i + n, width) then None
      else if e == 0 then Some(Decoded(AddRsp(SField(c, i + n, width)), 2 + n + width))
      else if e == 5 then Some(Decoded(SubRsp(SField(c, i + n, width)), 2 + n + width))
      else None
    case _ => None
  }

  /** `mov [base], al` and `cmp [base], al`. */
  function AlForm(c: Bytes, i: int, op: int, b: bool): Option<Decoded> {
    match (RegOperand(c, i, false), RmOperand(c, i, b))
    case (Some(e), Some((InMem0(base), n))) =>
      if e != RAX then None
      else if op == 0x88 then Some(Decoded(StoreAl(base), 2 + n))
      else Some(Decoded(CmpAlMem(base), 2 + n))
    case _ => None
  }

  function TestForm(c: Bytes, i: int, r: bool, b: bool): Option<Decoded> {
    match (RegOperand(c, i, r), RmOperand(c, i, b))
    case (Some(x), Some((InReg(y), n))) => if x == y then Some(Decoded(Test(x), 2 + n)) else None
    case _ => None
  }

  /** After REX.W; the opcode is at `i`. */
  function DecodeWide(c: Bytes, i: int, r: bool, b: bool): Option<Decoded> {
    var op := At(c, i);
    if 0x50 <= op < 0x58 then Some(Decoded(Push(Ext(b, op - 0x50), true), 2))
    else if 0x58 <= op < 0x60 then Some(Decoded(Pop(Ext(b, op - 0x58), true), 2))
    else if 0xB8 <= op < 0xC0 then
      if Avail(c, i + 1, 8) then Some(Decoded(MovAbs(Ext(b, op - 0xB8), Wrap(Field(c, i + 1, 8))), 10)) else None
    else if op == 0x0F then
      if At(c, i + 1) == 0xAF then AluForm(c, i + 2, AMul, r, b, 3)
      else if At(c, i + 1) == 0xB6 then ByteForm(c, i + 2, r, b)
      else None
    else if AluOfCode(op).Some? then AluForm(c, i + 1, AluOfCode(op).value, r, b, 2)
    else if op == 0x89 then MovStoreForm(c, i + 1, r, b)
    else if op == 0x8B then LoadForm(c, i + 1, r, b)
    else if op == 0x3B then CmpForm(c, i + 1, r, b)
    else if op == 0x85 then TestForm(c, i + 1, r, b)
    else if op == 0xC7 then ImmForm(c, i + 1, r, b)
    else if op == 0x88 || op == 0x38 then AlForm(c, i + 1, op, b)
    else if op == 0xF7 || op == 0xFF || op == 0xD3 then GroupForm(c, i + 1, op, b)
    else if op == 0x83 then RspForm(c, i + 1, b, 1)
    else if op == 0x81 then RspForm(c, i + 1, b, 4)
    else if op == 0x99 then Some(Decoded(Cqo, 2))
    else None
  }

  /** Relative target field of `width` bytes at `i`. */
  function RelField(c: Bytes, i: int, width: nat): Option<int> {
    if Avail(c, i, width) then Some(SField(c, i, width)) else None
  }

  function JccForm(c: Bytes, i: int, k: int, wide: bool): Option<Decoded> {
    match (CcOfCode(k), RelField(c, i, if wide then 4 else 1))
    case (Some(cc), Some(rel)) => Some(Decoded(Jcc(cc, rel, wide), if wide then 6 else 2))
    case _ => None
  }

  /** No prefix; the opcode is at `i`. */
  function DecodePlain(c: Bytes, i: int): Option<Decoded> {
    var op := At(c, i);
    if 0x50 <= op < 0x58 then Some(Decoded(Push(op - 0x50, false), 1))
    else if 0x58 <= op < 0x60 then Some(Decoded(Pop(op - 0x58, false), 1))
    else if 0x70 <= op < 0x80 then JccForm(c, i + 1, op - 0x70, false)
    else if 0xB8 <= op < 0xC0 then
      if Avail(c, i + 1, 4) then Some(Decoded(MovImmZ(op - 0xB8, Field(c, i + 1, 4)), 5)) else None
    else if op == 0x31 then
      match (RegOperand(c, i + 1, false), RmOperand(c, i + 1, false)) {
        case (Some(x), Some((InReg(y), n))) => if x == y then Some(Decoded(Xor32(x), 2)) else None
        case _ => None
      }
    else if op == 0xC3 then Some(Decoded(Asm.Ret, 1))
    else if op == 0xC9 then Some(Decoded(Leave, 1))
    else if op == 0xE8 then
      match RelField(c, i + 1, 4) { case Some(rel) => Some(Decoded(CallRel(rel), 5)) case None => None }
    else if op == 0xE9 then
      match RelField(c, i + 1, 4) { case Some(rel) => Some(Decoded(Jmp(rel, true), 5)) case None => None }
    else if op == 0xEB then
      match RelField(c, i + 1, 1) { case Some(rel) => Some(Decoded(Jmp(rel, false), 2)) case None => None }
    else if op == 0x0F then
      var op2 := At(c, i + 1);
      if op2 == 0x05 then Some(Decoded(Syscall, 2))
      else if 0x80 <= op2 < 0x90 then JccForm(c, i + 2, op2 - 0x80, true)
      else if 0x90 <= op2 < 0xA0 && At(c, i + 2) == 0xC0 && CcOfCode(op2 - 0x90).Some?
      then Some(Decoded(SetAl(CcOfCode(op2 - 0x90).value), 3))
      else None
    else None
  }

  /** The instruction at offset `i`. */
  function Decode(c: Bytes, i: int): Option<Decoded> {
    var b0 := At(c, i);
    if 0x40 <= b0 < 0x50 then
      var w, r, x, b := b0 / 8 % 2 == 1, b0 / 4 % 2 == 1, b0 / 2 % 2 == 1, b0 % 2 == 1;
      if x then None
      else if w then DecodeWide(c, i + 1, r, b)
      else if !r && At(c, i + 1) == 0xFF then
        match (RegOperand(c, i + 2, false), RmOperand(c, i + 2, b)) {
          case (Some(e), Some((InReg(d), n))) => if e == 2 then Some(Decoded(CallReg(d), 3)) else None
          case _ => None
        }
      else None
    else DecodePlain(c, i)
  }
}
