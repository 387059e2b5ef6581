/** Bytes of each emitted instruction: REX, opcode, ModRM, displacement, immediate. */
module Encoding {
  import opened Words
  import opened Machine

  type Bytes = seq<Byte>

  /** `n` little-endian bytes of an integer, two's complement when negative. */
  function LeBytes(x: int, n: nat): (s: Bytes)
    ensures |s| == n
    decreases n
  {
    if n == 0 then [] else [x % 256] + LeBytes(x / 256, n - 1)
  }

  function Bit(b: bool): nat { if b then 1 else 0 }

  function Rex(w: bool, r: bool, b: bool): Byte { 0x40 + 8 * Bit(w) + 4 * Bit(r) + Bit(b) }

  function Modrm(mode: nat, reg: nat, rm: nat): Byte
    requires mode < 4
  {
    64 * mode + 8 * (reg % 8) + rm % 8
  }

  predicate High(r: RegId) { r >= 8 }

  /** ModRM and displacement of `[base + disp]`. */
  function MemOperand(reg: nat, base: RegId, disp: int): Bytes {
    if SmallDisp(base, disp) then [Modrm(1, reg, base)] + LeBytes(disp, 1) else [Modrm(2, reg, base)] + LeBytes(disp, 4)
  }

  function AluCode(op: AluOp): Bytes {
    match op
    case AAdd => [0x03]
    case ASub => [0x2B]
    case AMul => [0x0F, 0xAF]
    case AAnd => [0x23]
    case AOr => [0x0B]
    case AXor => [0x33]
  }

  /** Condition number in `jcc` and `setcc`. */
  function CcCode(cc: CC): nat {
    match cc case CE => 4 case CNE => 5 case CL => 12 case CG => 15 case CLE => 14 case CGE => 13
  }

  function ShiftCode(op: ShiftOp): nat {
    match op case SShl => 4 case SSar => 7 case SShr => 5
  }

  function RspImm(ext: nat, n: int): Bytes {
    if n <= 120 then [0x48, 0x83, Modrm(3, ext, RSP)] + LeBytes(n, 1) else [0x48, 0x81, Modrm(3, ext, RSP)] + LeBytes(n, 4)
  }

  function Encode(a: Asm): Bytes {
    match a
    case MovRR(d, s) => [Rex(true, High(s), High(d)), 0x89, Modrm(3, s, d)]
    case MovImm(r, imm) => [Rex(true, false, High(r)), 0xC7, Modrm(3, 0, r)] + LeBytes(imm, 4)
    case MovImmZ(r, imm) => [0xB8 + r % 8] + LeBytes(imm, 4)
    case MovAbs(r, w) => [Rex(true, false, High(r)), 0xB8 + r % 8] + LeBytes(w, 8)
    case Load(d, b, disp) => [Rex(true, High(d), High(b)), 0x8B] + MemOperand(d, b, disp)
    case Store(b, disp, s) => [Rex(true, High(s), High(b)), 0x89] + MemOperand(s, b, disp)
    case StoreImm(b, disp, imm) => [Rex(true, false, High(b)), 0xC7] + MemOperand(0, b, disp) + LeBytes(imm, 4)
    case LoadByte(d, b, disp, nodisp) =>
      [Rex(true, High(d), High(b)), 0x0F, 0xB6] + if nodisp then [Modrm(0, d, b)] else MemOperand(d, b, disp)
    case StoreAl(b) => [Rex(true, false, High(b)), 0x88, Modrm(0, 0, b)]
    case CmpAlMem(b) => [Rex(true, false, High(b)), 0x38, Modrm(0, 0, b)]
    case Neg(r) => [Rex(true, false, High(r)), 0xF7, Modrm(3, 3, r)]
    case Inc(r) => [Rex(true, false, High(r)), 0xFF, Modrm(3, 0, r)]
    case Dec(r) => [Rex(true, false, High(r)), 0xFF, Modrm(3, 1, r)]
    case Alu(op, d, s) => [Rex(true, High(d), High(s))] + AluCode(op) + [Modrm(3, d, s)]
    case AluMem(op, d, b, disp) => [Rex(true, High(d), High(b))] + AluCode(op) + MemOperand(d, b, disp)
    case CmpRR(x, y) => [Rex(true, High(x), High(y)), 0x3B, Modrm(3, x, y)]
    case CmpMem(x, b, disp) => [Rex(true, High(x), High(b)), 0x3B] + MemOperand(x, b, disp)
    case Test(r) => [Rex(true, High(r), High(r)), 0x85, Modrm(3, r, r)]
    case SetAl(cc) => [0x0F, 0x90 + CcCode(cc), 0xC0]
    case MovzxAl => [0x48, 0x0F, 0xB6, 0xC0]
    case ShiftCl(op) => [0x48, 0xD3, Modrm(3, ShiftCode(op), RAX)]
    case Cqo => [0x48, 0x99]
    case IDiv(r) => [Rex(true, false, High(r)), 0xF7, Modrm(3, 7, r)]
    case Div(r) => [Rex(true, false, High(r)), 0xF7, Modrm(3, 6, r)]
    case Xor32(r) => [0x31, Modrm(3, r, r)]
    case Push(r, rexed) => (if rexed then [Rex(true, false, High(r))] else []) + [0x50 + r % 8]
    case Pop(r, rexed) => (if rexed then [Rex(true, false, High(r))] else []) + [0x58 + r % 8]
    case Leave => [0xC9]
    case AddRsp(n) => RspImm(0, n)
    case SubRsp(n) => RspImm(5, n)
    case Ret => [0xC3]
    case CallRel(rel) => [0xE8] + LeBytes(rel, 4)
    case CallReg(r) => [Rex(false, false, High(r)), 0xFF, Modrm(3, 2, r)]
    case Jmp(rel, wide) => if wide then [0xE9] + LeBytes(rel, 4) else [0xEB] + LeBytes(rel, 1)
    case Jcc(cc, rel, wide) => if wide then [0x0F, 0x80 + CcCode(cc)] + LeBytes(rel, 4)
        else [0x70 + CcCode(cc)] + LeBytes(rel, 1)
    case Syscall => [0x0F, 0x05]
    // placeholders, patched once the target is known
    case CallFn(_) => [0xE8] + LeBytes(0, 4)
    case LeaFn(r, _) => [Rex(true, false, High(r)), 0xB8 + r % 8] + LeBytes(0, 8)
    case JmpTo(_) => [0xE9] + LeBytes(0, 4)
    case JnzTo(_) => [0x0F, 0x85] + LeBytes(0, 4)
  }

  lemma EncodeSize(a: Asm)
    ensures |Encode(a)| == Size(a)
  {
    hide Rex, Modrm;
  }

  // ---------- what has an encoding ----------

  predicate Imm8(x: int) { -0x80 <= x < 0x80 }
  predicate Imm32(x: int) { -0x8000_0000 <= x < 0x8000_0000 }

  /** `[base + disp]` needs no SIB byte; rbp and r10 are the bases in use. */
  predicate Addressable(base: RegId, disp: int) { (base == RBP || base == R10) && Imm32(disp) }

  /** Fields fit their encodings. */
  predicate Encodable(a: Asm) {
    match a
    case MovImm(_, imm) => Imm32(imm)
    case MovImmZ(r, imm) => r < 8 && Imm32(imm) && imm >= 0
    case Load(_, b, disp) => Addressable(b, disp)
    case Store(b, disp, _) => Addressable(b, disp)
    case StoreImm(b, disp, imm) => Addressable(b, disp) && Imm32(imm)
    case LoadByte(_, b, disp, nodisp) => if nodisp then b == R11 && disp == 0 else Addressable(b, disp)
    case StoreAl(b) => b == R10
    case CmpAlMem(b) => b == R10
    case AluMem(_, _, b, disp) => Addressable(b, disp)
    case CmpMem(_, b, disp) => Addressable(b, disp)
    case Xor32(r) => r < 8
    case Push(r, rexed) => rexed || r < 8
    case Pop(r, rexed) => rexed || r < 8
    case AddRsp(n) => 0 <= n && Imm32(n)
    case SubRsp(n) => 0 <= n && Imm32(n)
    case CallRel(rel) => Imm32(rel)
    case CallReg(r) => High(r)
    case Jmp(rel, wide) => if wide then Imm32(rel) else Imm8(rel)
    case Jcc(_, rel, wide) => if wide then Imm32(rel) else Imm8(rel)
    case CallFn(_) => false
    case LeaFn(_, _) => false
    case JmpTo(_) => false
    case JnzTo(_) => false
    case _ => true
  }
}
