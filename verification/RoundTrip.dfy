/** Decoding reads back exactly what was encoded. */
module RoundTrip {
  import opened Ir
  import opened Words
  import opened Machine
  import opened Encoding
  import opened Decoder

  /** The bytes `bs` sit at offset `i`. */
  predicate HasBytes(c: Bytes, i: int, bs: Bytes) {
    0 <= i && i + |bs| <= |c| && c[i..i + |bs|] == bs
  }

  lemma HasSplit(c: Bytes, i: int, xs: Bytes, ys: Bytes)
    requires HasBytes(c, i, xs + ys)
    ensures HasBytes(c, i, xs) && HasBytes(c, i + |xs|, ys)
  {
    assert c[i..i + |xs|] == (xs + ys)[..|xs|] == xs;
    assert c[i + |xs|..i + |xs + ys|] == (xs + ys)[|xs|..] == ys;
  }

  lemma HasAt(c: Bytes, i: int, bs: Bytes, k: nat)
    requires HasBytes(c, i, bs) && k < |bs|
    ensures At(c, i + k) == bs[k]
  {
    assert c[i..i + |bs|][k] == c[i + k];
  }

  // ---------- fields ----------

  lemma FieldStep(x: int, p: int)
    requires p > 0
    ensures x % 256 + 256 * (x / 256 % p) == x % (256 * p)
  {
    var q, r := x / 256 / p, x / 256 % p;
    assert x == 256 * p * q + (256 * r + x % 256) by {
      assert x / 256 == p * q + r;
      assert 256 * (p * q) == 256 * p * q;
    }
    Unique(x, 256 * p, q, 256 * r + x % 256);
  }

  lemma Unique(x: int, d: int, q: int, r: int)
    requires d > 0 && 0 <= r < d && x == d * q + r
    ensures x % d == r
  {
    var q', r' := x / d, x % d;
    assert d * (q - q') == r' - r by { assert x == d * q' + r'; assert d * (q - q') == d * q - d * q'; }
    assert d * (q - q') == -(d * (q' - q));
    if q - q' >= 1 { MulBound(d, q - q'); }
    if q' - q >= 1 { MulBound(d, q' - q); }
  }

  lemma MulBound(d: int, k: int)
    requires d > 0 && k >= 1
    ensures d * k >= d
  {
  }

  lemma {:induction false} FieldOfLe(c: Bytes, i: int, x: int, n: nat)
    requires HasBytes(c, i, LeBytes(x, n))
    ensures Avail(c, i, n) && Field(c, i, n) == x % Pow256(n)
    decreases n
  {
    if n > 0 {
      HasSplit(c, i, [x % 256], LeBytes(x / 256, n - 1));
      HasAt(c, i, [x % 256], 0);
      FieldOfLe(c, i + 1, x / 256, n - 1);
      FieldStep(x, Pow256(n - 1));
    }
  }

  lemma SFieldOfLe(c: Bytes, i: int, x: int, n: nat)
    requires HasBytes(c, i, LeBytes(x, n)) && ((n == 1 && Imm8(x)) || (n == 4 && Imm32(x)))
    ensures Avail(c, i, n) && SField(c, i, n) == x
  {
    FieldOfLe(c, i, x, n);
    assert Pow256(1) == 256 && Pow256(4) == 0x1_0000_0000 by { PowValues(); }
    if n == 1 { SignFold(x, 256); } else { SignFold(x, 0x1_0000_0000); }
  }

  lemma PowValues()
    ensures Pow256(1) == 0x100 && Pow256(4) == 0x1_0000_0000 && Pow256(8) == B64
  {
    assert Pow256(2) == 0x1_0000 && Pow256(3) == 0x100_0000 && Pow256(4) == 0x1_0000_0000;
    assert Pow256(5) == 0x100_0000_0000 && Pow256(6) == 0x1_0000_0000_0000;
    assert Pow256(7) == 0x100_0000_0000_0000;
  }

  lemma SignFold(x: int, p: int)
    requires p > 0 && -p <= 2 * x < p
    ensures x % p == if x < 0 then x + p else x
  {
    Unique(x, p, if x < 0 then -1 else 0, if x < 0 then x + p else x);
  }

  // ---------- ModRM ----------

  lemma Octal(a: nat, b: nat, c: nat)
    requires a < 4 && b < 8 && c < 8
    ensures var x := 64 * a + 8 * b + c; x / 64 == a && x / 8 % 8 == b && x % 8 == c
  {
    assert (64 * a + 8 * b + c) / 8 == 8 * a + b;
  }

  lemma ModrmFields(mode: nat, reg: nat, rm: nat)
    requires mode < 4
    ensures Mode(Modrm(mode, reg, rm)) == mode && RegField(Modrm(mode, reg, rm)) == reg % 8
    ensures RmField(Modrm(mode, reg, rm)) == rm % 8
  {
    Octal(mode, reg % 8, rm % 8);
  }

  lemma ExtRestores(r: RegId)
    ensures Ext(High(r), r % 8) == r
  {
  }

  lemma RegReads(c: Bytes, i: int, mode: nat, reg: RegId, rm: RegId)
    requires mode < 4 && At(c, i) == Modrm(mode, reg, rm)
    ensures RegOperand(c, i, High(reg)) == Some(reg)
    ensures reg < 8 ==> RegOperand(c, i, false) == Some(reg)
  {
    ModrmFields(mode, reg, rm);
    ExtRestores(reg);
  }

  lemma RegOperandReads(c: Bytes, i: int, reg: RegId, rm: RegId)
    requires At(c, i) == Modrm(3, reg, rm)
    ensures RegOperand(c, i, High(reg)) == Some(reg) && RmOperand(c, i, High(rm)) == Some((InReg(rm), 1))
    ensures reg < 8 ==> RegOperand(c, i, false) == Some(reg)
    ensures rm < 8 ==> RmOperand(c, i, false) == Some((InReg(rm), 1))
  {
    RegReads(c, i, 3, reg, rm);
    ModrmFields(3, reg, rm);
    ExtRestores(rm);
  }

  lemma Mem0Reads(c: Bytes, i: int, reg: RegId, base: RegId)
    requires At(c, i) == Modrm(0, reg, base) && (base == R10 || base == R11)
    ensures RegOperand(c, i, High(reg)) == Some(reg) && RmOperand(c, i, true) == Some((InMem0(base), 1))
    ensures reg < 8 ==> RegOperand(c, i, false) == Some(reg)
  {
    RegReads(c, i, 0, reg, base);
    ModrmFields(0, reg, base);
  }

  lemma MemReads(c: Bytes, i: int, reg: RegId, base: RegId, disp: int)
    requires HasBytes(c, i, MemOperand(reg, base, disp)) && Addressable(base, disp)
    ensures RegOperand(c, i, High(reg)) == Some(reg)
    ensures reg < 8 ==> RegOperand(c, i, false) == Some(reg)
    ensures RmOperand(c, i, High(base)) == Some((InMem(base, disp), |MemOperand(reg, base, disp)|))
  {
    var mode, n := if SmallDisp(base, disp) then 1 else 2, if SmallDisp(base, disp) then 1 else 4;
    HasSplit(c, i, [Modrm(mode, reg, base)], LeBytes(disp, n));
    HasAt(c, i, [Modrm(mode, reg, base)], 0);
    RegReads(c, i, mode, reg, base);
    ModrmFields(mode, reg, base);
    ExtRestores(base);
    SFieldOfLe(c, i + 1, disp, n);
  }

  // ---------- prefixes ----------

  lemma RexBits(r: bool, b: bool)
    ensures var x := Rex(true, r, b);
            0x40 <= x < 0x50 && x / 8 % 2 == 1 && (x / 4 % 2 == 1 <==> r) && x / 2 % 2 == 0 && (x % 2 == 1 <==> b)
  {
    match (r, b) { case (true, true) => case (true, false) => case (false, true) => case (false, false) => }
  }

  lemma RexReads(c: Bytes, i: int, r: bool, b: bool)
    requires At(c, i) == Rex(true, r, b)
    ensures Decode(c, i) == DecodeWide(c, i + 1, r, b)
  {
    hide DecodeWide, DecodePlain, RegOperand, RmOperand, Rex;
    RexBits(r, b);
  }

  lemma Head2(c: Bytes, i: int, x: Byte, y: Byte, rest: Bytes)
    requires HasBytes(c, i, [x, y] + rest)
    ensures At(c, i) == x && At(c, i + 1) == y && HasBytes(c, i + 2, rest)
  {
    HasSplit(c, i, [x, y], rest);
    HasAt(c, i, [x, y], 0);
    HasAt(c, i, [x, y], 1);
  }

  lemma Head3(c: Bytes, i: int, x: Byte, y: Byte, z: Byte, rest: Bytes)
    requires HasBytes(c, i, [x, y, z] + rest)
    ensures At(c, i) == x && At(c, i + 1) == y && At(c, i + 2) == z && HasBytes(c, i + 3, rest)
  {
    HasSplit(c, i, [x, y, z], rest);
    HasAt(c, i, [x, y, z], 0);
    HasAt(c, i, [x, y, z], 1);
    HasAt(c, i, [x, y, z], 2);
  }

  lemma Only3(c: Bytes, i: int, x: Byte, y: Byte, z: Byte)
    requires HasBytes(c, i, [x, y, z])
    ensures At(c, i) == x && At(c, i + 1) == y && At(c, i + 2) == z
  {
    HasAt(c, i, [x, y, z], 0);
    HasAt(c, i, [x, y, z], 1);
    HasAt(c, i, [x, y, z], 2);
  }

  // ---------- form by form ----------

  /** `a` is read back at `i`, with its own length. */
  predicate Reads(c: Bytes, i: int, a: Asm) { Decode(c, i) == Some(Decoded(a, Size(a))) }

  lemma ReadMoves(c: Bytes, i: int, a: Asm)
    requires Encodable(a) && HasBytes(c, i, Encode(a)) && (a.MovRR? || a.CmpRR? || a.Test?)
    ensures Reads(c, i, a)
  {
    hide Decode, Rex, HasBytes, RmOperand, RegOperand;
    match a {
      case MovRR(d, s) =>
        Only3(c, i, Rex(true, High(s), High(d)), 0x89, Modrm(3, s, d));
        RexReads(c, i, High(s), High(d));
        RegOperandReads(c, i + 2, s, d);
      case CmpRR(x, y) =>
        Only3(c, i, Rex(true, High(x), High(y)), 0x3B, Modrm(3, x, y));
        RexReads(c, i, High(x), High(y));
        RegOperandReads(c, i + 2, x, y);
      case Test(r) =>
        Only3(c, i, Rex(true, High(r), High(r)), 0x85, Modrm(3, r, r));
        RexReads(c, i, High(r), High(r));
        RegOperandReads(c, i + 2, r, r);
    }
  }

  lemma MemHead(c: Bytes, i: int, op: Byte, reg: RegId, base: RegId, disp: int)
    requires HasBytes(c, i, [Rex(true, High(reg), High(base)), op] + MemOperand(reg, base, disp)) && Addressable(base, disp)
    ensures Decode(c, i) == DecodeWide(c, i + 1, High(reg), High(base)) && At(c, i + 1) == op
    ensures RegOperand(c, i + 2, High(reg)) == Some(reg)
    ensures RmOperand(c, i + 2, High(base)) == Some((InMem(base, disp), 1 + DispSize(base, disp)))
  {
    hide Decode, DecodeWide, RmOperand, RegOperand, MemOperand, Rex, DispSize;
    Head2(c, i, Rex(true, High(reg), High(base)), op, MemOperand(reg, base, disp));
    RexReads(c, i, High(reg), High(base));
    MemReads(c, i + 2, reg, base, disp);
    MemSize(reg, base, disp);
  }

  lemma ReadMemory(c: Bytes, i: int, a: Asm)
    requires Encodable(a) && HasBytes(c, i, Encode(a)) && (a.Load? || a.Store? || a.CmpMem?)
    ensures Reads(c, i, a)
  {
    hide Decode, RmOperand, RegOperand, MemOperand, HasBytes, DispSize, Rex;
    match a {
      case Load(d, b, disp) => MemHead(c, i, 0x8B, d, b, disp);
      case Store(b, disp, s) => MemHead(c, i, 0x89, s, b, disp);
      case CmpMem(x, b, disp) => MemHead(c, i, 0x3B, x, b, disp);
    }
  }

  lemma MemSize(reg: nat, base: RegId, disp: int)
    ensures |MemOperand(reg, base, disp)| == 1 + DispSize(base, disp)
  {
  }

  lemma ReadMovImm(c: Bytes, i: int, r: RegId, imm: int)
    requires Imm32(imm) && HasBytes(c, i, Encode(MovImm(r, imm)))
    ensures Reads(c, i, MovImm(r, imm))
  {
    hide Decode, RmOperand, RegOperand, SField, HasBytes, Rex, Modrm, LeBytes;
    Head3(c, i, Rex(true, false, High(r)), 0xC7, Modrm(3, 0, r), LeBytes(imm, 4));
    RexReads(c, i, false, High(r));
    RegOperandReads(c, i + 2, 0, r);
    SFieldOfLe(c, i + 3, imm, 4);
  }

  lemma ReadMovAbs(c: Bytes, i: int, r: RegId, w: Word)
    requires HasBytes(c, i, Encode(MovAbs(r, w)))
    ensures Reads(c, i, MovAbs(r, w))
  {
    hide Decode, RmOperand, RegOperand, Field, HasBytes, Rex, Pow256, LeBytes;
    Head2(c, i, Rex(true, false, High(r)), 0xB8 + r % 8, LeBytes(w, 8));
    RexReads(c, i, false, High(r));
    FieldOfLe(c, i + 2, w, 8);
    PowValues();
    ExtRestores(r);
  }

  lemma ImmOpcode(c: Bytes, i: int, r: bool, b: bool)
    requires At(c, i) == 0xC7
    ensures DecodeWide(c, i, r, b) == ImmForm(c, i + 1, r, b)
  {
    hide ImmForm;
  }

  lemma ReadStoreImm(c: Bytes, i: int, b: RegId, disp: int, imm: int)
    requires Addressable(b, disp) && Imm32(imm) && HasBytes(c, i, Encode(StoreImm(b, disp, imm)))
    ensures Reads(c, i, StoreImm(b, disp, imm))
  {
    hide Decode, DecodeWide, Rex, HasBytes, RmOperand, RegOperand, MemOperand, SField;
    var head, mem := [Rex(true, false, High(b)), 0xC7], MemOperand(0, b, disp);
    assert head + mem + LeBytes(imm, 4) == head + (mem + LeBytes(imm, 4));
    Head2(c, i, Rex(true, false, High(b)), 0xC7, mem + LeBytes(imm, 4));
    HasSplit(c, i + 2, mem, LeBytes(imm, 4));
    RexReads(c, i, false, High(b));
    ImmOpcode(c, i + 1, false, High(b));
    MemReads(c, i + 2, 0, b, disp);
    MemSize(0, b, disp);
    SFieldOfLe(c, i + 2 + |mem|, imm, 4);
  }

  lemma ByteOpcode(c: Bytes, i: int, r: bool, b: bool)
    requires At(c, i) == 0x0F && At(c, i + 1) == 0xB6
    ensures DecodeWide(c, i, r, b) == ByteForm(c, i + 2, r, b)
  {
    hide ByteForm;
  }

  lemma ReadLoadByte(c: Bytes, i: int, a: Asm)
    requires a.LoadByte? && Encodable(a) && HasBytes(c, i, Encode(a))
    ensures Reads(c, i, a)
  {
    hide Decode, DecodeWide, RmOperand, RegOperand, MemOperand, HasBytes, Rex, Modrm, DispSize;
    var d, b, disp := a.dst, a.base, a.disp;
    RexReads2(c, i, High(d), High(b), 0xB6, if a.nodisp then [Modrm(0, d, b)] else MemOperand(d, b, disp));
    ByteOpcode(c, i + 1, High(d), High(b));
    if a.nodisp {
      HasAt(c, i + 3, [Modrm(0, d, b)], 0);
      Mem0Reads(c, i + 3, d, b);
    } else {
      MemReads(c, i + 3, d, b, disp);
      MemSize(d, b, disp);
    }
  }

  lemma ReadAlOps(c: Bytes, i: int, a: Asm)
    requires Encodable(a) && HasBytes(c, i, Encode(a)) && (a.StoreAl? || a.CmpAlMem? || a.MovzxAl?)
    ensures Reads(c, i, a)
  {
    hide Decode, RmOperand, RegOperand, HasBytes;
    match a {
      case StoreAl(b) =>
        Only3(c, i, Rex(true, false, High(b)), 0x88, Modrm(0, 0, b));
        RexReads(c, i, false, High(b));
        Mem0Reads(c, i + 2, 0, b);
      case CmpAlMem(b) =>
        Only3(c, i, Rex(true, false, High(b)), 0x38, Modrm(0, 0, b));
        RexReads(c, i, false, High(b));
        Mem0Reads(c, i + 2, 0, b);
      case MovzxAl =>
        assert Encode(a) == [0x48, 0x0F, 0xB6] + [Modrm(3, 0, 0)];
        RexReads2(c, i, false, false, 0xB6, [Modrm(3, 0, 0)]);
        HasAt(c, i + 3, [Modrm(3, 0, 0)], 0);
        RegOperandReads(c, i + 3, 0, 0);
    }
  }

  /** REX, `0F`, second opcode byte. */
  lemma RexReads2(c: Bytes, i: int, r: bool, b: bool, op2: Byte, rest: Bytes)
    requires HasBytes(c, i, [Rex(true, r, b), 0x0F, op2] + rest)
    ensures At(c, i + 1) == 0x0F && At(c, i + 2) == op2 && HasBytes(c, i + 3, rest)
    ensures Decode(c, i) == DecodeWide(c, i + 1, r, b)
  {
    Head3(c, i, Rex(true, r, b), 0x0F, op2, rest);
    RexReads(c, i, r, b);
  }

  lemma MulOpcode(c: Bytes, i: int, r: bool, b: bool)
    requires At(c, i) == 0x0F && At(c, i + 1) == 0xAF
    ensures DecodeWide(c, i, r, b) == AluForm(c, i + 2, AMul, r, b, 3)
  {
    hide AluForm;
  }

  lemma AluOpcode(c: Bytes, i: int, op: AluOp, r: bool, b: bool)
    requires !op.AMul? && At(c, i) == AluCode(op)[0]
    ensures DecodeWide(c, i, r, b) == AluForm(c, i + 1, op, r, b, 2)
  {
    hide AluForm;
  }

  /** REX.W and the opcode of an ALU operation. */
  lemma AluHead(c: Bytes, i: int, op: AluOp, r: bool, b: bool, rest: Bytes)
    requires HasBytes(c, i, [Rex(true, r, b)] + AluCode(op) + rest)
    ensures Decode(c, i) == AluForm(c, i + 1 + |AluCode(op)|, op, r, b, 1 + |AluCode(op)|)
    ensures HasBytes(c, i + 1 + |AluCode(op)|, rest)
  {
    hide Decode, DecodeWide, Rex, HasBytes, AluForm;
    if op.AMul? {
      assert [Rex(true, r, b)] + AluCode(op) + rest == [Rex(true, r, b), 0x0F, 0xAF] + rest;
      RexReads2(c, i, r, b, 0xAF, rest);
      MulOpcode(c, i + 1, r, b);
    } else {
      var code := AluCode(op)[0];
      assert [Rex(true, r, b)] + AluCode(op) + rest == [Rex(true, r, b), code] + rest;
      Head2(c, i, Rex(true, r, b), code, rest);
      RexReads(c, i, r, b);
      AluOpcode(c, i + 1, op, r, b);
    }
  }

  lemma ReadAlu(c: Bytes, i: int, op: AluOp, d: RegId, s: RegId)
    requires HasBytes(c, i, Encode(Alu(op, d, s)))
    ensures Reads(c, i, Alu(op, d, s))
  {
    hide Decode, Rex, HasBytes, RmOperand, RegOperand, AluCode, Modrm;
    var at := i + 1 + |AluCode(op)|;
    AluHead(c, i, op, High(d), High(s), [Modrm(3, d, s)]);
    HasAt(c, at, [Modrm(3, d, s)], 0);
    RegOperandReads(c, at, d, s);
    AluSize(op);
  }

  lemma ReadAluMem(c: Bytes, i: int, op: AluOp, d: RegId, b: RegId, disp: int)
    requires Addressable(b, disp) && HasBytes(c, i, Encode(AluMem(op, d, b, disp)))
    ensures Reads(c, i, AluMem(op, d, b, disp))
  {
    hide Decode, Rex, HasBytes, RmOperand, RegOperand, AluCode, MemOperand;
    AluHead(c, i, op, High(d), High(b), MemOperand(d, b, disp));
    MemReads(c, i + 1 + |AluCode(op)|, d, b, disp);
    MemSize(d, b, disp);
    AluSize(op);
  }

  lemma AluSize(op: AluOp)
    ensures |AluCode(op)| == if op.AMul? then 2 else 1
  {
  }

  lemma GroupOpcode(c: Bytes, i: int, op: int, r: bool, b: bool)
    requires At(c, i) == op && (op == 0xF7 || op == 0xFF || op == 0xD3)
    ensures DecodeWide(c, i, r, b) == GroupForm(c, i + 1, op, b)
  {
    hide GroupForm;
  }

  lemma ReadGroup(c: Bytes, i: int, op: Byte, e: RegId, r: RegId)
    requires e < 8 && HasBytes(c, i, [Rex(true, false, High(r)), op, Modrm(3, e, r)])
    requires op == 0xF7 || op == 0xFF || op == 0xD3
    ensures Decode(c, i) == GroupForm(c, i + 2, op, High(r))
    ensures RegOperand(c, i + 2, false) == Some(e) && RmOperand(c, i + 2, High(r)) == Some((InReg(r), 1))
  {
    hide Decode, DecodeWide, GroupForm, RmOperand, RegOperand, Rex, Modrm;
    Only3(c, i, Rex(true, false, High(r)), op, Modrm(3, e, r));
    RexReads(c, i, false, High(r));
    GroupOpcode(c, i + 1, op, false, High(r));
    RegOperandReads(c, i + 2, e, r);
  }

  lemma RexW()
    ensures Rex(true, false, false) == 0x48
  {
  }

  lemma ReadUnary(c: Bytes, i: int, a: Asm)
    requires HasBytes(c, i, Encode(a)) && (a.Neg? || a.Inc? || a.Dec? || a.IDiv? || a.Div? || a.ShiftCl?)
    ensures Reads(c, i, a)
  {
    hide Decode, DecodeWide, RmOperand, RegOperand, Rex, Modrm, HasBytes;
    match a {
      case Neg(r) => ReadGroup(c, i, 0xF7, 3, r);
      case Inc(r) => ReadGroup(c, i, 0xFF, 0, r);
      case Dec(r) => ReadGroup(c, i, 0xFF, 1, r);
      case IDiv(r) => ReadGroup(c, i, 0xF7, 7, r);
      case Div(r) => ReadGroup(c, i, 0xF7, 6, r);
      case ShiftCl(op) =>
        RexW();
        ReadGroup(c, i, 0xD3, ShiftCode(op), RAX);
    }
  }

  lemma RspOpcode(c: Bytes, i: int, r: bool, b: bool)
    requires At(c, i) == 0x83 || At(c, i) == 0x81
    ensures DecodeWide(c, i, r, b) == RspForm(c, i + 1, b, if At(c, i) == 0x83 then 1 else 4)
  {
    hide RspForm;
  }

  lemma ReadRsp(c: Bytes, i: int, a: Asm)
    requires Encodable(a) && HasBytes(c, i, Encode(a)) && (a.AddRsp? || a.SubRsp?)
    ensures Reads(c, i, a)
  {
    hide Decode, DecodeWide, Rex, HasBytes, Modrm, LeBytes, RmOperand, RegOperand, SField;
    var e, n, width, op := if a.AddRsp? then 0 else 5, a.imm, if a.imm <= 120 then 1 else 4, if a.imm <= 120
        then 0x83 else 0x81;
    RexW();
    Head3(c, i, 0x48, op, Modrm(3, e, RSP), LeBytes(n, width));
    RexReads(c, i, false, false);
    RspOpcode(c, i + 1, false, false);
    RegOperandReads(c, i + 2, e, RSP);
    SFieldOfLe(c, i + 3, n, width);
  }

  lemma ReadStackOps(c: Bytes, i: int, a: Asm)
    requires Encodable(a) && HasBytes(c, i, Encode(a)) && (a.Push? || a.Pop?)
    ensures Reads(c, i, a)
  {
    var op := (if a.Push? then 0x50 else 0x58) + a.r % 8;
    ExtRestores(a.r);
    if a.rexed {
      assert Encode(a) == [Rex(true, false, High(a.r)), op] + [];
      Head2(c, i, Rex(true, false, High(a.r)), op, []);
      RexReads(c, i, false, High(a.r));
    } else {
      assert Encode(a) == [op];
      HasAt(c, i, [op], 0);
    }
  }

  lemma ReadPlain(c: Bytes, i: int, a: Asm)
    requires Encodable(a) && HasBytes(c, i, Encode(a))
    requires a.Xor32? || a.Leave? || a.Ret? || a.Syscall? || a.SetAl? || a.Cqo?
    ensures Reads(c, i, a)
  {
    hide RmOperand, RegOperand, SField, HasBytes, Modrm;
    match a {
      case Xor32(r) =>
        assert Encode(a) == [0x31, Modrm(3, r, r)] + [];
        Head2(c, i, 0x31, Modrm(3, r, r), []);
        RegOperandReads(c, i + 1, r, r);
      case Leave => HasAt(c, i, [0xC9], 0);
      case Ret => HasAt(c, i, [0xC3], 0);
      case Syscall =>
        assert Encode(a) == [0x0F, 0x05] + [];
        Head2(c, i, 0x0F, 0x05, []);
      case SetAl(cc) => Only3(c, i, 0x0F, 0x90 + CcCode(cc), 0xC0);
      case Cqo =>
        assert Encode(a) == [0x48, 0x99] + [];
        Head2(c, i, 0x48, 0x99, []);
        RexReads(c, i, false, false);
    }
  }

  lemma Head1(c: Bytes, i: int, x: Byte, rest: Bytes)
    requires HasBytes(c, i, [x] + rest)
    ensures At(c, i) == x && HasBytes(c, i + 1, rest)
  {
    HasSplit(c, i, [x], rest);
    HasAt(c, i, [x], 0);
  }

  lemma ReadJumps(c: Bytes, i: int, a: Asm)
    requires Encodable(a) && HasBytes(c, i, Encode(a)) && (a.CallRel? || a.Jmp?)
    ensures Reads(c, i, a)
  {
    hide RmOperand, RegOperand, SField, HasBytes, LeBytes;
    var n := if a.CallRel? || a.wide then 4 else 1;
    Head1(c, i, if a.CallRel? then 0xE8 else if a.wide then 0xE9 else 0xEB, LeBytes(a.rel, n));
    SFieldOfLe(c, i + 1, a.rel, n);
  }

  lemma ReadJcc(c: Bytes, i: int, cc: CC, rel: int, wide: bool)
    requires Encodable(Jcc(cc, rel, wide)) && HasBytes(c, i, Encode(Jcc(cc, rel, wide)))
    ensures Reads(c, i, Jcc(cc, rel, wide))
  {
    hide RmOperand, RegOperand, SField, HasBytes, LeBytes;
    if wide {
      Head2(c, i, 0x0F, 0x80 + CcCode(cc), LeBytes(rel, 4));
      SFieldOfLe(c, i + 2, rel, 4);
    } else {
      Head1(c, i, 0x70 + CcCode(cc), LeBytes(rel, 1));
      SFieldOfLe(c, i + 1, rel, 1);
    }
  }

  lemma ReadCallReg(c: Bytes, i: int, r: RegId)
    requires High(r) && HasBytes(c, i, Encode(CallReg(r)))
    ensures Reads(c, i, CallReg(r))
  {
    hide RmOperand, RegOperand, DecodeWide, DecodePlain;
    Only3(c, i, Rex(false, false, High(r)), 0xFF, Modrm(3, 2, r));
    RegOperandReads(c, i + 2, 2, r);
  }

  lemma ReadMovImmZ(c: Bytes, i: int, r: RegId, imm: int)
    requires Encodable(MovImmZ(r, imm)) && HasBytes(c, i, Encode(MovImmZ(r, imm)))
    ensures Reads(c, i, MovImmZ(r, imm))
  {
    hide RmOperand, RegOperand, Field, HasBytes, LeBytes, Pow256;
    Head1(c, i, 0xB8 + r, LeBytes(imm, 4));
    FieldOfLe(c, i + 1, imm, 4);
    PowValues();
  }

  /** Every encodable instruction is read back from its bytes, with its length,
      whatever surrounds it. */
  lemma DecodeEncode(c: Bytes, i: int, a: Asm)
    requires Encodable(a) && HasBytes(c, i, Encode(a))
    ensures Decode(c, i) == Some(Decoded(a, Size(a)))
  {
    hide Decode, HasBytes, Encode, Size;
    if a.MovRR? || a.CmpRR? || a.Test? { ReadMoves(c, i, a); }
    else if a.Load? || a.Store? || a.CmpMem? { ReadMemory(c, i, a); }
    else if a.MovImm? { ReadMovImm(c, i, a.dst, a.imm); }
    else if a.MovAbs? { ReadMovAbs(c, i, a.dst, a.abs); }
    else if a.StoreImm? { ReadStoreImm(c, i, a.base, a.disp, a.imm); }
    else if a.LoadByte? { ReadLoadByte(c, i, a); }
    else if a.StoreAl? || a.CmpAlMem? || a.MovzxAl? { ReadAlOps(c, i, a); }
    else if a.Alu? { ReadAlu(c, i, a.op, a.dst, a.src); }
    else if a.AluMem? { ReadAluMem(c, i, a.op, a.dst, a.base, a.disp); }
    else if a.Neg? || a.Inc? || a.Dec? || a.IDiv? || a.Div? || a.ShiftCl? { ReadUnary(c, i, a); }
    else if a.AddRsp? || a.SubRsp? { ReadRsp(c, i, a); }
    else if a.Push? || a.Pop? { ReadStackOps(c, i, a); }
    else if a.CallRel? || a.Jmp? { ReadJumps(c, i, a); }
    else if a.Jcc? { ReadJcc(c, i, a.cc, a.rel, a.wide); }
    else if a.CallReg? { ReadCallReg(c, i, a.r); }
    else if a.MovImmZ? { ReadMovImmZ(c, i, a.dst, a.imm); }
    else { ReadPlain(c, i, a); }
  }
}
