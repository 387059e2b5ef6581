/** Each emitted instruction sequence computes what its IR instruction means,
    into the destination's home, through scratch registers only. */
module Instructions {
  import opened Ir
  import opened Words
  import IrSemantics
  import opened Locations
  import opened Machine
  import opened Emission
  import opened Execution

  // ---------- arithmetic facts ----------

  /** The condition codes after `cmp a, b` decide the signed comparison. */
  lemma CmpFlags(op: CmpOp, a: Word, b: Word)
    ensures Machine.Holds(CcOf(op), SubFlags(a, b, B63)) <==> IrSemantics.EvalCmp(op, a, b) == 1
  {
    var r := (a - b) % (2 * B63);
    assert r == if a >= b then a - b else a - b + B64;
  }

  lemma CmpIsBit(op: CmpOp, a: Word, b: Word)
    ensures IrSemantics.EvalCmp(op, a, b) == if Machine.Holds(CcOf(op), SubFlags(a, b, B63)) then 1 else 0
  {
    CmpFlags(op, a, b);
  }

  lemma AluIsArith(op: BinOp, a: Word, b: Word)
    requires !IsDivision(op) && !IsShift(op)
    ensures IrSemantics.EvalBin(op, a, b) == Some(AluOf(AluOpOf(op), a, b))
  {
  }

  lemma ShiftIsShift(op: BinOp, a: Word, b: Word)
    requires IsShift(op)
    ensures IrSemantics.EvalBin(op, a, b) == Some(ShiftOf(ShiftOpOf(op), a, b % 64))
  {
  }

  // ---------- runs that only disturb scratch registers ----------

  ghost predicate ScratchRun(code: Code, m: M, m1: M, size: nat) {
    Star(code, m, m1) && m1.rip == m.rip + size && Agree(m1, m)
  }

  lemma NoRun(code: Code, m: M)
    ensures ScratchRun(code, m, m, 0)
  {
    StarRefl(code, m);
  }

  lemma SameHome(m1: M, m: M, l: Loc)
    requires Agree(m1, m) && HomeOk(m, l)
    ensures HomeOk(m1, l) && Home(m1, l) == Home(m, l)
  {
    if l.Reg? { match l.phys case Rbx => case R12 => case R13 => case R14 => case R15 => }
  }

  lemma ThenGet(code: Code, ctx: Ctx, m: M, m0: M, size: nat, r: RegId, l: Loc) returns (m1: M)
    requires ScratchRun(code, m, m0, size) && CodeAt(code, m0.rip, Get(r, l), ctx)
    requires Scratch(r) && HomeOk(m, l)
    ensures ScratchRun(code, m, m1, size + SizeAll(Get(r, l)))
    ensures m1.regs == m0.regs[r := Home(m, l)]
  {
    SameHome(m0, m, l);
    m1 := RunGet(code, ctx, m0, r, l);
    StarTrans(code, m, m0, m1);
  }

  lemma ThenStep(code: Code, ctx: Ctx, m: M, m0: M, size: nat, a: Asm, m1: M)
    requires ScratchRun(code, m, m0, size) && CodeAt(code, m0.rip, [a], ctx)
    requires Exec(Resolve(a, m0.rip, ctx), Past(m0, Size(a))) == Go(m1)
    requires Agree(m1, m0) && m1.rip == m0.rip + Size(a)
    ensures ScratchRun(code, m, m1, size + Size(a))
  {
    OneStep(code, ctx, m0, a, m1);
    StarTrans(code, m, m0, m1);
  }

  lemma ThenPut(code: Code, ctx: Ctx, m: M, m0: M, size: nat, r: RegId, dl: Loc) returns (m1: M)
    requires ScratchRun(code, m, m0, size) && CodeAt(code, m0.rip, Put(r, dl), ctx) && HomeOk(m, dl)
    ensures Sets(code, m, m1, size + SizeAll(Put(r, dl)), dl, m0.regs[r])
  {
    SameHome(m0, m, dl);
    m1 := RunPut(code, ctx, m0, r, dl);
    StarTrans(code, m, m0, m1);
  }

  lemma One(a: Asm)
    ensures SizeAll([a]) == Size(a)
  {
  }

  // ---------- moves, constants, negation ----------

  lemma RunConst(code: Code, ctx: Ctx, m: M, dl: Loc, imm: int) returns (m': M)
    requires CodeAt(code, m.rip, ConstAsm(dl, imm), ctx) && HomeOk(m, dl)
    ensures Sets(code, m, m', SizeAll(ConstAsm(dl, imm)), dl, Wrap(imm))
  {
    hide CodeAt, SizeAll, Star;
    if dl.Slot? && !Fits32(imm) {
      var a := MovAbs(RAX, Wrap(imm));
      Split2(code, m.rip, [a], Put(RAX, dl), ctx);
      One(a);
      NoRun(code, m);
      var m1 := Past(m, Size(a)).(regs := m.regs[RAX := Wrap(imm)]);
      ThenStep(code, ctx, m, m, 0, a, m1);
      m' := ThenPut(code, ctx, m, m1, Size(a), RAX, dl);
    } else {
      var a := ConstAsm(dl, imm)[0];
      assert ConstAsm(dl, imm) == [a];
      One(a);
      if dl.Slot? { SlotEa(Past(m, Size(a)), dl.k); }
      m' := SetHome(Past(m, Size(a)), dl, Wrap(imm));
      OneStep(code, ctx, m, a, m');
    }
  }

  lemma RunMov(code: Code, ctx: Ctx, m: M, dl: Loc, al: Loc) returns (m': M)
    requires CodeAt(code, m.rip, MovAsm(dl, al), ctx) && HomeOk(m, dl) && HomeOk(m, al)
    ensures Sets(code, m, m', SizeAll(MovAsm(dl, al)), dl, Home(m, al))
  {
    hide CodeAt, SizeAll, Star;
    if dl.Reg? {
      m' := RunGet(code, ctx, m, PhysId(dl.phys), al);
    } else if al.Reg? {
      m' := RunPut(code, ctx, m, PhysId(al.phys), dl);
    } else {
      Split2(code, m.rip, Get(RAX, al), Put(RAX, dl), ctx);
      NoRun(code, m);
      var m1 := ThenGet(code, ctx, m, m, 0, RAX, al);
      m' := ThenPut(code, ctx, m, m1, SizeAll(Get(RAX, al)), RAX, dl);
    }
  }

  lemma RunNeg(code: Code, ctx: Ctx, m: M, dl: Loc, al: Loc) returns (m': M)
    requires CodeAt(code, m.rip, NegAsm(dl, al), ctx) && HomeOk(m, dl) && HomeOk(m, al)
    ensures Sets(code, m, m', SizeAll(NegAsm(dl, al)), dl, Wrap(B64 - Home(m, al)))
  {
    hide CodeAt, SizeAll, Star;
    if dl.Reg? && dl == al {
      var a := Asm.Neg(PhysId(dl.phys));
      One(a);
      m' := SetHome(Past(m, Size(a)), dl, Wrap(B64 - Home(m, al))).(flags := None);
      OneStep(code, ctx, m, a, m');
    } else {
      var a := Asm.Neg(RAX);
      Split3(code, m.rip, Get(RAX, al), [a], Put(RAX, dl), ctx);
      One(a);
      NoRun(code, m);
      var m1 := ThenGet(code, ctx, m, m, 0, RAX, al);
      var m2 := Past(m1, Size(a)).(regs := m1.regs[RAX := Wrap(B64 - Home(m, al))], flags := None);
      ThenStep(code, ctx, m, m1, SizeAll(Get(RAX, al)), a, m2);
      m' := ThenPut(code, ctx, m, m2, SizeAll(Get(RAX, al)) + Size(a), RAX, dl);
    }
  }

  // ---------- shifts, arithmetic, comparison ----------

  lemma RunShift(code: Code, ctx: Ctx, m: M, dl: Loc, op: BinOp, al: Loc, bl: Loc) returns (m': M)
    requires CodeAt(code, m.rip, ShiftAsm(dl, op, al, bl), ctx)
    requires HomeOk(m, dl) && HomeOk(m, al) && HomeOk(m, bl)
    ensures Sets(code, m, m', SizeAll(ShiftAsm(dl, op, al, bl)), dl,
                 ShiftOf(ShiftOpOf(op), Home(m, al), Home(m, bl) % 64))
  {
    hide CodeAt, SizeAll, Star;
    var a := ShiftCl(ShiftOpOf(op));
    Split3(code, m.rip, Get(RAX, al) + Get(RCX, bl), [a], Put(RAX, dl), ctx);
    Split2(code, m.rip, Get(RAX, al), Get(RCX, bl), ctx);
    One(a);
    NoRun(code, m);
    var m1 := ThenGet(code, ctx, m, m, 0, RAX, al);
    var m2 := ThenGet(code, ctx, m, m1, SizeAll(Get(RAX, al)), RCX, bl);
    var s := SizeAll(Get(RAX, al)) + SizeAll(Get(RCX, bl));
    var w := ShiftOf(ShiftOpOf(op), Home(m, al), Home(m, bl) % 64);
    var m3 := Past(m2, Size(a)).(regs := m2.regs[RAX := w], flags := None);
    ThenStep(code, ctx, m, m2, s, a, m3);
    m' := ThenPut(code, ctx, m, m3, s + Size(a), RAX, dl);
  }

  /** `rd op= b` with b in its home. */
  lemma OperandExec(m: M, op: BinOp, rd: RegId, bl: Loc)
    requires HomeOk(m, bl)
    ensures Operand(op, rd, bl) == [Operand(op, rd, bl)[0]]
    ensures var a := Operand(op, rd, bl)[0];
            Exec(a, Past(m, Size(a)))
            == Go(Past(m, Size(a)).(regs := m.regs[rd := AluOf(AluOpOf(op), m.regs[rd], Home(m, bl))], flags := None))
  {
    var a := Operand(op, rd, bl)[0];
    if bl.Slot? { SlotEa(Past(m, Size(a)), bl.k); }
  }

  lemma RunAluSlot(code: Code, ctx: Ctx, m: M, dl: Loc, op: BinOp, al: Loc, bl: Loc) returns (m': M)
    requires dl.Slot? && CodeAt(code, m.rip, AluAsm(dl, op, al, bl), ctx)
    requires HomeOk(m, dl) && HomeOk(m, al) && HomeOk(m, bl)
    ensures Sets(code, m, m', SizeAll(AluAsm(dl, op, al, bl)), dl, AluOf(AluOpOf(op), Home(m, al), Home(m, bl)))
  {
    hide CodeAt, SizeAll, Star;
    var a := Operand(op, RAX, bl)[0];
    Split3(code, m.rip, Get(RAX, al), Operand(op, RAX, bl), Put(RAX, dl), ctx);
    NoRun(code, m);
    var m1 := ThenGet(code, ctx, m, m, 0, RAX, al);
    SameHome(m1, m, bl);
    OperandExec(m1, op, RAX, bl);
    One(a);
    var m2 := Past(m1, Size(a)).(regs := m1.regs[RAX := AluOf(AluOpOf(op), Home(m, al), Home(m, bl))], flags := None);
    ThenStep(code, ctx, m, m1, SizeAll(Get(RAX, al)), a, m2);
    m' := ThenPut(code, ctx, m, m2, SizeAll(Get(RAX, al)) + Size(a), RAX, dl);
  }

  /** Destination register distinct from b's home: load a into it, operate. */
  lemma RunAluReg(code: Code, ctx: Ctx, m: M, dl: Loc, op: BinOp, al: Loc, bl: Loc) returns (m': M)
    requires dl.Reg? && bl != dl && CodeAt(code, m.rip, AluAsm(dl, op, al, bl), ctx)
    requires HomeOk(m, al) && HomeOk(m, bl)
    ensures Sets(code, m, m', SizeAll(AluAsm(dl, op, al, bl)), dl, AluOf(AluOpOf(op), Home(m, al), Home(m, bl)))
  {
    hide CodeAt, SizeAll, Star;
    var r := PhysId(dl.phys);
    var a := Operand(op, r, bl)[0];
    Split2(code, m.rip, Get(r, al), Operand(op, r, bl), ctx);
    var m1 := RunGet(code, ctx, m, r, al);
    KeptHome(m, m1, dl, bl, Home(m, al));
    OperandExec(m1, op, r, bl);
    One(a);
    m' := Past(m1, Size(a)).(regs := m1.regs[r := AluOf(AluOpOf(op), Home(m, al), Home(m, bl))], flags := None);
    OneStep(code, ctx, m1, a, m');
    StarTrans(code, m, m1, m');
  }

  lemma KeptHome(m: M, m1: M, dl: Loc, bl: Loc, w: Word)
    requires dl.Reg? && bl != dl && HomeOk(m, bl)
    requires m1.regs == m.regs[PhysId(dl.phys) := w] && m1.stack == m.stack
    ensures HomeOk(m1, bl) && Home(m1, bl) == Home(m, bl)
  {
    if bl.Reg? {
      DistinctIds(dl.phys, bl.phys);
    }
  }

  lemma DistinctIds(p: Phys, q: Phys)
    requires p != q
    ensures PhysId(p) != PhysId(q)
  {
    match p case Rbx => case R12 => case R13 => case R14 => case R15 =>
  }

  /** b in the destination register: it is stashed in r11 before a overwrites it. */
  lemma RunAluHazard(code: Code, ctx: Ctx, m: M, dl: Loc, op: BinOp, al: Loc) returns (m': M)
    requires dl.Reg? && CodeAt(code, m.rip, AluAsm(dl, op, al, dl), ctx) && HomeOk(m, al)
    ensures Sets(code, m, m', SizeAll(AluAsm(dl, op, al, dl)), dl, AluOf(AluOpOf(op), Home(m, al), Home(m, dl)))
  {
    hide CodeAt, SizeAll, Star;
    var r := PhysId(dl.phys);
    var s, a := MovRR(R11, r), Alu(AluOpOf(op), r, R11);
    Split3(code, m.rip, [s], Get(r, al), [a], ctx);
    One(s);
    One(a);
    NoRun(code, m);
    var m1 := Past(m, Size(s)).(regs := m.regs[R11 := m.regs[r]]);
    ThenStep(code, ctx, m, m, 0, s, m1);
    SameHome(m1, m, al);
    var m2 := RunGet(code, ctx, m1, r, al);
    StarTrans(code, m, m1, m2);
    m' := Past(m2, Size(a)).(regs := m2.regs[r := AluOf(AluOpOf(op), Home(m, al), Home(m, dl))], flags := None);
    OneStep(code, ctx, m2, a, m');
    StarTrans(code, m, m2, m');
  }

  lemma RunCompare(code: Code, ctx: Ctx, m: M, al: Loc, bl: Loc) returns (m2: M)
    requires CodeAt(code, m.rip, Get(RAX, al) + CmpOperand(bl), ctx) && HomeOk(m, al) && HomeOk(m, bl)
    ensures ScratchRun(code, m, m2, SizeAll(Get(RAX, al) + CmpOperand(bl)))
    ensures m2.regs[RAX] == Home(m, al) && m2.flags == Some(SubFlags(Home(m, al), Home(m, bl), B63))
  {
    hide CodeAt, SizeAll, Star;
    var c := CmpOperand(bl)[0];
    assert CmpOperand(bl) == [c];
    Split2(code, m.rip, Get(RAX, al), [c], ctx);
    One(c);
    NoRun(code, m);
    var m1 := ThenGet(code, ctx, m, m, 0, RAX, al);
    SameHome(m1, m, bl);
    if bl.Slot? { SlotEa(Past(m1, Size(c)), bl.k); }
    m2 := Past(m1, Size(c)).(flags := Some(SubFlags(Home(m, al), Home(m, bl), B63)));
    ThenStep(code, ctx, m, m1, SizeAll(Get(RAX, al)), c, m2);
  }

  function BitOf(b: bool): Word { if b then 1 else 0 }

  /** `setcc al; movzx rax, al` and store. */
  lemma RunSetBit(code: Code, ctx: Ctx, m: M, m2: M, size: nat, f: Flags, cc: CC, dl: Loc) returns (m': M)
    requires ScratchRun(code, m, m2, size) && m2.flags == Some(f) && HomeOk(m, dl)
    requires CodeAt(code, m2.rip, [SetAl(cc)] + [MovzxAl] + Put(RAX, dl), ctx)
    ensures Sets(code, m, m', size + SizeAll([SetAl(cc)] + [MovzxAl] + Put(RAX, dl)), dl, BitOf(Machine.Holds(cc, f)))
  {
    hide CodeAt, SizeAll, Star;
    var s, bit, x := SetAl(cc), BitOf(Machine.Holds(cc, f)), m2.regs[RAX];
    Split3(code, m2.rip, [s], [MovzxAl], Put(RAX, dl), ctx);
    One(s);
    One(MovzxAl);
    var m3 := Past(m2, Size(s)).(regs := m2.regs[RAX := x - x % 256 + bit]);
    ThenStep(code, ctx, m, m2, size, s, m3);
    LowByte(x, bit);
    var m4 := Past(m3, Size(MovzxAl)).(regs := m3.regs[RAX := bit]);
    ThenStep(code, ctx, m, m3, size + Size(s), MovzxAl, m4);
    m' := ThenPut(code, ctx, m, m4, size + Size(s) + Size(MovzxAl), RAX, dl);
  }

  lemma RunCmp(code: Code, ctx: Ctx, m: M, dl: Loc, op: CmpOp, al: Loc, bl: Loc) returns (m': M)
    requires CodeAt(code, m.rip, CmpAsm(dl, op, al, bl), ctx)
    requires HomeOk(m, dl) && HomeOk(m, al) && HomeOk(m, bl)
    ensures Sets(code, m, m', SizeAll(CmpAsm(dl, op, al, bl)), dl,
                 IrSemantics.EvalCmp(op, Home(m, al), Home(m, bl)))
  {
    hide CodeAt, SizeAll, Star;
    var head, tail := Get(RAX, al) + CmpOperand(bl), [SetAl(CcOf(op))] + [MovzxAl] + Put(RAX, dl);
    assert CmpAsm(dl, op, al, bl) == head + tail;
    Split2(code, m.rip, head, tail, ctx);
    var m2 := RunCompare(code, ctx, m, al, bl);
    CmpIsBit(op, Home(m, al), Home(m, bl));
    m' := RunSetBit(code, ctx, m, m2, SizeAll(head), SubFlags(Home(m, al), Home(m, bl), B63), CcOf(op), dl);
  }

  lemma LowByte(x: Word, bit: int)
    requires 0 <= bit < 256
    ensures (x - x % 256 + bit) % 256 == bit
  {
  }

  // ---------- division ----------

  /** Instruction `a` sits at `at`. */
  predicate Sits(code: Code, at: int, a: Asm) { at in code && code[at] == a }

  lemma Tick(code: Code, m: M, a: Asm, m': M)
    requires Sits(code, m.rip, a) && Exec(a, Past(m, Size(a))) == Go(m')
    ensures Plus(code, m, m') && Star(code, m, m')
  {
    assert Steps(code, m', 0) == Go(m');
    assert Steps(code, m, 1) == Go(m');
  }

  /** The six instructions of a guarded division, at their offsets. */
  predicate DivAt(code: Code, at: int, op: BinOp) {
    && Sits(code, at, Test(R11)) && Sits(code, at + 3, Jcc(CE, 7, false))
    && (if op.UDiv? || op.URem?
        then Sits(code, at + 5, Xor32(RDX)) && Sits(code, at + 7, Asm.Div(R11))
        else Sits(code, at + 5, Cqo) && Sits(code, at + 7, IDiv(R11)))
    && Sits(code, at + 10, Jmp(2, false))
    && Sits(code, at + 12, Xor32(if IsRem(op) then RDX else RAX))
  }

  lemma PairSize(a: Asm, b: Asm)
    ensures SizeAll([a, b]) == Size(a) + Size(b)
  {
    assert [a, b] == [a] + [b];
    SizeAppend([a], [b]);
    One(a);
    One(b);
  }

  lemma PairSits(code: Code, at: int, a: Asm, b: Asm, ctx: Ctx)
    requires CodeAt(code, at, [a, b], ctx)
    ensures Sits(code, at, Resolve(a, at, ctx)) && Sits(code, at + Size(a), Resolve(b, at + Size(a), ctx))
  {
    assert [a, b][1..] == [b];
  }

  lemma DivSits(code: Code, at: int, d0: Asm, d1: Asm, z: Asm, ctx: Ctx)
    requires CodeAt(code, at, [Test(R11), Jcc(CE, 7, false)] + [d0, d1] + [Jmp(2, false), z], ctx)
    requires Size(d0) == 2 && Size(d1) == 3
    ensures Sits(code, at, Test(R11)) && Sits(code, at + 3, Jcc(CE, 7, false))
    ensures Sits(code, at + 5, Resolve(d0, at + 5, ctx)) && Sits(code, at + 7, Resolve(d1, at + 7, ctx))
    ensures Sits(code, at + 10, Jmp(2, false)) && Sits(code, at + 12, Resolve(z, at + 12, ctx))
    ensures SizeAll([Test(R11), Jcc(CE, 7, false)] + [d0, d1] + [Jmp(2, false), z]) == 12 + Size(z)
  {
    hide CodeAt, SizeAll;
    Split3(code, at, [Test(R11), Jcc(CE, 7, false)], [d0, d1], [Jmp(2, false), z], ctx);
    PairSize(Test(R11), Jcc(CE, 7, false));
    PairSize(d0, d1);
    PairSize(Jmp(2, false), z);
    PairSits(code, at, Test(R11), Jcc(CE, 7, false), ctx);
    PairSits(code, at + 5, d0, d1, ctx);
    PairSits(code, at + 10, Jmp(2, false), z, ctx);
  }

  lemma DivLayout(code: Code, at: int, op: BinOp, ctx: Ctx)
    requires CodeAt(code, at, DivCore(op), ctx)
    ensures DivAt(code, at, op) && SizeAll(DivCore(op)) == 14
  {
    hide CodeAt, SizeAll;
    var z := Xor32(if IsRem(op) then RDX else RAX);
    if op.UDiv? || op.URem? {
      DivSits(code, at, Xor32(RDX), Asm.Div(R11), z, ctx);
    } else {
      DivSits(code, at, Cqo, IDiv(R11), z, ctx);
    }
  }

  /** Sign-extending rax into rdx makes the 128-bit dividend equal the signed value. */
  lemma CqoDividend(a: Word)
    ensures Signed(if a >= B63 then B64 - 1 else 0) * B64 + a == Signed(a)
  {
  }

  lemma QuotientBound(n: int, d: int)
    requires -B63 <= n < B63 && -B63 <= d < B63 && d != 0 && !(n == -B63 && d == -1)
    ensures -B63 <= TruncDiv(n, d) < B63
  {
    var q := Abs(n) / Abs(d);
    DivSmaller(Abs(n), Abs(d));
    if Abs(n) == B63 && Abs(d) == 1 {
      assert n == -B63 && d == 1;
    } else if Abs(n) == B63 {
      DivHalf(Abs(n), Abs(d));
    }
  }

  lemma DivSmaller(n: nat, d: nat)
    requires d > 0
    ensures n / d <= n
  {
    if n / d > n {
      MulGrows(d, n / d);
    }
  }

  lemma MulGrows(d: nat, q: nat)
    requires d > 0
    ensures d * q >= q
  {
  }

  lemma DivHalf(n: nat, d: nat)
    requires d >= 2
    ensures 2 * (n / d) <= n
  {
    MulAtLeast(d, n / d);
  }

  lemma MulAtLeast(d: nat, q: nat)
    requires d >= 2
    ensures d * q >= 2 * q
  {
  }

  lemma IDivExec(m: M, b: Word)
    requires m.regs[RDX] == (if m.regs[RAX] >= B63 then B64 - 1 else 0)
    requires b != 0 && !(m.regs[RAX] == B63 && b == B64 - 1)
    ensures ExecIDiv(m, b) == Go(m.(
              regs := m.regs[RAX := Wrap(TruncDiv(Signed(m.regs[RAX]), Signed(b)))]
                            [RDX := Wrap(TruncRem(Signed(m.regs[RAX]), Signed(b)))], flags := None))
  {
    hide TruncDiv, TruncRem;
    var a := m.regs[RAX];
    CqoDividend(a);
    QuotientBound(Signed(a), Signed(b));
  }

  lemma DivExec(m: M, b: Word)
    requires m.regs[RDX] == 0 && b != 0
    ensures ExecDiv(m, b) == Go(m.(
              regs := m.regs[RAX := Wrap(Quot(m.regs[RAX], b))][RDX := Wrap(Remainder(m.regs[RAX], b))], flags := None))
  {
    hide Remainder;
    DivSmaller(m.regs[RAX], b);
  }

  function DivResult(op: BinOp): RegId { if IsRem(op) then RDX else RAX }

  /** `test r, r; jz rel`. */
  lemma TestJz(code: Code, m: M, r: RegId, rel: int) returns (m2: M)
    requires Sits(code, m.rip, Test(r)) && Sits(code, m.rip + 3, Jcc(CE, rel, false))
    ensures Star(code, m, m2) && m2.rip == m.rip + 5 + (if m.regs[r] == 0 then rel else 0)
    ensures m2.regs == m.regs && m2.stack == m.stack && m2.heap == m.heap
  {
    hide Star, Plus, Steps;
    var m1 := Past(m, 3).(flags := Some(Flags(m.regs[r] == 0, m.regs[r] >= B63, false)));
    Tick(code, m, Test(r), m1);
    m2 := m1.(rip := m.rip + 5 + if m.regs[r] == 0 then rel else 0);
    Tick(code, m1, Jcc(CE, rel, false), m2);
    StarTrans(code, m, m1, m2);
  }

  /** The zero-divisor path: skip the division, clear the result. */
  lemma DivByZero(code: Code, m: M, op: BinOp) returns (m': M)
    requires DivAt(code, m.rip, op) && m.regs[R11] == 0
    ensures ScratchRun(code, m, m', 14) && m'.regs[DivResult(op)] == 0
  {
    hide Star, Plus, Steps;
    var m2 := TestJz(code, m, R11, 7);
    m' := m2.(rip := m.rip + 14, regs := m2.regs[DivResult(op) := 0], flags := None);
    Tick(code, m2, Xor32(DivResult(op)), m');
    StarTrans(code, m, m2, m');
  }

  lemma IDivTicks(code: Code, m: M) returns (m': M)
    requires Sits(code, m.rip, Cqo) && Sits(code, m.rip + 2, IDiv(R11)) && Sits(code, m.rip + 5, Jmp(2, false))
    requires m.regs[R11] != 0 && !(m.regs[RAX] == B63 && m.regs[R11] == B64 - 1)
    ensures Star(code, m, m') && m'.rip == m.rip + 9 && m'.stack == m.stack && m'.heap == m.heap
    ensures m'.regs == m.regs[RDX := m'.regs[RDX]][RAX := m'.regs[RAX]]
    ensures m'.regs[RAX] == Wrap(TruncDiv(Signed(m.regs[RAX]), Signed(m.regs[R11])))
    ensures m'.regs[RDX] == Wrap(TruncRem(Signed(m.regs[RAX]), Signed(m.regs[R11])))
  {
    hide Star, Plus, Steps, TruncDiv, TruncRem;
    var m3 := Past(m, 2).(regs := m.regs[RDX := if m.regs[RAX] >= B63 then B64 - 1 else 0]);
    Tick(code, m, Cqo, m3);
    IDivExec(Past(m3, 3), m.regs[R11]);
    var m4 := Exec(IDiv(R11), Past(m3, 3)).m;
    Tick(code, m3, IDiv(R11), m4);
    m' := m4.(rip := m.rip + 9);
    Tick(code, m4, Jmp(2, false), m');
    StarTrans(code, m, m3, m4);
    StarTrans(code, m, m4, m');
    assert m'.regs == m.regs[RDX := m'.regs[RDX]][RAX := m'.regs[RAX]];
  }

  lemma DivSigned(code: Code, m: M, op: BinOp) returns (m': M)
    requires DivAt(code, m.rip, op) && m.regs[R11] != 0 && (op.Div? || op.Rem?)
    requires !(m.regs[RAX] == B63 && m.regs[R11] == B64 - 1)
    ensures ScratchRun(code, m, m', 14)
    ensures Some(m'.regs[DivResult(op)]) == IrSemantics.Divide(op, m.regs[RAX], m.regs[R11])
  {
    hide Star, TruncDiv, TruncRem;
    var m2 := TestJz(code, m, R11, 7);
    m' := IDivTicks(code, m2);
    StarTrans(code, m, m2, m');
  }

  lemma DivTicks(code: Code, m: M) returns (m': M)
    requires Sits(code, m.rip, Xor32(RDX)) && Sits(code, m.rip + 2, Asm.Div(R11)) && Sits(code, m.rip + 5, Jmp(2, false))
    requires m.regs[R11] != 0
    ensures Star(code, m, m') && m'.rip == m.rip + 9 && m'.stack == m.stack && m'.heap == m.heap
    ensures m'.regs == m.regs[RDX := Wrap(Remainder(m.regs[RAX], m.regs[R11]))][RAX := Wrap(Quot(m.regs[RAX], m.regs[R11]))]
  {
    hide Star, Plus, Steps, Quot, Remainder;
    var b := m.regs[R11];
    var m3 := Past(m, 2).(regs := m.regs[RDX := 0], flags := None);
    Tick(code, m, Xor32(RDX), m3);
    DivExec(Past(m3, 3), b);
    var m4 := Exec(Asm.Div(R11), Past(m3, 3)).m;
    Tick(code, m3, Asm.Div(R11), m4);
    m' := m4.(rip := m.rip + 9);
    Tick(code, m4, Jmp(2, false), m');
    StarTrans(code, m, m3, m4);
    StarTrans(code, m, m4, m');
    assert m'.regs == m.regs[RDX := Wrap(Remainder(m.regs[RAX], b))][RAX := Wrap(Quot(m.regs[RAX], b))];
  }

  lemma DivUnsigned(code: Code, m: M, op: BinOp) returns (m': M)
    requires DivAt(code, m.rip, op) && m.regs[R11] != 0 && (op.UDiv? || op.URem?)
    ensures ScratchRun(code, m, m', 14)
    ensures Some(m'.regs[DivResult(op)]) == IrSemantics.Divide(op, m.regs[RAX], m.regs[R11])
  {
    hide Star;
    var m2 := TestJz(code, m, R11, 7);
    m' := DivTicks(code, m2);
    StarTrans(code, m, m2, m');
  }

  lemma RunDivCore(code: Code, m: M, op: BinOp) returns (m': M)
    requires IsDivision(op) && DivAt(code, m.rip, op)
    requires IrSemantics.Divide(op, m.regs[RAX], m.regs[R11]).Some?
    ensures ScratchRun(code, m, m', 14)
    ensures Some(m'.regs[DivResult(op)]) == IrSemantics.Divide(op, m.regs[RAX], m.regs[R11])
  {
    hide Star, ScratchRun, TruncDiv, TruncRem;
    if m.regs[R11] == 0 {
      m' := DivByZero(code, m, op);
    } else if op.UDiv? || op.URem? {
      m' := DivUnsigned(code, m, op);
    } else {
      m' := DivSigned(code, m, op);
    }
  }

  lemma RunDiv(code: Code, ctx: Ctx, m: M, dl: Loc, op: BinOp, al: Loc, bl: Loc) returns (m': M)
    requires IsDivision(op) && CodeAt(code, m.rip, DivAsm(dl, op, al, bl), ctx)
    requires HomeOk(m, dl) && HomeOk(m, al) && HomeOk(m, bl)
    requires IrSemantics.Divide(op, Home(m, al), Home(m, bl)).Some?
    ensures Sets(code, m, m', SizeAll(DivAsm(dl, op, al, bl)), dl,
                 IrSemantics.Divide(op, Home(m, al), Home(m, bl)).value)
  {
    hide CodeAt, SizeAll, Star, DivCore, IrSemantics.Divide, DivAt;
    Split3(code, m.rip, Get(RAX, al) + Get(R11, bl), DivCore(op), Put(DivResult(op), dl), ctx);
    Split2(code, m.rip, Get(RAX, al), Get(R11, bl), ctx);
    NoRun(code, m);
    var m1 := ThenGet(code, ctx, m, m, 0, RAX, al);
    var s := SizeAll(Get(RAX, al));
    var m2 := ThenGet(code, ctx, m, m1, s, R11, bl);
    s := s + SizeAll(Get(R11, bl));
    DivLayout(code, m2.rip, op, ctx);
    var m3 := RunDivCore(code, m2, op);
    StarTrans(code, m, m2, m3);
    m' := ThenPut(code, ctx, m, m3, s + 14, DivResult(op), dl);
  }

  /** Any binary operation. */
  lemma RunBin(code: Code, ctx: Ctx, m: M, dl: Loc, op: BinOp, al: Loc, bl: Loc) returns (m': M)
    requires CodeAt(code, m.rip, BinAsm(dl, op, al, bl), ctx)
    requires HomeOk(m, dl) && HomeOk(m, al) && HomeOk(m, bl)
    requires IrSemantics.EvalBin(op, Home(m, al), Home(m, bl)).Some?
    ensures Sets(code, m, m', SizeAll(BinAsm(dl, op, al, bl)), dl,
                 IrSemantics.EvalBin(op, Home(m, al), Home(m, bl)).value)
  {
    hide CodeAt, SizeAll, Star, Sets, DivAsm, ShiftAsm, AluAsm, IrSemantics.Divide;
    if IsDivision(op) {
      m' := RunDiv(code, ctx, m, dl, op, al, bl);
    } else if IsShift(op) {
      ShiftIsShift(op, Home(m, al), Home(m, bl));
      m' := RunShift(code, ctx, m, dl, op, al, bl);
    } else {
      AluIsArith(op, Home(m, al), Home(m, bl));
      if dl.Slot? {
        m' := RunAluSlot(code, ctx, m, dl, op, al, bl);
      } else if bl == dl {
        m' := RunAluHazard(code, ctx, m, dl, op, al);
      } else {
        m' := RunAluReg(code, ctx, m, dl, op, al, bl);
      }
    }
  }

  // ---------- loads and stores ----------

  /** No heap byte is also the address of a stack cell. */
  ghost predicate Separate(m: M) { m.stack.Keys !! m.heap.Keys }

  lemma HeapLoad(m: M, a: Word)
    requires Separate(m) && Mapped(m.heap, a, 8)
    ensures Load64(m, a) == Some(Read64(m.heap, a))
  {
    assert a in m.heap.Keys;
  }

  lemma HeapStore(m: M, a: Word, w: Word)
    requires Separate(m) && Mapped(m.heap, a, 8)
    ensures Store64(m, a, w) == Go(m.(heap := Write(m.heap, a, 8, w)))
  {
    assert a in m.heap.Keys;
  }

  lemma RunLoad(code: Code, ctx: Ctx, m: M, dl: Loc, basel: Loc, off: int) returns (m': M)
    requires CodeAt(code, m.rip, LoadAsm(dl, basel, off), ctx) && HomeOk(m, dl) && HomeOk(m, basel) && Separate(m)
    requires Mapped(m.heap, Offset(Home(m, basel), off), 8)
    ensures Sets(code, m, m', SizeAll(LoadAsm(dl, basel, off)), dl, Read64(m.heap, Offset(Home(m, basel), off)))
  {
    hide CodeAt, SizeAll, Star, Plus, Steps, Read64;
    var w := Read64(m.heap, Offset(Home(m, basel), off));
    var r := if dl.Reg? then PhysId(dl.phys) else RAX;
    var a := Load(r, R10, off);
    Split2(code, m.rip, Get(R10, basel), if dl.Reg? then [a] else [a] + Put(RAX, dl), ctx);
    One(a);
    NoRun(code, m);
    var m1 := ThenGet(code, ctx, m, m, 0, R10, basel);
    HeapLoad(m1, Offset(Home(m, basel), off));
    var m2 := Past(m1, Size(a)).(regs := m1.regs[r := w]);
    if dl.Reg? {
      OneStep(code, ctx, m1, a, m2);
      StarTrans(code, m, m1, m2);
      m' := m2;
    } else {
      Split2(code, m1.rip, [a], Put(RAX, dl), ctx);
      ThenStep(code, ctx, m, m1, SizeAll(Get(R10, basel)), a, m2);
      m' := ThenPut(code, ctx, m, m2, SizeAll(Get(R10, basel)) + Size(a), RAX, dl);
    }
  }

  lemma RunLoadByte(code: Code, ctx: Ctx, m: M, dl: Loc, basel: Loc, off: int) returns (m': M)
    requires CodeAt(code, m.rip, LoadByteAsm(dl, basel, off), ctx) && HomeOk(m, dl) && HomeOk(m, basel)
    requires Offset(Home(m, basel), off) in m.heap
    ensures Sets(code, m, m', SizeAll(LoadByteAsm(dl, basel, off)), dl, m.heap[Offset(Home(m, basel), off)])
  {
    hide CodeAt, SizeAll, Star, Plus, Steps;
    var w := m.heap[Offset(Home(m, basel), off)];
    var r := if dl.Reg? then PhysId(dl.phys) else RAX;
    var a := Asm.LoadByte(r, R10, off, false);
    Split2(code, m.rip, Get(R10, basel), if dl.Reg? then [a] else [a] + Put(RAX, dl), ctx);
    One(a);
    NoRun(code, m);
    var m1 := ThenGet(code, ctx, m, m, 0, R10, basel);
    var m2 := Past(m1, Size(a)).(regs := m1.regs[r := w]);
    if dl.Reg? {
      OneStep(code, ctx, m1, a, m2);
      StarTrans(code, m, m1, m2);
      m' := m2;
    } else {
      Split2(code, m1.rip, [a], Put(RAX, dl), ctx);
      ThenStep(code, ctx, m, m1, SizeAll(Get(R10, basel)), a, m2);
      m' := ThenPut(code, ctx, m, m2, SizeAll(Get(R10, basel)) + Size(a), RAX, dl);
    }
  }

  /** A run that turns the heap into `h` and otherwise touches only scratch. */
  ghost predicate Writes(code: Code, m: M, m': M, size: nat, h: Heap) {
    Star(code, m, m') && m'.rip == m.rip + size && Agree(m', m.(heap := h))
  }

  lemma RunStore(code: Code, ctx: Ctx, m: M, basel: Loc, off: int, srcl: Loc) returns (m': M)
    requires CodeAt(code, m.rip, Get(R10, basel) + Get(R11, srcl) + [Store(R10, off, R11)], ctx)
    requires HomeOk(m, basel) && HomeOk(m, srcl) && Separate(m)
    requires Mapped(m.heap, Offset(Home(m, basel), off), 8)
    ensures Writes(code, m, m', SizeAll(Get(R10, basel) + Get(R11, srcl) + [Store(R10, off, R11)]),
                   Write(m.heap, Offset(Home(m, basel), off), 8, Home(m, srcl)))
  {
    hide CodeAt, SizeAll, Star, Plus, Steps, Write;
    var a := Store(R10, off, R11);
    Split3(code, m.rip, Get(R10, basel), Get(R11, srcl), [a], ctx);
    One(a);
    NoRun(code, m);
    var m1 := ThenGet(code, ctx, m, m, 0, R10, basel);
    var m2 := ThenGet(code, ctx, m, m1, SizeAll(Get(R10, basel)), R11, srcl);
    HeapStore(Past(m2, Size(a)), Offset(Home(m, basel), off), Home(m, srcl));
    m' := Past(m2, Size(a)).(heap := Write(m.heap, Offset(Home(m, basel), off), 8, Home(m, srcl)));
    OneStep(code, ctx, m2, a, m');
    StarTrans(code, m, m2, m');
  }

  /** A function's address, as the linker fixed it. */
  lemma RunFnAddr(code: Code, ctx: Ctx, m: M, dl: Loc, fidx: nat) returns (m': M)
    requires CodeAt(code, m.rip, [LeaFn(RCX, fidx)] + Put(RCX, dl), ctx) && HomeOk(m, dl) && fidx < |ctx.fn|
    ensures Sets(code, m, m', SizeAll([LeaFn(RCX, fidx)] + Put(RCX, dl)), dl, ctx.fn[fidx])
  {
    hide CodeAt, SizeAll, Star, Plus, Steps;
    var a := LeaFn(RCX, fidx);
    Split2(code, m.rip, [a], Put(RCX, dl), ctx);
    One(a);
    NoRun(code, m);
    var m1 := Past(m, Size(a)).(regs := m.regs[RCX := ctx.fn[fidx]]);
    ThenStep(code, ctx, m, m, 0, a, m1);
    m' := ThenPut(code, ctx, m, m1, Size(a), RCX, dl);
  }

  // ---------- block copy ----------

  predicate CopyAt(code: Code, at: int) {
    && Sits(code, at, Test(R8)) && Sits(code, at + 3, Jcc(CE, 18, false))
    && Sits(code, at + 5, Asm.LoadByte(RAX, R11, 0, true)) && Sits(code, at + 9, StoreAl(R10))
    && AdvanceAt(code, at + 12, -23)
  }

  lemma CopyLayout(code: Code, at: int, ctx: Ctx)
    requires CodeAt(code, at, CopyLoop, ctx)
    ensures CopyAt(code, at) && SizeAll(CopyLoop) == 23
  {
    hide CodeAt, SizeAll;
    var p0, p1 := [Test(R8), Jcc(CE, 18, false)], [Asm.LoadByte(RAX, R11, 0, true), StoreAl(R10)];
    var p2, p3 := [Inc(R10), Inc(R11)], [Dec(R8), Jcc(CNE, -23, false)];
    PairSize(Test(R8), Jcc(CE, 18, false));
    PairSize(Asm.LoadByte(RAX, R11, 0, true), StoreAl(R10));
    PairSize(Inc(R10), Inc(R11));
    PairSize(Dec(R8), Jcc(CNE, -23, false));
    Split3(code, at, p0 + p1, p2, p3, ctx);
    Split2(code, at, p0, p1, ctx);
    PairSits(code, at, Test(R8), Jcc(CE, 18, false), ctx);
    PairSits(code, at + 5, Asm.LoadByte(RAX, R11, 0, true), StoreAl(R10), ctx);
    PairSits(code, at + 12, Inc(R10), Inc(R11), ctx);
    PairSits(code, at + 18, Dec(R8), Jcc(CNE, -23, false), ctx);
  }

  /** `inc r10; inc r11; dec r8; jnz rel`. */
  predicate AdvanceAt(code: Code, at: int, rel: int) {
    && Sits(code, at, Inc(R10)) && Sits(code, at + 3, Inc(R11))
    && Sits(code, at + 6, Dec(R8)) && Sits(code, at + 9, Jcc(CNE, rel, false))
  }

  lemma TwoIncs(code: Code, m: M) returns (m2: M)
    requires Sits(code, m.rip, Inc(R10)) && Sits(code, m.rip + 3, Inc(R11))
    ensures Star(code, m, m2) && m2.rip == m.rip + 6 && m2.stack == m.stack && m2.heap == m.heap
    ensures m2.regs == m.regs[R10 := Offset(m.regs[R10], 1)][R11 := Offset(m.regs[R11], 1)]
  {
    hide Star, Plus, Steps;
    var m1 := Past(m, 3).(regs := m.regs[R10 := Offset(m.regs[R10], 1)], flags := None);
    Tick(code, m, Inc(R10), m1);
    m2 := Past(m1, 3).(regs := m1.regs[R11 := Offset(m.regs[R11], 1)], flags := None);
    Tick(code, m1, Inc(R11), m2);
    StarTrans(code, m, m1, m2);
  }

  lemma DecJnz(code: Code, m: M, rel: int) returns (m': M)
    requires Sits(code, m.rip, Dec(R8)) && Sits(code, m.rip + 3, Jcc(CNE, rel, false)) && m.regs[R8] > 0
    ensures Star(code, m, m') && m'.stack == m.stack && m'.heap == m.heap
    ensures m'.rip == m.rip + 5 + (if m.regs[R8] == 1 then 0 else rel)
    ensures m'.regs == m.regs[R8 := m.regs[R8] - 1]
  {
    hide Star, Plus, Steps;
    var m3 := Past(m, 3).(regs := m.regs[R8 := m.regs[R8] - 1], flags := Some(SubFlags(m.regs[R8], 1, B63)));
    Tick(code, m, Dec(R8), m3);
    m' := m3.(rip := m.rip + 5 + if m.regs[R8] == 1 then 0 else rel);
    Tick(code, m3, Jcc(CNE, rel, false), m');
    StarTrans(code, m, m3, m');
  }

  lemma Advance(code: Code, m: M, rel: int) returns (m': M)
    requires AdvanceAt(code, m.rip, rel) && m.regs[R8] > 0
    ensures Star(code, m, m') && m'.stack == m.stack && m'.heap == m.heap
    ensures m'.rip == m.rip + 11 + (if m.regs[R8] == 1 then 0 else rel)
    ensures m'.regs == m.regs[R10 := Offset(m.regs[R10], 1)][R11 := Offset(m.regs[R11], 1)][R8 := m.regs[R8] - 1]
  {
    hide Star, Plus, Steps, Sits;
    var m2 := TwoIncs(code, m);
    m' := DecJnz(code, m2, rel);
    StarTrans(code, m, m2, m');
  }

  /** `movzx rax, byte [r11]; mov [r10], al`. */
  lemma CopyByte(code: Code, m: M) returns (m': M)
    requires Sits(code, m.rip, Asm.LoadByte(RAX, R11, 0, true)) && Sits(code, m.rip + 4, StoreAl(R10))
    requires m.regs[R11] in m.heap && m.regs[R10] in m.heap
    ensures Star(code, m, m') && m'.rip == m.rip + 7 && m'.stack == m.stack
    ensures m'.heap == m.heap[m.regs[R10] := m.heap[m.regs[R11]]] && m'.regs == m.regs[RAX := m'.regs[RAX]]
  {
    hide Star, Plus, Steps;
    var x := m.heap[m.regs[R11]];
    var m1 := Past(m, 4).(regs := m.regs[RAX := x]);
    assert Ea(Past(m, 4), R11, 0) == m.regs[R11];
    Tick(code, m, Asm.LoadByte(RAX, R11, 0, true), m1);
    m' := Past(m1, 3).(heap := m.heap[m.regs[R10] := x]);
    Tick(code, m1, StoreAl(R10), m');
    StarTrans(code, m, m1, m');
  }

  lemma {:induction false} RunCopy(code: Code, m: M, h: Heap) returns (m': M)
    requires CopyAt(code, m.rip)
    requires IrSemantics.CopyBytes(m.heap, m.regs[R10], m.regs[R11], m.regs[R8]) == Some(h)
    ensures Writes(code, m, m', 23, h)
    decreases m.regs[R8]
  {
    hide Star, Plus, Steps, Sits, AdvanceAt;
    var m1 := TestJz(code, m, R8, 18);
    if m.regs[R8] == 0 {
      m' := m1;
    } else {
      var m2 := CopyByte(code, m1);
      var m3 := Advance(code, m2, -23);
      StarTrans(code, m, m1, m2);
      StarTrans(code, m, m2, m3);
      if m.regs[R8] == 1 {
        m' := m3;
      } else {
        m' := RunCopy(code, m3, h);
        StarTrans(code, m, m3, m');
      }
    }
  }

  lemma RunMemCpy(code: Code, ctx: Ctx, m: M, tol: Loc, srcl: Loc, lenl: Loc, h: Heap) returns (m': M)
    requires CodeAt(code, m.rip, Get(R10, tol) + Get(R11, srcl) + Get(R8, lenl) + CopyLoop, ctx)
    requires HomeOk(m, tol) && HomeOk(m, srcl) && HomeOk(m, lenl)
    requires IrSemantics.CopyBytes(m.heap, Home(m, tol), Home(m, srcl), Home(m, lenl)) == Some(h)
    ensures Writes(code, m, m', SizeAll(Get(R10, tol) + Get(R11, srcl) + Get(R8, lenl) + CopyLoop), h)
  {
    hide CodeAt, SizeAll, Star, Plus, Steps, CopyLoop, CopyAt, IrSemantics.CopyBytes;
    var m3, s := ThreeGets(code, ctx, m, R10, tol, R11, srcl, R8, lenl, CopyLoop);
    CopyLayout(code, m3.rip, ctx);
    m' := RunCopy(code, m3, h);
    StarTrans(code, m, m3, m');
  }

  /** Three operands into scratch registers, with the code that follows. */
  lemma ThreeGets(code: Code, ctx: Ctx, m: M, r0: RegId, l0: Loc, r1: RegId, l1: Loc, r2: RegId, l2: Loc, rest: seq<Asm>)
      returns (m3: M, s: nat)
    requires CodeAt(code, m.rip, Get(r0, l0) + Get(r1, l1) + Get(r2, l2) + rest, ctx)
    requires HomeOk(m, l0) && HomeOk(m, l1) && HomeOk(m, l2)
    requires Scratch(r0) && Scratch(r1) && Scratch(r2) && r0 != r1 && r0 != r2 && r1 != r2
    ensures ScratchRun(code, m, m3, s) && CodeAt(code, m3.rip, rest, ctx)
    ensures SizeAll(Get(r0, l0) + Get(r1, l1) + Get(r2, l2) + rest) == s + SizeAll(rest)
    ensures m3.regs[r0] == Home(m, l0) && m3.regs[r1] == Home(m, l1) && m3.regs[r2] == Home(m, l2)
  {
    hide CodeAt, SizeAll, Star, Plus, Steps;
    Split2(code, m.rip, Get(r0, l0) + Get(r1, l1) + Get(r2, l2), rest, ctx);
    Split3(code, m.rip, Get(r0, l0), Get(r1, l1), Get(r2, l2), ctx);
    NoRun(code, m);
    var m1 := ThenGet(code, ctx, m, m, 0, r0, l0);
    var m2 := ThenGet(code, ctx, m, m1, SizeAll(Get(r0, l0)), r1, l1);
    s := SizeAll(Get(r0, l0)) + SizeAll(Get(r1, l1));
    m3 := ThenGet(code, ctx, m, m2, s, r2, l2);
    s := s + SizeAll(Get(r2, l2));
  }

  // ---------- block comparison ----------

  predicate CompareAt(code: Code, at: int) {
    && Sits(code, at, Test(R8)) && Sits(code, at + 3, Jcc(CE, 20, false))
    && Sits(code, at + 5, Asm.LoadByte(RAX, R11, 0, true)) && Sits(code, at + 9, CmpAlMem(R10))
    && Sits(code, at + 12, Jcc(CNE, 18, false)) && AdvanceAt(code, at + 14, -25)
    && Sits(code, at + 25, MovImmZ(RAX, 1)) && Sits(code, at + 30, Jmp(5, false))
    && Sits(code, at + 32, MovImmZ(RAX, 0))
  }

  lemma CompareLayout(code: Code, at: int, ctx: Ctx)
    requires CodeAt(code, at, CompareLoop, ctx)
    ensures CompareAt(code, at) && SizeAll(CompareLoop) == 37
  {
    hide CodeAt, SizeAll;
    var p0, p1 := [Test(R8), Jcc(CE, 20, false)], [Asm.LoadByte(RAX, R11, 0, true), CmpAlMem(R10)];
    var p2, p3 := [Jcc(CNE, 18, false), Inc(R10)], [Inc(R11), Dec(R8)];
    var p4, p5 := [Jcc(CNE, -25, false), MovImmZ(RAX, 1)], [Jmp(5, false), MovImmZ(RAX, 0)];
    PairSize(Test(R8), Jcc(CE, 20, false));
    PairSize(Asm.LoadByte(RAX, R11, 0, true), CmpAlMem(R10));
    PairSize(Jcc(CNE, 18, false), Inc(R10));
    PairSize(Inc(R11), Dec(R8));
    PairSize(Jcc(CNE, -25, false), MovImmZ(RAX, 1));
    PairSize(Jmp(5, false), MovImmZ(RAX, 0));
    Split3(code, at, p0 + p1 + p2 + p3, p4, p5, ctx);
    Split3(code, at, p0 + p1, p2, p3, ctx);
    Split2(code, at, p0, p1, ctx);
    PairSits(code, at, Test(R8), Jcc(CE, 20, false), ctx);
    PairSits(code, at + 5, Asm.LoadByte(RAX, R11, 0, true), CmpAlMem(R10), ctx);
    PairSits(code, at + 12, Jcc(CNE, 18, false), Inc(R10), ctx);
    PairSits(code, at + 17, Inc(R11), Dec(R8), ctx);
    PairSits(code, at + 23, Jcc(CNE, -25, false), MovImmZ(RAX, 1), ctx);
    PairSits(code, at + 30, Jmp(5, false), MovImmZ(RAX, 0), ctx);
  }

  /** `movzx rax, byte [r11]; cmp [r10], al; jne`. */
  lemma CompareByte(code: Code, m: M, rel: int) returns (m': M)
    requires Sits(code, m.rip, Asm.LoadByte(RAX, R11, 0, true)) && Sits(code, m.rip + 4, CmpAlMem(R10))
    requires Sits(code, m.rip + 7, Jcc(CNE, rel, false))
    requires m.regs[R11] in m.heap && m.regs[R10] in m.heap
    ensures Star(code, m, m') && m'.stack == m.stack && m'.heap == m.heap && m'.regs == m.regs[RAX := m'.regs[RAX]]
    ensures m'.rip == m.rip + 9 + if m.heap[m.regs[R10]] == m.heap[m.regs[R11]] then 0 else rel
  {
    hide Star, Plus, Steps;
    var x, y := m.heap[m.regs[R11]], m.heap[m.regs[R10]];
    var m1 := Past(m, 4).(regs := m.regs[RAX := x]);
    assert Ea(Past(m, 4), R11, 0) == m.regs[R11];
    Tick(code, m, Asm.LoadByte(RAX, R11, 0, true), m1);
    var m2 := Past(m1, 3).(flags := Some(SubFlags(y, x, 128)));
    Tick(code, m1, CmpAlMem(R10), m2);
    m' := m2.(rip := m.rip + 9 + if x == y then 0 else rel);
    Tick(code, m2, Jcc(CNE, rel, false), m');
    StarTrans(code, m, m1, m2);
    StarTrans(code, m, m2, m');
  }

  lemma CompareEqual(code: Code, m: M, at: int) returns (m': M)
    requires CompareAt(code, at) && m.rip == at + 25
    ensures Star(code, m, m') && m'.rip == at + 37 && Agree(m', m) && m'.regs[RAX] == 1
  {
    hide Star, Plus, Steps, AdvanceAt;
    var m1 := Past(m, 5).(regs := m.regs[RAX := 1]);
    Tick(code, m, MovImmZ(RAX, 1), m1);
    m' := m1.(rip := at + 37);
    Tick(code, m1, Jmp(5, false), m');
    StarTrans(code, m, m1, m');
  }

  lemma CompareDiffer(code: Code, m: M, at: int) returns (m': M)
    requires CompareAt(code, at) && m.rip == at + 32
    ensures Star(code, m, m') && m'.rip == at + 37 && Agree(m', m) && m'.regs[RAX] == 0
  {
    hide Star, Plus, Steps, AdvanceAt;
    m' := Past(m, 5).(regs := m.regs[RAX := 0]);
    Tick(code, m, MovImmZ(RAX, 0), m');
  }

  lemma {:induction false} RunCompareLoop(code: Code, m: M, w: Word) returns (m': M)
    requires CompareAt(code, m.rip)
    requires IrSemantics.SameBytes(m.heap, m.regs[R10], m.regs[R11], m.regs[R8]) == Some(w)
    ensures ScratchRun(code, m, m', 37) && m'.regs[RAX] == w
    decreases m.regs[R8]
  {
    hide Star, Plus, Steps, Sits, AdvanceAt;
    var m1 := TestJz(code, m, R8, 20);
    if m.regs[R8] == 0 {
      m' := CompareEqual(code, m1, m.rip);
      StarTrans(code, m, m1, m');
    } else {
      var m2 := CompareByte(code, m1, 18);
      StarTrans(code, m, m1, m2);
      m' := CompareRest(code, m, m2, w);
    }
  }

  lemma CompareRest(code: Code, m: M, m2: M, w: Word) returns (m': M)
    requires CompareAt(code, m.rip) && m.regs[R8] > 0 && m.regs[R10] in m.heap && m.regs[R11] in m.heap
    requires IrSemantics.SameBytes(m.heap, m.regs[R10], m.regs[R11], m.regs[R8]) == Some(w)
    requires Star(code, m, m2) && m2.stack == m.stack && m2.heap == m.heap && m2.regs == m.regs[RAX := m2.regs[RAX]]
    requires m2.rip == m.rip + if m.heap[m.regs[R10]] == m.heap[m.regs[R11]] then 14 else 32
    ensures ScratchRun(code, m, m', 37) && m'.regs[RAX] == w
    decreases m.regs[R8], 0
  {
    hide Star, Plus, Steps, Sits, AdvanceAt;
    if m.heap[m.regs[R10]] != m.heap[m.regs[R11]] {
      m' := CompareDiffer(code, m2, m.rip);
      StarTrans(code, m, m2, m');
    } else {
      var m3 := Advance(code, m2, -25);
      StarTrans(code, m, m2, m3);
      if m.regs[R8] == 1 {
        m' := CompareEqual(code, m3, m.rip);
      } else {
        m' := RunCompareLoop(code, m3, w);
      }
      StarTrans(code, m, m3, m');
    }
  }

  lemma RunMemCmp(code: Code, ctx: Ctx, m: M, dl: Loc, al: Loc, bl: Loc, lenl: Loc) returns (m': M)
    requires CodeAt(code, m.rip, Get(R10, al) + Get(R11, bl) + Get(R8, lenl) + CompareLoop + Put(RAX, dl), ctx)
    requires HomeOk(m, dl) && HomeOk(m, al) && HomeOk(m, bl) && HomeOk(m, lenl)
    requires IrSemantics.SameBytes(m.heap, Home(m, al), Home(m, bl), Home(m, lenl)).Some?
    ensures Sets(code, m, m', SizeAll(Get(R10, al) + Get(R11, bl) + Get(R8, lenl) + CompareLoop + Put(RAX, dl)), dl,
                 IrSemantics.SameBytes(m.heap, Home(m, al), Home(m, bl), Home(m, lenl)).value)
  {
    hide CodeAt, SizeAll, Star, Plus, Steps, CompareLoop, CompareAt, IrSemantics.SameBytes;
    var w := IrSemantics.SameBytes(m.heap, Home(m, al), Home(m, bl), Home(m, lenl)).value;
    Split2(code, m.rip, Get(R10, al) + Get(R11, bl) + Get(R8, lenl) + CompareLoop, Put(RAX, dl), ctx);
    var m3, s := ThreeGets(code, ctx, m, R10, al, R11, bl, R8, lenl, CompareLoop);
    CompareLayout(code, m3.rip, ctx);
    var m4 := RunCompareLoop(code, m3, w);
    StarTrans(code, m, m3, m4);
    m' := ThenPut(code, ctx, m, m4, s + 37, RAX, dl);
  }
}
