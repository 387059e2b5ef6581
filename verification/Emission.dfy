/** What the emitter produces for an allocated function, instruction by
    instruction, before encoding. Jump and call targets stay symbolic. */
module Emission {
  import opened Ir
  import opened Words
  import opened Locations
  import opened Machine

  /** Receiver and argument registers: rdi, rsi, rdx, rcx, r8, r9. */
  const ARG: seq<RegId> := [RDI, RSI, RDX, RCX, R8, R9]

  function PhysId(p: Phys): RegId {
    match p case Rbx => 3 case R12 => 12 case R13 => 13 case R14 => 14 case R15 => 15
  }

  type Locs = seq<Loc>

  /** Location of a vreg; every vreg of a well-formed function is in range. */
  function LocOf(loc: Locs, v: VReg): Loc { if v < |loc| then loc[v] else Slot(0) }

  /** Slot k is `[rbp - 8*(k+1)]`. */
  function SlotDisp(k: nat): int { -8 * (k + 1) }

  function SizeAll(code: seq<Asm>): nat {
    if code == [] then 0 else Size(code[0]) + SizeAll(code[1..])
  }

  // ---------- moves ----------

  function MovIfNeeded(dst: RegId, src: RegId): seq<Asm> { if dst == src then [] else [MovRR(dst, src)] }

  function Get(into: RegId, l: Loc): seq<Asm> {
    match l
    case Reg(r) => MovIfNeeded(into, PhysId(r))
    case Slot(k) => [Load(into, RBP, SlotDisp(k))]
  }

  function Put(from: RegId, l: Loc): seq<Asm> {
    match l
    case Reg(r) => MovIfNeeded(PhysId(r), from)
    case Slot(k) => [Store(RBP, SlotDisp(k), from)]
  }

  predicate Fits32(imm: int) { -0x8000_0000 <= imm <= 0x7FFF_FFFF }

  function ConstAsm(dl: Loc, imm: int): seq<Asm> {
    match dl
    case Reg(r) => if Fits32(imm) then [MovImm(PhysId(r), imm)] else [MovAbs(PhysId(r), Wrap(imm))]
    case Slot(k) =>
      if Fits32(imm) then [StoreImm(RBP, SlotDisp(k), imm)] else [MovAbs(RAX, Wrap(imm))] + Put(RAX, dl)
  }

  function MovAsm(dl: Loc, al: Loc): seq<Asm> {
    if dl.Reg? then Get(PhysId(dl.phys), al)
    else if al.Reg? then Put(PhysId(al.phys), dl)
    else Get(RAX, al) + Put(RAX, dl)
  }

  function NegAsm(dl: Loc, al: Loc): seq<Asm> {
    if dl.Reg? && dl == al then [Asm.Neg(PhysId(dl.phys))]
    else Get(RAX, al) + [Asm.Neg(RAX)] + Put(RAX, dl)
  }

  // ---------- binary operations ----------

  function AluOpOf(op: BinOp): AluOp {
    match op
    case Add => AAdd
    case Sub => ASub
    case Mul => AMul
    case And => AAnd
    case BitAnd => AAnd
    case Or => AOr
    case BitOr => AOr
    case _ => AXor
  }

  function ShiftOpOf(op: BinOp): ShiftOp {
    match op case Shl => SShl case Shr => SSar case _ => SShr
  }

  predicate IsRem(op: BinOp) { op.Rem? || op.URem? }

  /** `test r11; jz zero; divide; jmp done; zero: clear the result; done:` */
  function DivCore(op: BinOp): seq<Asm> {
    [Test(R11), Jcc(CE, 7, false)]
    + (if op.UDiv? || op.URem? then [Xor32(RDX), Asm.Div(R11)] else [Cqo, IDiv(R11)])
    + [Jmp(2, false), Xor32(if IsRem(op) then RDX else RAX)]
  }

  function DivAsm(dl: Loc, op: BinOp, al: Loc, bl: Loc): seq<Asm> {
    Get(RAX, al) + Get(R11, bl) + DivCore(op) + Put(if IsRem(op) then RDX else RAX, dl)
  }

  function ShiftAsm(dl: Loc, op: BinOp, al: Loc, bl: Loc): seq<Asm> {
    Get(RAX, al) + Get(RCX, bl) + [ShiftCl(ShiftOpOf(op))] + Put(RAX, dl)
  }

  /** `rd op= b`, from b's register or slot. */
  function Operand(op: BinOp, rd: RegId, bl: Loc): seq<Asm> {
    match bl
    case Reg(r) => [Alu(AluOpOf(op), rd, PhysId(r))]
    case Slot(k) => [AluMem(AluOpOf(op), rd, RBP, SlotDisp(k))]
  }

  /** When b lives in the destination register it is stashed in r11 first. */
  function AluAsm(dl: Loc, op: BinOp, al: Loc, bl: Loc): seq<Asm> {
    match dl
    case Reg(r) =>
      if bl == dl then [MovRR(R11, PhysId(r))] + Get(PhysId(r), al) + [Alu(AluOpOf(op), PhysId(r), R11)]
      else Get(PhysId(r), al) + Operand(op, PhysId(r), bl)
    case Slot(_) => Get(RAX, al) + Operand(op, RAX, bl) + Put(RAX, dl)
  }

  function BinAsm(dl: Loc, op: BinOp, al: Loc, bl: Loc): seq<Asm> {
    if IsDivision(op) then DivAsm(dl, op, al, bl)
    else if IsShift(op) then ShiftAsm(dl, op, al, bl)
    else AluAsm(dl, op, al, bl)
  }

  function CcOf(op: CmpOp): CC {
    match op case Eq => CE case Ne => CNE case Lt => CL case Gt => CG case Le => CLE case Ge => CGE
  }

  function CmpOperand(bl: Loc): seq<Asm> {
    match bl
    case Reg(r) => [CmpRR(RAX, PhysId(r))]
    case Slot(k) => [CmpMem(RAX, RBP, SlotDisp(k))]
  }

  function CmpAsm(dl: Loc, op: CmpOp, al: Loc, bl: Loc): seq<Asm> {
    Get(RAX, al) + CmpOperand(bl) + [SetAl(CcOf(op)), MovzxAl] + Put(RAX, dl)
  }

  // ---------- memory ----------

  function LoadAsm(dl: Loc, basel: Loc, off: int): seq<Asm> {
    Get(R10, basel) +
    match dl
    case Reg(r) => [Load(PhysId(r), R10, off)]
    case Slot(_) => [Load(RAX, R10, off)] + Put(RAX, dl)
  }

  function LoadByteAsm(dl: Loc, basel: Loc, off: int): seq<Asm> {
    Get(R10, basel) +
    match dl
    case Reg(r) => [Asm.LoadByte(PhysId(r), R10, off, false)]
    case Slot(_) => [Asm.LoadByte(RAX, R10, off, false)] + Put(RAX, dl)
  }

  const CopyLoop: seq<Asm> :=
    [Test(R8), Jcc(CE, 18, false)]
    + [Asm.LoadByte(RAX, R11, 0, true), StoreAl(R10)]
    + [Inc(R10), Inc(R11)]
    + [Dec(R8), Jcc(CNE, -23, false)]

  const CompareLoop: seq<Asm> :=
    [Test(R8), Jcc(CE, 20, false)]
    + [Asm.LoadByte(RAX, R11, 0, true), CmpAlMem(R10)]
    + [Jcc(CNE, 18, false), Inc(R10)]
    + [Inc(R11), Dec(R8)]
    + [Jcc(CNE, -25, false), MovImmZ(RAX, 1)]
    + [Jmp(5, false), MovImmZ(RAX, 0)]

  // ---------- calls ----------

  /** Stack arguments, last one pushed first. */
  function PushArgs(loc: Locs, vs: seq<VReg>): seq<Asm> {
    if vs == [] then []
    else PushArgs(loc, vs[1..]) + Get(RAX, LocOf(loc, vs[0])) + [Push(RAX, false)]
  }

  /** Register arguments from ARG[k] on, while registers last. */
  function RegArgs(loc: Locs, vs: seq<VReg>, k: nat): seq<Asm> {
    if vs == [] || k >= 6 then []
    else Get(ARG[k], LocOf(loc, vs[0])) + RegArgs(loc, vs[1..], k + 1)
  }

  function TailArgs(vs: seq<VReg>, k: nat): seq<VReg>
    requires k <= 6
  {
    if |vs| > 6 - k then vs[6 - k..] else []
  }

  function PlaceArgs(loc: Locs, vs: seq<VReg>): seq<Asm> {
    PushArgs(loc, TailArgs(vs, 0)) + RegArgs(loc, vs, 0)
  }

  /** Removes `n - 6` words after a call with `n` arguments. */
  function Cleanup(n: nat): seq<Asm> { if n > 6 then [AddRsp((n - 6) * 8)] else [] }

  function TakesReceiver(recv: seq<bool>, fidx: nat): bool { if fidx < |recv| then recv[fidx] else true }

  function StaticPlace(loc: Locs, takes: bool, vs: seq<VReg>): seq<Asm> {
    if takes then [Xor32(RDI)] + RegArgs(loc, vs, 1) + PushArgs(loc, TailArgs(vs, 1))
    else PlaceArgs(loc, vs)
  }

  // ---------- one instruction ----------

  /** Instructions of the simulated subset. */
  predicate Supported(i: Instr) {
    match i
    case Const(_, imm) => -B63 <= imm < B63
    case LoadField(_, _, off) => Fits32(off)
    case LoadByte(_, _, off) => Fits32(off)
    case StoreField(_, off, _) => Fits32(off)
    case Mov(_, _) => true
    case Neg(_, _) => true
    case Bin(_, _, _, _) => true
    case Cmp(_, _, _, _) => true
    case MemCpy(_, _, _) => true
    case MemCmp(_, _, _, _) => true
    case FnAddr(_, _) => true
    case CallFn(_, _, _) => true
    case CallStatic(_, _, _) => true
    case CallFnAddr(_, _, _) => true
    case _ => false
  }

  function InstrAsm(loc: Locs, recv: seq<bool>, i: Instr): seq<Asm> {
    match i
    case Const(dst, imm) => ConstAsm(LocOf(loc, dst), imm)
    case Mov(dst, a) => MovAsm(LocOf(loc, dst), LocOf(loc, a))
    case Neg(dst, a) => NegAsm(LocOf(loc, dst), LocOf(loc, a))
    case Bin(dst, op, a, b) => BinAsm(LocOf(loc, dst), op, LocOf(loc, a), LocOf(loc, b))
    case Cmp(dst, op, a, b) => CmpAsm(LocOf(loc, dst), op, LocOf(loc, a), LocOf(loc, b))
    case LoadField(dst, base, off) => LoadAsm(LocOf(loc, dst), LocOf(loc, base), off)
    case LoadByte(dst, base, off) => LoadByteAsm(LocOf(loc, dst), LocOf(loc, base), off)
    case StoreField(base, off, src) =>
      Get(R10, LocOf(loc, base)) + Get(R11, LocOf(loc, src)) + [Store(R10, off, R11)]
    case MemCpy(to, src, len) =>
      Get(R10, LocOf(loc, to)) + Get(R11, LocOf(loc, src)) + Get(R8, LocOf(loc, len)) + CopyLoop
    case MemCmp(dst, a, b, len) =>
      Get(R10, LocOf(loc, a)) + Get(R11, LocOf(loc, b)) + Get(R8, LocOf(loc, len)) + CompareLoop
      + Put(RAX, LocOf(loc, dst))
    case FnAddr(dst, fidx) => [LeaFn(RCX, fidx)] + Put(RCX, LocOf(loc, dst))
    case CallFn(dst, fidx, args) =>
      PlaceArgs(loc, args) + [Asm.CallFn(fidx)] + Cleanup(|args|) + Put(RAX, LocOf(loc, dst))
    case CallStatic(dst, fidx, args) =>
      StaticPlace(loc, TakesReceiver(recv, fidx), args) + [Asm.CallFn(fidx)] + Cleanup(|args|)
      + Put(RAX, LocOf(loc, dst))
    case CallFnAddr(dst, target, args) =>
      Get(R11, LocOf(loc, target)) + PlaceArgs(loc, args) + [CallReg(R11)] + Cleanup(|args|)
      + Put(RAX, LocOf(loc, dst))
    case _ => []
  }

  // ---------- frame ----------

  function SaverList(loc: Locs, k: nat): seq<Phys>
    requires k <= |POOL|
  {
    if k == 0 then []
    else SaverList(loc, k - 1) + if Reg(POOL[k - 1]) in loc then [POOL[k - 1]] else []
  }

  /** The callee-saved registers the function uses, ascending. */
  function Savers(a: Allocation): seq<Phys> { SaverList(a.loc, |POOL|) }

  /** Spill slots rounded up to 16 bytes, plus padding that makes the total push count odd. */
  function FrameBytes(a: Allocation): nat {
    RoundUp16(a.spills * 8) + if |Savers(a)| % 2 == 0 then 8 else 0
  }

  function RoundUp16(n: nat): nat { (n + 15) / 16 * 16 }

  function PushSavers(rs: seq<Phys>): seq<Asm> {
    if rs == [] then [] else [Push(PhysId(rs[0]), true)] + PushSavers(rs[1..])
  }

  function PopSavers(rs: seq<Phys>): seq<Asm> {
    if rs == [] then [] else PopSavers(rs[1..]) + [Pop(PhysId(rs[0]), true)]
  }

  function ParamAsm(f: Func, loc: Locs, p: nat): seq<Asm> {
    var idx := p + 1;
    var argi := if f.receiver then idx else p;
    if idx >= |loc| then []
    else if argi >= 6 then [Load(RAX, RBP, 16 + 8 * (argi - 6))] + Put(RAX, loc[idx])
    else Put(ARG[argi], loc[idx])
  }

  /** Parameters `0..n` in order. */
  function ParamsAsm(f: Func, loc: Locs, n: nat): seq<Asm> {
    if n == 0 then (if f.receiver then Put(ARG[0], LocOf(loc, 0)) else [])
    else ParamsAsm(f, loc, n - 1) + ParamAsm(f, loc, n - 1)
  }

  function Reserve(bytes: nat): seq<Asm> { if bytes > 0 then [SubRsp(bytes)] else [] }

  function Prologue(f: Func, a: Allocation): seq<Asm> {
    [Push(RBP, false), MovRR(RBP, RSP)] + Reserve(FrameBytes(a)) + PushSavers(Savers(a))
    + ParamsAsm(f, a.loc, f.arity)
  }

  function Epilogue(a: Allocation): seq<Asm> { PopSavers(Savers(a)) + [Leave, Asm.Ret] }

  function TermAsm(a: Allocation, t: Terminator): seq<Asm> {
    match t
    case Ret(Some(v)) => Get(RAX, LocOf(a.loc, v)) + Epilogue(a)
    case Ret(None) => [MovImmZ(RAX, 0)] + Epilogue(a)
    case Exit => [MovImmZ(RAX, 231), Xor32(RDI), Syscall]
    case ExitWith(v) => Get(RDI, LocOf(a.loc, v)) + [MovImmZ(RAX, 231), Syscall]
    case Branch(None, yes, _) => [JmpTo(yes)]
    case Branch(Some(c), yes, no) => Get(RAX, LocOf(a.loc, c)) + [Test(RAX), JnzTo(yes), JmpTo(no)]
    case _ => []
  }

  // ---------- whole functions ----------

  function InstrsAsm(loc: Locs, recv: seq<bool>, code: seq<Instr>): seq<Asm> {
    if code == [] then [] else InstrAsm(loc, recv, code[0]) + InstrsAsm(loc, recv, code[1..])
  }

  function BlockAsm(a: Allocation, recv: seq<bool>, b: Block): seq<Asm> {
    InstrsAsm(a.loc, recv, b.instrs) + TermAsm(a, b.term)
  }

  function BlocksAsm(a: Allocation, recv: seq<bool>, bs: seq<Block>): seq<Asm> {
    if bs == [] then [] else BlockAsm(a, recv, bs[0]) + BlocksAsm(a, recv, bs[1..])
  }

  function FnAsm(f: Func, a: Allocation, recv: seq<bool>): seq<Asm> {
    Prologue(f, a) + BlocksAsm(a, recv, f.blocks)
  }

  /** Offset of block `b` from the function's first byte. */
  function BlockOff(f: Func, a: Allocation, recv: seq<bool>, b: nat): nat
    requires b <= |f.blocks|
  {
    SizeAll(Prologue(f, a)) + SizeAll(BlocksAsm(a, recv, f.blocks[..b]))
  }

  /** Offset of position `i` of block `b`. */
  function InstrOff(f: Func, a: Allocation, recv: seq<bool>, b: nat, i: nat): nat
    requires b < |f.blocks| && i <= |f.blocks[b].instrs|
  {
    BlockOff(f, a, recv, b) + SizeAll(InstrsAsm(a.loc, recv, f.blocks[b].instrs[..i]))
  }

  // ---------- placed code ----------

  /** Where functions start, and where the blocks of the current function start. */
  datatype Ctx = Ctx(fn: seq<Word>, blk: seq<int>)

  /** The concrete instruction a symbolic one becomes at address `at`. */
  function Resolve(a: Asm, at: int, ctx: Ctx): Asm {
    match a
    case CallFn(k) => if k < |ctx.fn| then CallRel(ctx.fn[k] - (at + 5)) else a
    case LeaFn(r, k) => if k < |ctx.fn| then MovAbs(r, ctx.fn[k]) else a
    case JmpTo(b) => if b < |ctx.blk| then Jmp(ctx.blk[b] - (at + 5), true) else a
    case JnzTo(b) => if b < |ctx.blk| then Jcc(CNE, ctx.blk[b] - (at + 6), true) else a
    case _ => a
  }

  /** `code` holds the instructions `body`, resolved, from address `at` on. */
  predicate CodeAt(code: Code, at: int, body: seq<Asm>, ctx: Ctx)
    decreases |body|
  {
    body == [] ||
    (at in code && code[at] == Resolve(body[0], at, ctx) && CodeAt(code, at + Size(body[0]), body[1..], ctx))
  }

  lemma {:induction false} SizeAppend(xs: seq<Asm>, ys: seq<Asm>)
    ensures SizeAll(xs + ys) == SizeAll(xs) + SizeAll(ys)
  {
    hide Size;
    if xs == [] {
      assert xs + ys == ys;
    } else {
      assert (xs + ys)[1..] == xs[1..] + ys;
      SizeAppend(xs[1..], ys);
    }
  }

  lemma {:induction false} CodeAtAppend(code: Code, at: int, xs: seq<Asm>, ys: seq<Asm>, ctx: Ctx)
    ensures CodeAt(code, at, xs + ys, ctx) <==>
              CodeAt(code, at, xs, ctx) && CodeAt(code, at + SizeAll(xs), ys, ctx)
    decreases |xs|
  {
    hide Resolve, Size;
    if xs == [] {
      assert xs + ys == ys;
    } else {
      assert (xs + ys)[1..] == xs[1..] + ys;
      CodeAtAppend(code, at + Size(xs[0]), xs[1..], ys, ctx);
    }
  }
}
