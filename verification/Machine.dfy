/** The location machine: the x86-64 instructions the emitter uses, over sixteen
    registers, the flags, a word-granular stack and a byte-granular heap.

    The stack region is a set of 8-byte cells: all emitted stack traffic is
    aligned, and any other access to it faults here. */
module Machine {
  import opened Ir
  import opened Words

  // ---------- registers ----------

  type RegId = r: nat | r < 16
  type Regs = s: seq<Word> | |s| == 16 witness seq(16, _ => 0)

  const RAX: RegId := 0
  const RCX: RegId := 1
  const RDX: RegId := 2
  const RBX: RegId := 3
  const RSP: RegId := 4
  const RBP: RegId := 5
  const RSI: RegId := 6
  const RDI: RegId := 7
  const R8: RegId := 8
  const R9: RegId := 9
  const R10: RegId := 10
  const R11: RegId := 11

  // ---------- instructions ----------

  datatype AluOp = AAdd | ASub | AMul | AAnd | AOr | AXor

  datatype ShiftOp = SShl | SSar | SShr

  datatype CC = CE | CNE | CL | CG | CLE | CGE

  datatype Asm =
    | MovRR(dst: RegId, src: RegId)
    | MovImm(dst: RegId, imm: int)       // sign-extended 32-bit immediate
    | MovImmZ(dst: RegId, imm: int)      // 32-bit move, zero-extended
    | MovAbs(dst: RegId, abs: Word)
    | Load(dst: RegId, base: RegId, disp: int)
    | Store(base: RegId, disp: int, src: RegId)
    | StoreImm(base: RegId, disp: int, imm: int)
    | LoadByte(dst: RegId, base: RegId, disp: int, nodisp: bool)
    | StoreAl(base: RegId)
    | CmpAlMem(base: RegId)
    | Neg(r: RegId)
    | Inc(r: RegId)
    | Dec(r: RegId)
    | Alu(op: AluOp, dst: RegId, src: RegId)
    | AluMem(op: AluOp, dst: RegId, base: RegId, disp: int)
    | CmpRR(a: RegId, b: RegId)
    | CmpMem(a: RegId, base: RegId, disp: int)
    | Test(r: RegId)
    | SetAl(cc: CC)
    | MovzxAl
    | ShiftCl(sop: ShiftOp)
    | Cqo
    | IDiv(r: RegId)
    | Div(r: RegId)
    | Xor32(r: RegId)
    | Push(r: RegId, rexed: bool)
    | Pop(r: RegId, rexed: bool)
    | Leave
    | AddRsp(imm: int)
    | SubRsp(imm: int)
    // control
    | Ret
    | CallRel(rel: int)
    | CallReg(r: RegId)
    | Jmp(rel: int, wide: bool)
    | Jcc(cc: CC, rel: int, wide: bool)
    | Syscall
    // symbolic: replaced by a concrete instruction once addresses are known
    | CallFn(fidx: nat)
    | LeaFn(dst: RegId, fidx: nat)
    | JmpTo(block: nat)
    | JnzTo(block: nat)

  // ---------- state ----------

  datatype Flags = Flags(zf: bool, sf: bool, of: bool)

  datatype M = M(rip: int, regs: Regs, flags: Option<Flags>, stack: map<int, Word>, heap: Heap)

  datatype Outcome = Go(m: M) | Exited(code: Word, heap: Heap) | Fault

  function Load64(m: M, a: Word): Option<Word> {
    if a in m.stack then Some(m.stack[a])
    else if Mapped(m.heap, a, 8) then Some(Read64(m.heap, a))
    else None
  }

  function Store64(m: M, a: Word, w: Word): Outcome {
    if a in m.stack then Go(m.(stack := m.stack[a := w]))
    else if Mapped(m.heap, a, 8) then Go(m.(heap := Write(m.heap, a, 8, w)))
    else Fault
  }

  function Ea(m: M, base: RegId, disp: int): Word { Offset(m.regs[base], disp) }

  /** Put `w` in a register, or fault when there is no value. */
  function SetReg(m: M, r: RegId, w: Option<Word>): Outcome {
    match w case Some(x) => Go(m.(regs := m.regs[r := x])) case None => Fault
  }

  /** Flags of the subtraction `x - y` at a width whose sign weight is `half`. */
  function SubFlags(x: int, y: int, half: int): Flags
    requires half > 0
  {
    var r := (x - y) % (2 * half);
    var sx := if x < half then x else x - 2 * half;
    var sy := if y < half then y else y - 2 * half;
    Flags(r == 0, r >= half, !(-half <= sx - sy < half))
  }

  function Holds(cc: CC, f: Flags): bool {
    match cc
    case CE => f.zf
    case CNE => !f.zf
    case CL => f.sf != f.of
    case CG => !f.zf && f.sf == f.of
    case CLE => f.zf || f.sf != f.of
    case CGE => f.sf == f.of
  }

  function AluOf(op: AluOp, a: Word, b: Word): Word {
    match op
    case AAdd => Wrap(a + b)
    case ASub => Wrap(a - b)
    case AMul => Wrap(a * b)
    case AAnd => Wrap(Bitwise(AndGate, a, b, 64))
    case AOr => Wrap(Bitwise(OrGate, a, b, 64))
    case AXor => Wrap(Bitwise(XorGate, a, b, 64))
  }

  function ShiftOf(op: ShiftOp, a: Word, count: nat): Word {
    match op
    case SShl => Wrap(a * Pow2(count))
    case SSar => Wrap(Signed(a) / Pow2(count))
    case SShr => Wrap(a / Pow2(count))
  }

  // ---------- execution ----------

  function Clobber(o: Outcome): Outcome {
    if o.Go? then Go(o.m.(flags := None)) else o
  }

  function WithFlags(m: M, f: Flags): Outcome { Go(m.(flags := Some(f))) }

  function PushWord(m: M, w: Word): Outcome {
    var sp := Offset(m.regs[RSP], -8);
    if sp in m.stack then Go(m.(regs := m.regs[RSP := sp], stack := m.stack[sp := w])) else Fault
  }

  function PopReg(m: M, r: RegId): Outcome {
    var sp := m.regs[RSP];
    if sp in m.stack then Go(m.(regs := m.regs[RSP := Offset(sp, 8)][r := m.stack[sp]])) else Fault
  }

  /** Signed divide of rdx:rax; faults on a zero divisor or a quotient that does not fit. */
  function ExecIDiv(m: M, d: Word): Outcome {
    if d == 0 then Fault
    else
      var n := Signed(m.regs[RDX]) * B64 + m.regs[RAX];
      var q, r := TruncDiv(n, Signed(d)), TruncRem(n, Signed(d));
      if -B63 <= q < B63
      then Go(m.(regs := m.regs[RAX := Wrap(q)][RDX := Wrap(r)], flags := None))
      else Fault
  }

  function ExecDiv(m: M, d: Word): Outcome {
    if d == 0 then Fault
    else
      var n := m.regs[RDX] * B64 + m.regs[RAX];
      if Quot(n, d) < B64
      then Go(m.(regs := m.regs[RAX := Wrap(Quot(n, d))][RDX := Wrap(Remainder(n, d))], flags := None))
      else Fault
  }

  function ExecJump(m: M, rel: int): Outcome { Go(m.(rip := m.rip + rel)) }

  function ExecCall(m: M, target: int): Outcome {
    var o := PushWord(m, Wrap(m.rip));
    if o.Go? then Go(o.m.(rip := target)) else Fault
  }

  function ExecRet(m: M): Outcome {
    var sp := m.regs[RSP];
    if sp in m.stack then Go(m.(regs := m.regs[RSP := Offset(sp, 8)], rip := m.stack[sp])) else Fault
  }

  /** Execute `a`; `m.rip` already points past it. */
  function Exec(a: Asm, m: M): Outcome {
    match a
    case MovRR(d, s) => SetReg(m, d, Some(m.regs[s]))
    case MovImm(d, imm) => SetReg(m, d, Some(Wrap(imm)))
    case MovImmZ(d, imm) => SetReg(m, d, Some(Wrap(imm % B32)))
    case MovAbs(d, w) => SetReg(m, d, Some(w))
    case Load(d, b, disp) => SetReg(m, d, Load64(m, Ea(m, b, disp)))
    case Store(b, disp, s) => Store64(m, Ea(m, b, disp), m.regs[s])
    case StoreImm(b, disp, imm) => Store64(m, Ea(m, b, disp), Wrap(imm))
    case LoadByte(d, b, disp, _) =>
      var at := Ea(m, b, disp);
      SetReg(m, d, if at in m.heap then Some(m.heap[at]) else None)
    case StoreAl(b) =>
      var at := m.regs[b];
      if at in m.heap then Go(m.(heap := m.heap[at := m.regs[RAX] % 256])) else Fault
    case CmpAlMem(b) =>
      var at := m.regs[b];
      if at in m.heap then WithFlags(m, SubFlags(m.heap[at], m.regs[RAX] % 256, 128)) else Fault
    case Neg(r) => Clobber(SetReg(m, r, Some(Wrap(B64 - m.regs[r]))))
    case Inc(r) => Clobber(SetReg(m, r, Some(Offset(m.regs[r], 1))))
    case Dec(r) =>
      var w := Offset(m.regs[r], -1);
      WithFlags(m.(regs := m.regs[r := w]), SubFlags(m.regs[r], 1, B63))
    case Alu(op, d, s) => Clobber(SetReg(m, d, Some(AluOf(op, m.regs[d], m.regs[s]))))
    case AluMem(op, d, b, disp) =>
      var x := Load64(m, Ea(m, b, disp));
      if x.Some? then Clobber(SetReg(m, d, Some(AluOf(op, m.regs[d], x.value)))) else Fault
    case CmpRR(x, y) => WithFlags(m, SubFlags(m.regs[x], m.regs[y], B63))
    case CmpMem(x, b, disp) =>
      var y := Load64(m, Ea(m, b, disp));
      if y.Some? then WithFlags(m, SubFlags(m.regs[x], y.value, B63)) else Fault
    case Test(r) => WithFlags(m, Flags(m.regs[r] == 0, m.regs[r] >= B63, false))
    case SetAl(cc) =>
      if m.flags.None? then Fault
      else SetReg(m, RAX, Some(m.regs[RAX] - m.regs[RAX] % 256 + if Holds(cc, m.flags.value) then 1 else 0))
    case MovzxAl => SetReg(m, RAX, Some(m.regs[RAX] % 256))
    case ShiftCl(op) => Clobber(SetReg(m, RAX, Some(ShiftOf(op, m.regs[RAX], m.regs[RCX] % 64))))
    case Cqo => SetReg(m, RDX, Some(if m.regs[RAX] >= B63 then B64 - 1 else 0))
    case IDiv(r) => ExecIDiv(m, m.regs[r])
    case Div(r) => ExecDiv(m, m.regs[r])
    case Xor32(r) => Clobber(SetReg(m, r, Some(0)))
    case Push(r, _) => PushWord(m, m.regs[r])
    case Pop(r, _) => PopReg(m, r)
    case Leave => PopReg(m.(regs := m.regs[RSP := m.regs[RBP]]), RBP)
    case AddRsp(n) => Clobber(SetReg(m, RSP, Some(Offset(m.regs[RSP], n))))
    case SubRsp(n) => Clobber(SetReg(m, RSP, Some(Offset(m.regs[RSP], -n))))
    case Ret => ExecRet(m)
    case CallRel(rel) => ExecCall(m, m.rip + rel)
    case CallReg(r) => ExecCall(m, m.regs[r])
    case Jmp(rel, _) => ExecJump(m, rel)
    case Jcc(cc, rel, _) =>
      if m.flags.None? then Fault else if Holds(cc, m.flags.value) then ExecJump(m, rel) else Go(m)
    // exit_group is the only system call of the modelled subset
    case Syscall => if m.regs[RAX] == 231 then Exited(m.regs[RDI], m.heap) else Fault
    case _ => Fault
  }

  predicate SmallDisp(base: RegId, d: int) {
    if base == RBP then -120 <= d <= 127 else -120 <= d <= 120
  }

  function DispSize(base: RegId, d: int): nat { if SmallDisp(base, d) then 1 else 4 }

  /** Encoded length in bytes. */
  function Size(a: Asm): (n: nat)
    ensures n > 0
  {
    match a
    case MovRR(_, _) => 3
    case MovImm(_, _) => 7
    case MovImmZ(_, _) => 5
    case MovAbs(_, _) => 10
    case Load(_, b, d) => 3 + DispSize(b, d)
    case Store(b, d, _) => 3 + DispSize(b, d)
    case StoreImm(b, d, _) => 7 + DispSize(b, d)
    case LoadByte(_, b, d, nodisp) => if nodisp then 4 else 4 + DispSize(b, d)
    case Alu(op, _, _) => if op.AMul? then 4 else 3
    case AluMem(op, _, b, d) => (if op.AMul? then 4 else 3) + DispSize(b, d)
    case CmpMem(_, b, d) => 3 + DispSize(b, d)
    case MovzxAl => 4
    case Cqo => 2
    case Xor32(_) => 2
    case Push(_, rexed) => if rexed then 2 else 1
    case Pop(_, rexed) => if rexed then 2 else 1
    case Leave => 1
    case AddRsp(n) => if n <= 120 then 4 else 7
    case SubRsp(n) => if n <= 120 then 4 else 7
    case Ret => 1
    case CallRel(_) => 5
    case Jmp(_, wide) => if wide then 5 else 2
    case Jcc(_, _, wide) => if wide then 6 else 2
    case Syscall => 2
    case CallFn(_) => 5
    case LeaFn(_, _) => 10
    case JmpTo(_) => 5
    case JnzTo(_) => 6
    case _ => 3
  }

  // ---------- running decoded code ----------

  /** Decoded instructions by address. */
  type Code = map<int, Asm>

  function Step(code: Code, m: M): Outcome {
    if m.rip in code then Exec(code[m.rip], m.(rip := m.rip + Size(code[m.rip]))) else Fault
  }

  function Steps(code: Code, m: M, n: nat): Outcome
    decreases n
  {
    if n == 0 then Go(m)
    else match Step(code, m)
      case Go(m') => Steps(code, m', n - 1)
      case o => o
  }

  lemma {:induction false} StepsAdd(code: Code, a: M, b: M, n: nat, k: nat)
    requires Steps(code, a, n) == Go(b)
    ensures Steps(code, a, n + k) == Steps(code, b, k)
    decreases n
  {
    hide Exec, Step;
    if n > 0 {
      var a' := Step(code, a).m;
      StepsAdd(code, a', b, n - 1, k);
    }
  }
}
