/** The virtual-register IR the back end consumes: instructions, terminators,
    functions, and the two tables the allocator reads off an instruction.

    Floating point, raw bytes and coroutine stubs are not represented. */
module Ir {
  datatype Option<+T> = None | Some(value: T)

  type VReg = nat

  datatype BinOp =
    | Add | Sub | Mul | Div | Rem | UDiv | URem
    | And | Or | BitAnd | BitOr | BitXor
    | Shl | Shr | ShrShr

  predicate IsDivision(op: BinOp) { op.Div? || op.Rem? || op.UDiv? || op.URem? }
  predicate IsShift(op: BinOp) { op.Shl? || op.Shr? || op.ShrShr? }

  datatype CmpOp = Eq | Ne | Lt | Gt | Le | Ge

  datatype Instr =
    | Const(dst: VReg, imm: int)
    | Mov(dst: VReg, a: VReg)
    | Neg(dst: VReg, a: VReg)
    | Bin(dst: VReg, op: BinOp, a: VReg, b: VReg)
    | Cmp(dst: VReg, cmp: CmpOp, a: VReg, b: VReg)
    | LoadField(dst: VReg, base: VReg, off: int)
    | LoadByte(dst: VReg, base: VReg, off: int)
    | StoreField(base: VReg, off: int, src: VReg)
    | MemCpy(to: VReg, src: VReg, len: VReg)
    | MemCmp(dst: VReg, a: VReg, b: VReg, len: VReg)
    | FnAddr(dst: VReg, fidx: nat)
    | CallFn(dst: VReg, fidx: nat, args: seq<VReg>)
    | CallStatic(dst: VReg, fidx: nat, args: seq<VReg>)
    | CallFnAddr(dst: VReg, target: VReg, args: seq<VReg>)
    // Understood by the allocator, outside the simulated subset.
    | CallImport(dst: VReg, imp: nat, args: seq<VReg>)
    | CallVirt(dst: VReg, slot: nat, recv: VReg, args: seq<VReg>)
    | LoadImport(dst: VReg, imp: nat)
    | Alloc(dst: VReg, bytes: nat)
    | AllocDyn(dst: VReg, size: VReg)
    | AddrOf(dst: VReg)  // VTableAddr, LoadStaticAddr, LoadStrAddr, BuildArgv
    | Consume(src: VReg) // WriteInt, EWriteInt, WriteString, Retain, Release
    | HandlerEnter(dst: VReg)
    | LoadExc(dst: VReg)
    | Effect             // HandlerPop, ClearInflight, WriteStr, EWriteStr
    | ScanInt(dst: VReg)

  datatype Terminator =
    | Ret(result: Option<VReg>)
    | Exit
    | ExitWith(code: VReg)
    | Branch(cond: Option<VReg>, ifTrue: nat, ifFalse: nat)
    | Unwind(src: VReg)
    | Rethrow

  datatype Block = Block(instrs: seq<Instr>, term: Terminator)

  /** `receiver` is "the receiver kind is not None"; parameters are vregs
      1..=arity, vreg 0 is the receiver (or padding). */
  datatype Func = Func(receiver: bool, arity: nat, vregs: nat, blocks: seq<Block>)

  function SetOf(vs: seq<VReg>): set<VReg> { set v | v in vs }

  /** The vreg an instruction defines. `ScanInt` writes its destination but
      reports no definition, exactly as the allocator sees it. */
  function Def(i: Instr): Option<VReg> {
    match i
    case StoreField(_, _, _) => None
    case MemCpy(_, _, _) => None
    case Consume(_) => None
    case Effect => None
    case ScanInt(_) => None
    case _ => Some(i.dst)
  }

  /** The vregs an instruction uses. Calls count their destination as a use. */
  function Uses(i: Instr): set<VReg> {
    match i
    case Mov(_, a) => {a}
    case Neg(_, a) => {a}
    case Bin(_, _, a, b) => {a, b}
    case Cmp(_, _, a, b) => {a, b}
    case LoadField(_, base, _) => {base}
    case LoadByte(_, base, _) => {base}
    case StoreField(base, _, src) => {base, src}
    case MemCpy(to, src, len) => {to, src, len}
    case MemCmp(_, a, b, len) => {a, b, len}
    case CallFn(dst, _, args) => SetOf(args) + {dst}
    case CallStatic(dst, _, args) => SetOf(args) + {dst}
    case CallImport(dst, _, args) => SetOf(args) + {dst}
    case CallFnAddr(dst, target, args) => SetOf(args) + {target, dst}
    case CallVirt(dst, _, recv, args) => SetOf(args) + {recv, dst}
    case LoadImport(dst, _) => {dst}
    case AllocDyn(_, size) => {size}
    case Consume(src) => {src}
    case _ => {}
  }

  /** The vreg a terminator reads, as liveness records it (`Unwind` records none). */
  function TermUses(t: Terminator): set<VReg> {
    match t
    case Ret(Some(v)) => {v}
    case ExitWith(v) => {v}
    case Branch(Some(c), _, _) => {c}
    case _ => {}
  }

  function Succs(t: Terminator): seq<nat> {
    match t
    case Branch(_, yes, no) => [yes, no]
    case _ => []
  }

  // ---------- program points ----------

  /** Position `pos` of a block; `pos == |instrs|` is its terminator. */
  datatype Point = Point(block: nat, pos: nat)

  predicate IsPoint(f: Func, p: Point) {
    p.block < |f.blocks| && p.pos <= |f.blocks[p.block].instrs|
  }

  function DefsAt(f: Func, p: Point): set<VReg>
    requires IsPoint(f, p)
  {
    var code := f.blocks[p.block].instrs;
    if p.pos < |code| && Def(code[p.pos]).Some? then {Def(code[p.pos]).value} else {}
  }

  function UsesAt(f: Func, p: Point): set<VReg>
    requires IsPoint(f, p)
  {
    var b := f.blocks[p.block];
    if p.pos < |b.instrs| then Uses(b.instrs[p.pos]) else TermUses(b.term)
  }

  /** `q` can execute right after `p` in the allocator's successor graph. */
  predicate Next(f: Func, p: Point, q: Point)
    requires IsPoint(f, p)
  {
    if p.pos < |f.blocks[p.block].instrs|
    then q == Point(p.block, p.pos + 1)
    else q.pos == 0 && q.block in Succs(f.blocks[p.block].term)
  }

  /** What building a function guarantees the allocator: branch targets exist,
      every vreg is below `vregs`, and so are the incoming ones. */
  ghost predicate WellFormed(f: Func) {
    && Incoming(f) <= f.vregs
    && (forall b, i :: 0 <= b < |f.blocks| && 0 <= i < |Succs(f.blocks[b].term)| ==>
        Succs(f.blocks[b].term)[i] < |f.blocks|)
    && (forall p, v :: IsPoint(f, p) && (v in UsesAt(f, p) || v in DefsAt(f, p)) ==> v < f.vregs)
  }

  /** How many vregs the allocator treats as live from position 0. */
  function Incoming(f: Func): nat { f.arity + if f.receiver then 1 else 0 }
}
