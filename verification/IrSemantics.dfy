/** What an IR program means: a small-step machine over vregs.

    Reading a vreg that was never written, touching unmapped memory, dividing
    the minimum by -1 and calling something that is not a function are stuck. */
module IrSemantics {
  import opened Ir
  import opened Words

  type Env = map<VReg, Word>

  /** Functions, and the code address each one is linked at. */
  datatype Prog = Prog(funcs: seq<Func>, addr: seq<Word>)

  datatype Frame = Frame(fidx: nat, block: nat, pos: nat, env: Env)

  datatype State =
    | Running(frames: seq<Frame>, heap: Heap)
    | Returned(value: Word, heap: Heap)
    | Exited(code: Word, heap: Heap)
    | Stuck

  // ---------- arithmetic ----------

  function Divide(op: BinOp, a: Word, b: Word): Option<Word> {
    if b == 0 then Some(0)
    else match op
      case Div => if a == B63 && b == B64 - 1 then None else Some(Wrap(TruncDiv(Signed(a), Signed(b))))
      case Rem => if a == B63 && b == B64 - 1 then None else Some(Wrap(TruncRem(Signed(a), Signed(b))))
      case UDiv => Some(Wrap(Quot(a, b)))
      case _ => Some(Wrap(Remainder(a, b)))
  }

  function Shift(op: BinOp, a: Word, count: nat): Word {
    match op
    case Shl => Wrap(a * Pow2(count))
    case Shr => Wrap(Signed(a) / Pow2(count))
    case _ => Wrap(a / Pow2(count))
  }

  function Arith(op: BinOp, a: Word, b: Word): Word {
    match op
    case Add => Wrap(a + b)
    case Sub => Wrap(a - b)
    case Mul => Wrap(a * b)
    case And => Wrap(Bitwise(AndGate, a, b, 64))
    case BitAnd => Wrap(Bitwise(AndGate, a, b, 64))
    case Or => Wrap(Bitwise(OrGate, a, b, 64))
    case BitOr => Wrap(Bitwise(OrGate, a, b, 64))
    case _ => Wrap(Bitwise(XorGate, a, b, 64))
  }

  /** Zero divisors give zero; shift counts are taken modulo 64. */
  function EvalBin(op: BinOp, a: Word, b: Word): Option<Word> {
    if IsDivision(op) then Divide(op, a, b)
    else if IsShift(op) then Some(Shift(op, a, b % 64))
    else Some(Arith(op, a, b))
  }

  function EvalCmp(op: CmpOp, a: Word, b: Word): Word {
    var x, y := Signed(a), Signed(b);
    var holds := match op
      case Eq => x == y
      case Ne => x != y
      case Lt => x < y
      case Gt => x > y
      case Le => x <= y
      case Ge => x >= y;
    if holds then 1 else 0
  }

  // ---------- memory blocks ----------

  /** Ascending byte copy; overlapping ranges see earlier bytes already copied. */
  function CopyBytes(h: Heap, to: Word, src: Word, n: nat): Option<Heap>
    decreases n
  {
    if n == 0 then Some(h)
    else if src !in h || to !in h then None
    else CopyBytes(h[to := h[src]], Offset(to, 1), Offset(src, 1), n - 1)
  }

  function SameBytes(h: Heap, a: Word, b: Word, n: nat): Option<Word>
    decreases n
  {
    if n == 0 then Some(1)
    else if a !in h || b !in h then None
    else if h[a] != h[b] then Some(0)
    else SameBytes(h, Offset(a, 1), Offset(b, 1), n - 1)
  }

  // ---------- calls ----------

  /** Instance: vreg j is argument j. Static: vreg j+1 is argument j. */
  function FirstParam(f: Func): nat { if f.receiver then 0 else 1 }

  predicate IsParam(f: Func, n: nat, v: VReg) { FirstParam(f) <= v < FirstParam(f) + n && v < f.vregs }

  function Bind(f: Func, args: seq<Word>): Env {
    map v: VReg | v < f.vregs && IsParam(f, |args|, v) :: args[v - FirstParam(f)]
  }

  function FindAddr(addr: seq<Word>, w: Word): Option<nat> {
    if addr == [] then None
    else if addr[|addr| - 1] == w then Some(|addr| - 1)
    else FindAddr(addr[..|addr| - 1], w)
  }

  function Values(env: Env, vs: seq<VReg>): Option<seq<Word>> {
    if vs == [] then Some([])
    else if vs[0] !in env then None
    else match Values(env, vs[1..])
      case None => None
      case Some(ws) => Some([env[vs[0]]] + ws)
  }

  // ---------- instructions ----------

  datatype Effect =
    | Set(dst: VReg, value: Word)
    | Mem(heap: Heap)
    | Enter(fidx: nat, args: seq<Word>)
    | Fault

  function SetIf(dst: VReg, w: Option<Word>): Effect {
    match w case Some(x) => Set(dst, x) case None => Fault
  }

  function EnterIf(p: Prog, fidx: Option<nat>, args: Option<seq<Word>>): Effect {
    if fidx.Some? && args.Some? && fidx.value < |p.funcs| && |args.value| == Incoming(p.funcs[fidx.value])
    then Enter(fidx.value, args.value)
    else Fault
  }

  /** A static call passes a null receiver to a receiver-taking callee. */
  function StaticArgs(p: Prog, fidx: nat, args: Option<seq<Word>>): Option<seq<Word>> {
    if args.Some? && fidx < |p.funcs| && p.funcs[fidx].receiver then Some([0] + args.value) else args
  }

  function EvalInstr(p: Prog, env: Env, h: Heap, i: Instr): Effect {
    match i
    case Const(dst, imm) => Set(dst, Wrap(imm))
    case Mov(dst, a) => if a in env then Set(dst, env[a]) else Fault
    case Neg(dst, a) => if a in env then Set(dst, Wrap(B64 - env[a])) else Fault
    case Bin(dst, op, a, b) =>
      if a in env && b in env then SetIf(dst, EvalBin(op, env[a], env[b])) else Fault
    case Cmp(dst, op, a, b) =>
      if a in env && b in env then Set(dst, EvalCmp(op, env[a], env[b])) else Fault
    case LoadField(dst, base, off) =>
      if base in env && Mapped(h, Offset(env[base], off), 8)
      then Set(dst, Read64(h, Offset(env[base], off))) else Fault
    case LoadByte(dst, base, off) =>
      if base in env && Offset(env[base], off) in h then Set(dst, h[Offset(env[base], off)]) else Fault
    case StoreField(base, off, src) =>
      if base in env && src in env && Mapped(h, Offset(env[base], off), 8)
      then Mem(Write(h, Offset(env[base], off), 8, env[src])) else Fault
    case MemCpy(to, src, len) =>
      if to in env && src in env && len in env
      then match CopyBytes(h, env[to], env[src], env[len]) case Some(h') => Mem(h') case None => Fault
      else Fault
    case MemCmp(dst, a, b, len) =>
      if a in env && b in env && len in env then SetIf(dst, SameBytes(h, env[a], env[b], env[len])) else Fault
    case FnAddr(dst, fidx) => if fidx < |p.addr| then Set(dst, p.addr[fidx]) else Fault
    case CallFn(_, fidx, args) => EnterIf(p, Some(fidx), Values(env, args))
    case CallStatic(_, fidx, args) => EnterIf(p, Some(fidx), StaticArgs(p, fidx, Values(env, args)))
    case CallFnAddr(_, target, args) =>
      if target in env then EnterIf(p, FindAddr(p.addr, env[target]), Values(env, args)) else Fault
    case _ => Fault
  }

  predicate IsCall(i: Instr) { i.CallFn? || i.CallStatic? || i.CallFnAddr? }

  /** The value a `Ret` hands back; an absent result reads as 0. */
  function RetValue(env: Env, r: Option<VReg>): Option<Word> {
    match r
    case None => Some(0)
    case Some(v) => if v in env then Some(env[v]) else None
  }

  function Top(fs: seq<Frame>): Frame
    requires fs != []
  {
    fs[|fs| - 1]
  }

  function Rest(fs: seq<Frame>): seq<Frame>
    requires fs != []
  {
    fs[..|fs| - 1]
  }

  /** Frame indices are meaningful. */
  predicate AtPoint(p: Prog, fr: Frame) {
    fr.fidx < |p.funcs| && IsPoint(p.funcs[fr.fidx], Point(fr.block, fr.pos))
  }

  function InstrOf(p: Prog, fr: Frame): Option<Instr>
    requires AtPoint(p, fr)
  {
    var b := p.funcs[fr.fidx].blocks[fr.block];
    if fr.pos < |b.instrs| then Some(b.instrs[fr.pos]) else None
  }

  /** The caller resumes after its call with the destination set. */
  function Resume(p: Prog, fs: seq<Frame>, h: Heap, value: Word): State {
    if fs == [] then Returned(value, h)
    else if AtPoint(p, Top(fs)) && InstrOf(p, Top(fs)).Some? && IsCall(InstrOf(p, Top(fs)).value) then
      var fr := Top(fs);
      Running(Rest(fs) + [fr.(pos := fr.pos + 1, env := fr.env[InstrOf(p, fr).value.dst := value])], h)
    else Stuck
  }

  function StepTerm(p: Prog, fs: seq<Frame>, h: Heap, t: Terminator): State
    requires fs != []
  {
    var fr := Top(fs);
    match t
    case Ret(r) => (match RetValue(fr.env, r) case Some(w) => Resume(p, Rest(fs), h, w) case None => Stuck)
    case Exit => Exited(0, h)
    case ExitWith(v) => if v in fr.env then Exited(fr.env[v], h) else Stuck
    case Branch(None, yes, _) => Running(Rest(fs) + [fr.(block := yes, pos := 0)], h)
    case Branch(Some(c), yes, no) =>
      if c in fr.env then Running(Rest(fs) + [fr.(block := if fr.env[c] != 0 then yes else no, pos := 0)], h)
      else Stuck
    case _ => Stuck
  }

  function Step(p: Prog, s: State): State {
    if !s.Running? || s.frames == [] || !AtPoint(p, Top(s.frames)) then Stuck
    else
      var fs, fr := s.frames, Top(s.frames);
      match InstrOf(p, fr)
      case None => StepTerm(p, fs, s.heap, p.funcs[fr.fidx].blocks[fr.block].term)
      case Some(i) =>
        match EvalInstr(p, fr.env, s.heap, i)
        case Set(dst, w) => Running(Rest(fs) + [fr.(pos := fr.pos + 1, env := fr.env[dst := w])], s.heap)
        case Mem(h) => Running(Rest(fs) + [fr.(pos := fr.pos + 1)], h)
        case Enter(fidx, args) => Running(fs + [Frame(fidx, 0, 0, Bind(p.funcs[fidx], args))], s.heap)
        case Fault => Stuck
  }
}
