/** Sizes and references of emitted code: every field fits its encoding and every
    symbolic target exists, for functions of bounded size. */
module Layout {
  import opened Ir
  import opened Locations
  import opened RegAlloc
  import opened Machine
  import opened Emission
  import opened Encoding
  import opened Patching

  /** Bound on vregs, parameters and argument lists that keeps frame offsets in 32 bits. */
  const LIMIT := 0x100_0000

  predicate ShortArgs(i: Instr) {
    match i
    case CallFn(_, _, args) => |args| <= LIMIT
    case CallStatic(_, _, args) => |args| <= LIMIT
    case CallFnAddr(_, _, args) => |args| <= LIMIT
    case _ => true
  }

  /** A function an instruction names exists. */
  predicate Names(i: Instr, nfn: nat) {
    match i
    case CallFn(_, fidx, _) => fidx < nfn
    case CallStatic(_, fidx, _) => fidx < nfn
    case FnAddr(_, fidx) => fidx < nfn
    case _ => true
  }

  predicate Compact(f: Func, nfn: nat) {
    && f.vregs <= LIMIT && f.arity <= LIMIT
    && forall b, i :: 0 <= b < |f.blocks| && 0 <= i < |f.blocks[b].instrs| ==>
         Supported(f.blocks[b].instrs[i]) && ShortArgs(f.blocks[b].instrs[i]) && Names(f.blocks[b].instrs[i], nfn)
  }

  /** An instruction that can be encoded, or refers to an existing block or function. */
  predicate Good(a: Asm, nblk: nat, nfn: nat) {
    match KindOf(a)
    case Some(Jumps) => TargetOf(a) < nblk
    case Some(_) => TargetOf(a) < nfn
    case None => Encodable(a)
  }

  predicate AllGood(asms: seq<Asm>, nblk: nat, nfn: nat) {
    forall i :: 0 <= i < |asms| ==> Good(asms[i], nblk, nfn)
  }

  predicate SlotsFit(loc: Locs) { forall v :: 0 <= v < |loc| && loc[v].Slot? ==> loc[v].k < LIMIT }

  predicate LocFits(l: Loc) { l.Slot? ==> l.k < LIMIT }

  lemma LocFitting(loc: Locs, v: VReg)
    requires SlotsFit(loc)
    ensures LocFits(LocOf(loc, v))
  {
  }

  lemma GoodAppend(xs: seq<Asm>, ys: seq<Asm>, nblk: nat, nfn: nat)
    requires AllGood(xs, nblk, nfn) && AllGood(ys, nblk, nfn)
    ensures AllGood(xs + ys, nblk, nfn)
  {
  }

  lemma GoodGetPut(r: RegId, l: Loc, nblk: nat, nfn: nat)
    requires LocFits(l)
    ensures AllGood(Get(r, l), nblk, nfn) && AllGood(Put(r, l), nblk, nfn)
  {
  }

  lemma GoodMove(i: Instr, dl: Loc, al: Loc, nblk: nat, nfn: nat)
    requires Supported(i) && LocFits(dl) && LocFits(al)
    ensures i.Const? ==> AllGood(ConstAsm(dl, i.imm), nblk, nfn)
    ensures AllGood(MovAsm(dl, al), nblk, nfn) && AllGood(NegAsm(dl, al), nblk, nfn)
  {
    hide Get, Put, LocFits, AllGood;
    GoodGetPut(RAX, al, nblk, nfn);
    GoodGetPut(RAX, dl, nblk, nfn);
    if dl.Reg? { GoodGetPut(PhysId(dl.phys), al, nblk, nfn); }
    if al.Reg? { GoodGetPut(PhysId(al.phys), dl, nblk, nfn); }
    GoodAppend(Get(RAX, al), Put(RAX, dl), nblk, nfn);
    GoodAppend(Get(RAX, al), [Asm.Neg(RAX)], nblk, nfn) by { Single(Asm.Neg(RAX), nblk, nfn); }
    GoodAppend(Get(RAX, al) + [Asm.Neg(RAX)], Put(RAX, dl), nblk, nfn);
    if dl.Reg? { Single(Asm.Neg(PhysId(dl.phys)), nblk, nfn); }
    if i.Const? { GoodConst(dl, i.imm, nblk, nfn); }
  }

  lemma Single(a: Asm, nblk: nat, nfn: nat)
    requires Good(a, nblk, nfn)
    ensures AllGood([a], nblk, nfn)
  {
  }

  lemma GoodConst(dl: Loc, imm: int, nblk: nat, nfn: nat)
    requires LocFits(dl)
    ensures AllGood(ConstAsm(dl, imm), nblk, nfn)
  {
  }

  lemma GoodJoin3(xs: seq<Asm>, ys: seq<Asm>, zs: seq<Asm>, nblk: nat, nfn: nat)
    requires AllGood(xs, nblk, nfn) && AllGood(ys, nblk, nfn) && AllGood(zs, nblk, nfn)
    ensures AllGood(xs + ys + zs, nblk, nfn)
  {
  }

  lemma GoodCore(op: BinOp, nblk: nat, nfn: nat)
    ensures AllGood(DivCore(op), nblk, nfn) && AllGood([ShiftCl(ShiftOpOf(op))], nblk, nfn)
  {
  }

  lemma Two(a: Asm, b: Asm, nblk: nat, nfn: nat)
    requires Good(a, nblk, nfn) && Good(b, nblk, nfn)
    ensures AllGood([a, b], nblk, nfn)
  {
  }

  lemma GoodLoops(nblk: nat, nfn: nat)
    ensures AllGood(CopyLoop, nblk, nfn) && AllGood(CompareLoop, nblk, nfn)
  {
    GoodCopy(nblk, nfn);
    GoodCompare(nblk, nfn);
  }

  lemma GoodCopy(nblk: nat, nfn: nat)
    ensures AllGood(CopyLoop, nblk, nfn)
  {
    hide AllGood;
    var w, x := [Test(R8), Jcc(CE, 18, false)], [Asm.LoadByte(RAX, R11, 0, true), StoreAl(R10)];
    var y, z := [Inc(R10), Inc(R11)], [Dec(R8), Jcc(CNE, -23, false)];
    Two(w[0], w[1], nblk, nfn);
    Two(x[0], x[1], nblk, nfn);
    Two(y[0], y[1], nblk, nfn);
    Two(z[0], z[1], nblk, nfn);
    GoodJoin3(w, x, y, nblk, nfn);
    GoodAppend(w + x + y, z, nblk, nfn);
  }

  lemma GoodCompareHead(nblk: nat, nfn: nat)
    ensures AllGood([Test(R8), Jcc(CE, 20, false)] + [Asm.LoadByte(RAX, R11, 0, true), CmpAlMem(R10)]
                    + [Jcc(CNE, 18, false), Inc(R10)], nblk, nfn)
  {
    hide AllGood;
    Two(Test(R8), Jcc(CE, 20, false), nblk, nfn);
    Two(Asm.LoadByte(RAX, R11, 0, true), CmpAlMem(R10), nblk, nfn);
    Two(Jcc(CNE, 18, false), Inc(R10), nblk, nfn);
    GoodJoin3([Test(R8), Jcc(CE, 20, false)], [Asm.LoadByte(RAX, R11, 0, true), CmpAlMem(R10)],
              [Jcc(CNE, 18, false), Inc(R10)], nblk, nfn);
  }

  lemma GoodCompare(nblk: nat, nfn: nat)
    ensures AllGood(CompareLoop, nblk, nfn)
  {
    hide AllGood;
    GoodCompareHead(nblk, nfn);
    var head := [Test(R8), Jcc(CE, 20, false)] + [Asm.LoadByte(RAX, R11, 0, true), CmpAlMem(R10)]
                + [Jcc(CNE, 18, false), Inc(R10)];
    var x, y, z := [Inc(R11), Dec(R8)], [Jcc(CNE, -25, false), MovImmZ(RAX, 1)], [Jmp(5, false), MovImmZ(RAX, 0)];
    Two(Inc(R11), Dec(R8), nblk, nfn);
    Two(Jcc(CNE, -25, false), MovImmZ(RAX, 1), nblk, nfn);
    Two(Jmp(5, false), MovImmZ(RAX, 0), nblk, nfn);
    GoodJoin3(head, x, y, nblk, nfn);
    GoodAppend(head + x + y, z, nblk, nfn);
  }

  lemma GoodOperand(op: BinOp, rd: RegId, bl: Loc, nblk: nat, nfn: nat)
    requires LocFits(bl)
    ensures AllGood(Operand(op, rd, bl), nblk, nfn) && AllGood(CmpOperand(bl), nblk, nfn)
  {
  }

  lemma GoodBin(dl: Loc, op: BinOp, al: Loc, bl: Loc, nblk: nat, nfn: nat)
    requires LocFits(dl) && LocFits(al) && LocFits(bl)
    ensures AllGood(BinAsm(dl, op, al, bl), nblk, nfn)
  {
    hide Get, Put, LocFits, AllGood, DivCore, Operand;
    GoodGetPut(RAX, al, nblk, nfn);
    GoodGetPut(RAX, dl, nblk, nfn);
    GoodGetPut(RDX, dl, nblk, nfn);
    GoodGetPut(R11, bl, nblk, nfn);
    GoodGetPut(RCX, bl, nblk, nfn);
    GoodCore(op, nblk, nfn);
    GoodOperand(op, RAX, bl, nblk, nfn);
    if IsDivision(op) {
      GoodJoin3(Get(RAX, al), Get(R11, bl), DivCore(op), nblk, nfn);
      GoodAppend(Get(RAX, al) + Get(R11, bl) + DivCore(op), Put(if IsRem(op) then RDX else RAX, dl), nblk, nfn);
    } else if IsShift(op) {
      GoodJoin3(Get(RAX, al), Get(RCX, bl), [ShiftCl(ShiftOpOf(op))], nblk, nfn);
      GoodAppend(Get(RAX, al) + Get(RCX, bl) + [ShiftCl(ShiftOpOf(op))], Put(RAX, dl), nblk, nfn);
    } else if dl.Slot? {
      GoodJoin3(Get(RAX, al), Operand(op, RAX, bl), Put(RAX, dl), nblk, nfn);
    } else {
      var rd := PhysId(dl.phys);
      GoodGetPut(rd, al, nblk, nfn);
      GoodOperand(op, rd, bl, nblk, nfn);
      Single(MovRR(R11, rd), nblk, nfn);
      Single(Alu(AluOpOf(op), rd, R11), nblk, nfn);
      GoodJoin3([MovRR(R11, rd)], Get(rd, al), [Alu(AluOpOf(op), rd, R11)], nblk, nfn);
      GoodAppend(Get(rd, al), Operand(op, rd, bl), nblk, nfn);
    }
  }

  lemma GoodCmp(dl: Loc, op: CmpOp, al: Loc, bl: Loc, nblk: nat, nfn: nat)
    requires LocFits(dl) && LocFits(al) && LocFits(bl)
    ensures AllGood(CmpAsm(dl, op, al, bl), nblk, nfn)
  {
    hide Get, Put, LocFits, CmpOperand;
    GoodGetPut(RAX, al, nblk, nfn);
    GoodGetPut(RAX, dl, nblk, nfn);
    GoodOperand(Add, RAX, bl, nblk, nfn);
    GoodJoin3(Get(RAX, al), CmpOperand(bl), [SetAl(CcOf(op)), MovzxAl], nblk, nfn);
  }

  lemma GoodLoads(dl: Loc, basel: Loc, off: int, nblk: nat, nfn: nat)
    requires LocFits(dl) && LocFits(basel) && Fits32(off)
    ensures AllGood(LoadAsm(dl, basel, off), nblk, nfn) && AllGood(LoadByteAsm(dl, basel, off), nblk, nfn)
  {
    hide Get, Put, LocFits;
    GoodGetPut(R10, basel, nblk, nfn);
    GoodGetPut(RAX, dl, nblk, nfn);
  }

  lemma {:induction false} GoodPushArgs(loc: Locs, vs: seq<VReg>, nblk: nat, nfn: nat)
    requires SlotsFit(loc)
    ensures AllGood(PushArgs(loc, vs), nblk, nfn)
    decreases |vs|
  {
    hide Get, Put, LocFits, AllGood, SlotsFit;
    if vs == [] {
      NoneGood(nblk, nfn);
    } else {
      LocFitting(loc, vs[0]);
      GoodGetPut(RAX, LocOf(loc, vs[0]), nblk, nfn);
      GoodPushArgs(loc, vs[1..], nblk, nfn);
      Single(Push(RAX, false), nblk, nfn);
      GoodJoin3(PushArgs(loc, vs[1..]), Get(RAX, LocOf(loc, vs[0])), [Push(RAX, false)], nblk, nfn);
    }
  }

  lemma NoneGood(nblk: nat, nfn: nat)
    ensures AllGood([], nblk, nfn)
  {
  }

  lemma {:induction false} GoodRegArgs(loc: Locs, vs: seq<VReg>, k: nat, nblk: nat, nfn: nat)
    requires SlotsFit(loc)
    ensures AllGood(RegArgs(loc, vs, k), nblk, nfn)
    decreases |vs|
  {
    hide Get, Put, LocFits, AllGood, SlotsFit;
    if vs == [] || k >= 6 {
      NoneGood(nblk, nfn);
    } else {
      LocFitting(loc, vs[0]);
      GoodGetPut(ARG[k], LocOf(loc, vs[0]), nblk, nfn);
      GoodRegArgs(loc, vs[1..], k + 1, nblk, nfn);
      GoodAppend(Get(ARG[k], LocOf(loc, vs[0])), RegArgs(loc, vs[1..], k + 1), nblk, nfn);
    }
  }

  lemma GoodPlace(loc: Locs, takes: bool, vs: seq<VReg>, nblk: nat, nfn: nat)
    requires SlotsFit(loc)
    ensures AllGood(StaticPlace(loc, takes, vs), nblk, nfn)
  {
    hide AllGood, SlotsFit, PushArgs, RegArgs;
    GoodPushArgs(loc, TailArgs(vs, 0), nblk, nfn);
    GoodPushArgs(loc, TailArgs(vs, 1), nblk, nfn);
    GoodRegArgs(loc, vs, 0, nblk, nfn);
    GoodRegArgs(loc, vs, 1, nblk, nfn);
    Single(Xor32(RDI), nblk, nfn);
    GoodAppend(PushArgs(loc, TailArgs(vs, 0)), RegArgs(loc, vs, 0), nblk, nfn);
    GoodJoin3([Xor32(RDI)], RegArgs(loc, vs, 1), PushArgs(loc, TailArgs(vs, 1)), nblk, nfn);
  }

  /** A call with its arguments `place`. */
  lemma GoodCall(place: seq<Asm>, call: Asm, n: nat, dl: Loc, nblk: nat, nfn: nat)
    requires AllGood(place, nblk, nfn) && Good(call, nblk, nfn) && n <= LIMIT && LocFits(dl)
    ensures AllGood(place + [call] + Cleanup(n) + Put(RAX, dl), nblk, nfn)
  {
    hide Put, LocFits, AllGood;
    GoodGetPut(RAX, dl, nblk, nfn);
    Single(call, nblk, nfn);
    if n > 6 { Single(AddRsp((n - 6) * 8), nblk, nfn); } else { NoneGood(nblk, nfn); }
    GoodJoin3(place, [call], Cleanup(n), nblk, nfn);
    GoodAppend(place + [call] + Cleanup(n), Put(RAX, dl), nblk, nfn);
  }

  lemma GoodCalls(loc: Locs, recv: seq<bool>, i: Instr, nblk: nat, nfn: nat)
    requires SlotsFit(loc) && ShortArgs(i) && Names(i, nfn) && (i.CallFn? || i.CallStatic? || i.CallFnAddr?)
    ensures AllGood(InstrAsm(loc, recv, i), nblk, nfn)
  {
    hide Get, Put, LocFits, AllGood, SlotsFit, PlaceArgs, Cleanup;
    LocFitting(loc, i.dst);
    match i {
      case CallFn(dst, fidx, args) =>
        GoodPlace(loc, false, args, nblk, nfn);
        GoodCall(PlaceArgs(loc, args), Asm.CallFn(fidx), |args|, LocOf(loc, dst), nblk, nfn);
      case CallStatic(dst, fidx, args) =>
        GoodPlace(loc, TakesReceiver(recv, fidx), args, nblk, nfn);
        GoodCall(StaticPlace(loc, TakesReceiver(recv, fidx), args), Asm.CallFn(fidx), |args|, LocOf(loc, dst), nblk, nfn);
      case CallFnAddr(dst, target, args) =>
        GoodPlace(loc, false, args, nblk, nfn);
        LocFitting(loc, target);
        GoodGetPut(R11, LocOf(loc, target), nblk, nfn);
        GoodAppend(Get(R11, LocOf(loc, target)), PlaceArgs(loc, args), nblk, nfn);
        GoodCall(Get(R11, LocOf(loc, target)) + PlaceArgs(loc, args), CallReg(R11), |args|, LocOf(loc, dst), nblk, nfn);
    }
  }

  lemma GoodMemory(loc: Locs, recv: seq<bool>, i: Instr, nblk: nat, nfn: nat)
    requires SlotsFit(loc) && Supported(i) && (i.StoreField? || i.MemCpy? || i.MemCmp?)
    ensures AllGood(InstrAsm(loc, recv, i), nblk, nfn)
  {
    hide Get, Put, LocFits, SlotsFit, CopyLoop, CompareLoop;
    GoodLoops(nblk, nfn);
    match i {
      case StoreField(base, off, src) =>
        LocFitting(loc, base);
        LocFitting(loc, src);
        GoodGetPut(R10, LocOf(loc, base), nblk, nfn);
        GoodGetPut(R11, LocOf(loc, src), nblk, nfn);
      case MemCpy(to, src, len) =>
        LocFitting(loc, to);
        LocFitting(loc, src);
        LocFitting(loc, len);
        GoodGetPut(R10, LocOf(loc, to), nblk, nfn);
        GoodGetPut(R11, LocOf(loc, src), nblk, nfn);
        GoodGetPut(R8, LocOf(loc, len), nblk, nfn);
      case MemCmp(dst, a, b, len) =>
        LocFitting(loc, dst);
        LocFitting(loc, a);
        LocFitting(loc, b);
        LocFitting(loc, len);
        GoodGetPut(R10, LocOf(loc, a), nblk, nfn);
        GoodGetPut(R11, LocOf(loc, b), nblk, nfn);
        GoodGetPut(R8, LocOf(loc, len), nblk, nfn);
        GoodGetPut(RAX, LocOf(loc, dst), nblk, nfn);
    }
  }

  lemma GoodInstr(loc: Locs, recv: seq<bool>, i: Instr, nblk: nat, nfn: nat)
    requires SlotsFit(loc) && Supported(i) && ShortArgs(i) && Names(i, nfn)
    ensures AllGood(InstrAsm(loc, recv, i), nblk, nfn)
  {
    hide Get, Put, LocFits, AllGood, SlotsFit, ConstAsm, MovAsm, NegAsm, BinAsm, CmpAsm, LoadAsm, LoadByteAsm;
    match i {
      case Const(dst, imm) => LocFitting(loc, dst); GoodMove(i, LocOf(loc, dst), LocOf(loc, dst), nblk, nfn);
      case Mov(dst, a) => LocFitting(loc, dst); LocFitting(loc, a); GoodMove(i, LocOf(loc, dst), LocOf(loc, a), nblk, nfn);
      case Neg(dst, a) => LocFitting(loc, dst); LocFitting(loc, a); GoodMove(i, LocOf(loc, dst), LocOf(loc, a), nblk, nfn);
      case Bin(dst, op, a, b) =>
        LocFitting(loc, dst);
        LocFitting(loc, a);
        LocFitting(loc, b);
        GoodBin(LocOf(loc, dst), op, LocOf(loc, a), LocOf(loc, b), nblk, nfn);
      case Cmp(dst, op, a, b) =>
        LocFitting(loc, dst);
        LocFitting(loc, a);
        LocFitting(loc, b);
        GoodCmp(LocOf(loc, dst), op, LocOf(loc, a), LocOf(loc, b), nblk, nfn);
      case LoadField(dst, base, off) =>
        LocFitting(loc, dst);
        LocFitting(loc, base);
        GoodLoads(LocOf(loc, dst), LocOf(loc, base), off, nblk, nfn);
      case LoadByte(dst, base, off) =>
        LocFitting(loc, dst);
        LocFitting(loc, base);
        GoodLoads(LocOf(loc, dst), LocOf(loc, base), off, nblk, nfn);
      case FnAddr(dst, fidx) =>
        LocFitting(loc, dst);
        GoodGetPut(RCX, LocOf(loc, dst), nblk, nfn);
        Single(LeaFn(RCX, fidx), nblk, nfn);
        GoodAppend([LeaFn(RCX, fidx)], Put(RCX, LocOf(loc, dst)), nblk, nfn);
      case _ =>
        if i.StoreField? || i.MemCpy? || i.MemCmp? {
          GoodMemory(loc, recv, i, nblk, nfn);
        } else {
          GoodCalls(loc, recv, i, nblk, nfn);
        }
    }
  }

  // ---------- frames and blocks ----------

  lemma {:induction false} GoodSavers(rs: seq<Phys>, nblk: nat, nfn: nat)
    ensures AllGood(PushSavers(rs), nblk, nfn) && AllGood(PopSavers(rs), nblk, nfn)
  {
    if rs != [] { GoodSavers(rs[1..], nblk, nfn); }
  }

  lemma {:induction false} GoodParams(f: Func, loc: Locs, n: nat, nblk: nat, nfn: nat)
    requires SlotsFit(loc) && n <= LIMIT
    ensures AllGood(ParamsAsm(f, loc, n), nblk, nfn)
    decreases n
  {
    hide Put, AllGood, LocFits, SlotsFit, ParamAsm, LocOf;
    LocFitting(loc, n);
    GoodGetPut(RAX, LocOf(loc, n), nblk, nfn);
    if n == 0 {
      GoodGetPut(ARG[0], LocOf(loc, 0), nblk, nfn);
      NoneGood(nblk, nfn);
    } else {
      GoodParams(f, loc, n - 1, nblk, nfn);
      GoodParam(f, loc, n - 1, nblk, nfn);
      GoodAppend(ParamsAsm(f, loc, n - 1), ParamAsm(f, loc, n - 1), nblk, nfn);
    }
  }

  lemma GoodParam(f: Func, loc: Locs, p: nat, nblk: nat, nfn: nat)
    requires SlotsFit(loc) && p < LIMIT
    ensures AllGood(ParamAsm(f, loc, p), nblk, nfn)
  {
    hide Put, LocFits, SlotsFit;
    var j := if f.receiver then p + 1 else p;
    LocFitting(loc, p + 1);
    GoodGetPut(RAX, LocOf(loc, p + 1), nblk, nfn);
    if j < 6 { GoodGetPut(ARG[j], LocOf(loc, p + 1), nblk, nfn); }
  }

  lemma GoodPrologue(f: Func, a: Allocation, nblk: nat, nfn: nat)
    requires SlotsFit(a.loc) && f.arity <= LIMIT && a.spills <= LIMIT
    ensures AllGood(Prologue(f, a), nblk, nfn)
  {
    hide PushSavers, ParamsAsm, SlotsFit, Savers;
    GoodSavers(Savers(a), nblk, nfn);
    GoodParams(f, a.loc, f.arity, nblk, nfn);
  }

  lemma GoodEpilogue(a: Allocation, nblk: nat, nfn: nat)
    ensures AllGood(Epilogue(a), nblk, nfn)
  {
    hide AllGood, PopSavers, Savers;
    GoodSavers(Savers(a), nblk, nfn);
    Two(Leave, Asm.Ret, nblk, nfn);
    GoodAppend(PopSavers(Savers(a)), [Leave, Asm.Ret], nblk, nfn);
  }

  lemma GoodBranch(a: Allocation, c: VReg, yes: nat, no: nat, nblk: nat, nfn: nat)
    requires SlotsFit(a.loc) && yes < nblk && no < nblk
    ensures AllGood(Get(RAX, LocOf(a.loc, c)) + [Test(RAX), JnzTo(yes), JmpTo(no)], nblk, nfn)
  {
    hide AllGood, Get, LocFits, SlotsFit;
    LocFitting(a.loc, c);
    GoodGetPut(RAX, LocOf(a.loc, c), nblk, nfn);
    Two(Test(RAX), JnzTo(yes), nblk, nfn);
    Single(JmpTo(no), nblk, nfn);
    GoodJoin3(Get(RAX, LocOf(a.loc, c)), [Test(RAX), JnzTo(yes)], [JmpTo(no)], nblk, nfn);
    assert Get(RAX, LocOf(a.loc, c)) + [Test(RAX), JnzTo(yes), JmpTo(no)]
        == Get(RAX, LocOf(a.loc, c)) + [Test(RAX), JnzTo(yes)] + [JmpTo(no)];
  }

  lemma GoodExit(a: Allocation, v: VReg, nblk: nat, nfn: nat)
    requires SlotsFit(a.loc)
    ensures AllGood(Get(RDI, LocOf(a.loc, v)) + [MovImmZ(RAX, 231), Syscall], nblk, nfn)
    ensures AllGood([MovImmZ(RAX, 231), Xor32(RDI), Syscall], nblk, nfn)
  {
    hide AllGood, Get, LocFits, SlotsFit;
    LocFitting(a.loc, v);
    GoodGetPut(RDI, LocOf(a.loc, v), nblk, nfn);
    Two(MovImmZ(RAX, 231), Syscall, nblk, nfn);
    GoodAppend(Get(RDI, LocOf(a.loc, v)), [MovImmZ(RAX, 231), Syscall], nblk, nfn);
    Two(MovImmZ(RAX, 231), Xor32(RDI), nblk, nfn);
    Single(Syscall, nblk, nfn);
    GoodAppend([MovImmZ(RAX, 231), Xor32(RDI)], [Syscall], nblk, nfn);
    assert [MovImmZ(RAX, 231), Xor32(RDI), Syscall] == [MovImmZ(RAX, 231), Xor32(RDI)] + [Syscall];
  }

  lemma GoodTerm(a: Allocation, t: Terminator, nblk: nat, nfn: nat)
    requires SlotsFit(a.loc) && forall b :: b in Succs(t) ==> b < nblk
    ensures AllGood(TermAsm(a, t), nblk, nfn)
  {
    hide Get, LocFits, SlotsFit, AllGood, Epilogue;
    GoodEpilogue(a, nblk, nfn);
    NoneGood(nblk, nfn);
    match t {
      case Ret(Some(v)) =>
        LocFitting(a.loc, v);
        GoodGetPut(RAX, LocOf(a.loc, v), nblk, nfn);
        GoodAppend(Get(RAX, LocOf(a.loc, v)), Epilogue(a), nblk, nfn);
      case Ret(None) =>
        Single(MovImmZ(RAX, 0), nblk, nfn);
        GoodAppend([MovImmZ(RAX, 0)], Epilogue(a), nblk, nfn);
      case Exit => GoodExit(a, 0, nblk, nfn);
      case ExitWith(v) => GoodExit(a, v, nblk, nfn);
      case Branch(Some(c), yes, no) =>
        assert yes in Succs(t) && no in Succs(t);
        GoodBranch(a, c, yes, no, nblk, nfn);
      case Branch(None, yes, no) =>
        assert yes in Succs(t);
        Single(JmpTo(yes), nblk, nfn);
      case _ =>
    }
  }

  lemma {:induction false} GoodInstrs(loc: Locs, recv: seq<bool>, code: seq<Instr>, nblk: nat, nfn: nat)
    requires SlotsFit(loc)
    requires forall i :: 0 <= i < |code| ==> Supported(code[i]) && ShortArgs(code[i]) && Names(code[i], nfn)
    ensures AllGood(InstrsAsm(loc, recv, code), nblk, nfn)
    decreases |code|
  {
    hide InstrAsm, AllGood, SlotsFit, Supported, ShortArgs, Names;
    if code == [] {
      NoneGood(nblk, nfn);
    } else {
      GoodInstr(loc, recv, code[0], nblk, nfn);
      GoodInstrs(loc, recv, code[1..], nblk, nfn);
      GoodAppend(InstrAsm(loc, recv, code[0]), InstrsAsm(loc, recv, code[1..]), nblk, nfn);
    }
  }

  predicate BlockOk(b: Block, nblk: nat, nfn: nat) {
    && (forall i :: 0 <= i < |b.instrs| ==> Supported(b.instrs[i]) && ShortArgs(b.instrs[i]) && Names(b.instrs[i], nfn))
    && forall s :: s in Succs(b.term) ==> s < nblk
  }

  lemma {:induction false} GoodBlocks(a: Allocation, recv: seq<bool>, bs: seq<Block>, nblk: nat, nfn: nat)
    requires SlotsFit(a.loc) && forall b :: 0 <= b < |bs| ==> BlockOk(bs[b], nblk, nfn)
    ensures AllGood(BlocksAsm(a, recv, bs), nblk, nfn)
    decreases |bs|
  {
    hide InstrsAsm, TermAsm, AllGood, SlotsFit;
    if bs == [] {
      NoneGood(nblk, nfn);
    } else {
      GoodInstrs(a.loc, recv, bs[0].instrs, nblk, nfn);
      GoodTerm(a, bs[0].term, nblk, nfn);
      GoodAppend(InstrsAsm(a.loc, recv, bs[0].instrs), TermAsm(a, bs[0].term), nblk, nfn);
      GoodBlocks(a, recv, bs[1..], nblk, nfn);
      GoodAppend(BlockAsm(a, recv, bs[0]), BlocksAsm(a, recv, bs[1..]), nblk, nfn);
    }
  }

  lemma AllocationFits(f: Func, a: Allocation)
    requires AllocationOf(f, a) && f.vregs <= LIMIT
    ensures SlotsFit(a.loc) && a.spills <= LIMIT
  {
    hide AllocationOf;
    LocLength(f, a);
    forall v | 0 <= v < |a.loc|
      ensures a.loc[v].Slot? ==> a.loc[v].k < LIMIT
    {
      Located(f, a, v);
    }
  }

  /** Everything emitted for a compact function is encodable or refers to one of
      its blocks or one of the program's functions. */
  lemma GoodFunction(f: Func, a: Allocation, recv: seq<bool>, nfn: nat)
    requires WellFormed(f) && Compact(f, nfn) && AllocationOf(f, a)
    ensures AllGood(FnAsm(f, a, recv), |f.blocks|, nfn)
  {
    hide AllocationOf, Prologue, BlocksAsm, AllGood, SlotsFit, Supported, ShortArgs, Names;
    AllocationFits(f, a);
    GoodPrologue(f, a, |f.blocks|, nfn);
    GoodBlocks(a, recv, f.blocks, |f.blocks|, nfn);
    GoodAppend(Prologue(f, a), BlocksAsm(a, recv, f.blocks), |f.blocks|, nfn);
  }
}
