/** The emitter: appends encoded instructions to a code buffer, notes the fields
    to fill, and fills branches once a function is laid out. */
module Emitter {
  import opened Ir
  import opened Words
  import opened Locations
  import opened RegAlloc
  import opened Machine
  import opened Emission
  import Instructions
  import opened Encoding
  import opened Patching
  import opened Layout
  import opened Relation

  /** Where blocks `0..n` start when the function starts at `at`. */
  function StartsOf(f: Func, a: Allocation, recv: seq<bool>, at: int, n: nat): seq<int>
    requires n <= |f.blocks|
  {
    seq(n, b requires 0 <= b < n => at + BlockOff(f, a, recv, b))
  }

  lemma PushNext(loc: Locs, vs: seq<VReg>, k: nat)
    requires k < |vs|
    ensures PushArgs(loc, vs[k..]) == PushArgs(loc, vs[k + 1..]) + (Get(RAX, LocOf(loc, vs[k])) + [Push(RAX, false)])
  {
    assert vs[k..][1..] == vs[k + 1..];
  }

  lemma EmitOne(o: Out, a: Asm)
    ensures EmitAll(o, [a]) == Emit1(o, a)
  {
    assert [a][1..] == [];
  }

  lemma DropCons<T>(s: seq<T>, n: nat)
    requires n < |s|
    ensures s[n..] == [s[n]] + s[n + 1..]
  {
  }

  class Emitter {
    /** Which functions take a receiver. */
    const recv: seq<bool>
    var code: Bytes
    var fnStarts: seq<nat>
    var callSites: seq<Fixup>
    var relocs: seq<Fixup>
    /** Branch fields of the function being emitted. */
    var jumps: seq<Fixup>

    constructor (recv: seq<bool>)
      ensures this.recv == recv && State() == Out([], [], [], []) && fnStarts == []
    {
      this.recv := recv;
      code, fnStarts, callSites, relocs, jumps := [], [], [], [], [];
    }

    function State(): Out
      reads this
    {
      Out(code, jumps, callSites, relocs)
    }

    method Emit(a: Asm)
      modifies this
      ensures State() == EmitAll(old(State()), [a]) && fnStarts == old(fnStarts)
    {
      EmitOne(State(), a);
      var at := |code|;
      code := code + Encode(a);
      match KindOf(a) {
        case Some(Jumps) => jumps := jumps + [Fixup(at + FieldAt(a), TargetOf(a))];
        case Some(Calls) => callSites := callSites + [Fixup(at + FieldAt(a), TargetOf(a))];
        case Some(Addrs) => relocs := relocs + [Fixup(at + FieldAt(a), TargetOf(a))];
        case None =>
      }
    }

    method EmitSeq(asms: seq<Asm>)
      modifies this
      ensures State() == EmitAll(old(State()), asms) && fnStarts == old(fnStarts)
    {
      var i := 0;
      while i < |asms|
        invariant 0 <= i <= |asms| && fnStarts == old(fnStarts)
        invariant EmitAll(State(), asms[i..]) == EmitAll(old(State()), asms)
      {
        ghost var o := State();
        DropCons(asms, i);
        EmitAppend(o, [asms[i]], asms[i + 1..]);
        Emit(asms[i]);
        i := i + 1;
      }
    }

    /** `into := l`, nothing when it is already there. */
    method EmitGet(into: RegId, l: Loc)
      modifies this
      ensures State() == EmitAll(old(State()), Get(into, l)) && fnStarts == old(fnStarts)
    {
      match l {
        case Reg(r) => if into != PhysId(r) { Emit(MovRR(into, PhysId(r))); }
        case Slot(k) => Emit(Load(into, RBP, SlotDisp(k)));
      }
    }

    method EmitPut(from: RegId, l: Loc)
      modifies this
      ensures State() == EmitAll(old(State()), Put(from, l)) && fnStarts == old(fnStarts)
    {
      match l {
        case Reg(r) => if from != PhysId(r) { Emit(MovRR(PhysId(r), from)); }
        case Slot(k) => Emit(Store(RBP, SlotDisp(k), from));
      }
    }

    /** Stack arguments from number `first` on, last one first. */
    method EmitPushes(loc: Locs, args: seq<VReg>, first: nat)
      requires first <= |args|
      modifies this
      ensures State() == EmitAll(old(State()), PushArgs(loc, args[first..])) && fnStarts == old(fnStarts)
    {
      var i := |args|;
      while i > first
        invariant first <= i <= |args| && fnStarts == old(fnStarts)
        invariant State() == EmitAll(old(State()), PushArgs(loc, args[i..]))
      {
        i := i - 1;
        PushNext(loc, args, i);
        EmitAppend(old(State()), PushArgs(loc, args[i + 1..]), Get(RAX, LocOf(loc, args[i])) + [Push(RAX, false)]);
        EmitAppend(State(), Get(RAX, LocOf(loc, args[i])), [Push(RAX, false)]);
        EmitGet(RAX, LocOf(loc, args[i]));
        Emit(Push(RAX, false));
      }
    }

    /** Register arguments, the first one into `ARG[first]`. */
    /** The next register argument, and those after it. */
    static lemma RegArgsNext(loc: Locs, args: seq<VReg>, i: nat, k: nat)
      requires i < |args| && k < 6
      ensures RegArgs(loc, args[i..], k) == Get(ARG[k], LocOf(loc, args[i])) + RegArgs(loc, args[i + 1..], k + 1)
    {
      hide Get;
      assert args[i..][1..] == args[i + 1..];
    }

    method EmitRegArgs(loc: Locs, args: seq<VReg>, first: nat)
      requires first <= 1
      modifies this
      ensures State() == EmitAll(old(State()), RegArgs(loc, args, first)) && fnStarts == old(fnStarts)
    {
      hide Get, Encode;
      var i := 0;
      while i < |args| && first + i < 6
        invariant 0 <= i <= |args| && first + i <= 6 && fnStarts == old(fnStarts)
        invariant EmitAll(State(), RegArgs(loc, args[i..], first + i)) == EmitAll(old(State()), RegArgs(loc, args, first))
      {
        RegArgsNext(loc, args, i, first + i);
        EmitAppend(State(), Get(ARG[first + i], LocOf(loc, args[i])), RegArgs(loc, args[i + 1..], first + i + 1));
        EmitGet(ARG[first + i], LocOf(loc, args[i]));
        i := i + 1;
      }
      assert RegArgs(loc, args[i..], first + i) == [];
    }

    method EmitPlaceArgs(loc: Locs, args: seq<VReg>)
      modifies this
      ensures State() == EmitAll(old(State()), PlaceArgs(loc, args)) && fnStarts == old(fnStarts)
    {
      EmitAppend(State(), PushArgs(loc, TailArgs(args, 0)), RegArgs(loc, args, 0));
      if |args| > 6 { EmitPushes(loc, args, 6); }
      EmitRegArgs(loc, args, 0);
    }

    method EmitStaticPlace(loc: Locs, takes: bool, args: seq<VReg>)
      modifies this
      ensures State() == EmitAll(old(State()), StaticPlace(loc, takes, args)) && fnStarts == old(fnStarts)
    {
      if takes {
        EmitAppend(State(), [Xor32(RDI)] + RegArgs(loc, args, 1), PushArgs(loc, TailArgs(args, 1)));
        EmitAppend(State(), [Xor32(RDI)], RegArgs(loc, args, 1));
        Emit(Xor32(RDI));
        EmitRegArgs(loc, args, 1);
        if |args| > 5 { EmitPushes(loc, args, 5); }
      } else {
        EmitPlaceArgs(loc, args);
      }
    }

    method EmitCleanup(n: nat)
      modifies this
      ensures State() == EmitAll(old(State()), Cleanup(n)) && fnStarts == old(fnStarts)
    {
      if n > 6 { Emit(AddRsp((n - 6) * 8)); }
    }

    /** A call instruction, the cleanup of its stack arguments, and its result. */
    method EmitCall(loc: Locs, call: Asm, dst: VReg, args: seq<VReg>)
      modifies this
      ensures State() == EmitAll(old(State()), [call] + Cleanup(|args|) + Put(RAX, LocOf(loc, dst))) &&
          fnStarts == old(fnStarts)
    {
      EmitAppend(State(), [call] + Cleanup(|args|), Put(RAX, LocOf(loc, dst)));
      EmitAppend(State(), [call], Cleanup(|args|));
      Emit(call);
      EmitCleanup(|args|);
      EmitPut(RAX, LocOf(loc, dst));
    }

    // ---------- plain instructions ----------

    method EmitConst(dl: Loc, imm: int)
      modifies this
      ensures State() == EmitAll(old(State()), ConstAsm(dl, imm)) && fnStarts == old(fnStarts)
    {
      hide Encode, EmitAll;
      match dl {
        case Reg(r) => if Fits32(imm) { Emit(MovImm(PhysId(r), imm)); } else { Emit(MovAbs(PhysId(r), Wrap(imm))); }
        case Slot(k) =>
          if Fits32(imm) {
            Emit(StoreImm(RBP, SlotDisp(k), imm));
          } else {
            EmitAppend(State(), [MovAbs(RAX, Wrap(imm))], Put(RAX, dl));
            Emit(MovAbs(RAX, Wrap(imm)));
            EmitPut(RAX, dl);
          }
      }
    }

    method EmitMov(dl: Loc, al: Loc)
      modifies this
      ensures State() == EmitAll(old(State()), MovAsm(dl, al)) && fnStarts == old(fnStarts)
    {
      hide Encode, EmitAll;
      match (dl, al) {
        case (Reg(d), Reg(r)) =>
          if d != r {
            Instructions.DistinctIds(d, r);
            Emit(MovRR(PhysId(d), PhysId(r)));
          } else {
            EmitEmpty(State());
          }
        case (Reg(d), Slot(k)) => Emit(Load(PhysId(d), RBP, SlotDisp(k)));
        case (Slot(k), Reg(r)) => Emit(Store(RBP, SlotDisp(k), PhysId(r)));
        case (Slot(kd), Slot(ks)) =>
          EmitAppend(State(), [Load(RAX, RBP, SlotDisp(ks))], [Store(RBP, SlotDisp(kd), RAX)]);
          Emit(Load(RAX, RBP, SlotDisp(ks)));
          Emit(Store(RBP, SlotDisp(kd), RAX));
      }
    }

    method EmitNeg(dl: Loc, al: Loc)
      modifies this
      ensures State() == EmitAll(old(State()), NegAsm(dl, al)) && fnStarts == old(fnStarts)
    {
      hide Encode, EmitAll, Get, Put;
      if dl.Reg? && al.Reg? && dl.phys == al.phys {
        Emit(Asm.Neg(PhysId(dl.phys)));
      } else {
        EmitAppend(State(), Get(RAX, al) + [Asm.Neg(RAX)], Put(RAX, dl));
        EmitAppend(State(), Get(RAX, al), [Asm.Neg(RAX)]);
        EmitGet(RAX, al);
        Emit(Asm.Neg(RAX));
        EmitPut(RAX, dl);
      }
    }

    method EmitShift(dl: Loc, op: BinOp, al: Loc, bl: Loc)
      modifies this
      ensures State() == EmitAll(old(State()), ShiftAsm(dl, op, al, bl)) && fnStarts == old(fnStarts)
    {
      hide Encode, EmitAll, Get, Put;
      var shift := ShiftCl(match op { case Shl => SShl case Shr => SSar case _ => SShr });
      EmitAppend(State(), Get(RAX, al) + Get(RCX, bl) + [shift], Put(RAX, dl));
      EmitAppend(State(), Get(RAX, al) + Get(RCX, bl), [shift]);
      EmitAppend(State(), Get(RAX, al), Get(RCX, bl));
      EmitGet(RAX, al);
      EmitGet(RCX, bl);
      Emit(shift);
      EmitPut(RAX, dl);
    }

    /** `rd op= b`, the register or the memory form. */
    method EmitOperand(op: BinOp, rd: RegId, bl: Loc)
      modifies this
      ensures State() == EmitAll(old(State()), Operand(op, rd, bl)) && fnStarts == old(fnStarts)
    {
      hide Encode, EmitAll;
      match bl {
        case Reg(r) => Emit(Alu(AluOpOf(op), rd, PhysId(r)));
        case Slot(k) => Emit(AluMem(AluOpOf(op), rd, RBP, SlotDisp(k)));
      }
    }

    /** When b lives in the destination register, loading a would destroy it. */
    method EmitAlu(dl: Loc, op: BinOp, al: Loc, bl: Loc)
      modifies this
      ensures State() == EmitAll(old(State()), AluAsm(dl, op, al, bl)) && fnStarts == old(fnStarts)
    {
      hide Encode, EmitAll, Get, Put, Operand;
      match dl {
        case Reg(r) =>
          var inDst := bl.Reg? && bl.phys == r;
          if inDst {
            var last := Alu(AluOpOf(op), PhysId(r), R11);
            EmitAppend(State(), [MovRR(R11, PhysId(r))] + Get(PhysId(r), al), [last]);
            EmitAppend(State(), [MovRR(R11, PhysId(r))], Get(PhysId(r), al));
            Emit(MovRR(R11, PhysId(r)));
            EmitGet(PhysId(r), al);
            Emit(last);
          } else {
            EmitAppend(State(), Get(PhysId(r), al), Operand(op, PhysId(r), bl));
            EmitGet(PhysId(r), al);
            EmitOperand(op, PhysId(r), bl);
          }
        case Slot(_) =>
          EmitAppend(State(), Get(RAX, al) + Operand(op, RAX, bl), Put(RAX, dl));
          EmitAppend(State(), Get(RAX, al), Operand(op, RAX, bl));
          EmitGet(RAX, al);
          EmitOperand(op, RAX, bl);
          EmitPut(RAX, dl);
      }
    }

    method EmitBin(dl: Loc, op: BinOp, al: Loc, bl: Loc)
      modifies this
      ensures State() == EmitAll(old(State()), BinAsm(dl, op, al, bl)) && fnStarts == old(fnStarts)
    {
      hide EmitAll, DivAsm, ShiftAsm, AluAsm;
      if op.Div? || op.Rem? || op.UDiv? || op.URem? {
        EmitDivision(dl, op, al, bl);
      } else if op.Shl? || op.Shr? || op.ShrShr? {
        EmitShift(dl, op, al, bl);
      } else {
        EmitAlu(dl, op, al, bl);
      }
    }

    method EmitCmp(dl: Loc, op: CmpOp, al: Loc, bl: Loc)
      modifies this
      ensures State() == EmitAll(old(State()), CmpAsm(dl, op, al, bl)) && fnStarts == old(fnStarts)
    {
      hide Encode, EmitAll, Get, Put;
      var cc := match op { case Eq => CE case Ne => CNE case Lt => CL case Gt => CG case Le => CLE case Ge => CGE };
      EmitAppend(State(), Get(RAX, al) + CmpOperand(bl) + [SetAl(cc), MovzxAl], Put(RAX, dl));
      EmitAppend(State(), Get(RAX, al) + CmpOperand(bl), [SetAl(cc), MovzxAl]);
      EmitAppend(State(), Get(RAX, al), CmpOperand(bl));
      EmitGet(RAX, al);
      match bl {
        case Reg(r) => Emit(CmpRR(RAX, PhysId(r)));
        case Slot(k) => Emit(CmpMem(RAX, RBP, SlotDisp(k)));
      }
      EmitTwo(SetAl(cc), MovzxAl);
      EmitPut(RAX, dl);
    }

    method EmitTwo(a: Asm, b: Asm)
      modifies this
      ensures State() == EmitAll(old(State()), [a, b]) && fnStarts == old(fnStarts)
    {
      hide Encode, EmitAll;
      assert [a, b] == [a] + [b];
      EmitAppend(State(), [a], [b]);
      Emit(a);
      Emit(b);
    }

    /** A load from `[r10 + off]` into the destination, through rax when it is a slot. */
    method EmitField(dl: Loc, basel: Loc, toReg: Asm, toRax: Asm)
      modifies this
      ensures State() == EmitAll(old(State()),
                Get(R10, basel) + (if dl.Reg? then [toReg] else [toRax] + Put(RAX, dl))) && fnStarts == old(fnStarts)
    {
      hide Encode, EmitAll, Get, Put;
      EmitAppend(State(), Get(R10, basel), if dl.Reg? then [toReg] else [toRax] + Put(RAX, dl));
      EmitGet(R10, basel);
      match dl {
        case Reg(_) => Emit(toReg);
        case Slot(_) =>
          EmitAppend(State(), [toRax], Put(RAX, dl));
          Emit(toRax);
          EmitPut(RAX, dl);
      }
    }

    method EmitLoad(dl: Loc, basel: Loc, off: int)
      modifies this
      ensures State() == EmitAll(old(State()), LoadAsm(dl, basel, off)) && fnStarts == old(fnStarts)
    {
      hide Encode, EmitAll, Get, Put;
      EmitField(dl, basel, Load(if dl.Reg? then PhysId(dl.phys) else RAX, R10, off), Load(RAX, R10, off));
    }

    method EmitLoadByte(dl: Loc, basel: Loc, off: int)
      modifies this
      ensures State() == EmitAll(old(State()), LoadByteAsm(dl, basel, off)) && fnStarts == old(fnStarts)
    {
      hide Encode, EmitAll, Get, Put;
      EmitField(dl, basel, Asm.LoadByte(if dl.Reg? then PhysId(dl.phys) else RAX, R10, off, false),
                Asm.LoadByte(RAX, R10, off, false));
    }

    method EmitStore(basel: Loc, off: int, srcl: Loc)
      modifies this
      ensures State() == EmitAll(old(State()), Get(R10, basel) + Get(R11, srcl) + [Store(R10, off, R11)])
      ensures fnStarts == old(fnStarts)
    {
      hide Encode, EmitAll, Get;
      EmitAppend(State(), Get(R10, basel) + Get(R11, srcl), [Store(R10, off, R11)]);
      EmitAppend(State(), Get(R10, basel), Get(R11, srcl));
      EmitGet(R10, basel);
      EmitGet(R11, srcl);
      Emit(Store(R10, off, R11));
    }

    /** Two addresses and a length, then a loop over them. */
    method EmitLoop(al: Loc, bl: Loc, lenl: Loc, body: seq<Asm>)
      modifies this
      ensures State() == EmitAll(old(State()), Get(R10, al) + Get(R11, bl) + Get(R8, lenl) + body)
      ensures fnStarts == old(fnStarts)
    {
      hide Encode, EmitAll, Get;
      EmitAppend(State(), Get(R10, al) + Get(R11, bl) + Get(R8, lenl), body);
      EmitAppend(State(), Get(R10, al) + Get(R11, bl), Get(R8, lenl));
      EmitAppend(State(), Get(R10, al), Get(R11, bl));
      EmitGet(R10, al);
      EmitGet(R11, bl);
      EmitGet(R8, lenl);
      EmitSeq(body);
    }

    method EmitMemCmp(dl: Loc, al: Loc, bl: Loc, lenl: Loc)
      modifies this
      ensures State() == EmitAll(old(State()), Get(R10, al) + Get(R11, bl) + Get(R8, lenl) + CompareLoop + Put(RAX, dl))
      ensures fnStarts == old(fnStarts)
    {
      hide Encode, EmitAll, Get, Put, CompareLoop;
      EmitAppend(State(), Get(R10, al) + Get(R11, bl) + Get(R8, lenl) + CompareLoop, Put(RAX, dl));
      EmitLoop(al, bl, lenl, CompareLoop);
      EmitPut(RAX, dl);
    }

    method EmitFnAddr(dl: Loc, fidx: nat)
      modifies this
      ensures State() == EmitAll(old(State()), [LeaFn(RCX, fidx)] + Put(RCX, dl)) && fnStarts == old(fnStarts)
    {
      hide Encode, EmitAll, Put;
      EmitAppend(State(), [LeaFn(RCX, fidx)], Put(RCX, dl));
      Emit(LeaFn(RCX, fidx));
      EmitPut(RCX, dl);
    }

    method EmitInstr(loc: Locs, i: Instr)
      modifies this
      ensures State() == EmitAll(old(State()), InstrAsm(loc, recv, i)) && fnStarts == old(fnStarts)
    {
      hide Encode, Enc, PlaceArgs, StaticPlace, Put, Get, Cleanup, EmitAll, BinAsm, DivAsm;
      match i {
        case CallFn(dst, fidx, args) =>
          CallShape(loc, PlaceArgs(loc, args), Asm.CallFn(fidx), dst, |args|);
          EmitAppend(State(), PlaceArgs(loc, args), [Asm.CallFn(fidx)] + Cleanup(|args|) + Put(RAX, LocOf(loc, dst)));
          EmitPlaceArgs(loc, args);
          EmitCall(loc, Asm.CallFn(fidx), dst, args);
        case CallStatic(dst, fidx, args) =>
          var takes := TakesReceiver(recv, fidx);
          CallShape(loc, StaticPlace(loc, takes, args), Asm.CallFn(fidx), dst, |args|);
          EmitAppend(State(), StaticPlace(loc, takes, args), [Asm.CallFn(fidx)] + Cleanup(|args|) + Put(RAX,
              LocOf(loc, dst)));
          EmitStaticPlace(loc, takes, args);
          EmitCall(loc, Asm.CallFn(fidx), dst, args);
        case CallFnAddr(dst, target, args) =>
          CallShape(loc, Get(R11, LocOf(loc, target)) + PlaceArgs(loc, args), CallReg(R11), dst, |args|);
          EmitAppend(State(), Get(R11, LocOf(loc, target)) + PlaceArgs(loc, args),
                     [CallReg(R11)] + Cleanup(|args|) + Put(RAX, LocOf(loc, dst)));
          EmitAppend(State(), Get(R11, LocOf(loc, target)), PlaceArgs(loc, args));
          EmitGet(R11, LocOf(loc, target));
          EmitPlaceArgs(loc, args);
          EmitCall(loc, CallReg(R11), dst, args);
        case _ => EmitOther(loc, i);
      }
    }

    /** Everything but calls. */
    method EmitOther(loc: Locs, i: Instr)
      requires !i.CallFn? && !i.CallStatic? && !i.CallFnAddr?
      modifies this
      ensures State() == EmitAll(old(State()), InstrAsm(loc, recv, i)) && fnStarts == old(fnStarts)
    {
      hide Put, Get, EmitAll, BinAsm, ConstAsm, MovAsm, NegAsm, CmpAsm, LoadAsm, LoadByteAsm, CopyLoop, CompareLoop;
      match i {
        case Const(dst, imm) => EmitConst(LocOf(loc, dst), imm);
        case Mov(dst, a) => EmitMov(LocOf(loc, dst), LocOf(loc, a));
        case Neg(dst, a) => EmitNeg(LocOf(loc, dst), LocOf(loc, a));
        case Bin(dst, op, a, b) => EmitBin(LocOf(loc, dst), op, LocOf(loc, a), LocOf(loc, b));
        case Cmp(dst, op, a, b) => EmitCmp(LocOf(loc, dst), op, LocOf(loc, a), LocOf(loc, b));
        case LoadField(dst, base, off) => EmitLoad(LocOf(loc, dst), LocOf(loc, base), off);
        case LoadByte(dst, base, off) => EmitLoadByte(LocOf(loc, dst), LocOf(loc, base), off);
        case StoreField(base, off, src) => EmitStore(LocOf(loc, base), off, LocOf(loc, src));
        case MemCpy(to, src, len) => EmitLoop(LocOf(loc, to), LocOf(loc, src), LocOf(loc, len), CopyLoop);
        case MemCmp(dst, a, b, len) => EmitMemCmp(LocOf(loc, dst), LocOf(loc, a), LocOf(loc, b), LocOf(loc, len));
        case FnAddr(dst, fidx) => EmitFnAddr(LocOf(loc, dst), fidx);
        case _ => EmitEmpty(State());
      }
    }

    /** A plain instruction: bytes only. */
    method EmitPlain(a: Asm)
      requires !Symbolic(a)
      modifies this`code
      ensures code == old(code) + Encode(a)
    {
      code := code + Encode(a);
    }

    /** The guarded divide, its two short jumps filled in when their targets are known. */
    method EmitDivCore(op: BinOp)
      requires IsDivision(op)
      modifies this`code
      ensures code == old(code) + Enc(DivCore(op))
    {
      hide Encode, Enc;
      var result := if IsRem(op) then RDX else RAX;
      ghost var pre, mid := code, DivideBytes(op);
      JumpPieces();
      ClearPieces();
      DividePieces();
      EmitPlain(Test(R11));
      var jzZero := |code|;
      EmitPlain(Jcc(CE, 0, false));
      assert code == pre + [0x4D, 0x85, 0xDB, 0x74, 0];
      if op.UDiv? || op.URem? {
        EmitPlain(Xor32(RDX));
        EmitPlain(Asm.Div(R11));
      } else {
        EmitPlain(Cqo);
        EmitPlain(IDiv(R11));
      }
      assert code == pre + ([0x4D, 0x85, 0xDB, 0x74, 0] + mid);
      var jmpDone := |code|;
      EmitPlain(Jmp(0, false));
      var zeroAt := |code|;
      assert code == pre + ([0x4D, 0x85, 0xDB, 0x74, 0] + mid + [0xEB, 0]);
      code := code[jzZero + 1 := zeroAt - (jzZero + 2)];
      assert code == pre + ([0x4D, 0x85, 0xDB, 0x74, 7] + mid + [0xEB, 0]);
      EmitPlain(Xor32(result));
      code := code[jmpDone + 1 := |code| - (jmpDone + 2)];
      assert code == pre + DivCoreBytes(op);
      DivBytes(op);
    }

    method EmitDivision(dl: Loc, op: BinOp, al: Loc, bl: Loc)
      requires IsDivision(op)
      modifies this
      ensures State() == EmitAll(old(State()), DivAsm(dl, op, al, bl)) && fnStarts == old(fnStarts)
    {
      hide Encode, Enc, Get, Put, Encode, DivCore, EmitAll;
      var result := if IsRem(op) then RDX else RAX;
      EmitAppend(State(), Get(RAX, al) + Get(R11, bl) + DivCore(op), Put(result, dl));
      EmitAppend(State(), Get(RAX, al) + Get(R11, bl), DivCore(op));
      EmitAppend(State(), Get(RAX, al), Get(R11, bl));
      EmitGet(RAX, al);
      EmitGet(R11, bl);
      DivPlain(op);
      PlainEmit(State(), DivCore(op));
      EmitDivCore(op);
      EmitPut(result, dl);
    }

    // ---------- functions ----------

    method EmitPops(rs: seq<Phys>)
      modifies this
      ensures State() == EmitAll(old(State()), PopSavers(rs)) && fnStarts == old(fnStarts)
    {
      var i := |rs|;
      while i > 0
        invariant 0 <= i <= |rs| && fnStarts == old(fnStarts)
        invariant State() == EmitAll(old(State()), PopSavers(rs[i..]))
      {
        i := i - 1;
        assert rs[i..][1..] == rs[i + 1..];
        EmitAppend(old(State()), PopSavers(rs[i + 1..]), [Pop(PhysId(rs[i]), true)]);
        Emit(Pop(PhysId(rs[i]), true));
      }
      assert rs[0..] == rs;
    }

    method EmitSaves(rs: seq<Phys>)
      modifies this
      ensures State() == EmitAll(old(State()), PushSavers(rs)) && fnStarts == old(fnStarts)
    {
      var i := 0;
      while i < |rs|
        invariant 0 <= i <= |rs| && fnStarts == old(fnStarts)
        invariant EmitAll(State(), PushSavers(rs[i..])) == EmitAll(old(State()), PushSavers(rs))
      {
        assert rs[i..][1..] == rs[i + 1..];
        EmitAppend(State(), [Push(PhysId(rs[i]), true)], PushSavers(rs[i + 1..]));
        Emit(Push(PhysId(rs[i]), true));
        i := i + 1;
      }
    }

    method EmitParams(f: Func, loc: Locs)
      modifies this
      ensures State() == EmitAll(old(State()), ParamsAsm(f, loc, f.arity)) && fnStarts == old(fnStarts)
    {
      hide ParamAsm, Put, LocOf, Enc, EmitAll, Encode;
      EmitEmpty(State());
      if f.receiver { EmitPut(ARG[0], LocOf(loc, 0)); }
      var p := 0;
      while p < f.arity
        invariant 0 <= p <= f.arity && fnStarts == old(fnStarts)
        invariant State() == EmitAll(old(State()), ParamsAsm(f, loc, p))
      {
        EmitAppend(old(State()), ParamsAsm(f, loc, p), ParamAsm(f, loc, p));
        EmitParam(f, loc, p);
        p := p + 1;
      }
    }

    /** Parameter `p` is vreg `p + 1`; it comes in a register or, past the sixth
        argument, on the stack above the return address. */
    method EmitParam(f: Func, loc: Locs, p: nat)
      modifies this
      ensures State() == EmitAll(old(State()), ParamAsm(f, loc, p)) && fnStarts == old(fnStarts)
    {
      hide Encode, EmitAll, Put;
      var idx := p + 1;
      if idx >= |loc| {
        EmitEmpty(State());
        return;
      }
      var disp := None;
      if f.receiver {
        if idx >= 6 { disp := Some(16 + 8 * (idx - 6)); }
      } else {
        if idx >= 7 { disp := Some(16 + 8 * (idx - 7)); }
      }
      match disp {
        case Some(d) =>
          EmitAppend(State(), [Load(RAX, RBP, d)], Put(RAX, loc[idx]));
          Emit(Load(RAX, RBP, d));
          EmitPut(RAX, loc[idx]);
        case None => EmitPut(ARG[(if f.receiver then 1 else 0) + p], loc[idx]);
      }
    }

    method EmitPrologue(f: Func, a: Allocation)
      modifies this
      ensures State() == EmitAll(old(State()), Prologue(f, a)) && fnStarts == old(fnStarts)
    {
      hide Encode, EmitAll, PushSavers, ParamsAsm, Savers;
      var savers := Savers(a);
      var pad := if |savers| % 2 == 0 then 8 else 0;
      var frame := (a.spills * 8 + 15) / 16 * 16 + pad;
      var base := [Push(RBP, false), MovRR(RBP, RSP)];
      EmitAppend(State(), base + Reserve(frame) + PushSavers(savers), ParamsAsm(f, a.loc, f.arity));
      EmitAppend(State(), base + Reserve(frame), PushSavers(savers));
      EmitAppend(State(), base, Reserve(frame));
      EmitTwo(Push(RBP, false), MovRR(RBP, RSP));
      if frame > 0 { Emit(SubRsp(frame)); } else { EmitEmpty(State()); }
      EmitSaves(savers);
      EmitParams(f, a.loc);
    }

    method EmitTerm(a: Allocation, t: Terminator)
      modifies this
      ensures State() == EmitAll(old(State()), TermAsm(a, t)) && fnStarts == old(fnStarts)
    {
      hide Encode, EmitAll, Get, PopSavers, Savers;
      match t {
        case Ret(Some(v)) =>
          EmitAppend(State(), Get(RAX, LocOf(a.loc, v)), Epilogue(a));
          EmitGet(RAX, LocOf(a.loc, v));
          EmitEpilogue(a);
        case Ret(None) =>
          EmitAppend(State(), [MovImmZ(RAX, 0)], Epilogue(a));
          Emit(MovImmZ(RAX, 0));
          EmitEpilogue(a);
        case Exit =>
          assert [MovImmZ(RAX, 231), Xor32(RDI), Syscall] == [MovImmZ(RAX, 231)] + [Xor32(RDI), Syscall];
          EmitAppend(State(), [MovImmZ(RAX, 231)], [Xor32(RDI), Syscall]);
          Emit(MovImmZ(RAX, 231));
          EmitTwo(Xor32(RDI), Syscall);
        case ExitWith(v) =>
          EmitAppend(State(), Get(RDI, LocOf(a.loc, v)), [MovImmZ(RAX, 231), Syscall]);
          EmitGet(RDI, LocOf(a.loc, v));
          EmitTwo(MovImmZ(RAX, 231), Syscall);
        case Branch(None, yes, _) => Emit(JmpTo(yes));
        case Branch(Some(c), yes, no) =>
          EmitAppend(State(), Get(RAX, LocOf(a.loc, c)), [Test(RAX), JnzTo(yes), JmpTo(no)]);
          EmitGet(RAX, LocOf(a.loc, c));
          assert [Test(RAX), JnzTo(yes), JmpTo(no)] == [Test(RAX)] + [JnzTo(yes), JmpTo(no)];
          EmitAppend(State(), [Test(RAX)], [JnzTo(yes), JmpTo(no)]);
          Emit(Test(RAX));
          EmitTwo(JnzTo(yes), JmpTo(no));
        case _ => EmitEmpty(State());
      }
    }

    /** Saved registers popped in reverse, `leave; ret`. */
    method EmitEpilogue(a: Allocation)
      modifies this
      ensures State() == EmitAll(old(State()), Epilogue(a)) && fnStarts == old(fnStarts)
    {
      hide Encode, EmitAll, PopSavers, Savers;
      EmitAppend(State(), PopSavers(Savers(a)), [Leave, Asm.Ret]);
      EmitPops(Savers(a));
      EmitTwo(Leave, Asm.Ret);
    }

    method EmitBlock(a: Allocation, b: Block)
      modifies this
      ensures State() == EmitAll(old(State()), BlockAsm(a, recv, b)) && fnStarts == old(fnStarts)
    {
      var i := 0;
      while i < |b.instrs|
        invariant 0 <= i <= |b.instrs| && fnStarts == old(fnStarts)
        invariant State() == EmitAll(old(State()), InstrsAsm(a.loc, recv, b.instrs[..i]))
      {
        InstrSplit(a.loc, recv, b.instrs, i);
        EmitAppend(old(State()), InstrsAsm(a.loc, recv, b.instrs[..i]), InstrAsm(a.loc, recv, b.instrs[i]));
        EmitInstr(a.loc, b.instrs[i]);
        i := i + 1;
      }
      assert b.instrs[..i] == b.instrs;
      EmitAppend(old(State()), InstrsAsm(a.loc, recv, b.instrs), TermAsm(a, b.term));
      EmitTerm(a, b.term);
    }

    method EmitBlocks(f: Func, a: Allocation) returns (starts: seq<int>)
      modifies this
      ensures State() == EmitAll(old(State()), BlocksAsm(a, recv, f.blocks)) && fnStarts == old(fnStarts)
      ensures starts == StartsOf(f, a, recv, |old(code)| - SizeAll(Prologue(f, a)), |f.blocks|)
    {
      hide BlocksAsm, BlockAsm, Prologue, SizeAll, EmitAll, StartsOf;
      starts := [];
      StartsNone(f, a, recv, |code| - SizeAll(Prologue(f, a)));
      EmitNothing(State(), a, recv, f.blocks);
      var b := 0;
      ghost var at := |code| - SizeAll(Prologue(f, a));
      while b < |f.blocks|
        invariant 0 <= b <= |f.blocks| && fnStarts == old(fnStarts)
        invariant State() == EmitAll(old(State()), BlocksAsm(a, recv, f.blocks[..b]))
        invariant starts == StartsOf(f, a, recv, at, b)
      {
        CodeLength(old(State()), BlocksAsm(a, recv, f.blocks[..b]));
        StartsNext(f, a, recv, at, b);
        starts := starts + [|code|];
        assert f.blocks[..b + 1] == f.blocks[..b] + [f.blocks[b]];
        BlocksAsmAppend(a, recv, f.blocks[..b], [f.blocks[b]]);
        OneBlock(a, recv, f.blocks[b]);
        EmitAppend(old(State()), BlocksAsm(a, recv, f.blocks[..b]), BlockAsm(a, recv, f.blocks[b]));
        EmitBlock(a, f.blocks[b]);
        b := b + 1;
      }
      assert f.blocks[..b] == f.blocks;
    }

    /** Fill the branch fields of the function laid out as `asms` after `pre`. */
    method FillJumps(ghost pre: Bytes, ghost asms: seq<Asm>, starts: seq<int>)
      requires code == pre + Enc(asms) && jumps == Fixups(asms, |pre|, Jumps)
      requires AllTargeted(asms, Jumps, Ctx([], starts))
      modifies this`code, this`jumps
      ensures code == pre + Enc(SettleAll(asms, |pre|, Jumps, Ctx([], starts))) && jumps == []
    {
      hide Enc, Settle, SettleAll, LeBytes, Overwrite, FieldBytes, Fixups, AllTargeted;
      ghost var ctx := Ctx([], starts);
      var n := 0;
      SettleNone(asms, |pre|, Jumps, ctx);
      assert pre + Enc(asms) + [] == pre + Enc(asms);
      while n < |jumps|
        invariant 0 <= n <= |jumps| && jumps == old(jumps)
        invariant code == pre + Enc(Settle(asms, |pre|, Jumps, ctx, n)) + []
      {
        PatchNext(asms, pre, [], 0, Jumps, ctx, n);
        var fx := jumps[n];
        JumpBytes(fx.site, fx.target, starts);
        code := Overwrite(code, fx.site, LeBytes(starts[fx.target] - (fx.site + 4), 4));
        n := n + 1;
      }
      SettledAll(asms, |pre|, |pre|, Jumps, ctx, n);
      jumps := [];
    }

    /** Prologue, then blocks. */
    method LayOut(f: Func, a: Allocation) returns (starts: seq<int>)
      modifies this
      ensures State() == EmitAll(old(State()), FnAsm(f, a, recv)) && fnStarts == old(fnStarts)
      ensures starts == StartsOf(f, a, recv, |old(code)|, |f.blocks|)
    {
      hide Enc, StartsOf, Prologue, BlocksAsm, EmitAll, SizeAll;
      CodeLength(State(), Prologue(f, a));
      EmitAppend(State(), Prologue(f, a), BlocksAsm(a, recv, f.blocks));
      EmitPrologue(f, a);
      starts := EmitBlocks(f, a);
    }

    /** Allocate, lay out, fill the branches. Calls and addresses stay open. */
    method EmitFunction(f: Func) returns (a: Allocation)
      requires WellFormed(f) && Compact(f, |recv|)
      modifies this
      ensures AllocationOf(f, a) && fnStarts == old(fnStarts) + [|old(code)|] && jumps == []
      ensures code == old(code) + Enc(SettleAll(FnAsm(f, a, recv), |old(code)|, Jumps,
                                                Ctx([], StartsOf(f, a, recv, |old(code)|, |f.blocks|))))
      ensures callSites == old(callSites) + Fixups(FnAsm(f, a, recv), |old(code)|, Calls)
      ensures relocs == old(relocs) + Fixups(FnAsm(f, a, recv), |old(code)|, Addrs)
    {
      hide Enc, SettleAll, Fixups, StartsOf, FnAsm, AllTargeted, EmitAll, AllocationOf, WellFormed, Compact, Homes;
      jumps := [];
      ghost var o := State();
      a := Allocate(f);
      fnStarts := fnStarts + [|code|];
      var starts := LayOut(f, a);
      EmitIs(o, FnAsm(f, a, recv));
      assert [] + Fixups(FnAsm(f, a, recv), |o.code|, Jumps) == Fixups(FnAsm(f, a, recv), |o.code|, Jumps);
      BranchesExist(f, a, recv, |o.code|);
      FillJumps(o.code, FnAsm(f, a, recv), starts);
    }
  }

  lemma BranchesExist(f: Func, a: Allocation, recv: seq<bool>, at: int)
    requires WellFormed(f) && Compact(f, |recv|) && AllocationOf(f, a)
    ensures AllTargeted(FnAsm(f, a, recv), Jumps, Ctx([], StartsOf(f, a, recv, at, |f.blocks|)))
  {
    hide FnAsm, AllocationOf, WellFormed, Compact, BlockOff;
    GoodFunction(f, a, recv, |recv|);
    var asms := FnAsm(f, a, recv);
    forall i | 0 <= i < |asms| && KindOf(asms[i]) == Some(Jumps)
      ensures TargetOf(asms[i]) < |f.blocks|
    {
      assert Good(asms[i], |f.blocks|, |recv|);
    }
  }

  lemma EmitEmpty(o: Out)
    ensures EmitAll(o, []) == o
  {
  }

  lemma StartsNone(f: Func, a: Allocation, recv: seq<bool>, at: int)
    ensures StartsOf(f, a, recv, at, 0) == []
  {
  }

  lemma StartsNext(f: Func, a: Allocation, recv: seq<bool>, at: int, n: nat)
    requires n < |f.blocks|
    ensures StartsOf(f, a, recv, at, n + 1)
         == StartsOf(f, a, recv, at, n) + [at + SizeAll(Prologue(f, a)) + SizeAll(BlocksAsm(a, recv, f.blocks[..n]))]
  {
    hide SizeAll, BlocksAsm, Prologue;
  }

  lemma EmitNothing(o: Out, a: Allocation, recv: seq<bool>, bs: seq<Block>)
    ensures EmitAll(o, BlocksAsm(a, recv, bs[..0])) == o
  {
  }

  lemma JumpBytes(site: nat, target: nat, starts: seq<int>)
    requires target < |starts|
    ensures FieldBytes(Jumps, 0 + site, target, Ctx([], starts)) == LeBytes(starts[target] - (site + 4), 4)
  {
  }

  lemma CodeLength(o: Out, asms: seq<Asm>)
    ensures |EmitAll(o, asms).code| == |o.code| + SizeAll(asms)
  {
    EmitIs(o, asms);
    EncSize(asms);
  }

  lemma OneBlock(a: Allocation, recv: seq<bool>, b: Block)
    ensures BlocksAsm(a, recv, [b]) == BlockAsm(a, recv, b)
  {
    assert [b][1..] == [];
  }

  function DivideBytes(op: BinOp): Bytes {
    if op.UDiv? || op.URem? then [0x31, 0xD2, 0x49, 0xF7, 0xF3] else [0x48, 0x99, 0x49, 0xF7, 0xFB]
  }

  function DivCoreBytes(op: BinOp): Bytes {
    [0x4D, 0x85, 0xDB, 0x74, 7] + DivideBytes(op) + [0xEB, 2, 0x31, if IsRem(op) then 0xD2 else 0xC0]
  }

  lemma EncOne(a: Asm)
    ensures Enc([a]) == Encode(a)
  {
    assert [a][1..] == [] && Encode(a) + [] == Encode(a);
  }

  lemma EncPair(a: Asm, b: Asm)
    ensures Enc([a, b]) == Encode(a) + Encode(b)
  {
    assert [a, b][1..] == [b];
    EncOne(b);
  }

  lemma ShortBytes(x: Byte)
    ensures LeBytes(x, 1) == [x]
  {
    assert LeBytes(x / 256, 0) == [];
  }

  lemma JumpPieces()
    ensures Encode(Jcc(CE, 0, false)) == [0x74, 0] && Encode(Jcc(CE, 7, false)) == [0x74, 7]
    ensures Encode(Jmp(0, false)) == [0xEB, 0] && Encode(Jmp(2, false)) == [0xEB, 2]
  {
    hide LeBytes;
    ShortBytes(0);
    ShortBytes(2);
    ShortBytes(7);
  }

  lemma ClearPieces()
    ensures Encode(Xor32(RDX)) == [0x31, 0xD2] && Encode(Xor32(RAX)) == [0x31, 0xC0] && Encode(Cqo) == [0x48, 0x99]
  {
  }

  lemma DividePieces()
    ensures Encode(Test(R11)) == [0x4D, 0x85, 0xDB]
    ensures Encode(Asm.Div(R11)) == [0x49, 0xF7, 0xF3] && Encode(IDiv(R11)) == [0x49, 0xF7, 0xFB]
  {
  }

  lemma DivPlain(op: BinOp)
    requires IsDivision(op)
    ensures forall i :: 0 <= i < |DivCore(op)| ==> !Symbolic(DivCore(op)[i])
  {
  }

  lemma DivBytes(op: BinOp)
    requires IsDivision(op)
    ensures Enc(DivCore(op)) == DivCoreBytes(op)
  {
    hide Encode, Enc;
    JumpPieces();
    ClearPieces();
    DividePieces();
    var core := if op.UDiv? || op.URem? then [Xor32(RDX), Asm.Div(R11)] else [Cqo, IDiv(R11)];
    var last := Xor32(if IsRem(op) then RDX else RAX);
    EncAppend([Test(R11), Jcc(CE, 7, false)] + core, [Jmp(2, false), last]);
    EncAppend([Test(R11), Jcc(CE, 7, false)], core);
    EncPair(Test(R11), Jcc(CE, 7, false));
    EncPair(core[0], core[1]);
    EncPair(Jmp(2, false), last);
  }

  /** Code without placeholders only grows the buffer. */
  lemma {:induction false} PlainEmit(o: Out, asms: seq<Asm>)
    requires forall i :: 0 <= i < |asms| ==> !Symbolic(asms[i])
    ensures EmitAll(o, asms) == o.(code := o.code + Enc(asms))
    decreases |asms|
  {
    if asms == [] {
      assert o.code + [] == o.code;
    } else {
      PlainEmit(Emit1(o, asms[0]), asms[1..]);
      Assoc(o.code, Encode(asms[0]), Enc(asms[1..]));
      assert Emit1(o, asms[0]) == o.(code := o.code + Encode(asms[0]));
    }
  }

  lemma CallShape(loc: Locs, place: seq<Asm>, call: Asm, dst: VReg, n: nat)
    ensures place + [call] + Cleanup(n) + Put(RAX, LocOf(loc, dst)) == place + ([call] + Cleanup(n) + Put(RAX,
        LocOf(loc, dst)))
  {
  }
}
