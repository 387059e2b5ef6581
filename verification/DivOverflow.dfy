/** The one division the emitted code does not complete: the smallest integer
    by -1. */
module DivOverflow {
  import opened Ir
  import opened Words
  import IrSemantics
  import opened Locations
  import opened Machine
  import opened Emission
  import opened Execution
  import opened Instructions
  import opened Relation
  import opened Simulation

  /** A signed division whose quotient is 2^63. */
  predicate Overflows(op: BinOp, a: Word, b: Word) { (op.Div? || op.Rem?) && a == B63 && b == B64 - 1 }

  ghost predicate Faults(code: Code, m: M) { exists n: nat :: Steps(code, m, n) == Fault }

  lemma {:induction false} FaultStays(code: Code, m: M, k: nat, n: nat)
    requires Steps(code, m, k) == Fault && k <= n
    ensures Steps(code, m, n) == Fault
    decreases k
  {
    hide Step;
    if k > 0 && Step(code, m).Go? { FaultStays(code, Step(code, m).m, k - 1, n - 1); }
  }

  /** The dividend rdx:rax is -2^63, and 2^63 does not fit. */
  lemma IDivFaults(m: M)
    requires m.regs[RAX] == B63 && m.regs[RDX] == B64 - 1
    ensures ExecIDiv(m, B64 - 1) == Fault
  {
    assert Signed(B64 - 1) == -1 && Signed(B64 - 1) * B64 + B63 == -B63;
    assert TruncDiv(-B63, -1) == B63;
  }

  /** The states of an overflowing division: test, jump not taken, sign extension, fault. */
  lemma OverflowSteps(code: Code, m: M, op: BinOp)
    requires DivAt(code, m.rip, op) && Overflows(op, m.regs[RAX], m.regs[R11])
    ensures Steps(code, m, 4) == Fault
    ensures forall n: nat :: n < 4 ==> Steps(code, m, n).Go? && Steps(code, m, n).m.rip <= m.rip + 7
  {
    hide Exec, DivAt;
    DivParts(code, m.rip, op);
    var m1 := Past(m, 3).(flags := Some(Flags(false, true, false)));
    var m2 := Past(m1, 2);
    var m3 := Past(m2, 2).(regs := m.regs[RDX := B64 - 1]);
    FirstSteps(code, m, m1, m2, m3);
    IDivFaults(Past(m3, 3));
    assert Step(code, m3) == Fault by { FaultStep(code, m3); }
    assert Steps(code, m3, 1) == Fault;
    assert Steps(code, m3, 0) == Go(m3);
    assert Steps(code, m2, 1) == Go(m3) && Steps(code, m2, 2) == Fault;
    assert Steps(code, m1, 1) == Go(m2) && Steps(code, m1, 2) == Go(m3) && Steps(code, m1, 3) == Fault;
    assert Steps(code, m, 1) == Go(m1) && Steps(code, m, 2) == Go(m2) && Steps(code, m, 3) == Go(m3);
  }

  lemma DivParts(code: Code, at: int, op: BinOp)
    requires DivAt(code, at, op) && (op.Div? || op.Rem?)
    ensures Sits(code, at, Test(R11)) && Sits(code, at + 3, Jcc(CE, 7, false)) && Sits(code, at + 5, Cqo)
    ensures Sits(code, at + 7, IDiv(R11))
  {
  }

  lemma FirstSteps(code: Code, m: M, m1: M, m2: M, m3: M)
    requires Sits(code, m.rip, Test(R11)) && Sits(code, m.rip + 3, Jcc(CE, 7, false)) && Sits(code, m.rip + 5, Cqo)
    requires m.regs[RAX] == B63 && m.regs[R11] == B64 - 1
    requires m1 == Past(m, 3).(flags := Some(Flags(false, true, false))) && m2 == Past(m1, 2)
    requires m3 == Past(m2, 2).(regs := m.regs[RDX := B64 - 1])
    ensures Step(code, m) == Go(m1) && Step(code, m1) == Go(m2) && Step(code, m2) == Go(m3)
  {
  }

  lemma FaultStep(code: Code, m: M)
    requires Sits(code, m.rip, IDiv(R11)) && ExecIDiv(Past(m, 3), m.regs[R11]) == Fault
    ensures Step(code, m) == Fault
  {
  }

  /** The guarded divide runs to its end exactly when it does not overflow, and
      otherwise faults in its fourth instruction. */
  lemma DivCoreExactly(code: Code, m: M, op: BinOp)
    requires IsDivision(op) && DivAt(code, m.rip, op)
    ensures (exists m' :: ScratchRun(code, m, m', 14)) <==> !Overflows(op, m.regs[RAX], m.regs[R11])
    ensures Overflows(op, m.regs[RAX], m.regs[R11]) ==> Steps(code, m, 4) == Fault
  {
    hide DivAt, Steps, Step, IrSemantics.Divide, ScratchRun;
    if Overflows(op, m.regs[RAX], m.regs[R11]) {
      OverflowSteps(code, m, op);
      forall m' | ScratchRun(code, m, m', 14)
        ensures false
      {
        NeverThere(code, m, m');
      }
    } else {
      Divides(op, m.regs[RAX], m.regs[R11]);
      var m' := RunDivCore(code, m, op);
    }
  }

  lemma Divides(op: BinOp, a: Word, b: Word)
    requires IsDivision(op)
    ensures IrSemantics.Divide(op, a, b) == None <==> Overflows(op, a, b)
  {
  }

  lemma NeverThere(code: Code, m: M, m': M)
    requires Steps(code, m, 4) == Fault
    requires forall n: nat :: n < 4 ==> Steps(code, m, n).Go? && Steps(code, m, n).m.rip <= m.rip + 7
    ensures !ScratchRun(code, m, m', 14)
  {
    hide Steps;
    forall n: nat | Steps(code, m, n) == Go(m')
      ensures m'.rip <= m.rip + 7
    {
      if n >= 4 { FaultStays(code, m, 4, n); }
    }
  }

  /** Where the program is stuck on a division, the code faults. */
  lemma StuckDivisionFaults(w: World, fs: seq<Frame>, h: Heap, m: M, d: VReg, op: BinOp, a: VReg, b: VReg)
    requires Here(w, fs, h, m, Bin(d, op, a, b)) && a in Env(fs) && b in Env(fs)
    requires IrSemantics.EvalBin(op, Env(fs)[a], Env(fs)[b]) == None
    ensures Overflows(op, Env(fs)[a], Env(fs)[b]) && Faults(w.code, m)
  {
    hide CodeAt, SizeAll, Related, Ready, HomeOk, DivAt, Steps, IrSemantics.Divide, Star;
    var i, ctx := Bin(d, op, a, b), CtxOf(w, IrSemantics.Top(fs).fidx);
    Divides(op, Env(fs)[a], Env(fs)[b]);
    CodeIsHere(w, fs, h, m, i);
    OperandIsHome(w, fs, h, m, i, a);
    OperandIsHome(w, fs, h, m, i, b);
    var al, bl := L(w, fs, a), L(w, fs, b);
    DivisionPart(AllocOf(w, IrSemantics.Top(fs)).loc, RecvOf(w.p), d, op, a, b);
    var core, put := DivCore(op), Put(DivResult(op), L(w, fs, d));
    Split3(w.code, m.rip, Get(RAX, al) + Get(R11, bl), core, put, ctx);
    var m2 := LoadOperands(w.code, ctx, m, al, bl);
    DivLayout(w.code, m2.rip, op, ctx);
    OverflowSteps(w.code, m2, op);
    StarFault(w.code, m, m2);
  }

  lemma DivisionPart(loc: Locs, recv: seq<bool>, d: VReg, op: BinOp, a: VReg, b: VReg)
    requires IsDivision(op)
    ensures InstrAsm(loc, recv, Bin(d, op, a, b))
         == Get(RAX, LocOf(loc, a)) + Get(R11, LocOf(loc, b)) + DivCore(op) + Put(DivResult(op), LocOf(loc, d))
  {
  }

  lemma LoadOperands(code: Code, ctx: Ctx, m: M, al: Loc, bl: Loc) returns (m2: M)
    requires CodeAt(code, m.rip, Get(RAX, al) + Get(R11, bl), ctx) && HomeOk(m, al) && HomeOk(m, bl)
    ensures Star(code, m, m2) && m2.rip == m.rip + SizeAll(Get(RAX, al) + Get(R11, bl))
    ensures m2.regs[RAX] == Home(m, al) && m2.regs[R11] == Home(m, bl)
  {
    hide CodeAt, SizeAll, Star;
    Split2(code, m.rip, Get(RAX, al), Get(R11, bl), ctx);
    NoRun(code, m);
    var m1 := ThenGet(code, ctx, m, m, 0, RAX, al);
    m2 := ThenGet(code, ctx, m, m1, SizeAll(Get(RAX, al)), R11, bl);
  }

  lemma StarFault(code: Code, m: M, m2: M)
    requires Star(code, m, m2) && Steps(code, m2, 4) == Fault
    ensures Faults(code, m)
  {
    hide Steps;
    var n: nat :| Steps(code, m, n) == Go(m2);
    StepsAdd(code, m, m2, n, 4);
  }
}
