/** What a call does to rsp, run on the machine, and what follows where pushes and
    pops do not match: the epilogue pops each saved register one word too low. */
module CallShift {
  import opened Ir
  import opened Words
  import IrSemantics
  import opened Locations
  import opened Machine
  import opened Emission
  import opened Execution
  import opened Instructions
  import opened Frames
  import opened Relation
  import opened Preservation
  import opened ControlFlow
  import opened Calls
  import opened Entry
  import opened Correctness

  // ---------- a call, up to its callee ----------

  function Takes(recv: seq<bool>, i: Instr): bool
    requires IrSemantics.IsCall(i)
  {
    i.CallStatic? && TakesReceiver(recv, i.fidx)
  }

  /** The registers, homes and room a call of any of the three kinds finds. */
  ghost predicate Callable(m: M, loc: Locs, recv: seq<bool>, i: Instr, ws: seq<Word>, x: Word)
    requires IrSemantics.IsCall(i)
  {
    && Waiting(m, loc, i.args, ws) && PushRoom(m, PushedWords(recv, i) + 1)
    && (i.CallFnAddr? ==> HomeHolds(m, LocOf(loc, i.target), x))
    && HomeOk(m, LocOf(loc, i.dst)) && AboveSp(m, LocOf(loc, i.dst))
  }

  /** `m1` is `m` with `n` words pushed, callee-saved registers untouched. */
  ghost predicate Lowered(m: M, m1: M, n: nat) {
    && m.regs[RSP] >= 8 * n && m1.regs[RSP] == m.regs[RSP] - 8 * n && SamePool(m.regs, m1.regs)
    && m1.stack.Keys == m.stack.Keys && SameAbove(m.stack, m1.stack, m.regs[RSP]) && m1.heap == m.heap
  }

  /** The arguments of any call are placed, and the words it pushes are exactly `PushedWords`. */
  lemma PlacesArgs(code: Code, ctx: Ctx, m: M, loc: Locs, recv: seq<bool>, i: Instr, ws: seq<Word>, x: Word) returns (m1: M)
    requires IrSemantics.IsCall(i) && Callable(m, loc, recv, i, ws, x)
    requires CodeAt(code, m.rip, CallPlace(loc, recv, i), ctx)
    ensures Star(code, m, m1) && m1.rip == m.rip + SizeAll(CallPlace(loc, recv, i))
    ensures Lowered(m, m1, PushedWords(recv, i)) && ArgsAt(m1, m1.regs[RSP], if Takes(recv, i) then [0] + ws else ws)
    ensures i.CallFnAddr? ==> m1.regs[R11] == x
  {
    hide CodeAt, SizeAll, Star, Waiting, Cells, HomeHolds, HomeOk, ArgsAt, StaticPlace, PlaceArgs, Get;
    WaitingSize(m, loc, i.args, ws);
    RoomLess(m, PushedWords(recv, i));
    if i.CallFnAddr? {
      var m0;
      m0, m1 := FetchAndPlace(code, ctx, m, loc, LocOf(loc, i.target), x, i.args, ws);
      PoolAgrees(m0, m);
    } else if Takes(recv, i) {
      m1 := StaticRuns(code, ctx, m, loc, i.args, ws);
    } else {
      assert CallPlace(loc, recv, i) == PlaceArgs(loc, i.args) by { PlainPlace(loc, recv, i); }
      m1 := PlaceRuns(code, ctx, m, loc, i.args, ws);
    }
  }

  lemma PlainPlace(loc: Locs, recv: seq<bool>, i: Instr)
    requires IrSemantics.IsCall(i) && !i.CallFnAddr? && !Takes(recv, i)
    ensures CallPlace(loc, recv, i) == PlaceArgs(loc, i.args)
  {
  }

  lemma PoolAgrees(a: M, b: M)
    requires Agree(a, b)
    ensures a.regs[RSP] == b.regs[RSP] && SamePool(a.regs, b.regs) && a.stack == b.stack
  {
    assert !Scratch(RSP) && !Scratch(RBP);
    forall p: Phys
      ensures a.regs[PhysId(p)] == b.regs[PhysId(p)]
    {
      PhysFacts(p);
    }
  }

  /** The call itself: the callee starts with its return address on the stack. */
  lemma ReachesCallee(code: Code, ctx: Ctx, m: M, loc: Locs, recv: seq<bool>, i: Instr, ws: seq<Word>, x: Word, target: int)
    returns (m1: M, m2: M)
    requires IrSemantics.IsCall(i) && Callable(m, loc, recv, i, ws, x)
    requires CodeAt(code, m.rip, CallHead(loc, recv, i), ctx) && 0 <= m.rip < m.rip + SizeAll(CallHead(loc, recv, i)) < B64
    requires if i.CallFnAddr? then target == x else i.fidx < |ctx.fn| && target == ctx.fn[i.fidx]
    ensures Star(code, m, m2) && Lowered(m, m1, PushedWords(recv, i))
    ensures ArgsAt(m1, m1.regs[RSP], if Takes(recv, i) then [0] + ws else ws)
    ensures Called(m1, m2, target, m.rip + SizeAll(CallHead(loc, recv, i))) && m1.regs[RSP] - 8 in m1.stack
  {
    hide CodeAt, SizeAll, Star, Plus, ArgsAt, CallPlace, CallHead, Lowered, Callable, PushedWords, Takes, Called;
    HeadIs(loc, recv, i);
    Split2(code, m.rip, CallPlace(loc, recv, i), [CallAsm(i)], ctx);
    One(CallAsm(i));
    m1 := PlacesArgs(code, ctx, m, loc, recv, i, ws, x);
    RoomToReturn(m, m1, loc, recv, i, ws, x);
    m2 := CallRuns(code, ctx, m1, CallAsm(i), target);
    StarPlus(code, m, m1, m2);
    PlusIsStar(code, m, m2);
  }

  /** A word is left for the return address. */
  lemma RoomToReturn(m: M, m1: M, loc: Locs, recv: seq<bool>, i: Instr, ws: seq<Word>, x: Word)
    requires IrSemantics.IsCall(i) && Callable(m, loc, recv, i, ws, x) && Lowered(m, m1, PushedWords(recv, i))
    ensures m1.regs[RSP] >= 8 && m1.regs[RSP] - 8 in m1.stack
  {
    hide Waiting, HomeHolds, HomeOk, SamePool, SameAbove, PushedWords;
    assert (m.regs[RSP] - 8 * (PushedWords(recv, i) + 1)) % 8 == 0;
  }

  lemma HeadIs(loc: Locs, recv: seq<bool>, i: Instr)
    requires IrSemantics.IsCall(i)
    ensures CallHead(loc, recv, i) == CallPlace(loc, recv, i) + [CallAsm(i)]
  {
  }

  // ---------- ... and after it ----------

  /** `v` is what a callee that keeps the calling convention returns to: `m1` is the
      machine before the call instruction. */
  ghost predicate Kept(m1: M, v: M, back: int) {
    && v.rip == back && v.regs[RSP] == m1.regs[RSP] && SamePool(m1.regs, v.regs)
    && SameAbove(m1.stack, v.stack, m1.regs[RSP])
  }

  /** After the whole call rsp is where it was exactly when the call is not a
      receiver-taking static call with more than five arguments; there it is left
      one word lower. */
  lemma CallBalance(code: Code, ctx: Ctx, m: M, loc: Locs, recv: seq<bool>, i: Instr, ws: seq<Word>, x: Word,
                    m1: M, v: M, back: int) returns (m': M)
    requires IrSemantics.IsCall(i) && Callable(m, loc, recv, i, ws, x) && Lowered(m, m1, PushedWords(recv, i))
    requires Kept(m1, v, back) && CodeAt(code, back, CallTail(loc, i), ctx)
    ensures Star(code, v, m') && m'.rip == back + SizeAll(CallTail(loc, i))
    ensures m'.regs[RSP] == m.regs[RSP] <==> !(Takes(recv, i) && |i.args| > 5)
    ensures Takes(recv, i) && |i.args| > 5 ==> m'.regs[RSP] == m.regs[RSP] - 8
    ensures Agree(m', SetHome(v.(regs := v.regs[RSP := m'.regs[RSP]]), LocOf(loc, i.dst), v.regs[RAX]))
  {
    hide CodeAt, SizeAll, Star, Plus, Waiting, PushRoom, HomeHolds, SameAbove, Cleanup, Put;
    var l := LocOf(loc, i.dst);
    Split2(code, back, Cleanup(|i.args|), Put(RAX, l), ctx);
    WordsBalance(recv, i);
    var v1 := CleanupRuns(code, ctx, v, i);
    DestinationOk(m, m1, v1, l);
    m' := RunPut(code, ctx, v1, RAX, l);
    StarTrans(code, v, v1, m');
    ShiftKept(v, v1, m', l);
  }

  lemma DestinationOk(m: M, m1: M, v: M, l: Loc)
    requires HomeOk(m, l) && AboveSp(m, l) && v.regs[RBP] == m.regs[RBP]
    requires m1.regs[RSP] <= m.regs[RSP] && SameAbove(m.stack, m1.stack, m.regs[RSP])
    requires SameAbove(m1.stack, v.stack, m1.regs[RSP])
    ensures HomeOk(v, l)
  {
  }

  lemma ShiftKept(v: M, v1: M, m': M, l: Loc)
    requires v1.regs == v.regs[RSP := v1.regs[RSP]] && v1.stack == v.stack && v1.heap == v.heap
    requires Agree(m', SetHome(v1, l, v1.regs[RAX])) && HomeOk(v1, l)
    ensures m'.regs[RSP] == v1.regs[RSP]
    ensures Agree(m', SetHome(v.(regs := v.regs[RSP := m'.regs[RSP]]), l, v.regs[RAX]))
  {
    assert !Scratch(RSP);
    if l.Reg? { PhysFacts(l.phys); }
  }

  // ---------- the epilogue one word too low ----------

  lemma {:induction false} RestoredAt(regs: Regs, s: Stack, base: int, rs: seq<Phys>, j: nat)
    requires Distinct(rs) && j < |rs|
    ensures Restored(regs, s, base, rs)[PhysId(rs[j])] == Cell(s, base - 8 * (j + 1))
    decreases |rs|
  {
    if j > 0 {
      assert rs[1..][j - 1] == rs[j] && rs[j] in rs[1..];
      DistinctIds(rs[0], rs[j]);
      RestoredAt(regs, s, base - 8, rs[1..], j - 1);
    }
  }

  lemma {:induction false} SavedAt(s: Stack, regs: Regs, base: int, rs: seq<Phys>, j: nat)
    requires j < |rs|
    ensures Cell(Saved(s, regs, base, rs), base - 8 * (j + 1)) == regs[PhysId(rs[j])]
    decreases |rs|
  {
    var s1 := s[base - 8 := regs[PhysId(rs[0])]];
    if j == 0 {
      SavedCell(s1, regs, base - 8, rs[1..], base - 8);
    } else {
      SavedAt(s1, regs, base - 8, rs[1..], j - 1);
    }
  }

  /** Popping from one word too low gives each register the value saved for its
      successor, and the last one the stray word. */
  lemma ShiftedSavers(regs: Regs, regs0: Regs, s: Stack, s': Stack, base: int, rs: seq<Phys>, j: nat)
    requires Distinct(rs) && j < |rs|
    requires forall a :: base - 8 * |rs| <= a < base ==> Cell(s', a) == Cell(Saved(s, regs0, base, rs), a)
    ensures Restored(regs, s', base - 8, rs)[PhysId(rs[j])]
         == if j + 1 < |rs| then regs0[PhysId(rs[j + 1])] else Cell(s', base - 8 * |rs| - 8)
  {
    RestoredAt(regs, s', base - 8, rs, j);
    if j + 1 < |rs| { SavedAt(s, regs0, base, rs, j + 1); }
  }

  /** The epilogue of a function whose rsp is one word too low: rbp and the return
      address come from the frame pointer and are right, the saved registers are not. */
  lemma ShiftedEpilogue(code: Code, ctx: Ctx, a: Allocation, m: M, top: int) returns (m': M)
    requires CodeAt(code, m.rip, Epilogue(a), ctx) && top % 8 == 0 && top < B64
    requires m.regs[RBP] == top - 16 && m.regs[RSP] == top - 16 - FrameBytes(a) - 8 * |Savers(a)| - 8
    requires Cells(m.stack, m.regs[RSP], top)
    ensures Star(code, m, m') && m'.rip == Cell(m.stack, top - 8) && m'.stack == m.stack && m'.heap == m.heap
    ensures m'.regs == Restored(m.regs, m.stack, top - 16 - FrameBytes(a) - 8, Savers(a))
                         [RSP := top][RBP := Cell(m.stack, top - 16)]
  {
    hide CodeAt, SizeAll, Star, Plus, Savers, FrameBytes, Restored;
    var rs, low := Savers(a), top - 16 - FrameBytes(a) - 8;
    FrameBytesFit(a);
    assert [Leave, Asm.Ret] == [Leave] + [Asm.Ret];
    Split2(code, m.rip, PopSavers(rs), [Leave] + [Asm.Ret], ctx);
    var m1 := RunPopSavers(code, ctx, m, low, rs);
    SaversFacts(rs, m.regs, m.stack, low);
    m' := LeaveRet(code, ctx, m1, top - 16);
    PlusIsStar(code, m1, m');
    StarTrans(code, m, m1, m');
    var r := Restored(m.regs, m.stack, low, rs);
    assert r[RSP := low][RSP := top] == r[RSP := top];
  }
}
