/** Calls: arguments into registers and onto the stack, the call itself, and the
    callee's prologue up to its first instruction. */
module Calls {
  import opened Ir
  import opened Words
  import opened Locations
  import opened Machine
  import opened Emission
  import opened Execution
  import opened Instructions
  import opened Frames
  import opened Relation
  import opened Preservation

  // ---------- arguments in place ----------

  predicate AboveSp(m: M, l: Loc) { l.Slot? ==> m.regs[RSP] <= HomeAddr(m, l.k) }

  /** The homes of `vs` hold `ws`, none of them below rsp. */
  ghost predicate Waiting(m: M, loc: Locs, vs: seq<VReg>, ws: seq<Word>) {
    |vs| == |ws| &&
    forall j :: 0 <= j < |vs| ==> HomeHolds(m, LocOf(loc, vs[j]), ws[j]) && AboveSp(m, LocOf(loc, vs[j]))
  }

  predicate HasWord(s: Stack, a: int, x: Word) { a in s && s[a] == x }

  /** Consecutive stack words from `sp` up. */
  ghost predicate Stacked(s: Stack, sp: int, ws: seq<Word>) { forall j: nat :: j < |ws| ==> StackedAt(s, sp, ws, j) }

  predicate StackedAt(s: Stack, sp: int, ws: seq<Word>, j: nat)
    requires j < |ws|
  {
    HasWord(s, sp + 8 * j, ws[j])
  }

  lemma StackedCons(s: Stack, s': Stack, sp: int, ws: seq<Word>)
    requires ws != [] && Stacked(s, sp, ws[1..]) && s' == s[sp - 8 := ws[0]]
    ensures Stacked(s', sp - 8, ws)
  {
    var low := sp - 8;
    forall j: nat | j < |ws|
      ensures StackedAt(s', low, ws, j)
    {
      if j > 0 { assert StackedAt(s, sp, ws[1..], j - 1); }
    }
  }

  /** Room for `n` more words below rsp. */
  ghost predicate PushRoom(m: M, n: nat) {
    m.regs[RSP] >= 8 * n && m.regs[RSP] % 8 == 0 && Cells(m.stack, m.regs[RSP] - 8 * n, m.regs[RSP])
  }

  /** `m'` is `m` with words pushed: rax and rsp aside the registers are the same,
      as is the stack above. */
  ghost predicate Pushed(m: M, m': M, n: nat) {
    && m.regs[RSP] >= 8 * n
    && m'.regs == m.regs[RAX := m'.regs[RAX]][RSP := m.regs[RSP] - 8 * n]
    && m'.stack.Keys == m.stack.Keys && SameAbove(m.stack, m'.stack, m.regs[RSP]) && m'.heap == m.heap
  }

  lemma HomeAfterPush(m: M, m': M, n: nat, l: Loc, x: Word)
    requires Pushed(m, m', n) && HomeHolds(m, l, x) && AboveSp(m, l)
    ensures HomeHolds(m', l, x)
  {
    if l.Reg? { PhysFacts(l.phys); }
    if l.Slot? { assert Cell(m'.stack, HomeAddr(m, l.k)) == x; }
  }

  lemma PushOne(code: Code, ctx: Ctx, m: M, l: Loc, x: Word) returns (m': M)
    requires CodeAt(code, m.rip, Get(RAX, l) + [Push(RAX, false)], ctx) && HomeHolds(m, l, x)
    requires m.regs[RSP] >= 8 && m.regs[RSP] - 8 in m.stack
    ensures Star(code, m, m') && m'.rip == m.rip + SizeAll(Get(RAX, l) + [Push(RAX, false)])
    ensures m'.heap == m.heap && m'.stack == m.stack[m.regs[RSP] - 8 := x]
    ensures m'.regs == m.regs[RAX := x][RSP := m.regs[RSP] - 8]
  {
    hide CodeAt, SizeAll, Star, Plus, Steps, Get;
    Split2(code, m.rip, Get(RAX, l), [Push(RAX, false)], ctx);
    One(Push(RAX, false));
    var m1 := RunGet(code, ctx, m, RAX, l);
    m' := RunPush(code, ctx, m1, RAX, false);
    StarTrans(code, m, m1, m');
  }

  lemma {:induction false} RunPushArgs(code: Code, ctx: Ctx, m: M, loc: Locs, vs: seq<VReg>, ws: seq<Word>) returns (m': M)
    requires CodeAt(code, m.rip, PushArgs(loc, vs), ctx) && Waiting(m, loc, vs, ws) && PushRoom(m, |vs|)
    ensures Star(code, m, m') && m'.rip == m.rip + SizeAll(PushArgs(loc, vs))
    ensures Pushed(m, m', |vs|) && Stacked(m'.stack, m'.regs[RSP], ws)
    decreases |vs|
  {
    hide CodeAt, Star, Plus, Steps, Get, HomeHolds, SizeAll;
    if vs == [] {
      assert SizeAll([]) == 0 by { EmptySize(); }
      assert m.regs[RAX := m.regs[RAX]][RSP := m.regs[RSP]] == m.regs;
      StarRefl(code, m);
      m' := m;
    } else {
      var l := LocOf(loc, vs[0]);
      assert PushArgs(loc, vs) == PushArgs(loc, vs[1..]) + (Get(RAX, l) + [Push(RAX, false)]);
      Split2(code, m.rip, PushArgs(loc, vs[1..]), Get(RAX, l) + [Push(RAX, false)], ctx);
      var m1 := RunPushArgs(code, ctx, m, loc, vs[1..], ws[1..]);
      HomeAfterPush(m, m1, |vs| - 1, l, ws[0]);
      assert (m.regs[RSP] - 8 * |vs|) % 8 == 0;
      m' := PushOne(code, ctx, m1, l, ws[0]);
      StarTrans(code, m, m1, m');
      StackedCons(m1.stack, m'.stack, m1.regs[RSP], ws);
    }
  }

  lemma EmptySize()
    ensures SizeAll([]) == 0
  {
  }

  // ---------- register arguments ----------

  lemma ArgFacts(k: nat)
    requires k < 6
    ensures Scratch(ARG[k]) && ARG[k] != RAX && ARG[k] != R11 && ARG[k] != R10
    ensures forall j :: 0 <= j < 6 && j != k ==> ARG[j] != ARG[k]
  {
  }

  ghost predicate RegsHold(regs: Regs, ws: seq<Word>, k: nat) { forall j: nat :: j < |ws| ==> RegHolds(regs, ws, k, j) }

  predicate RegHolds(regs: Regs, ws: seq<Word>, k: nat, j: nat)
    requires j < |ws|
  {
    k + j < 6 ==> regs[ARG[k + j]] == ws[j]
  }

  /** Only argument registers from number `k` on may differ. */
  ghost predicate ArgsOnly(regs: Regs, regs': Regs, k: nat) {
    forall r: RegId :: (forall j :: k <= j < 6 ==> ARG[j] != r) ==> regs'[r] == regs[r]
  }

  lemma ArgsOnlyNext(regs: Regs, regs1: Regs, regs': Regs, k: nat, x: Word)
    requires k < 6 && regs1 == regs[ARG[k] := x] && ArgsOnly(regs1, regs', k + 1)
    ensures ArgsOnly(regs, regs', k) && regs'[ARG[k]] == x
  {
    ArgFacts(k);
    forall r: RegId | forall j :: k <= j < 6 ==> ARG[j] != r
      ensures regs'[r] == regs[r]
    {
      assert ARG[k] != r;
    }
  }

  lemma ArgsOnlyKeeps(regs: Regs, regs': Regs, k: nat)
    requires ArgsOnly(regs, regs', k)
    ensures forall r: RegId :: !Scratch(r) ==> regs'[r] == regs[r]
    ensures regs'[R11] == regs[R11] && (k > 0 ==> regs'[RDI] == regs[RDI])
  {
    forall r: RegId, j | k <= j < 6 && !Scratch(r)
      ensures ARG[j] != r
    {
      ArgFacts(j);
    }
    if k > 0 { ArgFacts(0); }
  }

  lemma HomeAfterArg(m: M, m1: M, r: RegId, x: Word, l: Loc, y: Word)
    requires HomeHolds(m, l, y) && Scratch(r) && m1.regs == m.regs[r := x] && m1.stack == m.stack
    ensures HomeHolds(m1, l, y)
  {
    if l.Reg? { PhysFacts(l.phys); }
  }

  /** The homes of `vs` hold `ws`. */
  ghost predicate Homed(m: M, loc: Locs, vs: seq<VReg>, ws: seq<Word>) {
    |vs| == |ws| && forall j :: 0 <= j < |vs| ==> HomeHolds(m, LocOf(loc, vs[j]), ws[j])
  }

  lemma HomedNext(m: M, m1: M, loc: Locs, vs: seq<VReg>, ws: seq<Word>, r: RegId, x: Word)
    requires vs != [] && Homed(m, loc, vs, ws) && Scratch(r) && m1.regs == m.regs[r := x] && m1.stack == m.stack
    ensures Homed(m1, loc, vs[1..], ws[1..])
  {
    hide HomeHolds;
    forall j | 0 <= j < |vs| - 1
      ensures HomeHolds(m1, LocOf(loc, vs[1..][j]), ws[1..][j])
    {
      HomeAfterArg(m, m1, r, x, LocOf(loc, vs[j + 1]), ws[j + 1]);
    }
  }

  lemma {:induction false} RunRegArgs(code: Code, ctx: Ctx, m: M, loc: Locs, vs: seq<VReg>, ws: seq<Word>, k: nat)
    returns (m': M)
    requires CodeAt(code, m.rip, RegArgs(loc, vs, k), ctx) && Homed(m, loc, vs, ws)
    ensures Star(code, m, m') && m'.rip == m.rip + SizeAll(RegArgs(loc, vs, k))
    ensures m'.stack == m.stack && m'.heap == m.heap
    ensures ArgsOnly(m.regs, m'.regs, k) && RegsHold(m'.regs, ws, k)
    decreases |vs|
  {
    hide CodeAt, Star, Plus, Steps, Get, HomeHolds, SizeAll;
    if vs == [] || k >= 6 {
      EmptySize();
      StarRefl(code, m);
      m' := m;
    } else {
      var l := LocOf(loc, vs[0]);
      Split2(code, m.rip, Get(ARG[k], l), RegArgs(loc, vs[1..], k + 1), ctx);
      GetHeld(m, l, ws[0]);
      var m1 := RunGet(code, ctx, m, ARG[k], l);
      ArgFacts(k);
      HomedNext(m, m1, loc, vs, ws, ARG[k], ws[0]);
      m' := RunRegArgs(code, ctx, m1, loc, vs[1..], ws[1..], k + 1);
      StarTrans(code, m, m1, m');
      ArgsOnlyNext(m.regs, m1.regs, m'.regs, k, ws[0]);
      RegsHoldCons(m'.regs, ws, k);
    }
  }

  lemma GetHeld(m: M, l: Loc, x: Word)
    requires HomeHolds(m, l, x)
    ensures HomeOk(m, l) && Home(m, l) == x
  {
  }

  lemma RegsHoldCons(regs: Regs, ws: seq<Word>, k: nat)
    requires ws != [] && k < 6 && regs[ARG[k]] == ws[0] && RegsHold(regs, ws[1..], k + 1)
    ensures RegsHold(regs, ws, k)
  {
    forall j: nat | j < |ws|
      ensures RegHolds(regs, ws, k, j)
    {
      if j > 0 { assert RegHolds(regs, ws[1..], k + 1, j - 1); }
    }
  }

  // ---------- a complete argument list ----------

  /** Argument j is in ARG[j], or j - 6 words above `top`. */
  ghost predicate ArgsAt(m: M, top: int, ws: seq<Word>) { forall j: nat :: j < |ws| ==> ArgAt(m, top, ws, j) }

  predicate ArgAt(m: M, top: int, ws: seq<Word>, j: nat)
    requires j < |ws|
  {
    if j < 6 then m.regs[ARG[j]] == ws[j]
    else 0 <= top + 8 * (j - 6) < B64 && HasWord(m.stack, top + 8 * (j - 6), ws[j])
  }

  function TailWords(n: nat): nat { if n > 6 then n - 6 else 0 }

  /** `m'` is `m` with an argument list of `ws` in place, `n` words of it pushed. */
  ghost predicate Placed(m: M, m': M, n: nat, ws: seq<Word>) {
    && m.regs[RSP] >= 8 * n && m'.regs[RSP] == m.regs[RSP] - 8 * n
    && SamePool(m.regs, m'.regs) && m'.regs[R11] == m.regs[R11]
    && m'.stack.Keys == m.stack.Keys && SameAbove(m.stack, m'.stack, m.regs[RSP]) && m'.heap == m.heap
    && ArgsAt(m', m'.regs[RSP], ws)
  }

  lemma HomedAfterPush(m: M, m': M, n: nat, loc: Locs, vs: seq<VReg>, ws: seq<Word>)
    requires Waiting(m, loc, vs, ws) && Pushed(m, m', n)
    ensures Homed(m', loc, vs, ws)
  {
    hide HomeHolds, Pushed;
    forall j | 0 <= j < |vs|
      ensures HomeHolds(m', LocOf(loc, vs[j]), ws[j])
    {
      HomeAfterPush(m, m', n, LocOf(loc, vs[j]), ws[j]);
    }
  }

  lemma TailWaits(m: M, loc: Locs, vs: seq<VReg>, ws: seq<Word>)
    requires Waiting(m, loc, vs, ws)
    ensures Waiting(m, loc, TailArgs(vs, 0), if |ws| > 6 then ws[6..] else [])
  {
    hide HomeHolds, AboveSp;
    var tail := if |ws| > 6 then ws[6..] else [];
    forall j | 0 <= j < |TailArgs(vs, 0)|
      ensures HomeHolds(m, LocOf(loc, TailArgs(vs, 0)[j]), tail[j]) && AboveSp(m, LocOf(loc, TailArgs(vs, 0)[j]))
    {
      assert TailArgs(vs, 0)[j] == vs[6 + j] && tail[j] == ws[6 + j];
    }
  }

  lemma PlaceRuns(code: Code, ctx: Ctx, m: M, loc: Locs, vs: seq<VReg>, ws: seq<Word>) returns (m': M)
    requires CodeAt(code, m.rip, PlaceArgs(loc, vs), ctx) && Waiting(m, loc, vs, ws) && PushRoom(m, TailWords(|vs|))
    ensures Star(code, m, m') && m'.rip == m.rip + SizeAll(PlaceArgs(loc, vs))
    ensures Placed(m, m', TailWords(|vs|), ws)
  {
    hide CodeAt, Star, SizeAll, HomeHolds, PushArgs, RegArgs, PushRoom, Waiting, Homed;
    var tail := if |ws| > 6 then ws[6..] else [];
    assert |vs| == |ws| by { WaitingSize(m, loc, vs, ws); }
    Split2(code, m.rip, PushArgs(loc, TailArgs(vs, 0)), RegArgs(loc, vs, 0), ctx);
    TailWaits(m, loc, vs, ws);
    var m1 := RunPushArgs(code, ctx, m, loc, TailArgs(vs, 0), tail);
    HomedAfterPush(m, m1, TailWords(|vs|), loc, vs, ws);
    m' := RunRegArgs(code, ctx, m1, loc, vs, ws, 0);
    StarTrans(code, m, m1, m');
    PlacedFrom(m, m1, m', ws);
  }

  lemma WaitingSize(m: M, loc: Locs, vs: seq<VReg>, ws: seq<Word>)
    requires Waiting(m, loc, vs, ws)
    ensures |vs| == |ws|
  {
  }

  lemma PlacedFrom(m: M, m1: M, m': M, ws: seq<Word>)
    requires Pushed(m, m1, TailWords(|ws|)) && Stacked(m1.stack, m1.regs[RSP], if |ws| > 6 then ws[6..] else [])
    requires m'.stack == m1.stack && m'.heap == m1.heap && ArgsOnly(m1.regs, m'.regs, 0) && RegsHold(m'.regs, ws, 0)
    ensures Placed(m, m', TailWords(|ws|), ws)
  {
    ArgsOnlyKeeps(m1.regs, m'.regs, 0);
    forall p: Phys
      ensures m'.regs[PhysId(p)] == m.regs[PhysId(p)]
    {
      PhysFacts(p);
    }
    forall j: nat | j < |ws|
      ensures ArgAt(m', m'.regs[RSP], ws, j)
    {
      if j < 6 {
        assert RegHolds(m'.regs, ws, 0, j);
      } else {
        assert StackedAt(m1.stack, m1.regs[RSP], ws[6..], j - 6);
      }
    }
  }

  /** Register arguments leave homes and rsp alone. */
  lemma WaitingAfterArgs(m: M, m1: M, loc: Locs, vs: seq<VReg>, ws: seq<Word>)
    requires Waiting(m, loc, vs, ws) && m1.stack == m.stack
    requires forall r: RegId :: !Scratch(r) ==> m1.regs[r] == m.regs[r]
    ensures Waiting(m1, loc, vs, ws)
  {
    forall j | 0 <= j < |vs|
      ensures HomeHolds(m1, LocOf(loc, vs[j]), ws[j]) && AboveSp(m1, LocOf(loc, vs[j]))
    {
      var l := LocOf(loc, vs[j]);
      assert !Scratch(RSP) && !Scratch(RBP);
      if l.Reg? { PhysFacts(l.phys); }
    }
  }

  lemma LastWaits(m: M, loc: Locs, vs: seq<VReg>, ws: seq<Word>)
    requires Waiting(m, loc, vs, ws)
    ensures Waiting(m, loc, TailArgs(vs, 1), if |ws| > 5 then ws[5..] else [])
  {
    hide HomeHolds, AboveSp;
    var tail := if |ws| > 5 then ws[5..] else [];
    forall j | 0 <= j < |TailArgs(vs, 1)|
      ensures HomeHolds(m, LocOf(loc, TailArgs(vs, 1)[j]), tail[j]) && AboveSp(m, LocOf(loc, TailArgs(vs, 1)[j]))
    {
      assert TailArgs(vs, 1)[j] == vs[5 + j] && tail[j] == ws[5 + j];
    }
  }

  /** `xor edi, edi` and the register arguments after it. */
  lemma StaticRegs(code: Code, ctx: Ctx, m: M, loc: Locs, vs: seq<VReg>, ws: seq<Word>) returns (m1: M)
    requires CodeAt(code, m.rip, [Xor32(RDI)] + RegArgs(loc, vs, 1), ctx) && Waiting(m, loc, vs, ws)
    ensures Star(code, m, m1) && m1.rip == m.rip + SizeAll([Xor32(RDI)] + RegArgs(loc, vs, 1))
    ensures m1.stack == m.stack && m1.heap == m.heap && RegsHold(m1.regs, ws, 1) && m1.regs[RDI] == 0
    ensures m1.regs[R11] == m.regs[R11] && forall r: RegId :: !Scratch(r) ==> m1.regs[r] == m.regs[r]
  {
    hide CodeAt, Star, Plus, SizeAll, HomeHolds, RegArgs, Steps;
    Split2(code, m.rip, [Xor32(RDI)], RegArgs(loc, vs, 1), ctx);
    One(Xor32(RDI));
    var m0 := Past(m, 2).(regs := m.regs[RDI := 0], flags := None);
    OneStep(code, ctx, m, Xor32(RDI), m0);
    HomedXor(m, m0, loc, vs, ws);
    m1 := RunRegArgs(code, ctx, m0, loc, vs, ws, 1);
    StarTrans(code, m, m0, m1);
    ArgsOnlyKeeps(m0.regs, m1.regs, 1);
  }

  /** A receiver-taking static call: null in rdi, five more arguments in registers,
      the rest on the stack. */
  lemma StaticRuns(code: Code, ctx: Ctx, m: M, loc: Locs, vs: seq<VReg>, ws: seq<Word>) returns (m': M)
    requires CodeAt(code, m.rip, StaticPlace(loc, true, vs), ctx) && Waiting(m, loc, vs, ws)
    requires PushRoom(m, TailWords(|vs| + 1))
    ensures Star(code, m, m') && m'.rip == m.rip + SizeAll(StaticPlace(loc, true, vs))
    ensures Placed(m, m', TailWords(|vs| + 1), [0] + ws)
  {
    hide CodeAt, Star, Plus, SizeAll, HomeHolds, RegArgs, PushArgs, Steps, Waiting, Cells;
    var tail := if |ws| > 5 then ws[5..] else [];
    WaitingSize(m, loc, vs, ws);
    Split2(code, m.rip, [Xor32(RDI)] + RegArgs(loc, vs, 1), PushArgs(loc, TailArgs(vs, 1)), ctx);
    var m1 := StaticRegs(code, ctx, m, loc, vs, ws);
    WaitingAfterArgs(m, m1, loc, vs, ws);
    LastWaits(m1, loc, vs, ws);
    assert m1.regs[RSP] == m.regs[RSP];
    m' := RunPushArgs(code, ctx, m1, loc, TailArgs(vs, 1), tail);
    StarTrans(code, m, m1, m');
    StaticPlaced(m, m1, m', ws);
  }

  lemma HomedXor(m: M, m1: M, loc: Locs, vs: seq<VReg>, ws: seq<Word>)
    requires Waiting(m, loc, vs, ws) && m1.regs == m.regs[RDI := 0] && m1.stack == m.stack
    ensures Homed(m1, loc, vs, ws)
  {
    hide HomeHolds;
    forall j | 0 <= j < |vs|
      ensures HomeHolds(m1, LocOf(loc, vs[j]), ws[j])
    {
      HomeAfterArg(m, m1, RDI, 0, LocOf(loc, vs[j]), ws[j]);
    }
  }

  lemma StaticPlaced(m: M, m1: M, m': M, ws: seq<Word>)
    requires m1.stack == m.stack && m1.heap == m.heap && RegsHold(m1.regs, ws, 1) && m1.regs[RDI] == 0
    requires m1.regs[R11] == m.regs[R11] && forall r: RegId :: !Scratch(r) ==> m1.regs[r] == m.regs[r]
    requires Pushed(m1, m', TailWords(|ws| + 1)) && Stacked(m'.stack, m'.regs[RSP], if |ws| > 5 then ws[5..] else [])
    ensures Placed(m, m', TailWords(|ws| + 1), [0] + ws)
  {
    assert !Scratch(RSP) && !Scratch(RBP);
    forall p: Phys
      ensures m'.regs[PhysId(p)] == m.regs[PhysId(p)]
    {
      PhysFacts(p);
    }
    forall j: nat | j < |ws| + 1
      ensures ArgAt(m', m'.regs[RSP], [0] + ws, j)
    {
      if 0 < j < 6 {
        ArgFacts(j);
        assert RegHolds(m1.regs, ws, 1, j - 1);
      } else if j >= 6 {
        assert StackedAt(m'.stack, m'.regs[RSP], ws[5..], j - 6);
      }
    }
  }
}
