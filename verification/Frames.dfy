/** Stack frames of running and suspended functions, and what a return finds there. */
module Frames {
  import opened Words
  import opened Locations
  import opened Machine
  import opened Emission
  import opened Execution
  import opened Instructions

  type Stack = map<int, Word>

  function Cell(s: Stack, a: int): Word { if a in s then s[a] else 0 }

  // ---------- saved registers ----------

  lemma SaverListHas(loc: Locs, k: nat, r: Phys)
    requires k <= |POOL|
    ensures r in SaverList(loc, k) <==> Reg(r) in loc && r in POOL[..k]
  {
    if k > 0 {
      SaverListHas(loc, k - 1, r);
      assert POOL[..k] == POOL[..k - 1] + [POOL[k - 1]];
    }
  }

  lemma SaversHas(a: Allocation, r: Phys)
    ensures r in Savers(a) <==> Reg(r) in a.loc
  {
    SaverListHas(a.loc, |POOL|, r);
    assert r in POOL by {
      match r
      case Rbx => assert POOL[0] == r;
      case R12 => assert POOL[1] == r;
      case R13 => assert POOL[2] == r;
      case R14 => assert POOL[3] == r;
      case R15 => assert POOL[4] == r;
    }
    assert POOL[..|POOL|] == POOL;
  }

  predicate Distinct(rs: seq<Phys>) { rs == [] || (rs[0] !in rs[1..] && Distinct(rs[1..])) }

  lemma DistinctSnoc(rs: seq<Phys>, r: Phys)
    requires Distinct(rs) && r !in rs
    ensures Distinct(rs + [r])
  {
    if rs != [] {
      assert (rs + [r])[1..] == rs[1..] + [r];
      DistinctSnoc(rs[1..], r);
    }
  }

  lemma SaverListDistinct(loc: Locs, k: nat)
    requires k <= |POOL|
    ensures Distinct(SaverList(loc, k))
  {
    if k > 0 {
      SaverListDistinct(loc, k - 1);
      SaverListHas(loc, k - 1, POOL[k - 1]);
      assert forall j :: 0 <= j < k - 1 ==> POOL[..k - 1][j] == POOL[j] != POOL[k - 1];
      if Reg(POOL[k - 1]) in loc {
        DistinctSnoc(SaverList(loc, k - 1), POOL[k - 1]);
      } else {
        assert SaverList(loc, k) == SaverList(loc, k - 1);
      }
    }
  }

  /** The registers after popping `rs`, whose first element sits just below `base`. */
  function Restored(regs: Regs, s: Stack, base: int, rs: seq<Phys>): Regs
    decreases |rs|
  {
    if rs == [] then regs else Restored(regs, s, base - 8, rs[1..])[PhysId(rs[0]) := Cell(s, base - 8)]
  }

  /** The stack after pushing `rs` in order, starting just below `base`. */
  function Saved(s: Stack, regs: Regs, base: int, rs: seq<Phys>): Stack
    decreases |rs|
  {
    if rs == [] then s else Saved(s[base - 8 := regs[PhysId(rs[0])]], regs, base - 8, rs[1..])
  }

  lemma SavedCell(s: Stack, regs: Regs, base: int, rs: seq<Phys>, a: int)
    requires a >= base || a < base - 8 * |rs|
    ensures (a in Saved(s, regs, base, rs) <==> a in s) && Cell(Saved(s, regs, base, rs), a) == Cell(s, a)
    decreases |rs|
  {
    if rs != [] { SavedCell(s[base - 8 := regs[PhysId(rs[0])]], regs, base - 8, rs[1..], a); }
  }

  lemma SavedGrows(s: Stack, regs: Regs, base: int, rs: seq<Phys>)
    ensures s.Keys <= Saved(s, regs, base, rs).Keys
    decreases |rs|
  {
    if rs != [] { SavedGrows(s[base - 8 := regs[PhysId(rs[0])]], regs, base - 8, rs[1..]); }
  }

  /** Popping looks only at its own cells. */
  lemma RestoredCells(regs: Regs, s: Stack, s': Stack, base: int, rs: seq<Phys>)
    requires forall a :: base - 8 * |rs| <= a < base ==> Cell(s', a) == Cell(s, a)
    ensures Restored(regs, s', base, rs) == Restored(regs, s, base, rs)
    decreases |rs|
  {
    if rs != [] { RestoredCells(regs, s, s', base - 8, rs[1..]); }
  }

  lemma RestoredOther(regs: Regs, s: Stack, base: int, rs: seq<Phys>, r: RegId)
    requires forall p :: p in rs ==> PhysId(p) != r
    ensures Restored(regs, s, base, rs)[r] == regs[r]
    decreases |rs|
  {
    if rs != [] {
      assert rs[0] in rs && forall p :: p in rs[1..] ==> p in rs;
      RestoredOther(regs, s, base - 8, rs[1..], r);
    }
  }

  /** A register that is popped does not depend on its value before. */
  lemma RestoredSame(regs: Regs, regs': Regs, s: Stack, base: int, rs: seq<Phys>, r: RegId)
    requires regs'[r] == regs[r] || exists p :: p in rs && PhysId(p) == r
    ensures Restored(regs', s, base, rs)[r] == Restored(regs, s, base, rs)[r]
    decreases |rs|
  {
    if rs != [] {
      if PhysId(rs[0]) != r {
        if p :| p in rs && PhysId(p) == r { assert p in rs[1..]; }
        RestoredSame(regs, regs', s, base - 8, rs[1..], r);
      }
    }
  }

  /** Pushing then popping gives each saved register its value at the push. */
  lemma SavedRestored(regs: Regs, regs': Regs, s: Stack, base: int, rs: seq<Phys>, r: RegId)
    requires Distinct(rs)
    requires regs'[r] == regs[r] || exists p :: p in rs && PhysId(p) == r
    ensures Restored(regs', Saved(s, regs, base, rs), base, rs)[r] == regs[r]
    decreases |rs|
  {
    if rs != [] {
      var s1 := s[base - 8 := regs[PhysId(rs[0])]];
      SavedCell(s1, regs, base - 8, rs[1..], base - 8);
      if PhysId(rs[0]) != r {
        if p :| p in rs && PhysId(p) == r { assert p in rs[1..]; }
        SavedRestored(regs, regs', s1, base - 8, rs[1..], r);
      }
    }
  }

  // ---------- pushes and pops as runs ----------

  /** Cells `[low, high)` at multiples of 8 belong to the stack. */
  ghost predicate Cells(s: Stack, low: int, high: int) {
    forall a :: low <= a < high && a % 8 == 0 ==> a in s
  }

  lemma PushOffset(sp: Word)
    requires sp >= 8
    ensures Offset(sp, -8) == sp - 8
  {
  }

  lemma RunPush(code: Code, ctx: Ctx, m: M, r: RegId, rexed: bool) returns (m': M)
    requires CodeAt(code, m.rip, [Push(r, rexed)], ctx)
    requires m.regs[RSP] >= 8 && m.regs[RSP] - 8 in m.stack
    ensures m' == Past(m, Size(Push(r, rexed))).(
                    regs := m.regs[RSP := m.regs[RSP] - 8], stack := m.stack[m.regs[RSP] - 8 := m.regs[r]])
    ensures Star(code, m, m')
  {
    m' := Past(m, Size(Push(r, rexed))).(
            regs := m.regs[RSP := m.regs[RSP] - 8], stack := m.stack[m.regs[RSP] - 8 := m.regs[r]]);
    PushOffset(m.regs[RSP]);
    OneStep(code, ctx, m, Push(r, rexed), m');
  }

  lemma {:induction false} RunPushSavers(code: Code, ctx: Ctx, m: M, rs: seq<Phys>) returns (m': M)
    requires CodeAt(code, m.rip, PushSavers(rs), ctx)
    requires m.regs[RSP] >= 8 * |rs| && m.regs[RSP] % 8 == 0
    requires Cells(m.stack, m.regs[RSP] - 8 * |rs|, m.regs[RSP])
    ensures Star(code, m, m') && m'.rip == m.rip + SizeAll(PushSavers(rs)) && m'.heap == m.heap
    ensures m'.regs == m.regs[RSP := m.regs[RSP] - 8 * |rs|]
    ensures m'.stack == Saved(m.stack, m.regs, m.regs[RSP], rs)
    decreases |rs|
  {
    hide CodeAt, Star, Plus, Steps;
    if rs == [] {
      assert m.regs[RSP := m.regs[RSP]] == m.regs;
      StarRefl(code, m);
      m' := m;
    } else {
      var a := Push(PhysId(rs[0]), true);
      Split2(code, m.rip, [a], PushSavers(rs[1..]), ctx);
      One(a);
      var m1 := RunPush(code, ctx, m, PhysId(rs[0]), true);
      m' := RunPushSavers(code, ctx, m1, rs[1..]);
      StarTrans(code, m, m1, m');
      SavedRegs(m1.stack, m.regs, m1.regs, m1.regs[RSP], rs[1..]);
    }
  }

  lemma SavedRegs(s: Stack, regs: Regs, regs': Regs, base: int, rs: seq<Phys>)
    requires forall p: Phys :: regs'[PhysId(p)] == regs[PhysId(p)]
    ensures Saved(s, regs', base, rs) == Saved(s, regs, base, rs)
    decreases |rs|
  {
    if rs != [] { SavedRegs(s[base - 8 := regs[PhysId(rs[0])]], regs, regs', base - 8, rs[1..]); }
  }

  lemma {:induction false} RunPopSavers(code: Code, ctx: Ctx, m: M, base: int, rs: seq<Phys>) returns (m': M)
    requires CodeAt(code, m.rip, PopSavers(rs), ctx)
    requires m.regs[RSP] == base - 8 * |rs| && base < B64 && m.regs[RSP] % 8 == 0
    requires Cells(m.stack, base - 8 * |rs|, base)
    ensures Star(code, m, m') && m'.rip == m.rip + SizeAll(PopSavers(rs)) && m'.heap == m.heap && m'.stack == m.stack
    ensures 0 <= base && m'.regs == Restored(m.regs, m.stack, base, rs)[RSP := base]
    decreases |rs|
  {
    hide CodeAt, Star, Plus, Steps, SizeAll;
    if rs == [] {
      EmptyCode();
      assert m.regs[RSP := base] == m.regs;
      StarRefl(code, m);
      m' := m;
    } else {
      var a := Pop(PhysId(rs[0]), true);
      PopNotRsp(rs[0]);
      Split2(code, m.rip, PopSavers(rs[1..]), [a], ctx);
      One(a);
      var m1 := RunPopSavers(code, ctx, m, base - 8, rs[1..]);
      var regs' := Restored(m.regs, m.stack, base, rs)[RSP := base];
      m' := Past(m1, Size(a)).(regs := regs');
      PopExec(Past(m1, Size(a)), PhysId(rs[0]), base);
      PopOrder(Restored(m.regs, m.stack, base - 8, rs[1..]), base, PhysId(rs[0]), m.stack[base - 8]);
      OneStep(code, ctx, m1, a, m');
      StarTrans(code, m, m1, m');
    }
  }

  lemma PopNotRsp(p: Phys)
    ensures PhysId(p) != RSP
  {
  }

  lemma EmptyCode()
    ensures SizeAll([]) == 0
  {
  }

  lemma PopOrder(regs: Regs, base: Word, r: RegId, x: Word)
    requires r != RSP && base >= 8
    ensures regs[r := x][RSP := base] == regs[RSP := base - 8][RSP := base][r := x]
  {
  }

  lemma PopExec(m: M, r: RegId, base: int)
    requires m.regs[RSP] == base - 8 && base < B64 && base - 8 in m.stack
    ensures 0 <= base && PopReg(m, r) == Go(m.(regs := m.regs[RSP := base][r := m.stack[base - 8]]))
  {
  }
}
