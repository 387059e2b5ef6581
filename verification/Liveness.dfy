/** Backward liveness over the CFG: the gen/kill pass and the fixpoint loop of
    the allocator, proved to compute exactly path liveness. */
module Liveness {
  import opened Ir

  // ---------- reference definition: a path to a use that no def cuts ----------

  ghost predicate IsPath(f: Func, p: seq<Point>) {
    && |p| > 0
    && (forall i :: 0 <= i < |p| ==> IsPoint(f, p[i]))
    && (forall i :: 0 <= i < |p| - 1 ==> Linked(f, p, i))
  }

  ghost predicate Linked(f: Func, p: seq<Point>, i: nat)
    requires i + 1 < |p| && IsPoint(f, p[i])
  {
    Next(f, p[i], p[i + 1])
  }

  ghost predicate UsePath(f: Func, v: VReg, p: seq<Point>) {
    && IsPath(f, p)
    && v in UsesAt(f, p[|p| - 1])
    && (forall i :: 0 <= i < |p| - 1 ==> v !in DefsAt(f, p[i]))
  }

  /** `v` is live on entry to `q`: some path from `q` uses `v` before any definition. */
  ghost predicate LiveAt(f: Func, q: Point, v: VReg) {
    exists p :: UsePath(f, v, p) && p[0] == q
  }

  /** `v` is live on entry to some successor of block `b`. */
  ghost predicate LiveOutOf(f: Func, b: nat, v: VReg)
    requires b < |f.blocks|
  {
    exists s :: s in Succs(f.blocks[b].term) && LiveAt(f, Point(s, 0), v)
  }

  lemma LiveByUse(f: Func, q: Point, v: VReg)
    requires IsPoint(f, q) && v in UsesAt(f, q)
    ensures LiveAt(f, q, v)
  {
    assert UsePath(f, v, [q]);
  }

  lemma LiveByStep(f: Func, q: Point, r: Point, v: VReg)
    requires IsPoint(f, q) && Next(f, q, r) && v !in DefsAt(f, q) && LiveAt(f, r, v)
    ensures LiveAt(f, q, v)
  {
    var p :| UsePath(f, v, p) && p[0] == r;
    var p' := [q] + p;
    forall i | 0 <= i < |p'| - 1
      ensures Linked(f, p', i) && v !in DefsAt(f, p'[i])
    {
      if i > 0 { assert Linked(f, p, i - 1) && p'[i] == p[i - 1] && p'[i + 1] == p[i]; }
    }
    assert UsePath(f, v, p');
  }

  /** The dataflow equation of liveness, as a fact about paths. */
  lemma LiveUnfold(f: Func, q: Point, v: VReg)
    requires LiveAt(f, q, v)
    ensures IsPoint(f, q)
    ensures v in UsesAt(f, q) || (v !in DefsAt(f, q) && exists r :: Next(f, q, r) && LiveAt(f, r, v))
  {
    var p :| UsePath(f, v, p) && p[0] == q;
    if |p| > 1 {
      var t := p[1..];
      forall i | 0 <= i < |t| - 1
        ensures Linked(f, t, i) && v !in DefsAt(f, t[i])
      {
        assert Linked(f, p, i + 1) && t[i] == p[i + 1] && t[i + 1] == p[i + 2];
      }
      assert UsePath(f, v, t);
      assert v !in DefsAt(f, p[0]) && Linked(f, p, 0);
      assert Next(f, q, t[0]) && LiveAt(f, t[0], v);
    }
  }

  // ---------- per-block upward-exposed uses and kills ----------

  function BlockLen(f: Func, b: nat): nat
    requires b < |f.blocks|
  {
    |f.blocks[b].instrs|
  }

  /** Vregs defined at positions below `i` of block `b`. */
  function KillUpTo(f: Func, b: nat, i: nat): set<VReg>
    requires b < |f.blocks| && i <= BlockLen(f, b)
  {
    if i == 0 then {} else KillUpTo(f, b, i - 1) + DefsAt(f, Point(b, i - 1))
  }

  /** Vregs used at a position below `i` of block `b` that no earlier position defines. */
  function GenUpTo(f: Func, b: nat, i: nat): set<VReg>
    requires b < |f.blocks| && i <= BlockLen(f, b) + 1
  {
    if i == 0 then {}
    else GenUpTo(f, b, i - 1) + (UsesAt(f, Point(b, i - 1)) - KillUpTo(f, b, i - 1))
  }

  /** No position in `i..j` of block `b` defines `v`. */
  ghost predicate Uncut(f: Func, b: nat, i: nat, j: nat, v: VReg)
    requires i <= j && IsPoint(f, Point(b, j))
  {
    forall k :: i <= k < j ==> v !in DefsAt(f, Point(b, k))
  }

  lemma KillIsCut(f: Func, b: nat, i: nat, v: VReg)
    requires b < |f.blocks| && i <= BlockLen(f, b)
    ensures v !in KillUpTo(f, b, i) <==> Uncut(f, b, 0, i, v)
  {
    if i > 0 { KillIsCut(f, b, i - 1, v); }
  }

  lemma GenHasUse(f: Func, b: nat, i: nat, v: VReg) returns (j: nat)
    requires b < |f.blocks| && i <= BlockLen(f, b) + 1 && v in GenUpTo(f, b, i)
    ensures j < i && v in UsesAt(f, Point(b, j)) && Uncut(f, b, 0, j, v)
  {
    if v in GenUpTo(f, b, i - 1) {
      j := GenHasUse(f, b, i - 1, v);
    } else {
      j := i - 1;
      KillIsCut(f, b, j, v);
    }
  }

  lemma UseIsGen(f: Func, b: nat, i: nat, j: nat, v: VReg)
    requires b < |f.blocks| && j < i <= BlockLen(f, b) + 1
    requires v in UsesAt(f, Point(b, j)) && Uncut(f, b, 0, j, v)
    ensures v in GenUpTo(f, b, i)
  {
    if i > j + 1 { UseIsGen(f, b, i - 1, j, v); } else { KillIsCut(f, b, j, v); }
  }

  ghost predicate GenKillOf(f: Func, n: nat, gen: seq<set<VReg>>, kill: seq<set<VReg>>)
    requires n <= |f.blocks|
  {
    && |gen| == |kill| == n
    && (forall b :: 0 <= b < n ==> gen[b] == GenUpTo(f, b, BlockLen(f, b) + 1) && kill[b] == KillUpTo(f, b, BlockLen(f, b)))
  }

  method BlockGenKill(f: Func, b: nat) returns (g: set<VReg>, k: set<VReg>)
    requires b < |f.blocks|
    ensures g == GenUpTo(f, b, BlockLen(f, b) + 1) && k == KillUpTo(f, b, BlockLen(f, b))
  {
    var block := f.blocks[b];
    g, k := {}, {};
    var i := 0;
    while i < |block.instrs|
      invariant 0 <= i <= |block.instrs|
      invariant g == GenUpTo(f, b, i) && k == KillUpTo(f, b, i)
    {
      g := g + (Uses(block.instrs[i]) - k);
      match Def(block.instrs[i]) {
        case Some(d) => k := k + {d};
        case None =>
      }
      i := i + 1;
    }
    g := g + (TermUses(block.term) - k);
  }

  method GenKill(f: Func) returns (gen: seq<set<VReg>>, kill: seq<set<VReg>>)
    ensures GenKillOf(f, |f.blocks|, gen, kill)
  {
    gen, kill := [], [];
    for b := 0 to |f.blocks|
      invariant GenKillOf(f, b, gen, kill)
    {
      var g, k := BlockGenKill(f, b);
      gen, kill := gen + [g], kill + [k];
    }
  }

  // ---------- the live-in / live-out fixpoint ----------

  predicate Targets(succs: seq<nat>, n: nat) {
    forall i :: 0 <= i < |succs| ==> succs[i] < n
  }

  /** Union of the live-in sets of a list of blocks. */
  function OutOf(liveIn: seq<set<VReg>>, succs: seq<nat>): set<VReg>
    requires Targets(succs, |liveIn|)
  {
    if succs == [] then {} else liveIn[succs[0]] + OutOf(liveIn, succs[1..])
  }

  lemma OutHas(liveIn: seq<set<VReg>>, succs: seq<nat>, s: nat, v: VReg)
    requires Targets(succs, |liveIn|) && s in succs && v in liveIn[s]
    ensures v in OutOf(liveIn, succs)
  {
    if s != succs[0] { OutHas(liveIn, succs[1..], s, v); }
  }

  lemma OutFrom(liveIn: seq<set<VReg>>, succs: seq<nat>, v: VReg) returns (s: nat)
    requires Targets(succs, |liveIn|) && v in OutOf(liveIn, succs)
    ensures s in succs && s < |liveIn| && v in liveIn[s]
  {
    if v in liveIn[succs[0]] { s := succs[0]; } else { s := OutFrom(liveIn, succs[1..], v); }
  }

  lemma OutMonotone(a: seq<set<VReg>>, b: seq<set<VReg>>, succs: seq<nat>)
    requires |a| == |b| && Targets(succs, |a|)
    requires forall k :: 0 <= k < |a| ==> a[k] <= b[k]
    ensures OutOf(a, succs) <= OutOf(b, succs)
  {
    if succs != [] { OutMonotone(a, b, succs[1..]); }
  }

  ghost predicate Shape(f: Func, liveIn: seq<set<VReg>>, liveOut: seq<set<VReg>>) {
    && |liveIn| == |liveOut| == |f.blocks|
    && Bounded(liveIn, f.vregs) && Bounded(liveOut, f.vregs)
  }

  function Below(n: nat): (s: set<VReg>)
    ensures |s| == n
    ensures forall v: VReg :: v in s <==> v < n
  {
    if n == 0 then {} else Below(n - 1) + {n - 1}
  }

  ghost predicate Bounded(sets: seq<set<VReg>>, n: nat) {
    forall b :: 0 <= b < |sets| ==> sets[b] <= Below(n)
  }

  /** Everything recorded so far is live along some path. */
  ghost predicate Sound(f: Func, liveIn: seq<set<VReg>>, liveOut: seq<set<VReg>>)
    requires Shape(f, liveIn, liveOut)
  {
    && (forall b, v :: 0 <= b < |f.blocks| && v in liveIn[b] ==> LiveAt(f, Point(b, 0), v))
    && (forall b, v :: 0 <= b < |f.blocks| && v in liveOut[b] ==> LiveOutOf(f, b, v))
  }

  /** Block `b` satisfies the two dataflow equations. */
  ghost predicate Stable(f: Func, gen: seq<set<VReg>>, kill: seq<set<VReg>>,
                         liveIn: seq<set<VReg>>, liveOut: seq<set<VReg>>, b: nat)
    requires WellFormed(f) && b < |f.blocks| && |gen| == |kill| == |f.blocks| && Shape(f, liveIn, liveOut)
  {
    && liveOut[b] == OutOf(liveIn, Succs(f.blocks[b].term))
    && liveIn[b] == gen[b] + (liveOut[b] - kill[b])
  }

  /** A block's sets never exceed what its equations would give now: one more
      round of the loop can only add. */
  ghost predicate Growing(f: Func, gen: seq<set<VReg>>, kill: seq<set<VReg>>,
                          liveIn: seq<set<VReg>>, liveOut: seq<set<VReg>>)
    requires WellFormed(f) && |gen| == |kill| == |f.blocks| && Shape(f, liveIn, liveOut)
  {
    forall b :: 0 <= b < |f.blocks| ==>
      && liveOut[b] <= OutOf(liveIn, Succs(f.blocks[b].term))
      && liveIn[b] <= gen[b] + (liveOut[b] - kill[b])
  }

  lemma LiveThrough(f: Func, b: nat, i: nat, j: nat, v: VReg)
    requires i <= j && IsPoint(f, Point(b, j)) && Uncut(f, b, i, j, v) && LiveAt(f, Point(b, j), v)
    ensures LiveAt(f, Point(b, i), v)
    decreases j - i
  {
    if i < j {
      LiveThrough(f, b, i + 1, j, v);
      LiveByStep(f, Point(b, i), Point(b, i + 1), v);
    }
  }

  lemma LiveByGen(f: Func, b: nat, v: VReg)
    requires b < |f.blocks| && v in GenUpTo(f, b, BlockLen(f, b) + 1)
    ensures LiveAt(f, Point(b, 0), v)
  {
    var j := GenHasUse(f, b, BlockLen(f, b) + 1, v);
    LiveByUse(f, Point(b, j), v);
    LiveThrough(f, b, 0, j, v);
  }

  lemma LiveFromSucc(f: Func, b: nat, v: VReg)
    requires b < |f.blocks| && LiveOutOf(f, b, v) && v !in KillUpTo(f, b, BlockLen(f, b))
    ensures LiveAt(f, Point(b, 0), v)
  {
    var n := BlockLen(f, b);
    var s :| s in Succs(f.blocks[b].term) && LiveAt(f, Point(s, 0), v);
    LiveByStep(f, Point(b, n), Point(s, 0), v);
    KillIsCut(f, b, n, v);
    LiveThrough(f, b, 0, n, v);
  }

  /** `v` is live at a point of block `b` judging by the block's own code and its live-out set. */
  ghost predicate LiveLocal(f: Func, liveOut: seq<set<VReg>>, b: nat, i: nat, v: VReg)
    requires |liveOut| == |f.blocks| && IsPoint(f, Point(b, i))
  {
    || (exists j :: i <= j <= BlockLen(f, b) && v in UsesAt(f, Point(b, j)) && Uncut(f, b, i, j, v))
    || (v in liveOut[b] && Uncut(f, b, i, BlockLen(f, b), v))
  }

  ghost predicate AllStable(f: Func, gen: seq<set<VReg>>, kill: seq<set<VReg>>,
                            liveIn: seq<set<VReg>>, liveOut: seq<set<VReg>>)
  {
    && WellFormed(f) && GenKillOf(f, |f.blocks|, gen, kill) && Shape(f, liveIn, liveOut)
    && forall b :: 0 <= b < |f.blocks| ==> Stable(f, gen, kill, liveIn, liveOut, b)
  }

  lemma LocalEntry(f: Func, gen: seq<set<VReg>>, kill: seq<set<VReg>>,
                   liveIn: seq<set<VReg>>, liveOut: seq<set<VReg>>, b: nat, v: VReg)
    requires AllStable(f, gen, kill, liveIn, liveOut) && b < |f.blocks|
    requires LiveLocal(f, liveOut, b, 0, v)
    ensures v in liveIn[b]
  {
    assert Stable(f, gen, kill, liveIn, liveOut, b);
    if j: nat :| j <= BlockLen(f, b) && v in UsesAt(f, Point(b, j)) && Uncut(f, b, 0, j, v) {
      UseIsGen(f, b, BlockLen(f, b) + 1, j, v);
    } else {
      KillIsCut(f, b, BlockLen(f, b), v);
    }
  }

  lemma LocalStep(f: Func, liveOut: seq<set<VReg>>, b: nat, i: nat, v: VReg)
    requires |liveOut| == |f.blocks| && IsPoint(f, Point(b, i)) && i < BlockLen(f, b)
    requires v !in DefsAt(f, Point(b, i)) && LiveLocal(f, liveOut, b, i + 1, v)
    ensures LiveLocal(f, liveOut, b, i, v)
  {
    if j :| i + 1 <= j <= BlockLen(f, b) && v in UsesAt(f, Point(b, j)) && Uncut(f, b, i + 1, j, v) {
      assert Uncut(f, b, i, j, v);
    } else {
      assert Uncut(f, b, i, BlockLen(f, b), v);
    }
  }

  /** A stable solution contains every path-live vreg. */
  lemma {:induction false} Complete(f: Func, gen: seq<set<VReg>>, kill: seq<set<VReg>>,
                                    liveIn: seq<set<VReg>>, liveOut: seq<set<VReg>>, v: VReg, p: seq<Point>)
    requires AllStable(f, gen, kill, liveIn, liveOut) && UsePath(f, v, p)
    ensures LiveLocal(f, liveOut, p[0].block, p[0].pos, v)
    decreases |p|
  {
    var q := p[0];
    if |p| == 1 {
      assert Uncut(f, q.block, q.pos, q.pos, v);
    } else {
      var t := p[1..];
      forall i | 0 <= i < |t| - 1
        ensures Linked(f, t, i) && v !in DefsAt(f, t[i])
      {
        assert Linked(f, p, i + 1) && t[i] == p[i + 1] && t[i + 1] == p[i + 2];
      }
      assert UsePath(f, v, t) && Linked(f, p, 0);
      Complete(f, gen, kill, liveIn, liveOut, v, t);
      if q.pos < BlockLen(f, q.block) {
        LocalStep(f, liveOut, q.block, q.pos, v);
      } else {
        LocalEntry(f, gen, kill, liveIn, liveOut, t[0].block, v);
        assert Stable(f, gen, kill, liveIn, liveOut, q.block);
        OutHas(liveIn, Succs(f.blocks[q.block].term), t[0].block, v);
        assert v in liveOut[q.block];
      }
    }
  }

  /** Exactness of a pair of live sets with respect to paths. */
  ghost predicate Exact(f: Func, liveIn: seq<set<VReg>>, liveOut: seq<set<VReg>>) {
    && |liveIn| == |liveOut| == |f.blocks|
    && (forall b, v :: 0 <= b < |f.blocks| ==> (v in liveIn[b] <==> LiveAt(f, Point(b, 0), v)))
    && (forall b, v :: 0 <= b < |f.blocks| ==> (v in liveOut[b] <==> LiveOutOf(f, b, v)))
  }

  lemma StableIsExact(f: Func, gen: seq<set<VReg>>, kill: seq<set<VReg>>,
                      liveIn: seq<set<VReg>>, liveOut: seq<set<VReg>>)
    requires AllStable(f, gen, kill, liveIn, liveOut) && Sound(f, liveIn, liveOut)
    ensures Exact(f, liveIn, liveOut)
  {
    forall b, v | 0 <= b < |f.blocks| && LiveAt(f, Point(b, 0), v)
      ensures v in liveIn[b]
    {
      var p :| UsePath(f, v, p) && p[0] == Point(b, 0);
      Complete(f, gen, kill, liveIn, liveOut, v, p);
      LocalEntry(f, gen, kill, liveIn, liveOut, b, v);
    }
    forall b, v | 0 <= b < |f.blocks| && LiveOutOf(f, b, v)
      ensures v in liveOut[b]
    {
      var s :| s in Succs(f.blocks[b].term) && LiveAt(f, Point(s, 0), v);
      assert Stable(f, gen, kill, liveIn, liveOut, b);
      OutHas(liveIn, Succs(f.blocks[b].term), s, v);
    }
  }

  /** Live at any point means used later in the block or live out of it, uncut. */
  lemma ExactLocal(f: Func, liveIn: seq<set<VReg>>, liveOut: seq<set<VReg>>, p: Point, v: VReg)
    requires WellFormed(f) && Exact(f, liveIn, liveOut) && LiveAt(f, p, v)
    ensures IsPoint(f, p) && LiveLocal(f, liveOut, p.block, p.pos, v)
    decreases if IsPoint(f, p) then |f.blocks[p.block].instrs| - p.pos else 0
  {
    LiveUnfold(f, p, v);
    if v in UsesAt(f, p) {
      assert Uncut(f, p.block, p.pos, p.pos, v);
    } else {
      var r :| Next(f, p, r) && LiveAt(f, r, v);
      if p.pos < BlockLen(f, p.block) {
        ExactLocal(f, liveIn, liveOut, r, v);
        LocalStep(f, liveOut, p.block, p.pos, v);
      } else {
        assert r == Point(r.block, 0);
        assert LiveOutOf(f, p.block, v);
      }
    }
  }

  // ---------- termination measure ----------

  function Total(sets: seq<set<VReg>>): nat {
    if sets == [] then 0 else |sets[0]| + Total(sets[1..])
  }

  lemma TotalUpdate(sets: seq<set<VReg>>, b: nat, t: set<VReg>)
    requires b < |sets|
    ensures Total(sets[b := t]) == Total(sets) - |sets[b]| + |t|
  {
    if b == 0 {
      assert sets[b := t][1..] == sets[1..];
    } else {
      assert sets[b := t][1..] == sets[1..][b - 1 := t];
      TotalUpdate(sets[1..], b - 1, t);
    }
  }

  lemma SubsetSize(a: set<VReg>, b: set<VReg>)
    requires a <= b
    ensures |a| <= |b|
    ensures a != b ==> |a| < |b|
  {
    assert b == a + (b - a);
    assert |b| == |a| + |b - a|;
    if a != b { var x :| x in b && x !in a; assert x in b - a; }
  }

  lemma MulSucc(a: nat, n: nat)
    ensures (a + 1) * n == a * n + n
  {
  }

  lemma {:induction false} TotalBound(sets: seq<set<VReg>>, n: nat)
    requires Bounded(sets, n)
    ensures Total(sets) <= |sets| * n
  {
    if sets != [] {
      SubsetSize(sets[0], Below(n));
      TotalBound(sets[1..], n);
      MulSucc(|sets[1..]|, n);
    }
  }

  /** How much room the live sets still have to grow. */
  ghost function Room(f: Func, liveIn: seq<set<VReg>>, liveOut: seq<set<VReg>>): int {
    2 * (|f.blocks| * f.vregs) - Total(liveIn) - Total(liveOut)
  }

  lemma RoomShrinks(f: Func, liveIn: seq<set<VReg>>, liveOut: seq<set<VReg>>,
                    b: nat, inn: set<VReg>, out: set<VReg>)
    requires Shape(f, liveIn, liveOut) && b < |f.blocks|
    requires liveIn[b] <= inn && liveOut[b] <= out && (inn != liveIn[b] || out != liveOut[b])
    requires inn <= Below(f.vregs) && out <= Below(f.vregs)
    ensures 0 <= Room(f, liveIn[b := inn], liveOut[b := out]) < Room(f, liveIn, liveOut)
  {
    TotalUpdate(liveIn, b, inn);
    TotalUpdate(liveOut, b, out);
    SubsetSize(liveIn[b], inn);
    SubsetSize(liveOut[b], out);
    TotalBound(liveIn[b := inn], f.vregs);
    TotalBound(liveOut[b := out], f.vregs);
  }

  // ---------- one visit of the fixpoint loop ----------

  /** What holds between any two visits of the loop. */
  ghost predicate Partial(f: Func, gen: seq<set<VReg>>, kill: seq<set<VReg>>,
                          liveIn: seq<set<VReg>>, liveOut: seq<set<VReg>>)
  {
    && WellFormed(f) && GenKillOf(f, |f.blocks|, gen, kill)
    && Shape(f, liveIn, liveOut) && Sound(f, liveIn, liveOut) && Growing(f, gen, kill, liveIn, liveOut)
  }

  lemma VisitShape(f: Func, gen: seq<set<VReg>>, kill: seq<set<VReg>>,
                   liveIn: seq<set<VReg>>, liveOut: seq<set<VReg>>,
                   b: nat, inn: set<VReg>, out: set<VReg>)
    requires Partial(f, gen, kill, liveIn, liveOut) && b < |f.blocks|
    requires out == OutOf(liveIn, Succs(f.blocks[b].term)) && inn == gen[b] + (out - kill[b])
    ensures inn <= Below(f.vregs) && out <= Below(f.vregs)
    ensures Shape(f, liveIn[b := inn], liveOut[b := out])
  {
    forall v | v in gen[b]
      ensures v < f.vregs
    {
      var j := GenHasUse(f, b, BlockLen(f, b) + 1, v);
      assert IsPoint(f, Point(b, j)) && v in UsesAt(f, Point(b, j));
    }
    forall v | v in out
      ensures v in Below(f.vregs)
    {
      var s := OutFrom(liveIn, Succs(f.blocks[b].term), v);
    }
  }

  lemma VisitSoundOut(f: Func, liveIn: seq<set<VReg>>, b: nat)
    requires WellFormed(f) && |liveIn| == |f.blocks| && b < |f.blocks|
    requires forall s, v :: 0 <= s < |f.blocks| && v in liveIn[s] ==> LiveAt(f, Point(s, 0), v)
    ensures forall v :: v in OutOf(liveIn, Succs(f.blocks[b].term)) ==> LiveOutOf(f, b, v)
  {
    forall v | v in OutOf(liveIn, Succs(f.blocks[b].term))
      ensures LiveOutOf(f, b, v)
    {
      var s := OutFrom(liveIn, Succs(f.blocks[b].term), v);
      assert LiveAt(f, Point(s, 0), v);
    }
  }

  lemma VisitSoundIn(f: Func, gen: seq<set<VReg>>, kill: seq<set<VReg>>, b: nat, out: set<VReg>)
    requires GenKillOf(f, |f.blocks|, gen, kill) && b < |f.blocks|
    requires forall v :: v in out ==> LiveOutOf(f, b, v)
    ensures forall v :: v in gen[b] + (out - kill[b]) ==> LiveAt(f, Point(b, 0), v)
  {
    forall v | v in gen[b] + (out - kill[b])
      ensures LiveAt(f, Point(b, 0), v)
    {
      if v in gen[b] {
        LiveByGen(f, b, v);
      } else {
        LiveFromSucc(f, b, v);
      }
    }
  }

  lemma VisitSound(f: Func, gen: seq<set<VReg>>, kill: seq<set<VReg>>,
                   liveIn: seq<set<VReg>>, liveOut: seq<set<VReg>>,
                   b: nat, inn: set<VReg>, out: set<VReg>)
    requires Partial(f, gen, kill, liveIn, liveOut) && b < |f.blocks|
    requires out == OutOf(liveIn, Succs(f.blocks[b].term)) && inn == gen[b] + (out - kill[b])
    requires Shape(f, liveIn[b := inn], liveOut[b := out])
    ensures Sound(f, liveIn[b := inn], liveOut[b := out])
  {
    VisitSoundOut(f, liveIn, b);
    VisitSoundIn(f, gen, kill, b, out);
    forall k, v | 0 <= k < |f.blocks| && v in liveIn[b := inn][k]
      ensures LiveAt(f, Point(k, 0), v)
    {
      if k != b { assert v in liveIn[k]; }
    }
    forall k, v | 0 <= k < |f.blocks| && v in liveOut[b := out][k]
      ensures LiveOutOf(f, k, v)
    {
      if k != b { assert v in liveOut[k]; }
    }
  }

  lemma VisitGrowing(f: Func, gen: seq<set<VReg>>, kill: seq<set<VReg>>,
                     liveIn: seq<set<VReg>>, liveOut: seq<set<VReg>>,
                     b: nat, inn: set<VReg>, out: set<VReg>)
    requires Partial(f, gen, kill, liveIn, liveOut) && b < |f.blocks|
    requires out == OutOf(liveIn, Succs(f.blocks[b].term)) && inn == gen[b] + (out - kill[b])
    requires Shape(f, liveIn[b := inn], liveOut[b := out])
    ensures liveIn[b] <= inn && liveOut[b] <= out
    ensures Growing(f, gen, kill, liveIn[b := inn], liveOut[b := out])
  {
    var liveIn', liveOut' := liveIn[b := inn], liveOut[b := out];
    forall k | 0 <= k < |f.blocks|
      ensures liveOut'[k] <= OutOf(liveIn', Succs(f.blocks[k].term))
      ensures liveIn'[k] <= gen[k] + (liveOut'[k] - kill[k])
    {
      OutMonotone(liveIn, liveIn', Succs(f.blocks[k].term));
    }
  }

  /** Recomputing block `b` keeps the loop invariant and, when it changes
      anything, uses up room. */
  lemma Visit(f: Func, gen: seq<set<VReg>>, kill: seq<set<VReg>>,
              liveIn: seq<set<VReg>>, liveOut: seq<set<VReg>>,
              b: nat, inn: set<VReg>, out: set<VReg>)
    requires Partial(f, gen, kill, liveIn, liveOut) && b < |f.blocks|
    requires out == OutOf(liveIn, Succs(f.blocks[b].term)) && inn == gen[b] + (out - kill[b])
    ensures Partial(f, gen, kill, liveIn[b := inn], liveOut[b := out])
    ensures inn == liveIn[b] && out == liveOut[b] ==> Stable(f, gen, kill, liveIn, liveOut, b)
    ensures inn != liveIn[b] || out != liveOut[b] ==>
              0 <= Room(f, liveIn[b := inn], liveOut[b := out]) < Room(f, liveIn, liveOut)
  {
    VisitShape(f, gen, kill, liveIn, liveOut, b, inn, out);
    VisitSound(f, gen, kill, liveIn, liveOut, b, inn, out);
    VisitGrowing(f, gen, kill, liveIn, liveOut, b, inn, out);
    if inn != liveIn[b] || out != liveOut[b] {
      RoomShrinks(f, liveIn, liveOut, b, inn, out);
    }
  }

  lemma EmptyIsPartial(f: Func, gen: seq<set<VReg>>, kill: seq<set<VReg>>, none: seq<set<VReg>>)
    requires WellFormed(f) && GenKillOf(f, |f.blocks|, gen, kill)
    requires |none| == |f.blocks| && forall b :: 0 <= b < |none| ==> none[b] == {}
    ensures Partial(f, gen, kill, none, none) && 0 <= Room(f, none, none)
  {
    TotalBound(none, f.vregs);
  }

  ghost predicate StableFrom(f: Func, gen: seq<set<VReg>>, kill: seq<set<VReg>>,
                             liveIn: seq<set<VReg>>, liveOut: seq<set<VReg>>, b: nat)
    requires WellFormed(f) && |gen| == |kill| == |f.blocks| && Shape(f, liveIn, liveOut)
  {
    forall k :: b <= k < |f.blocks| ==> Stable(f, gen, kill, liveIn, liveOut, k)
  }

  lemma StableExtend(f: Func, gen: seq<set<VReg>>, kill: seq<set<VReg>>,
                     liveIn: seq<set<VReg>>, liveOut: seq<set<VReg>>, b: nat)
    requires WellFormed(f) && |gen| == |kill| == |f.blocks| && Shape(f, liveIn, liveOut) && b < |f.blocks|
    requires StableFrom(f, gen, kill, liveIn, liveOut, b + 1) && Stable(f, gen, kill, liveIn, liveOut, b)
    ensures StableFrom(f, gen, kill, liveIn, liveOut, b)
  {
    forall k | b <= k < |f.blocks|
      ensures Stable(f, gen, kill, liveIn, liveOut, k)
    {
      if k > b { assert Stable(f, gen, kill, liveIn, liveOut, k); }
    }
  }

  /** One visit of block `b`: recompute its two sets and store them if they changed. */
  method VisitBlock(f: Func, gen: seq<set<VReg>>, kill: seq<set<VReg>>,
                    liveIn: seq<set<VReg>>, liveOut: seq<set<VReg>>, b: nat)
      returns (liveIn': seq<set<VReg>>, liveOut': seq<set<VReg>>, changed: bool)
    requires Partial(f, gen, kill, liveIn, liveOut) && b < |f.blocks|
    ensures Partial(f, gen, kill, liveIn', liveOut')
    ensures !changed ==> liveIn' == liveIn && liveOut' == liveOut && Stable(f, gen, kill, liveIn, liveOut, b)
    ensures changed ==> 0 <= Room(f, liveIn', liveOut') < Room(f, liveIn, liveOut)
  {
    var out := OutOf(liveIn, Succs(f.blocks[b].term));
    var inn := gen[b] + (out - kill[b]);
    Visit(f, gen, kill, liveIn, liveOut, b, inn, out);
    changed := out != liveOut[b] || inn != liveIn[b];
    if changed {
      liveIn', liveOut' := liveIn[b := inn], liveOut[b := out];
    } else {
      liveIn', liveOut' := liveIn, liveOut;
    }
  }

  /** One pass over the blocks, last to first. */
  method Pass(f: Func, gen: seq<set<VReg>>, kill: seq<set<VReg>>,
              liveIn: seq<set<VReg>>, liveOut: seq<set<VReg>>)
      returns (liveIn': seq<set<VReg>>, liveOut': seq<set<VReg>>, changed: bool)
    requires Partial(f, gen, kill, liveIn, liveOut)
    ensures Partial(f, gen, kill, liveIn', liveOut')
    ensures !changed ==> StableFrom(f, gen, kill, liveIn', liveOut', 0)
    ensures !changed ==> liveIn' == liveIn && liveOut' == liveOut
    ensures changed ==> 0 <= Room(f, liveIn', liveOut') < Room(f, liveIn, liveOut)
  {
    liveIn', liveOut', changed := liveIn, liveOut, false;
    var b: nat := |f.blocks|;
    while b > 0
      invariant 0 <= b <= |f.blocks|
      invariant Partial(f, gen, kill, liveIn', liveOut')
      invariant !changed ==> StableFrom(f, gen, kill, liveIn', liveOut', b)
      invariant !changed ==> liveIn' == liveIn && liveOut' == liveOut
      invariant changed ==> 0 <= Room(f, liveIn', liveOut') < Room(f, liveIn, liveOut)
    {
      b := b - 1;
      var hit;
      liveIn', liveOut', hit := VisitBlock(f, gen, kill, liveIn', liveOut', b);
      changed := changed || hit;
      if !changed { StableExtend(f, gen, kill, liveIn', liveOut', b); }
    }
  }

  /** The fixpoint loop. It stops because every change adds a vreg to some set,
      and what it returns is the least solution: exactly the path-live vregs. */
  method LiveSets(f: Func) returns (liveIn: seq<set<VReg>>, liveOut: seq<set<VReg>>)
    requires WellFormed(f)
    ensures Exact(f, liveIn, liveOut)
  {
    var gen, kill := GenKill(f);
    var none: seq<set<VReg>> := seq(|f.blocks|, _ => {});
    EmptyIsPartial(f, gen, kill, none);
    liveIn, liveOut := none, none;
    var changed := true;
    while changed
      invariant Partial(f, gen, kill, liveIn, liveOut)
      invariant !changed ==> StableFrom(f, gen, kill, liveIn, liveOut, 0)
      invariant 0 <= Room(f, liveIn, liveOut)
      decreases Room(f, liveIn, liveOut), if changed then 1 else 0
    {
      liveIn, liveOut, changed := Pass(f, gen, kill, liveIn, liveOut);
    }
    StableIsExact(f, gen, kill, liveIn, liveOut);
  }
}
