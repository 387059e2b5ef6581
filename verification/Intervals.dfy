/** Interval construction: one closed span of global positions per vreg, proved
    to be the exact hull of everything the allocator touches and to cover every
    position where the vreg is live, used or defined. */
module Intervals {
  import opened Ir
  import opened Liveness

  /** Global position of a block's first slot: one slot per instruction plus one per terminator. */
  function Entry(f: Func, b: nat): nat
    requires b <= |f.blocks|
  {
    if b == 0 then 0 else Entry(f, b - 1) + BlockLen(f, b - 1) + 1
  }

  function Pos(f: Func, p: Point): nat
    requires IsPoint(f, p)
  {
    Entry(f, p.block) + p.pos
  }

  datatype Span = Span(start: nat, end: nat)

  predicate Covers(s: Span, pos: nat) { s.start <= pos <= s.end }

  predicate Overlap(a: Span, b: Span) { a.start <= b.end && b.start <= a.end }

  type Ranges = map<VReg, Span>

  function Look(m: Ranges, v: VReg): Option<Span> { if v in m then Some(m[v]) else None }

  function Grow(r: Option<Span>, pos: nat): Span {
    match r
    case None => Span(pos, pos)
    case Some(s) => Span(if pos < s.start then pos else s.start, if pos > s.end then pos else s.end)
  }

  function Touch(r: Option<Span>, touched: bool, pos: nat): Option<Span> {
    if touched then Some(Grow(r, pos)) else r
  }

  method TouchAll(m: Ranges, vs: set<VReg>, pos: nat) returns (r: Ranges)
    ensures forall v :: Look(r, v) == Touch(Look(m, v), v in vs, pos)
  {
    r := m;
    var rest := vs;
    while rest != {}
      invariant rest <= vs
      invariant forall v :: Look(r, v) == Touch(Look(m, v), v in vs && v !in rest, pos)
      decreases |rest|
    {
      var v :| v in rest;
      r := r[v := Grow(Look(r, v), pos)];
      rest := rest - {v};
    }
  }

  // ---------- the range of one vreg, touch by touch ----------

  predicate Mentions(f: Func, p: Point, v: VReg)
    requires IsPoint(f, p)
  {
    v in UsesAt(f, p) || v in DefsAt(f, p)
  }

  function CodeSpan(f: Func, b: nat, i: nat, v: VReg, r: Option<Span>): Option<Span>
    requires b < |f.blocks| && i <= BlockLen(f, b) + 1
  {
    if i == 0 then r
    else Touch(CodeSpan(f, b, i - 1, v, r), Mentions(f, Point(b, i - 1), v), Entry(f, b) + i - 1)
  }

  /** Position 0 for an incoming vreg, then block entries it is live into, block
      ends it is live out of, and every mention, over the blocks below `b`. */
  function SpanUpTo(f: Func, liveIn: seq<set<VReg>>, liveOut: seq<set<VReg>>, b: nat, v: VReg): Option<Span>
    requires |liveIn| == |liveOut| == |f.blocks| && b <= |f.blocks|
  {
    if b == 0 then Touch(None, v < Incoming(f), 0)
    else
      var r := SpanUpTo(f, liveIn, liveOut, b - 1, v);
      BlockSpan(f, b - 1, v, v in liveIn[b - 1], v in liveOut[b - 1], r)
  }

  function EdgeSpan(f: Func, b: nat, inn: bool, out: bool, r: Option<Span>): Option<Span>
    requires b < |f.blocks|
  {
    Touch(Touch(r, inn, Entry(f, b)), out, Entry(f, b) + BlockLen(f, b))
  }

  function BlockSpan(f: Func, b: nat, v: VReg, inn: bool, out: bool, r: Option<Span>): Option<Span>
    requires b < |f.blocks|
  {
    CodeSpan(f, b, BlockLen(f, b) + 1, v, EdgeSpan(f, b, inn, out, r))
  }

  method TouchBlock(f: Func, m: Ranges, b: nat) returns (r: Ranges)
    requires b < |f.blocks|
    ensures forall v :: Look(r, v) == CodeSpan(f, b, BlockLen(f, b) + 1, v, Look(m, v))
  {
    var block := f.blocks[b];
    r := m;
    var entry := Entry(f, b);
    var i := 0;
    while i < |block.instrs|
      invariant 0 <= i <= |block.instrs|
      invariant forall v :: Look(r, v) == CodeSpan(f, b, i, v, Look(m, v))
    {
      var d := match Def(block.instrs[i]) case Some(d) => {d} case None => {};
      r := TouchAll(r, Uses(block.instrs[i]) + d, entry + i);
      i := i + 1;
    }
    r := TouchAll(r, TermUses(block.term), entry + i);
  }

  method TouchBlocks(f: Func, liveIn: seq<set<VReg>>, liveOut: seq<set<VReg>>) returns (m: Ranges)
    requires |liveIn| == |liveOut| == |f.blocks|
    ensures forall v :: Look(m, v) == SpanUpTo(f, liveIn, liveOut, |f.blocks|, v)
  {
    m := TouchAll(map[], Below(Incoming(f)), 0);
    var b := 0;
    while b < |f.blocks|
      invariant 0 <= b <= |f.blocks|
      invariant forall v :: Look(m, v) == SpanUpTo(f, liveIn, liveOut, b, v)
    {
      var entry := Entry(f, b);
      m := TouchAll(m, liveIn[b], entry);
      m := TouchAll(m, liveOut[b], entry + BlockLen(f, b));
      m := TouchBlock(f, m, b);
      b := b + 1;
    }
  }

  /** The finished table: the touched range of each vreg, `(0, 0)` when nothing touches it. */
  ghost predicate IntervalsOf(f: Func, liveIn: seq<set<VReg>>, liveOut: seq<set<VReg>>, m: Ranges)
    requires |liveIn| == |liveOut| == |f.blocks|
  {
    && m.Keys == Below(f.vregs)
    && forall v :: v in m ==>
         match SpanUpTo(f, liveIn, liveOut, |f.blocks|, v)
         case Some(s) => m[v] == s
         case None => m[v] == Span(0, 0)
  }

  lemma CodeInRange(f: Func, b: nat, i: nat, v: VReg, r: Option<Span>)
    requires WellFormed(f) && b < |f.blocks| && i <= BlockLen(f, b) + 1
    requires CodeSpan(f, b, i, v, r).Some?
    ensures r.Some? || v < f.vregs
  {
    if i > 0 && !Mentions(f, Point(b, i - 1), v) { CodeInRange(f, b, i - 1, v, r); }
  }

  lemma {:induction false} SpanInRange(f: Func, liveIn: seq<set<VReg>>, liveOut: seq<set<VReg>>, b: nat, v: VReg)
    requires WellFormed(f) && Shape(f, liveIn, liveOut) && b <= |f.blocks|
    requires SpanUpTo(f, liveIn, liveOut, b, v).Some?
    ensures v in Below(f.vregs)
  {
    if b > 0 {
      var r := SpanUpTo(f, liveIn, liveOut, b - 1, v);
      if r.Some? { SpanInRange(f, liveIn, liveOut, b - 1, v); }
      if !(v in liveIn[b - 1] || v in liveOut[b - 1]) {
        CodeInRange(f, b - 1, BlockLen(f, b - 1) + 1, v, r);
      }
    }
  }

  method BuildIntervals(f: Func, liveIn: seq<set<VReg>>, liveOut: seq<set<VReg>>) returns (m: Ranges)
    requires WellFormed(f) && Shape(f, liveIn, liveOut)
    ensures IntervalsOf(f, liveIn, liveOut, m)
  {
    m := TouchBlocks(f, liveIn, liveOut);
    forall v | v in m
      ensures v in Below(f.vregs)
    {
      assert Look(m, v).Some?;
      SpanInRange(f, liveIn, liveOut, |f.blocks|, v);
    }
    ghost var hull := m;
    var v := 0;
    while v < f.vregs
      invariant 0 <= v <= f.vregs
      invariant forall u: VReg :: u in m <==> u in hull || u < v
      invariant forall u: VReg :: u in m ==> m[u] == if u in hull then hull[u] else Span(0, 0)
    {
      if v !in m { m := m[v := Span(0, 0)]; }
      v := v + 1;
    }
    assert forall u :: u in m ==> Look(hull, u) == SpanUpTo(f, liveIn, liveOut, |f.blocks|, u);
  }

  // ---------- every touch is covered ----------

  ghost predicate CoveredBy(r: Option<Span>, pos: nat) { r.Some? && Covers(r.value, pos) }

  lemma CodeKeeps(f: Func, b: nat, i: nat, v: VReg, r: Option<Span>, pos: nat)
    requires b < |f.blocks| && i <= BlockLen(f, b) + 1 && CoveredBy(r, pos)
    ensures CoveredBy(CodeSpan(f, b, i, v, r), pos)
  {
    if i > 0 { CodeKeeps(f, b, i - 1, v, r, pos); }
  }

  lemma CodeCovers(f: Func, b: nat, i: nat, j: nat, v: VReg, r: Option<Span>)
    requires b < |f.blocks| && j < i <= BlockLen(f, b) + 1 && Mentions(f, Point(b, j), v)
    ensures CoveredBy(CodeSpan(f, b, i, v, r), Entry(f, b) + j)
  {
    if i > j + 1 { CodeCovers(f, b, i - 1, j, v, r); }
  }

  lemma BlockKeeps(f: Func, b: nat, v: VReg, inn: bool, out: bool, r: Option<Span>, pos: nat)
    requires b < |f.blocks| && CoveredBy(EdgeSpan(f, b, inn, out, r), pos)
    ensures CoveredBy(BlockSpan(f, b, v, inn, out, r), pos)
  {
    CodeKeeps(f, b, BlockLen(f, b) + 1, v, EdgeSpan(f, b, inn, out, r), pos);
  }

  lemma SpanKeeps(f: Func, liveIn: seq<set<VReg>>, liveOut: seq<set<VReg>>, b: nat, c: nat, v: VReg, pos: nat)
    requires |liveIn| == |liveOut| == |f.blocks| && b <= c <= |f.blocks|
    requires CoveredBy(SpanUpTo(f, liveIn, liveOut, b, v), pos)
    ensures CoveredBy(SpanUpTo(f, liveIn, liveOut, c, v), pos)
  {
    if b < c {
      SpanKeeps(f, liveIn, liveOut, b, c - 1, v, pos);
      BlockKeeps(f, c - 1, v, v in liveIn[c - 1], v in liveOut[c - 1], SpanUpTo(f, liveIn, liveOut, c - 1, v), pos);
    }
  }

  /** The positions the allocator touches `v` at. */
  ghost predicate IsTouch(f: Func, v: VReg, p: Point)
    requires IsPoint(f, p)
  {
    || Mentions(f, p, v)
    || (p.pos == 0 && LiveAt(f, p, v))
    || (p.pos == BlockLen(f, p.block) && LiveOutOf(f, p.block, v))
  }

  lemma BlockCovers(f: Func, v: VReg, inn: bool, out: bool, r: Option<Span>, p: Point)
    requires IsPoint(f, p)
    requires Mentions(f, p, v) || (p.pos == 0 && inn) || (p.pos == BlockLen(f, p.block) && out)
    ensures CoveredBy(BlockSpan(f, p.block, v, inn, out, r), Pos(f, p))
  {
    var b := p.block;
    if Mentions(f, p, v) {
      CodeCovers(f, b, BlockLen(f, b) + 1, p.pos, v, EdgeSpan(f, b, inn, out, r));
    } else {
      BlockKeeps(f, b, v, inn, out, r, Pos(f, p));
    }
  }

  lemma TouchCovered(f: Func, liveIn: seq<set<VReg>>, liveOut: seq<set<VReg>>, m: Ranges, v: VReg, p: Point)
    requires Exact(f, liveIn, liveOut) && IntervalsOf(f, liveIn, liveOut, m)
    requires IsPoint(f, p) && IsTouch(f, v, p) && v < f.vregs
    ensures v in m && Covers(m[v], Pos(f, p))
  {
    var b := p.block;
    BlockCovers(f, v, v in liveIn[b], v in liveOut[b], SpanUpTo(f, liveIn, liveOut, b, v), p);
    SpanKeeps(f, liveIn, liveOut, b + 1, |f.blocks|, v, Pos(f, p));
    assert v in Below(f.vregs);
  }

  lemma IncomingCovered(f: Func, liveIn: seq<set<VReg>>, liveOut: seq<set<VReg>>, m: Ranges, v: VReg)
    requires |liveIn| == |liveOut| == |f.blocks| && v < Incoming(f)
    requires WellFormed(f) && IntervalsOf(f, liveIn, liveOut, m)
    ensures v in m && Covers(m[v], 0)
  {
    SpanKeeps(f, liveIn, liveOut, 0, |f.blocks|, v, 0);
    assert v in Below(f.vregs);
  }

  /** A position of a touch not above `p` in its block, when `v` is live at `p`. */
  lemma LiveHasEarlierTouch(f: Func, p: Point, v: VReg) returns (q: Point)
    requires IsPoint(f, p) && LiveAt(f, p, v)
    ensures q.block == p.block && q.pos <= p.pos && IsPoint(f, q) && IsTouch(f, v, q)
  {
    if Uncut(f, p.block, 0, p.pos, v) {
      LiveThrough(f, p.block, 0, p.pos, v);
      q := Point(p.block, 0);
    } else {
      var k: nat :| k < p.pos && v in DefsAt(f, Point(p.block, k));
      q := Point(p.block, k);
    }
  }

  lemma LiveHasLaterTouch(f: Func, liveIn: seq<set<VReg>>, liveOut: seq<set<VReg>>, p: Point, v: VReg) returns (q: Point)
    requires WellFormed(f) && Exact(f, liveIn, liveOut) && LiveAt(f, p, v)
    ensures IsPoint(f, p) && q.block == p.block && p.pos <= q.pos && IsPoint(f, q) && IsTouch(f, v, q)
  {
    ExactLocal(f, liveIn, liveOut, p, v);
    if j: nat :| p.pos <= j <= BlockLen(f, p.block) && v in UsesAt(f, Point(p.block, j)) && Uncut(f, p.block, p.pos, j, v) {
      q := Point(p.block, j);
    } else {
      q := Point(p.block, BlockLen(f, p.block));
    }
  }

  lemma LiveBelowVregs(f: Func, p: Point, v: VReg)
    requires WellFormed(f) && LiveAt(f, p, v)
    ensures v < f.vregs
  {
    var path :| UsePath(f, v, path) && path[0] == p;
    assert IsPoint(f, path[|path| - 1]);
  }

  /** `v` needs its home at `p`: it is live there, used there or defined there. */
  ghost predicate Needs(f: Func, p: Point, v: VReg)
    requires IsPoint(f, p)
  {
    LiveAt(f, p, v) || Mentions(f, p, v)
  }

  /** Coverage, for arbitrary control flow with back edges. */
  lemma Coverage(f: Func, liveIn: seq<set<VReg>>, liveOut: seq<set<VReg>>, m: Ranges, p: Point, v: VReg)
    requires WellFormed(f) && Exact(f, liveIn, liveOut) && IntervalsOf(f, liveIn, liveOut, m)
    requires IsPoint(f, p) && Needs(f, p, v)
    ensures v in m && Covers(m[v], Pos(f, p))
  {
    if Mentions(f, p, v) {
      TouchCovered(f, liveIn, liveOut, m, v, p);
    } else {
      LiveBelowVregs(f, p, v);
      var lo := LiveHasEarlierTouch(f, p, v);
      var hi := LiveHasLaterTouch(f, liveIn, liveOut, p, v);
      TouchCovered(f, liveIn, liveOut, m, v, lo);
      TouchCovered(f, liveIn, liveOut, m, v, hi);
    }
  }

  // ---------- and nothing else is ----------

  ghost predicate TouchAtPos(f: Func, v: VReg, pos: nat) {
    || (v < Incoming(f) && pos == 0)
    || (exists p :: IsPoint(f, p) && IsTouch(f, v, p) && Pos(f, p) == pos)
  }

  ghost predicate TightRange(f: Func, v: VReg, r: Option<Span>) {
    r.Some? ==> TouchAtPos(f, v, r.value.start) && TouchAtPos(f, v, r.value.end)
  }

  lemma TightTouch(f: Func, v: VReg, r: Option<Span>, touched: bool, p: Point)
    requires TightRange(f, v, r) && IsPoint(f, p) && (touched ==> IsTouch(f, v, p))
    ensures TightRange(f, v, Touch(r, touched, Pos(f, p)))
  {
  }

  lemma TightCode(f: Func, b: nat, i: nat, v: VReg, r: Option<Span>)
    requires b < |f.blocks| && i <= BlockLen(f, b) + 1 && TightRange(f, v, r)
    ensures TightRange(f, v, CodeSpan(f, b, i, v, r))
  {
    if i > 0 {
      TightCode(f, b, i - 1, v, r);
      var p := Point(b, i - 1);
      TightTouch(f, v, CodeSpan(f, b, i - 1, v, r), Mentions(f, p, v), p);
    }
  }

  lemma TightBlock(f: Func, b: nat, v: VReg, inn: bool, out: bool, r: Option<Span>)
    requires b < |f.blocks| && TightRange(f, v, r)
    requires inn ==> LiveAt(f, Point(b, 0), v)
    requires out ==> LiveOutOf(f, b, v)
    ensures TightRange(f, v, BlockSpan(f, b, v, inn, out, r))
  {
    TightTouch(f, v, r, inn, Point(b, 0));
    TightTouch(f, v, Touch(r, inn, Entry(f, b)), out, Point(b, BlockLen(f, b)));
    TightCode(f, b, BlockLen(f, b) + 1, v, EdgeSpan(f, b, inn, out, r));
  }

  /** Both ends of a computed span are touched positions: spans are no longer than needed. */
  lemma {:induction false} SpanTight(f: Func, liveIn: seq<set<VReg>>, liveOut: seq<set<VReg>>, b: nat, v: VReg)
    requires Exact(f, liveIn, liveOut) && b <= |f.blocks|
    ensures TightRange(f, v, SpanUpTo(f, liveIn, liveOut, b, v))
  {
    if b > 0 {
      SpanTight(f, liveIn, liveOut, b - 1, v);
      TightBlock(f, b - 1, v, v in liveIn[b - 1], v in liveOut[b - 1], SpanUpTo(f, liveIn, liveOut, b - 1, v));
    }
  }
}
