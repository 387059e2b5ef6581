/** The register allocator: liveness, intervals, linear scan, and the
    interference freedom the emitter relies on. */
module RegAlloc {
  import opened Ir
  import opened Liveness
  import opened Intervals
  import opened LinearScan
  import opened Locations

  // ---------- spans are proper ----------

  ghost predicate ProperRange(r: Option<Span>) { r.Some? ==> r.value.start <= r.value.end }

  lemma CodeProper(f: Func, b: nat, i: nat, v: VReg, r: Option<Span>)
    requires b < |f.blocks| && i <= BlockLen(f, b) + 1 && ProperRange(r)
    ensures ProperRange(CodeSpan(f, b, i, v, r))
  {
    if i > 0 { CodeProper(f, b, i - 1, v, r); }
  }

  lemma {:induction false} SpanProper(f: Func, liveIn: seq<set<VReg>>, liveOut: seq<set<VReg>>, b: nat, v: VReg)
    requires |liveIn| == |liveOut| == |f.blocks| && b <= |f.blocks|
    ensures ProperRange(SpanUpTo(f, liveIn, liveOut, b, v))
  {
    if b > 0 {
      SpanProper(f, liveIn, liveOut, b - 1, v);
      var r := SpanUpTo(f, liveIn, liveOut, b - 1, v);
      var e := EdgeSpan(f, b - 1, v in liveIn[b - 1], v in liveOut[b - 1], r);
      CodeProper(f, b - 1, BlockLen(f, b - 1) + 1, v, e);
    }
  }

  lemma IntervalsProper(f: Func, liveIn: seq<set<VReg>>, liveOut: seq<set<VReg>>, m: Ranges)
    requires |liveIn| == |liveOut| == |f.blocks| && IntervalsOf(f, liveIn, liveOut, m)
    ensures Proper(m)
  {
    forall v | v in m
      ensures m[v].start <= m[v].end
    {
      SpanProper(f, liveIn, liveOut, |f.blocks|, v);
    }
  }

  // ---------- the allocator ----------

  /** The allocator's result, stage by stage: exact live sets, their interval
      table, and linear scan of it, which is sound and spills exactly when it must. */
  ghost predicate Stages(f: Func, liveIn: seq<set<VReg>>, liveOut: seq<set<VReg>>, m: Ranges, a: Allocation) {
    && Exact(f, liveIn, liveOut)
    && IntervalsOf(f, liveIn, liveOut, m)
    && ScanSound(m, f.vregs, a)
    && (forall v: VReg :: v < f.vregs ==> v in m) && a == ScanOf(m, f.vregs)
    && (a.spills == 0 <==> !Crowded(m)) && a.spills <= f.vregs
  }

  ghost predicate AllocationOf(f: Func, a: Allocation) {
    exists liveIn, liveOut, m :: Stages(f, liveIn, liveOut, m, a)
  }

  /** The vregs live into and out of each block of the source function. */
  ghost function LiveIns(f: Func): seq<set<VReg>> {
    seq(|f.blocks|, b requires 0 <= b < |f.blocks| => set v | v in Below(f.vregs) && LiveAt(f, Point(b, 0), v))
  }

  ghost function LiveOuts(f: Func): seq<set<VReg>> {
    seq(|f.blocks|, b requires 0 <= b < |f.blocks| => set v | v in Below(f.vregs) && LiveOutOf(f, b, v))
  }

  /** The interval of a vreg of the source function. */
  ghost function SpanOf(f: Func, v: VReg): Span {
    match SpanUpTo(f, LiveIns(f), LiveOuts(f), |f.blocks|, v) case Some(s) => s case None => Span(0, 0)
  }

  ghost function SpansOf(f: Func): (m: Ranges)
    ensures forall v: VReg :: v < f.vregs ==> v in m && m[v] == SpanOf(f, v)
    ensures m.Keys == Below(f.vregs)
  {
    assert forall v: VReg :: v in Below(f.vregs) <==> v < f.vregs;
    map v | v in Below(f.vregs) :: SpanOf(f, v)
  }

  /** Where linear scan over the source function's own intervals puts its vregs. */
  ghost function Homes(f: Func): (a: Allocation)
    ensures |a.loc| == f.vregs
  {
    ScanOf(SpansOf(f), f.vregs)
  }

  lemma ExactIs(f: Func, liveIn: seq<set<VReg>>, liveOut: seq<set<VReg>>)
    requires WellFormed(f) && Exact(f, liveIn, liveOut)
    ensures liveIn == LiveIns(f) && liveOut == LiveOuts(f)
  {
    ExactShape(f, liveIn, liveOut);
    forall b | 0 <= b < |f.blocks|
      ensures liveIn[b] == LiveIns(f)[b] && liveOut[b] == LiveOuts(f)[b]
    {
      assert liveIn[b] <= Below(f.vregs) && liveOut[b] <= Below(f.vregs);
    }
  }

  /** The allocation is a function of the source function alone. */
  lemma AllocationIs(f: Func, a: Allocation)
    requires WellFormed(f) && AllocationOf(f, a)
    ensures a == Homes(f)
  {
    hide Exact, ScanSound, WellFormed, Crowded, IntervalsOf;
    var liveIn, liveOut, m :| Stages(f, liveIn, liveOut, m, a);
    ExactIs(f, liveIn, liveOut);
    TableIs(f, m);
  }

  lemma TableIs(f: Func, m: Ranges)
    requires IntervalsOf(f, LiveIns(f), LiveOuts(f), m)
    ensures m == SpansOf(f)
  {
    hide LiveIns, LiveOuts, SpanUpTo;
    forall v | v in m
      ensures v in SpansOf(f) && m[v] == SpansOf(f)[v]
    {
      assert v in Below(f.vregs) && v in SpansOf(f).Keys;
    }
    assert m.Keys == SpansOf(f).Keys;
  }

  lemma ExactShape(f: Func, liveIn: seq<set<VReg>>, liveOut: seq<set<VReg>>)
    requires WellFormed(f) && Exact(f, liveIn, liveOut)
    ensures Shape(f, liveIn, liveOut)
  {
    forall b, v | 0 <= b < |f.blocks| && v in liveIn[b]
      ensures v in Below(f.vregs)
    {
      LiveBelowVregs(f, Point(b, 0), v);
    }
    forall b, v | 0 <= b < |f.blocks| && v in liveOut[b]
      ensures v in Below(f.vregs)
    {
      assert LiveOutOf(f, b, v);
      var s :| s in Succs(f.blocks[b].term) && LiveAt(f, Point(s, 0), v);
      LiveBelowVregs(f, Point(s, 0), v);
    }
  }

  method Allocate(f: Func) returns (a: Allocation)
    requires WellFormed(f)
    ensures AllocationOf(f, a) && a == Homes(f)
  {
    var liveIn, liveOut := LiveSets(f);
    ExactShape(f, liveIn, liveOut);
    var m := BuildIntervals(f, liveIn, liveOut);
    IntervalsProper(f, liveIn, liveOut, m);
    a := Scan(m, f.vregs);
    assert Stages(f, liveIn, liveOut, m, a);
    AllocationIs(f, a);
  }

  // ---------- what the emitter relies on ----------

  lemma Located(f: Func, a: Allocation, v: VReg)
    requires AllocationOf(f, a) && v < f.vregs
    ensures v < |a.loc| == f.vregs && (a.loc[v].Slot? ==> a.loc[v].k < a.spills)
  {
    var liveIn, liveOut, m :| Stages(f, liveIn, liveOut, m, a);
  }

  lemma LocLength(f: Func, a: Allocation)
    requires AllocationOf(f, a)
    ensures |a.loc| == f.vregs && a.spills <= f.vregs
  {
    var liveIn, liveOut, m :| Stages(f, liveIn, liveOut, m, a);
  }

  lemma NeedsBelowVregs(f: Func, p: Point, v: VReg)
    requires WellFormed(f) && IsPoint(f, p) && Needs(f, p, v)
    ensures v < f.vregs
  {
    if !Mentions(f, p, v) { LiveBelowVregs(f, p, v); }
  }

  lemma ApartAt(m: Ranges, vregs: nat, a: Allocation, u: VReg, v: VReg, pos: nat)
    requires m.Keys == Below(vregs) && ScanSound(m, vregs, a) && u != v
    requires u in m && v in m && Covers(m[u], pos) && Covers(m[v], pos)
    ensures u < |a.loc| && v < |a.loc| && a.loc[u] != a.loc[v]
  {
    assert u in m.Keys && v in m.Keys;
  }

  /** Vregs of the source function share a home only when it is a register and
      their intervals are disjoint. */
  lemma SharedApart(f: Func, a: Allocation, u: VReg, v: VReg)
    requires WellFormed(f) && AllocationOf(f, a) && u != v && u < f.vregs && v < f.vregs
    requires Homes(f).loc[u] == Homes(f).loc[v]
    ensures Homes(f).loc[u].Reg? && (SpanOf(f, u).end < SpanOf(f, v).start || SpanOf(f, v).end < SpanOf(f, u).start)
  {
    hide WellFormed, Homes, Exact, Crowded, IntervalsOf, SpanOf, LiveIns, LiveOuts;
    var liveIn, liveOut, m :| Stages(f, liveIn, liveOut, m, a);
    AllocationIs(f, a);
    ExactIs(f, liveIn, liveOut);
    TableIs(f, m);
    assert m[u] == SpanOf(f, u) && m[v] == SpanOf(f, v);
  }

  lemma IncomingStarts(f: Func, a: Allocation, v: VReg)
    requires WellFormed(f) && AllocationOf(f, a) && v < Incoming(f)
    ensures SpanOf(f, v).start == 0
  {
    hide Crowded, IntervalsOf, SpanOf, LiveIns, LiveOuts, ScanSound, ScanOf, WellFormed;
    var liveIn, liveOut, m :| Stages(f, liveIn, liveOut, m, a);
    ExactIs(f, liveIn, liveOut);
    TableIs(f, m);
    IncomingCovered(f, liveIn, liveOut, m, v);
    assert v in m && m[v] == SpanOf(f, v);
  }

  /** Two vregs needed at the same point never share a location. */
  lemma Interference(f: Func, a: Allocation, p: Point, u: VReg, v: VReg)
    requires WellFormed(f) && AllocationOf(f, a) && IsPoint(f, p) && u != v
    requires Needs(f, p, u) && Needs(f, p, v)
    ensures u < |a.loc| && v < |a.loc| && a.loc[u] != a.loc[v]
  {
    var liveIn, liveOut, m :| Stages(f, liveIn, liveOut, m, a);
    NeedsBelowVregs(f, p, u);
    NeedsBelowVregs(f, p, v);
    Coverage(f, liveIn, liveOut, m, p, u);
    Coverage(f, liveIn, liveOut, m, p, v);
    ApartAt(m, f.vregs, a, u, v, Pos(f, p));
  }

  /** Nothing in the function mentions `v` or is live through it. */
  ghost predicate Untouched(f: Func, v: VReg) {
    forall p :: IsPoint(f, p) ==> !IsTouch(f, v, p)
  }

  /** `v` occupies its location at position 0. */
  ghost predicate AtEntry(f: Func, v: VReg) {
    || v < Incoming(f)
    || (IsPoint(f, Point(0, 0)) && Needs(f, Point(0, 0), v))
    || Untouched(f, v)
  }

  lemma EntryCovered(f: Func, liveIn: seq<set<VReg>>, liveOut: seq<set<VReg>>, m: Ranges, v: VReg)
    requires WellFormed(f) && Exact(f, liveIn, liveOut) && IntervalsOf(f, liveIn, liveOut, m)
    requires AtEntry(f, v) && v < f.vregs
    ensures v in m && Covers(m[v], 0)
  {
    assert v in Below(f.vregs);
    if v < Incoming(f) {
      IncomingCovered(f, liveIn, liveOut, m, v);
    } else if IsPoint(f, Point(0, 0)) && Needs(f, Point(0, 0), v) {
      Coverage(f, liveIn, liveOut, m, Point(0, 0), v);
    } else {
      SpanTight(f, liveIn, liveOut, |f.blocks|, v);
      assert SpanUpTo(f, liveIn, liveOut, |f.blocks|, v).None?;
    }
  }

  /** Vregs that occupy position 0 get pairwise distinct locations. */
  lemma EntryInterference(f: Func, a: Allocation, u: VReg, v: VReg)
    requires WellFormed(f) && AllocationOf(f, a) && u != v && u < f.vregs && v < f.vregs
    requires AtEntry(f, u) && AtEntry(f, v)
    ensures u < |a.loc| && v < |a.loc| && a.loc[u] != a.loc[v]
  {
    var liveIn, liveOut, m :| Stages(f, liveIn, liveOut, m, a);
    EntryCovered(f, liveIn, liveOut, m, u);
    EntryCovered(f, liveIn, liveOut, m, v);
    ApartAt(m, f.vregs, a, u, v, 0);
  }
}
