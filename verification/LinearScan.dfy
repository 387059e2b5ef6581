/** Linear scan with eviction over the five callee-saved registers. */
module LinearScan {
  import opened Ir
  import opened Liveness
  import opened Intervals
  import opened Locations

  datatype Range = Range(vreg: VReg, start: nat, end: nat)

  /** An active entry: recorded end, index into `POOL`, resident vreg. */
  datatype Active = Active(end: nat, idx: nat, vreg: VReg)

  datatype State = State(loc: seq<Loc>, spills: nat, free: seq<nat>, active: seq<Active>)

  // ---------- ordering the ranges ----------

  /** Ascending by start, then end, then vreg. */
  predicate Before(a: Range, b: Range) {
    a.start < b.start || (a.start == b.start && (a.end < b.end || (a.end == b.end && a.vreg < b.vreg)))
  }

  ghost predicate Sorted(rs: seq<Range>) {
    forall i, j :: 0 <= i < j < |rs| ==> Before(rs[i], rs[j])
  }

  function InsertRange(rs: seq<Range>, r: Range): seq<Range> {
    if rs == [] || Before(r, rs[0]) then [r] + rs else [rs[0]] + InsertRange(rs[1..], r)
  }

  lemma InsertRangeHas(rs: seq<Range>, r: Range, x: Range)
    ensures x in InsertRange(rs, r) <==> x in rs || x == r
  {
    if rs != [] && !Before(r, rs[0]) { InsertRangeHas(rs[1..], r, x); }
  }

  lemma InsertRangeSorted(rs: seq<Range>, r: Range)
    requires Sorted(rs) && forall x :: x in rs ==> x.vreg != r.vreg
    ensures Sorted(InsertRange(rs, r))
  {
    if rs != [] && !Before(r, rs[0]) {
      InsertRangeSorted(rs[1..], r);
      var t := InsertRange(rs[1..], r);
      forall i | 0 <= i < |t|
        ensures Before(rs[0], t[i])
      {
        InsertRangeHas(rs[1..], r, t[i]);
      }
    }
  }

  /** The ranges of all vregs, each once, in scan order. */
  ghost predicate OrderOf(m: Ranges, n: nat, rs: seq<Range>) {
    && Sorted(rs)
    && (forall x :: x in rs ==> x.vreg < n && x.vreg in m && m[x.vreg] == Span(x.start, x.end))
    && (forall v: VReg :: v < n && v in m ==> Range(v, m[v].start, m[v].end) in rs)
  }

  lemma OrderStep(m: Ranges, v: VReg, rs: seq<Range>)
    requires OrderOf(m, v, rs) && v in m
    ensures OrderOf(m, v + 1, InsertRange(rs, Range(v, m[v].start, m[v].end)))
  {
    var r := Range(v, m[v].start, m[v].end);
    var rs' := InsertRange(rs, r);
    InsertRangeSorted(rs, r);
    forall x | x in rs'
      ensures x.vreg < v + 1 && x.vreg in m && m[x.vreg] == Span(x.start, x.end)
    {
      InsertRangeHas(rs, r, x);
    }
    forall u: VReg | u < v + 1 && u in m
      ensures Range(u, m[u].start, m[u].end) in rs'
    {
      InsertRangeHas(rs, r, Range(u, m[u].start, m[u].end));
    }
  }

  /** The ranges of the vregs below `n`, sorted. */
  function Ordered(m: Ranges, n: nat): (rs: seq<Range>)
    requires forall v: VReg :: v < n ==> v in m
    ensures forall x :: x in rs ==> x.vreg < n
  {
    if n == 0 then [] else
      var r := Range(n - 1, m[n - 1].start, m[n - 1].end);
      InsertRangeOnly(Ordered(m, n - 1), r);
      InsertRange(Ordered(m, n - 1), r)
  }

  lemma InsertRangeOnly(rs: seq<Range>, r: Range)
    ensures forall x :: x in InsertRange(rs, r) ==> x in rs || x == r
  {
    forall x | x in InsertRange(rs, r)
      ensures x in rs || x == r
    {
      InsertRangeHas(rs, r, x);
    }
  }

  lemma NothingOrdered(m: Ranges)
    ensures OrderOf(m, 0, [])
  {
  }

  method OrderRanges(m: Ranges, n: nat) returns (rs: seq<Range>)
    requires m.Keys == Below(n)
    ensures OrderOf(m, n, rs) && rs == Ordered(m, n)
  {
    hide OrderOf, InsertRange;
    assert forall v: VReg :: v < n ==> v in Below(n);
    assert OrderOf(m, 0, []) by { NothingOrdered(m); }
    rs := [];
    var v: nat := 0;
    while v < n
      invariant 0 <= v <= n
      invariant OrderOf(m, v, rs) && rs == Ordered(m, v)
    {
      assert v in m.Keys;
      OrderStep(m, v, rs);
      rs := InsertRange(rs, Range(v, m[v].start, m[v].end));
      v := v + 1;
    }
  }

  // ---------- the scan's invariant ----------

  function InsertFree(free: seq<nat>, k: nat): seq<nat> {
    if free == [] || k < free[0] then [k] + free else [free[0]] + InsertFree(free[1..], k)
  }

  lemma InsertFreeHas(free: seq<nat>, k: nat, x: nat)
    ensures x in InsertFree(free, k) <==> x in free || x == k
    ensures |InsertFree(free, k)| == |free| + 1
  {
    if free != [] && !(k < free[0]) { InsertFreeHas(free[1..], k, x); }
  }

  ghost predicate Ascending(free: seq<nat>) {
    forall i, j :: 0 <= i < j < |free| ==> free[i] < free[j]
  }

  lemma InsertFreeAscending(free: seq<nat>, k: nat)
    requires Ascending(free) && k !in free
    ensures Ascending(InsertFree(free, k))
  {
    if free != [] && !(k < free[0]) {
      InsertFreeAscending(free[1..], k);
      var t := InsertFree(free[1..], k);
      forall i | 0 <= i < |t|
        ensures free[0] < t[i]
      {
        InsertFreeHas(free[1..], k, t[i]);
      }
    }
  }

  ghost predicate Holds(active: seq<Active>, k: nat) {
    exists i :: 0 <= i < |active| && active[i].idx == k
  }

  /** Free and active registers partition the pool. */
  ghost predicate Partition(free: seq<nat>, active: seq<Active>) {
    && |free| + |active| == |POOL|
    && Ascending(free)
    && (forall i :: 0 <= i < |free| ==> free[i] < |POOL| && !Holds(active, free[i]))
    && (forall i :: 0 <= i < |active| ==> active[i].idx < |POOL|)
    && (forall i, j :: 0 <= i < j < |active| ==> active[i].idx != active[j].idx)
  }

  ghost predicate Placed(span: Ranges, done: set<VReg>, s: State) {
    forall v :: v in done ==> v in span && v < |s.loc| && (s.loc[v].Slot? ==> s.loc[v].k < s.spills)
  }

  /** Each active entry's resident sits in its register, and its recorded end is
      at or beyond the resident's true end. */
  ghost predicate Resident(span: Ranges, done: set<VReg>, s: State)
    requires Placed(span, done, s) && Partition(s.free, s.active)
  {
    forall i :: 0 <= i < |s.active| ==>
      var a := s.active[i];
      && a.vreg in done && s.loc[a.vreg] == Reg(POOL[a.idx]) && span[a.vreg].end <= a.end
  }

  ghost predicate IsResident(active: seq<Active>, v: VReg) {
    exists i :: 0 <= i < |active| && active[i].vreg == v
  }

  /** A vreg that is in a register but no longer active ended before `cur`. */
  ghost predicate Retired(span: Ranges, done: set<VReg>, cur: nat, s: State)
    requires Placed(span, done, s)
  {
    forall v :: v in done && s.loc[v].Reg? ==> IsResident(s.active, v) || span[v].end < cur
  }

  /** Two vregs share a location only when it is a register and their spans are disjoint. */
  ghost predicate Apart(span: Ranges, done: set<VReg>, loc: seq<Loc>)
    requires forall v :: v in done ==> v in span && v < |loc|
  {
    forall u, v :: u in done && v in done && u != v && loc[u] == loc[v] ==>
      loc[u].Reg? && !Overlap(span[u], span[v])
  }

  ghost predicate Started(span: Ranges, done: set<VReg>, cur: nat)
    requires forall v :: v in done ==> v in span
  {
    forall v :: v in done ==> span[v].start <= cur
  }

  ghost function Crowd(span: Ranges, pos: nat): set<VReg> {
    set v | v in span && Covers(span[v], pos)
  }

  ghost predicate Crowded(span: Ranges) { exists pos :: |Crowd(span, pos)| > |POOL| }

  /** Until the first spill every placed vreg is in a register and recorded ends
      are exact; a spill only ever happens at a crowded position. */
  ghost predicate SpillHistory(span: Ranges, done: set<VReg>, s: State)
    requires Placed(span, done, s) && Partition(s.free, s.active) && Resident(span, done, s)
  {
    && (s.spills == 0 ==> forall i :: 0 <= i < |s.active| ==> s.active[i].end == span[s.active[i].vreg].end)
    && (s.spills > 0 ==> Crowded(span))
  }

  ghost predicate Inv(span: Ranges, done: set<VReg>, cur: nat, s: State) {
    && Placed(span, done, s) && Partition(s.free, s.active) && Resident(span, done, s)
    && Retired(span, done, cur, s) && Apart(span, done, s.loc) && Started(span, done, cur)
    && SpillHistory(span, done, s)
  }

  // ---------- expiry ----------

  function Remove(active: seq<Active>, i: nat): seq<Active>
    requires i < |active|
  {
    active[..i] + active[i + 1..]
  }

  lemma PartitionExpire(free: seq<nat>, active: seq<Active>, i: nat)
    requires Partition(free, active) && i < |active|
    ensures Partition(InsertFree(free, active[i].idx), Remove(active, i))
  {
    var k := active[i].idx;
    var free', active' := InsertFree(free, k), Remove(active, i);
    assert Holds(active, k);
    InsertFreeAscending(free, k);
    InsertFreeHas(free, k, k);
    forall j | 0 <= j < |free'|
      ensures free'[j] < |POOL| && !Holds(active', free'[j])
    {
      InsertFreeHas(free, k, free'[j]);
      assert forall h :: 0 <= h < |active'| ==> active'[h] == active[if h < i then h else h + 1];
    }
  }

  function ExpireAt(s: State, i: nat): State
    requires i < |s.active|
  {
    s.(free := InsertFree(s.free, s.active[i].idx), active := Remove(s.active, i))
  }

  lemma ExpireRetires(span: Ranges, done: set<VReg>, cur: nat, s: State, i: nat)
    requires Inv(span, done, cur, s) && i < |s.active| && s.active[i].end < cur
    ensures Retired(span, done, cur, ExpireAt(s, i))
  {
    var active' := Remove(s.active, i);
    forall v | v in done && s.loc[v].Reg?
      ensures IsResident(active', v) || span[v].end < cur
    {
      if h: nat :| h < |s.active| && s.active[h].vreg == v {
        assert s.active[h].vreg in done && span[v].end <= s.active[h].end;
        if h != i { assert active'[if h < i then h else h - 1].vreg == v; }
      }
    }
  }

  lemma ExpireKeeps(span: Ranges, done: set<VReg>, cur: nat, s: State, i: nat)
    requires Inv(span, done, cur, s) && i < |s.active| && s.active[i].end < cur
    ensures Inv(span, done, cur, ExpireAt(s, i))
  {
    PartitionExpire(s.free, s.active, i);
    ExpireRetires(span, done, cur, s, i);
    var active' := Remove(s.active, i);
    assert forall h :: 0 <= h < |active'| ==> active'[h] == s.active[if h < i then h else h + 1];
  }

  /** Registers are pool registers and residents are vregs. */
  predicate Sane(s: State) {
    && (forall i :: 0 <= i < |s.free| ==> s.free[i] < |POOL|)
    && (forall i :: 0 <= i < |s.active| ==> s.active[i].idx < |POOL| && s.active[i].vreg < |s.loc|)
  }

  lemma SaneExpire(s: State, i: nat)
    requires Sane(s) && i < |s.active|
    ensures Sane(ExpireAt(s, i))
  {
    var k := s.active[i].idx;
    forall j | 0 <= j < |InsertFree(s.free, k)|
      ensures InsertFree(s.free, k)[j] < |POOL|
    {
      InsertFreeHas(s.free, k, InsertFree(s.free, k)[j]);
    }
  }

  lemma InvSane(span: Ranges, done: set<VReg>, cur: nat, s: State)
    requires Inv(span, done, cur, s)
    ensures Sane(s)
  {
    forall i | 0 <= i < |s.active|
      ensures s.active[i].vreg < |s.loc|
    {
      assert s.active[i].vreg in done;
    }
  }

  /** The active list from entry `i` on, without what ended strictly before `cur`. */
  function ExpireFrom(s: State, cur: nat, i: nat): (r: State)
    requires Sane(s)
    ensures Sane(r) && r.loc == s.loc
    decreases |s.active| - i
  {
    if i >= |s.active| then s
    else if s.active[i].end < cur then SaneExpire(s, i); ExpireFrom(ExpireAt(s, i), cur, i)
    else ExpireFrom(s, cur, i + 1)
  }

  /** Drop every active range that ended strictly before `cur`. */
  method Expire(span: Ranges, ghost done: set<VReg>, cur: nat, s0: State) returns (s: State)
    requires Inv(span, done, cur, s0)
    ensures Inv(span, done, cur, s) && s.loc == s0.loc && s.spills == s0.spills
    ensures forall i :: 0 <= i < |s.active| ==> cur <= s.active[i].end
    ensures Sane(s0) && s == ExpireFrom(s0, cur, 0)
  {
    hide Inv, Sane;
    InvSane(span, done, cur, s0);
    s := s0;
    var i := 0;
    while i < |s.active|
      invariant 0 <= i <= |s.active|
      invariant Inv(span, done, cur, s) && s.loc == s0.loc && s.spills == s0.spills
      invariant forall j :: 0 <= j < i ==> cur <= s.active[j].end
      invariant Sane(s) && ExpireFrom(s0, cur, 0) == ExpireFrom(s, cur, i)
      decreases |s.active| - i
    {
      if s.active[i].end < cur {
        ExpireKeeps(span, done, cur, s, i);
        SaneExpire(s, i);
        s := ExpireAt(s, i);
      } else {
        i := i + 1;
      }
    }
  }

  // ---------- placing one range ----------

  /** The newcomer of a scan step: not placed yet, starting at the current position. */
  ghost predicate Newcomer(span: Ranges, done: set<VReg>, cur: nat, s: State, v: VReg) {
    && Inv(span, done, cur, s) && v in span && v !in done && v < |s.loc| && span[v].start == cur <= span[v].end
    && forall i :: 0 <= i < |s.active| ==> cur <= s.active[i].end
  }

  function TakeFree(s: State, v: VReg, end: nat): State
    requires v < |s.loc| && s.free != [] && s.free[0] < |POOL|
  {
    s.(free := s.free[1..], loc := s.loc[v := Reg(POOL[s.free[0]])],
       active := s.active + [Active(end, s.free[0], v)])
  }

  lemma PartitionTake(free: seq<nat>, active: seq<Active>, a: Active)
    requires Partition(free, active) && free != [] && a.idx == free[0]
    ensures Partition(free[1..], active + [a])
  {
    var active' := active + [a];
    forall i | 0 <= i < |free[1..]|
      ensures free[1..][i] < |POOL| && !Holds(active', free[1..][i])
    {
      assert free[0] < free[i + 1] && !Holds(active, free[i + 1]);
    }
    forall i, j | 0 <= i < j < |active'|
      ensures active'[i].idx != active'[j].idx
    {
      assert !Holds(active, free[0]);
    }
  }

  /** Nothing already placed both holds the register handed out and overlaps the newcomer. */
  lemma TakeApart(span: Ranges, done: set<VReg>, cur: nat, s: State, v: VReg)
    requires Newcomer(span, done, cur, s, v) && s.free != []
    ensures Apart(span, done + {v}, TakeFree(s, v, span[v].end).loc)
  {
    forall u | u in done && s.loc[u] == Reg(POOL[s.free[0]])
      ensures !Overlap(span[u], span[v])
    {
      forall h | 0 <= h < |s.active|
        ensures s.active[h].vreg != u
      {
        assert s.loc[s.active[h].vreg] == Reg(POOL[s.active[h].idx]);
        assert !Holds(s.active, s.free[0]);
      }
    }
  }

  lemma TakeRetires(span: Ranges, done: set<VReg>, cur: nat, s: State, v: VReg)
    requires Newcomer(span, done, cur, s, v) && s.free != []
    ensures Placed(span, done + {v}, TakeFree(s, v, span[v].end))
    ensures Retired(span, done + {v}, cur, TakeFree(s, v, span[v].end))
  {
    var s' := TakeFree(s, v, span[v].end);
    forall u | u in done + {v} && s'.loc[u].Reg?
      ensures IsResident(s'.active, u) || span[u].end < cur
    {
      if u == v {
        assert s'.active[|s.active|].vreg == v;
      } else if h: nat :| h < |s.active| && s.active[h].vreg == u {
        assert s'.active[h].vreg == u;
      }
    }
  }

  lemma TakeKeeps(span: Ranges, done: set<VReg>, cur: nat, s: State, v: VReg)
    requires Newcomer(span, done, cur, s, v) && s.free != []
    ensures Inv(span, done + {v}, cur, TakeFree(s, v, span[v].end))
  {
    PartitionTake(s.free, s.active, Active(span[v].end, s.free[0], v));
    TakeApart(span, done, cur, s, v);
    TakeRetires(span, done, cur, s, v);
  }

  // ---------- spilling ----------

  lemma CrowdSize(span: Ranges, pos: nat, rs: seq<VReg>)
    requires forall i :: 0 <= i < |rs| ==> rs[i] in span && Covers(span[rs[i]], pos)
    requires forall i, j :: 0 <= i < j < |rs| ==> rs[i] != rs[j]
    ensures |Crowd(span, pos)| >= |rs|
  {
    SeqSet(rs);
    SubsetSize(SetOf(rs), Crowd(span, pos));
  }

  lemma SeqSet(rs: seq<VReg>)
    requires forall i, j :: 0 <= i < j < |rs| ==> rs[i] != rs[j]
    ensures |SetOf(rs)| == |rs|
  {
    if rs == [] {
      assert SetOf(rs) == {};
    } else {
      SeqSet(rs[1..]);
      assert SetOf(rs) == SetOf(rs[1..]) + {rs[0]};
    }
  }

  ghost function Vregs(active: seq<Active>): seq<VReg> {
    seq(|active|, i requires 0 <= i < |active| => active[i].vreg)
  }

  /** With no register free and no spill yet, the residents and the newcomer all
      cover the current position. */
  lemma FullMeansCrowded(span: Ranges, done: set<VReg>, cur: nat, s: State, v: VReg)
    requires Newcomer(span, done, cur, s, v) && s.free == []
    ensures Crowded(span)
  {
    if s.spills == 0 {
      var rs := Vregs(s.active) + [v];
      forall i | 0 <= i < |rs|
        ensures rs[i] in span && Covers(span[rs[i]], cur)
      {
        if i < |s.active| { assert s.active[i].vreg in done && cur <= s.active[i].end; }
      }
      forall i, j | 0 <= i < j < |rs|
        ensures rs[i] != rs[j]
      {
        assert s.active[i].vreg in done && s.loc[s.active[i].vreg] == Reg(POOL[s.active[i].idx]);
        if j < |s.active| {
          assert s.loc[s.active[j].vreg] == Reg(POOL[s.active[j].idx]);
        }
      }
      CrowdSize(span, cur, rs);
    }
  }

  function SpillNew(s: State, v: VReg): State
    requires v < |s.loc|
  {
    s.(loc := s.loc[v := Slot(s.spills)], spills := s.spills + 1)
  }

  lemma SpillNewKeeps(span: Ranges, done: set<VReg>, cur: nat, s: State, v: VReg)
    requires Newcomer(span, done, cur, s, v) && s.free == []
    ensures Inv(span, done + {v}, cur, SpillNew(s, v))
  {
    FullMeansCrowded(span, done, cur, s, v);
  }

  /** The newcomer takes the register of entry `m`, whose resident moves to a
      fresh slot; the entry keeps its recorded end. */
  function Evict(s: State, v: VReg, m: nat): State
    requires m < |s.active| && v < |s.loc| && s.active[m].vreg < |s.loc| && s.active[m].idx < |POOL|
  {
    var a := s.active[m];
    s.(loc := s.loc[v := Reg(POOL[a.idx])][a.vreg := Slot(s.spills)], spills := s.spills + 1,
       active := s.active[m := a.(vreg := v)])
  }

  ghost predicate Evictable(span: Ranges, done: set<VReg>, cur: nat, s: State, v: VReg, m: nat) {
    && Newcomer(span, done, cur, s, v) && s.free == [] && m < |s.active|
    && s.active[m].vreg < |s.loc| && s.active[m].vreg != v && s.active[m].idx < |POOL|
    && span[v].end < s.active[m].end
  }

  lemma EvictApart(span: Ranges, done: set<VReg>, cur: nat, s: State, v: VReg, m: nat)
    requires Evictable(span, done, cur, s, v, m)
    ensures Apart(span, done + {v}, Evict(s, v, m).loc)
  {
    var a := s.active[m];
    forall u | u in done && u != a.vreg && s.loc[u] == Reg(POOL[a.idx])
      ensures !Overlap(span[u], span[v])
    {
      forall h | 0 <= h < |s.active|
        ensures s.active[h].vreg != u
      {
        assert s.loc[s.active[h].vreg] == Reg(POOL[s.active[h].idx]);
      }
    }
  }

  lemma EvictRetires(span: Ranges, done: set<VReg>, cur: nat, s: State, v: VReg, m: nat)
    requires Evictable(span, done, cur, s, v, m)
    ensures Placed(span, done + {v}, Evict(s, v, m)) && Retired(span, done + {v}, cur, Evict(s, v, m))
  {
    var s' := Evict(s, v, m);
    forall u | u in done + {v} && s'.loc[u].Reg?
      ensures IsResident(s'.active, u) || span[u].end < cur
    {
      if u == v {
        assert s'.active[m].vreg == v;
      } else if h: nat :| h < |s.active| && s.active[h].vreg == u {
        assert h != m && s'.active[h].vreg == u;
      }
    }
  }

  lemma EvictPartition(free: seq<nat>, active: seq<Active>, m: nat, v: VReg)
    requires Partition(free, active) && free == [] && m < |active|
    ensures Partition(free, active[m := active[m].(vreg := v)])
  {
  }

  lemma EvictResident(span: Ranges, done: set<VReg>, cur: nat, s: State, v: VReg, m: nat)
    requires Evictable(span, done, cur, s, v, m) && Placed(span, done + {v}, Evict(s, v, m))
    requires Partition(Evict(s, v, m).free, Evict(s, v, m).active)
    ensures Resident(span, done + {v}, Evict(s, v, m))
  {
    var s' := Evict(s, v, m);
    forall i | 0 <= i < |s'.active|
      ensures s'.active[i].vreg in done + {v} && s'.loc[s'.active[i].vreg] == Reg(POOL[s'.active[i].idx])
           && span[s'.active[i].vreg].end <= s'.active[i].end
    {
      var b := s.active[i];
      assert b.vreg in done && s.loc[b.vreg] == Reg(POOL[b.idx]) && span[b.vreg].end <= b.end;
      if i != m {
        assert s.loc[s.active[m].vreg] == Reg(POOL[s.active[m].idx]);
      }
    }
  }

  lemma EvictKeeps(span: Ranges, done: set<VReg>, cur: nat, s: State, v: VReg, m: nat)
    requires Evictable(span, done, cur, s, v, m)
    ensures Inv(span, done + {v}, cur, Evict(s, v, m))
  {
    FullMeansCrowded(span, done, cur, s, v);
    EvictApart(span, done, cur, s, v, m);
    EvictRetires(span, done, cur, s, v, m);
    EvictPartition(s.free, s.active, m, v);
    EvictResident(span, done, cur, s, v, m);
  }

  /** The last entry with the greatest recorded end. */
  ghost predicate IsFurthest(active: seq<Active>, m: nat) {
    && m < |active|
    && (forall i :: 0 <= i < |active| ==> active[i].end <= active[m].end)
    && (forall i :: m < i < |active| ==> active[i].end < active[m].end)
  }

  /** ... among the first `n` entries. */
  function FurthestIn(active: seq<Active>, n: nat): (m: nat)
    requires 0 < n <= |active|
    ensures m < n
  {
    if n == 1 then 0 else
      var m := FurthestIn(active, n - 1);
      if active[m].end <= active[n - 1].end then n - 1 else m
  }

  method Furthest(active: seq<Active>) returns (m: nat)
    requires active != []
    ensures IsFurthest(active, m) && m == FurthestIn(active, |active|)
  {
    m := 0;
    var i := 1;
    while i < |active|
      invariant 1 <= i <= |active| && m < i && m == FurthestIn(active, i)
      invariant forall j :: 0 <= j < i ==> active[j].end <= active[m].end
      invariant forall j :: m < j < i ==> active[j].end < active[m].end
    {
      if active[m].end <= active[i].end { m := i; }
      i := i + 1;
    }
  }

  /** Without a free register, the longer of the newcomer and entry `m` is spilled. */
  function Displace(s: State, v: VReg, end: nat, m: nat): State
    requires m < |s.active| && s.active[m].vreg < |s.loc| && s.active[m].idx < |POOL| && v < |s.loc|
  {
    if s.active[m].end > end then Evict(s, v, m) else SpillNew(s, v)
  }

  /** A free register if there is one, else the longest range is spilled. */
  function PlaceIn(s: State, v: VReg, end: nat): (r: State)
    requires Sane(s) && v < |s.loc|
    ensures Sane(r) && |r.loc| == |s.loc|
  {
    if s.free != [] then TakeFree(s, v, end)
    else if s.active == [] then SpillNew(s, v)
    else Displace(s, v, end, FurthestIn(s.active, |s.active|))
  }

  method Place(span: Ranges, ghost done: set<VReg>, s0: State, v: VReg) returns (s: State)
    requires v in span && Newcomer(span, done, span[v].start, s0, v)
    ensures Inv(span, done + {v}, span[v].start, s) && |s.loc| == |s0.loc| && s.spills <= s0.spills + 1
    ensures Sane(s0) && s == PlaceIn(s0, v, span[v].end)
  {
    ghost var cur := span[v].start;
    InvSane(span, done, cur, s0);
    if s0.free != [] {
      TakeKeeps(span, done, cur, s0, v);
      s := TakeFree(s0, v, span[v].end);
    } else {
      var m := Furthest(s0.active);
      assert s0.active[m].vreg in done;
      if s0.active[m].end > span[v].end {
        EvictKeeps(span, done, cur, s0, v, m);
        s := Evict(s0, v, m);
      } else {
        SpillNewKeeps(span, done, cur, s0, v);
        s := SpillNew(s0, v);
      }
    }
  }

  // ---------- the whole scan ----------

  ghost function DoneBy(rs: seq<Range>, n: nat): set<VReg>
    requires n <= |rs|
  {
    if n == 0 then {} else DoneBy(rs, n - 1) + {rs[n - 1].vreg}
  }

  lemma DoneIs(rs: seq<Range>, n: nat, v: VReg)
    requires n <= |rs|
    ensures v in DoneBy(rs, n) <==> exists i :: 0 <= i < n && rs[i].vreg == v
  {
    if n > 0 { DoneIs(rs, n - 1, v); }
  }

  /** Moving on to the next range keeps the invariant at the later position. */
  lemma Advance(span: Ranges, done: set<VReg>, cur: nat, cur': nat, s: State)
    requires Inv(span, done, cur, s) && cur <= cur'
    ensures Inv(span, done, cur', s)
  {
  }

  lemma NextIsNew(span: Ranges, vregs: nat, rs: seq<Range>, n: nat)
    requires OrderOf(span, vregs, rs) && n < |rs|
    ensures rs[n].vreg in span && rs[n].vreg < vregs && rs[n].vreg !in DoneBy(rs, n)
    ensures span[rs[n].vreg] == Span(rs[n].start, rs[n].end)
    ensures n > 0 ==> rs[n - 1].start <= rs[n].start
  {
    assert rs[n] in rs;
    DoneIs(rs, n, rs[n].vreg);
    forall i | 0 <= i < n
      ensures rs[i].vreg != rs[n].vreg
    {
      assert rs[i] in rs && Before(rs[i], rs[n]);
    }
    if n > 0 { assert Before(rs[n - 1], rs[n]); }
  }

  lemma AllDone(span: Ranges, vregs: nat, rs: seq<Range>)
    requires OrderOf(span, vregs, rs) && span.Keys == Below(vregs)
    ensures DoneBy(rs, |rs|) == Below(vregs)
  {
    forall v | v in Below(vregs)
      ensures v in DoneBy(rs, |rs|)
    {
      assert v in span.Keys;
      var i :| 0 <= i < |rs| && rs[i] == Range(v, span[v].start, span[v].end);
      DoneIs(rs, |rs|, v);
    }
    forall v | v in DoneBy(rs, |rs|)
      ensures v in Below(vregs)
    {
      DoneIs(rs, |rs|, v);
      var i :| 0 <= i < |rs| && rs[i].vreg == v;
      assert rs[i] in rs;
    }
  }

  lemma DoneCount(span: Ranges, vregs: nat, rs: seq<Range>, n: nat)
    requires OrderOf(span, vregs, rs) && n <= |rs|
    ensures |DoneBy(rs, n)| == n
  {
    if n > 0 {
      DoneCount(span, vregs, rs, n - 1);
      NextIsNew(span, vregs, rs, n - 1);
    }
  }

  /** One iteration: expire, then place. */
  function StepOf(s: State, r: Range): (t: State)
    requires Sane(s) && r.vreg < |s.loc|
    ensures Sane(t) && |t.loc| == |s.loc|
  {
    PlaceIn(ExpireFrom(s, r.start, 0), r.vreg, r.end)
  }

  method Step(span: Ranges, ghost done: set<VReg>, ghost cur: nat, s0: State, v: VReg) returns (s: State)
    requires Inv(span, done, cur, s0) && v in span && v !in done && v < |s0.loc|
    requires cur <= span[v].start <= span[v].end
    ensures Inv(span, done + {v}, span[v].start, s) && |s.loc| == |s0.loc| && s.spills <= s0.spills + 1
    ensures Sane(s0) && s == StepOf(s0, Range(v, span[v].start, span[v].end))
  {
    hide Inv, Sane;
    Advance(span, done, cur, span[v].start, s0);
    s := Expire(span, done, span[v].start, s0);
    s := Place(span, done, s, v);
  }

  ghost predicate Proper(span: Ranges) {
    forall v :: v in span ==> span[v].start <= span[v].end
  }

  function Start(vregs: nat): State { State(seq(vregs, _ => UNPLACED), 0, [0, 1, 2, 3, 4], []) }

  lemma StartInv(span: Ranges, vregs: nat)
    ensures Inv(span, {}, 0, Start(vregs))
  {
  }

  /** The scan's state after the first `n` ranges. */
  function ScanFrom(vregs: nat, rs: seq<Range>, n: nat): (s: State)
    requires n <= |rs| && forall x :: x in rs ==> x.vreg < vregs
    ensures Sane(s) && |s.loc| == vregs
  {
    if n == 0 then Start(vregs) else StepOf(ScanFrom(vregs, rs, n - 1), rs[n - 1])
  }

  /** Where linear scan puts vregs with these spans. */
  function ScanOf(span: Ranges, vregs: nat): Allocation
    requires forall v: VReg :: v < vregs ==> v in span
  {
    var rs := Ordered(span, vregs);
    var s := ScanFrom(vregs, rs, |rs|);
    Allocation(s.loc, s.spills)
  }

  ghost function Reached(rs: seq<Range>, n: nat): nat
    requires n <= |rs|
  {
    if n == 0 then 0 else rs[n - 1].start
  }

  method ScanStep(span: Ranges, vregs: nat, rs: seq<Range>, n: nat, s0: State) returns (s: State)
    requires OrderOf(span, vregs, rs) && Proper(span) && n < |rs| && |s0.loc| == vregs
    requires Inv(span, DoneBy(rs, n), Reached(rs, n), s0)
    ensures |s.loc| == vregs && Inv(span, DoneBy(rs, n + 1), Reached(rs, n + 1), s) && s.spills <= s0.spills + 1
    ensures Sane(s0) && s == StepOf(s0, rs[n])
  {
    hide Inv, Sane;
    NextIsNew(span, vregs, rs, n);
    s := Step(span, DoneBy(rs, n), Reached(rs, n), s0, rs[n].vreg);
  }

  method ScanLoop(span: Ranges, vregs: nat, rs: seq<Range>) returns (s: State)
    requires OrderOf(span, vregs, rs) && Proper(span)
    ensures |s.loc| == vregs && Inv(span, DoneBy(rs, |rs|), Reached(rs, |rs|), s) && s.spills <= |rs|
    ensures (forall x :: x in rs ==> x.vreg < vregs) && s == ScanFrom(vregs, rs, |rs|)
  {
    hide Inv, Sane, StepOf;
    s := Start(vregs);
    StartInv(span, vregs);
    var n := 0;
    while n < |rs|
      invariant 0 <= n <= |rs| && |s.loc| == vregs && s.spills <= n && s == ScanFrom(vregs, rs, n)
      invariant Inv(span, DoneBy(rs, n), Reached(rs, n), s)
    {
      s := ScanStep(span, vregs, rs, n, s);
      n := n + 1;
    }
  }

  // ---------- what the scan promises ----------

  /** Every vreg has a real location, slots are private, a shared register means
      disjoint spans. */
  ghost predicate ScanSound(span: Ranges, vregs: nat, a: Allocation)
    requires span.Keys == Below(vregs)
  {
    && |a.loc| == vregs
    && (forall v: VReg :: v < vregs && a.loc[v].Slot? ==> a.loc[v].k < a.spills)
    && (forall u: VReg, v: VReg :: u < vregs && v < vregs && u != v && a.loc[u] == a.loc[v] ==>
          a.loc[u].Reg? && u in span && v in span && !Overlap(span[u], span[v]))
  }

  lemma FinalSound(span: Ranges, vregs: nat, cur: nat, s: State)
    requires span.Keys == Below(vregs) && |s.loc| == vregs && Inv(span, Below(vregs), cur, s)
    ensures ScanSound(span, vregs, Allocation(s.loc, s.spills))
  {
    assert Placed(span, Below(vregs), s) && Apart(span, Below(vregs), s.loc);
    PlacedIsSound(span, vregs, s);
  }

  lemma FinalCrowded(span: Ranges, done: set<VReg>, cur: nat, s: State)
    requires Inv(span, done, cur, s)
    ensures s.spills > 0 ==> Crowded(span)
  {
  }

  lemma PlacedIsSound(span: Ranges, vregs: nat, s: State)
    requires span.Keys == Below(vregs) && |s.loc| == vregs
    requires Placed(span, Below(vregs), s) && Apart(span, Below(vregs), s.loc)
    ensures ScanSound(span, vregs, Allocation(s.loc, s.spills))
  {
    forall u: VReg, v: VReg | u < vregs && v < vregs && u != v && s.loc[u] == s.loc[v]
      ensures s.loc[u].Reg? && u in span && v in span && !Overlap(span[u], span[v])
    {
      assert u in Below(vregs) && v in Below(vregs);
    }
    forall v: VReg | v < vregs && s.loc[v].Slot?
      ensures s.loc[v].k < s.spills
    {
      assert v in Below(vregs);
    }
  }

  lemma PhysCount(ps: set<Phys>)
    ensures |ps| <= |POOL|
  {
    var all := {Rbx, R12, R13, R14, R15};
    forall p | p in ps
      ensures p in all
    {
      match p case Rbx => case R12 => case R13 => case R14 => case R15 =>
    }
    assert ps + (all - ps) == all;
  }

  lemma InjectiveSize(loc: seq<Loc>, vs: set<VReg>)
    requires forall v :: v in vs ==> v < |loc| && loc[v].Reg?
    requires forall u, v :: u in vs && v in vs && u != v ==> loc[u] != loc[v]
    ensures |vs| == |set v | v in vs :: loc[v].phys|
  {
    if vs != {} {
      var x :| x in vs;
      InjectiveSize(loc, vs - {x});
      assert (set v | v in vs :: loc[v].phys) == (set v | v in vs - {x} :: loc[v].phys) + {loc[x].phys};
    }
  }

  /** When all vregs are in registers, at most five spans cover any position. */
  lemma NoSpillMeansUncrowded(span: Ranges, vregs: nat, a: Allocation)
    requires span.Keys == Below(vregs) && ScanSound(span, vregs, a) && a.spills == 0
    ensures !Crowded(span)
  {
    forall pos
      ensures |Crowd(span, pos)| <= |POOL|
    {
      var vs := Crowd(span, pos);
      forall v | v in vs
        ensures v < |a.loc| && a.loc[v].Reg?
      {
        assert v in span.Keys;
      }
      forall u, v | u in vs && v in vs && u != v
        ensures a.loc[u] != a.loc[v]
      {
        assert Overlap(span[u], span[v]);
      }
      InjectiveSize(a.loc, vs);
      PhysCount(set v | v in vs :: a.loc[v].phys);
    }
  }

  /** Linear scan: sound locations, and a spill exactly when more than five
      spans cover some position. */
  method Scan(span: Ranges, vregs: nat) returns (a: Allocation)
    requires span.Keys == Below(vregs) && Proper(span)
    ensures ScanSound(span, vregs, a)
    ensures a.spills == 0 <==> !Crowded(span)
    ensures a.spills <= vregs
    ensures (forall v: VReg :: v < vregs ==> v in span) && a == ScanOf(span, vregs)
  {
    hide Inv, ScanSound, Crowded, Proper, OrderOf, Sane, StepOf, Reached, DoneBy;
    assert forall v: VReg :: v < vregs ==> v in Below(vregs);
    var rs := OrderRanges(span, vregs);
    var s := ScanLoop(span, vregs, rs);
    AllDone(span, vregs, rs);
    DoneCount(span, vregs, rs, |rs|);
    FinalSound(span, vregs, Reached(rs, |rs|), s);
    FinalCrowded(span, Below(vregs), Reached(rs, |rs|), s);
    a := Allocation(s.loc, s.spills);
    if a.spills == 0 { NoSpillMeansUncrowded(span, vregs, a); }
  }
}
