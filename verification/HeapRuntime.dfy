/** The reference-counted heap: allocation from a free list or by bumping, retain,
    and release, over the words of the heap segment.

    The segment holds the free-list head at +0, the bump pointer at +8, and objects
    from +4096 on. An object's second word is its count; in a free block it holds
    the block's capacity, and the first word the next free block. */
module HeapRuntime {
  import opened Words

  type Memory = map<int, Word>

  const FIRST := 4096

  // ---------- machine operations ----------

  /** The word with its low `n` bytes zeroed. */
  function ClearLow(w: Word, n: nat): (r: Word)
    ensures r <= w
  {
    if n >= 8 then 0 else if n == 0 then w else 256 * ClearLow(w / 256, n - 1)
  }

  /** `rep stosb` of zeros: `n` bytes from the aligned address `at`. */
  function Zeroed(mem: Memory, at: int, n: nat): Memory {
    map a | a in mem :: if at <= a < at + n then ClearLow(mem[a], at + n - a) else mem[a]
  }

  /** Add 15, `and` with -16. */
  function Align16(x: nat): (r: nat)
    ensures r % 16 == 0 && x <= r < x + 16
  {
    (x + 15) / 16 * 16
  }

  // ---------- counts ----------

  const TAG_UNIT := 0x4000_0000_0000_0000 // 2^62

  /** The top two bits tag strings and boxed values; the rest is the count. */
  function Tag(w: Word): nat { w / TAG_UNIT }
  function Count(w: Word): nat { w % TAG_UNIT }

  function Shl2(w: int): Word { Wrap(4 * w) }

  /** Below 2^62 counting leaves the tags alone, and `shl 2` is zero exactly when
      the count is. */
  lemma CountingKeepsTags(w: Word)
    ensures Count(w) < TAG_UNIT - 1 ==> Tag(Offset(w, 1)) == Tag(w) && Count(Offset(w, 1)) == Count(w) + 1
    ensures Count(w) > 0 ==> Tag(Offset(w, -1)) == Tag(w) && Count(Offset(w, -1)) == Count(w) - 1
    ensures Shl2(w) == 0 <==> Count(w) == 0
  {
  }

  // ---------- the shape of the heap ----------

  /** Every block ever carved with its extent, which are live, and the free list. */
  datatype View = View(blocks: map<int, nat>, live: set<int>, free: seq<int>)

  function NextFree(free: seq<int>, i: nat): int { if i + 1 < |free| then free[i + 1] else 0 }

  function Head(free: seq<int>): int { if free == [] then 0 else free[0] }

  /** Where an object keeps its count, and a free block its capacity. */
  function CountAt(o: int): int { o + 8 }

  /** Address `a` belongs to block `b`. */
  predicate Within(blocks: map<int, nat>, b: int, a: int) { b in blocks && b <= a < b + blocks[b] }

  /** Blocks are aligned, lie in the carved area, and do not overlap. */
  ghost predicate Apart(blocks: map<int, nat>, lo: int, bump: int) {
    && (forall b :: b in blocks ==> lo <= b && b % 16 == 0 && blocks[b] >= 16 && b + blocks[b] <= bump)
    && (forall b, c, a :: Within(blocks, b, a) && Within(blocks, c, a) ==> b == c)
  }

  /** Every carved byte belongs to a block. */
  ghost predicate Covered(blocks: map<int, nat>, lo: int, bump: int) {
    forall a :: lo <= a < bump ==> InSome(blocks, a)
  }

  ghost predicate InSome(blocks: map<int, nat>, a: int) { exists b :: Within(blocks, b, a) }

  /** Each carved block is live or free, once. */
  ghost predicate Accounted(v: View) {
    && (forall b :: b in v.blocks <==> b in v.live || b in v.free)
    && (forall b :: b in v.live ==> b !in v.free)
    && (forall i, j :: 0 <= i < j < |v.free| ==> v.free[i] != v.free[j])
  }

  /** Free block `i` points to the next and records a capacity it can hold. */
  ghost predicate Link(mem: Memory, v: View, i: nat)
    requires i < |v.free|
  {
    var b := v.free[i];
    && b in v.blocks && b in mem && b + 8 in mem
    && mem[b] == NextFree(v.free, i) && mem[b + 8] <= v.blocks[b]
  }

  ghost predicate Linked(mem: Memory, v: View) { forall i: nat :: i < |v.free| ==> Link(mem, v, i) }

  ghost predicate Present(mem: Memory, lo: int, hi: int) { forall a :: lo <= a < hi && a % 8 == 0 ==> a in mem }

  ghost predicate Fresh(mem: Memory, bump: int) { forall a :: a in mem && a >= bump ==> mem[a] == 0 }

  function First(base: int): Word
    requires 0 <= base && base + FIRST < B64
  {
    base + FIRST
  }

  /** The bump pointer, whose stored word is 0 until the first allocation. */
  function Bump(mem: Memory, base: int): int
    requires base + 8 in mem
  {
    if mem[base + 8] == 0 then base + FIRST else mem[base + 8]
  }

  ghost predicate Segment(mem: Memory, base: int, limit: int) {
    && 0 < base && base % 16 == 0 && limit % 16 == 0 && base + FIRST <= limit < B64
    && base in mem && base + 8 in mem && Present(mem, base, limit)
    && base + FIRST <= Bump(mem, base) <= limit && Bump(mem, base) % 16 == 0
  }

  ghost predicate Inv(mem: Memory, base: int, limit: int, v: View) {
    && Segment(mem, base, limit)
    && Apart(v.blocks, base + FIRST, Bump(mem, base)) && Covered(v.blocks, base + FIRST, Bump(mem, base))
    && Accounted(v) && mem[base] == Head(v.free) && Linked(mem, v) && Fresh(mem, Bump(mem, base))
  }

  // ---------- blocks and addresses ----------

  lemma BlockPlace(mem: Memory, base: int, limit: int, v: View, o: int)
    requires Inv(mem, base, limit, v) && o in v.blocks
    ensures base + FIRST <= o && o % 16 == 0 && v.blocks[o] >= 16 && o + v.blocks[o] <= Bump(mem, base)
    ensures o in mem && o + 8 in mem && Within(v.blocks, o, o) && Within(v.blocks, o, o + 8)
  {
    hide Covered, Accounted, Linked, Fresh;
    assert (o + 8) % 8 == 0 && o % 8 == 0;
  }

  lemma FreeIsBlock(v: View, i: nat)
    requires Accounted(v) && i < |v.free|
    ensures v.free[i] in v.blocks && v.free[i] !in v.live
  {
    assert v.free[i] in v.free;
  }

  lemma LiveIsBlock(v: View, o: int)
    requires Accounted(v) && o in v.live
    ensures o in v.blocks && o !in v.free
  {
  }

  /** A free block's two words lie outside any live block. */
  lemma FreeElsewhere(mem: Memory, base: int, limit: int, v: View, o: int, at: int, i: nat)
    requires Inv(mem, base, limit, v) && o in v.live && Within(v.blocks, o, at) && i < |v.free|
    ensures v.free[i] != at && v.free[i] + 8 != at
  {
    hide Covered, Linked, Fresh;
    FreeIsBlock(v, i);
    BlockPlace(mem, base, limit, v, v.free[i]);
  }

  // ---------- stores into live blocks ----------

  /** The invariant reads nothing inside a live block. */
  lemma SameElsewhere(mem: Memory, mem': Memory, base: int, limit: int, v: View, o: int)
    requires Inv(mem, base, limit, v) && o in v.live && mem'.Keys == mem.Keys
    requires forall a :: a in mem && !Within(v.blocks, o, a) ==> mem'[a] == mem[a]
    ensures Inv(mem', base, limit, v)
  {
    hide Covered, Accounted, Apart;
    LiveIsBlock(v, o);
    BlockPlace(mem, base, limit, v, o);
    assert !Within(v.blocks, o, base) && !Within(v.blocks, o, base + 8);
    forall i: nat | i < |v.free|
      ensures Link(mem', v, i)
    {
      assert Link(mem, v, i);
      if Within(v.blocks, o, v.free[i]) { FreeElsewhere(mem, base, limit, v, o, v.free[i], i); }
      if Within(v.blocks, o, v.free[i] + 8) { FreeElsewhere(mem, base, limit, v, o, v.free[i] + 8, i); }
    }
  }

  lemma StoreInLive(mem: Memory, base: int, limit: int, v: View, o: int, at: int, w: Word)
    requires Inv(mem, base, limit, v) && o in v.live && Within(v.blocks, o, at) && at in mem
    ensures Inv(mem[at := w], base, limit, v)
  {
    hide Inv;
    assert mem[at := w].Keys == mem.Keys;
    SameElsewhere(mem, mem[at := w], base, limit, v, o);
  }

  lemma ZeroInLive(mem: Memory, base: int, limit: int, v: View, o: int, n: nat)
    requires Inv(mem, base, limit, v) && o in v.live && o in v.blocks && n <= v.blocks[o]
    ensures Inv(Zeroed(mem, o, n), base, limit, v)
  {
    hide Inv;
    assert Zeroed(mem, o, n).Keys == mem.Keys;
    SameElsewhere(mem, Zeroed(mem, o, n), base, limit, v, o);
  }

  // ---------- allocation from the free list ----------

  function Pop(v: View): View
    requires v.free != []
  {
    View(v.blocks, v.live + {v.free[0]}, v.free[1..])
  }

  lemma PopAccounted(v: View)
    requires v.free != [] && Accounted(v)
    ensures Accounted(Pop(v))
  {
    var v' := Pop(v);
    assert v.free == [v.free[0]] + v'.free;
    forall b
      ensures b in v.free <==> b == v.free[0] || b in v'.free
    {
    }
    forall j | 0 <= j < |v'.free|
      ensures v'.free[j] != v.free[0]
    {
      assert v'.free[j] == v.free[j + 1];
    }
  }

  lemma HeadIsFree(mem: Memory, base: int, limit: int, v: View)
    requires Inv(mem, base, limit, v) && mem[base] != 0
    ensures v.free != [] && mem[base] == v.free[0] && mem[base] in v.blocks && mem[base] !in v.live
    ensures mem[base] in mem && mem[base] + 8 in mem && mem[mem[base]] == NextFree(v.free, 0)
    ensures mem[mem[base] + 8] <= v.blocks[mem[base]]
  {
    hide Covered, Apart;
    FreeIsBlock(v, 0);
    assert Link(mem, v, 0);
  }

  lemma PopKeeps(mem: Memory, base: int, limit: int, v: View)
    requires Inv(mem, base, limit, v) && mem[base] != 0
    ensures mem[base] in mem && v.free != [] && Inv(mem[base := mem[mem[base]]], base, limit, Pop(v))
  {
    hide Covered, Apart, Accounted;
    HeadIsFree(mem, base, limit, v);
    PopAccounted(v);
    var mem', v' := mem[base := mem[mem[base]]], Pop(v);
    forall i: nat | i < |v'.free|
      ensures Link(mem', v', i)
    {
      assert Link(mem, v, i + 1);
      BlockPlace(mem, base, limit, v, v.free[i + 1]);
    }
  }

  // ---------- allocation by bumping ----------

  function Carve(v: View, o: int, n: nat): View { View(v.blocks[o := n], v.live + {o}, v.free) }

  lemma CarveApart(blocks: map<int, nat>, lo: int, bump: int, n: nat)
    requires Apart(blocks, lo, bump) && bump % 16 == 0 && lo <= bump && n >= 16
    ensures bump !in blocks && Apart(blocks[bump := n], lo, bump + n)
  {
    var blocks' := blocks[bump := n];
    forall b, c, a | Within(blocks', b, a) && Within(blocks', c, a)
      ensures b == c
    {
      if b != bump { assert Within(blocks, b, a); }
      if c != bump { assert Within(blocks, c, a); }
    }
  }

  lemma CarveCovers(blocks: map<int, nat>, lo: int, bump: int, n: nat)
    requires Covered(blocks, lo, bump) && bump !in blocks
    ensures Covered(blocks[bump := n], lo, bump + n)
  {
    var blocks' := blocks[bump := n];
    forall a | lo <= a < bump + n
      ensures InSome(blocks', a)
    {
      if a < bump {
        assert InSome(blocks, a);
        var b :| Within(blocks, b, a);
        assert Within(blocks', b, a);
      } else {
        assert Within(blocks', bump, a);
      }
    }
  }

  lemma CarveAccounted(v: View, o: int, n: nat)
    requires Accounted(v) && o !in v.blocks
    ensures Accounted(Carve(v, o, n))
  {
  }

  /** Memory after the bump path. */
  function BumpStores(mem: Memory, base: int, next: Word): Memory
    requires base + 8 in mem
  {
    mem[base + 8 := next][Bump(mem, base) + 8 := 1]
  }

  lemma BumpSegment(mem: Memory, base: int, limit: int, next: Word)
    requires Segment(mem, base, limit) && Bump(mem, base) + 16 <= next <= limit && next % 16 == 0
    requires Fresh(mem, Bump(mem, base))
    ensures Bump(mem, base) + 8 in mem && mem[Bump(mem, base) + 8] == 0
    ensures var mem' := BumpStores(mem, base, next);
            Segment(mem', base, limit) && Bump(mem', base) == next && Fresh(mem', next) && mem'[base] == mem[base]
  {
    assert (Bump(mem, base) + 8) % 8 == 0;
  }

  lemma BumpLinks(mem: Memory, base: int, limit: int, v: View, next: Word)
    requires Inv(mem, base, limit, v) && Bump(mem, base) + 16 <= next
    ensures Linked(BumpStores(mem, base, next), Carve(v, Bump(mem, base), next - Bump(mem, base)))
  {
    hide Covered, Apart, Accounted;
    var mem', v' := BumpStores(mem, base, next), Carve(v, Bump(mem, base), next - Bump(mem, base));
    forall i: nat | i < |v'.free|
      ensures Link(mem', v', i)
    {
      assert Link(mem, v, i);
      BlockPlace(mem, base, limit, v, v.free[i]);
    }
  }

  /** The bump path: the pointer moves past the rounded size, the count is 1. */
  lemma BumpKeeps(mem: Memory, base: int, limit: int, v: View, size: nat)
    requires Inv(mem, base, limit, v) && size >= 1 && Align16(Bump(mem, base) + size) <= limit
    ensures var o, next := Bump(mem, base), Align16(Bump(mem, base) + size);
            && o !in v.blocks && o + 8 in mem && mem[o + 8] == 0 && o + 16 <= next < B64
            && Inv(BumpStores(mem, base, next), base, limit, Carve(v, o, next - o))
  {
    hide Covered, Apart, Accounted, Linked, Fresh, BumpStores;
    var o, next := Bump(mem, base), Align16(Bump(mem, base) + size);
    SixteenUp(o, next);
    BumpSegment(mem, base, limit, next);
    BumpLinks(mem, base, limit, v, next);
    CarveApart(v.blocks, base + FIRST, o, next - o);
    CarveCovers(v.blocks, base + FIRST, o, next - o);
    CarveAccounted(v, o, next - o);
  }

  lemma SixteenUp(a: int, b: int)
    requires a % 16 == 0 && b % 16 == 0 && a < b
    ensures a + 16 <= b
  {
  }

  // ---------- release ----------

  function PushFree(v: View, o: int): View { View(v.blocks, v.live - {o}, [o] + v.free) }

  lemma PushAccounted(v: View, o: int)
    requires Accounted(v) && o in v.live
    ensures Accounted(PushFree(v, o))
  {
    var v' := PushFree(v, o);
    forall b
      ensures b in v'.free <==> b == o || b in v.free
    {
      if b in v.free {
        var i :| 0 <= i < |v.free| && v.free[i] == b;
        assert v'.free[i + 1] == b;
      }
      assert v'.free[0] == o;
    }
    forall i, j | 0 <= i < j < |v'.free|
      ensures v'.free[i] != v'.free[j]
    {
      assert v'.free[j] == v.free[j - 1] && v.free[j - 1] in v.free;
      if i > 0 { assert v'.free[i] == v.free[i - 1]; }
    }
  }

  /** The three stores of a release that frees. */
  function PushStores(mem: Memory, base: int, o: Word, cap: Word): Memory
    requires base in mem
  {
    mem[o := mem[base]][o + 8 := cap][base := o]
  }

  lemma PushKeeps(mem: Memory, base: int, limit: int, v: View, o: Word, cap: Word)
    requires Inv(mem, base, limit, v) && o in v.live && o in v.blocks && cap <= v.blocks[o]
    ensures Inv(PushStores(mem, base, o, cap), base, limit, PushFree(v, o))
  {
    hide Covered, Apart, Accounted;
    BlockPlace(mem, base, limit, v, o);
    PushAccounted(v, o);
    var mem', v' := PushStores(mem, base, o, cap), PushFree(v, o);
    forall i: nat | i < |v'.free|
      ensures Link(mem', v', i)
    {
      if i > 0 {
        assert v'.free[i] == v.free[i - 1];
        assert Link(mem, v, i - 1);
        FreeElsewhere(mem, base, limit, v, o, o, i - 1);
        FreeElsewhere(mem, base, limit, v, o, o + 8, i - 1);
        BlockPlace(mem, base, limit, v, v.free[i - 1]);
      }
    }
  }

  // ---------- contents after an allocation ----------

  lemma ClearOne(n: nat)
    ensures ClearLow(1, n) == if n == 0 then 1 else 0
  {
  }

  /** Memory after the free-list path: count 1, then `size` bytes zeroed, the
      length taken from a 32-bit register. */
  function ReuseStores(mem: Memory, base: int, size: nat): Memory
    requires base in mem && mem[base] in mem
  {
    Zeroed(mem[base := mem[mem[base]]][CountAt(mem[base]) := 1], mem[base], size % B32)
  }

  lemma ReuseKeeps(mem: Memory, base: int, limit: int, v: View, size: nat)
    requires Inv(mem, base, limit, v) && mem[base] != 0 && mem[base] in mem
    requires CountAt(mem[base]) in mem && mem[CountAt(mem[base])] >= size
    ensures v.free != [] && mem[base] == v.free[0] && size <= v.blocks[mem[base]]
    ensures Inv(ReuseStores(mem, base, size), base, limit, Pop(v))
  {
    HeadIsFree(mem, base, limit, v);
    PopKeeps(mem, base, limit, v);
    hide Inv;
    var o, mem1 := mem[base], mem[base := mem[mem[base]]];
    BlockPlace(mem1, base, limit, Pop(v), o);
    StoreInLive(mem1, base, limit, Pop(v), o, o + 8, 1);
    ZeroInLive(mem1[o + 8 := 1], base, limit, Pop(v), o, size % B32);
  }

  /** Other live blocks keep their contents. */
  ghost predicate OthersKept(mem: Memory, mem': Memory, v: View, o: int) {
    forall b, a :: b in v.live && b != o && Within(v.blocks, b, a) && a in mem ==> a in mem' && mem'[a] == mem[a]
  }

  lemma KeptOutside(mem: Memory, mem': Memory, base: int, limit: int, v: View, o: int)
    requires Inv(mem, base, limit, v) && o in v.blocks && mem.Keys <= mem'.Keys
    requires forall a :: a in mem && a != base && a != base + 8 && !Within(v.blocks, o, a) ==> mem'[a] == mem[a]
    ensures OthersKept(mem, mem', v, o)
  {
    hide Covered, Linked, Fresh;
    forall b, a | b in v.live && b != o && Within(v.blocks, b, a) && a in mem
      ensures a in mem' && mem'[a] == mem[a]
    {
      BlockPlace(mem, base, limit, v, b);
    }
  }

  lemma ReuseContents(mem: Memory, base: int, limit: int, v: View, size: nat)
    requires Inv(mem, base, limit, v) && mem[base] != 0 && mem[base] in mem
    requires CountAt(mem[base]) in mem && mem[CountAt(mem[base])] >= size
    ensures var o, mem' := mem[base], ReuseStores(mem, base, size);
            && o + 8 in mem' && mem'[o + 8] == (if size % B32 > 8 then 0 else 1)
            && (forall a :: a in mem' && o <= a && a + 8 <= o + size % B32 ==> mem'[a] == 0)
            && OthersKept(mem, mem', v, o)
  {
    HeadIsFree(mem, base, limit, v);
    var o, n := mem[base], size % B32;
    BlockPlace(mem, base, limit, v, o);
    if n > 8 { ClearOne(n - 8); }
    KeptOutside(mem, ReuseStores(mem, base, size), base, limit, v, o);
  }

  lemma CarveContents(mem: Memory, base: int, limit: int, v: View, next: Word)
    requires Inv(mem, base, limit, v) && Bump(mem, base) + 16 <= next
    ensures var o, mem' := Bump(mem, base), BumpStores(mem, base, next);
            && (forall a :: a in mem' && a >= o && a != o + 8 && a != base + 8 ==> mem'[a] == 0)
            && OthersKept(mem, mem', v, o)
  {
    hide Covered, Linked;
    var o, mem' := Bump(mem, base), BumpStores(mem, base, next);
    forall b, a | b in v.live && b != o && Within(v.blocks, b, a) && a in mem
      ensures a in mem' && mem'[a] == mem[a]
    {
      LiveIsBlock(v, b);
      BlockPlace(mem, base, limit, v, b);
    }
  }

  lemma ReleaseContents(mem: Memory, base: int, limit: int, v: View, o: Word, w: Word, cap: Word)
    requires Inv(mem, base, limit, v) && o in v.live && o in v.blocks
    ensures o + 8 in mem && OthersKept(mem, mem[o + 8 := w], v, o)
    ensures OthersKept(mem, PushStores(mem[o + 8 := w], base, o, cap), v, o)
  {
    BlockPlace(mem, base, limit, v, o);
    KeptOutside(mem, mem[o + 8 := w], base, limit, v, o);
    KeptOutside(mem, PushStores(mem[o + 8 := w], base, o, cap), base, limit, v, o);
  }

  /** Until the bump pointer is set nothing has been carved. */
  lemma Untouched(mem: Memory, base: int, limit: int, v: View)
    requires Inv(mem, base, limit, v) && mem[base + 8] == 0
    ensures v.free == [] && v.live == {} && 0 <= base && base + FIRST < B64
  {
    if v.free != [] {
      FreeIsBlock(v, 0);
      BlockPlace(mem, base, limit, v, v.free[0]);
    }
    forall o | o in v.live
      ensures false
    {
      LiveIsBlock(v, o);
      BlockPlace(mem, base, limit, v, o);
    }
  }

  /** The lazy initialization of the bump pointer changes nothing else. */
  lemma InitKeeps(mem: Memory, base: int, limit: int, v: View)
    requires Inv(mem, base, limit, v) && mem[base + 8] == 0
    ensures 0 <= base && base + FIRST < B64 && mem[base] == 0
    ensures var mem' := mem[base + 8 := First(base)];
            && Inv(mem', base, limit, v) && Bump(mem', base) == Bump(mem, base) && OthersKept(mem, mem', v, 0)
  {
    Untouched(mem, base, limit, v);
    hide Covered, Accounted, Apart;
  }

  lemma KeptTwice(mem: Memory, mem1: Memory, mem2: Memory, v: View, o: int)
    requires OthersKept(mem, mem1, v, 0) && OthersKept(mem1, mem2, v, o) && 0 !in v.live
    ensures OthersKept(mem, mem2, v, o)
  {
  }

  lemma NullNotLive(mem: Memory, base: int, limit: int, v: View)
    requires Inv(mem, base, limit, v)
    ensures 0 !in v.live
  {
    if 0 in v.live { LiveIsBlock(v, 0); BlockPlace(mem, base, limit, v, 0); }
  }

  // ---------- the runtime ----------

  class Heap {
    const base: int
    const limit: int
    var mem: Memory
    ghost var view: View

    ghost predicate Valid()
      reads this
    {
      Inv(mem, base, limit, view)
    }

    /** A zeroed segment is an empty heap. */
    constructor (base: int, limit: int, mem: Memory)
      requires 0 < base && base % 16 == 0 && limit % 16 == 0 && base + FIRST <= limit < B64
      requires Present(mem, base, limit) && forall a :: a in mem ==> mem[a] == 0
      ensures Valid() && view == View(map[], {}, []) && this.base == base && this.limit == limit && this.mem == mem
    {
      this.base, this.limit, this.mem := base, limit, mem;
      view := View(map[], {}, []);
      new;
      EmptyHeap(mem, base, limit);
    }

    /** The first free block, if any, has at least `size` bytes. */
    predicate Reusable(size: nat)
      reads this
    {
      base in mem && mem[base] != 0 && CountAt(mem[base]) in mem && mem[CountAt(mem[base])] >= size
    }

    /** `size` bytes: the first free block when it is large enough, else fresh space. */
    method Alloc(size: nat) returns (o: Word)
      requires Valid() && size >= 1
      requires Reusable(size) || Align16(Bump(mem, base) + size) <= limit
      modifies this
      ensures Valid() && o in view.live && o !in old(view.live) && o in view.blocks && size <= view.blocks[o]
      ensures old(Reusable(size)) ==> old(view.free) != [] && o == old(view.free)[0] && view == Pop(old(view))
      ensures !old(Reusable(size)) ==> o == old(Bump(mem, base)) && view == Carve(old(view), o, Align16(o + size) - o)
      ensures OthersKept(old(mem), mem, old(view), o)
      ensures forall a :: a in mem && o <= a && a + 8 <= o + size % B32 && a != CountAt(o) ==> mem[a] == 0
      ensures CountAt(o) in mem && mem[CountAt(o)] == if old(Reusable(size)) && size % B32 > 8 then 0 else 1
    {
      NullNotLive(mem, base, limit, view);
      KeptSelf(mem, view);
      SegmentOf(mem, base, limit, view);
      if mem[base + 8] == 0 {
        InitKeeps(mem, base, limit, view);
        mem := mem[base + 8 := First(base)];
      }
      ghost var mem0 := mem;
      SegmentOf(mem, base, limit, view);
      var head := mem[base];
      if head != 0 { HeadIsFree(mem, base, limit, view); }
      if head != 0 && mem[CountAt(head)] >= size {
        o := TakeFree(size);
      } else {
        o := TakeFresh(size);
      }
      KeptTwice(old(mem), mem0, mem, old(view), o);
    }

    method TakeFree(size: nat) returns (o: Word)
      requires Valid() && Reusable(size)
      modifies this
      ensures Valid() && old(view.free) != [] && o == old(view.free)[0] && view == Pop(old(view))
      ensures o !in old(view.live) && o in view.blocks && size <= view.blocks[o] && OthersKept(old(mem), mem, old(view), o)
      ensures forall a :: a in mem && o <= a && a + 8 <= o + size % B32 ==> mem[a] == 0
      ensures CountAt(o) in mem && mem[CountAt(o)] == if size % B32 > 8 then 0 else 1
    {
      hide Inv;
      HeadIsFree(mem, base, limit, view);
      ReuseKeeps(mem, base, limit, view, size);
      ReuseContents(mem, base, limit, view, size);
      o := mem[base];
      mem := mem[base := mem[o]];
      mem := mem[CountAt(o) := 1];
      mem := Zeroed(mem, o, size % B32);
      view := Pop(view);
    }

    method TakeFresh(size: nat) returns (o: Word)
      requires Valid() && size >= 1 && base + 8 in mem && mem[base + 8] != 0
      requires Align16(Bump(mem, base) + size) <= limit
      modifies this
      ensures Valid() && o == old(Bump(mem, base)) && view == Carve(old(view), o, Align16(o + size) - o)
      ensures o !in old(view.live) && o in view.blocks && size <= view.blocks[o] && OthersKept(old(mem), mem, old(view), o)
      ensures forall a :: a in mem && o <= a && a != CountAt(o) ==> mem[a] == 0
      ensures CountAt(o) in mem && mem[CountAt(o)] == 1
    {
      hide Inv;
      o := mem[base + 8];
      var next := Align16(o + size);
      BumpKeeps(mem, base, limit, view, size);
      FreshBlock(mem, base, limit, view, size);
      CarveContents(mem, base, limit, view, next);
      ghost var after := BumpStores(mem, base, next);
      mem := mem[base + 8 := next];
      mem := mem[CountAt(o) := mem[CountAt(o)] - mem[CountAt(o)] % B32 + 1];
      assert mem == after;
      view := Carve(view, o, next - o);
    }

    /** `lock inc` of the count; nothing for null. */
    method Retain(o: Word)
      requires Valid() && (o == 0 || o in view.live)
      modifies this`mem
      ensures Valid()
      ensures o == 0 ==> mem == old(mem)
      ensures o != 0 ==> CountAt(o) in old(mem) && mem == old(mem)[CountAt(o) := Offset(old(mem)[CountAt(o)], 1)]
    {
      if o != 0 {
        LiveHere(mem, base, limit, view, o);
        StoreInLive(mem, base, limit, view, o, CountAt(o), Offset(mem[CountAt(o)], 1));
        mem := mem[CountAt(o) := Offset(mem[CountAt(o)], 1)];
      }
    }

    /** `lock dec` of the count; at zero, tags aside, the block joins the free list. */
    method Release(o: Word, cap: Word)
      requires Valid() && (o == 0 || (o in view.live && o in view.blocks && cap <= view.blocks[o]))
      modifies this
      ensures Valid()
      ensures o == 0 ==> mem == old(mem) && view == old(view)
      ensures o != 0 ==> CountAt(o) in old(mem)
      ensures o != 0 ==>
        view == (if Count(Offset(old(mem)[CountAt(o)], -1)) == 0 then PushFree(old(view), o) else old(view))
      ensures o != 0 && o in view.live ==> mem == old(mem)[CountAt(o) := Offset(old(mem)[CountAt(o)], -1)]
      ensures o != 0 && o !in view.live ==> base in old(mem)
      ensures o != 0 && o !in view.live ==>
        mem == PushStores(old(mem)[CountAt(o) := Offset(old(mem)[CountAt(o)], -1)], base, o, cap)
      ensures o != 0 ==> OthersKept(old(mem), mem, old(view), o)
    {
      if o != 0 {
        hide Inv, Tag, Count, Shl2;
        LiveHere(mem, base, limit, view, o);
        var w := Offset(mem[CountAt(o)], -1);
        ReleaseContents(mem, base, limit, view, o, w, cap);
        StoreInLive(mem, base, limit, view, o, CountAt(o), w);
        mem := mem[CountAt(o) := w];
        SegmentOf(mem, base, limit, view);
        CountingKeepsTags(w);
        if Shl2(w) == 0 { PushBlock(o, cap); }
      }
    }

    /** The block becomes the head of the free list. */
    method PushBlock(o: Word, cap: Word)
      requires Valid() && o in view.live && o in view.blocks && cap <= view.blocks[o] && base in mem
      modifies this
      ensures Valid() && view == PushFree(old(view), o) && mem == PushStores(old(mem), base, o, cap)
    {
      LiveHere(mem, base, limit, view, o);
      PushKeeps(mem, base, limit, view, o, cap);
      mem := mem[o := mem[base]];
      mem := mem[CountAt(o) := cap];
      mem := mem[base := o];
      view := PushFree(view, o);
    }

    /** The program stores into one of its objects. */
    method Mutate(o: Word, at: int, w: Word)
      requires Valid() && o in view.live && Within(view.blocks, o, at) && at in mem
      modifies this`mem
      ensures Valid() && mem == old(mem)[at := w]
    {
      StoreInLive(mem, base, limit, view, o, at, w);
      mem := mem[at := w];
    }
  }

  lemma FreshBlock(mem: Memory, base: int, limit: int, v: View, size: nat)
    requires Inv(mem, base, limit, v) && base + 8 in mem
    ensures Bump(mem, base) !in v.live && base + FIRST <= Bump(mem, base)
  {
    if Bump(mem, base) in v.live {
      LiveIsBlock(v, Bump(mem, base));
      BlockPlace(mem, base, limit, v, Bump(mem, base));
    }
  }

  lemma EmptyHeap(mem: Memory, base: int, limit: int)
    requires 0 < base && base % 16 == 0 && limit % 16 == 0 && base + FIRST <= limit < B64
    requires Present(mem, base, limit) && forall a :: a in mem ==> mem[a] == 0
    ensures Inv(mem, base, limit, View(map[], {}, []))
  {
    hide InSome;
    assert base % 8 == 0 && (base + 8) % 8 == 0;
  }

  lemma SegmentOf(mem: Memory, base: int, limit: int, v: View)
    requires Inv(mem, base, limit, v)
    ensures 0 <= base && base in mem && base + 8 in mem && base + FIRST < B64
  {
  }

  lemma KeptSelf(mem: Memory, v: View)
    ensures OthersKept(mem, mem, v, 0)
  {
  }

  lemma LiveHere(mem: Memory, base: int, limit: int, v: View, o: int)
    requires Inv(mem, base, limit, v) && o in v.live
    ensures o in v.blocks && o in mem && CountAt(o) in mem && Within(v.blocks, o, CountAt(o))
  {
    LiveIsBlock(v, o);
    BlockPlace(mem, base, limit, v, o);
  }

  // ---------- what a count of 0 leads to ----------

  /** The count word 0 after `k` releases. */
  function Below0(k: int): Word { Wrap(-k) }

  /** From a count of 0, `k` releases leave a word whose count is 0 again only when
      `k` is a multiple of 2^62. */
  lemma UnderflowCounts(k: nat)
    ensures Count(Below0(k)) == 0 <==> k % TAG_UNIT == 0
    ensures Offset(Below0(k), -1) == Below0(k + 1)
  {
  }

  /** A block that starts with count 0 stays out of the free list for the next
      2^62 - 1 releases. */
  method ReleaseRepeatedly(h: Heap, o: Word, cap: Word, k: nat)
    requires h.Valid() && o != 0 && o in h.view.live && o in h.view.blocks && cap <= h.view.blocks[o]
    requires CountAt(o) in h.mem && h.mem[CountAt(o)] == 0 && k < TAG_UNIT
    modifies h
    ensures h.Valid() && h.view == old(h.view)
    ensures CountAt(o) in h.mem && h.mem[CountAt(o)] == Below0(k)
  {
    hide Inv, Count, Below0, Offset;
    var n := 0;
    assert Below0(0) == 0 by { NoReleases(); }
    while n < k
      invariant 0 <= n <= k && h.Valid() && h.view == old(h.view)
      invariant CountAt(o) in h.mem && h.mem[CountAt(o)] == Below0(n)
    {
      UnderflowCounts(n);
      UnderflowCounts(n + 1);
      h.Release(o, cap);
      n := n + 1;
    }
  }

  lemma NoReleases()
    ensures Below0(0) == 0
  {
  }

  /** A reused block of more than 8 bytes is lost: no number of releases below 2^62
      returns it to the free list. */
  method ReusedIsLost(h: Heap, size: nat, k: nat) returns (o: Word)
    requires h.Valid() && size >= 1 && h.Reusable(size) && size % B32 > 8 && size < B64 && k < TAG_UNIT
    modifies h
    ensures h.Valid() && h.view == Pop(old(h.view)) && o in h.view.live && o !in h.view.free
  {
    o := h.Alloc(size);
    NullNotLive(h.mem, h.base, h.limit, h.view);
    ReleaseRepeatedly(h, o, size, k);
  }

  /** Allocate 16 bytes, release them, allocate 16 bytes: the same block, with count 0,
      and the release that should free it leaves it live with a count of 2^62 - 1 and
      both tags set. */
  method ReuseExample(base: int, limit: int, mem: Memory) returns (h: Heap, a: Word)
    requires 0 < base && base % 16 == 0 && limit % 16 == 0 && base + FIRST + 32 <= limit < B64
    requires Present(mem, base, limit) && forall x :: x in mem ==> mem[x] == 0
    ensures h.Valid() && a in h.view.live && a !in h.view.free
    ensures CountAt(a) in h.mem && Count(h.mem[CountAt(a)]) == TAG_UNIT - 1 && Tag(h.mem[CountAt(a)]) == 3
  {
    h := new Heap(base, limit, mem);
    SegmentOf(h.mem, base, limit, h.view);
    assert Align16(h.base + FIRST + 16) <= limit;
    a := h.Alloc(16);
    NullNotLive(h.mem, h.base, h.limit, h.view);
    LastRelease();
    h.Release(a, 16);
    assert h.Reusable(16) && h.view.free == [a];
    a := h.Alloc(16);
    FirstUnderflow();
    NullNotLive(h.mem, h.base, h.limit, h.view);
    h.Release(a, 16);
  }

  lemma LastRelease()
    ensures Count(Offset(1, -1)) == 0
  {
  }

  lemma FirstUnderflow()
    ensures Count(Offset(0, -1)) == TAG_UNIT - 1 && Tag(Offset(0, -1)) == 3
  {
  }
}
