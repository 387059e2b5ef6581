/** Exception handlers: a fixed array of saved machine contexts used as a stack.

    The state block is 514 words: the exception in flight, the depth, then 64
    buffers of eight words (rbx, r12, r13, r14, r15, rbp, rsp after the call,
    return address). */
module Handlers {
  import opened Words
  import opened Machine
  import Ir

  const MAX := 64
  const BLOCK_WORDS := 2 + 8 * MAX

  /** What a handler restores: callee-saved registers, rbp, rsp and where to go. */
  datatype Context = Context(rbx: Word, r12: Word, r13: Word, r14: Word, r15: Word, rbp: Word, rsp: Word, rip: Word)

  /** How a helper ends: it returns a value in rax, just returns, resumes a context
      with a value in rax, or exits the process. */
  datatype Ending = Return(rax: Word) | Back | Resume(at: Context, rax: Word) | Exit(status: Word)

  // ---------- the stack it stands for ----------

  datatype Stack = Stack(live: seq<Context>, inflight: Word)

  datatype Op = Enter(c: Context) | Pop | Throw(obj: Word) | Rethrow | LoadExc | Clear

  function Top(s: Stack): Context
    requires s.live != []
  {
    s.live[|s.live| - 1]
  }

  function Rest(s: Stack): seq<Context>
    requires s.live != []
  {
    s.live[..|s.live| - 1]
  }

  /** Operations that keep within the stack: no pop of nothing, at most 64 handlers. */
  predicate Fits(s: Stack, op: Op) {
    match op
    case Enter(_) => |s.live| < MAX
    case Pop => s.live != []
    case _ => true
  }

  predicate Continues(e: Ending) { e.Return? || e.Back? }

  function Apply(s: Stack, op: Op): (Stack, Ending)
    requires Fits(s, op)
  {
    match op
    case Enter(c) => (s.(live := s.live + [c]), Return(0))
    case Pop => (s.(live := Rest(s)), Back)
    case Throw(obj) =>
      if s.live == [] then (s.(inflight := obj), Exit(1)) else (Stack(Rest(s), obj), Resume(Top(s), 1))
    case Rethrow => if s.live == [] then (s, Exit(1)) else (s.(live := Rest(s)), Resume(Top(s), 1))
    case LoadExc => (s, Return(s.inflight))
    case Clear => (s.(inflight := 0), Back)
  }

  // ---------- buffers in the block ----------

  /** Byte address of buffer `depth`: `lea rdx, [r8 + 64 * depth + 16]`. */
  function BufferAddr(base: int, depth: int): Word { Wrap(base + 16 + Wrap(64 * depth)) }

  /** A buffer lies in the block exactly when the depth, modulo 2^58, is below 64. */
  lemma BufferInBlock(base: nat, depth: Word)
    requires base + 8 * BLOCK_WORDS <= B64
    ensures (base + 16 <= BufferAddr(base, depth) && BufferAddr(base, depth) + 64 <= base + 8 * BLOCK_WORDS)
       <==> depth % 0x400_0000_0000_0000 < MAX
  {
    var q, d := depth / 0x400_0000_0000_0000, depth % 0x400_0000_0000_0000;
    assert 64 * depth == B64 * q + 64 * d;
    assert Wrap(64 * depth) == 64 * d;
  }

  lemma SixtyFifthBuffer(base: nat)
    requires base + 8 * BLOCK_WORDS < B64
    ensures BufferAddr(base, 64) == base + 8 * BLOCK_WORDS
  {
  }

  function ContextAt(words: seq<Word>, k: nat): Context
    requires |words| == BLOCK_WORDS && k < MAX
  {
    var b := 2 + 8 * k;
    Context(words[b], words[b + 1], words[b + 2], words[b + 3], words[b + 4], words[b + 5], words[b + 6], words[b + 7])
  }

  /** The first `n` buffers, outermost first. */
  function Contexts(words: seq<Word>, n: nat): (cs: seq<Context>)
    requires |words| == BLOCK_WORDS && n <= MAX
    ensures |cs| == n && forall k :: 0 <= k < n ==> cs[k] == ContextAt(words, k)
  {
    if n == 0 then [] else Contexts(words, n - 1) + [ContextAt(words, n - 1)]
  }

  /** Buffers below depth `n` survive any store outside them. */
  lemma {:induction false} ContextsKept(words: seq<Word>, words': seq<Word>, n: nat)
    requires |words| == |words'| == BLOCK_WORDS && n <= MAX
    requires forall i :: 2 <= i < 2 + 8 * n ==> words'[i] == words[i]
    ensures Contexts(words', n) == Contexts(words, n)
  {
    if n > 0 {
      ContextsKept(words, words', n - 1);
      assert ContextAt(words', n - 1) == ContextAt(words, n - 1);
    }
  }

  // ---------- the machine around a helper ----------

  /** The context `Enter` should save when called in state `m`: rsp as it will be
      after the return, and the return address. */
  function Snapshot(m: M): Context
    requires m.regs[RSP] in m.stack
  {
    Context(m.regs[RBX], m.regs[12], m.regs[13], m.regs[14], m.regs[15], m.regs[RBP], Offset(m.regs[RSP], 8),
            m.stack[m.regs[RSP]])
  }

  /** The context a machine is in, at the address where it is. */
  predicate InContext(m: M, c: Context) {
    && m.rip == c.rip && m.regs[RSP] == c.rsp && m.regs[RBP] == c.rbp && m.regs[RBX] == c.rbx
    && m.regs[12] == c.r12 && m.regs[13] == c.r13 && m.regs[14] == c.r14 && m.regs[15] == c.r15
  }

  /** The machine does what the helper, called in state `m`, should: it is back at
      the caller, or in the resumed context, or gone. */
  predicate Realizes(m: M, e: Ending, o: Machine.Outcome) {
    match e
    case Return(x) => o.Go? && InContext(o.m, Snapshot'(m)) && o.m.regs[RAX] == x && SameMemory(m, o.m)
    case Back => o.Go? && InContext(o.m, Snapshot'(m)) && o.m.regs[RAX] == m.regs[RAX] && SameMemory(m, o.m)
    case Resume(c, x) => o.Go? && InContext(o.m, c) && o.m.regs[RAX] == x && SameMemory(m, o.m)
    case Exit(status) => o == Machine.Exited(status, m.heap)
  }

  predicate SameMemory(m: M, m': M) { m'.stack == m.stack && m'.heap == m.heap }

  /** As `Snapshot`; the caller's context is defined only when rsp points at it. */
  function Snapshot'(m: M): Context {
    if m.regs[RSP] in m.stack then Snapshot(m) else Context(0, 0, 0, 0, 0, 0, 0, 0)
  }

  /** `ret`. */
  function Returned(m: M): M
    requires m.regs[RSP] in m.stack
  {
    m.(rip := m.stack[m.regs[RSP]], regs := m.regs[RSP := Offset(m.regs[RSP], 8)])
  }

  // ---------- words at any address ----------

  /** The word at address `a`: in the block at `base`, or in the machine's memory. */
  function WordAt(words: seq<Word>, base: Word, m: M, a: Word): Ir.Option<Word>
    requires |words| == BLOCK_WORDS
  {
    if base <= a && a + 8 <= base + 8 * BLOCK_WORDS && (a - base) % 8 == 0 then Ir.Some(words[(a - base) / 8])
    else Load64(m, a)
  }

  /** Word `i` of the buffer at address `rdx`. */
  function Saved(words: seq<Word>, base: Word, m: M, rdx: Word, i: nat): Ir.Option<Word>
    requires |words| == BLOCK_WORDS
  {
    WordAt(words, base, m, Wrap(rdx + 8 * i))
  }

  predicate Readable(words: seq<Word>, base: Word, m: M, rdx: Word)
    requires |words| == BLOCK_WORDS
  {
    forall i: nat :: i < 8 ==> Saved(words, base, m, rdx, i).Some?
  }

  /** The context saved at address `rdx`, wherever that is. */
  function ContextFrom(words: seq<Word>, base: Word, m: M, rdx: Word): Context
    requires |words| == BLOCK_WORDS && Readable(words, base, m, rdx)
  {
    Context(Saved(words, base, m, rdx, 0).value, Saved(words, base, m, rdx, 1).value,
            Saved(words, base, m, rdx, 2).value, Saved(words, base, m, rdx, 3).value,
            Saved(words, base, m, rdx, 4).value, Saved(words, base, m, rdx, 5).value,
            Saved(words, base, m, rdx, 6).value, Saved(words, base, m, rdx, 7).value)
  }

  /** In the block it is the buffer of that depth. */
  lemma ContextInBlock(words: seq<Word>, base: Word, m: M, depth: Word)
    requires |words| == BLOCK_WORDS && base + 8 * BLOCK_WORDS <= B64 && depth < MAX
    ensures Readable(words, base, m, BufferAddr(base, depth))
    ensures ContextFrom(words, base, m, BufferAddr(base, depth)) == ContextAt(words, depth)
  {
    var rdx := base + 16 + 64 * depth;
    assert BufferAddr(base, depth) == rdx;
    forall i: nat | i < 8
      ensures Saved(words, base, m, rdx, i) == Ir.Some(words[2 + 8 * depth + i])
    {
      assert rdx + 8 * i - base == 8 * (2 + 8 * depth + i);
      assert Wrap(rdx + 8 * i) == rdx + 8 * i;
    }
  }

  /** What resuming from the buffer at depth `depth` does: a missing word faults. */
  predicate Resumes(words: seq<Word>, base: Word, m: M, depth: Word, o: Machine.Outcome)
    requires |words| == BLOCK_WORDS
  {
    if Readable(words, base, m, BufferAddr(base, depth))
    then Realizes(m, Resume(ContextFrom(words, base, m, BufferAddr(base, depth)), 1), o)
    else o == Machine.Fault
  }

  // ---------- the runtime helpers ----------

  /** The state block at address `base`. */
  class State {
    const base: Word
    const words: array<Word>

    /** The block itself, whatever its depth word. */
    predicate Block()
      reads this
    {
      words.Length == BLOCK_WORDS && base + 8 * BLOCK_WORDS <= B64
    }

    predicate Valid()
      reads this, words
    {
      Block() && words[1] <= MAX
    }

    constructor (base: Word)
      requires base + 8 * BLOCK_WORDS <= B64
      ensures Valid() && fresh(words) && Abs() == Stack([], 0)
    {
      this.base := base;
      words := new Word[BLOCK_WORDS](_ => 0);
    }

    /** The stack the block represents. */
    function Abs(): Stack
      reads this, words
      requires Valid()
    {
      Stack(Contexts(words[..], words[1]), words[0])
    }

    /** Index of the first word of the buffer at address `rdx`. */
    function Index(rdx: Word): int
      reads this
    {
      (rdx - base) / 8
    }

    lemma BufferIndex(depth: Word)
      requires Block() && depth < MAX
      ensures Index(BufferAddr(base, depth)) == 2 + 8 * depth
    {
      assert Wrap(64 * depth) == 64 * depth;
    }

    /** Saves the callee-saved registers, rsp past the return address, and the
        return address; returns 0. */
    method Enter(m: M) returns (o: Machine.Outcome)
      requires Valid() && words[1] < MAX && m.regs[RSP] in m.stack
      modifies words
      ensures Valid() && Abs() == Apply(old(Abs()), Op.Enter(Snapshot(m))).0
      ensures Realizes(m, Apply(old(Abs()), Op.Enter(Snapshot(m))).1, o)
    {
      hide Realizes, BufferAddr, Index, Contexts, Returned, Offset;
      var rcx := words[1];
      BufferIndex(rcx);
      var rdx := BufferAddr(base, rcx);
      var b := Index(rdx);
      var r10 := m.stack[m.regs[RSP]];
      words[b + 7] := r10;
      var rax := Offset(m.regs[RSP], 8);
      words[b + 6] := rax;
      words[b] := m.regs[RBX];
      words[b + 1], words[b + 2], words[b + 3], words[b + 4] := m.regs[12], m.regs[13], m.regs[14], m.regs[15];
      words[b + 5] := m.regs[RBP];
      rcx := rcx + 1;
      words[1] := rcx;
      Pushed(old(words[..]), words[..], Snapshot(m));
      ReturnRealized(m, base, rcx, rdx, r10);
      var m' := m.(regs := m.regs[R8 := base][RCX := rcx][RDX := rdx][R10 := r10][RAX := 0], flags := Ir.None);
      o := Machine.Go(Returned(m'));
    }

    /** Counts down whatever the depth: from 0 it goes to 2^64 - 1. */
    method Pop(m: M) returns (o: Machine.Outcome)
      requires Block() && m.regs[RSP] in m.stack
      modifies words
      ensures words[..] == old(words[..])[1 := Offset(old(words[1]), -1)] && Realizes(m, Back, o)
      ensures old(Valid()) && old(words[1]) > 0 ==>
        Valid() && Abs() == Apply(old(Abs()), Op.Pop).0 && Realizes(m, Apply(old(Abs()), Op.Pop).1, o)
    {
      var rcx := Offset(words[1], -1);
      words[1] := rcx;
      if old(Valid()) && old(words[1]) > 0 { ContextsKept(old(words[..]), words[..], words[1]); }
      var m' := m.(regs := m.regs[R8 := base][RCX := rcx], flags := Ir.None);
      o := Machine.Go(Returned(m'));
    }

    /** The object arrives in rdi. It is recorded whatever the depth; with no handler,
        or a depth beyond the block, the process exits. */
    method Throw(m: M) returns (o: Machine.Outcome)
      requires Block()
      modifies words
      ensures old(words[1]) == 0 || old(words[1]) > MAX ==>
        o == Machine.Exited(1, m.heap) && words[..] == old(words[..])[0 := m.regs[RDI]]
      ensures old(Valid()) ==> Valid() && Abs() == Apply(old(Abs()), Op.Throw(m.regs[RDI])).0
      ensures old(Valid()) ==> Realizes(m, Apply(old(Abs()), Op.Throw(m.regs[RDI])).1, o)
    {
      hide Contexts, ContextAt, Realizes;
      words[0] := m.regs[RDI];
      if old(words[1]) <= MAX { ContextsKept(old(words[..]), words[..], words[1]); }
      if words[1] == 0 || words[1] > MAX {
        ExitRealized(m);
        return Machine.Exited(1, m.heap);
      }
      o := Rethrow(m);
    }

    /** With no handler the process exits. The depth is not checked against the block:
        beyond it, what lies there is resumed. */
    method Rethrow(m: M) returns (o: Machine.Outcome)
      requires Block()
      modifies words
      ensures old(words[1]) == 0 ==> o == Machine.Exited(1, m.heap) && words[..] == old(words[..])
      ensures old(words[1]) > 0 ==>
        words[..] == old(words[..])[1 := old(words[1]) - 1] && Resumes(words[..], base, m, words[1], o)
      ensures old(Valid()) ==> Valid() && Abs() == Apply(old(Abs()), Op.Rethrow).0
      ensures old(Valid()) ==> Realizes(m, Apply(old(Abs()), Op.Rethrow).1, o)
    {
      hide Realizes, Resumes, ContextAt;
      if words[1] == 0 {
        ExitRealized(m);
        return Machine.Exited(1, m.heap);
      }
      o := Unwind(m);
      if old(Valid()) {
        ContextsKept(old(words[..]), words[..], words[1]);
        ResumesInBlock(old(words[..]), words[..], base, m, words[1], o);
      }
    }

    /** Leave the innermost handler, load its registers and jump to its address with rax = 1. */
    method Unwind(m: M) returns (o: Machine.Outcome)
      requires Block()
      modifies words
      ensures words[..] == old(words[..])[1 := Offset(old(words[1]), -1)] && Resumes(words[..], base, m, words[1], o)
    {
      hide WordAt, BufferAddr, ContextFrom, Readable;
      var rcx := Offset(words[1], -1);
      words[1] := rcx;
      var rdx := BufferAddr(base, rcx);
      if !Readable(words[..], base, m, rdx) { return Machine.Fault; }
      var c := ContextFrom(words[..], base, m, rdx);
      var regs := m.regs[R8 := base][RCX := rcx][RDX := rdx][R10 := c.rip][RAX := 1];
      regs := regs[RBX := c.rbx][12 := c.r12][13 := c.r13][14 := c.r14][15 := c.r15][RBP := c.rbp][RSP := c.rsp];
      o := Machine.Go(m.(rip := c.rip, regs := regs, flags := Ir.None));
    }

    method LoadExc(m: M) returns (o: Machine.Outcome)
      requires Block() && m.regs[RSP] in m.stack
      ensures Realizes(m, Return(words[0]), o)
      ensures Valid() ==> Apply(Abs(), Op.LoadExc).0 == Abs() && Realizes(m, Apply(Abs(), Op.LoadExc).1, o)
    {
      o := Machine.Go(Returned(m.(regs := m.regs[R8 := base][RAX := words[0]])));
    }

    method Clear(m: M) returns (o: Machine.Outcome)
      requires Block() && m.regs[RSP] in m.stack
      modifies words
      ensures words[..] == old(words[..])[0 := 0] && Realizes(m, Back, o)
      ensures old(Valid()) ==> Valid() && Abs() == Apply(old(Abs()), Op.Clear).0
      ensures old(Valid()) ==> Realizes(m, Apply(old(Abs()), Op.Clear).1, o)
    {
      words[0] := 0;
      if old(Valid()) { ContextsKept(old(words[..]), words[..], words[1]); }
      o := Machine.Go(Returned(m.(regs := m.regs[R8 := base])));
    }
  }

  /** At a depth in the block, resuming restores the context of that depth. */
  lemma ResumesInBlock(before: seq<Word>, words: seq<Word>, base: Word, m: M, depth: Word, o: Machine.Outcome)
    requires |before| == |words| == BLOCK_WORDS && base + 8 * BLOCK_WORDS <= B64 && depth < MAX
    requires forall i :: 2 <= i < BLOCK_WORDS ==> words[i] == before[i]
    requires Resumes(words, base, m, depth, o)
    ensures Realizes(m, Resume(ContextAt(before, depth), 1), o)
  {
    hide Realizes, Readable, ContextFrom, BufferAddr;
    ContextInBlock(words, base, m, depth);
  }

  /** A stored context and an incremented depth are a pushed context. */
  lemma Pushed(words: seq<Word>, words': seq<Word>, c: Context)
    requires |words| == |words'| == BLOCK_WORDS && words[1] < MAX && words'[1] == words[1] + 1
    requires forall i :: 2 <= i < 2 + 8 * words[1] ==> words'[i] == words[i]
    requires ContextAt(words', words[1]) == c
    ensures Contexts(words', words'[1]) == Contexts(words, words[1]) + [c]
  {
    hide ContextAt;
    ContextsKept(words, words', words[1]);
  }

  lemma ReturnRealized(m: M, base: Word, rcx: Word, rdx: Word, r10: Word)
    requires m.regs[RSP] in m.stack
    ensures var m' := m.(regs := m.regs[R8 := base][RCX := rcx][RDX := rdx][R10 := r10][RAX := 0], flags := Ir.None);
            Realizes(m, Return(0), Machine.Go(Returned(m')))
  {
  }

  lemma ExitRealized(m: M)
    ensures Realizes(m, Exit(1), Machine.Exited(1, m.heap))
  {
  }

  // ---------- properly nested code ----------

  /** The stack after a sequence of operations none of which transfers control. */
  function Straight(s: Stack, ops: seq<Op>): Ir.Option<Stack>
    decreases |ops|
  {
    if ops == [] then Ir.Some(s)
    else if Fits(s, ops[0]) && Continues(Apply(s, ops[0]).1) then Straight(Apply(s, ops[0]).0, ops[1..])
    else Ir.None
  }

  /** How many more handlers `ops` enters than it pops. */
  function Net(ops: seq<Op>): int {
    if ops == [] then 0
    else (if ops[0].Enter? then 1 else if ops[0].Pop? then -1 else 0) + Net(ops[1..])
  }

  /** No prefix pops more than it entered. */
  predicate Nested(ops: seq<Op>) { forall n :: 0 <= n <= |ops| ==> Net(ops[..n]) >= 0 }

  lemma NetSnoc(ops: seq<Op>, op: Op)
    ensures Net(ops + [op]) == Net(ops) + if op.Enter? then 1 else if op.Pop? then -1 else 0
  {
    if ops == [] {
      assert ops + [op] == [op] && [op][1..] == [];
    } else {
      assert (ops + [op])[1..] == ops[1..] + [op];
      NetSnoc(ops[1..], op);
    }
  }

  lemma StraightSnoc(s: Stack, ops: seq<Op>, op: Op)
    requires Straight(s, ops + [op]).Some?
    ensures Straight(s, ops).Some?
    ensures var t := Straight(s, ops).value;
            Fits(t, op) && Continues(Apply(t, op).1) && Straight(s, ops + [op]) == Ir.Some(Apply(t, op).0)
    decreases |ops|
  {
    if ops == [] {
      assert ops + [op] == [op] && [op][1..] == [];
    } else {
      assert (ops + [op])[1..] == ops[1..] + [op];
      StraightSnoc(Apply(s, ops[0]).0, ops[1..], op);
    }
  }

  /** Nested code leaves every handler that was live before it exactly where it was. */
  lemma {:induction false} NestedKeeps(s: Stack, ops: seq<Op>)
    requires Nested(ops) && Straight(s, ops).Some?
    ensures var t := Straight(s, ops).value;
            |t.live| == |s.live| + Net(ops) && s.live <= t.live
    decreases |ops|
  {
    if ops != [] {
      var n := |ops| - 1;
      var front, op := ops[..n], ops[n];
      assert ops == front + [op];
      forall k | 0 <= k <= n
        ensures Net(front[..k]) >= 0
      {
        assert front[..k] == ops[..k];
      }
      StraightSnoc(s, front, op);
      NetSnoc(front, op);
      NestedKeeps(s, front);
      assert Net(ops[..|ops|]) >= 0 && ops[..|ops|] == ops;
    }
  }

  /** A throw after entering a handler and any balanced nested code resumes that
      handler's context, with the thrown object in flight and the outer handlers
      as they were. */
  lemma ThrowResumes(s: Stack, c: Context, ops: seq<Op>, obj: Word)
    requires |s.live| < MAX && Nested(ops) && Net(ops) == 0
    requires Straight(Apply(s, Enter(c)).0, ops).Some?
    ensures Apply(Straight(Apply(s, Enter(c)).0, ops).value, Throw(obj)) == (Stack(s.live, obj), Resume(c, 1))
  {
    NestedKeeps(Apply(s, Enter(c)).0, ops);
    assert Straight(Apply(s, Enter(c)).0, ops).value.live == s.live + [c];
    assert (s.live + [c])[..|s.live|] == s.live;
  }

  /** Rethrowing from the handler goes to the next one out, with the same object. */
  lemma RethrowGoesOut(s: Stack, obj: Word)
    requires |s.live| >= 2
    ensures var (t, _) := Apply(s, Throw(obj));
            Apply(t, Rethrow) == (Stack(s.live[..|s.live| - 2], obj), Resume(s.live[|s.live| - 2], 1))
  {
    var (t, _) := Apply(s, Throw(obj));
    assert Rest(t) == s.live[..|s.live| - 2];
  }
}
