/** Placeholders and their patching: fields of branch, call and address
    instructions are filled in after the code around them is laid out. */
module Patching {
  import opened Ir
  import opened Machine
  import opened Emission
  import opened Encoding
  import opened RoundTrip

  // ---------- appending code ----------

  /** A field to fill: its offset, and the block or function it refers to. */
  datatype Fixup = Fixup(site: nat, target: nat)

  /** Code so far, and the fields still to be filled: branches to blocks, calls,
      absolute function addresses. */
  datatype Out = Out(code: Bytes, jumps: seq<Fixup>, calls: seq<Fixup>, relocs: seq<Fixup>)

  datatype Kind = Jumps | Calls | Addrs

  function KindOf(a: Asm): Option<Kind> {
    match a
    case JmpTo(_) => Some(Jumps)
    case JnzTo(_) => Some(Jumps)
    case CallFn(_) => Some(Calls)
    case LeaFn(_, _) => Some(Addrs)
    case _ => None
  }

  predicate Symbolic(a: Asm) { KindOf(a).Some? }

  function TargetOf(a: Asm): nat
    requires Symbolic(a)
  {
    match a case JmpTo(b) => b case JnzTo(b) => b case CallFn(k) => k case LeaFn(_, k) => k
  }

  /** Offset of the field inside the instruction. */
  function FieldAt(a: Asm): nat
    requires Symbolic(a)
  {
    if a.JmpTo? || a.CallFn? then 1 else 2
  }

  function FixupsOf(a: Asm, at: nat, kind: Kind): seq<Fixup> {
    if KindOf(a) == Some(kind) then [Fixup(at + FieldAt(a), TargetOf(a))] else []
  }

  function Emit1(o: Out, a: Asm): Out {
    var at := |o.code|;
    Out(o.code + Encode(a), o.jumps + FixupsOf(a, at, Jumps), o.calls + FixupsOf(a, at, Calls),
        o.relocs + FixupsOf(a, at, Addrs))
  }

  function EmitAll(o: Out, asms: seq<Asm>): Out
    decreases |asms|
  {
    if asms == [] then o else EmitAll(Emit1(o, asms[0]), asms[1..])
  }

  function Enc(asms: seq<Asm>): Bytes {
    if asms == [] then [] else Encode(asms[0]) + Enc(asms[1..])
  }

  /** The fields of one kind in `asms` laid out from `at`, in order. */
  function Fixups(asms: seq<Asm>, at: nat, kind: Kind): seq<Fixup>
    decreases |asms|
  {
    if asms == [] then [] else FixupsOf(asms[0], at, kind) + Fixups(asms[1..], at + Size(asms[0]), kind)
  }

  lemma EncSize(asms: seq<Asm>)
    ensures |Enc(asms)| == SizeAll(asms)
  {
    if asms != [] { EncodeSize(asms[0]); EncSize(asms[1..]); }
  }

  lemma EncAppend(xs: seq<Asm>, ys: seq<Asm>)
    ensures Enc(xs + ys) == Enc(xs) + Enc(ys)
  {
    if xs == [] {
      assert xs + ys == ys;
    } else {
      assert (xs + ys)[1..] == xs[1..] + ys;
      EncAppend(xs[1..], ys);
    }
  }

  lemma {:induction false} EmitAppend(o: Out, xs: seq<Asm>, ys: seq<Asm>)
    ensures EmitAll(o, xs + ys) == EmitAll(EmitAll(o, xs), ys)
    decreases |xs|
  {
    if xs == [] {
      assert xs + ys == ys;
    } else {
      assert (xs + ys)[1..] == xs[1..] + ys;
      EmitAppend(Emit1(o, xs[0]), xs[1..], ys);
    }
  }

  lemma Assoc<T>(x: seq<T>, y: seq<T>, z: seq<T>)
    ensures (x + y) + z == x + (y + z)
  {
  }

  /** Emission appends the encoding and records exactly the fields it contains. */
  lemma {:induction false} EmitIs(o: Out, asms: seq<Asm>)
    ensures EmitAll(o, asms) == Out(o.code + Enc(asms), o.jumps + Fixups(asms, |o.code|, Jumps),
                                    o.calls + Fixups(asms, |o.code|, Calls), o.relocs + Fixups(asms, |o.code|, Addrs))
    decreases |asms|
  {
    hide Encode, Size, FixupsOf;
    if asms == [] {
      assert o.code + [] == o.code && o.jumps + [] == o.jumps && o.calls + [] == o.calls && o.relocs + [] == o.relocs;
    } else {
      var a, rest, at := asms[0], asms[1..], |o.code|;
      EncodeSize(a);
      EmitIs(Emit1(o, a), rest);
      Assoc(o.code, Encode(a), Enc(rest));
      Assoc(o.jumps, FixupsOf(a, at, Jumps), Fixups(rest, at + Size(a), Jumps));
      Assoc(o.calls, FixupsOf(a, at, Calls), Fixups(rest, at + Size(a), Calls));
      Assoc(o.relocs, FixupsOf(a, at, Addrs), Fixups(rest, at + Size(a), Addrs));
    }
  }

  lemma {:induction false} FixupsAppend(xs: seq<Asm>, ys: seq<Asm>, at: nat, kind: Kind)
    ensures Fixups(xs + ys, at, kind) == Fixups(xs, at, kind) + Fixups(ys, at + SizeAll(xs), kind)
    decreases |xs|
  {
    hide FixupsOf, Size;
    if xs == [] {
      assert xs + ys == ys;
    } else {
      assert (xs + ys)[1..] == xs[1..] + ys;
      FixupsAppend(xs[1..], ys, at + Size(xs[0]), kind);
    }
  }

  // ---------- filling fields ----------

  function Width(kind: Kind): nat { if kind.Addrs? then 8 else 4 }

  /** A target exists among the blocks or functions. */
  predicate Targeted(kind: Kind, target: nat, ctx: Ctx) {
    if kind.Jumps? then target < |ctx.blk| else target < |ctx.fn|
  }

  /** The bytes to put in a field at address `site`: a distance from the end of
      the field, or an absolute address. */
  function FieldBytes(kind: Kind, site: int, target: nat, ctx: Ctx): Bytes
    requires Targeted(kind, target, ctx)
  {
    match kind
    case Jumps => LeBytes(ctx.blk[target] - (site + 4), 4)
    case Calls => LeBytes(ctx.fn[target] - (site + 4), 4)
    case Addrs => LeBytes(ctx.fn[target], 8)
  }

  function Overwrite(code: Bytes, site: nat, bs: Bytes): Bytes
    requires site + |bs| <= |code|
  {
    code[..site] + bs + code[site + |bs|..]
  }

  /** The first `n` fields of a kind filled in; `at` is the address of `asms`. */
  function Settle(asms: seq<Asm>, at: int, kind: Kind, ctx: Ctx, n: nat): seq<Asm>
    decreases |asms|
  {
    if asms == [] then []
    else if KindOf(asms[0]) == Some(kind) then
      if n == 0 then asms else [Resolve(asms[0], at, ctx)] + Settle(asms[1..], at + Size(asms[0]), kind, ctx, n - 1)
    else [asms[0]] + Settle(asms[1..], at + Size(asms[0]), kind, ctx, n)
  }

  predicate AllTargeted(asms: seq<Asm>, kind: Kind, ctx: Ctx) {
    forall i :: 0 <= i < |asms| && KindOf(asms[i]) == Some(kind) ==> Targeted(kind, TargetOf(asms[i]), ctx)
  }

  lemma SettleNone(asms: seq<Asm>, at: int, kind: Kind, ctx: Ctx)
    ensures Settle(asms, at, kind, ctx, 0) == asms
    decreases |asms|
  {
    if asms != [] { SettleNone(asms[1..], at + Size(asms[0]), kind, ctx); }
  }

  /** A resolved instruction differs from its placeholder in the field alone. */
  lemma ResolvedBytes(a: Asm, at: int, ctx: Ctx)
    requires Symbolic(a) && Targeted(KindOf(a).value, TargetOf(a), ctx)
    ensures Size(a) == FieldAt(a) + Width(KindOf(a).value) && |Encode(a)| == Size(a)
    ensures Encode(Resolve(a, at, ctx))
         == Encode(a)[..FieldAt(a)] + FieldBytes(KindOf(a).value, at + FieldAt(a), TargetOf(a), ctx)
  {
    hide LeBytes;
    EncodeSize(a);
    match a { case JmpTo(_) => case JnzTo(_) => case CallFn(_) => case LeaFn(_, _) => }
  }

  lemma OverwriteTail(pre: Bytes, enc: Bytes, post: Bytes, f: nat, bs: Bytes)
    requires |enc| == f + |bs|
    ensures Overwrite(pre + enc + post, |pre| + f, bs) == pre + (enc[..f] + bs) + post
  {
    var code := pre + enc + post;
    assert code[..|pre| + f] == pre + enc[..f];
    assert code[|pre| + f + |bs|..] == post;
  }

  /** Overwriting one placeholder turns its encoding into the resolved one. */
  lemma PatchOne(a: Asm, pre: Bytes, post: Bytes, base: int, ctx: Ctx)
    requires Symbolic(a) && Targeted(KindOf(a).value, TargetOf(a), ctx)
    ensures var site, kind := |pre| + FieldAt(a), KindOf(a).value;
            && site + Width(kind) <= |pre + Encode(a) + post|
            && Overwrite(pre + Encode(a) + post, site, FieldBytes(kind, base + site, TargetOf(a), ctx))
            == pre + Encode(Resolve(a, base + |pre|, ctx)) + post
  {
    hide Encode, Resolve, Size, FieldAt, Overwrite;
    var site, kind := |pre| + FieldAt(a), KindOf(a).value;
    ResolvedBytes(a, base + |pre|, ctx);
    OverwriteTail(pre, Encode(a), post, FieldAt(a), FieldBytes(kind, base + site, TargetOf(a), ctx));
  }

  /** Filling field `n` of the laid-out code gives the code with `n + 1` fields filled. */
  ghost predicate PatchStep(asms: seq<Asm>, pre: Bytes, post: Bytes, base: int, kind: Kind, ctx: Ctx, n: nat)
    requires n < |Fixups(asms, |pre|, kind)|
  {
    var at, fx := base + |pre|, Fixups(asms, |pre|, kind)[n];
    var code := pre + Enc(Settle(asms, at, kind, ctx, n)) + post;
    && fx.site + Width(kind) <= |code| && Targeted(kind, fx.target, ctx)
    && Overwrite(code, fx.site, FieldBytes(kind, base + fx.site, fx.target, ctx))
       == pre + Enc(Settle(asms, at, kind, ctx, n + 1)) + post
  }

  /** How the first instruction shows in the first `n` filled fields. */
  predicate Leads(a: Asm, at: int, kind: Kind, ctx: Ctx, n: nat, head: Asm, k: nat) {
    if KindOf(a) == Some(kind) then n == k + 1 && head == Resolve(a, at, ctx) else n == k && head == a
  }

  lemma FixupUnder(asms: seq<Asm>, at: int, off: nat, kind: Kind, ctx: Ctx, n: nat, head: Asm, k: nat)
    requires asms != [] && n < |Fixups(asms, off, kind)| && Leads(asms[0], at, kind, ctx, n, head, k)
    ensures k < |Fixups(asms[1..], off + Size(asms[0]), kind)|
    ensures Fixups(asms, off, kind)[n] == Fixups(asms[1..], off + Size(asms[0]), kind)[k]
  {
  }

  lemma SettleUnder(asms: seq<Asm>, at: int, kind: Kind, ctx: Ctx, n: nat, head: Asm, k: nat)
    requires asms != [] && Leads(asms[0], at, kind, ctx, n, head, k)
    ensures Settle(asms, at, kind, ctx, n) == [head] + Settle(asms[1..], at + Size(asms[0]), kind, ctx, k)
    ensures Settle(asms, at, kind, ctx, n + 1) == [head] + Settle(asms[1..], at + Size(asms[0]), kind, ctx, k + 1)
  {
    hide Resolve, Size;
  }

  /** A field behind the first instruction is filled in the rest. */
  lemma PatchUnder(asms: seq<Asm>, pre: Bytes, post: Bytes, base: int, kind: Kind, ctx: Ctx, n: nat, head: Asm, k: nat)
    requires asms != [] && n < |Fixups(asms, |pre|, kind)| && Size(head) == Size(asms[0])
    requires Leads(asms[0], base + |pre|, kind, ctx, n, head, k)
    requires k < |Fixups(asms[1..], |pre + Encode(head)|, kind)|
    requires PatchStep(asms[1..], pre + Encode(head), post, base, kind, ctx, k)
    ensures PatchStep(asms, pre, post, base, kind, ctx, n)
  {
    hide Encode, Enc, Fixups, Settle, FieldBytes, Overwrite, Size, Targeted, Leads;
    EncodeSize(head);
    var rest, at := asms[1..], base + |pre| + Size(asms[0]);
    FixupUnder(asms, base + |pre|, |pre|, kind, ctx, n, head, k);
    SettleUnder(asms, base + |pre|, kind, ctx, n, head, k);
    EncCons(head, Settle(rest, at, kind, ctx, k), pre, post);
    EncCons(head, Settle(rest, at, kind, ctx, k + 1), pre, post);
  }

  lemma {:induction false} PatchNext(asms: seq<Asm>, pre: Bytes, post: Bytes, base: int, kind: Kind, ctx: Ctx, n: nat)
    requires AllTargeted(asms, kind, ctx) && n < |Fixups(asms, |pre|, kind)|
    ensures PatchStep(asms, pre, post, base, kind, ctx, n)
    decreases |asms|
  {
    hide Encode, Resolve, Size, FieldAt, Targeted, KindOf, TargetOf, PatchStep;
    var a := asms[0];
    if KindOf(a) == Some(kind) && n == 0 {
      HeadTargeted(asms, kind, ctx);
      PatchHead(asms, pre, post, base, kind, ctx);
    } else {
      var resolved := KindOf(a) == Some(kind);
      var head, k := if resolved then Resolve(a, base + |pre|, ctx) else a, if resolved then n - 1 else n;
      ResolveSizes(a, base + |pre|, ctx);
      EncodeSize(head);
      RestTargeted(asms, kind, ctx);
      FixupUnder(asms, base + |pre|, |pre|, kind, ctx, n, head, k);
      PatchNext(asms[1..], pre + Encode(head), post, base, kind, ctx, k);
      PatchUnder(asms, pre, post, base, kind, ctx, n, head, k);
    }
  }

  lemma HeadTargeted(asms: seq<Asm>, kind: Kind, ctx: Ctx)
    requires asms != [] && AllTargeted(asms, kind, ctx) && KindOf(asms[0]) == Some(kind)
    ensures Targeted(kind, TargetOf(asms[0]), ctx)
  {
  }

  lemma RestTargeted(asms: seq<Asm>, kind: Kind, ctx: Ctx)
    requires asms != [] && AllTargeted(asms, kind, ctx)
    ensures AllTargeted(asms[1..], kind, ctx)
  {
  }

  lemma PatchHead(asms: seq<Asm>, pre: Bytes, post: Bytes, base: int, kind: Kind, ctx: Ctx)
    requires asms != [] && KindOf(asms[0]) == Some(kind) && Targeted(kind, TargetOf(asms[0]), ctx)
    ensures PatchStep(asms, pre, post, base, kind, ctx, 0)
  {
    hide Encode, Resolve, FieldBytes, Overwrite, Size, FieldAt, Targeted, KindOf;
    var a, rest, at := asms[0], asms[1..], base + |pre|;
    SettleNone(asms, at, kind, ctx);
    SettleNone(rest, at + Size(a), kind, ctx);
    EncCons(a, rest, pre, post);
    assert asms == [a] + rest;
    Assoc(pre + Encode(a), Enc(rest), post);
    PatchOne(a, pre, Enc(rest) + post, base, ctx);
    EncCons(Resolve(a, at, ctx), rest, pre, post);
    Assoc(pre + Encode(Resolve(a, at, ctx)), Enc(rest), post);
  }

  lemma EncCons(head: Asm, tail: seq<Asm>, pre: Bytes, post: Bytes)
    ensures pre + Enc([head] + tail) + post == (pre + Encode(head)) + Enc(tail) + post
  {
    hide Encode;
    assert ([head] + tail)[1..] == tail;
  }

  lemma ResolveSizes(a: Asm, at: int, ctx: Ctx)
    ensures Size(Resolve(a, at, ctx)) == Size(a)
  {
  }

  // ---------- overwriting ----------

  lemma OverwriteHas(c: Bytes, at: nat, bs: Bytes)
    requires at + |bs| <= |c|
    ensures |Overwrite(c, at, bs)| == |c| && HasBytes(Overwrite(c, at, bs), at, bs)
    ensures forall i :: 0 <= i < |c| && !(at <= i < at + |bs|) ==> Overwrite(c, at, bs)[i] == c[i]
  {
  }

  lemma OverwriteKeeps(c: Bytes, at: nat, bs: Bytes, p: int, x: Bytes)
    requires at + |bs| <= |c| && HasBytes(c, p, x) && (p + |x| <= at || at + |bs| <= p)
    ensures HasBytes(Overwrite(c, at, bs), p, x)
  {
    OverwriteHas(c, at, bs);
    var c' := Overwrite(c, at, bs);
    assert c'[p..p + |x|] == c[p..p + |x|];
  }

  // ---------- everything resolved ----------

  function ResolveAll(asms: seq<Asm>, at: int, ctx: Ctx): seq<Asm>
    decreases |asms|
  {
    if asms == [] then [] else [Resolve(asms[0], at, ctx)] + ResolveAll(asms[1..], at + Size(asms[0]), ctx)
  }

  function SettleAll(asms: seq<Asm>, at: int, kind: Kind, ctx: Ctx): seq<Asm>
    decreases |asms|
  {
    if asms == [] then []
    else [if KindOf(asms[0]) == Some(kind) then Resolve(asms[0], at, ctx) else asms[0]]
         + SettleAll(asms[1..], at + Size(asms[0]), kind, ctx)
  }

  lemma {:induction false} SettledAll(asms: seq<Asm>, at: int, off: nat, kind: Kind, ctx: Ctx, n: nat)
    requires n >= |Fixups(asms, off, kind)|
    ensures Settle(asms, at, kind, ctx, n) == SettleAll(asms, at, kind, ctx)
    decreases |asms|
  {
    if asms != [] {
      var k := if KindOf(asms[0]) == Some(kind) then n - 1 else n;
      SettledAll(asms[1..], at + Size(asms[0]), off + Size(asms[0]), kind, ctx, k);
    }
  }

  lemma {:induction false} SettleAllSize(asms: seq<Asm>, at: int, kind: Kind, ctx: Ctx)
    ensures |SettleAll(asms, at, kind, ctx)| == |asms| && SizeAll(SettleAll(asms, at, kind, ctx)) == SizeAll(asms)
    decreases |asms|
  {
    if asms != [] { SettleAllSize(asms[1..], at + Size(asms[0]), kind, ctx); }
  }

  lemma {:induction false} SettleAllAppend(xs: seq<Asm>, ys: seq<Asm>, at: int, kind: Kind, ctx: Ctx)
    ensures SettleAll(xs + ys, at, kind, ctx) == SettleAll(xs, at, kind, ctx) + SettleAll(ys, at + SizeAll(xs), kind, ctx)
    decreases |xs|
  {
    hide Resolve, KindOf, Size;
    if xs == [] {
      assert xs + ys == ys;
    } else {
      assert (xs + ys)[1..] == xs[1..] + ys;
      SettleAllAppend(xs[1..], ys, at + Size(xs[0]), kind, ctx);
    }
  }

  function Pass(a: Asm, at: int, kind: Kind, ctx: Ctx): Asm {
    if KindOf(a) == Some(kind) then Resolve(a, at, ctx) else a
  }

  lemma HeadPasses(a: Asm, at: int, ctx: Ctx)
    ensures Pass(Pass(Pass(a, at, Jumps, ctx), at, Addrs, ctx), at, Calls, ctx) == Resolve(a, at, ctx)
    ensures forall kind :: Size(Pass(a, at, kind, ctx)) == Size(a)
  {
  }

  /** Filling branches, then addresses, then calls, fills everything. */
  lemma {:induction false} SettlePasses(asms: seq<Asm>, at: int, ctx: Ctx)
    ensures SettleAll(SettleAll(SettleAll(asms, at, Jumps, ctx), at, Addrs, ctx), at, Calls, ctx) == ResolveAll(asms,
        at, ctx)
    decreases |asms|
  {
    hide Resolve, KindOf, Size, Pass;
    if asms != [] {
      var a, rest := asms[0], asms[1..];
      var j := Pass(a, at, Jumps, ctx);
      var d := Pass(j, at, Addrs, ctx);
      HeadPasses(a, at, ctx);
      HeadPasses(j, at, ctx);
      SettlePasses(rest, at + Size(a), ctx);
      PassCons(a, rest, at, Jumps, ctx);
      PassCons(j, SettleAll(rest, at + Size(a), Jumps, ctx), at, Addrs, ctx);
      PassCons(d, SettleAll(SettleAll(rest, at + Size(a), Jumps, ctx), at + Size(a), Addrs, ctx), at, Calls, ctx);
      assert asms == [a] + rest;
    }
  }

  lemma PassCons(a: Asm, rest: seq<Asm>, at: int, kind: Kind, ctx: Ctx)
    ensures SettleAll([a] + rest, at, kind, ctx) == [Pass(a, at, kind, ctx)] + SettleAll(rest, at + Size(a), kind, ctx)
  {
    hide Resolve, KindOf, Size;
    assert ([a] + rest)[1..] == rest;
  }
}
