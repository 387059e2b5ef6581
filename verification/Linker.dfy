/** From functions to a linked code image: emission, then function addresses and
    call distances filled in. */
module Linker {
  import opened Ir
  import opened Words
  import opened Locations
  import opened RegAlloc
  import opened Machine
  import opened Emission
  import opened Encoding
  import opened Decoder
  import opened RoundTrip
  import opened Patching
  import opened Layout
  import Em = Emitter

  function Recv(fs: seq<Func>): seq<bool> { seq(|fs|, k requires 0 <= k < |fs| => fs[k].receiver) }

  /** Allocations for the first functions of a program. */
  ghost predicate Allocated(fs: seq<Func>, allocs: seq<Allocation>) {
    |allocs| <= |fs| && forall k :: 0 <= k < |allocs| ==> AllocationOf(fs[k], allocs[k])
  }

  ghost predicate Compilable(fs: seq<Func>) {
    forall k :: 0 <= k < |fs| ==> WellFormed(fs[k]) && Compact(fs[k], |fs|)
  }

  function FnCode(fs: seq<Func>, allocs: seq<Allocation>, k: nat): seq<Asm>
    requires k < |allocs| <= |fs|
  {
    FnAsm(fs[k], allocs[k], Recv(fs))
  }

  /** Offset of function `k`. */
  function StartOf(fs: seq<Func>, allocs: seq<Allocation>, k: nat): nat
    requires k <= |allocs| <= |fs|
  {
    if k == 0 then 0 else StartOf(fs, allocs, k - 1) + SizeAll(FnCode(fs, allocs, k - 1))
  }

  function LocalCtx(fs: seq<Func>, allocs: seq<Allocation>, k: nat): Ctx
    requires k < |allocs| <= |fs|
  {
    Ctx([], Em.StartsOf(fs[k], allocs[k], Recv(fs), StartOf(fs, allocs, k), |fs[k].blocks|))
  }

  /** The code of the first `n` functions with branches filled. */
  function Laid(fs: seq<Func>, allocs: seq<Allocation>, n: nat): seq<Asm>
    requires n <= |allocs| <= |fs|
  {
    if n == 0 then []
    else Laid(fs, allocs, n - 1)
         + SettleAll(FnCode(fs, allocs, n - 1), StartOf(fs, allocs, n - 1), Jumps, LocalCtx(fs, allocs, n - 1))
  }

  lemma LaidSize(fs: seq<Func>, allocs: seq<Allocation>, n: nat)
    requires n <= |allocs| <= |fs|
    ensures SizeAll(Laid(fs, allocs, n)) == StartOf(fs, allocs, n)
  {
    hide FnCode, SettleAll, LocalCtx;
    if n == 0 {
    } else {
      LaidSize(fs, allocs, n - 1);
      var piece := SettleAll(FnCode(fs, allocs, n - 1), StartOf(fs, allocs, n - 1), Jumps, LocalCtx(fs, allocs, n - 1));
      SettleAllSize(FnCode(fs, allocs, n - 1), StartOf(fs, allocs, n - 1), Jumps, LocalCtx(fs, allocs, n - 1));
      SizeAppend(Laid(fs, allocs, n - 1), piece);
    }
  }

  /** Filling fields of one kind leaves the fields of the others where they are. */
  lemma {:induction false} FixupsSettled(asms: seq<Asm>, at: int, off: nat, done: Kind, ctx: Ctx, kind: Kind)
    requires done != kind
    ensures Fixups(SettleAll(asms, at, done, ctx), off, kind) == Fixups(asms, off, kind)
    decreases |asms|
  {
    hide Resolve, KindOf, Size, FixupsOf;
    if asms != [] {
      var head := if KindOf(asms[0]) == Some(done) then Resolve(asms[0], at, ctx) else asms[0];
      HeadFixups(asms[0], at, off, done, ctx, kind);
      FixupsSettled(asms[1..], at + Size(asms[0]), off + Size(asms[0]), done, ctx, kind);
      assert SettleAll(asms, at, done, ctx) == [head] + SettleAll(asms[1..], at + Size(asms[0]), done, ctx);
    }
  }

  lemma HeadFixups(a: Asm, at: int, off: nat, done: Kind, ctx: Ctx, kind: Kind)
    requires done != kind
    ensures var head := if KindOf(a) == Some(done) then Resolve(a, at, ctx) else a;
            Size(head) == Size(a) && FixupsOf(head, off, kind) == FixupsOf(a, off, kind)
  {
  }

  // ---------- emitting all functions ----------

  /** What the emitter holds after the first `n` functions. */
  ghost predicate Emitted(fs: seq<Func>, allocs: seq<Allocation>, code: Bytes, starts: seq<nat>,
                          calls: seq<Fixup>, relocs: seq<Fixup>)
  {
    && Allocated(fs, allocs) && |starts| == |allocs|
    && (forall k :: 0 <= k < |starts| ==> starts[k] == StartOf(fs, allocs, k))
    && code == Enc(Laid(fs, allocs, |allocs|))
    && calls == Fixups(Laid(fs, allocs, |allocs|), 0, Calls)
    && relocs == Fixups(Laid(fs, allocs, |allocs|), 0, Addrs)
  }

  lemma StartSame(fs: seq<Func>, allocs: seq<Allocation>, a: Allocation, k: nat)
    requires |allocs| < |fs| && k <= |allocs|
    ensures StartOf(fs, allocs + [a], k) == StartOf(fs, allocs, k) && Laid(fs, allocs + [a], k) == Laid(fs, allocs, k)
  {
    if k > 0 {
      StartSame(fs, allocs, a, k - 1);
      assert (allocs + [a])[k - 1] == allocs[k - 1];
    }
  }

  /** The piece the next function adds. */
  function Piece(fs: seq<Func>, a: Allocation, n: nat, at: nat): seq<Asm>
    requires n < |fs|
  {
    SettleAll(FnAsm(fs[n], a, Recv(fs)), at, Jumps, Ctx([], Em.StartsOf(fs[n], a, Recv(fs), at, |fs[n].blocks|)))
  }

  lemma LaidNext(fs: seq<Func>, allocs: seq<Allocation>, a: Allocation)
    requires |allocs| < |fs|
    ensures var n, at := |allocs|, SizeAll(Laid(fs, allocs, |allocs|));
            && Laid(fs, allocs + [a], n + 1) == Laid(fs, allocs, n) + Piece(fs, a, n, at)
            && StartOf(fs, allocs + [a], n) == at
  {
    hide FnAsm, SettleAll, Em.StartsOf, SizeAll;
    var n, all := |allocs|, allocs + [a];
    StartSame(fs, allocs, a, n);
    LaidSize(fs, allocs, n);
    assert FnCode(fs, all, n) == FnAsm(fs[n], a, Recv(fs));
  }

  lemma PieceFields(body: seq<Asm>, ctx: Ctx, before: seq<Asm>, kind: Kind)
    requires !kind.Jumps?
    ensures var at := SizeAll(before);
            Fixups(before + SettleAll(body, at, Jumps, ctx), 0, kind) == Fixups(before, 0, kind) + Fixups(body, at, kind)
  {
    var at := SizeAll(before);
    FixupsAppend(before, SettleAll(body, at, Jumps, ctx), 0, kind);
    FixupsSettled(body, at, at, Jumps, ctx, kind);
  }

  lemma StartsSame(fs: seq<Func>, allocs: seq<Allocation>, a: Allocation)
    requires |allocs| < |fs|
    ensures forall k :: 0 <= k <= |allocs| ==> StartOf(fs, allocs + [a], k) == StartOf(fs, allocs, k)
  {
    forall k | 0 <= k <= |allocs|
      ensures StartOf(fs, allocs + [a], k) == StartOf(fs, allocs, k)
    {
      StartSame(fs, allocs, a, k);
    }
  }

  lemma EmittedNext(fs: seq<Func>, allocs: seq<Allocation>, a: Allocation, code: Bytes, starts: seq<nat>,
                    calls: seq<Fixup>, relocs: seq<Fixup>)
    requires |allocs| < |fs| && AllocationOf(fs[|allocs|], a) && Emitted(fs, allocs, code, starts, calls, relocs)
    ensures var body := FnAsm(fs[|allocs|], a, Recv(fs));
            Emitted(fs, allocs + [a], code + Enc(Piece(fs, a, |allocs|, |code|)), starts + [|code|],
                    calls + Fixups(body, |code|, Calls), relocs + Fixups(body, |code|, Addrs))
  {
    hide FnAsm, Enc, SettleAll, Fixups, AllocationOf, Em.StartsOf, SizeAll, Laid, StartOf;
    var n := |allocs|;
    var before, body := Laid(fs, allocs, n), FnAsm(fs[n], a, Recv(fs));
    var ctx := Ctx([], Em.StartsOf(fs[n], a, Recv(fs), |code|, |fs[n].blocks|));
    EncSize(before);
    LaidNext(fs, allocs, a);
    StartsSame(fs, allocs, a);
    EncAppend(before, Piece(fs, a, n, |code|));
    PieceFields(body, ctx, before, Calls);
    PieceFields(body, ctx, before, Addrs);
  }

  lemma EmittedNone(fs: seq<Func>)
    ensures Emitted(fs, [], [], [], [], [])
  {
  }

  method Lower(fs: seq<Func>)
    returns (allocs: seq<Allocation>, code: Bytes, starts: seq<nat>, calls: seq<Fixup>, relocs: seq<Fixup>)
    requires Compilable(fs)
    ensures |allocs| == |fs| && Emitted(fs, allocs, code, starts, calls, relocs)
  {
    hide Emitted, Compact, WellFormed, AllocationOf, FnAsm;
    var e := new Em.Emitter(Recv(fs));
    allocs := [];
    EmittedNone(fs);
    var k := 0;
    while k < |fs|
      invariant 0 <= k <= |fs| && |allocs| == k && e.recv == Recv(fs)
      invariant Emitted(fs, allocs, e.code, e.fnStarts, e.callSites, e.relocs)
    {
      ghost var code0, starts0, calls0, relocs0 := e.code, e.fnStarts, e.callSites, e.relocs;
      var a := e.EmitFunction(fs[k]);
      EmittedNext(fs, allocs, a, code0, starts0, calls0, relocs0);
      allocs := allocs + [a];
      k := k + 1;
    }
    code, starts, calls, relocs := e.code, e.fnStarts, e.callSites, e.relocs;
  }

  // ---------- linking ----------

  /** Fill every field of one kind, for code loaded at `base`. */
  method FillFields(code: Bytes, fixups: seq<Fixup>, kind: Kind, base: int, ctx: Ctx, ghost asms: seq<Asm>)
    returns (image: Bytes)
    requires code == Enc(asms) && fixups == Fixups(asms, 0, kind) && AllTargeted(asms, kind, ctx)
    ensures image == Enc(SettleAll(asms, base, kind, ctx))
  {
    hide Enc, Settle, SettleAll, Overwrite, FieldBytes, Fixups, AllTargeted, Targeted;
    image := code;
    var n := 0;
    SettleNone(asms, base, kind, ctx);
    Bare(Enc(asms));
    while n < |fixups|
      invariant 0 <= n <= |fixups|
      invariant image == [] + Enc(Settle(asms, base, kind, ctx, n)) + []
    {
      PatchNext(asms, [], [], base, kind, ctx, n);
      FieldWidth(kind, base + fixups[n].site, fixups[n].target, ctx);
      image := Overwrite(image, fixups[n].site, FieldBytes(kind, base + fixups[n].site, fixups[n].target, ctx));
      n := n + 1;
    }
    SettledAll(asms, base, 0, kind, ctx, n);
    Bare(Enc(SettleAll(asms, base, kind, ctx)));
  }

  lemma FieldWidth(kind: Kind, site: int, target: nat, ctx: Ctx)
    requires Targeted(kind, target, ctx)
    ensures |FieldBytes(kind, site, target, ctx)| == Width(kind)
  {
  }

  lemma Bare(s: Bytes)
    ensures [] + s + [] == s
  {
  }

  lemma ConsTargeted(asms: seq<Asm>, at: int, done: Kind, lc: Ctx, kind: Kind, ctx: Ctx)
    requires asms != [] && AllTargeted(asms, kind, ctx) && done != kind
    requires AllTargeted(SettleAll(asms[1..], at + Size(asms[0]), done, lc), kind, ctx)
    ensures AllTargeted(SettleAll(asms, at, done, lc), kind, ctx)
  {
    var rest := SettleAll(asms[1..], at + Size(asms[0]), done, lc);
    var all := SettleAll(asms, at, done, lc);
    forall i | 0 <= i < |all| && KindOf(all[i]) == Some(kind)
      ensures Targeted(kind, TargetOf(all[i]), ctx)
    {
      if i > 0 { assert all[i] == rest[i - 1]; }
    }
  }

  lemma {:induction false} StartMonotone(fs: seq<Func>, allocs: seq<Allocation>, k: nat, n: nat)
    requires k <= n <= |allocs| <= |fs|
    ensures StartOf(fs, allocs, k) <= StartOf(fs, allocs, n)
    decreases n
  {
    hide FnCode, SizeAll;
    if k < n { StartMonotone(fs, allocs, k, n - 1); }
  }

  function FnCtx(fs: seq<Func>, allocs: seq<Allocation>, addr: seq<Word>, k: nat): Ctx
    requires k < |allocs| <= |fs| && k < |addr|
  {
    Ctx(addr, Em.StartsOf(fs[k], allocs[k], Recv(fs), addr[k], |fs[k].blocks|))
  }

  /** The first `n` functions, everything resolved. */
  function Linked(fs: seq<Func>, allocs: seq<Allocation>, addr: seq<Word>, n: nat): seq<Asm>
    requires n <= |allocs| <= |fs| && n <= |addr|
  {
    if n == 0 then []
    else Linked(fs, allocs, addr, n - 1) + ResolveAll(FnCode(fs, allocs, n - 1), addr[n - 1], FnCtx(fs, allocs, addr,
        n - 1))
  }

  /** Branch distances do not depend on where the code is loaded. */
  lemma {:induction false} JumpsShift(asms: seq<Asm>, at: int, d: int, fn: seq<Word>, gn: seq<Word>, xs: seq<int>,
    ys: seq<int>)
    requires |xs| == |ys| && forall b :: 0 <= b < |xs| ==> ys[b] == xs[b] + d
    ensures SettleAll(asms, at, Jumps, Ctx(fn, xs)) == SettleAll(asms, at + d, Jumps, Ctx(gn, ys))
    decreases |asms|
  {
    if asms != [] {
      JumpShift(asms[0], at, d, fn, gn, xs, ys);
      JumpsShift(asms[1..], at + Size(asms[0]), d, fn, gn, xs, ys);
    }
  }

  lemma JumpShift(a: Asm, at: int, d: int, fn: seq<Word>, gn: seq<Word>, xs: seq<int>, ys: seq<int>)
    requires |xs| == |ys| && forall b :: 0 <= b < |xs| ==> ys[b] == xs[b] + d
    ensures KindOf(a) == Some(Jumps) ==> Resolve(a, at, Ctx(fn, xs)) == Resolve(a, at + d, Ctx(gn, ys))
  {
  }

  /** Calls and addresses do not depend on the blocks. */
  lemma {:induction false} BlocksUnused(asms: seq<Asm>, at: int, kind: Kind, fn: seq<Word>, xs: seq<int>, ys: seq<int>)
    requires !kind.Jumps?
    ensures SettleAll(asms, at, kind, Ctx(fn, xs)) == SettleAll(asms, at, kind, Ctx(fn, ys))
    decreases |asms|
  {
    if asms != [] {
      BlockUnused(asms[0], at, kind, fn, xs, ys);
      BlocksUnused(asms[1..], at + Size(asms[0]), kind, fn, xs, ys);
    }
  }

  lemma BlockUnused(a: Asm, at: int, kind: Kind, fn: seq<Word>, xs: seq<int>, ys: seq<int>)
    requires !kind.Jumps?
    ensures KindOf(a) == Some(kind) ==> Resolve(a, at, Ctx(fn, xs)) == Resolve(a, at, Ctx(fn, ys))
  {
  }

  /** The three passes over one function resolve it completely. */
  lemma PieceResolved(fs: seq<Func>, allocs: seq<Allocation>, addr: seq<Word>, base: int, k: nat)
    requires k < |allocs| <= |fs| && k < |addr| && addr[k] == base + StartOf(fs, allocs, k)
    ensures var ctx, at := Ctx(addr, []), StartOf(fs, allocs, k);
            SettleAll(SettleAll(SettleAll(FnCode(fs, allocs, k), at, Jumps, LocalCtx(fs, allocs, k)),
                                base + at, Addrs, ctx), base + at, Calls, ctx)
            == ResolveAll(FnCode(fs, allocs, k), addr[k], FnCtx(fs, allocs, addr, k))
  {
    hide SettleAll, FnCode, StartOf, BlockOff, ResolveAll;
    var body, at := FnCode(fs, allocs, k), StartOf(fs, allocs, k);
    var xs, ys := LocalCtx(fs, allocs, k).blk, FnCtx(fs, allocs, addr, k).blk;
    JumpsShift(body, at, base, [], addr, xs, ys);
    var j := SettleAll(body, addr[k], Jumps, Ctx(addr, ys));
    BlocksUnused(j, addr[k], Addrs, addr, [], ys);
    BlocksUnused(SettleAll(j, addr[k], Addrs, Ctx(addr, ys)), addr[k], Calls, addr, [], ys);
    SettlePasses(body, addr[k], Ctx(addr, ys));
  }

  lemma {:induction false} LinkedIs(fs: seq<Func>, allocs: seq<Allocation>, addr: seq<Word>, base: int, n: nat)
    requires n <= |allocs| <= |fs| && n <= |addr| && forall k :: 0 <= k < n ==> addr[k] == base + StartOf(fs, allocs, k)
    ensures var ctx := Ctx(addr, []);
            SettleAll(SettleAll(Laid(fs, allocs, n), base, Addrs, ctx), base, Calls, ctx) == Linked(fs, allocs, addr, n)
    decreases n
  {
    hide SettleAll, FnCode, StartOf, ResolveAll, FnCtx, LocalCtx;
    var ctx := Ctx(addr, []);
    if n == 0 {
      SettleEmpty(base, Addrs, ctx);
      SettleEmpty(base, Calls, ctx);
    } else {
      LinkedIs(fs, allocs, addr, base, n - 1);
      PieceResolved(fs, allocs, addr, base, n - 1);
      LaidSize(fs, allocs, n - 1);
      var before := Laid(fs, allocs, n - 1);
      var piece := SettleAll(FnCode(fs, allocs, n - 1), StartOf(fs, allocs, n - 1), Jumps, LocalCtx(fs, allocs, n - 1));
      SettleAllAppend(before, piece, base, Addrs, ctx);
      SettleAllSize(before, base, Addrs, ctx);
      SettleAllAppend(SettleAll(before, base, Addrs, ctx), SettleAll(piece, base + SizeAll(before), Addrs, ctx),
          base, Calls, ctx);
    }
  }

  lemma SettleEmpty(at: int, kind: Kind, ctx: Ctx)
    ensures SettleAll([], at, kind, ctx) == []
  {
  }

  lemma TargetedAppend(xs: seq<Asm>, ys: seq<Asm>, kind: Kind, ctx: Ctx)
    requires AllTargeted(xs, kind, ctx) && AllTargeted(ys, kind, ctx)
    ensures AllTargeted(xs + ys, kind, ctx)
  {
  }

  /** Every function referred to exists. */
  lemma {:induction false} LaidTargeted(fs: seq<Func>, allocs: seq<Allocation>, addr: seq<Word>, n: nat, kind: Kind)
    requires Compilable(fs) && Allocated(fs, allocs) && n <= |allocs| && |addr| == |fs| && !kind.Jumps?
    ensures AllTargeted(Laid(fs, allocs, n), kind, Ctx(addr, []))
    decreases n
  {
    hide SettleAll, FnAsm, WellFormed, Compact, AllocationOf, StartOf, LocalCtx;
    if n > 0 {
      LaidTargeted(fs, allocs, addr, n - 1, kind);
      var body, lc := FnCode(fs, allocs, n - 1), LocalCtx(fs, allocs, n - 1);
      GoodFunction(fs[n - 1], allocs[n - 1], Recv(fs), |fs|);
      BodyTargeted(body, |fs[n - 1].blocks|, |fs|, addr, lc.blk, kind);
      SettledTargeted(body, StartOf(fs, allocs, n - 1), Jumps, lc, kind, Ctx(addr, []));
      TargetedAppend(Laid(fs, allocs, n - 1), SettleAll(body, StartOf(fs, allocs, n - 1), Jumps, lc), kind, Ctx(addr, []));
    }
  }

  lemma BodyTargeted(body: seq<Asm>, nblk: nat, nfn: nat, addr: seq<Word>, blk: seq<int>, kind: Kind)
    requires AllGood(body, nblk, nfn) && |addr| == nfn && !kind.Jumps?
    ensures AllTargeted(body, kind, Ctx(addr, []))
  {
    forall i | 0 <= i < |body| && KindOf(body[i]) == Some(kind)
      ensures Targeted(kind, TargetOf(body[i]), Ctx(addr, []))
    {
      assert Good(body[i], nblk, nfn);
    }
  }

  /** As above, with the filled kind's targets coming from another context. */
  lemma {:induction false} SettledTargeted(asms: seq<Asm>, at: int, done: Kind, lc: Ctx, kind: Kind, ctx: Ctx)
    requires AllTargeted(asms, kind, ctx) && done != kind
    ensures AllTargeted(SettleAll(asms, at, done, lc), kind, ctx)
    decreases |asms|
  {
    if asms != [] {
      RestTargeted(asms, kind, ctx);
      SettledTargeted(asms[1..], at + Size(asms[0]), done, lc, kind, ctx);
      ConsTargeted(asms, at, done, lc, kind, ctx);
    }
  }

  method Link(fs: seq<Func>, ghost allocs: seq<Allocation>, code: Bytes, starts: seq<nat>, calls: seq<Fixup>,
    relocs: seq<Fixup>,
              base: int) returns (image: Bytes, addr: seq<Word>)
    requires Compilable(fs) && |allocs| == |fs| && Emitted(fs, allocs, code, starts, calls, relocs)
    requires 0 <= base && base + |code| < B64
    ensures |addr| == |fs| && forall k :: 0 <= k < |fs| ==> addr[k] == base + StartOf(fs, allocs, k)
    ensures image == Enc(Linked(fs, allocs, addr, |fs|))
  {
    hide Enc, SettleAll, Fixups, AllTargeted, Laid, Linked, Compact, WellFormed, AllocationOf, FnCode, LocalCtx, SizeAll,
         StartOf;
    ghost var asms := Laid(fs, allocs, |fs|);
    EncSize(asms);
    LaidSize(fs, allocs, |fs|);
    addr := [];
    var k := 0;
    while k < |fs|
      invariant 0 <= k <= |fs| && |addr| == k
      invariant forall j :: 0 <= j < k ==> addr[j] == base + StartOf(fs, allocs, j)
    {
      StartMonotone(fs, allocs, k, |fs|);
      addr := addr + [base + starts[k]];
      k := k + 1;
    }
    ghost var ctx := Ctx(addr, []);
    LaidTargeted(fs, allocs, addr, |fs|, Addrs);
    LaidTargeted(fs, allocs, addr, |fs|, Calls);
    image := FillFields(code, relocs, Addrs, base, Ctx(addr, []), asms);
    SettledTargeted(asms, base, Addrs, ctx, Calls, ctx);
    FixupsSettled(asms, base, 0, Addrs, ctx, Calls);
    image := FillFields(image, calls, Calls, base, Ctx(addr, []), SettleAll(asms, base, Addrs, ctx));
    LinkedIs(fs, allocs, addr, base, |fs|);
  }

  // ---------- the image as decoded code ----------

  /** The instructions a processor finds in the image, by address. */
  function DecodeMap(image: Bytes, base: int): Code {
    map at | base <= at < base + |image| && Fetched(image, base, at).Some? :: Fetched(image, base, at).value
  }

  function Fetched(image: Bytes, base: int, at: int): Option<Asm> {
    match Decode(image, at - base)
    case Some(d) => if d.len == Size(d.asm) then Some(d.asm) else None
    case None => None
  }

  predicate AllEncodable(asms: seq<Asm>) { forall i :: 0 <= i < |asms| ==> Encodable(asms[i]) }

  /** Resolved code found in the image is placed code. */
  lemma {:induction false} ImageCode(image: Bytes, base: int, at: int, asms: seq<Asm>, ctx: Ctx)
    requires HasBytes(image, at - base, Enc(ResolveAll(asms, at, ctx))) && AllEncodable(ResolveAll(asms, at, ctx))
    ensures CodeAt(DecodeMap(image, base), at, asms, ctx)
    decreases |asms|
  {
    hide HasBytes, Encode, Decode, Size, Resolve, Encodable;
    if asms != [] {
      var a, rest := Resolve(asms[0], at, ctx), ResolveAll(asms[1..], at + Size(asms[0]), ctx);
      var all := ResolveAll(asms, at, ctx);
      assert all[0] == a && all[1..] == rest;
      ResolveSizes(asms[0], at, ctx);
      EncodeSize(a);
      HasSplit(image, at - base, Encode(a), Enc(rest));
      DecodeEncode(image, at - base, a);
      InImage(image, at - base, a);
      RestEncodable(all);
      ImageCode(image, base, at + Size(asms[0]), asms[1..], ctx);
    }
  }

  lemma InImage(image: Bytes, i: int, a: Asm)
    requires HasBytes(image, i, Encode(a))
    ensures 0 <= i < |image|
  {
    EncodeSize(a);
  }

  lemma RestEncodable(asms: seq<Asm>)
    requires asms != [] && AllEncodable(asms)
    ensures AllEncodable(asms[1..])
  {
  }

  /** Each function's bytes are in the image. */
  lemma {:induction false} PieceBytes(image: Bytes, base: int, fs: seq<Func>, allocs: seq<Allocation>,
    addr: seq<Word>, n: nat, k: nat)
    requires k < n <= |allocs| <= |fs| && n <= |addr|
    requires forall j :: 0 <= j < n ==> addr[j] == base + StartOf(fs, allocs, j)
    requires HasBytes(image, 0, Enc(Linked(fs, allocs, addr, n)))
    ensures HasBytes(image, addr[k] - base, Enc(ResolveAll(FnCode(fs, allocs, k), addr[k], FnCtx(fs, allocs, addr, k))))
    decreases n
  {
    hide HasBytes, Enc, ResolveAll, FnCode, FnCtx, StartOf;
    var before, piece := Linked(fs, allocs, addr, n - 1), ResolveAll(FnCode(fs, allocs, n - 1), addr[n - 1],
        FnCtx(fs, allocs, addr, n - 1));
    EncAppend(before, piece);
    HasSplit(image, 0, Enc(before), Enc(piece));
    if k < n - 1 {
      PieceBytes(image, base, fs, allocs, addr, n - 1, k);
    } else {
      EncSize(before);
      LinkedSize(fs, allocs, addr, n - 1);
    }
  }

  lemma ResolveAllSize(asms: seq<Asm>, at: int, ctx: Ctx)
    ensures SizeAll(ResolveAll(asms, at, ctx)) == SizeAll(asms) && |ResolveAll(asms, at, ctx)| == |asms|
    decreases |asms|
  {
    if asms != [] { ResolveAllSize(asms[1..], at + Size(asms[0]), ctx); }
  }

  lemma {:induction false} LinkedSize(fs: seq<Func>, allocs: seq<Allocation>, addr: seq<Word>, n: nat)
    requires n <= |allocs| <= |fs| && n <= |addr|
    ensures SizeAll(Linked(fs, allocs, addr, n)) == StartOf(fs, allocs, n)
    decreases n
  {
    hide ResolveAll, FnCode, FnCtx;
    if n > 0 {
      LinkedSize(fs, allocs, addr, n - 1);
      ResolveAllSize(FnCode(fs, allocs, n - 1), addr[n - 1], FnCtx(fs, allocs, addr, n - 1));
      SizeAppend(Linked(fs, allocs, addr, n - 1), ResolveAll(FnCode(fs, allocs, n - 1), addr[n - 1], FnCtx(fs,
          allocs, addr, n - 1)));
    }
  }

  // ---------- distances fit ----------

  /** All addresses concerned lie in an image of less than 2^31 bytes. */
  ghost predicate Near(lo: int, hi: int, ctx: Ctx) {
    && hi - lo < 0x8000_0000
    && (forall k :: 0 <= k < |ctx.fn| ==> lo <= ctx.fn[k] <= hi) && (forall b :: 0 <= b < |ctx.blk| ==>
        lo <= ctx.blk[b] <= hi)
  }

  lemma ResolvedFits(a: Asm, at: int, ctx: Ctx, lo: int, hi: int)
    requires Good(a, |ctx.blk|, |ctx.fn|) && Near(lo, hi, ctx) && lo <= at && at + Size(a) <= hi
    ensures Encodable(Resolve(a, at, ctx))
  {
  }

  lemma {:induction false} ResolvedFit(asms: seq<Asm>, at: int, ctx: Ctx, lo: int, hi: int)
    requires AllGood(asms, |ctx.blk|, |ctx.fn|) && Near(lo, hi, ctx) && lo <= at && at + SizeAll(asms) <= hi
    ensures AllEncodable(ResolveAll(asms, at, ctx))
    decreases |asms|
  {
    hide Good, Near, Encodable, Resolve, Size;
    if asms != [] {
      assert Good(asms[0], |ctx.blk|, |ctx.fn|);
      ResolvedFits(asms[0], at, ctx, lo, hi);
      ResolvedFit(asms[1..], at + Size(asms[0]), ctx, lo, hi);
    }
  }
}
