/** Shared objects never relocate code: each absolute reference in it becomes a load
    from a slot of the global offset table, and the loader relocates the slots. */
module GotRewrite {
  import opened Ir
  import opened Words
  import opened Machine
  import opened Encoding
  import opened Decoder
  import opened RoundTrip
  import opened Patching
  import S = Serializer

  // ---------- windows as emitted ----------

  /** What emits an eight-byte address window: instructions, and runtime routines. */
  datatype Site =
    | WriteStr(off: nat) | LoadStrAddr(off: nat) | VTableAddr(off: nat) | LoadStaticAddr(idx: nat) | FnAddr(fidx: nat)
    | CallImport(imp: nat) | LoadImport(imp: nat) | ArgvSlot | AllocHeap | ReleaseHeap | ExcHelper(off: nat)

  /** The prefix and opcode byte in front of the window. */
  function OpBytes(w: Site): (nat, nat) {
    match w
    case WriteStr(_) => (0x48, 0xBE)
    case LoadStrAddr(_) => (0x48, 0xB9)
    case VTableAddr(_) => (0x48, 0xB9)
    case LoadStaticAddr(_) => (0x48, 0xB9)
    case FnAddr(_) => (0x48, 0xB9)
    case CallImport(_) => (0x48, 0xB8)
    case LoadImport(_) => (0x48, 0xB8)
    case ArgvSlot => (0x48, 0xB8)
    case AllocHeap => (0x49, 0xBA)
    case ReleaseHeap => (0x49, 0xBA)
    case ExcHelper(_) => (0x49, 0xB8)
  }

  /** The symbol of its relocation. */
  function SymOf(w: Site): S.Sym {
    match w
    case WriteStr(off) => S.Str(off)
    case LoadStrAddr(off) => S.Str(off)
    case VTableAddr(off) => S.VtableOff(off)
    case LoadStaticAddr(idx) => S.Static(idx)
    case FnAddr(fidx) => S.Fn(fidx)
    case CallImport(imp) => S.Import(imp)
    case LoadImport(imp) => S.Import(imp)
    case ArgvSlot => S.ArgvRsp
    case AllocHeap => S.HeapBase
    case ReleaseHeap => S.HeapBase
    case ExcHelper(off) => S.ExcState(off)
  }

  /** The window with its address filled in. */
  function Window(w: Site, imm: Word): (bs: Bytes)
    ensures |bs| == 10
  {
    [OpBytes(w).0, OpBytes(w).1] + LeBytes(imm, 8)
  }

  /** The register the opcode byte names. */
  function OpReg(w: Site): RegId { (OpBytes(w).0 % 2) * 8 + OpBytes(w).1 % 8 }

  lemma WindowIs(w: Site, imm: Word)
    ensures Window(w, imm) == Encode(MovAbs(OpReg(w), imm))
  {
    hide LeBytes;
  }

  /** What a processor makes of the filled window. */
  lemma WindowReads(w: Site, imm: Word, text: Bytes, at: int)
    requires HasBytes(text, at, Window(w, imm))
    ensures Decode(text, at) == Some(Decoded(MovAbs(OpReg(w), imm), 10))
  {
    hide Window, Encode, HasBytes, Decode;
    WindowIs(w, imm);
    DecodeEncode(text, at, MovAbs(OpReg(w), imm));
  }

  // ---------- what the writer knows ----------

  /** The object file's layout. */
  datatype Object = Object(codeBase: nat, codeLen: nat, dataAt: nat, dataLen: nat, heapVaddr: nat, gotStart: nat, size: nat)

  /** The base of an import that has not been linked. */
  const UNLINKED: nat := 0xFFFF_FFFF_FFFF_FFFF

  /** The object-relative address of a symbol referred to from code. */
  function FinalValue(o: Object, m: S.Body, s: S.Sym): Option<nat> {
    match s
    case Str(off) => Some(o.dataAt + off)
    case VtableOff(off) => Some(o.dataAt + off)
    case Static(i) => if i < |m.staticOffsets| then Some(o.dataAt + m.staticOffsets[i]) else None
    case HeapBase => Some(o.heapVaddr)
    case ExcState(off) => Some(o.dataAt + off)
    case Import(i) => if LinkedImport(m, i) then Some(o.codeBase + m.importBases[i]) else None
    case _ => None
  }

  /** ... and from data: functions and the heap. */
  function DataValue(o: Object, m: S.Body, s: S.Sym): Option<nat> {
    match s
    case HeapBase => Some(o.heapVaddr)
    case Fn(i) => if i < |m.fnBases| then Some(o.codeBase + m.fnBases[i]) else None
    case _ => None
  }

  predicate LinkedImport(m: S.Body, i: nat) { i < |m.importBases| && m.importBases[i] != UNLINKED }

  /** The name of a shared object: it ends in `.so`. */
  predicate SharedObject(hint: Bytes) { |hint| >= 3 && hint[|hint| - 3..] == [46, 115, 111] }

  /** The loader is left to find import `i`: a shared object is named for it, and
      it has not been linked. */
  predicate External(m: S.Body, i: nat) {
    i < |m.importNames| && SharedObject(m.importNames[i].0) && !LinkedImport(m, i)
  }

  /** The undefined symbols the first `n` imports need: each entry once. */
  function DepsOf(m: S.Body, n: nat): seq<Bytes>
    requires n <= |m.importNames|
  {
    if n == 0 then []
    else if External(m, n - 1) && m.importNames[n - 1].1 !in DepsOf(m, n - 1)
    then DepsOf(m, n - 1) + [m.importNames[n - 1].1]
    else DepsOf(m, n - 1)
  }

  function Deps(m: S.Body): seq<Bytes> { DepsOf(m, |m.importNames|) }

  method CollectDeps(m: S.Body) returns (deps: seq<Bytes>)
    ensures deps == Deps(m)
  {
    deps := [];
    var i := 0;
    while i < |m.importNames|
      invariant 0 <= i <= |m.importNames| && deps == DepsOf(m, i)
    {
      if External(m, i) && m.importNames[i].1 !in deps { deps := deps + [m.importNames[i].1]; }
      i := i + 1;
    }
  }

  /** They are the entries of the imports left to the loader, without repetition. */
  lemma {:induction false} DepsAre(m: S.Body, n: nat)
    requires n <= |m.importNames|
    ensures forall e :: e in DepsOf(m, n) <==> exists i: nat :: i < n && External(m, i) && m.importNames[i].1 == e
    ensures forall j, k :: 0 <= j < k < |DepsOf(m, n)| ==> DepsOf(m, n)[j] != DepsOf(m, n)[k]
  {
    hide SharedObject, LinkedImport;
    if n > 0 {
      DepsAre(m, n - 1);
      assert External(m, n - 1) ==> m.importNames[n - 1].1 in DepsOf(m, n);
    }
  }

  function Position(names: seq<Bytes>, name: Bytes): Option<nat> {
    if names == [] then None
    else if names[0] == name then Some(0)
    else match Position(names[1..], name) case Some(k) => Some(k + 1) case None => None
  }

  lemma PositionFinds(names: seq<Bytes>, name: Bytes)
    ensures Position(names, name).Some? <==> name in names
    ensures Position(names, name).Some? ==>
              Position(names, name).value < |names| && names[Position(names, name).value] == name
  {
    if names != [] && names[0] != name { PositionFinds(names[1..], name); }
  }

  /** The undefined symbol the loader resolves an import to, among `deps`. */
  function DepIndex(m: S.Body, deps: seq<Bytes>, i: nat): Option<nat> {
    if External(m, i) then Position(deps, m.importNames[i].1) else None
  }

  /** Exactly the imports left to the loader have one, and it bears their name. */
  lemma DepFound(m: S.Body, i: nat)
    ensures DepIndex(m, Deps(m), i).Some? <==> External(m, i)
    ensures DepIndex(m, Deps(m), i).Some? ==>
              var k := DepIndex(m, Deps(m), i).value; k < |Deps(m)| && Deps(m)[k] == m.importNames[i].1
  {
    hide SharedObject, LinkedImport, Position;
    DepsAre(m, |m.importNames|);
    if External(m, i) {
      assert m.importNames[i].1 in Deps(m);
      PositionFinds(Deps(m), m.importNames[i].1);
    }
  }

  /** A resolved reference is an offset in the object, or a symbol of a dependency. */
  datatype Target = Local(value: nat) | Dep(sym: nat)

  function TargetOf(o: Object, m: S.Body, deps: seq<Bytes>, s: S.Sym): Target {
    if s.Import? && DepIndex(m, deps, s.i).Some? then Dep(DepIndex(m, deps, s.i).value)
    else Local(match FinalValue(o, m, s) case Some(v) => v case None => 0)
  }

  function Resolved(o: Object, m: S.Body, s: S.Sym): Target { TargetOf(o, m, Deps(m), s) }

  /** References the writer cannot resolve: they get the slot value 0. */
  predicate Unresolved(o: Object, m: S.Body, s: S.Sym) {
    FinalValue(o, m, s) == None && !(s.Import? && DepIndex(m, Deps(m), s.i).Some?)
  }

  /** Which emitted windows those are: every function address and the argument
      slot, statics without an offset, and imports that are not linked and for which
      no shared object is named. */
  lemma UnresolvedExactly(o: Object, m: S.Body, w: Site)
    ensures Unresolved(o, m, SymOf(w)) <==>
              || w.FnAddr? || w.ArgvSlot?
              || (w.LoadStaticAddr? && w.idx >= |m.staticOffsets|)
              || ((w.CallImport? || w.LoadImport?) && !LinkedImport(m, w.imp)
                  && (w.imp >= |m.importNames| || !SharedObject(m.importNames[w.imp].0)))
  {
    hide SharedObject, LinkedImport, Deps;
    if w.CallImport? || w.LoadImport? { DepFound(m, w.imp); }
  }

  /** The register the writer assumes for a symbol's window. */
  function RegOf(s: S.Sym): RegId {
    match s
    case Str(_) => RSI
    case VtableOff(_) => RCX
    case Static(_) => RCX
    case HeapBase => RCX
    case ExcState(_) => R8
    case _ => RAX
  }

  /** The writer goes by the symbol, the window by its opcode: they agree except on
      string addresses loaded into rcx, function addresses, and the heap base. */
  lemma RegistersAgree(w: Site)
    ensures RegOf(SymOf(w)) == OpReg(w) <==> !w.LoadStrAddr? && !w.FnAddr? && !w.AllocHeap? && !w.ReleaseHeap?
  {
  }

  /** An 8-byte immediate at `site` in the code, rewritten to load `reg`. */
  datatype Ref = Ref(site: nat, reg: RegId, target: Target)

  function RefOf(o: Object, m: S.Body, deps: seq<Bytes>, r: S.Reloc): Ref {
    var t := TargetOf(o, m, deps, r.sym);
    Ref(r.site, if t.Dep? then RAX else RegOf(r.sym), t)
  }

  predicate InCode(r: S.Reloc) { r.kind.Abs64? && r.section.CodeSection? }
  predicate InData(r: S.Reloc) { r.kind.Abs64? && r.section.DataSection? }

  /** The references of code among the first `n` relocations. */
  function RefsOf(o: Object, m: S.Body, n: nat): seq<Ref>
    requires n <= |m.relocs|
  {
    if n == 0 then []
    else RefsOf(o, m, n - 1) + if InCode(m.relocs[n - 1]) then [RefOf(o, m, Deps(m), m.relocs[n - 1])] else []
  }

  function Refs(o: Object, m: S.Body): seq<Ref> { RefsOf(o, m, |m.relocs|) }

  lemma RefsGrow(o: Object, m: S.Body, n: nat, k: nat)
    requires n <= k <= |m.relocs|
    ensures RefsOf(o, m, n) <= RefsOf(o, m, k)
    decreases k - n
  {
    if n < k { RefsGrow(o, m, n + 1, k); }
  }

  datatype Rela = Relative(at: nat, addend: nat) | GlobDat(at: nat, sym: nat)

  /** The records for words of data among the first `n` relocations. */
  function DataRelas(o: Object, m: S.Body, n: nat): seq<Rela>
    requires n <= |m.relocs|
  {
    if n == 0 then []
    else
      var r := m.relocs[n - 1];
      DataRelas(o, m, n - 1) + match DataValue(o, m, r.sym)
        case Some(v) => if InData(r) then [Relative(o.dataAt + r.site, v)] else []
        case None => []
  }

  // ---------- the rewritten window ----------

  /** `mov reg, [rip + disp]` and three no-ops: ten bytes. */
  function GotLoad(reg: RegId, disp: int): (bs: Bytes)
    ensures |bs| == 10
  {
    [if reg >= 8 then 0x4C else 0x48, 0x8B, 0x05 + 8 * (reg % 8)] + LeBytes(disp, 4) + [0x90, 0x90, 0x90]
  }

  /** Reading a window as `mov reg, [rip + disp]`: the register, and the offset in
      the object of the word it loads. */
  function RipLoad(img: Bytes, at: int): Option<(RegId, int)> {
    if !Avail(img, at, 10) then None
    else if (img[at] != 0x48 && img[at] != 0x4C) || img[at + 1] != 0x8B then None
    else if Mode(img[at + 2]) != 0 || RmField(img[at + 2]) != 5 then None
    else if img[at + 7] != 0x90 || img[at + 8] != 0x90 || img[at + 9] != 0x90 then None
    else Some((Ext(img[at] == 0x4C, RegField(img[at + 2])), at + 7 + SField(img, at + 3, 4)))
  }

  lemma GotLoadReads(img: Bytes, at: int, reg: RegId, disp: int)
    requires HasBytes(img, at, GotLoad(reg, disp)) && Imm32(disp)
    ensures RipLoad(img, at) == Some((reg, at + 7 + disp))
  {
    hide LeBytes, SField;
    var head, tail := [if reg >= 8 then 0x4C else 0x48, 0x8B, 0x05 + 8 * (reg % 8)], [0x90, 0x90, 0x90];
    assert GotLoad(reg, disp) == head + (LeBytes(disp, 4) + tail);
    HasSplit(img, at, head, LeBytes(disp, 4) + tail);
    HasSplit(img, at + 3, LeBytes(disp, 4), tail);
    Only3(img, at, head[0], head[1], head[2]);
    Only3(img, at + 7, 0x90, 0x90, 0x90);
    SFieldOfLe(img, at + 3, disp, 4);
  }

  // ---------- the layout the rewrite needs ----------

  function SlotAt(o: Object, j: nat): nat { o.gotStart + 8 * j }

  function WindowAt(o: Object, r: Ref): int { o.codeBase + r.site - 2 }

  /** Windows lie in the code and do not overlap; data and slots lie behind the code. */
  ghost predicate Laid(o: Object, refs: seq<Ref>) {
    && o.codeBase + o.codeLen <= o.dataAt && o.dataAt + o.dataLen <= o.gotStart
    && o.gotStart + 8 * |refs| <= o.size < 0x8000_0000
    && (forall j :: 0 <= j < |refs| ==> 2 <= refs[j].site && refs[j].site + 8 <= o.codeLen)
    && (forall i, j :: 0 <= i < |refs| && 0 <= j < |refs| && i != j ==>
          refs[i].site + 10 <= refs[j].site || refs[j].site + 10 <= refs[i].site)
  }

  function DispOf(o: Object, r: Ref, j: nat): int { SlotAt(o, j) - (o.codeBase + r.site + 5) }

  function RelaOf(o: Object, r: Ref, j: nat): Rela {
    match r.target case Local(v) => Relative(SlotAt(o, j), v) case Dep(s) => GlobDat(SlotAt(o, j), s)
  }

  /** Reference `j` is rewritten: its window, its slot and its record. */
  ghost predicate Rewritten(o: Object, refs: seq<Ref>, img: Bytes, rela: seq<Rela>, j: nat)
    requires j < |refs|
  {
    && HasBytes(img, WindowAt(o, refs[j]), GotLoad(refs[j].reg, DispOf(o, refs[j], j)))
    && j < |rela| && rela[j] == RelaOf(o, refs[j], j)
    && (refs[j].target.Local? ==> HasBytes(img, SlotAt(o, j), LeBytes(refs[j].target.value, 8)))
  }

  predicate InWindow(o: Object, r: Ref, i: int) { WindowAt(o, r) <= i < WindowAt(o, r) + 10 }

  predicate Touched(o: Object, refs: seq<Ref>, n: nat, i: int)
    requires n <= |refs|
  {
    (o.gotStart <= i < o.gotStart + 8 * n) || exists j :: 0 <= j < n && InWindow(o, refs[j], i)
  }

  lemma StepKeeps(o: Object, refs: seq<Ref>, img: Bytes, rela: seq<Rela>, n: nat, j: nat, at: nat, bs: Bytes,
    more: seq<Rela>)
    requires Laid(o, refs) && j < n < |refs| && |rela| == n && |img| == o.size && Rewritten(o, refs, img, rela, j)
    requires (at == SlotAt(o, n) && |bs| == 8) || (at == WindowAt(o, refs[n]) && |bs| == 10)
    ensures at + |bs| <= |img| && Rewritten(o, refs, Overwrite(img, at, bs), rela + more, j)
  {
    hide GotLoad, HasBytes, Overwrite, LeBytes, RelaOf;
    OverwriteKeeps(img, at, bs, WindowAt(o, refs[j]), GotLoad(refs[j].reg, DispOf(o, refs[j], j)));
    if refs[j].target.Local? { OverwriteKeeps(img, at, bs, SlotAt(o, j), LeBytes(refs[j].target.value, 8)); }
  }

  /** Words of data that are relocated lie in the data and do not overlap. */
  ghost predicate DataLaid(o: Object, m: S.Body) {
    && (forall i :: 0 <= i < |m.relocs| && InData(m.relocs[i]) ==> m.relocs[i].site + 8 <= o.dataLen)
    && (forall i, j :: 0 <= i < j < |m.relocs| && InData(m.relocs[i]) && InData(m.relocs[j]) ==>
          m.relocs[i].site + 8 <= m.relocs[j].site || m.relocs[j].site + 8 <= m.relocs[i].site)
  }

  lemma RewrittenMore(o: Object, refs: seq<Ref>, img: Bytes, rela: seq<Rela>, more: seq<Rela>, j: nat)
    requires j < |refs| && Rewritten(o, refs, img, rela, j)
    ensures Rewritten(o, refs, img, rela + more, j)
  {
    hide HasBytes, GotLoad;
  }

  lemma NextRef(o: Object, m: S.Body, k: nat)
    requires k < |m.relocs| && InCode(m.relocs[k])
    ensures |RefsOf(o, m, k)| < |Refs(o, m)|
    ensures Refs(o, m)[|RefsOf(o, m, k)|] == RefOf(o, m, Deps(m), m.relocs[k])
  {
    hide RefOf;
    RefsGrow(o, m, k + 1, |m.relocs|);
    var r := RefsOf(o, m, k + 1);
    assert r[|RefsOf(o, m, k)|] == Refs(o, m)[|RefsOf(o, m, k)|];
  }

  /** What the writer leaves behind. */
  ghost predicate Wrote(o: Object, m: S.Body, img: Bytes, rela: seq<Rela>) {
    var refs := Refs(o, m);
    && |img| == o.size && |rela| == |refs| + |DataRelas(o, m, |m.relocs|)|
    && rela[|refs|..] == DataRelas(o, m, |m.relocs|)
    && (forall j :: 0 <= j < |refs| ==> Rewritten(o, refs, img, rela, j))
  }

  /** The writer's two passes over the relocations: code references, then data words. */
  method Rewrite(img0: Bytes, o: Object, m: S.Body) returns (img: Bytes, rela: seq<Rela>)
    requires Laid(o, Refs(o, m)) && |img0| == o.size
    ensures Wrote(o, m, img, rela)
    ensures forall i :: 0 <= i < |img| && !Touched(o, Refs(o, m), |Refs(o, m)|, i) ==> img[i] == img0[i]
  {
    hide Rewritten, Laid, RefOf, Resolved, DataValue, Touched, Deps;
    ghost var refs := Refs(o, m);
    var deps := CollectDeps(m);
    var got;
    img, got := RewriteCode(img0, o, m, deps);
    rela := got;
    var k := 0;
    while k < |m.relocs|
      invariant 0 <= k <= |m.relocs| && rela == got + DataRelas(o, m, k)
    {
      var r := m.relocs[k];
      if InData(r) && DataValue(o, m, r.sym).Some? {
        rela := rela + [Relative(o.dataAt + r.site, DataValue(o, m, r.sym).value)];
      }
      k := k + 1;
      assert rela == got + DataRelas(o, m, k);
    }
    forall j | 0 <= j < |refs|
      ensures Rewritten(o, refs, img, rela, j)
    {
      RewrittenMore(o, refs, img, got, DataRelas(o, m, |m.relocs|), j);
    }
  }

  method RewriteCode(img0: Bytes, o: Object, m: S.Body, deps: seq<Bytes>) returns (img: Bytes, rela: seq<Rela>)
    requires deps == Deps(m) && Laid(o, Refs(o, m)) && |img0| == o.size
    ensures var refs := Refs(o, m);
            && |img| == o.size && |rela| == |refs|
            && (forall j :: 0 <= j < |refs| ==> Rewritten(o, refs, img, rela, j))
            && (forall i :: 0 <= i < |img| && !Touched(o, refs, |refs|, i) ==> img[i] == img0[i])
  {
    hide Rewritten, Laid, RefOf, Resolved, Touched, Deps;
    ghost var refs := Refs(o, m);
    img, rela := img0, [];
    var k, n := 0, 0;
    while k < |m.relocs|
      invariant 0 <= k <= |m.relocs| && n == |RefsOf(o, m, k)| == |rela| && n <= |refs| && |img| == o.size
      invariant forall j :: 0 <= j < n ==> Rewritten(o, refs, img, rela, j)
      invariant forall i :: 0 <= i < |img| && !Touched(o, refs, n, i) ==> img[i] == img0[i]
    {
      if InCode(m.relocs[k]) {
        NextRef(o, m, k);
        img, rela := RewriteOne(img0, o, refs, n, RefOf(o, m, deps, m.relocs[k]), img, rela);
        n := n + 1;
      }
      k := k + 1;
    }
  }

  /** One reference: its slot, its record, its window. */
  method RewriteOne(ghost img0: Bytes, o: Object, ghost refs: seq<Ref>, n: nat, r: Ref, img: Bytes, rela: seq<Rela>)
    returns (img': Bytes, rela': seq<Rela>)
    requires Laid(o, refs) && |img0| == |img| == o.size && n < |refs| && |rela| == n && r == refs[n]
    requires forall j :: 0 <= j < n ==> Rewritten(o, refs, img, rela, j)
    requires forall i :: 0 <= i < |img| && !Touched(o, refs, n, i) ==> img[i] == img0[i]
    ensures |img'| == o.size && |rela'| == n + 1
    ensures forall j :: 0 <= j < n + 1 ==> Rewritten(o, refs, img', rela', j)
    ensures forall i :: 0 <= i < |img'| && !Touched(o, refs, n + 1, i) ==> img'[i] == img0[i]
  {
    hide HasBytes, GotLoad, Overwrite, LeBytes;
    var slot := SlotAt(o, n);
    img' := img;
    if r.target.Local? {
      forall j | 0 <= j < n
        ensures Rewritten(o, refs, Overwrite(img, slot, LeBytes(r.target.value, 8)), rela + [], j)
      {
        StepKeeps(o, refs, img, rela, n, j, slot, LeBytes(r.target.value, 8), []);
      }
      OverwriteHas(img', slot, LeBytes(r.target.value, 8));
      img' := Overwrite(img', slot, LeBytes(r.target.value, 8));
    }
    assert rela + [] == rela;
    rela' := rela + [RelaOf(o, r, n)];
    var load := GotLoad(r.reg, DispOf(o, r, n));
    forall j | 0 <= j < n
      ensures Rewritten(o, refs, Overwrite(img', WindowAt(o, r), load), rela', j)
    {
      StepKeeps(o, refs, img', rela, n, j, WindowAt(o, r), load, [RelaOf(o, r, n)]);
    }
    OverwriteHas(img', WindowAt(o, r), load);
    if r.target.Local? { OverwriteKeeps(img', WindowAt(o, r), load, slot, LeBytes(r.target.value, 8)); }
    ghost var before := img';
    img' := Overwrite(img', WindowAt(o, r), load);
    forall i | 0 <= i < |img'| && !Touched(o, refs, n + 1, i)
      ensures img'[i] == img0[i]
    {
      Untouched(o, refs, n, i);
    }
  }

  lemma Untouched(o: Object, refs: seq<Ref>, n: nat, i: int)
    requires n < |refs| && !Touched(o, refs, n + 1, i)
    ensures !Touched(o, refs, n, i) && !InWindow(o, refs[n], i) && !(SlotAt(o, n) <= i < SlotAt(o, n) + 8)
  {
  }

  // ---------- the loader ----------

  /** What a record stores when the object is loaded at `base`. */
  function Stored(r: Rela, base: nat, addrs: seq<Word>): Word {
    match r
    case Relative(_, v) => Wrap(base + v)
    case GlobDat(_, s) => if s < |addrs| then addrs[s] else 0
  }

  /** The record stores at byte `i`. */
  predicate Stores(r: Rela, i: int) { r.at <= i < r.at + 8 }

  predicate Disjoint(a: Rela, b: Rela) { a.at + 8 <= b.at || b.at + 8 <= a.at }

  /** What the loader makes of it: every record stored, everything else as written. */
  ghost predicate Loaded(img: Bytes, rela: seq<Rela>, base: nat, addrs: seq<Word>, mem: Bytes) {
    && |mem| == |img|
    && (forall j :: 0 <= j < |rela| ==> HasBytes(mem, rela[j].at, LeBytes(Stored(rela[j], base, addrs), 8)))
    && (forall i :: 0 <= i < |img| && (forall j :: 0 <= j < |rela| ==> !Stores(rela[j], i)) ==>
          mem[i] == img[i])
  }

  method Load(img: Bytes, rela: seq<Rela>, base: nat, addrs: seq<Word>) returns (mem: Bytes)
    requires forall j :: 0 <= j < |rela| ==> rela[j].at + 8 <= |img|
    requires forall i, j :: 0 <= i < j < |rela| ==> Disjoint(rela[i], rela[j])
    ensures Loaded(img, rela, base, addrs, mem)
  {
    hide HasBytes, Overwrite, LeBytes;
    mem := img;
    var n := 0;
    while n < |rela|
      invariant 0 <= n <= |rela| && |mem| == |img|
      invariant forall j :: 0 <= j < n ==> HasBytes(mem, rela[j].at, LeBytes(Stored(rela[j], base, addrs), 8))
      invariant forall i :: 0 <= i < |img| && (forall j :: 0 <= j < n ==> !Stores(rela[j], i)) ==>
          mem[i] == img[i]
    {
      var word := LeBytes(Stored(rela[n], base, addrs), 8);
      forall j | 0 <= j < n
        ensures HasBytes(Overwrite(mem, rela[n].at, word), rela[j].at, LeBytes(Stored(rela[j], base, addrs), 8))
      {
        OverwriteKeeps(mem, rela[n].at, word, rela[j].at, LeBytes(Stored(rela[j], base, addrs), 8));
      }
      OverwriteHas(mem, rela[n].at, word);
      mem := Overwrite(mem, rela[n].at, word);
      n := n + 1;
    }
  }

  /** Records of data words come from relocations of data. */
  lemma DataRelaFrom(o: Object, m: S.Body, n: nat, j: nat) returns (k: nat)
    requires n <= |m.relocs| && j < |DataRelas(o, m, n)|
    ensures k < n && InData(m.relocs[k]) && DataValue(o, m, m.relocs[k].sym).Some?
    ensures DataRelas(o, m, n)[j] == Relative(o.dataAt + m.relocs[k].site, DataValue(o, m, m.relocs[k].sym).value)
  {
    hide DataValue;
    if j < |DataRelas(o, m, n - 1)| { k := DataRelaFrom(o, m, n - 1, j); } else { k := n - 1; }
  }

  lemma {:induction false} DataRelasApart(o: Object, m: S.Body, n: nat)
    requires DataLaid(o, m) && n <= |m.relocs|
    ensures forall i, j :: 0 <= i < j < |DataRelas(o, m, n)| ==> Disjoint(DataRelas(o, m, n)[i], DataRelas(o, m, n)[j])
  {
    hide DataValue;
    if n > 0 {
      DataRelasApart(o, m, n - 1);
      var before := DataRelas(o, m, n - 1);
      forall i | 0 <= i < |before| && InData(m.relocs[n - 1])
        ensures before[i].at + 8 <= o.dataAt + m.relocs[n - 1].site || o.dataAt + m.relocs[n - 1].site + 8 <= before[i].at
      {
        var k := DataRelaFrom(o, m, n - 1, i);
      }
    }
  }

  /** No two records touch the same bytes, and all lie in the object. */
  lemma RelasApart(o: Object, m: S.Body, img: Bytes, rela: seq<Rela>)
    requires Laid(o, Refs(o, m)) && DataLaid(o, m) && Wrote(o, m, img, rela)
    ensures forall j :: 0 <= j < |rela| ==> rela[j].at + 8 <= o.size
    ensures forall i, j :: 0 <= i < j < |rela| ==> Disjoint(rela[i], rela[j])
  {
    hide HasBytes, GotLoad, Refs, DataValue;
    var refs, data := Refs(o, m), DataRelas(o, m, |m.relocs|);
    DataRelasApart(o, m, |m.relocs|);
    forall j | 0 <= j < |rela|
      ensures j < |refs| ==> rela[j].at == SlotAt(o, j)
      ensures j >= |refs| ==> rela[j] == data[j - |refs|] && o.dataAt <= rela[j].at && rela[j].at + 8 <= o.gotStart
    {
      if j < |refs| {
        assert Rewritten(o, refs, img, rela, j);
      } else {
        assert rela[j] == rela[|refs|..][j - |refs|];
        var k := DataRelaFrom(o, m, |m.relocs|, j - |refs|);
      }
    }
  }

  // ---------- meaning ----------

  /** The value a target stands for when the object is loaded at `base`. */
  function Meant(t: Target, base: nat, addrs: seq<Word>): Word {
    match t case Local(v) => Wrap(base + v) case Dep(s) => if s < |addrs| then addrs[s] else 0
  }

  /** The loader leaves windows as written. */
  lemma WindowKept(o: Object, m: S.Body, img: Bytes, rela: seq<Rela>, base: nat, addrs: seq<Word>,
                   mem: Bytes, j: nat)
    requires Laid(o, Refs(o, m)) && DataLaid(o, m) && Wrote(o, m, img, rela) && j < |Refs(o, m)|
    requires Loaded(img, rela, base, addrs, mem)
    ensures HasBytes(mem, WindowAt(o, Refs(o, m)[j]),
                     GotLoad(Refs(o, m)[j].reg, DispOf(o, Refs(o, m)[j], j)))
  {
    hide GotLoad, Refs, DataValue, LeBytes, DispOf, Stored;
    var refs, w := Refs(o, m), WindowAt(o, Refs(o, m)[j]);
    assert Rewritten(o, refs, img, rela, j);
    forall h | 0 <= h < |rela|
      ensures rela[h].at >= o.dataAt
    {
      if h < |refs| {
        assert Rewritten(o, refs, img, rela, h);
      } else {
        assert rela[h] == rela[|refs|..][h - |refs|];
        var k := DataRelaFrom(o, m, |m.relocs|, h - |refs|);
      }
    }
    assert forall i :: w <= i < w + 10 ==> mem[i] == img[i];
    assert mem[w..w + 10] == img[w..w + 10];
  }

  /** Whatever the load base, the rewritten window of relocation `k` loads, into the
      register the writer chose, the value its symbol stands for: for one the writer
      cannot resolve that is the load base itself. */
  lemma WindowMeans(o: Object, m: S.Body, img: Bytes, rela: seq<Rela>, base: nat, addrs: seq<Word>,
                    mem: Bytes, k: nat)
    requires Laid(o, Refs(o, m)) && DataLaid(o, m) && Wrote(o, m, img, rela)
    requires Loaded(img, rela, base, addrs, mem) && k < |m.relocs| && InCode(m.relocs[k])
    ensures var at, slot := o.codeBase + m.relocs[k].site - 2, SlotAt(o, |RefsOf(o, m, k)|);
            && RipLoad(mem, at) == Some((RegOf(m.relocs[k].sym), slot)) && slot + 8 <= |mem|
            && Field(mem, slot, 8) == Meant(Resolved(o, m, m.relocs[k].sym), base, addrs)
    ensures Unresolved(o, m, m.relocs[k].sym) ==>
              Meant(Resolved(o, m, m.relocs[k].sym), base, addrs) == Wrap(base)
  {
    hide LeBytes, GotLoad, Field, Pow256, Refs, DataRelas, HasBytes, RipLoad;
    var refs, j := Refs(o, m), |RefsOf(o, m, k)|;
    NextRef(o, m, k);
    WindowKept(o, m, img, rela, base, addrs, mem, j);
    assert Rewritten(o, refs, img, rela, j);
    GotLoadReads(mem, WindowAt(o, refs[j]), refs[j].reg, DispOf(o, refs[j], j));
    PowValues();
    FieldOfLe(mem, SlotAt(o, j), Stored(rela[j], base, addrs), 8);
  }

  /** An import left to the loader: its window delivers the address found for the
      undefined symbol that bears its name. */
  lemma ImportMeans(o: Object, m: S.Body, img: Bytes, rela: seq<Rela>, base: nat, addrs: seq<Word>, mem: Bytes,
                    k: nat, i: nat) returns (s: nat)
    requires Laid(o, Refs(o, m)) && DataLaid(o, m) && Wrote(o, m, img, rela)
    requires Loaded(img, rela, base, addrs, mem) && k < |m.relocs| && InCode(m.relocs[k])
    requires m.relocs[k].sym == S.Import(i) && External(m, i) && |addrs| == |Deps(m)|
    ensures var slot := SlotAt(o, |RefsOf(o, m, k)|);
            && RipLoad(mem, o.codeBase + m.relocs[k].site - 2) == Some((RAX, slot)) && slot + 8 <= |mem|
            && s < |addrs| && Deps(m)[s] == m.importNames[i].1 && Field(mem, slot, 8) == addrs[s]
  {
    hide Laid, DataLaid, Wrote, Loaded, RipLoad, Refs, RefsOf, Field, External, Deps;
    WindowMeans(o, m, img, rela, base, addrs, mem, k);
    DepFound(m, i);
    s := DepIndex(m, Deps(m), i).value;
  }

  /** A relocated word of data holds its function's or the heap's address. */
  lemma DataMeans(o: Object, m: S.Body, img: Bytes, rela: seq<Rela>, base: nat, addrs: seq<Word>,
                  mem: Bytes, k: nat)
    requires Wrote(o, m, img, rela) && Loaded(img, rela, base, addrs, mem)
    requires k < |m.relocs| && InData(m.relocs[k]) && DataValue(o, m, m.relocs[k].sym).Some?
    ensures var at := o.dataAt + m.relocs[k].site;
            at + 8 <= |mem| && Field(mem, at, 8) == Wrap(base + DataValue(o, m, m.relocs[k].sym).value)
  {
    hide LeBytes, Field, Pow256, Refs, HasBytes, DataValue, Rewritten;
    var data := DataRelas(o, m, |m.relocs|);
    var j := DataRelaOf(o, m, |m.relocs|, k);
    assert rela[|Refs(o, m)| + j] == data[j];
    PowValues();
    FieldOfLe(mem, o.dataAt + m.relocs[k].site, Stored(data[j], base, addrs), 8);
  }

  lemma DataRelaOf(o: Object, m: S.Body, n: nat, k: nat) returns (j: nat)
    requires k < n <= |m.relocs| && InData(m.relocs[k]) && DataValue(o, m, m.relocs[k].sym).Some?
    ensures j < |DataRelas(o, m, n)|
    ensures DataRelas(o, m, n)[j] == Relative(o.dataAt + m.relocs[k].site, DataValue(o, m, m.relocs[k].sym).value)
  {
    hide DataValue;
    if k == n - 1 { j := |DataRelas(o, m, n - 1)|; } else { j := DataRelaOf(o, m, n - 1, k); }
  }

  /** A register file with `v` loaded. */
  function Put(regs: Regs, r: RegId, v: Word): Regs { regs[r := v] }

  /** Loading `v` into `reg` and into `reg0` have the same effect on every register
      file exactly when they are the same register. */
  lemma SameLoad(reg0: RegId, reg: RegId, v: Word)
    ensures (forall regs: Regs :: Put(regs, reg0, v) == Put(regs, reg, v)) <==> reg0 == reg
  {
    if reg0 != reg {
      var other: Word := if v == 0 then 1 else 0;
      var regs: Regs := seq(16, _ => other);
      assert Put(regs, reg0, v)[reg0] != Put(regs, reg, v)[reg0];
    }
  }

  /** The rewritten window of site `w` does what the original window, relocated, did
      exactly when the opcode's register is the one the symbol table picks: always,
      but for string addresses loaded into rcx, function addresses and the heap base. */
  lemma SameEffect(o: Object, m: S.Body, img: Bytes, rela: seq<Rela>, base: nat, addrs: seq<Word>,
                   mem: Bytes, k: nat, w: Site, text: Bytes)
    requires Laid(o, Refs(o, m)) && DataLaid(o, m) && Wrote(o, m, img, rela)
    requires Loaded(img, rela, base, addrs, mem) && k < |m.relocs| && InCode(m.relocs[k]) && m.relocs[k].sym == SymOf(w)
    requires var v := Meant(Resolved(o, m, SymOf(w)), base, addrs);
             HasBytes(text, o.codeBase + m.relocs[k].site - 2, Window(w, v))
    ensures var at, v := o.codeBase + m.relocs[k].site - 2, Meant(Resolved(o, m, SymOf(w)), base, addrs);
            && Decode(text, at) == Some(Decoded(MovAbs(OpReg(w), v), 10))
            && RipLoad(mem, at).Some? && RipLoad(mem, at).value.0 == RegOf(SymOf(w))
            && ((forall regs: Regs :: Put(regs, OpReg(w), v) == Put(regs, RegOf(SymOf(w)), v)) <==>
                  !w.LoadStrAddr? && !w.FnAddr? && !w.AllocHeap? && !w.ReleaseHeap?)
  {
    hide Laid, DataLaid, Wrote, Loaded, HasBytes, Window, Decode, RipLoad, Refs, RefsOf, OpReg, RegOf, Meant;
    var v := Meant(Resolved(o, m, SymOf(w)), base, addrs);
    WindowMeans(o, m, img, rela, base, addrs, mem, k);
    WindowReads(w, v, text, o.codeBase + m.relocs[k].site - 2);
    SameLoad(OpReg(w), RegOf(SymOf(w)), v);
    RegistersAgree(w);
  }

  /** The window of `LoadStrAddr`: the address it should put in rcx goes to rsi, and
      what is stored afterwards is whatever rcx held. */
  lemma StringAddressLost(o: Object, m: S.Body, img: Bytes, rela: seq<Rela>, base: nat,
                          addrs: seq<Word>, mem: Bytes, k: nat, off: nat, regs: Regs)
    requires Laid(o, Refs(o, m)) && DataLaid(o, m) && Wrote(o, m, img, rela)
    requires Loaded(img, rela, base, addrs, mem) && k < |m.relocs| && InCode(m.relocs[k]) && m.relocs[k].sym == S.Str(off)
    ensures OpReg(LoadStrAddr(off)) == RCX
    ensures var at, slot := o.codeBase + m.relocs[k].site - 2, SlotAt(o, |RefsOf(o, m, k)|);
            && RipLoad(mem, at) == Some((RSI, slot)) && slot + 8 <= |mem|
            && Field(mem, slot, 8) == Wrap(base + o.dataAt + off)
            && Put(regs, RSI, Wrap(base + o.dataAt + off))[RCX] == regs[RCX]
  {
    hide Laid, DataLaid, Wrote, Loaded, RipLoad, Refs, RefsOf, Field;
    WindowMeans(o, m, img, rela, base, addrs, mem, k);
  }
}
