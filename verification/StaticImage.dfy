/** The static executable: three segments, and relocations resolved while writing. */
module StaticImage {
  import opened Ir
  import opened Words
  import opened Encoding
  import opened Decoder
  import opened RoundTrip
  import opened Patching
  import S = Serializer

  const BASE_VADDR := 0x40_0000
  const PAGE := 0x1000
  const CODE_OFF := 64 + 3 * 56

  function AlignUp(v: nat, a: nat): nat
    requires a > 0
  {
    (v + a - 1) / a * a
  }

  lemma Aligned(v: nat)
    ensures AlignUp(v, PAGE) % PAGE == 0 && v <= AlignUp(v, PAGE) < v + PAGE
    ensures AlignUp(BASE_VADDR + v, PAGE) == BASE_VADDR + AlignUp(v, PAGE)
  {
  }

  // ---------- layout ----------

  /** Sizes of the preamble, the code and the data. */
  datatype Sizes = Sizes(pre: nat, code: nat, data: nat)

  function RxLen(z: Sizes): nat { z.pre + z.code }
  function CodeVaddr(z: Sizes): nat { BASE_VADDR + CODE_OFF + z.pre }
  function CodeStart(z: Sizes): nat { CODE_OFF + z.pre }
  function DataVaddr(z: Sizes): nat { AlignUp(BASE_VADDR + CODE_OFF + RxLen(z), PAGE) }
  function DataStart(z: Sizes): nat { AlignUp(CODE_OFF + RxLen(z), PAGE) }
  function HeapVaddr(z: Sizes): nat { AlignUp(DataVaddr(z) + z.data, PAGE) }

  datatype Segment = Segment(off: nat, vaddr: nat, filesz: nat, memsz: nat)

  function Segments(z: Sizes, heap: nat): seq<Segment> {
    [Segment(0, BASE_VADDR, CODE_OFF + RxLen(z), CODE_OFF + RxLen(z)), Segment(DataStart(z), DataVaddr(z), z.data, z.data),
     Segment(DataStart(z), HeapVaddr(z), 0, AlignUp(heap, PAGE))]
  }

  /** Segments do not overlap in memory or in the file, no two share a page, and
      each lies at its file offset modulo the page size. */
  lemma SegmentsApart(z: Sizes, heap: nat)
    ensures var ss := Segments(z, heap);
            && (forall i :: 0 <= i < 3 ==> ss[i].vaddr % PAGE == ss[i].off % PAGE)
            && ss[0].vaddr + ss[0].memsz <= ss[1].vaddr && ss[1].vaddr % PAGE == 0
            && ss[1].vaddr + ss[1].memsz <= ss[2].vaddr && ss[2].vaddr % PAGE == 0
            && ss[0].off + ss[0].filesz <= ss[1].off
            && DataVaddr(z) - BASE_VADDR == DataStart(z)
  {
    Aligned(CODE_OFF + RxLen(z));
    Aligned(DataVaddr(z) + z.data);
    Aligned(BASE_VADDR + CODE_OFF + RxLen(z));
  }

  /** File offset of the byte mapped at `v` by the first two segments. */
  function FileOff(z: Sizes, v: int): Option<nat> {
    if BASE_VADDR <= v < BASE_VADDR + CODE_OFF + RxLen(z) then Some(v - BASE_VADDR)
    else if DataVaddr(z) <= v < DataVaddr(z) + z.data then Some(DataStart(z) + (v - DataVaddr(z)))
    else None
  }

  // ---------- symbols ----------

  /** A recorded helper offset, 0 when there is none. */
  function Helper(offsets: seq<Option<nat>>, k: nat): nat {
    if k < |offsets| && offsets[k].Some? then offsets[k].value else 0
  }

  /** Functions and imports must be there; everything else has a default. */
  predicate Known(m: S.Body, s: S.Sym) {
    match s
    case Fn(i) => i < |m.fnBases|
    case Import(i) => i < |m.importBases|
    case _ => true
  }

  /** The blob a symbol lies in and its offset there, `None` for the heap and for
      unresolved names. */
  function SymbolAt(m: S.Body, s: S.Sym): Option<(S.Place, nat)>
    requires Known(m, s)
  {
    match s
    case Fn(i) => Some((S.CodeSection, m.fnBases[i]))
    case Import(i) => Some((S.CodeSection, m.importBases[i]))
    case Str(off) => Some((S.DataSection, off))
    case VtableOff(off) => Some((S.DataSection, off))
    case ExcState(off) => Some((S.DataSection, off))
    case Static(i) => Some((S.DataSection, if i < |m.staticOffsets| then m.staticOffsets[i] else 0))
    case ArgvRsp => Some((S.DataSection, Helper(m.excHelpers, 7)))
    case HelperItoa => Some((S.CodeSection, Helper(m.helpers, 0)))
    case HelperItoaErr => Some((S.CodeSection, Helper(m.helpers, 1)))
    case HelperScanInt => Some((S.CodeSection, Helper(m.helpers, 2)))
    case HelperRetain => Some((S.CodeSection, Helper(m.helpers, 3)))
    case HelperRelease => Some((S.CodeSection, Helper(m.helpers, 4)))
    case HelperAlloc => Some((S.CodeSection, Helper(m.helpers, 5)))
    case ExcEnter => Some((S.CodeSection, Helper(m.excHelpers, 0)))
    case ExcPop => Some((S.CodeSection, Helper(m.excHelpers, 1)))
    case ExcThrow => Some((S.CodeSection, Helper(m.excHelpers, 2)))
    case ExcRethrow => Some((S.CodeSection, Helper(m.excHelpers, 3)))
    case ExcLoad => Some((S.CodeSection, Helper(m.excHelpers, 4)))
    case ExcClear => Some((S.CodeSection, Helper(m.excHelpers, 5)))
    case HeapBase => None
    case Name(_) => None
  }

  function BlobVaddr(z: Sizes, place: S.Place): nat { if place.CodeSection? then CodeVaddr(z) else DataVaddr(z) }
  function BlobStart(z: Sizes, place: S.Place): nat { if place.CodeSection? then CodeStart(z) else DataStart(z) }
  function BlobSize(z: Sizes, place: S.Place): nat { if place.CodeSection? then z.code else z.data }

  /** The address relocations against a symbol use. */
  function SymbolAddr(z: Sizes, m: S.Body, s: S.Sym): Word
    requires Known(m, s)
  {
    match SymbolAt(m, s)
    case Some((place, off)) => Wrap(BlobVaddr(z, place) + off)
    case None => if s.HeapBase? then Wrap(HeapVaddr(z)) else 0
  }

  /** A symbol inside its blob is mapped, at its own byte of the file; the heap base is
      mapped to no byte of the file. */
  lemma SymbolMapped(z: Sizes, m: S.Body, s: S.Sym)
    requires Known(m, s) && HeapVaddr(z) < B64
    ensures match SymbolAt(m, s)
            case Some((place, off)) => off < BlobSize(z, place) ==>
              FileOff(z, SymbolAddr(z, m, s)) == Some(BlobStart(z, place) + off)
            case None => s.HeapBase? ==> FileOff(z, SymbolAddr(z, m, s)) == None
  {
    hide SymbolAt, FileOff, BlobStart, BlobSize, HeapVaddr, BlobVaddr, Wrap;
    match SymbolAt(m, s) {
      case Some((place, off)) => if off < BlobSize(z, place) { BlobMapped(z, place, off); }
      case None => HeapUnmapped(z);
    }
  }

  lemma BlobMapped(z: Sizes, place: S.Place, off: nat)
    requires off < BlobSize(z, place) && HeapVaddr(z) < B64
    ensures FileOff(z, Wrap(BlobVaddr(z, place) + off)) == Some(BlobStart(z, place) + off)
  {
    hide AlignUp;
    Ascending(z);
  }

  lemma HeapUnmapped(z: Sizes)
    requires HeapVaddr(z) < B64
    ensures FileOff(z, Wrap(HeapVaddr(z))) == None
  {
    hide AlignUp;
    Ascending(z);
  }

  lemma Ascending(z: Sizes)
    ensures BASE_VADDR + CODE_OFF + RxLen(z) <= DataVaddr(z) && DataVaddr(z) + z.data <= HeapVaddr(z)
  {
    hide AlignUp;
    Aligned(CODE_OFF + RxLen(z));
    Aligned(DataVaddr(z) + z.data);
    Aligned(BASE_VADDR + CODE_OFF + RxLen(z));
  }

  // ---------- relocation ----------

  /** A relocation with its symbol's address. */
  datatype Fix = Fix(kind: S.RelocKind, place: S.Place, site: nat, target: Word)

  /** The relocations of an object, resolved. */
  function Fixes(z: Sizes, m: S.Body): (r: seq<Fix>)
    requires forall i :: 0 <= i < |m.relocs| ==> Known(m, m.relocs[i].sym)
    ensures |r| == |m.relocs|
  {
    seq(|m.relocs|, i requires 0 <= i < |m.relocs| =>
      Fix(m.relocs[i].kind, m.relocs[i].section, m.relocs[i].site, SymbolAddr(z, m, m.relocs[i].sym)))
  }

  function FixWidth(f: Fix): nat { if f.kind.Abs64? then 8 else 4 }

  function FixBytes(f: Fix, blobVaddr: nat): Bytes {
    if f.kind.Abs64? then LeBytes(f.target, 8) else LeBytes(f.target - (blobVaddr + f.site + 4), 4)
  }

  /** Call relocations only apply to code. */
  predicate Applies(f: Fix, place: S.Place) { f.place == place && (f.kind.Abs64? || place.CodeSection?) }

  /** Sites are in range, and those of one blob do not overlap. */
  ghost predicate SitesOk(fixes: seq<Fix>, place: S.Place, size: nat) {
    && (forall i :: 0 <= i < |fixes| && Applies(fixes[i], place) ==> fixes[i].site + FixWidth(fixes[i]) <= size)
    && (forall i, j :: 0 <= i < j < |fixes| && Applies(fixes[i], place) && Applies(fixes[j], place) ==>
          fixes[i].site + FixWidth(fixes[i]) <= fixes[j].site || fixes[j].site + FixWidth(fixes[j]) <= fixes[i].site)
  }

  predicate InSite(f: Fix, i: int) { f.site <= i < f.site + FixWidth(f) }

  /** The first `n` relocations of a blob are in place, all other bytes as given. */
  ghost predicate Patched(blob0: Bytes, blob: Bytes, fixes: seq<Fix>, place: S.Place, vaddr: nat, n: nat)
    requires n <= |fixes|
  {
    && |blob| == |blob0|
    && (forall j :: 0 <= j < n && Applies(fixes[j], place) ==> HasBytes(blob, fixes[j].site, FixBytes(fixes[j], vaddr)))
    && (forall i :: 0 <= i < |blob| && (forall j :: 0 <= j < n && Applies(fixes[j], place) ==> !InSite(fixes[j], i)) ==>
          blob[i] == blob0[i])
  }

  lemma PatchedNext(blob0: Bytes, blob: Bytes, fixes: seq<Fix>, place: S.Place, vaddr: nat, n: nat)
    requires n < |fixes| && SitesOk(fixes, place, |blob0|) && Patched(blob0, blob, fixes, place, vaddr, n)
    requires Applies(fixes[n], place)
    ensures fixes[n].site + |FixBytes(fixes[n], vaddr)| <= |blob|
    ensures Patched(blob0, Overwrite(blob, fixes[n].site, FixBytes(fixes[n], vaddr)), fixes, place, vaddr, n + 1)
  {
    hide HasBytes, LeBytes, Overwrite;
    var f, bs := fixes[n], FixBytes(fixes[n], vaddr);
    OverwriteHas(blob, f.site, bs);
    forall j | 0 <= j < n && Applies(fixes[j], place)
      ensures HasBytes(Overwrite(blob, f.site, bs), fixes[j].site, FixBytes(fixes[j], vaddr))
    {
      OverwriteKeeps(blob, f.site, bs, fixes[j].site, FixBytes(fixes[j], vaddr));
    }
  }

  lemma PatchedSkip(blob0: Bytes, blob: Bytes, fixes: seq<Fix>, place: S.Place, vaddr: nat, n: nat)
    requires n < |fixes| && Patched(blob0, blob, fixes, place, vaddr, n) && !Applies(fixes[n], place)
    ensures Patched(blob0, blob, fixes, place, vaddr, n + 1)
  {
  }

  method Relocate(code0: Bytes, data0: Bytes, fixes: seq<Fix>, codeVaddr: nat, dataVaddr: nat)
    returns (code: Bytes, data: Bytes)
    requires SitesOk(fixes, S.CodeSection, |code0|) && SitesOk(fixes, S.DataSection, |data0|)
    ensures Patched(code0, code, fixes, S.CodeSection, codeVaddr, |fixes|)
    ensures Patched(data0, data, fixes, S.DataSection, dataVaddr, |fixes|)
  {
    hide HasBytes, FixBytes, Overwrite, SitesOk, Patched;
    code, data := code0, data0;
    NonePatched(code0, fixes, S.CodeSection, codeVaddr);
    NonePatched(data0, fixes, S.DataSection, dataVaddr);
    var n := 0;
    while n < |fixes|
      invariant 0 <= n <= |fixes|
      invariant Patched(code0, code, fixes, S.CodeSection, codeVaddr, n)
      invariant Patched(data0, data, fixes, S.DataSection, dataVaddr, n)
    {
      var f := fixes[n];
      if Applies(f, S.CodeSection) {
        PatchedNext(code0, code, fixes, S.CodeSection, codeVaddr, n);
        code := Overwrite(code, f.site, FixBytes(f, codeVaddr));
      } else {
        PatchedSkip(code0, code, fixes, S.CodeSection, codeVaddr, n);
      }
      if Applies(f, S.DataSection) {
        PatchedNext(data0, data, fixes, S.DataSection, dataVaddr, n);
        data := Overwrite(data, f.site, FixBytes(f, dataVaddr));
      } else {
        PatchedSkip(data0, data, fixes, S.DataSection, dataVaddr, n);
      }
      n := n + 1;
    }
  }

  lemma NonePatched(blob: Bytes, fixes: seq<Fix>, place: S.Place, vaddr: nat)
    ensures Patched(blob, blob, fixes, place, vaddr, 0)
  {
  }

  // ---------- the image ----------

  /** What surrounds code and data: the ELF and program headers, symbol and string
      tables (empty in a stripped image), section names and section headers. */
  datatype Tables = Tables(headers: Bytes, symtab: Bytes, strtab: Bytes, names: Bytes, sections: Bytes)

  function SymtabOff(z: Sizes): nat { AlignUp(DataStart(z) + z.data, 8) }
  function StrtabOff(z: Sizes, t: Tables): nat { AlignUp(SymtabOff(z) + |t.symtab|, 8) }
  function NamesOff(z: Sizes, t: Tables): nat { AlignUp(StrtabOff(z, t) + |t.strtab|, 8) }
  function SectionsOff(z: Sizes, t: Tables): nat { AlignUp(NamesOff(z, t) + |t.names|, 8) }
  function TotalSize(z: Sizes, t: Tables): nat { SectionsOff(z, t) + |t.sections| }

  datatype Piece = Piece(off: nat, bytes: Bytes)

  function End(p: Piece): nat { p.off + |p.bytes| }

  function Pieces(pre: Bytes, code: Bytes, data: Bytes, t: Tables): seq<Piece> {
    var z := Sizes(|pre|, |code|, |data|);
    [Piece(0, t.headers), Piece(CODE_OFF, pre), Piece(CodeStart(z), code), Piece(DataStart(z), data),
     Piece(SymtabOff(z), t.symtab), Piece(StrtabOff(z, t), t.strtab), Piece(NamesOff(z, t), t.names),
     Piece(SectionsOff(z, t), t.sections)]
  }

  /** The pieces are in bounds and none reaches the next. */
  ghost predicate Separate(ps: seq<Piece>, total: nat) {
    && (forall i :: 0 <= i < |ps| ==> End(ps[i]) <= total)
    && (forall i, j :: 0 <= i < j < |ps| ==> End(ps[i]) <= ps[j].off)
  }

  lemma RoundsUp(v: nat)
    ensures v <= AlignUp(v, 8)
  {
  }

  lemma RegionsAscend(z: Sizes, t: Tables)
    ensures CODE_OFF + RxLen(z) <= DataStart(z) && DataStart(z) + z.data <= SymtabOff(z)
    ensures SymtabOff(z) + |t.symtab| <= StrtabOff(z, t) && StrtabOff(z, t) + |t.strtab| <= NamesOff(z, t)
    ensures NamesOff(z, t) + |t.names| <= SectionsOff(z, t)
  {
    hide AlignUp;
    Aligned(CODE_OFF + RxLen(z));
    RoundsUp(DataStart(z) + z.data);
    RoundsUp(SymtabOff(z) + |t.symtab|);
    RoundsUp(StrtabOff(z, t) + |t.strtab|);
    RoundsUp(NamesOff(z, t) + |t.names|);
  }

  /** All regions of the file are disjoint and in bounds. */
  lemma RegionsApart(pre: Bytes, code: Bytes, data: Bytes, t: Tables)
    requires |t.headers| == CODE_OFF
    ensures Separate(Pieces(pre, code, data, t), TotalSize(Sizes(|pre|, |code|, |data|), t))
  {
    hide DataStart, SymtabOff, StrtabOff, NamesOff, SectionsOff;
    RegionsAscend(Sizes(|pre|, |code|, |data|), t);
  }

  predicate InPiece(p: Piece, i: int) { p.off <= i < End(p) }

  /** Every piece is in the image, and zeros are between them. */
  ghost predicate Holds(img: Bytes, ps: seq<Piece>, n: nat)
    requires n <= |ps|
  {
    && (forall j :: 0 <= j < n ==> HasBytes(img, ps[j].off, ps[j].bytes))
    && (forall i :: 0 <= i < |img| && (forall j :: 0 <= j < n ==> !InPiece(ps[j], i)) ==> img[i] == 0)
  }

  lemma HoldsNext(img: Bytes, ps: seq<Piece>, n: nat)
    requires n < |ps| && Separate(ps, |img|) && Holds(img, ps, n)
    ensures Holds(Overwrite(img, ps[n].off, ps[n].bytes), ps, n + 1)
  {
    hide HasBytes, Overwrite;
    OverwriteHas(img, ps[n].off, ps[n].bytes);
    forall j | 0 <= j < n
      ensures HasBytes(Overwrite(img, ps[n].off, ps[n].bytes), ps[j].off, ps[j].bytes)
    {
      OverwriteKeeps(img, ps[n].off, ps[n].bytes, ps[j].off, ps[j].bytes);
    }
  }

  method WritePieces(ps: seq<Piece>, total: nat) returns (img: Bytes)
    requires Separate(ps, total)
    ensures |img| == total && Holds(img, ps, |ps|)
  {
    hide HasBytes, Overwrite, Holds;
    img := seq(total, _ => 0);
    ZerosHold(img, ps);
    var n := 0;
    while n < |ps|
      invariant 0 <= n <= |ps|
      invariant |img| == total && Holds(img, ps, n)
    {
      HoldsNext(img, ps, n);
      OverwriteHas(img, ps[n].off, ps[n].bytes);
      img := Overwrite(img, ps[n].off, ps[n].bytes);
      n := n + 1;
    }
  }

  lemma ZerosHold(img: Bytes, ps: seq<Piece>)
    requires forall i :: 0 <= i < |img| ==> img[i] == 0
    ensures Holds(img, ps, 0)
  {
  }

  function SizesOf(pre: Bytes, m: S.Body): Sizes { Sizes(|pre|, |m.code|, |m.data|) }

  /** What the writer needs of its object: known symbols, and sites in range and apart. */
  ghost predicate Writable(z: Sizes, m: S.Body) {
    && (forall i :: 0 <= i < |m.relocs| ==> Known(m, m.relocs[i].sym))
    && SitesOk(Fixes(z, m), S.CodeSection, |m.code|) && SitesOk(Fixes(z, m), S.DataSection, |m.data|)
  }

  method WriteImage(pre: Bytes, m: S.Body, t: Tables) returns (img: Bytes, code: Bytes, data: Bytes)
    requires |t.headers| == CODE_OFF && Writable(SizesOf(pre, m), m)
    ensures |img| == TotalSize(SizesOf(pre, m), t) && |code| == |m.code| && |data| == |m.data|
    ensures Holds(img, Pieces(pre, code, data, t), 8)
    ensures Finished(SizesOf(pre, m), img, m.code, code, m.data, data, Fixes(SizesOf(pre, m), m))
  {
    hide HasBytes, Patched, SitesOk, AlignUp, Fixes, Holds, Separate;
    var z := SizesOf(pre, m);
    code, data := Relocate(m.code, m.data, Fixes(z, m), CodeVaddr(z), DataVaddr(z));
    SameLength(m.code, code, Fixes(z, m), S.CodeSection, CodeVaddr(z));
    SameLength(m.data, data, Fixes(z, m), S.DataSection, DataVaddr(z));
    RegionsApart(pre, code, data, t);
    img := WritePieces(Pieces(pre, code, data, t), TotalSize(z, t));
    HeldPiece(img, Pieces(pre, code, data, t), 2);
    HeldPiece(img, Pieces(pre, code, data, t), 3);
  }

  lemma HeldPiece(img: Bytes, ps: seq<Piece>, j: nat)
    requires Holds(img, ps, |ps|) && j < |ps|
    ensures HasBytes(img, ps[j].off, ps[j].bytes)
  {
  }

  lemma SameLength(blob0: Bytes, blob: Bytes, fixes: seq<Fix>, place: S.Place, vaddr: nat)
    requires Patched(blob0, blob, fixes, place, vaddr, |fixes|)
    ensures |blob| == |blob0|
  {
  }

  lemma InsideBlob(img: Bytes, at: nat, blob: Bytes, site: nat, bs: Bytes)
    requires HasBytes(img, at, blob) && HasBytes(blob, site, bs)
    ensures HasBytes(img, at + site, bs)
  {
    var here := img[at + site..at + site + |bs|];
    forall k | 0 <= k < |bs|
      ensures here[k] == bs[k]
    {
      assert blob[site..site + |bs|][k] == blob[site + k];
      assert img[at..at + |blob|][site + k] == img[at + site + k];
    }
  }

  /** A finished image: relocated code and data at their places. */
  ghost predicate Finished(z: Sizes, img: Bytes, code0: Bytes, code: Bytes, data0: Bytes, data: Bytes, fixes: seq<Fix>) {
    && z.code == |code0| && z.data == |data0|
    && HasBytes(img, CodeStart(z), code) && HasBytes(img, DataStart(z), data)
    && SitesOk(fixes, S.CodeSection, |code0|) && SitesOk(fixes, S.DataSection, |data0|)
    && Patched(code0, code, fixes, S.CodeSection, CodeVaddr(z), |fixes|)
    && Patched(data0, data, fixes, S.DataSection, DataVaddr(z), |fixes|)
  }

  /** A site's address is mapped, and holds the relocation's bytes. */
  lemma SiteMapped(z: Sizes, img: Bytes, code0: Bytes, code: Bytes, data0: Bytes, data: Bytes, fixes: seq<Fix>, j: nat)
    requires Finished(z, img, code0, code, data0, data, fixes) && j < |fixes| && Applies(fixes[j], fixes[j].place)
    ensures var f := fixes[j];
            var off := FileOff(z, BlobVaddr(z, f.place) + f.site);
            off.Some? && HasBytes(img, off.value, FixBytes(f, BlobVaddr(z, f.place)))
  {
    hide AlignUp, SitesOk, HasBytes, FixBytes;
    var f := fixes[j];
    SiteInRange(fixes, f.place, if f.place.CodeSection? then |code0| else |data0|, j);
    SegmentsApart(z, 0);
    if f.place.CodeSection? {
      InsideBlob(img, CodeStart(z), code, f.site, FixBytes(f, CodeVaddr(z)));
    } else {
      InsideBlob(img, DataStart(z), data, f.site, FixBytes(f, DataVaddr(z)));
    }
  }

  lemma FixReads(img: Bytes, off: nat, f: Fix, blobVaddr: nat)
    requires HasBytes(img, off, FixBytes(f, blobVaddr))
    ensures Avail(img, off, FixWidth(f))
    ensures f.kind.Abs64? ==> Field(img, off, 8) == f.target
    ensures var rel := f.target - (blobVaddr + f.site + 4);
            f.kind.Rel32Call? && Imm32(rel) ==> SField(img, off, 4) == rel
  {
    hide LeBytes, Field, SField, Pow256;
    PowValues();
    if f.kind.Abs64? {
      FieldOfLe(img, off, f.target, 8);
    } else {
      FieldOfLe(img, off, f.target - (blobVaddr + f.site + 4), 4);
      if Imm32(f.target - (blobVaddr + f.site + 4)) { SFieldOfLe(img, off, f.target - (blobVaddr + f.site + 4), 4); }
    }
  }

  /** Read through the segments, every 8-byte site holds its symbol's address, and
      every call site in code reaches its target. */
  lemma SitesResolve(z: Sizes, img: Bytes, code0: Bytes, code: Bytes, data0: Bytes, data: Bytes, fixes: seq<Fix>, j: nat)
    requires Finished(z, img, code0, code, data0, data, fixes) && j < |fixes| && Applies(fixes[j], fixes[j].place)
    ensures var f := fixes[j];
            var v := BlobVaddr(z, f.place) + f.site;
            && FileOff(z, v).Some? && Avail(img, FileOff(z, v).value, FixWidth(f))
            && (f.kind.Abs64? ==> Field(img, FileOff(z, v).value, 8) == f.target)
            && (f.kind.Rel32Call? && Imm32(f.target - (v + 4)) ==> v + 4 + SField(img, FileOff(z, v).value, 4) == f.target)
  {
    hide Finished, FileOff, BlobVaddr, HasBytes, FixBytes, Field, SField;
    var f := fixes[j];
    SiteMapped(z, img, code0, code, data0, data, fixes, j);
    FixReads(img, FileOff(z, BlobVaddr(z, f.place) + f.site).value, f, BlobVaddr(z, f.place));
  }

  /** A call in code to a symbol of the code blob lands on that symbol's byte of the
      file, and a stored address of a symbol is the address of its byte. */
  lemma SitesLand(m: S.Body, pre: Bytes, img: Bytes, code: Bytes, data: Bytes, j: nat)
    requires var z := SizesOf(pre, m);
             && Writable(z, m) && Finished(z, img, m.code, code, m.data, data, Fixes(z, m)) && HeapVaddr(z) < B64
             && j < |m.relocs| && Applies(Fixes(z, m)[j], m.relocs[j].section)
             && SymbolAt(m, m.relocs[j].sym).Some?
             && SymbolAt(m, m.relocs[j].sym).value.1 < BlobSize(z, SymbolAt(m, m.relocs[j].sym).value.0)
    ensures var z, r := SizesOf(pre, m), m.relocs[j];
            var (place, off) := SymbolAt(m, r.sym).value;
            var v := BlobVaddr(z, r.section) + r.site;
            && FileOff(z, v).Some? && Avail(img, FileOff(z, v).value, if r.kind.Abs64? then 8 else 4)
            && (r.kind.Abs64? ==> FileOff(z, Field(img, FileOff(z, v).value, 8)) == Some(BlobStart(z, place) + off))
            && (r.kind.Rel32Call? && Imm32(SymbolAddr(z, m, r.sym) - (v + 4)) ==>
                  FileOff(z, v + 4 + SField(img, FileOff(z, v).value, 4)) == Some(BlobStart(z, place) + off))
  {
    hide Finished, FileOff, BlobVaddr, BlobStart, BlobSize, SymbolAt, SymbolAddr, Field, SField, SitesOk, AlignUp;
    var z := SizesOf(pre, m);
    SitesResolve(z, img, m.code, code, m.data, data, Fixes(z, m), j);
    SymbolMapped(z, m, m.relocs[j].sym);
  }

  lemma SiteInRange(fixes: seq<Fix>, place: S.Place, size: nat, j: nat)
    requires SitesOk(fixes, place, size) && j < |fixes| && Applies(fixes[j], place)
    ensures fixes[j].site + FixWidth(fixes[j]) <= size
  {
  }
}
