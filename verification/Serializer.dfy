/** The machine-code container: encoder, reader, round trip and prefix law. */
module Serializer {
  import opened Ir
  import opened Encoding
  import opened Decoder
  import opened RoundTrip
  import opened Codec

  const MAGIC := 0x524D4331
  const NO_INIT := 0xFFFF_FFFF

  // ---------- relocations ----------

  datatype Sym =
    | Fn(i: nat) | Str(off: nat) | VtableOff(off: nat) | HeapBase | HelperItoa | HelperItoaErr | HelperScanInt
    | HelperRetain | HelperRelease | HelperAlloc | Import(i: nat) | Name(i: nat) | Static(i: nat)
    | ExcEnter | ExcPop | ExcThrow | ExcRethrow | ExcLoad | ExcClear | ExcState(off: nat) | ArgvRsp

  datatype RelocKind = Abs64 | Rel32Call
  datatype Place = CodeSection | DataSection
  datatype Reloc = Reloc(kind: RelocKind, section: Place, site: nat, sym: Sym)

  function SymTag(s: Sym): (nat, nat) {
    match s
    case Fn(i) => (0, i)
    case Str(o) => (1, o)
    case VtableOff(o) => (2, o)
    case HeapBase => (3, 0)
    case HelperItoa => (4, 0)
    case HelperItoaErr => (5, 0)
    case HelperScanInt => (6, 0)
    case HelperRetain => (7, 0)
    case HelperRelease => (8, 0)
    case HelperAlloc => (9, 0)
    case Import(i) => (10, i)
    case Name(i) => (11, i)
    case Static(i) => (12, i)
    case ExcEnter => (13, 0)
    case ExcPop => (14, 0)
    case ExcThrow => (15, 0)
    case ExcRethrow => (16, 0)
    case ExcLoad => (17, 0)
    case ExcClear => (18, 0)
    case ExcState(o) => (19, o)
    case ArgvRsp => (20, 0)
  }

  function SymFrom(tag: nat, arg: nat): Option<Sym> {
    if tag == 0 then Some(Fn(arg)) else if tag == 1 then Some(Str(arg)) else if tag == 2 then Some(VtableOff(arg))
    else if tag == 3 then Some(HeapBase) else if tag == 4 then Some(HelperItoa) else if tag == 5 then Some(HelperItoaErr)
    else if tag == 6 then Some(HelperScanInt) else if tag == 7 then Some(HelperRetain)
    else if tag == 8 then Some(HelperRelease) else if tag == 9 then Some(HelperAlloc)
    else if tag == 10 then Some(Import(arg)) else if tag == 11 then Some(Name(arg)) else if tag == 12 then Some(Static(arg))
    else if tag == 13 then Some(ExcEnter) else if tag == 14 then Some(ExcPop) else if tag == 15 then Some(ExcThrow)
    else if tag == 16 then Some(ExcRethrow) else if tag == 17 then Some(ExcLoad) else if tag == 18 then Some(ExcClear)
    else if tag == 19 then Some(ExcState(arg)) else if tag == 20 then Some(ArgvRsp) else None
  }

  /** Tags are read back, and no two symbols share one. */
  lemma SymReads(s: Sym)
    ensures SymFrom(SymTag(s).0, SymTag(s).1) == Some(s)
  {
  }

  type RawReloc = (nat, (nat, (nat, (nat, nat))))

  function RelocTo(r: Reloc): RawReloc {
    (if r.kind.Abs64? then 0 else 1,
     (if r.section.CodeSection? then 0 else 1, (r.site, (SymTag(r.sym).0, SymTag(r.sym).1))))
  }

  function RelocBack(x: RawReloc): Option<Reloc> {
    var (kind, (section, (site, (tag, arg)))) := x;
    if kind > 1 || section > 1 then None
    else match SymFrom(tag, arg)
      case None => None
      case Some(s) => Some(Reloc(if kind == 0 then Abs64 else Rel32Call, if section == 0 then CodeSection
          else DataSection, site, s))
  }

  function RelocCodec(): Codec<Reloc> {
    View(Pair(Num(1), Pair(Num(1), Pair(Num(8), Pair(Num(1), Num(8))))), (r: Reloc) => RelocTo(r),
        (x: RawReloc) => RelocBack(x),
         (r: Reloc) => true)
  }

  lemma RelocLawful()
    ensures Lawful(RelocCodec())
  {
    hide Lawful;
    NumLawful(1);
    NumLawful(8);
    PairLawful(Num(1), Num(8));
    PairLawful(Num(8), Pair(Num(1), Num(8)));
    PairLawful(Num(1), Pair(Num(8), Pair(Num(1), Num(8))));
    PairLawful(Num(1), Pair(Num(1), Pair(Num(8), Pair(Num(1), Num(8)))));
    forall r: Reloc
      ensures RelocBack(RelocTo(r)) == Some(r)
    {
      SymReads(r.sym);
    }
    ViewLawful(Pair(Num(1), Pair(Num(1), Pair(Num(8), Pair(Num(1), Num(8))))), (r: Reloc) => RelocTo(r),
               (x: RawReloc) => RelocBack(x), (r: Reloc) => true);
  }

  // ---------- the container ----------

  /** Strings are their UTF-8 bytes. `helpers` are the six runtime helpers in flag
      order, `excHelpers` the six exception helpers, the state block and the argv slot. */
  datatype MachineCode = MachineCode(body: Body, vtableNames: seq<Bytes>, staticNames: seq<Bytes>,
                                     exportRecv: seq<bool>, initFn: Option<nat>, strip: bool)

  datatype Body = Body(code: Bytes, data: Bytes, fnBases: seq<nat>, vtableOffsets: seq<nat>, staticOffsets: seq<nat>,
                       helpers: seq<Option<nat>>, excHelpers: seq<Option<nat>>, importNames: seq<(Bytes, Bytes)>,
                       importBases: seq<nat>, exports: seq<(Bytes, (nat, nat))>, relocs: seq<Reloc>, heapSize: nat)

  type Helpers = seq<Option<nat>>
  type Export = (Bytes, (nat, nat))
  type Raw4 = (seq<Export>, (seq<Reloc>, nat))
  type Raw3 = (Helpers, (Helpers, (seq<(Bytes, Bytes)>, (seq<nat>, Raw4))))
  type Raw = (Bytes, (Bytes, (seq<nat>, (seq<nat>, (seq<nat>, Raw3)))))

  function Names(): Codec<seq<Bytes>> { List(Blob(4)) }

  function Raw4Codec(): Codec<Raw4> {
    Pair(List(Pair(Blob(4), Pair(Num(4), Num(4)))), Pair(List(RelocCodec()), Num(8)))
  }

  function Raw3Codec(): Codec<Raw3> {
    Pair(Flagged(6), Pair(Flagged(8), Pair(List(Pair(Blob(4), Blob(4))), Pair(List(Num(8)), Raw4Codec()))))
  }

  function RawCodec(): Codec<Raw> {
    Pair(Blob(8), Pair(Blob(8), Pair(List(Num(8)), Pair(List(Num(8)), Pair(List(Num(8)), Raw3Codec())))))
  }

  function RawOf(m: Body): Raw {
    (m.code, (m.data, (m.fnBases, (m.vtableOffsets, (m.staticOffsets,
      (m.helpers, (m.excHelpers, (m.importNames, (m.importBases, (m.exports, (m.relocs, m.heapSize)))))))))))
  }

  function BodyOf(x: Raw): Option<Body> {
    var low := x.1.1;
    var mid := low.1.1.1;
    var high := mid.1.1.1.1;
    Some(Body(x.0, x.1.0, low.0, low.1.0, low.1.1.0, mid.0, mid.1.0, mid.1.1.0, mid.1.1.1.0, high.0, high.1.0, high.1.1))
  }

  function BodyCodec(): Codec<Body> {
    View(RawCodec(), (m: Body) => RawOf(m), (x: Raw) => BodyOf(x), (m: Body) => true)
  }

  function BoolCodec(): Codec<bool> {
    View(Num(1), (t: bool) => if t then 1 else 0, (x: nat) => Some(x != 0), (t: bool) => true)
  }

  /** The initializer's index, all ones for none. */
  function InitCodec(): Codec<Option<nat>> {
    View(Num(4), (i: Option<nat>) => if i.Some? then i.value else NO_INIT,
         (x: nat) => Some(if x == NO_INIT then None else Some(x)), (i: Option<nat>) => i != Some(NO_INIT))
  }

  lemma Raw4Lawful()
    ensures Lawful(Raw4Codec())
  {
    hide Lawful;
    NumLawful(4);
    NumLawful(8);
    BlobLawful(4);
    RelocLawful();
    PairLawful(Num(4), Num(4));
    PairLawful(Blob(4), Pair(Num(4), Num(4)));
    ListLawful(Pair(Blob(4), Pair(Num(4), Num(4))));
    ListLawful(RelocCodec());
    PairLawful(List(RelocCodec()), Num(8));
    PairLawful(List(Pair(Blob(4), Pair(Num(4), Num(4)))), Pair(List(RelocCodec()), Num(8)));
  }

  lemma Raw3Lawful()
    ensures Lawful(Raw3Codec())
  {
    hide Lawful;
    Raw4Lawful();
    NumLawful(8);
    BlobLawful(4);
    FlaggedLawful(6);
    FlaggedLawful(8);
    PairLawful(Blob(4), Blob(4));
    ListLawful(Pair(Blob(4), Blob(4)));
    ListLawful(Num(8));
    PairLawful(List(Num(8)), Raw4Codec());
    PairLawful(List(Pair(Blob(4), Blob(4))), Pair(List(Num(8)), Raw4Codec()));
    PairLawful(Flagged(8), Pair(List(Pair(Blob(4), Blob(4))), Pair(List(Num(8)), Raw4Codec())));
    PairLawful(Flagged(6), Pair(Flagged(8), Pair(List(Pair(Blob(4), Blob(4))), Pair(List(Num(8)), Raw4Codec()))));
  }

  lemma BodyLawful()
    ensures Lawful(BodyCodec())
  {
    hide Lawful, Raw3Codec, Raw4Codec;
    Raw3Lawful();
    NumLawful(8);
    BlobLawful(8);
    ListLawful(Num(8));
    PairLawful(List(Num(8)), Raw3Codec());
    PairLawful(List(Num(8)), Pair(List(Num(8)), Raw3Codec()));
    PairLawful(List(Num(8)), Pair(List(Num(8)), Pair(List(Num(8)), Raw3Codec())));
    PairLawful(Blob(8), Pair(List(Num(8)), Pair(List(Num(8)), Pair(List(Num(8)), Raw3Codec()))));
    PairLawful(Blob(8), Pair(Blob(8), Pair(List(Num(8)), Pair(List(Num(8)), Pair(List(Num(8)), Raw3Codec())))));
    ViewLawful(RawCodec(), (m: Body) => RawOf(m), (x: Raw) => BodyOf(x), (m: Body) => true);
  }

  lemma TailsLawful()
    ensures Lawful(Names()) && Lawful(List(BoolCodec())) && Lawful(InitCodec()) && Lawful(BoolCodec())
  {
    hide Lawful;
    BlobLawful(4);
    ListLawful(Blob(4));
    NumLawful(1);
    NumLawful(4);
    ViewLawful(Num(1), (t: bool) => if t then 1 else 0, (x: nat) => Some(x != 0), (t: bool) => true);
    ListLawful(BoolCodec());
    ViewLawful(Num(4), (i: Option<nat>) => if i.Some? then i.value else NO_INIT,
               (x: nat) => Some(if x == NO_INIT then None else Some(x)), (i: Option<nat>) => i != Some(NO_INIT));
  }

  /** Every field fits the width it is written in. */
  predicate InRange(mc: MachineCode) {
    && BodyCodec().ok(mc.body) && Names().ok(mc.vtableNames) && Names().ok(mc.staticNames)
    && List(BoolCodec()).ok(mc.exportRecv) && InitCodec().ok(mc.initFn)
  }

  // ---------- encoding and decoding ----------

  /** Trailing section `i` of five. */
  function Section(mc: MachineCode, i: nat): Bytes
    requires i < 5
  {
    if i == 0 then Names().enc(mc.vtableNames)
    else if i == 1 then Names().enc(mc.staticNames)
    else if i == 2 then List(BoolCodec()).enc(mc.exportRecv)
    else if i == 3 then InitCodec().enc(mc.initFn)
    else BoolCodec().enc(mc.strip)
  }

  /** The trailing sections from number `i` on. */
  function TailEnc(mc: MachineCode, i: nat): Bytes
    requires i <= 5
    decreases 5 - i
  {
    if i == 5 then [] else Section(mc, i) + TailEnc(mc, i + 1)
  }

  function Encode(mc: MachineCode): Bytes { LeBytes(MAGIC, 4) + (BodyCodec().enc(mc.body) + TailEnc(mc, 0)) }

  /** A trailing section, absent when the bytes have run out. */
  function Trailing<T>(c: Codec<T>, absent: T, b: Bytes, p: nat): Read<T> {
    if p >= |b| then Some((absent, p)) else c.dec(b, p)
  }

  function DecodeTail(b: Bytes, p: nat, body: Body): Option<MachineCode> {
    match Trailing(Names(), [], b, p)
    case None => None
    case Some((vts, p1)) => match Trailing(Names(), [], b, p1)
      case None => None
      case Some((sts, p2)) => match Trailing(List(BoolCodec()), [], b, p2)
        case None => None
        case Some((recv, p3)) => match Trailing(InitCodec(), None, b, p3)
          case None => None
          case Some((init, p4)) => match Trailing(BoolCodec(), false, b, p4)
            case None => None
            case Some((strip, _)) => Some(MachineCode(body, vts, sts, recv, init, strip))
  }

  function Decode(b: Bytes): Option<MachineCode> {
    if NumDec(4, b, 0) != Some((MAGIC, 4)) then None
    else match BodyCodec().dec(b, 4)
      case None => None
      case Some((body, p)) => DecodeTail(b, p, body)
  }

  // ---------- cutting the trailing sections ----------

  /** What is left of the bytes from `p` on is a prefix of `e`, perhaps all of it. */
  predicate Remains(b: Bytes, p: nat, e: Bytes) { p <= |b| <= p + |e| && b[p..] == e[..|b| - p] }

  lemma RemainsSplit(b: Bytes, p: nat, x: Bytes, y: Bytes)
    requires Remains(b, p, x + y) && |b| > p
    ensures Cut(b, p, x) || (HasBytes(b, p, x) && Remains(b, p + |x|, y))
  {
    if |b| < p + |x + y| {
      CutSplit(b, p, x, y);
    } else {
      assert b[p..] == x + y;
      assert b[p..p + |x|] == b[p..][..|x|] && b[p + |x|..] == b[p..][|x|..];
    }
  }

  lemma TrailingRead<T(!new)>(c: Codec<T>, absent: T, x: T, b: Bytes, p: nat, rest: Bytes)
    requires Lawful(c) && c.ok(x) && Remains(b, p, c.enc(x) + rest) && |b| > p
    ensures Trailing(c, absent, b, p) == None
         || (Trailing(c, absent, b, p) == Some((x, p + |c.enc(x)|)) && Remains(b, p + |c.enc(x)|, rest))
    ensures Trailing(c, absent, b, p) == None <==> Cut(b, p, c.enc(x))
  {
    hide Lawful, HasBytes, Remains;
    RemainsSplit(b, p, c.enc(x), rest);
    if Cut(b, p, c.enc(x)) {
      RejectsIt(c, x, b, p);
    } else {
      ReadsIt(c, x, b, p);
    }
  }

  /** `mc` with the trailing sections from number `i` on absent. */
  function Truncated(mc: MachineCode, i: nat): MachineCode
    requires i <= 5
  {
    MachineCode(mc.body, if i > 0 then mc.vtableNames else [], if i > 1 then mc.staticNames else [],
                if i > 2 then mc.exportRecv else [], if i > 3 then mc.initFn else None, if i > 4 then mc.strip else false)
  }

  /** Where trailing section `i` starts. */
  function Boundary(mc: MachineCode, i: nat): nat
    requires i <= 5
    decreases i
  {
    if i == 0 then 4 + |BodyCodec().enc(mc.body)| else Boundary(mc, i - 1) + |Section(mc, i - 1)|
  }

  lemma SectionsNotEmpty(mc: MachineCode, i: nat)
    requires i < 5
    ensures |Section(mc, i)| > 0
  {
  }

  /** Decoding from trailing section `i` on. */
  function DecodeFrom(b: Bytes, p: nat, acc: MachineCode, i: nat): Option<MachineCode>
    requires i <= 5
    decreases 5 - i
  {
    if i == 5 then Some(acc)
    else if i == 0 then
      match Trailing(Names(), [], b, p) case None => None case Some((x, q)) => DecodeFrom(b, q, acc.(vtableNames := x), 1)
    else if i == 1 then
      match Trailing(Names(), [], b, p) case None => None case Some((x, q)) => DecodeFrom(b, q, acc.(staticNames := x), 2)
    else if i == 2 then
      match Trailing(List(BoolCodec()), [], b, p) case None => None case Some((x, q)) => DecodeFrom(b, q,
          acc.(exportRecv := x), 3)
    else if i == 3 then
      match Trailing(InitCodec(), None, b, p) case None => None case Some((x, q)) => DecodeFrom(b, q, acc.(initFn := x), 4)
    else
      match Trailing(BoolCodec(), false, b, p) case None => None case Some((x, q)) => DecodeFrom(b, q, acc.(strip := x), 5)
  }

  lemma DecodeTailIs(b: Bytes, p: nat, body: Body)
    ensures DecodeTail(b, p, body) == DecodeFrom(b, p, MachineCode(body, [], [], [], None, false), 0)
  {
    hide Names, BoolCodec, InitCodec, Trailing, List;
  }

  /** Sections that are not there leave their defaults. */
  lemma {:induction false} AbsentTail(b: Bytes, p: nat, acc: MachineCode, i: nat)
    requires i <= 5 && p >= |b|
    requires i <= 0 ==> acc.vtableNames == []
    requires i <= 1 ==> acc.staticNames == []
    requires i <= 2 ==> acc.exportRecv == []
    requires i <= 3 ==> acc.initFn == None
    requires i <= 4 ==> acc.strip == false
    ensures DecodeFrom(b, p, acc, i) == Some(acc)
    decreases 5 - i
  {
    hide Names, BoolCodec, InitCodec, List;
    if i < 5 { AbsentTail(b, p, acc, i + 1); }
  }

  /** One section present: the reader takes it, or fails on a piece of it. */
  lemma SectionStep(b: Bytes, p: nat, mc: MachineCode, i: nat)
    requires InRange(mc) && i < 5 && |b| > p && Remains(b, p, TailEnc(mc, i))
    ensures Cut(b, p, Section(mc, i)) ==> DecodeFrom(b, p, Truncated(mc, i), i) == None
    ensures !Cut(b, p, Section(mc, i)) ==>
      && Remains(b, p + |Section(mc, i)|, TailEnc(mc, i + 1))
      && DecodeFrom(b, p, Truncated(mc, i), i) == DecodeFrom(b, p + |Section(mc, i)|, Truncated(mc, i + 1), i + 1)
  {
    hide Names, BoolCodec, InitCodec, Lawful, Trailing, List, Remains, Cut, BodyCodec;
    TailsLawful();
    var rest := TailEnc(mc, i + 1);
    if i == 0 { TrailingRead(Names(), [], mc.vtableNames, b, p, rest); }
    else if i == 1 { TrailingRead(Names(), [], mc.staticNames, b, p, rest); }
    else if i == 2 { TrailingRead(List(BoolCodec()), [], mc.exportRecv, b, p, rest); }
    else if i == 3 { TrailingRead(InitCodec(), None, mc.initFn, b, p, rest); }
    else { BoolsOk(mc.strip); TrailingRead(BoolCodec(), false, mc.strip, b, p, rest); }
  }

  lemma BoolsOk(t: bool)
    ensures BoolCodec().ok(t)
  {
    PowValues();
  }

  /** From a section boundary on, decoding succeeds exactly at the later boundaries. */
  lemma {:induction false} TailLaw(b: Bytes, mc: MachineCode, i: nat)
    requires InRange(mc) && i <= 5 && Remains(b, Boundary(mc, i), TailEnc(mc, i))
    ensures forall k :: i <= k <= 5 && |b| == Boundary(mc, k) ==>
              DecodeFrom(b, Boundary(mc, i), Truncated(mc, i), i) == Some(Truncated(mc, k))
    ensures (forall k :: i <= k <= 5 ==> |b| != Boundary(mc, k)) ==>
              DecodeFrom(b, Boundary(mc, i), Truncated(mc, i), i) == None
    decreases 5 - i
  {
    hide Section, InRange, BodyCodec, Truncated, DecodeFrom;
    var p := Boundary(mc, i);
    BoundariesRise(mc, i);
    if |b| == p {
      AbsentAt(b, p, mc, i);
    } else if i < 5 {
      SectionStep(b, p, mc, i);
      if !Cut(b, p, Section(mc, i)) { TailLaw(b, mc, i + 1); }
    }
  }

  lemma AbsentAt(b: Bytes, p: nat, mc: MachineCode, i: nat)
    requires i <= 5 && p >= |b|
    ensures DecodeFrom(b, p, Truncated(mc, i), i) == Some(Truncated(mc, i))
  {
    AbsentTail(b, p, Truncated(mc, i), i);
  }

  lemma BoundaryStep(mc: MachineCode, k: nat)
    requires k < 5
    ensures Boundary(mc, k + 1) == Boundary(mc, k) + |Section(mc, k)| && |Section(mc, k)| > 0
  {
    hide BodyCodec;
    SectionsNotEmpty(mc, k);
  }

  lemma {:induction false} Rise(mc: MachineCode, i: nat, k: nat)
    requires i < k <= 5
    ensures Boundary(mc, k) >= Boundary(mc, i) + |Section(mc, i)| && |Section(mc, i)| > 0
    decreases k
  {
    hide Boundary, Section;
    BoundaryStep(mc, k - 1);
    if i < k - 1 { Rise(mc, i, k - 1); }
  }

  lemma BoundariesRise(mc: MachineCode, i: nat)
    requires i <= 5
    ensures forall k :: i < k <= 5 ==> Boundary(mc, k) > Boundary(mc, i)
    ensures i < 5 ==> Boundary(mc, i + 1) == Boundary(mc, i) + |Section(mc, i)|
    ensures i < 5 ==> forall k :: i < k <= 5 ==> Boundary(mc, k) >= Boundary(mc, i) + |Section(mc, i)|
  {
    hide Boundary, Section;
    if i < 5 { BoundaryStep(mc, i); }
    forall k | i < k <= 5
      ensures Boundary(mc, k) > Boundary(mc, i) && Boundary(mc, k) >= Boundary(mc, i) + |Section(mc, i)|
    {
      Rise(mc, i, k);
    }
  }

  lemma {:induction false} TailLength(mc: MachineCode, i: nat)
    requires i <= 5
    ensures Boundary(mc, 5) == Boundary(mc, i) + |TailEnc(mc, i)|
    decreases 5 - i
  {
    hide Section, BodyCodec;
    if i < 5 { TailLength(mc, i + 1); }
  }

  // ---------- the two laws ----------

  lemma MagicReads(b: Bytes)
    requires HasBytes(b, 0, LeBytes(MAGIC, 4))
    ensures NumDec(4, b, 0) == Some((MAGIC, 4))
  {
    PowValues();
    NumReads(4, MAGIC, b, 0);
  }

  /** The header and body are read back; what remains is left to the tail. */
  lemma BodyReads(b: Bytes, mc: MachineCode)
    requires InRange(mc) && HasBytes(b, 0, LeBytes(MAGIC, 4)) && HasBytes(b, 4, BodyCodec().enc(mc.body))
    ensures Decode(b) == DecodeFrom(b, Boundary(mc, 0), Truncated(mc, 0), 0)
  {
    hide HasBytes, Lawful, BodyCodec, LeBytes, DecodeFrom, DecodeTail, NumDec, Names, BoolCodec, InitCodec;
    MagicReads(b);
    BodyLawful();
    ReadsIt(BodyCodec(), mc.body, b, 4);
    DecodeTailIs(b, Boundary(mc, 0), mc.body);
  }

  /** A prefix of an encoding decodes exactly when it ends at the start of one of
      the five trailing sections, and then with the defaults for what is missing. */
  lemma PrefixLaw(mc: MachineCode, n: nat)
    requires InRange(mc) && n < |Encode(mc)|
    ensures forall i :: 0 <= i < 5 && n == Boundary(mc, i) ==> Decode(Encode(mc)[..n]) == Some(Truncated(mc, i))
    ensures (forall i :: 0 <= i < 5 ==> n != Boundary(mc, i)) ==> Decode(Encode(mc)[..n]) == None
  {
    hide LeBytes, BodyCodec, TailEnc, Decode, DecodeFrom, Truncated, InRange, Boundary;
    var head, body, tail := LeBytes(MAGIC, 4), BodyCodec().enc(mc.body), TailEnc(mc, 0);
    var b := Encode(mc)[..n];
    TailLength(mc, 0);
    FirstBoundary(mc);
    BoundariesRise(mc, 0);
    assert Remains(b, 0, head + (body + tail));
    if n < 4 {
      ShortMagic(b);
    } else {
      HeadRemains(b, head, body, tail);
      if n < 4 + |body| {
        CutBody(b, mc);
      } else {
        BodyReads(b, mc);
        TailLaw(b, mc, 0);
        assert n != Boundary(mc, 5);
      }
    }
  }

  lemma FirstBoundary(mc: MachineCode)
    ensures Boundary(mc, 0) == 4 + |BodyCodec().enc(mc.body)|
  {
  }

  lemma ShortMagic(b: Bytes)
    requires |b| < 4
    ensures Decode(b) == None
  {
    hide BodyCodec;
  }

  lemma HeadRemains(b: Bytes, head: Bytes, body: Bytes, tail: Bytes)
    requires |head| == 4 && Remains(b, 0, head + (body + tail)) && |b| >= 4
    ensures HasBytes(b, 0, head) && Remains(b, 4, body + tail)
    ensures |b| < 4 + |body| ==> Cut(b, 4, body)
    ensures |b| >= 4 + |body| ==> HasBytes(b, 4, body) && Remains(b, 4 + |body|, tail)
  {
    RemainsSplit(b, 0, head, body + tail);
    if |b| > 4 { RemainsSplit(b, 4, body, tail); }
  }

  lemma CutBody(b: Bytes, mc: MachineCode)
    requires InRange(mc) && HasBytes(b, 0, LeBytes(MAGIC, 4)) && Cut(b, 4, BodyCodec().enc(mc.body))
    ensures Decode(b) == None
  {
    hide HasBytes, Cut, Lawful, BodyCodec, LeBytes, DecodeTail, NumDec;
    MagicReads(b);
    BodyLawful();
    RejectsIt(BodyCodec(), mc.body, b, 4);
  }

  lemma TailDone(b: Bytes, p: nat, mc: MachineCode)
    ensures DecodeFrom(b, p, Truncated(mc, 5), 5) == Some(mc)
  {
  }

  /** Decoding reads nothing past the last section. */
  lemma {:induction false} TailReads(b: Bytes, mc: MachineCode, i: nat)
    requires InRange(mc) && i <= 5 && HasBytes(b, Boundary(mc, i), TailEnc(mc, i))
    ensures DecodeFrom(b, Boundary(mc, i), Truncated(mc, i), i) == Some(mc)
    decreases 5 - i
  {
    hide Section, InRange, BodyCodec, HasBytes, DecodeFrom, Truncated, Boundary;
    if i < 5 {
      var p := Boundary(mc, i);
      HasSplit(b, p, Section(mc, i), TailEnc(mc, i + 1));
      SectionPresent(b, p, mc, i);
      BoundaryStep(mc, i);
      TailReads(b, mc, i + 1);
    } else {
      TailDone(b, Boundary(mc, 5), mc);
    }
  }

  lemma TakePresent<T(!new)>(c: Codec<T>, absent: T, x: T, b: Bytes, p: nat)
    requires Lawful(c) && c.ok(x) && HasBytes(b, p, c.enc(x)) && |c.enc(x)| > 0
    ensures Trailing(c, absent, b, p) == Some((x, p + |c.enc(x)|))
  {
    HasLength(b, p, c.enc(x));
    hide Lawful, HasBytes;
    ReadsIt(c, x, b, p);
  }

  lemma SectionPresent(b: Bytes, p: nat, mc: MachineCode, i: nat)
    requires InRange(mc) && i < 5 && HasBytes(b, p, Section(mc, i))
    ensures DecodeFrom(b, p, Truncated(mc, i), i) == DecodeFrom(b, p + |Section(mc, i)|, Truncated(mc, i + 1), i + 1)
  {
    hide Names, BoolCodec, InitCodec, Lawful, List, HasBytes, BodyCodec, Trailing;
    SectionsNotEmpty(mc, i);
    TailsLawful();
    if i == 0 { TakePresent(Names(), [], mc.vtableNames, b, p); }
    else if i == 1 { TakePresent(Names(), [], mc.staticNames, b, p); }
    else if i == 2 { TakePresent(List(BoolCodec()), [], mc.exportRecv, b, p); }
    else if i == 3 { TakePresent(InitCodec(), None, mc.initFn, b, p); }
    else { BoolsOk(mc.strip); TakePresent(BoolCodec(), false, mc.strip, b, p); }
  }

  lemma HasLength(b: Bytes, p: nat, e: Bytes)
    requires HasBytes(b, p, e)
    ensures p + |e| <= |b|
  {
  }

  /** Encoding then decoding is the identity, whatever follows the encoding. */
  lemma RoundTripLaw(mc: MachineCode, junk: Bytes)
    requires InRange(mc)
    ensures Decode(Encode(mc) + junk) == Some(mc)
  {
    hide LeBytes, BodyCodec, TailEnc, Decode, DecodeFrom, InRange, Boundary, HasBytes;
    var head, body, tail := LeBytes(MAGIC, 4), BodyCodec().enc(mc.body), TailEnc(mc, 0);
    var b := Encode(mc) + junk;
    assert b == head + (body + (tail + junk));
    Itself(b);
    HasSplit(b, 0, head, body + (tail + junk));
    HasSplit(b, 4, body, tail + junk);
    HasSplit(b, 4 + |body|, tail, junk);
    FirstBoundary(mc);
    BodyReads(b, mc);
    TailReads(b, mc, 0);
  }

  lemma Itself(b: Bytes)
    ensures HasBytes(b, 0, b)
  {
  }

  // ---------- exactly what comes back ----------

  /** An object with the load-time import addresses that are never written. */
  datatype Loaded = Loaded(mc: MachineCode, importAbs: seq<nat>)

  function EncodeLoaded(l: Loaded): Bytes { Encode(l.mc) }

  function DecodeLoaded(b: Bytes): Option<Loaded> {
    match Decode(b) case Some(mc) => Some(Loaded(mc, [])) case None => None
  }

  /** What four bytes keep of an initializer's index. */
  function StoredInit(i: Option<nat>): Option<nat> {
    match i
    case None => None
    case Some(x) => if x % 0x1_0000_0000 == NO_INIT then None else Some(x % 0x1_0000_0000)
  }

  /** In range, whatever the initializer's index. */
  predicate InRangeBut(mc: MachineCode) {
    && BodyCodec().ok(mc.body) && Names().ok(mc.vtableNames) && Names().ok(mc.staticNames)
    && List(BoolCodec()).ok(mc.exportRecv)
  }

  lemma Scaled(k: nat, p: nat)
    ensures k * (256 * p) == 256 * (k * p)
  {
  }

  lemma ShiftedByte(y: nat, t: nat)
    ensures (y + 256 * t) % 256 == y % 256 && (y + 256 * t) / 256 == y / 256 + t
  {
  }

  lemma {:induction false} LeShift(y: nat, k: nat, n: nat)
    ensures LeBytes(y + k * Pow256(n), n) == LeBytes(y, n)
    decreases n
  {
    if n > 0 {
      Scaled(k, Pow256(n - 1));
      ShiftedByte(y, k * Pow256(n - 1));
      LeShift(y / 256, k, n - 1);
    }
  }

  lemma FourBytes(x: nat)
    ensures LeBytes(x, 4) == LeBytes(x % 0x1_0000_0000, 4)
  {
    PowValues();
    LeShift(x % 0x1_0000_0000, x / 0x1_0000_0000, 4);
  }

  lemma InitStored(i: Option<nat>)
    ensures InitCodec().enc(i) == InitCodec().enc(StoredInit(i)) && InitCodec().ok(StoredInit(i))
  {
    hide LeBytes;
    PowValues();
    if i.Some? { FourBytes(i.value); }
  }

  lemma SameSections(mc: MachineCode, i: nat)
    requires i <= 5
    ensures TailEnc(mc, i) == TailEnc(mc.(initFn := StoredInit(mc.initFn)), i)
    decreases 5 - i
  {
    hide InitCodec, Names, BoolCodec, List;
    InitStored(mc.initFn);
    if i < 5 { SameSections(mc, i + 1); }
  }

  /** The object comes back exactly when its initializer's index is below 2^32 - 1 and
      it has no load-time addresses; otherwise just these two are lost. */
  lemma RoundTripExactly(l: Loaded, junk: Bytes)
    requires InRangeBut(l.mc)
    ensures DecodeLoaded(EncodeLoaded(l) + junk) == Some(Loaded(l.mc.(initFn := StoredInit(l.mc.initFn)), []))
    ensures DecodeLoaded(EncodeLoaded(l) + junk) == Some(l)
       <==> l.importAbs == [] && (l.mc.initFn.Some? ==> l.mc.initFn.value < NO_INIT)
  {
    hide BodyCodec, InitCodec, Names, BoolCodec, List, Decode, TailEnc, LeBytes;
    var mc' := l.mc.(initFn := StoredInit(l.mc.initFn));
    InitStored(l.mc.initFn);
    SameSections(l.mc, 0);
    assert Encode(l.mc) == Encode(mc');
    assert InRange(mc');
    RoundTripLaw(mc', junk);
    InitKept(l.mc.initFn);
  }

  lemma InitKept(i: Option<nat>)
    ensures StoredInit(i) == i <==> (i.Some? ==> i.value < NO_INIT)
  {
  }

  lemma LastInitLost(mc: MachineCode)
    requires InRangeBut(mc) && mc.initFn == Some(NO_INIT)
    ensures Decode(Encode(mc)) == Some(mc.(initFn := None))
  {
    hide BodyCodec, InitCodec, Names, BoolCodec, List, Decode, Encode;
    RoundTripExactly(Loaded(mc, []), []);
    assert Encode(mc) + [] == Encode(mc);
  }

  // ---------- reading a container ----------

  method ReadExports(rd: Reader) returns (r: Option<Raw4>)
    modifies rd
    ensures Took(Raw4Codec().dec(rd.bytes, old(rd.pos)), r, rd.pos)
  {
    hide RelocCodec, ListDec, NumDec, BlobDec, List;
    var exports := rd.ListOf(Pair(Blob(4), Pair(Num(4), Num(4))));
    if exports.None? { return None; }
    var relocs := rd.ListOf(RelocCodec());
    if relocs.None? { return None; }
    var heap := rd.Number(8);
    if heap.None? { return None; }
    r := Some((exports.value, (relocs.value, heap.value)));
  }

  method ReadHelpers(rd: Reader) returns (r: Option<Raw3>)
    modifies rd
    ensures Took(Raw3Codec().dec(rd.bytes, old(rd.pos)), r, rd.pos)
  {
    hide Raw4Codec, ListDec, FlaggedDec, List, Flagged, Blob, Num;
    var hs := rd.Slots(6);
    if hs.None? { return None; }
    var es := rd.Slots(8);
    if es.None? { return None; }
    var names := rd.ListOf(Pair(Blob(4), Blob(4)));
    if names.None? { return None; }
    var bases := rd.ListOf(Num(8));
    if bases.None? { return None; }
    var rest := ReadExports(rd);
    if rest.None? { return None; }
    r := Some((hs.value, (es.value, (names.value, (bases.value, rest.value)))));
  }

  method ReadBody(rd: Reader) returns (r: Option<Body>)
    modifies rd
    ensures Took(BodyCodec().dec(rd.bytes, old(rd.pos)), r, rd.pos)
  {
    hide Raw3Codec, ListDec, BlobDec, List, Blob, Num;
    var code := rd.Block(8);
    if code.None? { return None; }
    var data := rd.Block(8);
    if data.None? { return None; }
    var fns := rd.ListOf(Num(8));
    if fns.None? { return None; }
    var vts := rd.ListOf(Num(8));
    if vts.None? { return None; }
    var sts := rd.ListOf(Num(8));
    if sts.None? { return None; }
    var rest := ReadHelpers(rd);
    if rest.None? { return None; }
    r := BodyOf((code.value, (data.value, (fns.value, (vts.value, (sts.value, rest.value))))));
  }

  method TrailingNames(rd: Reader) returns (r: Option<seq<Bytes>>)
    modifies rd
    ensures Took(Trailing(Names(), [], rd.bytes, old(rd.pos)), r, rd.pos)
  {
    if rd.IsEmpty() { r := Some([]); } else { r := rd.ListOf(Blob(4)); }
  }

  method TrailingFlags(rd: Reader) returns (r: Option<seq<bool>>)
    modifies rd
    ensures Took(Trailing(List(BoolCodec()), [], rd.bytes, old(rd.pos)), r, rd.pos)
  {
    if rd.IsEmpty() { r := Some([]); } else { r := rd.ListOf(BoolCodec()); }
  }

  method TrailingInit(rd: Reader) returns (r: Option<Option<nat>>)
    modifies rd
    ensures Took(Trailing(InitCodec(), None, rd.bytes, old(rd.pos)), r, rd.pos)
  {
    if rd.IsEmpty() { return Some(None); }
    var x := rd.Number(4);
    if x.None? { return None; }
    r := Some(if x.value == NO_INIT then None else Some(x.value));
  }

  method TrailingStrip(rd: Reader) returns (r: Option<bool>)
    modifies rd
    ensures Took(Trailing(BoolCodec(), false, rd.bytes, old(rd.pos)), r, rd.pos)
  {
    if rd.IsEmpty() { return Some(false); }
    var x := rd.Number(1);
    if x.None? { return None; }
    r := Some(x.value != 0);
  }

  /** Magic, body, then each trailing section as long as bytes are left. */
  method ReadMachineCode(bytes: Bytes) returns (r: Option<MachineCode>)
    ensures r == Decode(bytes)
  {
    hide BodyCodec, Names, BoolCodec, InitCodec, List, Trailing;
    var rd := new Reader(bytes, 0);
    var magic := rd.Number(4);
    if magic != Some(MAGIC) { return None; }
    var body := ReadBody(rd);
    if body.None? { return None; }
    var vts := TrailingNames(rd);
    if vts.None? { return None; }
    var sts := TrailingNames(rd);
    if sts.None? { return None; }
    var recv := TrailingFlags(rd);
    if recv.None? { return None; }
    var init := TrailingInit(rd);
    if init.None? { return None; }
    var strip := TrailingStrip(rd);
    if strip.None? { return None; }
    r := Some(MachineCode(body.value, vts.value, sts.value, recv.value, init.value, strip.value));
  }
}
