/** Binary formats: an encoder, the reader that undoes it, and the values it is for. */
module Codec {
  import opened Ir
  import opened Words
  import opened Encoding
  import opened Decoder
  import opened RoundTrip

  /** What a reader makes of the bytes from a position: a value and the next position. */
  type Read<+T> = Option<(T, nat)>

  datatype Codec<!T> = Codec(enc: T -> Bytes, dec: (Bytes, nat) -> Read<T>, ok: T -> bool)

  /** From `p` on the text is a strict prefix of `e`, and then ends. */
  predicate Cut(b: Bytes, p: nat, e: Bytes) { p <= |b| < p + |e| && b[p..] == e[..|b| - p] }

  /** Reads back what it encodes, wherever that sits, and rejects it cut short. */
  ghost predicate Lawful<T(!new)>(c: Codec<T>) {
    && (forall x: T, b: Bytes, p: nat :: c.ok(x) && HasBytes(b, p, c.enc(x)) ==> c.dec(b, p) == Some((x, p + |c.enc(x)|)))
    && (forall x: T, b: Bytes, p: nat :: c.ok(x) && Cut(b, p, c.enc(x)) ==> c.dec(b, p) == None)
  }

  lemma ReadsIt<T(!new)>(c: Codec<T>, x: T, b: Bytes, p: nat)
    requires Lawful(c) && c.ok(x) && HasBytes(b, p, c.enc(x))
    ensures c.dec(b, p) == Some((x, p + |c.enc(x)|))
  {
  }

  lemma RejectsIt<T(!new)>(c: Codec<T>, x: T, b: Bytes, p: nat)
    requires Lawful(c) && c.ok(x) && Cut(b, p, c.enc(x))
    ensures c.dec(b, p) == None
  {
  }

  lemma CutSplit(b: Bytes, p: nat, x: Bytes, y: Bytes)
    requires Cut(b, p, x + y)
    ensures Cut(b, p, x) || (HasBytes(b, p, x) && Cut(b, p + |x|, y))
  {
    var n := |b| - p;
    if n < |x| {
      assert (x + y)[..n] == x[..n];
    } else {
      assert (x + y)[..n] == x + y[..n - |x|];
      assert b[p..][..|x|] == x && b[p..p + |x|] == b[p..][..|x|];
      assert b[p + |x|..] == b[p..][|x|..];
    }
  }

  // ---------- numbers and blobs ----------

  function NumDec(w: nat, b: Bytes, p: nat): Read<nat> {
    if Avail(b, p, w) then Some((Field(b, p, w), p + w)) else None
  }

  /** Unsigned little-endian integers of `w` bytes. */
  function Num(w: nat): Codec<nat> {
    Codec((x: nat) => LeBytes(x, w), (b, p) => NumDec(w, b, p), (x: nat) => x < Pow256(w))
  }

  lemma NumReads(w: nat, x: nat, b: Bytes, p: nat)
    requires x < Pow256(w) && HasBytes(b, p, LeBytes(x, w))
    ensures NumDec(w, b, p) == Some((x, p + w))
  {
    FieldOfLe(b, p, x, w);
    SmallMod(x, Pow256(w));
  }

  lemma SmallMod(x: nat, m: nat)
    requires x < m
    ensures x % m == x
  {
  }

  lemma NumCut(w: nat, x: nat, b: Bytes, p: nat)
    requires Cut(b, p, LeBytes(x, w))
    ensures NumDec(w, b, p) == None
  {
  }

  lemma NumLawful(w: nat)
    ensures Lawful(Num(w))
  {
    hide HasBytes, Cut, LeBytes, NumDec, Pow256;
    forall x: nat, b: Bytes, p: nat | x < Pow256(w) && HasBytes(b, p, LeBytes(x, w))
      ensures NumDec(w, b, p) == Some((x, p + |LeBytes(x, w)|))
    {
      NumReads(w, x, b, p);
    }
    forall x: nat, b: Bytes, p: nat | x < Pow256(w) && Cut(b, p, LeBytes(x, w))
      ensures NumDec(w, b, p) == None
    {
      NumCut(w, x, b, p);
    }
  }

  lemma BytesRead(b: Bytes, p: nat, s: Bytes)
    requires HasBytes(b, p, s)
    ensures Avail(b, p, |s|) && b[p..p + |s|] == s
  {
  }

  lemma BytesCut(b: Bytes, p: nat, s: Bytes)
    requires Cut(b, p, s)
    ensures !Avail(b, p, |s|)
  {
  }

  function BlobDec(w: nat, b: Bytes, p: nat): Read<Bytes> {
    match NumDec(w, b, p)
    case Some((n, q)) => if Avail(b, q, n) then Some((b[q..q + n], q + n)) else None
    case None => None
  }

  /** A length of `w` bytes, then that many bytes. */
  function Blob(w: nat): Codec<Bytes> {
    Codec((s: Bytes) => LeBytes(|s|, w) + s, (b, p) => BlobDec(w, b, p), (s: Bytes) => |s| < Pow256(w))
  }

  lemma BlobLawful(w: nat)
    ensures Lawful(Blob(w))
  {
    hide HasBytes, Cut, LeBytes, NumDec, Pow256;
    forall s: Bytes, b: Bytes, p: nat | Blob(w).ok(s) && HasBytes(b, p, Blob(w).enc(s))
      ensures Blob(w).dec(b, p) == Some((s, p + |Blob(w).enc(s)|))
    {
      HasSplit(b, p, LeBytes(|s|, w), s);
      NumReads(w, |s|, b, p);
      BytesRead(b, p + w, s);
    }
    forall s: Bytes, b: Bytes, p: nat | Blob(w).ok(s) && Cut(b, p, Blob(w).enc(s))
      ensures Blob(w).dec(b, p) == None
    {
      CutSplit(b, p, LeBytes(|s|, w), s);
      if Cut(b, p, LeBytes(|s|, w)) {
        NumCut(w, |s|, b, p);
      } else {
        NumReads(w, |s|, b, p);
        BytesCut(b, p + w, s);
      }
    }
  }

  // ---------- composition ----------

  function PairDec<S, T>(c: Codec<S>, d: Codec<T>, b: Bytes, p: nat): Read<(S, T)> {
    match c.dec(b, p)
    case None => None
    case Some((x, q)) => match d.dec(b, q)
      case None => None
      case Some((y, r)) => Some(((x, y), r))
  }

  function Pair<S, T>(c: Codec<S>, d: Codec<T>): Codec<(S, T)> {
    Codec((xy: (S, T)) => c.enc(xy.0) + d.enc(xy.1), (b, p) => PairDec(c, d, b, p), (xy: (S, T)) => c.ok(xy.0) &&
        d.ok(xy.1))
  }

  lemma PairLawful<S(!new), T(!new)>(c: Codec<S>, d: Codec<T>)
    requires Lawful(c) && Lawful(d)
    ensures Lawful(Pair(c, d))
  {
    hide HasBytes, Cut;
    var cd := Pair(c, d);
    forall xy: (S, T), b: Bytes, p: nat | cd.ok(xy) && HasBytes(b, p, cd.enc(xy))
      ensures cd.dec(b, p) == Some((xy, p + |cd.enc(xy)|))
    {
      HasSplit(b, p, c.enc(xy.0), d.enc(xy.1));
    }
    forall xy: (S, T), b: Bytes, p: nat | cd.ok(xy) && Cut(b, p, cd.enc(xy))
      ensures cd.dec(b, p) == None
    {
      CutSplit(b, p, c.enc(xy.0), d.enc(xy.1));
    }
  }

  function EncAll<T>(c: Codec<T>, xs: seq<T>): Bytes { if xs == [] then [] else c.enc(xs[0]) + EncAll(c, xs[1..]) }

  function DecAll<T>(c: Codec<T>, b: Bytes, p: nat, n: nat): Read<seq<T>>
    decreases n
  {
    if n == 0 then Some(([], p))
    else match c.dec(b, p)
      case None => None
      case Some((x, q)) => match DecAll(c, b, q, n - 1)
        case None => None
        case Some((xs, r)) => Some(([x] + xs, r))
  }

  predicate AllOk<T>(c: Codec<T>, xs: seq<T>) { forall i :: 0 <= i < |xs| ==> c.ok(xs[i]) }

  lemma {:induction false} AllRead<T(!new)>(c: Codec<T>, xs: seq<T>, b: Bytes, p: nat)
    requires Lawful(c) && AllOk(c, xs) && HasBytes(b, p, EncAll(c, xs))
    ensures DecAll(c, b, p, |xs|) == Some((xs, p + |EncAll(c, xs)|))
    decreases |xs|
  {
    hide Lawful, HasBytes;
    if xs != [] {
      HasSplit(b, p, c.enc(xs[0]), EncAll(c, xs[1..]));
      ReadsIt(c, xs[0], b, p);
      AllRead(c, xs[1..], b, p + |c.enc(xs[0])|);
      assert [xs[0]] + xs[1..] == xs;
    }
  }

  lemma {:induction false} AllCut<T(!new)>(c: Codec<T>, xs: seq<T>, b: Bytes, p: nat)
    requires Lawful(c) && AllOk(c, xs) && Cut(b, p, EncAll(c, xs))
    ensures DecAll(c, b, p, |xs|) == None
    decreases |xs|
  {
    hide Lawful, HasBytes;
    EmptyNotCut(b, p);
    CutSplit(b, p, c.enc(xs[0]), EncAll(c, xs[1..]));
    if Cut(b, p, c.enc(xs[0])) {
      RejectsIt(c, xs[0], b, p);
    } else {
      ReadsIt(c, xs[0], b, p);
      AllCut(c, xs[1..], b, p + |c.enc(xs[0])|);
    }
  }

  lemma EmptyNotCut(b: Bytes, p: nat)
    ensures !Cut(b, p, [])
  {
  }

  function ListDec<T>(c: Codec<T>, b: Bytes, p: nat): Read<seq<T>> {
    match NumDec(4, b, p) case Some((n, q)) => DecAll(c, b, q, n) case None => None
  }

  /** A 32-bit count, then the elements. */
  function List<T>(c: Codec<T>): Codec<seq<T>> {
    Codec((xs: seq<T>) => LeBytes(|xs|, 4) + EncAll(c, xs), (b, p) => ListDec(c, b, p),
          (xs: seq<T>) => |xs| < Pow256(4) && AllOk(c, xs))
  }

  lemma ListLawful<T(!new)>(c: Codec<T>)
    requires Lawful(c)
    ensures Lawful(List(c))
  {
    hide Lawful, LeBytes, EncAll, DecAll, Pow256, HasBytes, Cut, NumDec;
    LawfulIs(List(c));
    forall xs: seq<T>, b: Bytes, p: nat | List(c).ok(xs) && HasBytes(b, p, List(c).enc(xs))
      ensures List(c).dec(b, p) == Some((xs, p + |List(c).enc(xs)|))
    {
      HasSplit(b, p, LeBytes(|xs|, 4), EncAll(c, xs));
      NumReads(4, |xs|, b, p);
      AllRead(c, xs, b, p + 4);
    }
    forall xs: seq<T>, b: Bytes, p: nat | List(c).ok(xs) && Cut(b, p, List(c).enc(xs))
      ensures List(c).dec(b, p) == None
    {
      CutSplit(b, p, LeBytes(|xs|, 4), EncAll(c, xs));
      if Cut(b, p, LeBytes(|xs|, 4)) {
        NumCut(4, |xs|, b, p);
      } else {
        NumReads(4, |xs|, b, p);
        AllCut(c, xs, b, p + 4);
      }
    }
  }

  lemma LawfulIs<T(!new)>(c: Codec<T>)
    ensures Lawful(c) <==>
      && (forall x: T, b: Bytes, p: nat :: c.ok(x) && HasBytes(b, p, c.enc(x)) ==> c.dec(b, p) == Some((x, p + |c.enc(x)|)))
      && (forall x: T, b: Bytes, p: nat :: c.ok(x) && Cut(b, p, c.enc(x)) ==> c.dec(b, p) == None)
  {
  }

  // ---------- another view of the same bytes ----------

  function ViewDec<S, T>(c: Codec<S>, back: S -> Option<T>, b: Bytes, p: nat): Read<T> {
    match c.dec(b, p)
    case None => None
    case Some((x, q)) => match back(x) case Some(y) => Some((y, q)) case None => None
  }

  /** Values of `T` written as values of `S`; some values of `S` may mean nothing. */
  function View<S, T>(c: Codec<S>, to: T -> S, back: S -> Option<T>, ok: T -> bool): Codec<T> {
    Codec((y: T) => c.enc(to(y)), (b, p) => ViewDec(c, back, b, p), (y: T) => ok(y) && c.ok(to(y)))
  }

  lemma ViewLawful<S(!new), T(!new)>(c: Codec<S>, to: T -> S, back: S -> Option<T>, ok: T -> bool)
    requires Lawful(c) && forall y :: ok(y) ==> back(to(y)) == Some(y)
    ensures Lawful(View(c, to, back, ok))
  {
    hide Lawful, HasBytes, Cut;
    var v := View(c, to, back, ok);
    LawfulIs(v);
    forall y: T, b: Bytes, p: nat | v.ok(y) && HasBytes(b, p, v.enc(y))
      ensures v.dec(b, p) == Some((y, p + |v.enc(y)|))
    {
      ReadsIt(c, to(y), b, p);
    }
    forall y: T, b: Bytes, p: nat | v.ok(y) && Cut(b, p, v.enc(y))
      ensures v.dec(b, p) == None
    {
      RejectsIt(c, to(y), b, p);
    }
  }

  // ---------- flagged words ----------

  /** Bit i of the flag byte says whether word i is present. */
  function FlagBits(os: seq<Option<nat>>): nat {
    if os == [] then 0 else (if os[0].Some? then 1 else 0) + 2 * FlagBits(os[1..])
  }

  function SlotsEnc(os: seq<Option<nat>>): Bytes {
    if os == [] then [] else (if os[0].Some? then LeBytes(os[0].value, 8) else []) + SlotsEnc(os[1..])
  }

  function SlotsDec(b: Bytes, p: nat, flags: nat, k: nat): Read<seq<Option<nat>>>
    decreases k
  {
    if k == 0 then Some(([], p))
    else if flags % 2 == 1 then
      match NumDec(8, b, p)
      case None => None
      case Some((x, q)) => match SlotsDec(b, q, flags / 2, k - 1)
        case None => None
        case Some((os, r)) => Some(([Some(x)] + os, r))
    else match SlotsDec(b, p, flags / 2, k - 1)
      case None => None
      case Some((os, r)) => Some(([None] + os, r))
  }

  predicate SlotsOk(os: seq<Option<nat>>) { forall i :: 0 <= i < |os| && os[i].Some? ==> os[i].value < Pow256(8) }

  lemma {:induction false} SlotsRead(os: seq<Option<nat>>, b: Bytes, p: nat)
    requires SlotsOk(os) && HasBytes(b, p, SlotsEnc(os))
    ensures SlotsDec(b, p, FlagBits(os), |os|) == Some((os, p + |SlotsEnc(os)|))
    decreases |os|
  {
    hide HasBytes, LeBytes, NumDec, Pow256;
    if os != [] {
      var e := if os[0].Some? then LeBytes(os[0].value, 8) else [];
      HasSplit(b, p, e, SlotsEnc(os[1..]));
      if os[0].Some? { NumReads(8, os[0].value, b, p); }
      SlotsRead(os[1..], b, p + |e|);
      assert [os[0]] + os[1..] == os;
    }
  }

  lemma {:induction false} SlotsCut(os: seq<Option<nat>>, b: Bytes, p: nat)
    requires SlotsOk(os) && Cut(b, p, SlotsEnc(os))
    ensures SlotsDec(b, p, FlagBits(os), |os|) == None
    decreases |os|
  {
    hide HasBytes, LeBytes, NumDec, Pow256, Cut, FlagBits, SlotsOk;
    EmptyNotCut(b, p);
    RestOk(os);
    var e := if os[0].Some? then LeBytes(os[0].value, 8) else [];
    CutSplit(b, p, e, SlotsEnc(os[1..]));
    if Cut(b, p, e) {
      NumCut(8, os[0].value, b, p);
    } else {
      if os[0].Some? { NumReads(8, os[0].value, b, p); }
      SlotsCut(os[1..], b, p + |e|);
    }
  }

  lemma RestOk(os: seq<Option<nat>>)
    requires os != [] && SlotsOk(os)
    ensures SlotsOk(os[1..]) && (os[0].Some? ==> os[0].value < Pow256(8))
    ensures FlagBits(os) % 2 == (if os[0].Some? then 1 else 0) && FlagBits(os) / 2 == FlagBits(os[1..])
  {
    hide Pow256, FlagBits;
    var rest := os[1..];
    forall i | 0 <= i < |rest| && rest[i].Some? ensures rest[i].value < Pow256(8) { assert rest[i] == os[i + 1]; }
    FlagsUnfold(os);
  }

  lemma FlagsUnfold(os: seq<Option<nat>>)
    requires os != []
    ensures FlagBits(os) == (if os[0].Some? then 1 else 0) + 2 * FlagBits(os[1..])
  {
  }

  lemma FlagRange(os: seq<Option<nat>>)
    requires |os| <= 8
    ensures FlagBits(os) < 256
  {
    FlagBound(os, 8);
    assert Pow2(8) == 256;
  }

  lemma FlagBound(os: seq<Option<nat>>, k: nat)
    requires |os| <= k
    ensures FlagBits(os) < Pow2(k)
    decreases k
  {
    if os != [] { FlagBound(os[1..], k - 1); }
  }

  function FlaggedDec(k: nat, b: Bytes, p: nat): Read<seq<Option<nat>>> {
    match NumDec(1, b, p) case Some((flags, q)) => SlotsDec(b, q, flags, k) case None => None
  }

  /** A flag byte, then the words that are present. */
  function Flagged(k: nat): Codec<seq<Option<nat>>> {
    Codec((os: seq<Option<nat>>) => LeBytes(FlagBits(os), 1) + SlotsEnc(os), (b, p) => FlaggedDec(k, b, p),
          (os: seq<Option<nat>>) => |os| == k && SlotsOk(os))
  }

  lemma FlaggedLawful(k: nat)
    requires k <= 8
    ensures Lawful(Flagged(k))
  {
    hide HasBytes, LeBytes, NumDec, Pow256, Cut, SlotsEnc, SlotsDec, FlagBits, SlotsOk;
    assert Pow256(1) == 256 by { PowValues(); }
    forall os: seq<Option<nat>>, b: Bytes, p: nat | Flagged(k).ok(os) && HasBytes(b, p, Flagged(k).enc(os))
      ensures Flagged(k).dec(b, p) == Some((os, p + |Flagged(k).enc(os)|))
    {
      FlagRange(os);
      HasSplit(b, p, LeBytes(FlagBits(os), 1), SlotsEnc(os));
      NumReads(1, FlagBits(os), b, p);
      SlotsRead(os, b, p + 1);
    }
    forall os: seq<Option<nat>>, b: Bytes, p: nat | Flagged(k).ok(os) && Cut(b, p, Flagged(k).enc(os))
      ensures Flagged(k).dec(b, p) == None
    {
      FlagRange(os);
      CutSplit(b, p, LeBytes(FlagBits(os), 1), SlotsEnc(os));
      if Cut(b, p, LeBytes(FlagBits(os), 1)) {
        NumCut(1, FlagBits(os), b, p);
      } else {
        NumReads(1, FlagBits(os), b, p);
        SlotsCut(os, b, p + 1);
      }
    }
  }

  // ---------- the position-based reader ----------

  /** A read from the old position produced `r` and moved to `pos`, or failed. */
  predicate Took<T(==)>(d: Read<T>, r: Option<T>, pos: nat) {
    match d case Some((x, q)) => r == Some(x) && pos == q case None => r == None
  }

  lemma {:induction false} DecAllStep<T>(c: Codec<T>, b: Bytes, p: nat, n: nat, xs: seq<T>, whole: Read<seq<T>>)
    requires n > 0 && whole == Prepend(xs, DecAll(c, b, p, n))
    ensures match c.dec(b, p)
            case None => whole == None
            case Some((x, q)) => whole == Prepend(xs + [x], DecAll(c, b, q, n - 1))
  {
    match c.dec(b, p) {
      case None =>
      case Some((x, q)) =>
        match DecAll(c, b, q, n - 1) {
          case None =>
          case Some((ys, _)) => assert xs + ([x] + ys) == xs + [x] + ys;
        }
    }
  }

  function Prepend<T>(xs: seq<T>, d: Read<seq<T>>): Read<seq<T>> {
    match d case None => None case Some((ys, q)) => Some((xs + ys, q))
  }

  lemma SlotsStep(b: Bytes, p: nat, f: nat, k: nat, os: seq<Option<nat>>, whole: Read<seq<Option<nat>>>)
    requires k > 0 && whole == Prepend(os, SlotsDec(b, p, f, k))
    ensures f % 2 == 1 ==>
      match NumDec(8, b, p)
      case None => whole == None
      case Some((x, q)) => whole == Prepend(os + [Some(x)], SlotsDec(b, q, f / 2, k - 1))
    ensures f % 2 == 0 ==> whole == Prepend(os + [None], SlotsDec(b, p, f / 2, k - 1))
  {
    hide NumDec;
    if f % 2 == 1 {
      match NumDec(8, b, p) {
        case None =>
        case Some((x, q)) => PrependOne(os, Some(x), SlotsDec(b, q, f / 2, k - 1));
      }
    } else {
      PrependOne(os, None, SlotsDec(b, p, f / 2, k - 1));
    }
  }

  class Reader {
    const bytes: Bytes
    var pos: nat

    constructor (bytes: Bytes, pos: nat)
      ensures this.bytes == bytes && this.pos == pos
    {
      this.bytes, this.pos := bytes, pos;
    }

    predicate IsEmpty()
      reads this
    {
      pos >= |bytes|
    }

    method Number(w: nat) returns (r: Option<nat>)
      modifies this
      ensures Took(Num(w).dec(bytes, old(pos)), r, pos)
    {
      if pos + w > |bytes| { return None; }
      r := Some(Field(bytes, pos, w));
      pos := pos + w;
    }

    method Block(w: nat) returns (r: Option<Bytes>)
      modifies this
      ensures Took(Blob(w).dec(bytes, old(pos)), r, pos)
    {
      var n := Number(w);
      if n.None? || pos + n.value > |bytes| { return None; }
      r := Some(bytes[pos..pos + n.value]);
      pos := pos + n.value;
    }

    /** A count, then that many elements, stopping at the first bad one. */
    method ListOf<T>(c: Codec<T>) returns (r: Option<seq<T>>)
      modifies this
      ensures match List(c).dec(bytes, old(pos))
              case Some((xs, q)) => r.Some? && r.value == xs && pos == q
              case None => r.None?
    {
      var n := Number(4);
      if n.None? { return None; }
      ghost var whole := DecAll(c, bytes, pos, n.value);
      var xs, left := [], n.value;
      PrependNone(whole);
      while left > 0
        invariant 0 <= left && whole == Prepend(xs, DecAll(c, bytes, pos, left))
      {
        DecAllStep(c, bytes, pos, left, xs, whole);
        match c.dec(bytes, pos) {
          case None => return None;
          case Some((x, q)) =>
            xs := xs + [x];
            pos := q;
        }
        left := left - 1;
      }
      r := Some(xs);
    }

    /** Flags, then the words they announce. */
    method Slots(k: nat) returns (r: Option<seq<Option<nat>>>)
      modifies this
      ensures Took(Flagged(k).dec(bytes, old(pos)), r, pos)
    {
      hide SlotsDec, Prepend;
      var flags := Number(1);
      if flags.None? { return None; }
      var f, i, os := flags.value, 0, [];
      ghost var whole := SlotsDec(bytes, pos, f, k);
      PrependNone(whole);
      while i < k
        invariant 0 <= i <= k && whole == Prepend(os, SlotsDec(bytes, pos, f, k - i))
      {
        SlotsStep(bytes, pos, f, k - i, os, whole);
        if f % 2 == 1 {
          var x := Number(8);
          if x.None? { return None; }
          os := os + [Some(x.value)];
        } else {
          os := os + [None];
        }
        f, i := f / 2, i + 1;
      }
      PrependDone(os, bytes, pos, f);
      r := Some(os);
    }
  }

  lemma PrependDone(os: seq<Option<nat>>, b: Bytes, p: nat, f: nat)
    ensures Prepend(os, SlotsDec(b, p, f, 0)) == Some((os, p))
  {
    assert os + [] == os;
  }

  lemma PrependNone<T>(d: Read<seq<T>>)
    ensures Prepend([], d) == d
  {
    match d { case None => case Some((xs, _)) => assert [] + xs == xs; }
  }

  lemma PrependOne<T>(xs: seq<T>, x: T, d: Read<seq<T>>)
    ensures Prepend(xs, Prepend([x], d)) == Prepend(xs + [x], d)
  {
    match d { case None => case Some((ys, _)) => assert xs + ([x] + ys) == xs + [x] + ys; }
  }
}
