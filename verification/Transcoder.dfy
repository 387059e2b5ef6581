/** The UTF-8 to UTF-16 loop emitted for the program's arguments. */
module Transcoder {
  import opened Ir
  import opened Encoding

  type Byte = bv8
  type CodePoint = bv32
  type Unit = bv16

  const REPLACEMENT: Unit := 0xFFFD

  // ---------- encodings ----------

  predicate IsScalar(c: CodePoint) { c < 0xD800 || (0xE000 <= c && c <= 0x10FFFF) }

  function Low8(x: bv32): Byte { (x & 0xFF) as bv8 }

  function Low16(x: bv32): Unit { (x & 0xFFFF) as bv16 }

  /** RFC 3629 section 3. */
  function Utf8(c: CodePoint): (s: seq<Byte>)
    ensures 1 <= |s| <= 4
  {
    if c < 0x80 then [Low8(c)]
    else if c < 0x800 then [Low8(0xC0 | (c >> 6)), Low8(0x80 | (c & 0x3F))]
    else if c < 0x10000 then [Low8(0xE0 | (c >> 12)), Low8(0x80 | ((c >> 6) & 0x3F)), Low8(0x80 | (c & 0x3F))]
    else [Low8(0xF0 | (c >> 18)), Low8(0x80 | ((c >> 12) & 0x3F)), Low8(0x80 | ((c >> 6) & 0x3F)), Low8(0x80 | (c & 0x3F))]
  }

  /** RFC 2781 section 2.1. */
  function Utf16(c: CodePoint): (s: seq<Unit>)
    ensures 1 <= |s| <= 2
  {
    if c < 0x10000 then [Low16(c)]
    else [HighHalf(c), LowHalf(c)]
  }

  function HighHalf(c: CodePoint): Unit { Low16(0xD800 + ((c - 0x10000) >> 10)) }

  function LowHalf(c: CodePoint): Unit { Low16(0xDC00 + ((c - 0x10000) & 0x3FF)) }

  function Utf8All(cs: seq<CodePoint>): seq<Byte> { if cs == [] then [] else Utf8(cs[0]) + Utf8All(cs[1..]) }

  function Utf16All(cs: seq<CodePoint>): seq<Unit> { if cs == [] then [] else Utf16(cs[0]) + Utf16All(cs[1..]) }

  // ---------- what the loop should produce ----------

  /** The text begins with the encoding of the scalar value `c`. */
  predicate Starts(s: seq<Byte>, c: CodePoint) { IsScalar(c) && Utf8(c) <= s }

  /** Strict decoding: a scalar value where one is encoded, else U+FFFD for one byte. */
  ghost function Strict(s: seq<Byte>): seq<Unit>
    decreases |s|
  {
    if s == [] then []
    else if exists c :: Starts(s, c) then
      var c :| Starts(s, c);
      Utf16(c) + Strict(s[|Utf8(c)|..])
    else [REPLACEMENT] + Strict(s[1..])
  }

  function FoldLead(b: Byte): Byte { b & 0xF7 }

  /** Leads F8..FF are read as F0..F7: only three bits of a four-byte lead are kept. */
  function Folded(s: seq<Byte>): seq<Byte> {
    if s != [] && s[0] >= 0xF8 then [FoldLead(s[0])] + s[1..] else s
  }

  /** What the loop produces: strict decoding of the text with its lead folded. */
  ghost function Lenient(s: seq<Byte>): seq<Unit>
    decreases |s|
  {
    if s == [] then []
    else if exists c :: Starts(Folded(s), c) then
      var c :| Starts(Folded(s), c);
      Utf16(c) + Lenient(s[|Utf8(c)|..])
    else [REPLACEMENT] + Lenient(s[1..])
  }

  // ---------- sequences of each length ----------

  predicate IsTail(b: Byte) { b & 0xC0 == 0x80 }

  function Two(b0: Byte, b1: Byte): (c: CodePoint)
    ensures c < 0x800 && (0xC2 <= b0 < 0xE0 ==> c >= 0x80)
  {
    ((b0 as bv32 & 0x1F) << 6) | (b1 as bv32 & 0x3F)
  }

  function Three(b0: Byte, b1: Byte, b2: Byte): (c: CodePoint)
    ensures c < 0x10000
  {
    ((b0 as bv32 & 0x0F) << 12) | ((b1 as bv32 & 0x3F) << 6) | (b2 as bv32 & 0x3F)
  }

  function Four(b0: Byte, b1: Byte, b2: Byte, b3: Byte): CodePoint {
    ((b0 as bv32 & 7) << 18) | ((b1 as bv32 & 0x3F) << 12) | ((b2 as bv32 & 0x3F) << 6) | (b3 as bv32 & 0x3F)
  }

  /** The tail byte carrying the six bits of `x`. */
  function Tail(x: bv32): (b: Byte)
    ensures IsTail(b)
  {
    Low8(0x80 | (x & 0x3F))
  }

  lemma OneExact(b0: Byte, c: CodePoint)
    ensures c < 0x80 && Utf8(c) == [b0] <==> b0 < 0x80 && c == b0 as bv32
  {
  }

  lemma TwoExact(b0: Byte, b1: Byte, c: CodePoint)
    ensures 0x80 <= c < 0x800 && Utf8(c) == [b0, b1] <==> 0xC2 <= b0 < 0xE0 && IsTail(b1) && c == Two(b0, b1)
  {
  }

  lemma TailBack(b: Byte, x: bv32)
    requires IsTail(b) && x & 0x3F == b as bv32 & 0x3F
    ensures Tail(x) == b
  {
  }

  lemma ThreeBack(c: CodePoint)
    requires 0x800 <= c < 0x10000
    ensures var b0 := Low8(0xE0 | (c >> 12));
            0xE0 <= b0 < 0xF0 && Three(b0, Tail(c >> 6), Tail(c)) == c
  {
  }

  lemma ThreeParts(b0: Byte, b1: Byte, b2: Byte)
    requires 0xE0 <= b0 < 0xF0
    ensures var c := Three(b0, b1, b2);
            && c < 0x10000 && Low8(0xE0 | (c >> 12)) == b0
            && (c >> 6) & 0x3F == b1 as bv32 & 0x3F && c & 0x3F == b2 as bv32 & 0x3F
  {
  }

  lemma ThreeOf(b0: Byte, b1: Byte, b2: Byte, c: CodePoint)
    requires 0x800 <= c < 0x10000 && Utf8(c) == [b0, b1, b2]
    ensures 0xE0 <= b0 < 0xF0 && IsTail(b1) && IsTail(b2) && c == Three(b0, b1, b2)
  {
    hide *;
    ThreeForm(c);
    ThreeBack(c);
    assert [b0, b1, b2][0] == b0 && [b0, b1, b2][1] == b1 && [b0, b1, b2][2] == b2;
  }

  lemma ThreeTo(b0: Byte, b1: Byte, b2: Byte)
    requires 0xE0 <= b0 < 0xF0 && IsTail(b1) && IsTail(b2) && Three(b0, b1, b2) >= 0x800
    ensures Three(b0, b1, b2) < 0x10000 && Utf8(Three(b0, b1, b2)) == [b0, b1, b2]
  {
    hide *;
    var c := Three(b0, b1, b2);
    ThreeParts(b0, b1, b2);
    TailBack(b1, c >> 6);
    TailBack(b2, c);
    ThreeForm(c);
  }

  lemma ThreeForm(c: CodePoint)
    requires 0x800 <= c < 0x10000
    ensures Utf8(c) == [Low8(0xE0 | (c >> 12)), Tail(c >> 6), Tail(c)]
  {
    hide Low8;
  }

  function Lead4(c: CodePoint): Byte { Low8(0xF0 | (c >> 18)) }
  function Tail12(c: CodePoint): Byte { Tail(c >> 12) }
  function Tail6(c: CodePoint): Byte { Tail(c >> 6) }

  lemma FourForm(c: CodePoint)
    requires 0x10000 <= c
    ensures Utf8(c) == [Lead4(c), Tail12(c), Tail6(c), Tail(c)]
  {
    hide Low8;
  }

  lemma FourBack(c: CodePoint)
    requires 0x10000 <= c <= 0x10FFFF
    ensures 0xF0 <= Lead4(c) < 0xF8 && Four(Lead4(c), Tail12(c), Tail6(c), Tail(c)) == c
  {
  }

  lemma FourOf(b0: Byte, b1: Byte, b2: Byte, b3: Byte, c: CodePoint)
    requires 0x10000 <= c <= 0x10FFFF && Utf8(c) == [b0, b1, b2, b3]
    ensures 0xF0 <= b0 < 0xF8 && IsTail(b1) && IsTail(b2) && IsTail(b3) && c == Four(b0, b1, b2, b3)
  {
    hide *;
    FourForm(c);
    FourBack(c);
    FourMarks(c);
    assert [b0, b1, b2, b3][0] == b0 && [b0, b1, b2, b3][1] == b1 && [b0, b1, b2, b3][2] == b2 && [b0, b1, b2, b3][3] == b3;
  }

  lemma FourMarks(c: CodePoint)
    ensures IsTail(Tail12(c)) && IsTail(Tail6(c)) && IsTail(Tail(c))
  {
  }

  lemma FourParts(b0: Byte, b1: Byte, b2: Byte, b3: Byte)
    requires 0xF0 <= b0 < 0xF8
    ensures Lead4(Four(b0, b1, b2, b3)) == b0
    ensures IsTail(b1) ==> Tail12(Four(b0, b1, b2, b3)) == b1
    ensures IsTail(b2) ==> Tail6(Four(b0, b1, b2, b3)) == b2
    ensures IsTail(b3) ==> Tail(Four(b0, b1, b2, b3)) == b3
  {
  }

  lemma FourTo(b0: Byte, b1: Byte, b2: Byte, b3: Byte)
    requires 0xF0 <= b0 < 0xF8 && IsTail(b1) && IsTail(b2) && IsTail(b3) && 0x10000 <= Four(b0, b1, b2, b3)
    ensures Utf8(Four(b0, b1, b2, b3)) == [b0, b1, b2, b3]
  {
    hide *;
    FourParts(b0, b1, b2, b3);
    FourForm(Four(b0, b1, b2, b3));
  }

  // ---------- the loop's decision ----------

  /** The scalar value the loop reads at the head of `s`, if it accepts one. */
  function Parse(s: seq<Byte>): Option<CodePoint>
    requires s != []
  {
    if s[0] < 0x80 then Some(s[0] as bv32)
    else if s[0] < 0xC2 then None
    else if s[0] < 0xE0 then
      if |s| > 1 && IsTail(s[1]) then Some(Two(s[0], s[1])) else None
    else if s[0] < 0xF0 then
      if |s| > 2 && IsTail(s[1]) && IsTail(s[2]) && Three(s[0], s[1], s[2]) >= 0x800 && IsScalar(Three(s[0], s[1], s[2]))
      then Some(Three(s[0], s[1], s[2])) else None
    else
      if |s| > 3 && IsTail(s[1]) && IsTail(s[2]) && IsTail(s[3]) && 0x10000 <= Four(s[0], s[1], s[2], s[3]) <= 0x10FFFF
      then Some(Four(s[0], s[1], s[2], s[3])) else None
  }

  lemma Prefix(s: seq<Byte>, p: seq<Byte>)
    requires p <= s
    ensures forall i :: 0 <= i < |p| ==> p[i] == s[i]
  {
    assert s[..|p|] == p;
  }

  lemma TwoOf(b0: Byte, b1: Byte, c: CodePoint)
    requires 0x80 <= c < 0x800 && Utf8(c) == [b0, b1]
    ensures 0xC2 <= b0 < 0xE0 && IsTail(b1) && c == Two(b0, b1)
  {
    TwoExact(b0, b1, c);
  }

  lemma TwoTo(b0: Byte, b1: Byte)
    requires 0xC2 <= b0 < 0xE0 && IsTail(b1)
    ensures 0x80 <= Two(b0, b1) < 0x800 && Utf8(Two(b0, b1)) == [b0, b1]
  {
    TwoExact(b0, b1, Two(b0, b1));
  }

  lemma OneOf(b0: Byte, c: CodePoint)
    requires c < 0x80 && Utf8(c) == [b0]
    ensures b0 < 0x80 && c == b0 as bv32
  {
    OneExact(b0, c);
  }

  lemma OneTo(b0: Byte)
    requires b0 < 0x80
    ensures b0 as bv32 < 0x80 && Utf8(b0 as bv32) == [b0]
  {
    OneExact(b0, b0 as bv32);
  }

  lemma Utf8Length(c: CodePoint)
    ensures |Utf8(c)| == if c < 0x80 then 1 else if c < 0x800 then 2 else if c < 0x10000 then 3 else 4
  {
  }

  /** A text that starts with an encoded scalar value is accepted as that value. */
  lemma StartsParses(s: seq<Byte>, c: CodePoint)
    requires s != [] && Starts(s, c)
    ensures Parse(s) == Some(c) && s[0] < 0xF8
  {
    hide Two, Three, Four, Utf8, IsTail;
    var p := Utf8(c);
    Utf8Length(c);
    Prefix(s, p);
    if c < 0x80 {
      assert p == [s[0]];
      OneOf(s[0], c);
    } else if c < 0x800 {
      assert p == [s[0], s[1]];
      TwoOf(s[0], s[1], c);
    } else if c < 0x10000 {
      assert p == [s[0], s[1], s[2]];
      ThreeOf(s[0], s[1], s[2], c);
    } else {
      assert p == [s[0], s[1], s[2], s[3]];
      FourOf(s[0], s[1], s[2], s[3], c);
    }
  }

  /** What is accepted is an encoded scalar value, apart from a folded lead. */
  lemma ParseStarts(s: seq<Byte>, c: CodePoint)
    requires s != [] && Parse(s) == Some(c) && s[0] < 0xF8
    ensures Starts(s, c)
  {
    hide Two, Three, Four, Utf8, IsTail;
    if s[0] < 0x80 {
      OneTo(s[0]);
      assert [s[0]] <= s;
    } else if s[0] < 0xE0 {
      TwoTo(s[0], s[1]);
      assert [s[0], s[1]] <= s;
    } else if s[0] < 0xF0 {
      ThreeTo(s[0], s[1], s[2]);
      assert [s[0], s[1], s[2]] <= s;
    } else {
      FourTo(s[0], s[1], s[2], s[3]);
      assert [s[0], s[1], s[2], s[3]] <= s;
    }
  }

  lemma FoldBits(b: Byte, b1: Byte, b2: Byte, b3: Byte)
    requires b >= 0xF8
    ensures 0xF0 <= FoldLead(b) < 0xF8 && Four(FoldLead(b), b1, b2, b3) == Four(b, b1, b2, b3)
  {
  }

  lemma ParseFolded(s: seq<Byte>)
    requires s != []
    ensures Parse(Folded(s)) == Parse(s) && Folded(s)[0] < 0xF8 && |Folded(s)| == |s|
  {
    hide Four, Three, Two, IsTail, IsScalar, FoldLead;
    if s[0] >= 0xF8 {
      assert forall i :: 0 < i < |s| ==> Folded(s)[i] == s[i];
      FoldBits(s[0], 0, 0, 0);
      if |s| > 3 { FoldBits(s[0], s[1], s[2], s[3]); }
    }
  }

  /** The loop accepts `c` exactly when the text, its lead folded, starts with `c`. */
  lemma ParseExact(s: seq<Byte>, c: CodePoint)
    requires s != []
    ensures Parse(s) == Some(c) <==> Starts(Folded(s), c)
  {
    hide Parse, Starts, Folded;
    ParseFolded(s);
    if Parse(s) == Some(c) { ParseStarts(Folded(s), c); }
    if Starts(Folded(s), c) { StartsParses(Folded(s), c); }
  }

  lemma LenientStep(s: seq<Byte>)
    requires s != []
    ensures Parse(s).Some? ==> |Utf8(Parse(s).value)| <= |s|
    ensures Parse(s).Some? ==> Lenient(s) == Utf16(Parse(s).value) + Lenient(s[|Utf8(Parse(s).value)|..])
    ensures Parse(s).None? ==> Lenient(s) == [REPLACEMENT] + Lenient(s[1..])
  {
    hide Parse, Utf8, Utf16;
    forall c
      ensures Parse(s) == Some(c) <==> Starts(Folded(s), c)
    {
      ParseExact(s, c);
    }
    ParseFolded(s);
    if Parse(s).Some? { assert Starts(Folded(s), Parse(s).value); }
  }

  // ---------- the loop ----------

  /** One turn: the scalar at `rcx` and its length, or the jump to `invalid`. Every
      read is below the length. */
  method Next(src: seq<Byte>, rcx: nat) returns (ok: bool, eax: CodePoint, n: nat)
    requires rcx < |src|
    ensures ok <==> Parse(src[rcx..]).Some?
    ensures ok ==> eax == Parse(src[rcx..]).value && n == |Utf8(eax)| && rcx + n <= |src| && (eax >= 0x10000 ==> n == 4)
  {
    hide Two, Three, Four, Utf8, Starts, IsTail;
    ghost var s := src[rcx..];
    if Parse(s).Some? {
      Utf8Length(Parse(s).value);
      ParseExact(s, Parse(s).value);
      Accepted(s);
    }
    ok, n, eax := false, 1, src[rcx] as bv32;
    if src[rcx] < 0x80 { return true, eax, 1; }
    if src[rcx] < 0xC2 { return; }
    if rcx + 1 >= |src| || !IsTail(src[rcx + 1]) { return; }
    if src[rcx] < 0xE0 { return true, Two(src[rcx], src[rcx + 1]), 2; }
    if rcx + 2 >= |src| || !IsTail(src[rcx + 2]) { return; }
    if src[rcx] < 0xF0 {
      eax := Three(src[rcx], src[rcx + 1], src[rcx + 2]);
      if eax < 0x800 { return; }
      if 0xD800 <= eax && eax <= 0xDFFF { return; }
      return true, eax, 3;
    }
    if rcx + 3 >= |src| || !IsTail(src[rcx + 3]) { return; }
    eax := Four(src[rcx], src[rcx + 1], src[rcx + 2], src[rcx + 3]);
    if eax < 0x10000 || eax > 0x10FFFF { return; }
    return true, eax, 4;
  }

  /** Accepted values by the length of their sequence. */
  lemma Accepted(s: seq<Byte>)
    requires s != [] && Parse(s).Some?
    ensures var c := Parse(s).value;
            if s[0] < 0x80 then c < 0x80 else if s[0] < 0xE0 then 0x80 <= c < 0x800
            else if s[0] < 0xF0 then 0x800 <= c < 0x10000 else 0x10000 <= c <= 0x10FFFF
  {
    hide *;
    if s[0] < 0x80 {
      AcceptedOne(s);
    } else if s[0] < 0xE0 {
      AcceptedTwo(s);
    } else if s[0] < 0xF0 {
      AcceptedThree(s);
    } else {
      AcceptedFour(s);
    }
  }

  lemma AcceptedOne(s: seq<Byte>)
    requires s != [] && s[0] < 0x80
    ensures Parse(s).Some? && Parse(s).value < 0x80
  {
    OneTo(s[0]);
  }

  lemma AcceptedTwo(s: seq<Byte>)
    requires s != [] && Parse(s).Some? && 0x80 <= s[0] < 0xE0
    ensures 0x80 <= Parse(s).value < 0x800
  {
    hide Two, Three, Four, IsTail, Utf8;
  }

  lemma AcceptedThree(s: seq<Byte>)
    requires s != [] && Parse(s).Some? && 0xE0 <= s[0] < 0xF0
    ensures 0x800 <= Parse(s).value < 0x10000
  {
    hide Two, Three, Four, IsTail, Utf8;
  }

  lemma AcceptedFour(s: seq<Byte>)
    requires s != [] && Parse(s).Some? && 0xF0 <= s[0]
    ensures 0x10000 <= Parse(s).value <= 0x10FFFF
  {
    hide Two, Three, Four, IsTail, Utf8;
  }

  // ---------- the string object ----------

  /** Bytes before the characters: the length word and the count word. */
  const HEADER := 16

  function Join(high: Byte, low: Byte): Unit { ((high as Unit) << 8) | (low as Unit) }

  function LowByte(u: Unit): Byte { (u & 0xFF) as Byte }

  function HighByte(u: Unit): Byte { ((u >> 8) & 0xFF) as Byte }

  /** Character `k` of a string object, little endian. */
  function UnitAt(b: seq<Byte>, k: nat): Unit
    requires HEADER + 2 * k + 2 <= |b|
  {
    Join(b[HEADER + 2 * k + 1], b[HEADER + 2 * k])
  }

  function UnitsIn(b: seq<Byte>, n: nat): seq<Unit>
    requires HEADER + 2 * n <= |b|
  {
    seq(n, k requires 0 <= k < n => UnitAt(b, k))
  }

  /** The object's length word is `n`. */
  ghost predicate LengthIs(b: seq<Byte>, n: nat)
    requires |b| >= HEADER
  {
    forall i :: 0 <= i < 8 ==> b[i] == ByteOf(LeBytes(n, 8)[i])
  }

  function ByteOf(x: nat): Byte
    requires x < 256
  {
    x as Byte
  }

  lemma UnitBytes(u: Unit)
    ensures Join(HighByte(u), LowByte(u)) == u
  {
  }

  /** `mov [rsi], ax` with rsi at character `k`. */
  method StoreUnit(block: array<Byte>, k: nat, u: Unit)
    requires HEADER + 2 * k + 2 <= block.Length
    modifies block
    ensures UnitsIn(block[..], k + 1) == UnitsIn(old(block[..]), k) + [u]
    ensures forall i :: 0 <= i < block.Length && !(HEADER + 2 * k <= i < HEADER + 2 * k + 2) ==> block[i] == old(block[i])
  {
    hide Join, LowByte, HighByte;
    UnitBytes(u);
    block[HEADER + 2 * k] := LowByte(u);
    block[HEADER + 2 * k + 1] := HighByte(u);
    ghost var before := old(block[..]);
    assert UnitAt(block[..], k) == u;
    forall j | 0 <= j < k
      ensures UnitAt(block[..], j) == UnitAt(before, j)
    {
      var at := HEADER + 2 * j;
      assert block[..][at] == before[at] && block[..][at + 1] == before[at + 1];
    }
  }

  /** `mov [rax], rcx`. */
  method StoreLength(block: array<Byte>, n: nat)
    requires block.Length >= HEADER
    modifies block
    ensures LengthIs(block[..], n)
    ensures forall i :: 8 <= i < block.Length ==> block[i] == old(block[i])
  {
    hide ByteOf;
    var word := LeBytes(n, 8);
    var i := 0;
    while i < 8
      invariant 0 <= i <= 8
      invariant forall j :: 0 <= j < i ==> block[j] == ByteOf(word[j])
      invariant forall j :: 8 <= j < block.Length ==> block[j] == old(block[j])
    {
      block[i] := ByteOf(word[i]);
      i := i + 1;
    }
  }

  lemma SameUnits(b: seq<Byte>, b': seq<Byte>, n: nat)
    requires HEADER + 2 * n <= |b| == |b'| && forall i :: HEADER <= i < |b| ==> b'[i] == b[i]
    ensures UnitsIn(b', n) == UnitsIn(b, n)
  {
    hide Join;
    forall k | 0 <= k < n
      ensures UnitAt(b', k) == UnitAt(b, k)
    {
    }
  }

  /** Decode `src` into a string object of `2 * |src| + 16` bytes: its characters are
      the decoded text, its length word their number; the count word and the rest of
      the block stay as they were. */
  method Transcode(src: seq<Byte>, block: array<Byte>) returns (units: nat)
    requires block.Length >= 2 * |src| + HEADER
    modifies block
    ensures units <= |src| && UnitsIn(block[..], units) == Lenient(src) && LengthIs(block[..], units)
    ensures forall i :: 8 <= i < HEADER || HEADER + 2 * units <= i < block.Length ==> block[i] == old(block[i])
  {
    hide LeBytes;
    var rsi := Fill(src, block);
    units := (rsi - HEADER) / 2;
    ghost var filled := block[..];
    StoreLength(block, units);
    SameUnits(filled, block[..], units);
  }

  lemma NoUnits(b: seq<Byte>)
    requires HEADER <= |b|
    ensures UnitsIn(b, 0) == []
  {
  }

  lemma Appended(before: seq<Unit>, more: seq<Unit>, rest: seq<Unit>, whole: seq<Unit>)
    requires before + (more + rest) == whole
    ensures (before + more) + rest == whole
  {
    assert (before + more) + rest == before + (more + rest);
  }

  /** The loop; rsi ends behind the last character. */
  method Fill(src: seq<Byte>, block: array<Byte>) returns (rsi: nat)
    requires block.Length >= 2 * |src| + HEADER
    modifies block
    ensures exists units: nat :: rsi == HEADER + 2 * units && units <= |src| && UnitsIn(block[..], units) == Lenient(src)
    ensures forall i :: 0 <= i < HEADER || rsi <= i < block.Length ==> block[i] == old(block[i])
  {
    hide Parse, Utf8, Utf16, Lenient, HighHalf, LowHalf, Low16, UnitAt, UnitsIn;
    var rcx := 0;
    NoUnits(block[..]);
    rsi := HEADER;
    ghost var units := 0;
    assert UnitsIn(block[..], 0) + Lenient(src[0..]) == Lenient(src) by { assert src[0..] == src; }
    while rcx < |src|
      invariant 0 <= rcx <= |src| && units <= rcx && rsi == HEADER + 2 * units
      invariant UnitsIn(block[..], units) + Lenient(src[rcx..]) == Lenient(src)
      invariant forall i :: 0 <= i < HEADER || rsi <= i < block.Length ==> block[i] == old(block[i])
    {
      var ok, eax, n := Next(src, rcx);
      LenientStep(src[rcx..]);
      ghost var before := UnitsIn(block[..], units);
      if !ok {
        Advance(src, rcx, 1);
        StoreUnit(block, (rsi - HEADER) / 2, REPLACEMENT);
        rsi, rcx, units := rsi + 2, rcx + 1, units + 1;
        Appended(before, [REPLACEMENT], Lenient(src[rcx..]), Lenient(src));
      } else if eax < 0x10000 {
        Advance(src, rcx, n);
        Utf16One(eax);
        Utf8Length(eax);
        StoreUnit(block, (rsi - HEADER) / 2, Low16(eax));
        rsi, rcx, units := rsi + 2, rcx + n, units + 1;
        Appended(before, Utf16(eax), Lenient(src[rcx..]), Lenient(src));
      } else {
        Advance(src, rcx, n);
        Utf16Two(eax);
        StoreUnit(block, (rsi - HEADER) / 2, HighHalf(eax));
        StoreUnit(block, (rsi + 2 - HEADER) / 2, LowHalf(eax));
        rsi, rcx, units := rsi + 4, rcx + n, units + 2;
        assert before + [HighHalf(eax)] + [LowHalf(eax)] == before + Utf16(eax);
        Appended(before, Utf16(eax), Lenient(src[rcx..]), Lenient(src));
      }
    }
    assert src[rcx..] == [];
    LenientEmpty();
    assert UnitsIn(block[..], units) == Lenient(src);
  }

  lemma Advance(src: seq<Byte>, i: nat, n: nat)
    requires i + n <= |src|
    ensures src[i..][n..] == src[i + n..]
  {
  }

  lemma LenientEmpty()
    ensures Lenient([]) == []
  {
  }

  lemma Utf16One(c: CodePoint)
    requires c < 0x10000
    ensures Utf16(c) == [Low16(c)]
  {
  }

  lemma Utf16Two(c: CodePoint)
    requires c >= 0x10000
    ensures Utf16(c) == [HighHalf(c), LowHalf(c)]
  {
  }

  // ---------- what it means ----------

  /** Every sequence of scalar values survives: its UTF-8 becomes its UTF-16. */
  lemma {:induction false} TextSurvives(cs: seq<CodePoint>)
    requires forall i :: 0 <= i < |cs| ==> IsScalar(cs[i])
    ensures Lenient(Utf8All(cs)) == Utf16All(cs)
  {
    hide Parse, Utf8, Utf16, IsScalar, Lenient;
    if cs == [] {
      LenientEmpty();
    } else {
      var s, rest := Utf8All(cs), Utf8All(cs[1..]);
      TextSurvives(cs[1..]);
      assert s[|Utf8(cs[0])|..] == rest;
      assert Starts(s, cs[0]);
      StartsParses(s, cs[0]);
      LenientStep(s);
    }
  }

  predicate HighSurrogate(u: Unit) { 0xD800 <= u < 0xDC00 }
  predicate LowSurrogate(u: Unit) { 0xDC00 <= u < 0xE000 }

  /** Every surrogate is half of a pair. */
  predicate WellPaired(us: seq<Unit>) {
    us == []
    || (HighSurrogate(us[0]) && |us| > 1 && LowSurrogate(us[1]) && WellPaired(us[2..]))
    || (!HighSurrogate(us[0]) && !LowSurrogate(us[0]) && WellPaired(us[1..]))
  }

  lemma Utf16Pairs(c: CodePoint)
    requires IsScalar(c)
    ensures if c < 0x10000 then !HighSurrogate(Utf16(c)[0]) && !LowSurrogate(Utf16(c)[0])
            else HighSurrogate(Utf16(c)[0]) && LowSurrogate(Utf16(c)[1])
    ensures |Utf16(c)| == if c < 0x10000 then 1 else 2
  {
  }

  lemma ParseScalar(s: seq<Byte>)
    requires s != [] && Parse(s).Some?
    ensures IsScalar(Parse(s).value)
  {
    hide Parse, Utf8, Folded;
    ParseExact(s, Parse(s).value);
  }

  /** Whatever the bytes, the output is well-formed UTF-16, at most one unit per byte. */
  lemma {:induction false} OutputPaired(s: seq<Byte>)
    ensures WellPaired(Lenient(s)) && |Lenient(s)| <= |s|
    decreases |s|
  {
    hide Parse, Utf8, Utf16, Lenient, IsScalar;
    if s == [] {
      LenientEmpty();
    } else {
      LenientStep(s);
      if Parse(s).Some? {
        var c := Parse(s).value;
        ParseScalar(s);
        Utf16Pairs(c);
        Utf8Length(c);
        var rest := Lenient(s[|Utf8(c)|..]);
        OutputPaired(s[|Utf8(c)|..]);
        assert (Utf16(c) + rest)[|Utf16(c)|..] == rest;
      } else {
        OutputPaired(s[1..]);
        assert ([REPLACEMENT] + Lenient(s[1..]))[1..] == Lenient(s[1..]);
      }
    }
  }

  // ---------- where the loop departs from strict decoding ----------

  /** A lead F8..FF followed by what a lead F0..F7 would need. */
  predicate FoldedAt(s: seq<Byte>, i: nat)
    requires i < |s|
  {
    s[i] >= 0xF8 && Parse(s[i..]).Some?
  }

  function FoldCount(s: seq<Byte>): nat {
    if s == [] then 0 else (if FoldedAt(s, 0) then 1 else 0) + FoldCount(s[1..])
  }

  lemma StrictStep(s: seq<Byte>)
    requires s != []
    ensures Parse(s).Some? && s[0] < 0xF8 ==> |Utf8(Parse(s).value)| <= |s|
    ensures Parse(s).Some? && s[0] < 0xF8 ==> Strict(s) == Utf16(Parse(s).value) + Strict(s[|Utf8(Parse(s).value)|..])
    ensures Parse(s).None? || s[0] >= 0xF8 ==> Strict(s) == [REPLACEMENT] + Strict(s[1..])
  {
    hide Parse, Utf8, Utf16;
    forall c
      ensures Starts(s, c) <==> Parse(s) == Some(c) && s[0] < 0xF8
    {
      if Starts(s, c) { StartsParses(s, c); }
      if Parse(s) == Some(c) && s[0] < 0xF8 { ParseStarts(s, c); }
    }
    if Parse(s).Some? && s[0] < 0xF8 { assert Starts(s, Parse(s).value); }
  }

  /** Inside an accepted sequence there are only tail bytes. */
  lemma TailsInside(s: seq<Byte>)
    requires s != [] && Parse(s).Some?
    ensures |Utf8(Parse(s).value)| <= |s| && forall i :: 0 < i < |Utf8(Parse(s).value)| ==> IsTail(s[i])
    ensures s[0] >= 0xF8 ==> |Utf8(Parse(s).value)| == 4
  {
    hide Two, Three, Four, Utf8, IsTail;
    Accepted(s);
    Utf8Length(Parse(s).value);
  }

  lemma TailRejected(s: seq<Byte>)
    requires s != [] && IsTail(s[0])
    ensures Parse(s).None? && s[0] < 0xF8
  {
    TailRange(s[0]);
  }

  lemma TailRange(b: Byte)
    requires IsTail(b)
    ensures 0x80 <= b < 0xC0
  {
  }

  lemma TailsCountNothing(s: seq<Byte>, n: nat)
    requires n <= |s| && forall i :: 0 <= i < n ==> IsTail(s[i])
    ensures FoldCount(s) == FoldCount(s[n..])
    decreases n
  {
    hide Parse, IsTail;
    if n == 0 {
      assert s[0..] == s;
    } else {
      TailRejected(s);
      TailsCountNothing(s[1..], n - 1);
      assert s[1..][n - 1..] == s[n..];
    }
  }

  lemma TailsReplaced(s: seq<Byte>, n: nat)
    requires n <= |s| && forall i :: 0 <= i < n ==> IsTail(s[i])
    ensures |Strict(s)| == n + |Strict(s[n..])|
    decreases n
  {
    hide Parse, IsTail, Strict;
    if n == 0 {
      assert s[0..] == s;
    } else {
      TailRejected(s);
      StrictStep(s);
      TailsReplaced(s[1..], n - 1);
      assert s[1..][n - 1..] == s[n..];
    }
  }

  /** Each folded sequence makes two units where strict decoding makes four; apart
      from them the outputs are the same. */
  lemma {:induction false} FoldsCost(s: seq<Byte>)
    ensures |Strict(s)| == |Lenient(s)| + 2 * FoldCount(s)
    ensures FoldCount(s) == 0 ==> Strict(s) == Lenient(s)
    decreases |s|
  {
    hide Parse, Utf8, Utf16, Lenient, Strict, IsTail;
    if s == [] {
      LenientEmpty();
      StrictEmpty();
    } else {
      LenientStep(s);
      StrictStep(s);
      if Parse(s).None? {
        FoldsCost(s[1..]);
      } else {
        var c := Parse(s).value;
        var n := |Utf8(c)|;
        TailsInside(s);
        TailsCountNothing(s[1..], n - 1);
        assert s[1..][n - 1..] == s[n..];
        FoldsCost(s[n..]);
        Accepted(s);
        ParseScalar(s);
        Utf16Pairs(c);
        if s[0] >= 0xF8 { TailsReplaced(s[1..], 3); }
      }
    }
  }

  lemma StrictEmpty()
    ensures Strict([]) == []
  {
  }

  lemma {:induction false} NoFolds(s: seq<Byte>)
    ensures FoldCount(s) == 0 <==> forall i: nat :: i < |s| ==> !FoldedAt(s, i)
  {
    hide Parse;
    if s != [] {
      NoFolds(s[1..]);
      forall i: nat | i < |s| - 1
        ensures FoldedAt(s, i + 1) <==> FoldedAt(s[1..], i)
      {
        assert s[1..][i..] == s[i + 1..];
      }
      if FoldCount(s) == 0 {
        forall i: nat | i < |s|
          ensures !FoldedAt(s, i)
        {
          if i > 0 { assert !FoldedAt(s[1..], i - 1); }
        }
      }
      if forall i: nat :: i < |s| ==> !FoldedAt(s, i) {
        assert !FoldedAt(s, 0);
        forall i: nat | i < |s| - 1
          ensures !FoldedAt(s[1..], i)
        {
          assert !FoldedAt(s, i + 1);
        }
      }
    }
  }

  /** The loop decodes strictly exactly when no lead F8..FF is followed by the
      bytes a four-byte lead would need. */
  lemma StrictExactly(s: seq<Byte>)
    ensures Lenient(s) == Strict(s) <==> forall i: nat :: i < |s| ==> !FoldedAt(s, i)
  {
    hide Parse, Lenient, Strict, FoldCount;
    FoldsCost(s);
    NoFolds(s);
  }

  /** F8 90 80 80 is malformed; it comes out as the pair for U+10000, not as four
      replacement characters. */
  lemma FoldedExample()
    ensures Lenient([0xF8, 0x90, 0x80, 0x80]) == [0xD800, 0xDC00]
    ensures Strict([0xF8, 0x90, 0x80, 0x80]) == [REPLACEMENT, REPLACEMENT, REPLACEMENT, REPLACEMENT]
  {
    var s: seq<Byte> := [0xF8, 0x90, 0x80, 0x80];
    hide Strict, Lenient;
    assert Parse(s) == Some(0x10000);
    LenientStep(s);
    assert Utf16(0x10000) == [0xD800, 0xDC00] && |Utf8(0x10000)| == 4 && s[4..] == [];
    LenientEmpty();
    StrictStep(s);
    TailsReplacedBy(s[1..]);
  }

  lemma TailsReplacedBy(s: seq<Byte>)
    requires forall i :: 0 <= i < |s| ==> IsTail(s[i])
    ensures Strict(s) == seq(|s|, _ => REPLACEMENT)
    decreases |s|
  {
    hide Parse, IsTail, Strict;
    if s == [] {
      StrictEmpty();
    } else {
      TailRejected(s);
      StrictStep(s);
      TailsReplacedBy(s[1..]);
    }
  }
}
