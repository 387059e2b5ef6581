/** The decimal printer and scanner. */
module Decimal {
  import opened Words

  type Text = seq<Byte>

  const MINUS: Byte := 45
  const NEWLINE: Byte := 10

  predicate IsDigit(b: Byte) { 48 <= b <= 57 }

  function DigitOf(d: nat): Byte
    requires d < 10
  {
    48 + d
  }

  /** Canonical decimal digits: no leading zeros. */
  function Digits(n: nat): (s: Text)
    ensures s != [] && forall i :: 0 <= i < |s| ==> IsDigit(s[i])
  {
    if n < 10 then [DigitOf(n)] else Digits(n / 10) + [DigitOf(n % 10)]
  }

  function Canonical(x: int): Text { if x < 0 then [MINUS] + Digits(-x) else Digits(x) }

  /** The number a digit string denotes. */
  function Denotes(s: Text): int { if s == [] then 0 else 10 * Denotes(s[..|s| - 1]) + s[|s| - 1] - 48 }

  lemma {:induction false} DigitsDenote(n: nat)
    ensures Denotes(Digits(n)) == n
  {
    if n < 10 {
      assert Digits(n)[..0] == [];
    } else {
      DigitsDenote(n / 10);
      assert Digits(n)[..|Digits(n)| - 1] == Digits(n / 10);
    }
  }

  function Pow10(k: nat): (p: nat)
    ensures p > 0
  {
    if k == 0 then 1 else 10 * Pow10(k - 1)
  }

  lemma {:induction false} DigitCount(n: nat, k: nat)
    requires k > 0 && n < Pow10(k)
    ensures |Digits(n)| <= k
  {
    if n >= 10 {
      assert Pow10(1) == 10;
      DigitCount(n / 10, k - 1);
    }
  }

  lemma TenPowers()
    ensures Pow10(19) > B63
  {
    assert Pow10(3) == 1000;
    assert Pow10(6) == 1000 * Pow10(3);
    assert Pow10(9) == 1000 * Pow10(6);
    assert Pow10(12) == 1000 * Pow10(9);
    assert Pow10(15) == 1000 * Pow10(12);
    assert Pow10(18) == 1000 * Pow10(15);
  }

  // ---------- printing ----------

  lemma DigitsSplit(n: nat)
    requires n >= 10
    ensures Digits(n) == Digits(n / 10) + [DigitOf(n % 10)]
  {
  }

  /** The digit loop pushes digits, least significant first. */
  method PushDigits(rax: Word) returns (pushed: seq<Byte>)
    ensures |pushed| == |Digits(rax)|
    ensures forall i :: 0 <= i < |pushed| ==> pushed[i] == Digits(rax)[|pushed| - 1 - i]
  {
    var q: nat, d := rax / 10, rax % 10;
    pushed := [48 + d];
    while q != 0
      invariant pushed != [] && |Digits(rax)| == |pushed| + if q == 0 then 0 else |Digits(q)|
      invariant forall i :: 0 <= i < |pushed| ==> pushed[i] == Digits(rax)[|Digits(rax)| - 1 - i]
      invariant q > 0 ==> forall i :: 0 <= i < |Digits(q)| ==> Digits(q)[i] == Digits(rax)[i]
    {
      if q >= 10 { DigitsSplit(q); }
      d := q % 10;
      pushed := pushed + [48 + d];
      q := q / 10;
    }
  }

  /** Sign, then digits popped into the 32-byte buffer. */
  method Itoa(rax: Word, buf: array<Byte>) returns (len: nat)
    requires buf.Length == 32
    modifies buf
    ensures len <= 20 && buf[..len] == Canonical(Signed(rax))
  {
    hide Digits, Pow10;
    var r9 := 0;
    var x: Word := rax;
    if rax >= B63 {
      buf[0] := MINUS;
      r9 := 1;
      x := B64 - rax;
    }
    TenPowers();
    DigitCount(x, 19);
    var stack := PushDigits(x);
    ghost var start, all := r9, Digits(x);
    var rcx := |stack|;
    while rcx > 0
      invariant 0 <= rcx <= |stack| && r9 == start + |stack| - rcx && start <= 1
      invariant start == 1 ==> buf[0] == MINUS
      invariant forall i :: 0 <= i < |stack| - rcx ==> buf[start + i] == all[i]
    {
      rcx := rcx - 1;
      buf[r9] := stack[rcx];
      r9 := r9 + 1;
    }
    len := r9;
    assert buf[start..len] == all;
    assert buf[..len] == buf[..start] + all;
  }

  // ---------- scanning ----------

  /** The sign and digits the scanner has accepted. */
  datatype Parsed = Parsed(neg: bool, digits: Text)

  function ValueOf(p: Parsed): Word { if p.neg then Wrap(-Denotes(p.digits)) else Wrap(Denotes(p.digits)) }

  /** The scanner's loop: each turn first looks for a minus, then for a digit. */
  function ScanFrom(buf: Text, n: nat, i: nat, p: Parsed): (r: Parsed)
    requires i <= n < |buf|
    ensures p.digits <= r.digits && (p.neg ==> r.neg)
    decreases n - i
  {
    var j, neg := if buf[i] == MINUS then i + 1 else i, p.neg || buf[i] == MINUS;
    if j < n && IsDigit(buf[j]) then ScanFrom(buf, n, j + 1, Parsed(neg, p.digits + [buf[j]]))
    else Parsed(neg, p.digits)
  }

  lemma DenotesSnoc(s: Text, b: Byte)
    ensures Denotes(s + [b]) == 10 * Denotes(s) + b - 48
  {
    assert (s + [b])[..|s|] == s;
  }

  lemma WrapStep(acc: Word, v: int, d: int)
    requires acc == Wrap(v)
    ensures Wrap(Wrap(acc * 10) + d) == Wrap(10 * v + d)
  {
  }

  lemma WrapMinus(v: int)
    ensures Wrap(B64 - Wrap(v)) == Wrap(-v)
  {
  }

  lemma NothingDenotes()
    ensures Denotes([]) == 0
  {
  }

  lemma ScanTurn(buf: Text, n: nat, i: nat, p: Parsed)
    requires i <= n < |buf|
    ensures var j, neg := if buf[i] == MINUS then i + 1 else i, p.neg || buf[i] == MINUS;
            ScanFrom(buf, n, i, p)
            == if j < n && IsDigit(buf[j]) then ScanFrom(buf, n, j + 1, Parsed(neg, p.digits + [buf[j]]))
               else Parsed(neg, p.digits)
  {
  }

  /** `buf` is the stack buffer, of which the first `n` bytes were just read. */
  method ScanInt(buf: Text, n: int) returns (rax: Word)
    requires |buf| == 88 && n <= 80
    ensures n <= 0 ==> rax == 0
    ensures n > 0 ==> rax == ValueOf(ScanFrom(buf, n, 0, Parsed(false, [])))
  {
    hide ScanFrom, Denotes;
    if n <= 0 { return 0; }
    NothingDenotes();
    var r9: Word, r10, negative := 0, 0, false;
    ghost var p, whole := Parsed(false, []), ScanFrom(buf, n, 0, Parsed(false, []));
    while true
      invariant 0 <= r10 <= n && r9 == Wrap(Denotes(p.digits)) && negative == p.neg
      invariant ScanFrom(buf, n, r10, p) == whole
      decreases n - r10
    {
      ScanTurn(buf, n, r10, p);
      if buf[r10] == MINUS {
        negative := true;
        r10 := r10 + 1;
      }
      if r10 >= n || buf[r10] < 48 || buf[r10] > 57 {
        p := Parsed(negative, p.digits);
        break;
      }
      DenotesSnoc(p.digits, buf[r10]);
      WrapStep(r9, Denotes(p.digits), buf[r10] - 48);
      p := Parsed(negative, p.digits + [buf[r10]]);
      r9 := Wrap(Wrap(r9 * 10) + (buf[r10] - 48));
      r10 := r10 + 1;
    }
    WrapMinus(Denotes(p.digits));
    rax := if negative then Wrap(B64 - r9) else r9;
  }

  // ---------- the documented grammar ----------

  /** How many digits follow from `i`, below `n`. */
  function Run(buf: Text, n: nat, i: nat): (m: nat)
    requires i <= n < |buf|
    ensures i + m <= n && forall k :: i <= k < i + m ==> IsDigit(buf[k])
    ensures i + m < n ==> !IsDigit(buf[i + m])
    decreases n - i
  {
    if i < n && IsDigit(buf[i]) then 1 + Run(buf, n, i + 1) else 0
  }

  function SignWidth(buf: Text, n: nat): nat
    requires n < |buf|
  {
    if n > 0 && buf[0] == MINUS then 1 else 0
  }

  /** An optional leading minus, then digits up to the first non-digit. */
  function Documented(buf: Text, n: nat): Parsed
    requires n < |buf|
  {
    var s := SignWidth(buf, n);
    Parsed(s == 1, buf[s..s + Run(buf, n, s)])
  }

  /** After the digits the scanner meets another minus, and it matters: the number
      was positive, or more digits follow. The byte may be the one past the input. */
  predicate SecondMinus(buf: Text, n: nat)
    requires n < |buf|
  {
    var s := SignWidth(buf, n);
    var e := s + Run(buf, n, s);
    e > s && buf[e] == MINUS && (s == 0 || (e + 1 < n && IsDigit(buf[e + 1])))
  }

  /** Through a run of digits the scanner just collects. */
  lemma {:induction false} ScanRun(buf: Text, n: nat, i: nat, p: Parsed)
    requires i <= n < |buf| && Run(buf, n, i) > 0
    ensures var m := Run(buf, n, i);
            ScanFrom(buf, n, i, p) == ScanFrom(buf, n, i + m, Parsed(p.neg, p.digits + buf[i..i + m]))
    decreases n - i
  {
    hide ScanFrom, Run;
    var m, p' := Run(buf, n, i), Parsed(p.neg, p.digits + [buf[i]]);
    RunTurn(buf, n, i);
    ScanTurn(buf, n, i, p);
    if m == 1 {
      assert buf[i..i + 1] == [buf[i]];
    } else {
      ScanRun(buf, n, i + 1, p');
      assert p'.digits + buf[i + 1..i + m] == p.digits + buf[i..i + m];
    }
  }

  lemma RunTurn(buf: Text, n: nat, i: nat)
    requires i <= n < |buf| && Run(buf, n, i) > 0
    ensures i < n && IsDigit(buf[i]) && buf[i] != MINUS && Run(buf, n, i) == 1 + Run(buf, n, i + 1)
  {
  }

  /** The scanner reads what its documentation says exactly when no second minus
      follows the digits. */
  lemma ScansAsDocumented(buf: Text, n: nat)
    requires 0 < n < |buf|
    ensures ScanFrom(buf, n, 0, Parsed(false, [])) == Documented(buf, n) <==> !SecondMinus(buf, n)
  {
    var s := SignWidth(buf, n);
    var m := Run(buf, n, s);
    if m > 0 {
      if s == 1 {
        SignThenRun(buf, n);
      } else {
        ScanRun(buf, n, 0, Parsed(false, []));
        assert [] + buf[0..m] == buf[0..m];
      }
      assert ScanFrom(buf, n, 0, Parsed(false, [])) == ScanFrom(buf, n, s + m, Documented(buf, n));
    }
  }

  lemma SignThenRun(buf: Text, n: nat)
    requires 0 < n < |buf| && buf[0] == MINUS && Run(buf, n, 1) > 0
    ensures ScanFrom(buf, n, 0, Parsed(false, []))
         == ScanFrom(buf, n, 1 + Run(buf, n, 1), Parsed(true, buf[1..1 + Run(buf, n, 1)]))
  {
    var m := Run(buf, n, 1);
    assert [] + [buf[1]] == [buf[1]] == buf[1..2];
    if Run(buf, n, 2) > 0 {
      ScanRun(buf, n, 2, Parsed(true, [buf[1]]));
      assert [buf[1]] + buf[2..1 + m] == buf[1..1 + m];
    }
  }

  /** The input "1-2" and a newline: documented as 1, scanned as -12. */
  lemma SecondMinusExample(rest: Text)
    requires rest != []
    ensures var buf := [49, MINUS, 50, NEWLINE] + rest;
            && ValueOf(Documented(buf, 4)) == 1
            && ValueOf(ScanFrom(buf, 4, 0, Parsed(false, []))) == Wrap(-12)
  {
    var buf := [49, MINUS, 50, NEWLINE] + rest;
    assert Documented(buf, 4) == Parsed(false, [49]) by { assert buf[0..1] == [49]; }
    assert ScanFrom(buf, 4, 0, Parsed(false, [])) == Parsed(true, [49, 50]);
    assert [49][..0] == [] && [49, 50][..1] == [49];
  }

  // ---------- round trip ----------

  lemma RunOfDigits(buf: Text, n: nat, i: nat, d: Text)
    requires i + |d| < n < |buf| && buf[i..i + |d|] == d && !IsDigit(buf[i + |d|])
    requires forall k :: 0 <= k < |d| ==> IsDigit(d[k])
    ensures Run(buf, n, i) == |d|
    decreases |d|
  {
    if d != [] {
      assert buf[i] == d[0];
      assert buf[i + 1..i + |d|] == d[1..];
      RunOfDigits(buf, n, i + 1, d[1..]);
    }
  }

  /** Printing any 64-bit integer and scanning the line gives it back. */
  lemma RoundTrip(w: Word, rest: Text)
    requires rest != []
    ensures var line := Canonical(Signed(w)) + [NEWLINE];
            ValueOf(ScanFrom(line + rest, |line|, 0, Parsed(false, []))) == w
  {
    hide ScanFrom, Digits, Denotes, Run;
    var x := Signed(w);
    var line := Canonical(x) + [NEWLINE];
    var buf, d, s := line + rest, Digits(Abs(x)), if x < 0 then 1 else 0;
    assert buf[s..s + |d|] == d;
    assert buf[s + |d|] == NEWLINE;
    assert buf[0] == Canonical(x)[0];
    RunOfDigits(buf, |line|, s, d);
    ScansAsDocumented(buf, |line|);
    DigitsDenote(Abs(x));
    WrapSigned(w);
  }
}
