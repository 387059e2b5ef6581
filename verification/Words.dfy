/** 64-bit words, bytes, and little-endian byte memory. */
module Words {
  const B32 := 0x1_0000_0000
  const B63 := 0x8000_0000_0000_0000
  const B64 := 0x1_0000_0000_0000_0000

  type Byte = b: int | 0 <= b < 256
  type Word = w: int | 0 <= w < B64

  /** Reduction modulo 2^64: what a 64-bit register keeps of an integer. */
  function Wrap(x: int): Word { x % B64 }

  /** Address and counter arithmetic. */
  function Offset(w: int, d: int): Word { Wrap(w + d) }

  /** Two's-complement reading of a word. */
  function Signed(w: Word): int { if w < B63 then w else w - B64 }

  lemma WrapSigned(w: Word)
    ensures Wrap(Signed(w)) == w
  {
  }

  // ---------- bitwise operations and shifts ----------

  datatype Gate = AndGate | OrGate | XorGate

  function Gated(g: Gate, a: int, b: int): int {
    match g
    case AndGate => if a == 1 && b == 1 then 1 else 0
    case OrGate => if a == 1 || b == 1 then 1 else 0
    case XorGate => if a != b then 1 else 0
  }

  /** Bit by bit, `n` bits of `a` and `b`. */
  function Bitwise(g: Gate, a: nat, b: nat, n: nat): nat {
    if n == 0 then 0 else Gated(g, a % 2, b % 2) + 2 * Bitwise(g, a / 2, b / 2, n - 1)
  }

  function Pow2(n: nat): (r: nat)
    ensures r > 0
  {
    if n == 0 then 1 else 2 * Pow2(n - 1)
  }

  /** Unsigned quotient and remainder. */
  function Quot(n: nat, d: nat): nat
    requires d != 0
  {
    n / d
  }

  function Remainder(n: nat, d: nat): nat
    requires d != 0
  {
    n % d
  }

  /** Truncating division, as `idiv` and the source language divide. */
  function TruncDiv(a: int, b: int): int
    requires b != 0
  {
    var q := Abs(a) / Abs(b);
    if (a < 0) == (b < 0) then q else -q
  }

  function TruncRem(a: int, b: int): int
    requires b != 0
  {
    a - b * TruncDiv(a, b)
  }

  function Abs(x: int): nat { if x < 0 then -x else x }

  // ---------- little-endian memory ----------

  type Heap = map<int, Byte>

  /** `n` bytes from `a` on are mapped. */
  predicate Mapped(h: Heap, a: int, n: nat) {
    forall k :: a <= k < a + n ==> k in h
  }

  function Read(h: Heap, a: int, n: nat): int
    requires Mapped(h, a, n)
    decreases n
  {
    if n == 0 then 0 else h[a] + 256 * Read(h, a + 1, n - 1)
  }

  function Read64(h: Heap, a: int): Word
    requires Mapped(h, a, 8)
  {
    Wrap(Read(h, a, 8))
  }

  function Write(h: Heap, a: int, n: nat, w: int): Heap
    decreases n
  {
    if n == 0 then h else Write(h[a := w % 256], a + 1, n - 1, w / 256)
  }

  lemma WriteKeys(h: Heap, a: int, n: nat, w: int)
    requires Mapped(h, a, n)
    ensures Write(h, a, n, w).Keys == h.Keys
    decreases n
  {
    if n > 0 { WriteKeys(h[a := w % 256], a + 1, n - 1, w / 256); }
  }
}
