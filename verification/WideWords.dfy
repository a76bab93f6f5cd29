/** Machine words of 64 and 128 bits, as integers with their bounds. */
module WideWords {
  import Arith

  const B32: int := 0x1_0000_0000
  const B63: int := 0x8000_0000_0000_0000
  const B64: int := 0x1_0000_0000_0000_0000
  const B127: int := 0x8000_0000_0000_0000_0000_0000_0000_0000
  const B128: int := 0x1_0000_0000_0000_0000_0000_0000_0000_0000

  type U64 = x: int | 0 <= x < B64
  type U128 = x: int | 0 <= x < B128
  type I128 = x: int | -B127 <= x < B127

  function Wrap64(x: int): (w: U64) {
    x % B64
  }

  function Wrap128(x: int): (w: U128) {
    x % B128
  }

  /** The signed number with the same bits. */
  function Signed(x: U128): (s: I128) {
    if x < B127 then x else x - B128
  }

  /** The bits of a signed number. */
  function Bits(x: I128): (w: U128) {
    if x >= 0 then x else x + B128
  }

  function High(x: U128): (h: U64) {
    x / B64
  }

  function Low(x: U128): (l: U64) {
    x % B64
  }

  function Join(h: U64, l: U64): (x: U128) {
    h * B64 + l
  }

  function Pow2(n: nat): (p: int)
    ensures p > 0
  {
    if n == 0 then 1 else 2 * Pow2(n - 1)
  }

  lemma {:induction false} Pow2Add(m: nat, n: nat)
    ensures Pow2(m + n) == Pow2(m) * Pow2(n)
    decreases m
  {
    if m > 0 {
      Pow2Add(m - 1, n);
      assert Pow2(m + n) == 2 * Pow2(m - 1 + n);
    }
  }

  lemma SmallPower()
    ensures Pow2(4) == 16
  {
    assert Pow2(2) == 4;
  }

  lemma Pow2Values()
    ensures Pow2(8) == 0x100 && Pow2(32) == B32 && Pow2(64) == B64
  {
    SmallPower();
    hide Pow2;
    Pow2Add(4, 4);
    Pow2Add(8, 8);
    Pow2Add(16, 16);
    Pow2Add(32, 32);
  }

  lemma {:induction false} Pow2Grows(m: nat, n: nat)
    requires m <= n
    ensures Pow2(m) <= Pow2(n)
    decreases n
  {
    if m < n {
      Pow2Grows(m, n - 1);
    }
  }

  lemma Doubled(v: int, n: nat)
    ensures v * Pow2(n + 1) == (2 * v) * Pow2(n)
  {
    assert Pow2(n + 1) == 2 * Pow2(n);
  }

  /** Leading zero bits of a 64-bit word. */
  function Clz(v: U64): (n: nat)
    requires v != 0
    ensures B63 <= v * Pow2(n) < B64
    decreases B64 - v
  {
    if v >= B63 then 0
    else
      var n := Clz(2 * v);
      Doubled(v, n);
      n + 1
  }

  lemma ClzBound(v: U64)
    requires v != 0
    ensures Clz(v) < 64
  {
    var n := Clz(v);
    Arith.MulLe(1, v, Pow2(n));
    Pow2Values();
    if n >= 64 {
      Pow2Grows(64, n);
      assert false;
    }
  }
}
