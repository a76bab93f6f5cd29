/** Division of 128-bit numbers: by one word at a time when the divisor fits a word, and bit by
    bit, without branches, when it does not. */
module Division128 {
  import opened WideWords
  import opened Arith
  import opened KnuthDivision

  predicate Divides(a: int, b: int, q: int, r: int) {
    a == q * b + r && 0 <= r < b
  }

  // ---- a divisor of one word -------------------------------------------------------------------

  lemma TwoWords(ah: int, al: int, b: int, qh: int, rh: int, ql: int, r: int)
    requires ah == qh * b + rh && rh * B64 + al == ql * b + r
    ensures ah * B64 + al == (qh * B64 + ql) * b + r
  {
    assert (qh * b + rh) * B64 == (qh * B64) * b + rh * B64;
  }

  method DivideByWord(a: U128, b: U64) returns (q: U128, r: U128)
    requires b != 0
    ensures Divides(a, b, q, r)
  {
    var ah, al := High(a), Low(a);
    if ah < b {
      q, r := Udiv128by64to64Default(ah, al, b);
    } else {
      var qh := ah / b;
      ghost var rh := ah % b;
      DivMod(ah, b);
      QuotientFits(ah, b);
      ah := ah % b;
      var ql, rl := Udiv128by64to64Default(ah, al, b);
      TwoWords(High(a), al, b, qh, rh, ql, rl);
      q, r := Join(qh, ql), rl;
    }
  }

  lemma QuotientFits(a: U64, b: int)
    requires b > 0
    ensures 0 <= a / b < B64
  {
    DivMod(a, b);
    if a / b >= B64 {
      MulLe(1, b, a / b);
      assert false;
    }
    if a / b < 0 {
      MulLe(a / b, -1, b);
      assert false;
    }
  }

  // ---- a divisor of two words ------------------------------------------------------------------

  /** x moved left until the top bit of its high word is set. */
  lemma Aligned(x: U128, p: int, q: int)
    requires p > 0 && q > 0 && p * q == B64 && B63 <= High(x) * p < B64
    ensures B127 <= x * p < B128
  {
    var h, l := High(x), Low(x);
    assert x == h * B64 + l;
    assert x * p == (h * p) * B64 + l * p;
    MulSign(l, p);
    MulLe(l + 1, B64, p);
    assert h * p + p <= B64 by {
      if h >= q {
        MulLe(q, h, p);
        assert false;
      }
      MulLe(h + 1, q, p);
    }
  }

  /** Two numbers that are both in the upper half when multiplied by p are within a factor of two. */
  lemma WithinFactorTwo(a: int, d: int, p: int)
    requires p > 0 && B127 <= a * p < B128 && B127 <= d * p < B128
    ensures a < 2 * d && d < 2 * a && 0 < d < B128 && 0 < a
  {
    if a >= 2 * d {
      MulLe(2 * d, a, p);
      assert false;
    }
    if d >= 2 * a {
      MulLe(2 * a, d, p);
      assert false;
    }
    if d <= 0 {
      MulLe(d, 0, p);
      assert false;
    }
    if d >= B128 {
      MulLe(B128, d, p);
      assert false;
    }
  }

  /** The sign of the wrapped difference tells which of two numbers is larger, if they are not
      too far apart. */
  lemma SignTells(divisor: U128, dividend: U128)
    requires dividend < 2 * divisor && (divisor < 2 * dividend || divisor < B127)
    ensures Wrap128(divisor - dividend - 1) >= B127 <==> dividend >= divisor
  {
    var x := divisor - dividend - 1;
    if dividend >= divisor {
      DivModUnique(x, B128, -1, x + B128);
    } else {
      DivModUnique(x, B128, 0, x);
    }
  }

  /** What the loop keeps: `shift + 1` bits are still to come. */
  predicate Kept(a: int, b: int, q: int, dividend: int, p: int) {
    a == (q * p) * b + dividend && 0 <= dividend < p * b && 0 <= q
  }

  lemma BitKept(a: int, b: int, q: int, dividend: int, half: int, bit: bool)
    requires Kept(a, b, q, dividend, 2 * half) && bit == (dividend >= half * b)
    ensures Kept(a, b, 2 * q + (if bit then 1 else 0), dividend - (if bit then half * b else 0), half)
  {
    assert (q * (2 * half)) * b == ((2 * q) * half) * b;
    assert ((2 * q + 1) * half) * b == ((2 * q) * half) * b + half * b;
    assert (2 * half) * b == 2 * (half * b);
  }

  /** The larger number has no more leading zeros. */
  lemma ClzOrder(a: U64, b: U64)
    requires 0 < b <= a
    ensures Clz(a) <= Clz(b)
  {
    hide Pow2;
    var ca, cb := Clz(a), Clz(b);
    if ca > cb {
      Pow2Grows(cb + 1, ca);
      Doubled(1, cb);
      MulLe(2 * Pow2(cb), Pow2(ca), a);
      MulLe(b, a, Pow2(cb));
      assert false;
    }
  }

  lemma HighOrder(a: U128, b: U128)
    requires b <= a
    ensures High(b) <= High(a)
  {
  }

  /** The divisor moved left until its top bit is where the dividend's is. */
  method Align(a: U128, b: U128) returns (shift: nat, divisor: U128)
    requires High(b) != 0 && b <= a
    ensures shift < 64 && divisor == Pow2(shift) * b
    ensures a < 2 * divisor && divisor < 2 * a
  {
    hide Pow2, High, Clz;
    HighOrder(a, b);
    ClzOrder(High(a), High(b));
    ClzBound(High(b));
    var ca, cb := Clz(High(a)), Clz(High(b));
    shift := cb - ca;
    AlignedShift(a, b, ca, cb);
    divisor := Wrap128(b * Pow2(shift));
  }

  lemma AlignedShift(a: U128, b: U128, ca: nat, cb: nat)
    requires High(a) != 0 && High(b) != 0 && ca == Clz(High(a)) && cb == Clz(High(b)) && ca <= cb < 64
    ensures var d := b * Pow2(cb - ca); a < 2 * d && d < 2 * a && Wrap128(d) == d
  {
    hide Pow2, Clz, High;
    Pow2Values();
    Pow2Add(ca, 64 - ca);
    Pow2Add(cb, 64 - cb);
    Pow2Add(cb - ca, ca);
    Aligned(a, Pow2(ca), Pow2(64 - ca));
    Aligned(b, Pow2(cb), Pow2(64 - cb));
    var d := b * Pow2(cb - ca);
    assert d * Pow2(ca) == b * (Pow2(cb - ca) * Pow2(ca));
    WithinFactorTwo(a, d, Pow2(ca));
  }

  /** The quotient found so far fits a word. */
  lemma QuotientFitsWord(a: int, b: int, q: int, dividend: int, p: int)
    requires Kept(a, b, q, dividend, p) && p > 0 && b > 0 && a < B64 * b
    ensures q * p < B64
  {
    if q * p >= B64 {
      MulLe(B64, q * p, b);
      assert false;
    }
  }

  /** What the loop keeps while n bits of the quotient are still to come. */
  predicate BitState(a: int, b: int, q: int, dividend: int, divisor: int, n: nat) {
    && Kept(a, b, q, dividend, Pow2(n)) && b > 0 && a < B64 * b
    && (n > 0 ==> divisor == Pow2(n - 1) * b && (divisor < 2 * dividend || divisor < B127))
  }

  lemma StartOfBits(a: U128, b: U128, divisor: U128, n: nat)
    requires divisor == Pow2(n) * b && a < 2 * divisor && divisor < 2 * a && b > 0 && n < 64
    ensures BitState(a, b, 0, a, divisor, n + 1)
  {
    hide Pow2;
    Doubled(b, n);
    Pow2Values();
    Pow2Grows(n + 1, 64);
    MulLe(Pow2(n + 1), B64, b);
    assert (0 * Pow2(n + 1)) * b == 0;
  }

  /** The mask is set exactly when the divisor can be taken off. */
  lemma BitBounds(a: int, b: int, q: int, dividend: U128, divisor: U128, n: nat)
    requires BitState(a, b, q, dividend, divisor, n) && n > 0
    ensures 0 <= q && 2 * q + 1 < B64
    ensures Wrap128(divisor - dividend - 1) >= B127 <==> dividend >= divisor
  {
    Doubled(b, n - 1);
    SignTells(divisor, dividend);
    QuotientFitsWord(a, b, q, dividend, Pow2(n));
    assert q * Pow2(n) == (2 * q) * Pow2(n - 1);
    MulLe(1, Pow2(n - 1), 2 * q);
  }

  lemma BitRound(a: int, b: int, q: int, dividend: int, divisor: int, n: nat, bit: bool)
    requires BitState(a, b, q, dividend, divisor, n) && n > 0 && bit == (dividend >= divisor) && divisor < B128
    ensures BitState(a, b, 2 * q + (if bit then 1 else 0), dividend - (if bit then divisor else 0), divisor / 2, n - 1)
  {
    assert Pow2(n) == 2 * Pow2(n - 1);
    BitKept(a, b, q, dividend, Pow2(n - 1), bit);
    if n > 1 {
      Doubled(b, n - 2);
    }
  }

  lemma EvenWord(x: int)
    requires 0 <= x && 2 * x + 1 < B64
    ensures Wrap64(2 * x) == 2 * x && (2 * x) % Pow2(1) == 0 && Pow2(1) == 2
  {
    assert Pow2(1) == 2 * Pow2(0);
  }

  lemma LastBit(a: int, b: int, q: int, r: int, divisor: int)
    requires BitState(a, b, q, r, divisor, 0)
    ensures Divides(a, b, q, r)
  {
    assert (q * 1) * b == q * b;
  }

  method DivideByBits(a: U128, b: U128) returns (q: U128, r: U128)
    requires High(b) != 0 && b <= a
    ensures Divides(a, b, q, r)
  {
    hide Pow2, BitState;
    var shift: int, divisor: U128 := Align(a, b);
    var quotient: U64, dividend: U128 := 0, a;
    StartOfBits(a, b, divisor, shift);
    while shift >= 0
      invariant -1 <= shift && BitState(a, b, quotient, dividend, divisor, shift + 1)
    {
      BitBounds(a, b, quotient, dividend, divisor, shift + 1);
      EvenWord(quotient);
      var s := Wrap128(divisor - dividend - 1) >= B127;
      BitRound(a, b, quotient, dividend, divisor, shift + 1, s);
      quotient := Or(Wrap64(2 * quotient), if s then 1 else 0, 1);
      dividend := dividend - if s then divisor else 0;
      divisor := divisor / 2;
      shift := shift - 1;
    }
    LastBit(a, b, quotient, dividend, divisor);
    q, r := quotient, dividend;
  }

  /** The quotient and the remainder of any two 128-bit numbers. */
  method Udivmodti4(a: U128, b: U128) returns (q: U128, r: U128)
    requires b != 0
    ensures Divides(a, b, q, r)
  {
    if b > a {
      q, r := 0, a;
    } else if High(b) == 0 {
      q, r := DivideByWord(a, Low(b));
    } else {
      q, r := DivideByBits(a, b);
    }
  }

  // ---- signed division --------------------------------------------------------------------------

  /** The quotient rounded toward zero. */
  function Quotient(x: int, y: int): (q: int)
    requires y != 0
  {
    if (x < 0) == (y < 0) then Abs(x) / Abs(y) else -(Abs(x) / Abs(y))
  }

  /** The remainder with the sign of the dividend. */
  function Remainder(x: int, y: int): (r: int)
    requires y != 0
  {
    if x < 0 then -(Abs(x) % Abs(y)) else Abs(x) % Abs(y)
  }

  /** Quotient and remainder truncate: they fit together, and the remainder is the smaller and has the sign of the
      dividend. */
  lemma QuotientAndRemainder(x: int, y: int)
    requires y != 0
    ensures Truncates(x, y, Quotient(x, y), Remainder(x, y))
  {
    DivMod(Abs(x), Abs(y));
  }

  /** (x ^ s) - s for a sign mask s: negates in two's complement when the mask is set. */
  function Negated(x: U128, mask: bool): (w: U128) {
    if mask then Wrap128(B128 - 1 - x + 1) else x
  }

  lemma DivisionIsUnique(a: int, b: int, q: int, r: int)
    requires b > 0 && Divides(a, b, q, r)
    ensures q == a / b && r == a % b
  {
    DivModUnique(a, b, q, r);
  }

  /** Signed division; the remainder comes as the bits of a signed number. */
  method Divmodti3(x: I128, y: I128) returns (q: I128, r: U128)
    requires y != 0 && x > -B127 && y > -B127
    ensures q == Quotient(x, y) && Signed(r) == Remainder(x, y)
  {
    var sx, sy := x < 0, y < 0;
    hide Negated, Bits, Signed, Wrap128;
    var ax, ay := Negated(Bits(x), sx), Negated(Bits(y), sy);
    BitsAreMagnitude(x);
    BitsAreMagnitude(y);
    var uq, ur := Udivmodti4(ax, ay);
    DivisionIsUnique(ax, ay, uq, ur);
    QuotientSmall(ax, ay, uq, ur);
    q := Signed(Negated(uq, sx != sy));
    r := Negated(ur, sx);
    NegatedBack(uq, sx != sy);
    NegatedBack(ur, sx);
  }

  lemma BitsAreMagnitude(x: I128)
    requires x > -B127
    ensures Negated(Bits(x), x < 0) == Abs(x)
  {
  }

  lemma NegatedBack(x: U128, mask: bool)
    requires x < B127
    ensures var v: int := x; Signed(Negated(x, mask)) == if mask then -v else v
  {
  }

  lemma QuotientSmall(a: int, b: int, q: int, r: int)
    requires 0 <= a < B127 && 0 < b < B127 && Divides(a, b, q, r)
    ensures 0 <= q < B127 && r < B127
  {
    if q < 0 {
      MulLe(q, -1, b);
      assert false;
    }
    if q >= B127 {
      MulLe(1, b, q);
      assert false;
    }
  }
}
