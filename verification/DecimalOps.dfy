/** Fixed-point decimals of scale 9: addition, multiplication and division, each in a branching
    and in a branch-free version, and when the two versions agree. */
module DecimalOps {
  import opened WideWords
  import opened Arith
  import opened Division128
  import opened Multiply128
  import K = KnuthDivision

  const ONE_BILLION: int := 1_000_000_000
  const HALF: int := 500_000_000
  const MAX_INT_VALUE: int := 999_999_999_999_999_999
  const MAX_FRAC_VALUE: int := 999_999_999
  const MAX_DECIMAL: int := MAX_INT_VALUE * ONE_BILLION + MAX_FRAC_VALUE

  datatype DecimalError = Ok | Truncated | Overflow

  predicate InRange(x: int) {
    -MAX_DECIMAL <= x <= MAX_DECIMAL
  }

  // ---- addition -------------------------------------------------------------------------------

  /** The nearest value a decimal can hold. */
  function Clamp(x: int): (c: int)
    ensures InRange(c) && (InRange(x) ==> c == x)
  {
    if x > MAX_DECIMAL then MAX_DECIMAL else if x < -MAX_DECIMAL then -MAX_DECIMAL else x
  }

  function DoAdd(x: int, y: int): (r: int) {
    if MAX_DECIMAL - x >= y then x + y else MAX_DECIMAL
  }

  function Add(x: int, y: int): (r: int) {
    if x == 0 then y
    else if y == 0 then x
    else if x > 0 then (if y > 0 then DoAdd(x, y) else x - (-y))
    else if y > 0 then y - (-x)
    else -DoAdd(-x, -y)
  }

  /** The branch-free version: the magnitude is clamped and the sign put back. */
  function Add2(x: I128, y: I128): (r: int) {
    var sum := Signed(Wrap128(x + y));
    var s := sum < 0;
    var m := Signed(Negated(Bits(sum), s));
    var c := if m > MAX_DECIMAL then MAX_DECIMAL else m;
    Signed(Negated(Bits(c), s))
  }

  lemma SignedWrap(x: int)
    requires -B127 <= x < B127
    ensures Signed(Wrap128(x)) == x
  {
    DivModUnique(x, B128, if x < 0 then -1 else 0, if x < 0 then x + B128 else x);
  }

  lemma SignedNegated(x: I128, mask: bool)
    requires x > -B127
    ensures Signed(Negated(Bits(x), mask)) == if mask then -x else x
  {
  }

  lemma Add2Clamps(x: I128, y: I128)
    requires -B127 < x + y < B127
    ensures Add2(x, y) == Clamp(x + y)
  {
    hide Wrap128, Negated, Bits, Signed;
    var sum := x + y;
    SignedWrap(sum);
    SignedNegated(sum, sum < 0);
    SignedNegated(if Abs(sum) > MAX_DECIMAL then MAX_DECIMAL else Abs(sum), sum < 0);
  }

  /** Both versions add and clamp, on decimals. */
  lemma AddAgrees(x: I128, y: I128)
    requires InRange(x) && InRange(y)
    ensures Add(x, y) == Clamp(x + y) == Add2(x, y)
  {
    hide Add2;
    Add2Clamps(x, y);
  }

  // ---- multiplication ---------------------------------------------------------------------------

  function Clz128(v: U128): (n: nat) {
    if v == 0 then 16 else if High(v) != 0 then Clz(High(v)) else Clz(Low(v)) + 64
  }

  /** The product of the magnitudes, rounded by 10^9 with halves going up, or the largest value. */
  function MulOf(p: nat): (r: int) {
    if p / ONE_BILLION > MAX_DECIMAL then MAX_DECIMAL else (p + HALF) / ONE_BILLION
  }

  function Rounded(p: nat): (r: (int, DecimalError)) {
    var q, rem := p / ONE_BILLION, p % ONE_BILLION;
    if q > MAX_DECIMAL then (MAX_DECIMAL, Overflow)
    else if rem == 0 then (q, Ok)
    else (if rem >= HALF then q + 1 else q, Truncated)
  }

  function DoMul(x: I128, y: I128): (r: (int, DecimalError))
    requires x > 0 && y > 0
  {
    if Clz128(x) + Clz128(y) < 16 || (B127 - 1) / x < y then (MAX_DECIMAL, Overflow)
    else
      MulSign(x, y);
      Rounded(x * y)
  }

  function Mul(x: I128, y: I128): (r: int)
    requires x > -B127 && y > -B127
  {
    if x == 0 || y == 0 then 0
    else
      var r := DoMul(Abs(x), Abs(y)).0;
      if (x > 0 && y > 0) || (x < 0 && y < 0) then r else -r
  }

  lemma Clz128Bound(v: U128)
    requires v != 0
    ensures v * Pow2(Clz128(v)) >= B127
  {
    hide Pow2;
    var n := Clz128(v);
    if High(v) != 0 {
      MulLe(High(v) * B64, v, Pow2(n));
      assert (High(v) * B64) * Pow2(n) == (High(v) * Pow2(n)) * B64;
    } else {
      assert v == Low(v);
      Pow2Add(n - 64, 64);
      Pow2Values();
      assert v * Pow2(n) == (v * Pow2(n - 64)) * B64;
    }
  }

  /** The test on leading zeros only finds products that overflow anyway. */
  lemma FewLeadingZeros(x: U128, y: U128)
    requires x != 0 && y != 0 && Clz128(x) + Clz128(y) < 16
    ensures x * y >= B127
  {
    hide Pow2, Clz128;
    var m, n := Clz128(x), Clz128(y);
    Clz128Bound(x);
    Clz128Bound(y);
    Pow2Add(m, n);
    Pow2Grows(m + n, 32);
    Pow2Values();
    ProductBound(x, y, Pow2(m), Pow2(n));
  }

  lemma ProductBound(x: int, y: int, p: int, q: int)
    requires x > 0 && y > 0 && p > 0 && q > 0 && x * p >= B127 && y * q >= B127 && p * q <= B32
    ensures x * y >= B127
  {
    MulLe(B127, x * p, y * q);
    MulLe(B127, y * q, B127);
    assert (x * p) * (y * q) == (x * y) * (p * q);
    MulSign(x, y);
    MulLe(p * q, B32, x * y);
  }

  lemma DivisionTest(x: int, y: int)
    requires x > 0 && y > 0
    ensures (B127 - 1) / x < y <==> x * y >= B127
  {
    var q := (B127 - 1) / x;
    K.DivMod(B127 - 1, x);
    if q < y {
      MulLe(q + 1, y, x);
      assert (q + 1) * x == q * x + x;
    } else {
      MulLe(y, q, x);
    }
  }

  /** Multiplying magnitudes gives the exact product rounded, and the error says how. */
  lemma DoMulRounds(x: I128, y: I128)
    requires x > 0 && y > 0
    ensures x * y >= 0 && DoMul(x, y) == Rounded(x * y)
  {
    hide Clz128;
    MulSign(x, y);
    DivisionTest(x, y);
    if Clz128(x) + Clz128(y) < 16 {
      FewLeadingZeros(x, y);
    }
  }

  /** Rounding is to the nearest, unless the largest value is returned. */
  lemma RoundedIsNearest(p: nat)
    ensures Rounded(p).0 == MulOf(p) <= MAX_DECIMAL + 1
    ensures Rounded(p).1.Overflow? <==> p / ONE_BILLION > MAX_DECIMAL
    ensures Rounded(p).1.Overflow? ==> Rounded(p).0 == MAX_DECIMAL
    ensures !Rounded(p).1.Overflow? ==> -HALF <= p - MulOf(p) * ONE_BILLION && p - MulOf(p) * ONE_BILLION < HALF
    ensures Rounded(p).1.Ok? <==> p / ONE_BILLION <= MAX_DECIMAL && p == MulOf(p) * ONE_BILLION
  {
  }

  /** Multiplication: the product of the magnitudes rounded, with the sign of the product. */
  lemma MulRounds(x: I128, y: I128)
    requires x > -B127 && y > -B127
    ensures Mul(x, y) == if x * y < 0 then -MulOf(Abs(x * y)) else MulOf(Abs(x * y))
  {
    hide DoMul, MulOf, Rounded;
    MagnitudeOfProduct(x, y);
    if x == 0 || y == 0 {
      assert x * y == 0;
      ZeroProduct();
    } else {
      DoMulRounds(Abs(x), Abs(y));
      RoundedIsNearest(Abs(x) * Abs(y));
      MulSign(Abs(x), Abs(y));
    }
  }

  lemma ZeroProduct()
    ensures MulOf(0) == 0
  {
  }

  /** What the branch-free version makes of a product that may have wrapped around: a negative
      remainder, taken as unsigned, is always large enough to round up. */
  function Mul2Of(w: int): (r: int) {
    var q, r := Quotient(w, ONE_BILLION), Remainder(w, ONE_BILLION);
    if r < 0 || r >= HALF then q + 1 else q
  }

  lemma BitsProduct(x: I128, y: I128)
    ensures Wrap128(Bits(x) * Bits(y)) == Wrap128(x * y)
  {
    var i, j := if x < 0 then 1 else 0, if y < 0 then 1 else 0;
    assert (x + i * B128) * (y + j * B128) == x * y + B128 * (x * j + i * y + i * j * B128);
    ShiftDivMod(x * y, B128, x * j + i * y + i * j * B128);
  }

  method Mul2(x: I128, y: I128) returns (res: I128)
    requires Signed(Wrap128(x * y)) > -B127
    ensures res == Mul2Of(Signed(Wrap128(x * y)))
  {
    hide Wrap128;
    var overflow, u := Multi3(Bits(x), Bits(y));
    BitsProduct(x, y);
    var r;
    res, r := Divmodti3(Signed(u), ONE_BILLION);
    if r != 0 {
      if r >= HALF {
        res := res + 1;
      }
    }
  }

  /** Where the product fits, the two versions agree exactly when the product is not negative and
      its quotient is a decimal, or it is negative and its quotient is an exact decimal, or it is
      negative and just beyond the range. */
  lemma Mul2Agrees(x: I128, y: I128)
    requires x > -B127 && y > -B127 && -B127 < x * y < B127
    ensures Mul2Of(x * y) == Mul(x, y) <==>
            var p := x * y; var q, r := Abs(p) / ONE_BILLION, Abs(p) % ONE_BILLION;
            if p >= 0 then q <= MAX_DECIMAL
            else (q <= MAX_DECIMAL && r == 0) || (q == MAX_DECIMAL + 1 && r != 0)
  {
    MulRounds(x, y);
  }

  /** Half of -3 units: -2 when the half goes away from zero, but 0 in the branch-free version. */
  lemma Mul2Differs()
    ensures Mul(-3, HALF) == -2 && Mul2Of(-1_500_000_000) == 0
  {
    hide Mul, Mul2Of;
    MulRounds(-3, HALF);
    Mul2Window(-1_500_000_000, 0);
  }

  /** The products the branch-free version rounds to t. */
  predicate Window(w: int, t: int) {
    if w >= 0 then t * ONE_BILLION - HALF <= w < t * ONE_BILLION + HALF
    else w == t * ONE_BILLION || (t - 2) * ONE_BILLION < w < (t - 1) * ONE_BILLION
  }

  lemma Mul2Window(w: int, t: int)
    ensures Mul2Of(w) == t <==> Window(w, t)
  {
  }

  /** Where the product does not fit, one version returns the largest value and the other rounds
      the product that wrapped around; they agree exactly when that falls into the window. */
  lemma Mul2AgreesOnOverflow(x: I128, y: I128)
    requires x > -B127 && y > -B127 && Abs(x * y) >= B127
    ensures Mul(x, y) == if x * y > 0 then MAX_DECIMAL else -MAX_DECIMAL
    ensures var w := Signed(Wrap128(x * y));
            Mul2Of(w) == Mul(x, y) <==> Window(w, if x * y > 0 then MAX_DECIMAL else -MAX_DECIMAL)
  {
    hide Mul, Mul2Of, Window, Wrap128, Signed;
    MulRounds(x, y);
    Mul2Window(Signed(Wrap128(x * y)), if x * y > 0 then MAX_DECIMAL else -MAX_DECIMAL);
  }

  // ---- division ---------------------------------------------------------------------------------

  /** The magnitudes divided; a remainder of at least half the divisor, rounded down, rounds up. */
  function DoDiv(x: nat, y: nat): (r: (int, DecimalError))
    requires y > 0
  {
    var q, rem := x * ONE_BILLION / y, x * ONE_BILLION % y;
    if rem == 0 then (q, Ok)
    else (if rem >= y / 2 then q + 1 else q, Truncated)
  }

  function Div(x: I128, y: I128): (r: int) {
    if x == 0 || y == 0 then 0
    else
      var r := DoDiv(Abs(x), Abs(y)).0;
      if (x > 0 && y > 0) || (x < 0 && y < 0) then r else -r
  }

  /** The quotient is off by at most half the divisor, rounded up; it is a nearest one exactly
      unless the divisor is odd and the remainder the largest below its half. */
  lemma DoDivRounds(x: nat, y: nat)
    requires y > 0
    ensures var r := DoDiv(x, y).0; var e := r * y - x * ONE_BILLION;
            && 2 * Abs(e) <= y + 1
            && (2 * Abs(e) <= y <==> !(y % 2 == 1 && y > 1 && x * ONE_BILLION % y == y / 2))
            && (DoDiv(x, y).1.Ok? <==> e == 0) && (DoDiv(x, y).1.Truncated? <==> e != 0)
  {
    var d := x * ONE_BILLION;
    var q, rem := d / y, d % y;
    K.DivMod(d, y);
    assert (q + 1) * y == q * y + y;
    if rem != 0 && rem >= y / 2 {
      assert DoDiv(x, y).0 * y - d == y - rem;
    } else {
      assert DoDiv(x, y).0 * y - d == -rem;
    }
  }

  /** How far t times the divisor a may be from the dividend: less than half the divisor below it, rounded down, and as
      far above it as that leaves. */
  predicate Near(e: int, a: int) {
    e == 0 || -(a / 2) < e < 0 || (0 < e < a && e <= a - a / 2)
  }

  /** The quotient is the one number that near. */
  lemma DoDivIsNear(x: nat, y: nat, t: int)
    requires y > 0
    ensures DoDiv(x, y).0 == t <==> Near(t * y - x * ONE_BILLION, y)
  {
    var d := x * ONE_BILLION;
    var q, rem := d / y, d % y;
    K.DivMod(d, y);
    var k := t - q;
    assert t * y - d == k * y - rem by { assert t * y == q * y + k * y; }
    if k >= 2 {
      MulLe(2, k, y);
    } else if k <= -1 {
      MulLe(k, -1, y);
    }
  }

  /** Division for all signs: a zero operand gives zero, a sign goes through, the error is at most half the divisor
      rounded up, and the result is the one number whose magnitude is near and whose sign is right. */
  lemma DivRounds(x: I128, y: I128, t: int)
    requires x > -B127 && y > -B127
    ensures x == 0 || y == 0 ==> Div(x, y) == 0
    ensures Div(-x, y) == -Div(x, y) == Div(x, -y)
    ensures y != 0 ==> 2 * Abs(Div(x, y) * y - x * ONE_BILLION) <= Abs(y) + 1
    ensures x != 0 && y != 0 ==>
              (Div(x, y) == t <==>
               Near((if (x < 0) == (y < 0) then t else -t) * Abs(y) - Abs(x * ONE_BILLION), Abs(y)))
  {
    if x != 0 && y != 0 {
      hide DoDiv, Near;
      var s := if (x < 0) == (y < 0) then t else -t;
      DoDivIsNear(Abs(x), Abs(y), s);
      DoDivRounds(Abs(x), Abs(y));
      SignedError(x, y, DoDiv(Abs(x), Abs(y)).0);
      assert Abs(x * ONE_BILLION) == Abs(x) * ONE_BILLION;
    }
  }

  lemma SignedError(x: int, y: int, m: int)
    requires x != 0 && y != 0
    ensures var r := if (x < 0) == (y < 0) then m else -m;
            Abs(r * y - x * ONE_BILLION) == Abs(m * Abs(y) - Abs(x) * ONE_BILLION)
  {
    var a: int := Abs(y);
    Negations(m, a);
    assert y == a || y == -a;
  }

  /** One third is rounded up, although what is cut off is less than a half. */
  lemma DoDivCanMissTheNearest()
    ensures DoDiv(1, 3).0 == 333_333_334 && 2 * (1 * ONE_BILLION - 333_333_333 * 3) < 3
  {
  }

  /** What the branch-free version returns for each combination of signs; a remainder is taken,
      and compared, as the bits of a signed number. */
  function Div2Of(x: int, y: int): (r: int)
    requires y != 0
  {
    var d := x * ONE_BILLION;
    var q, r, h := Quotient(d, y), Abs(d) % Abs(y), Abs(y) / 2;
    if r == 0 then q
    else if x > 0 && y > 0 then (if r >= h then q + 1 else q)
    else if x < 0 && y > 0 then q + 1
    else if x > 0 then q
    else if r <= Abs(y) - h then q + 1
    else q
  }

  /** How far t times the divisor may be from the dividend in the branch-free version, for each combination of signs. */
  predicate Near2(x: int, y: int, e: int) {
    || e == 0
    || (x > 0 && y > 0 && Near(e, y))
    || (x < 0 && y > 0 && y < e < 2 * y)
    || (x > 0 && y < 0 && y < e < 0)
    || (x < 0 && y < 0 && (-y - -y / 2 < e < -y || y < e <= -(-y / 2)))
  }

  /** The branch-free version gives the one number that near: off by more than the divisor where only the dividend is
      negative. */
  lemma Div2IsNear(x: int, y: int, t: int)
    requires x != 0 && y != 0
    ensures Div2Of(x, y) == t <==> Near2(x, y, t * y - x * ONE_BILLION)
  {
    hide Near2, Quotient, Remainder;
    var d, a: int := x * ONE_BILLION, Abs(y);
    var q, rem: int := Quotient(d, y), Abs(d) % a;
    QuotientLeaves(d, y, q, rem);
    var k := t - q;
    Spread(t, q, y, k);
    Multiples(k, a);
    UpIsNear(x, y, a, rem, k, k * a);
  }

  lemma QuotientLeaves(d: int, y: int, q: int, rem: int)
    requires y != 0 && q == Quotient(d, y) && rem == Abs(d) % Abs(y)
    ensures q * y == d - (if d < 0 then -rem else rem) && 0 <= rem < Abs(y)
  {
    QuotientAndRemainder(d, y);
  }

  lemma Spread(t: int, q: int, y: int, k: int)
    requires k == t - q
    ensures t * y == q * y + (if y < 0 then -(k * Abs(y)) else k * Abs(y))
  {
    assert t * y == q * y + k * y;
  }

  lemma Multiples(k: int, a: int)
    requires a > 0
    ensures (k >= 2 ==> k * a >= 2 * a) && (k <= -1 ==> k * a <= -a)
  {
    if k >= 2 {
      MulLe(2, k, a);
    } else if k <= -1 {
      MulLe(k, -1, a);
    }
  }

  /** Whether the branch-free version adds one to the quotient. */
  predicate RoundsUp(x: int, y: int, rem: int) {
    var a := Abs(y);
    if rem == 0 || (x > 0 && y < 0) then false
    else if x < 0 && y > 0 then true
    else if x > 0 then rem >= a / 2
    else rem <= a - a / 2
  }

  lemma UpIsNear(x: int, y: int, a: int, rem: int, k: int, ka: int)
    requires x != 0 && y != 0 && a == Abs(y) && 0 <= rem < a
    requires ka == (if k == 0 then 0 else if k == 1 then a else ka)
    requires (k >= 2 ==> ka >= 2 * a) && (k <= -1 ==> ka <= -a)
    ensures var e := (if y < 0 then -ka else ka) - (if x < 0 then -rem else rem);
            Near2(x, y, e) <==> k == if RoundsUp(x, y, rem) then 1 else 0
  {
  }

  method Div2(x: I128, y: I128) returns (res: I128)
    requires -B127 < x * ONE_BILLION < B127 && y > -B127
    ensures res == if x == 0 || y == 0 then 0 else Div2Of(x, y)
  {
    if x == 0 || y == 0 {
      return 0;
    }
    var r;
    res, r := Divmodti3(x * ONE_BILLION, y);
    QuotientAndRemainder(x * ONE_BILLION, y);
    if r != 0 {
      if r >= Bits(y / 2) {
        res := res + 1;
      }
    }
  }

  /** The two versions agree exactly when the division leaves nothing, or both operands are
      positive, or only the divisor is negative and nothing is rounded up, or both are negative
      and the remainder is half the divisor, rounded either way. */
  lemma Div2Agrees(x: I128, y: I128)
    requires x != 0 && y != 0
    ensures Div2Of(x, y) == Div(x, y) <==>
            var r, h := Abs(x * ONE_BILLION) % Abs(y), Abs(y) / 2;
            || r == 0
            || (x > 0 && y > 0)
            || (x > 0 && y < 0 && r < h)
            || (x < 0 && y < 0 && h <= r <= Abs(y) - h)
  {
    assert Abs(x * ONE_BILLION) == Abs(x) * ONE_BILLION;
  }

  /** A seventh, of two negative numbers: 142857142.857 is rounded one way and cut off the other. */
  lemma Div2Differs()
    ensures Div(-1, -7) == 142_857_143 && Div2Of(-1, -7) == 142_857_142
  {
  }
}
