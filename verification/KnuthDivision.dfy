/** Division of a 128-bit number by a 64-bit one, a 32-bit digit of the quotient at a time. */
module KnuthDivision {
  import opened WideWords
  import opened Arith

  // ---- one digit -----------------------------------------------------------------------------

  /** v with its top bit set, as two digits. */
  predicate Normalized(v: int, vn1: int, vn0: int) {
    v == vn1 * B32 + vn0 && 0 <= vn0 < B32 && B32 / 2 <= vn1 < B32
  }

  /** q is the digit: q times v goes into u followed by the digit d, with r left over. */
  predicate IsDigit(u: int, d: int, v: int, q: int, r: int) {
    u * B32 + d == q * v + r && 0 <= r < v && 0 <= q < B32
  }

  /** The estimate q of a digit with what it leaves of u. */
  predicate Estimate(u: int, vn1: int, q: int, rhat: int) {
    u == q * vn1 + rhat && 0 <= q <= B32 + 1 && 0 <= rhat
  }

  lemma EstimateBound(u: int, v: int, vn1: int, vn0: int, q: int, r: int)
    requires Normalized(v, vn1, vn0) && 0 <= u < v && u == q * vn1 + r && 0 <= r < vn1
    ensures 0 <= q <= B32 + 1
  {
    if q > B32 + 1 {
      MulLe(B32 + 2, q, vn1);
      assert false;
    }
    if q < 0 {
      MulLe(q, -1, vn1);
      assert false;
    }
  }

  lemma DivMod(x: int, d: int)
    requires d > 0
    ensures x == (x / d) * d + x % d && 0 <= x % d < d
  {
  }

  /** The first estimate is at most one more than the base. */
  lemma FirstEstimate(u: int, v: int, vn1: int, vn0: int)
    requires Normalized(v, vn1, vn0) && 0 <= u < v
    ensures Estimate(u, vn1, u / vn1, u - (u / vn1) * vn1) && u - (u / vn1) * vn1 < vn1
  {
    DivMod(u, vn1);
    EstimateBound(u, v, vn1, vn0, u / vn1, u % vn1);
  }

  /** The test of the correction loop finds exactly the estimates that are too large. */
  lemma TestFindsTooLarge(u: int, d: int, v: int, vn1: int, vn0: int, q: int, rhat: int)
    requires Normalized(v, vn1, vn0) && Estimate(u, vn1, q, rhat)
    ensures q * vn0 > B32 * rhat + d <==> q * v > u * B32 + d
  {
    assert q * v == (q * vn1) * B32 + q * vn0 by {
      assert q * (vn1 * B32 + vn0) == q * (vn1 * B32) + q * vn0;
      assert q * (vn1 * B32) == (q * vn1) * B32;
    }
    assert u * B32 == (q * vn1) * B32 + rhat * B32;
  }

  lemma TooLargeIsPositive(u: int, d: int, v: int, q: int)
    requires 0 <= u && 0 <= d && q * v > u * B32 + d && v > 0
    ensures q > 0
  {
    if q <= 0 {
      MulLe(q, 0, v);
      assert false;
    }
  }

  /** At the base or above, the estimate is too large. */
  lemma BaseIsTooLarge(u: int, d: int, v: int, q: int)
    requires 0 <= u < v && 0 <= d < B32 && q >= B32
    ensures q * v > u * B32 + d
  {
    MulLe(B32, q, v);
    MulLe(u + 1, v, B32);
    assert (u + 1) * B32 == u * B32 + B32;
  }

  /** An estimate that is not too large, one more than which is, is the digit. */
  lemma ExactEstimate(u: int, d: int, v: int, q: int)
    requires 0 <= u < v && 0 <= d < B32 && 0 <= q
    requires q * v <= u * B32 + d < (q + 1) * v
    ensures IsDigit(u, d, v, q, u * B32 + d - q * v)
  {
    assert (q + 1) * v == q * v + v;
    if q >= B32 {
      BaseIsTooLarge(u, d, v, q);
      assert false;
    }
  }

  lemma OneMoreIsTooLarge(u: int, d: int, v: int, vn1: int, vn0: int)
    requires Normalized(v, vn1, vn0) && 0 <= u && 0 <= d < B32
    ensures (u / vn1 + 1) * v > u * B32 + d
  {
    DivMod(u, vn1);
    var q := u / vn1 + 1;
    assert q * vn1 == (u / vn1) * vn1 + vn1 >= u + 1;
    assert q * v == (q * vn1) * B32 + q * vn0 by {
      assert q * (vn1 * B32 + vn0) == q * (vn1 * B32) + q * vn0;
      assert q * (vn1 * B32) == (q * vn1) * B32;
    }
    MulSign(q, vn0);
    MulLe(u + 1, q * vn1, B32);
  }

  /** The words compared in the test do not wrap around. */
  lemma NoWrap(vn0: int, d: int, q: int, rhat: int)
    requires 0 <= vn0 < B32 && 0 <= d < B32 && 0 <= q < B32 && 0 <= rhat < B32
    ensures Wrap64(q * vn0) == q * vn0 && Wrap64(B32 * rhat + d) == B32 * rhat + d
  {
    MulLe(q, B32 - 1, vn0);
    MulSign(q, vn0);
  }

  /** Once the remainder has reached the base, the estimate cannot be too large. */
  lemma LargeRemainder(vn0: int, d: int, q: int, rhat: int)
    requires 0 <= vn0 < B32 && 0 <= d && 0 <= q <= B32 <= rhat
    ensures q * vn0 <= B32 * rhat + d
  {
    MulLe(q, B32, vn0);
    MulLe(vn0, rhat, B32);
  }

  /** The estimate after a correction; after two, the remainder has reached the base. */
  lemma Correction(u: int, vn1: int, q: int, rhat: int, rounds: nat)
    requires Estimate(u, vn1, q, rhat) && q > 0 && B32 / 2 <= vn1 && rounds <= 1 && rhat >= rounds * vn1
    ensures Estimate(u, vn1, q - 1, rhat + vn1) && q - 1 <= B32
    ensures rhat + vn1 >= (rounds + 1) * vn1 && (rhat + vn1 < B32 ==> rounds == 0)
  {
    assert q * vn1 == (q - 1) * vn1 + vn1;
    assert (rounds + 1) * vn1 == rounds * vn1 + vn1;
  }

  /** One digit of the quotient; the correction loop runs at most twice. */
  method Digit(u: U64, d: int, v: U64, vn1: int, vn0: int) returns (q: int, ghost rounds: nat)
    requires Normalized(v, vn1, vn0) && u < v && 0 <= d < B32
    ensures IsDigit(u, d, v, q, u * B32 + d - q * v)
    ensures rounds <= 2
  {
    FirstEstimate(u, v, vn1, vn0);
    OneMoreIsTooLarge(u, d, v, vn1, vn0);
    q := u / vn1;
    var rhat := u - q * vn1;
    rounds := 0;
    while q >= B32 || Wrap64(q * vn0) > Wrap64(B32 * rhat + d)
      invariant Estimate(u, vn1, q, rhat) && rhat < B32 && (q + 1) * v > u * B32 + d
      invariant rhat >= rounds * vn1 && rounds <= 1
      decreases q
    {
      if q >= B32 {
        BaseIsTooLarge(u, d, v, q);
      } else {
        NoWrap(vn0, d, q, rhat);
        TestFindsTooLarge(u, d, v, vn1, vn0, q, rhat);
      }
      TooLargeIsPositive(u, d, v, q);
      Correction(u, vn1, q, rhat, rounds);
      q := q - 1;
      rhat := rhat + vn1;
      rounds := rounds + 1;
      if rhat >= B32 {
        break;
      }
    }
    if rhat >= B32 {
      LargeRemainder(vn0, d, q, rhat);
    } else {
      NoWrap(vn0, d, q, rhat);
    }
    TestFindsTooLarge(u, d, v, vn1, vn0, q, rhat);
    ExactEstimate(u, d, v, q);
  }

  // ---- the whole quotient ------------------------------------------------------------------------

  /** Putting words with no common bits together. */
  function Or(a: int, b: int, n: nat): (w: int)
    requires a % Pow2(n) == 0 && 0 <= b < Pow2(n)
  {
    a + b
  }

  /** A word shifted left, as the bits that leave it and the bits that stay. */
  lemma ShiftedWord(u: U64, p: int, q: int)
    requires p > 0 && q > 0 && p * q == B64
    ensures 0 <= u / q < p && u * p == (u / q) * B64 + Wrap64(u * p)
  {
    var h, l := u / q, u % q;
    DivMod(u, q);
    assert h * q < B64;
    if h >= p {
      MulLe(p, h, q);
      assert false;
    }
    if h < 0 {
      MulLe(h, -1, q);
      assert false;
    }
    assert u * p == (h * q) * p + l * p;
    assert (h * q) * p == h * (p * q);
    MulLt(l, q, p);
    MulSign(l, p);
    DivModUnique(u * p, B64, h, l * p);
  }

  lemma ShiftedSum(u1: int, u0: U64, p: int, q: int)
    requires p > 0 && q > 0 && p * q == B64
    ensures (u1 * B64 + u0) * p == (u1 * p + u0 / q) * B64 + Wrap64(u0 * p)
  {
    ShiftedWord(u0, p, q);
    assert (u1 * B64 + u0) * p == (u1 * p) * B64 + u0 * p;
  }

  lemma NoShiftOverflow(u1: int, v0: int, p: int)
    requires p > 0 && 0 <= u1 < v0 && v0 * p < B64
    ensures Wrap64(v0 * p) == v0 * p && Wrap64(u1 * p) == u1 * p && u1 * p + p <= v0 * p
  {
    MulLe(u1 + 1, v0, p);
    MulSign(u1, p);
    MulSign(v0, p);
  }

  lemma ShiftedDividend(u1: U64, u0: U64, v0: U64, p: int, q: int)
    requires p > 0 && q > 0 && p * q == B64 && u1 < v0 && v0 * p < B64
    ensures Wrap64(v0 * p) == v0 * p && Wrap64(u1 * p) == u1 * p && (u1 * p) % p == 0
    ensures 0 <= u0 / q < p && u1 * p + u0 / q < v0 * p
    ensures (u1 * B64 + u0) * p == (u1 * p + u0 / q) * B64 + Wrap64(u0 * p)
  {
    hide *;
    ShiftedWord(u0, p, q);
    NoShiftOverflow(u1, v0, p);
    MultipleMod(p, u1);
    ShiftedSum(u1, u0, p, q);
  }

  /** The dividend and the divisor, shifted left until the divisor's top bit is set. */
  method Normalize(u1: U64, u0: U64, v0: U64) returns (s: nat, v: U64, un64: U64, un10: U64)
    requires v0 != 0 && u1 < v0
    ensures s < 64 && v == v0 * Pow2(s) && v >= B63
    ensures un64 < v && un64 * B64 + un10 == (u1 * B64 + u0) * Pow2(s)
  {
    hide Pow2;
    ClzBound(v0);
    s := Clz(v0);
    if s > 0 {
      Pow2Add(s, 64 - s);
      Pow2Values();
      ShiftedDividend(u1, u0, v0, Pow2(s), Pow2(64 - s));
      v := Wrap64(v0 * Pow2(s));
      un64 := Or(Wrap64(u1 * Pow2(s)), u0 / Pow2(64 - s), s);
      un10 := Wrap64(u0 * Pow2(s));
    } else {
      Pow2Zero();
      v, un64, un10 := v0, u1, u0;
    }
  }

  lemma Pow2Zero()
    ensures Pow2(0) == 1
  {
  }

  /** Undoing the normalization gives back the remainder. */
  lemma Denormalized(u: int, v0: int, p: int, q: int, rn: int)
    requires p > 0 && v0 > 0 && u * p == q * (v0 * p) + rn && 0 <= rn < v0 * p
    ensures u == q * v0 + rn / p && 0 <= rn / p < v0
  {
    assert rn == p * (u - q * v0);
    MultipleMod(p, u - q * v0);
    var r := u - q * v0;
    if r < 0 {
      MulLe(r, -1, p);
      assert false;
    }
    if r >= v0 {
      MulLe(v0, r, p);
      assert false;
    }
  }

  /** A remainder below 2^64 is not changed by computing it in wrapping words. */
  lemma WrappedRemainder(x: int, y: int, r: int)
    requires x - y == r && 0 <= r < B64
    ensures Wrap64(x - y) == r
  {
  }

  lemma TwoDigits(u: int, d1: int, d0: int, v: int, q1: int, r1: int, q0: int, r0: int)
    requires IsDigit(u, d1, v, q1, r1) && IsDigit(r1, d0, v, q0, r0)
    ensures u * B64 + (d1 * B32 + d0) == (q1 * B32 + q0) * v + r0 && 0 <= q1 * B32 + q0 < B64
  {
    assert (u * B32 + d1) * B32 == (q1 * v) * B32 + r1 * B32;
    assert (q1 * B32 + q0) * v == (q1 * v) * B32 + q0 * v;
  }

  /** The exact quotient and remainder of a 128-bit dividend whose quotient fits a word. */
  method Udiv128by64to64Default(u1: U64, u0: U64, v0: U64) returns (q: U64, r: U64)
    requires v0 != 0 && u1 < v0
    ensures u1 * B64 + u0 == q * v0 + r && r < v0
  {
    var s, v, un64, un10 := Normalize(u1, u0, v0);
    var vn1, vn0 := v / B32, v % B32;
    var un1, un0 := un10 / B32, un10 % B32;
    var q1, n1 := Digit(un64, un1, v, vn1, vn0);
    ghost var r1 := un64 * B32 + un1 - q1 * v;
    var un21 := Wrap64(un64 * B32 + un1 - q1 * v);
    WrappedRemainder(un64 * B32 + un1, q1 * v, r1);
    var q0, n0 := Digit(un21, un0, v, vn1, vn0);
    ghost var r0 := un21 * B32 + un0 - q0 * v;
    WrappedRemainder(un21 * B32 + un0, q0 * v, r0);
    TwoDigits(un64, un1, un0, v, q1, r1, q0, r0);
    Denormalized(u1 * B64 + u0, v0, Pow2(s), q1 * B32 + q0, r0);
    r := Wrap64(un21 * B32 + un0 - q0 * v) / Pow2(s);
    q := q1 * B32 + q0;
  }
}
