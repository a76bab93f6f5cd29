/** Multiplication of 128-bit numbers from products of their words, with an overflow flag. */
module Multiply128 {
  import opened WideWords
  import opened Arith
  import D = Division128

  lemma WordProduct(x: U64, y: U64)
    ensures 0 <= x * y < B128
  {
    MulSign(x, y);
    MulLe(x, B64 - 1, y);
  }

  /** The unsigned multiply instruction: the product of two words, and whether it needs both
      words of the result. */
  function AsmMul(x: U64, y: U64): (r: (U128, bool))
    ensures r.0 == x * y && (r.1 <==> x * y >= B64)
  {
    WordProduct(x, y);
    (x * y, x * y >= B64)
  }

  /** The add instruction: the sum of two words, and whether it carried or set the top bit. */
  function AsmAdd(x: U64, y: U64): (r: (U64, bool))
    ensures r.0 == Wrap64(x + y) && (r.1 <==> x + y >= B63)
  {
    (Wrap64(x + y), x + y >= B64 || Wrap64(x + y) >= B63)
  }

  /** The partial products of two 128-bit numbers. */
  lemma PartialProducts(xh: int, xl: int, yh: int, yl: int)
    ensures (xh * B64 + xl) * (yh * B64 + yl) == (xh * yh) * B128 + (xl * yh + yl * xh) * B64 + xl * yl
  {
    assert (xh * B64 + xl) * (yh * B64 + yl)
        == (xh * B64) * (yh * B64) + (xh * B64) * yl + xl * (yh * B64) + xl * yl;
    assert (xh * B64) * (yh * B64) == (xh * yh) * B128;
    assert (xh * B64) * yl == (yl * xh) * B64 && xl * (yh * B64) == (xl * yh) * B64;
  }

  /** What lies above the low 128 bits of a product, and the word below it. */
  lemma Overflows(product: int, hh: int, t0: U128, t1: U128, l: U128, m: U64, c: int)
    requires product == hh * B128 + (t0 + t1) * B64 + l && hh >= 0
    requires Low(t0) + Low(t1) + High(l) == c * B64 + m && c >= 0
    ensures product == (hh + High(t0) + High(t1) + c) * B128 + Join(m, Low(l))
    ensures Wrap128(product) == Join(m, Low(l))
    ensures product >= B127 <==> hh + High(t0) + High(t1) + c > 0 || m >= B63
  {
    var k := hh + High(t0) + High(t1) + c;
    assert t0 == High(t0) * B64 + Low(t0) && t1 == High(t1) * B64 + Low(t1) && l == High(l) * B64 + Low(l);
    DivModUnique(product, B128, k, Join(m, Low(l)));
  }

  lemma ProductOfWords(x: U128, y: U128)
    ensures var hh := High(x) * High(y);
            && x * y == hh * B128 + (AsmMul(Low(x), High(y)).0 + AsmMul(Low(y), High(x)).0) * B64
                        + AsmMul(Low(x), Low(y)).0
            && hh >= 0 && (hh > 0 <==> High(x) != 0 && High(y) != 0)
  {
    assert x == High(x) * B64 + Low(x) && y == High(y) * B64 + Low(y);
    PartialProducts(High(x), Low(x), High(y), Low(y));
    MulSign(High(x), High(y));
  }

  lemma HighFlag(t: U128)
    ensures 0 <= High(t) && (t >= B64 <==> High(t) > 0)
  {
  }

  /** Putting the partial products together. */
  lemma Combine(product: int, hh: int, t0: U128, t1: U128, l: U128)
    requires product == hh * B128 + (t0 + t1) * B64 + l && hh >= 0
    ensures var a := AsmAdd(High(l), Low(t0)); var m := AsmAdd(a.0, Low(t1));
            && Wrap128(product) == Join(m.0, Low(l))
            && (product >= B127 <==> hh > 0 || t0 >= B64 || t1 >= B64 || a.1 || m.1)
  {
    hide AsmAdd, Wrap128, High, Low;
    HighFlag(t0);
    HighFlag(t1);
    Carries(High(l), Low(t0), Low(t1));
    var m := AsmAdd(AsmAdd(High(l), Low(t0)).0, Low(t1));
    Overflows(product, hh, t0, t1, l, m.0, (Low(t0) + Low(t1) + High(l)) / B64);
  }

  /** What the partial products say of a product; the flags are those of the instructions. */
  lemma Multi3Flags(x: U128, y: U128)
    ensures var l, t0, t1 := AsmMul(Low(x), Low(y)), AsmMul(Low(x), High(y)), AsmMul(Low(y), High(x));
            var a := AsmAdd(High(l.0), Low(t0.0)); var m := AsmAdd(a.0, Low(t1.0));
            && Wrap128(x * y) == Join(m.0, Low(l.0))
            && (x * y >= B127 <==> (High(x) != 0 && High(y) != 0) || t0.1 || t1.1 || a.1 || m.1)
  {
    hide AsmAdd, Wrap128, High, Low;
    ProductOfWords(x, y);
    var l, t0, t1 := AsmMul(Low(x), Low(y)), AsmMul(Low(x), High(y)), AsmMul(Low(y), High(x));
    Combine(x * y, High(x) * High(y), t0.0, t1.0, l.0);
  }

  /** The product modulo 2^128, with the flag set exactly when the product has 128 bits or more. */
  method Multi3(x: U128, y: U128) returns (overflow: bool, res: U128)
    ensures res == Wrap128(x * y) && (overflow <==> x * y >= B127)
  {
    if x == 0 && y == 0 {
      return false, 0;
    }
    hide High, Low, AsmMul, AsmAdd, Wrap128;
    Multi3Flags(x, y);
    var high := High(x) != 0 && High(y) != 0;
    var l := AsmMul(Low(x), Low(y)).0;
    var t0 := AsmMul(Low(x), High(y));
    var t1 := AsmMul(Low(y), High(x));
    var a := AsmAdd(High(l), Low(t0.0));
    var m := AsmAdd(a.0, Low(t1.0));
    overflow := high || t0.1 || t1.1 || a.1 || m.1;
    res := Join(m.0, Low(l));
  }

  /** Adding three words one after the other. */
  lemma Carries(a: U64, b: U64, c: U64)
    ensures var s := AsmAdd(a, b); var t := AsmAdd(s.0, c);
            && (a + b + c) / B64 >= 0 && b + c + a == ((b + c + a) / B64) * B64 + t.0
            && (s.1 || t.1 <==> (b + c + a) / B64 > 0 || t.0 >= B63)
  {
  }

  /** The product of two signed numbers, with the flag set exactly when its magnitude needs 128
      bits. */
  method SignedMulti3(x: I128, y: I128) returns (overflow: bool, res: I128)
    requires x > -B127 && y > -B127
    ensures overflow <==> Abs(x * y) >= B127
    ensures !overflow ==> res == x * y
  {
    hide Wrap128;
    var sx, sy := x < 0, y < 0;
    var u;
    assert D.Negated(Bits(x), sx) == Abs(x) && D.Negated(Bits(y), sy) == Abs(y) by {
      NegatedBits(x);
      NegatedBits(y);
    }
    overflow, u := Multi3(D.Negated(Bits(x), sx), D.Negated(Bits(y), sy));
    MagnitudeOfProduct(x, y);
    SignedBits(u, sx != sy, Abs(x) * Abs(y));
    res := Signed(D.Negated(u, sx != sy));
  }

  lemma NegatedBits(x: I128)
    requires x > -B127
    ensures D.Negated(Bits(x), x < 0) == Abs(x)
  {
  }

  lemma SignedBits(u: U128, mask: bool, m: int)
    requires u == Wrap128(m) && m >= 0
    ensures m < B127 ==> Signed(D.Negated(u, mask)) == if mask then -m else m
  {
  }

  lemma MagnitudeOfProduct(x: int, y: int)
    ensures Abs(x * y) == Abs(x) * Abs(y)
    ensures x * y == if (x < 0) == (y < 0) then Abs(x) * Abs(y) else -(Abs(x) * Abs(y))
  {
    MulSign(Abs(x), Abs(y));
    assert (-x) * y == -(x * y) && x * (-y) == -(x * y) && (-x) * (-y) == x * y;
  }
}
