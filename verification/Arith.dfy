/** Facts about products, quotients and remainders that the solver does not find by itself. */
module Arith {

  function Min(a: int, b: int): (m: int) {
    if a <= b then a else b
  }

  function Max(a: int, b: int): (m: int) {
    if a >= b then a else b
  }

  lemma MulSign(a: int, b: int)
    ensures a >= 0 && b >= 0 ==> a * b >= 0
    ensures a > 0 && b > 0 ==> a * b > 0
  {
  }

  lemma MulLe(a: int, b: int, c: int)
    requires a <= b && c >= 0
    ensures a * c <= b * c
    ensures c * a <= c * b
  {
    MulSign(b - a, c);
    assert (b - a) * c == b * c - a * c;
  }

  lemma MulLt(a: int, b: int, c: int)
    requires a < b && c > 0
    ensures a * c < b * c
    ensures c * a < c * b
  {
    MulSign(b - a, c);
    assert (b - a) * c == b * c - a * c;
  }

  lemma MultipleBound(d: int, k: int)
    requires d > 0
    ensures k >= 1 ==> d * k >= d
    ensures k <= -1 ==> d * k <= -d
  {
    if k >= 1 {
      MulLe(1, k, d);
    } else if k <= -1 {
      MulLe(k, -1, d);
    }
  }

  /** The quotient and the remainder are the only ones that fit. */
  lemma DivModUnique(x: int, d: int, q: int, r: int)
    requires d > 0 && x == d * q + r && 0 <= r < d
    ensures x / d == q && x % d == r
  {
    var q', r' := x / d, x % d;
    assert x == d * q' + r';
    assert d * (q - q') == d * q - d * q';
    MultipleBound(d, q - q');
  }

  lemma MultipleMod(d: int, k: int)
    requires d > 0
    ensures (d * k) % d == 0 && (d * k) / d == k
  {
    DivModUnique(d * k, d, k, 0);
  }

  /** Adding a multiple of the divisor moves the quotient and keeps the remainder. */
  lemma ShiftDivMod(x: int, d: int, k: int)
    requires d > 0
    ensures (x + d * k) / d == x / d + k
    ensures (x + d * k) % d == x % d
  {
    assert d * (x / d + k) == d * (x / d) + d * k;
    DivModUnique(x + d * k, d, x / d + k, x % d);
  }

  lemma SameRemainder(x: int, y: int, d: int)
    requires d > 0 && x % d == y % d
    ensures (y - x) % d == 0
    ensures y - x == d * (y / d - x / d)
  {
    assert d * (y / d - x / d) == d * (y / d) - d * (x / d);
    MultipleMod(d, y / d - x / d);
  }

  lemma Cancel(p: int, a: int, b: int)
    requires p > 0 && p * a == p * b
    ensures a == b
  {
    assert p * (a - b) == p * a - p * b;
    MultipleBound(p, a - b);
  }

  // ---- division that rounds toward zero ----------------------------------------

  function Abs(x: int): (m: nat) {
    if x < 0 then -x else x
  }

  /** The quotient times the divisor and the remainder make the dividend; the remainder is smaller than the divisor, and
      is zero or has the sign of the dividend. */
  predicate Truncates(a: int, b: int, q: int, r: int) {
    a == q * b + r && Abs(r) < Abs(b) && (a >= 0 ==> r >= 0) && (a <= 0 ==> r <= 0)
  }

  lemma Negations(x: int, y: int)
    ensures -x * y == -(x * y) && x * -y == -(x * y) && -x * -y == x * y
  {
  }

  lemma AbsTimes(x: int, y: int)
    ensures Abs(x * y) == Abs(x) * Abs(y)
  {
    var a: int, b: int := Abs(x), Abs(y);
    MulSign(a, b);
    assert x * y == if (x < 0) == (y < 0) then a * b else -(a * b) by {
      Negations(x, y);
    }
  }

  lemma SmallMultiple(k: int, b: int)
    requires Abs(k * b) < Abs(b)
    ensures k == 0
  {
    AbsTimes(k, b);
    if k != 0 {
      MulLe(1, Abs(k), Abs(b));
    }
  }

  lemma Differ(q: int, q': int, b: int)
    ensures (q - q') * b == q * b - q' * b
  {
  }

  lemma TruncatesOnce(a: int, b: int, q: int, r: int, q': int, r': int)
    requires b != 0 && Truncates(a, b, q, r) && Truncates(a, b, q', r')
    ensures q == q' && r == r'
  {
    Differ(q, q', b);
    SmallMultiple(q - q', b);
  }
}
