/** UTF-8 text as section 4 of RFC 3629 defines it, and the ways the code tells how many bytes a
    character takes. */
module Utf8 {
  import opened ByteStrings

  predicate Continuation(b: Byte) {
    0x80 <= b <= 0xBF
  }

  /** The byte sequences of characters. */
  predicate IsChar(c: Bytes) {
    match |c|
    case 1 => c[0] <= 0x7F
    case 2 => 0xC2 <= c[0] <= 0xDF && Continuation(c[1])
    case 3 =>
      && Continuation(c[2])
      && ((c[0] == 0xE0 && 0xA0 <= c[1] <= 0xBF) || (0xE1 <= c[0] <= 0xEC && Continuation(c[1]))
          || (c[0] == 0xED && 0x80 <= c[1] <= 0x9F) || (0xEE <= c[0] <= 0xEF && Continuation(c[1])))
    case 4 =>
      && Continuation(c[2]) && Continuation(c[3])
      && ((c[0] == 0xF0 && 0x90 <= c[1] <= 0xBF) || (0xF1 <= c[0] <= 0xF3 && Continuation(c[1]))
          || (c[0] == 0xF4 && 0x80 <= c[1] <= 0x8F))
    case _ => false
  }

  /** The numbers characters have: up to 0x10FFFF, without the surrogates. */
  predicate Scalar(n: nat) {
    n <= 0xD7FF || 0xE000 <= n <= 0x10FFFF
  }

  /** A byte that carries six bits. */
  function Six(n: nat): (b: Byte) {
    (0x80 + n % 64) as Byte
  }

  /** The bytes of a number as section 3 of RFC 3629 gives them, six bits to a continuation. */
  function CharOf(n: nat): (c: Bytes)
    requires Scalar(n)
  {
    var n1 := n / 64;
    var n2 := n1 / 64;
    if n < 0x80 then [n as Byte]
    else if n < 0x800 then [(0xC0 + n1) as Byte, Six(n)]
    else if n < 0x10000 then [(0xE0 + n2) as Byte, Six(n1), Six(n)]
    else [(0xF0 + n2 / 64) as Byte, Six(n2), Six(n1), Six(n)]
  }

  /** The bits of a first byte and of a continuation put together. */
  function With(n: int, b: Byte): (m: int) {
    64 * n + (b as int - 0x80)
  }

  /** The number of a character: the bits of its bytes put together. */
  function NumberOf(c: Bytes): (n: int)
    requires IsChar(c)
  {
    match |c|
    case 1 => c[0] as int
    case 2 => With(c[0] as int - 0xC0, c[1])
    case 3 => With(With(c[0] as int - 0xE0, c[1]), c[2])
    case _ => With(With(With(c[0] as int - 0xF0, c[1]), c[2]), c[3])
  }

  lemma SixBack(n: nat, m: int)
    requires m == n / 64
    ensures With(m, Six(n)) == n && Continuation(Six(n))
  {
  }

  lemma WithBack(n: nat, b: Byte)
    requires Continuation(b)
    ensures With(n, b) >= 0 && With(n, b) / 64 == n && Six(With(n, b)) == b
  {
  }

  /** Every number has a character, of that number. */
  lemma ScalarIsChar(n: nat)
    requires Scalar(n)
    ensures IsChar(CharOf(n)) && NumberOf(CharOf(n)) == n
  {
    hide With, Six;
    var n1 := n / 64;
    var n2 := n1 / 64;
    SixBack(n, n1);
    SixBack(n1, n2);
    SixBack(n2, n2 / 64);
    if 0x800 <= n {
      SixRange(n, n1, n2);
    }
  }

  /** Where the first byte leaves no choice, the second is bounded. */
  lemma SixRange(n: nat, n1: nat, n2: nat)
    requires Scalar(n) && 0x800 <= n && n1 == n / 64 && n2 == n1 / 64
    ensures n2 == 0 ==> Six(n1) >= 0xA0
    ensures n2 == 0xD ==> Six(n1) <= 0x9F
    ensures n >= 0x10000 && n2 / 64 == 0 ==> Six(n2) >= 0x90
    ensures n2 / 64 == 4 ==> Six(n2) <= 0x8F
  {
  }

  /** Every character is that of its number. */
  lemma CharIsScalar(c: Bytes)
    requires IsChar(c)
    ensures NumberOf(c) >= 0 && Scalar(NumberOf(c)) && CharOf(NumberOf(c)) == c
  {
    match |c|
    case 1 =>
    case 2 => TwoBytes(c);
    case 3 => ThreeBytes(c);
    case 4 => FourBytes(c);
  }

  lemma TwoBytes(c: Bytes)
    requires IsChar(c) && |c| == 2
    ensures NumberOf(c) >= 0 && Scalar(NumberOf(c)) && CharOf(NumberOf(c)) == c
  {
    WithBack(c[0] as int - 0xC0, c[1]);
  }

  lemma ThreeBytes(c: Bytes)
    requires IsChar(c) && |c| == 3
    ensures NumberOf(c) >= 0 && Scalar(NumberOf(c)) && CharOf(NumberOf(c)) == c
  {
    hide Six, With;
    var a := c[0] as int - 0xE0;
    WithBack(a, c[1]);
    WithBack(With(a, c[1]), c[2]);
    ThreeRange(c, a);
  }

  lemma ThreeRange(c: Bytes, a: int)
    requires IsChar(c) && |c| == 3 && a == c[0] as int - 0xE0
    ensures var n := With(With(a, c[1]), c[2]); 0x800 <= n < 0x10000 && !(0xD800 <= n <= 0xDFFF)
  {
  }

  lemma FourBytes(c: Bytes)
    requires IsChar(c) && |c| == 4
    ensures NumberOf(c) >= 0 && Scalar(NumberOf(c)) && CharOf(NumberOf(c)) == c
  {
    hide Six, With;
    var a := c[0] as int - 0xF0;
    var n2 := With(a, c[1]);
    WithBack(a, c[1]);
    var n1 := With(n2, c[2]);
    WithBack(n2, c[2]);
    WithBack(n1, c[3]);
    FourRange(c, a);
    var n := With(n1, c[3]);
    assert CharOf(n) == [c[0], Six(n2), Six(n1), Six(n)];
  }

  lemma FourRange(c: Bytes, a: int)
    requires IsChar(c) && |c| == 4 && a == c[0] as int - 0xF0
    ensures 0x10000 <= With(With(With(a, c[1]), c[2]), c[3]) <= 0x10FFFF
  {
  }

  type Text = t: seq<Bytes> | forall i :: 0 <= i < |t| ==> IsChar(t[i])

  function Encode(t: seq<Bytes>): (s: Bytes) {
    if t == [] then [] else t[0] + Encode(t[1..])
  }

  // ---- the width of a character ---------------------------------------------------------------

  /** UTF8_BYTE_LENGTH_TABLE. */
  function TableWidth(b: Byte): (n: nat)
    ensures 1 <= n <= 4
  {
    if 0xC0 <= b <= 0xDF then 2 else if 0xE0 <= b <= 0xEF then 3 else if 0xF0 <= b <= 0xF7 then 4 else 1
  }

  /** Leading zeros of an 8-bit number, counted in 32 bits. */
  function Clz32(b: Byte): (n: nat)
    requires b != 0
    ensures 24 <= n < 32
  {
    if b >= 128 then 24 else if b >= 64 then 25 else if b >= 32 then 26 else if b >= 16 then 27
    else if b >= 8 then 28 else if b >= 4 then 29 else if b >= 2 then 30 else 31
  }

  /** The width from the leading ones of the byte; a byte of ones only has none. */
  function ClzWidth(b: Byte): (n: nat)
    requires b != 0xFF
  {
    var c := 255 - b;
    if c >= 128 then 1 else Clz32(c) - 24
  }

  /** The two rules agree exactly below 0xF8. */
  lemma WidthRulesAgree(b: Byte)
    requires b != 0xFF
    ensures TableWidth(b) == ClzWidth(b) <==> b < 0xF8
  {
  }

  /** The first byte on which they differ. */
  lemma WidthRulesDiffer()
    ensures TableWidth(0xF8) == 1 && ClzWidth(0xF8) == 5
  {
  }

  /** Both give the width of a character from its first byte; the others are continuations. */
  lemma CharWidth(c: Bytes)
    requires IsChar(c)
    ensures c != [] && !Continuation(c[0]) && c[0] < 0xF8 && TableWidth(c[0]) == |c| == ClzWidth(c[0])
    ensures forall i :: 0 < i < |c| ==> Continuation(c[i])
  {
  }

  // ---- where characters start -------------------------------------------------------------------

  /** The offset of the k-th character. */
  function Start(t: seq<Bytes>, k: nat): (p: nat)
    requires k <= |t|
  {
    if k == 0 then 0 else |t[0]| + Start(t[1..], k - 1)
  }

  lemma {:induction false} EndIsLength(t: seq<Bytes>)
    ensures Start(t, |t|) == |Encode(t)|
  {
    if t != [] {
      EndIsLength(t[1..]);
    }
  }

  /** The k-th character is found where it starts. */
  lemma {:induction false} CharAt(t: seq<Bytes>, k: nat)
    requires k < |t|
    ensures Start(t, k + 1) == Start(t, k) + |t[k]| <= |Encode(t)|
    ensures Encode(t)[Start(t, k)..Start(t, k + 1)] == t[k]
  {
    var s := Encode(t);
    if k == 0 {
      assert Start(t[1..], 0) == 0;
      assert s[..|t[0]|] == t[0];
    } else {
      CharAt(t[1..], k - 1);
      var p, q := Start(t[1..], k - 1), Start(t[1..], k);
      assert s[|t[0]| + p..|t[0]| + q] == Encode(t[1..])[p..q];
    }
  }

  lemma {:induction false} EncodeSlice(t: seq<Bytes>, j: nat, k: nat)
    requires j <= k <= |t|
    ensures Start(t, j) <= Start(t, k) <= |Encode(t)|
    ensures Encode(t)[Start(t, j)..Start(t, k)] == Encode(t[j..k])
    decreases k - j
  {
    if j == k {
      EndIsLength(t);
      StartInside(t, j);
    } else {
      CharAt(t, j);
      EncodeSlice(t, j + 1, k);
      assert t[j..k][1..] == t[j + 1..k] && t[j..k][0] == t[j];
      var s := Encode(t);
      assert s[Start(t, j)..Start(t, k)] == s[Start(t, j)..Start(t, j + 1)] + s[Start(t, j + 1)..Start(t, k)];
    }
  }

  lemma {:induction false} StartInside(t: seq<Bytes>, k: nat)
    requires k <= |t|
    ensures Start(t, k) <= |Encode(t)|
  {
    if k > 0 {
      StartInside(t[1..], k - 1);
    }
  }

  /** A text has only one encoding into characters. */
  lemma {:induction false} DecodingIsUnique(t: Text, u: Text)
    requires Encode(t) == Encode(u)
    ensures t == u
  {
    if t == [] || u == [] {
      EmptyEncoding(t);
      EmptyEncoding(u);
    } else {
      CharWidth(t[0]);
      CharWidth(u[0]);
      var s := Encode(t);
      assert s[0] == t[0][0] == u[0][0];
      assert t[0] == s[..|t[0]|] && u[0] == s[..|u[0]|];
      assert Encode(t[1..]) == s[|t[0]|..] && Encode(u[1..]) == s[|u[0]|..];
      DecodingIsUnique(t[1..], u[1..]);
      assert t == [t[0]] + t[1..] && u == [u[0]] + u[1..];
    }
  }

  lemma EmptyEncoding(t: Text)
    ensures Encode(t) == [] <==> t == []
  {
    if t != [] {
      CharWidth(t[0]);
    }
  }
}
