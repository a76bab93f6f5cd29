/** Comparing split strings: when the prefixes and the rest give the order of the texts. */
module GermanCompare {
  import opened Arith
  import opened ByteStrings
  import opened GermanStrings

  /** The order of texts, byte by byte. */
  function Lexical(a: Bytes, b: Bytes): (c: int)
    ensures -1 <= c <= 1
  {
    if a == [] then (if b == [] then 0 else -1)
    else if b == [] then 1
    else if a[0] < b[0] then -1
    else if a[0] > b[0] then 1
    else Lexical(a[1..], b[1..])
  }

  lemma {:induction false} LexicalEqual(a: Bytes, b: Bytes)
    ensures Lexical(a, b) == 0 <==> a == b
  {
    if a != [] && b != [] {
      LexicalEqual(a[1..], b[1..]);
      assert a == [a[0]] + a[1..] && b == [b[0]] + b[1..];
    }
  }

  /** memcmp: the sign of the first difference. */
  method MemCmp(a: Bytes, b: Bytes, n: nat) returns (c: int)
    requires n <= |a| && n <= |b|
    ensures c == Lexical(a[..n], b[..n])
  {
    for i := 0 to n
      invariant a[..i] == b[..i]
    {
      assert a[..n][..i] == a[..i] && b[..n][..i] == b[..i];
      SamePrefix(a[..n], b[..n], i);
      if a[i] != b[i] {
        c := if a[i] < b[i] then -1 else 1;
        return;
      }
      assert a[..i + 1] == a[..i] + [a[i]] && b[..i + 1] == b[..i] + [b[i]];
    }
    LexicalEqual(a[..n], b[..n]);
    c := 0;
  }

  /** Texts that begin alike compare as what follows. */
  lemma {:induction false} SamePrefix(a: Bytes, b: Bytes, n: nat)
    requires n <= |a| && n <= |b| && a[..n] == b[..n]
    ensures Lexical(a, b) == Lexical(a[n..], b[n..])
    decreases n
  {
    if n == 0 {
      assert a[0..] == a && b[0..] == b;
    } else {
      assert a[..n][0] == b[..n][0];
      assert a[1..][..n - 1] == a[..n][1..] && b[1..][..n - 1] == b[..n][1..];
      SamePrefix(a[1..], b[1..], n - 1);
      assert a[1..][n - 1..] == a[n..] && b[1..][n - 1..] == b[n..];
    }
  }

  /** A difference in the beginning decides. */
  lemma {:induction false} PrefixDecides(a: Bytes, b: Bytes, n: nat)
    requires n <= |a| && n <= |b| && a[..n] != b[..n]
    ensures Lexical(a, b) == Lexical(a[..n], b[..n]) != 0
    decreases n
  {
    LexicalEqual(a[..n], b[..n]);
    if n > 0 && a[0] == b[0] {
      assert a[1..][..n - 1] == a[..n][1..] && b[1..][..n - 1] == b[..n][1..];
      assert a[..n] == [a[0]] + a[..n][1..] && b[..n] == [b[0]] + b[..n][1..];
      PrefixDecides(a[1..], b[1..], n - 1);
    }
  }

  /** memcompare: the common length first, then the lengths. */
  method MemCompare(a: Bytes, b: Bytes) returns (c: int)
    ensures c == Lexical(a, b)
  {
    var n := Min(|a|, |b|);
    c := MemCmp(a, b, n);
    LexicalEqual(a[..n], b[..n]);
    if c != 0 {
      PrefixDecides(a, b, n);
      return;
    }
    SamePrefix(a, b, n);
    c := if |a| < |b| then -1 else if |a| > |b| then 1 else 0;
  }

  // ---- strings ------------------------------------------------------------------------------------

  /** A string in place compared with a split one: only the first four bytes are looked at. */
  function MixedOrder(s: Bytes, t: Bytes, equal: int): (c: int)
    requires |s| <= INLINE_MAX < |t|
  {
    var n := Min(|s|, PREFIX);
    var c := Lexical(s[..n], t[..n]);
    if c != 0 then c else equal
  }

  method Compare(m: Memory, g: GermanString, h: GermanString, ghost s: Bytes, ghost t: Bytes) returns (c: int)
    requires Represents(m, g, s) && Represents(m, h, t)
    ensures g.Short? == h.Short? ==> c == Lexical(s, t)
    ensures g.Short? && h.Long? ==> c == MixedOrder(s, t, -1)
    ensures g.Long? && h.Short? ==> c == -MixedOrder(t, s, -1)
  {
    match (g, h)
    case (Short(n, a), Short(k, b)) =>
      c := MemCompare(a[..n], b[..k]);
    case (Short(n, a), Long(_, prefix, _)) =>
      var k := Min(n, PREFIX);
      assert a[..k] == s[..k] && prefix[..k] == t[..k];
      c := MemCompare(a[..k], prefix[..k]);
      if c == 0 {
        c := -1;
      }
    case (Long(_, prefix, _), Short(n, b)) =>
      var k := Min(n, PREFIX);
      assert b[..k] == t[..k] && prefix[..k] == s[..k];
      c := MemCompare(prefix[..k], b[..k]);
      Mirrored(s[..k], t[..k]);
      if c == 0 {
        c := 1;
      }
    case (Long(_, p, x), Long(_, q, y)) =>
      c := MemCompare(p, q);
      LexicalEqual(p, q);
      if c != 0 {
        PrefixDecides(s, t, PREFIX);
        return;
      }
      SamePrefix(s, t, PREFIX);
      c := MemCompare(Read(m, x), Read(m, y));
  }

  lemma {:induction false} Mirrored(a: Bytes, b: Bytes)
    ensures Lexical(a, b) == -Lexical(b, a)
  {
    if a != [] && b != [] {
      Mirrored(a[1..], b[1..]);
    }
  }

  /** Between a string in place and a split one the order is that of the texts exactly when the
      first four bytes differ, or the short text has no more, or what it has more is smaller. */
  lemma MixedOrderIsRight(s: Bytes, t: Bytes)
    requires |s| <= INLINE_MAX < |t|
    ensures var n := Min(|s|, PREFIX);
            MixedOrder(s, t, -1) == Lexical(s, t) <==>
            s[..n] != t[..n] || |s| <= PREFIX || Lexical(s[PREFIX..], t[PREFIX..]) == -1
  {
    var n := Min(|s|, PREFIX);
    LexicalEqual(s[..n], t[..n]);
    if s[..n] != t[..n] {
      PrefixDecides(s, t, n);
    } else {
      SamePrefix(s, t, n);
    }
  }

  /** A text whose fifth byte is larger still compares as smaller. */
  lemma MixedOrderCanBeWrong()
    ensures var s: Bytes, t: Bytes := [97, 97, 97, 97, 98], [97, 97, 97, 97, 97, 97, 97, 97, 97, 97, 97, 97, 97];
            MixedOrder(s, t, -1) == -1 && Lexical(s, t) == 1
  {
    var s: Bytes, t: Bytes := [97, 97, 97, 97, 98], [97, 97, 97, 97, 97, 97, 97, 97, 97, 97, 97, 97, 97];
    assert s[..4] == t[..4];
    LexicalEqual(s[..4], t[..4]);
    SamePrefix(s, t, 4);
    assert s[4..][0] == 98 && t[4..][0] == 97;
  }

  // ---- equality -----------------------------------------------------------------------------------

  /** operator==: the raw bytes if either string is in place, prefix and rest otherwise. */
  method Equal(m: Memory, g: GermanString, h: GermanString, ghost s: Bytes, ghost t: Bytes) returns (eq: bool)
    requires Represents(m, g, s) && Represents(m, h, t)
    ensures g.Short? && h.Short? ==> (eq <==> g == h)
    ensures g.Long? || h.Long? ==> (eq <==> s == t)
  {
    match (g, h)
    case (Long(_, p, x), Long(_, q, y)) =>
      var c := MemCompare(p, q);
      LexicalEqual(p, q);
      if c != 0 {
        return false;
      }
      c := MemCompare(Read(m, x), Read(m, y));
      LexicalEqual(Read(m, x), Read(m, y));
      assert s == p + Read(m, x) && t == q + Read(m, y);
      eq := c == 0;
    case _ => eq := g == h;
  }

  /** Two strings in place have the same raw bytes exactly when their texts are equal and, if these
      are shorter than four bytes, what was left behind them is equal too. */
  lemma RawEquality(s: Bytes, t: Bytes, a: Bytes, b: Bytes)
    requires |s| <= INLINE_MAX && |t| <= INLINE_MAX && |a| == |b| == PREFIX
    ensures InPlace(s, a) == InPlace(t, b) <==> s == t && (|s| < PREFIX ==> a[|s|..] == b[|s|..])
  {
    var zeros: Bytes := [0, 0, 0, 0, 0, 0, 0, 0];
    var n := |s|;
    assert InPlace(s, a).str[..n] == s;
    assert InPlace(s, a).str[n..] == (a + zeros)[n..];
    if |t| == n {
      assert InPlace(t, b).str[..n] == t && InPlace(t, b).str[n..] == (b + zeros)[n..];
      if n < PREFIX {
        assert (a + zeros)[n..] == a[n..] + zeros && (b + zeros)[n..] == b[n..] + zeros;
        assert (a[n..] + zeros)[..PREFIX - n] == a[n..] && (b[n..] + zeros)[..PREFIX - n] == b[n..];
      } else {
        assert (a + zeros)[n..] == zeros[n - PREFIX..] == (b + zeros)[n..];
      }
    }
  }

  /** The letter A twice, with different bytes left behind it: equal texts, different raw bytes. */
  lemma RawEqualityCanBeWrong()
    ensures InPlace([65], [0, 0, 0, 0]) != InPlace([65], [0, 1, 0, 0])
  {
    var a: Bytes, b: Bytes := [0, 0, 0, 0], [0, 1, 0, 0];
    RawEquality([65], [65], a, b);
    assert a[1..][0] != b[1..][0];
  }
}
