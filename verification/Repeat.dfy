/** Repeating a string by doubling what has been written: a bit of the count at a time, from the
    lowest. */
module Repeat {
  import opened ByteStrings
  import opened Arith
  import opened WideWords

  function Repeated(s: Bytes, n: nat): (r: Bytes)
    ensures |r| == n * |s|
  {
    if n == 0 then []
    else
      assert n * |s| == (n - 1) * |s| + |s|;
      Repeated(s, n - 1) + s
  }

  lemma {:induction false} RepeatedAdd(s: Bytes, m: nat, n: nat)
    ensures Repeated(s, m + n) == Repeated(s, m) + Repeated(s, n)
    decreases n
  {
    if n == 0 {
      assert Repeated(s, m) + [] == Repeated(s, m);
    } else {
      RepeatedAdd(s, m, n - 1);
      assert Repeated(s, m) + (Repeated(s, n - 1) + s) == Repeated(s, m) + Repeated(s, n - 1) + s;
    }
  }

  /** What the loop keeps for a count: p is a power of two, the bits of the count from p on are
      `last` and above it `num`, and the copies written are p and the bits below p. */
  predicate Halfway(total: nat, p: nat, low: nat, done: nat, last: nat, num: nat) {
    low < p && last <= 1 && total == p * (2 * num + last) + low && done == p + low && p <= total
  }

  lemma StartHalfway(total: nat)
    requires total > 0
    ensures Halfway(total, 1, 0, 1, total % 2, total / 2)
  {
  }

  lemma NextHalfway(total: nat, p: nat, low: nat, done: nat, last: nat, num: nat)
    requires Halfway(total, p, low, done, last, num) && num > 0
    ensures Halfway(total, 2 * p, low + last * p, done + p + last * p, num % 2, num / 2)
    ensures p <= done && done + p + last * p <= total && last <= 1
  {
    assert num == 2 * (num / 2) + num % 2;
    assert p * (2 * num + last) == (2 * p) * num + last * p;
    MulLe(1, num, 2 * p);
    assert last == 0 || last == 1;
  }

  lemma EndHalfway(total: nat, p: nat, low: nat, done: nat, last: nat)
    requires Halfway(total, p, low, done, last, 0)
    ensures done == total
  {
    assert last == 0 || last == 1;
  }

  /** The template with a counter for its argument: counting by doubling gives the count; no
      count at all gives one. */
  method CountN(num0: nat) returns (m: nat)
    ensures m == if num0 > 0 then num0 else 1
  {
    hide Halfway;
    ghost var p: nat, low: nat := 1, 0;
    var k: nat, last: nat, num: nat := 0, num0 % 2, num0 / 2;
    m := 1;
    if num0 > 0 {
      StartHalfway(num0);
    }
    while num > 0
      invariant p == Pow2(k) && (num0 > 0 ==> Halfway(num0, p, low, m, last, num)) && (num0 == 0 ==> num == 0 && m == 1)
    {
      NextHalfway(num0, p, low, m, last, num);
      assert Pow2(k + last) == p + last * p;
      m := m + Pow2(k + last);
      low, p := low + last * p, 2 * p;
      k, last, num := k + 1, num % 2, num / 2;
    }
    if num0 > 0 {
      EndHalfway(num0, p, low, m, last);
    }
  }

  // ---- strings ------------------------------------------------------------------------------------

  /** Copies n bytes inside the buffer, between ranges that do not overlap. */
  method CopyWithin(buffer: array<Byte>, to: nat, n: nat)
    requires n <= to && to + n <= buffer.Length
    modifies buffer
    ensures buffer[..to + n] == old(buffer[..to]) + old(buffer[..n])
    ensures forall i :: to + n <= i < buffer.Length ==> buffer[i] == old(buffer[i])
  {
    for i := 0 to n
      invariant buffer[..to] == old(buffer[..to]) && buffer[to..to + i] == old(buffer[..i])
      invariant forall j :: to + i <= j < buffer.Length ==> buffer[j] == old(buffer[j])
    {
      assert buffer[i] == buffer[..to][i] == old(buffer[i]);
      buffer[to + i] := buffer[i];
      assert buffer[to..to + i + 1] == buffer[to..to + i] + [buffer[to + i]];
      assert old(buffer[..i + 1]) == old(buffer[..i]) + [old(buffer[i])];
    }
    assert buffer[..to + n] == buffer[..to] + buffer[to..to + n];
  }

  method CopyIn(buffer: array<Byte>, s: Bytes)
    requires |s| <= buffer.Length
    modifies buffer
    ensures buffer[..|s|] == s
    ensures forall i :: |s| <= i < buffer.Length ==> buffer[i] == old(buffer[i])
  {
    forall i | 0 <= i < |s| {
      buffer[i] := s[i];
    }
  }

  /** The bytes of a number of copies. */
  function Size(s: Bytes, n: nat): (size: nat) {
    n * |s|
  }

  lemma SizeAdd(s: Bytes, m: nat, n: nat)
    ensures Size(s, m + n) == Size(s, m) + Size(s, n)
  {
  }

  lemma SizeGrows(s: Bytes, m: nat, n: nat)
    requires m <= n
    ensures Size(s, m) <= Size(s, n)
  {
    MulLe(m, n, |s|);
  }

  /** The buffer begins with a number of copies. */
  ghost predicate Holds(buffer: array<Byte>, s: Bytes, n: nat)
    reads buffer
  {
    Size(s, n) <= buffer.Length && buffer[..Size(s, n)] == Repeated(s, n)
  }

  /** The prefix of a repetition is a repetition. */
  lemma PrefixOfRepeated(s: Bytes, m: nat, n: nat)
    requires m <= n
    ensures Size(s, m) <= Size(s, n) && Repeated(s, n)[..Size(s, m)] == Repeated(s, m)
  {
    SizeGrows(s, m, n);
    RepeatedAdd(s, m, n - m);
  }

  /** Writes p more copies, taken from the `done` that are there. */
  method AppendCopies(buffer: array<Byte>, s: Bytes, done: nat, p: nat)
    requires p <= done && Holds(buffer, s, done) && Size(s, done + p) <= buffer.Length
    modifies buffer
    ensures Holds(buffer, s, done + p)
    ensures forall i :: Size(s, done + p) <= i < buffer.Length ==> buffer[i] == old(buffer[i])
  {
    SizeAdd(s, done, p);
    PrefixOfRepeated(s, p, done);
    RepeatedAdd(s, done, p);
    assert buffer[..Size(s, p)] == buffer[..Size(s, done)][..Size(s, p)];
    CopyWithin(buffer, Size(s, done), Size(s, p));
  }

  /** One round of the loop: the bit is doubled into the copies, and once more if the last bit of
      the count was set. */
  method AppendRound(buffer: array<Byte>, s: Bytes, done0: nat, p: nat, last: nat) returns (done: nat)
    requires p <= done0 && last <= 1 && Holds(buffer, s, done0) && Size(s, done0 + p + last * p) <= buffer.Length
    modifies buffer
    ensures done == done0 + p + last * p && Holds(buffer, s, done)
    ensures forall i :: Size(s, done) <= i < buffer.Length ==> buffer[i] == old(buffer[i])
  {
    hide Size, Repeated;
    SizeGrows(s, done0 + p, done0 + p + last * p);
    AppendCopies(buffer, s, done0, p);
    done := done0 + p;
    if last == 1 {
      AppendCopies(buffer, s, done, p);
      done := done + p;
    }
  }

  /** The doubling loop writes exactly the n-fold repetition, and nothing after it. */
  method FillRepeated(buffer: array<Byte>, s: Bytes, n0: nat)
    requires n0 > 0 && Size(s, n0) <= buffer.Length
    modifies buffer
    ensures Holds(buffer, s, n0)
    ensures forall i :: Size(s, n0) <= i < buffer.Length ==> buffer[i] == old(buffer[i])
  {
    hide Halfway, Size, Holds;
    ghost var p: nat, low: nat := 1, 0;
    var k: nat, last: nat, n: nat, done: nat := 0, n0 % 2, n0 / 2, 1;
    StartHalfway(n0);
    OneCopy(s, n0);
    CopyIn(buffer, s);
    HoldsOne(buffer, s);
    while n > 0
      invariant p == Pow2(k) && Halfway(n0, p, low, done, last, n) && Holds(buffer, s, done)
      invariant forall i :: Size(s, n0) <= i < buffer.Length ==> buffer[i] == old(buffer[i])
    {
      NextHalfway(n0, p, low, done, last, n);
      SizeGrows(s, done + p + last * p, n0);
      done := AppendRound(buffer, s, done, Pow2(k), last);
      low, p := low + last * p, 2 * p;
      k, last, n := k + 1, n % 2, n / 2;
    }
    EndHalfway(n0, p, low, done, last);
  }

  lemma OneCopy(s: Bytes, n: nat)
    requires n > 0
    ensures |s| <= Size(s, n)
  {
    SizeGrows(s, 1, n);
  }

  lemma HoldsOne(buffer: array<Byte>, s: Bytes)
    requires |s| <= buffer.Length && buffer[..|s|] == s
    ensures Holds(buffer, s, 1)
  {
    assert Repeated(s, 0) == [] && [] + s == s;
  }

  /** repeat_string_logn_memcpy: a result of exactly the right size, filled by doubling. */
  method RepeatStringLogn(s: Bytes, n: nat) returns (result: Bytes)
    requires n > 0
    ensures result == Repeated(s, n)
  {
    var buffer := new Byte[Size(s, n)];
    FillRepeated(buffer, s, n);
    result := buffer[..];
    assert result == buffer[..Size(s, n)];
  }

  /** repeat_string_n: one copy after the other. */
  method RepeatStringN(s: Bytes, n: nat) returns (result: Bytes)
    ensures result == Repeated(s, n)
  {
    result := [];
    for i := 0 to n
      invariant result == Repeated(s, i)
    {
      result := result + s;
    }
  }

  /** The version on buffers, for text that ends with a NUL which is not repeated: the repetition
      and one NUL are written, for a count of zero as well, and nothing after them. */
  method FastRepeat(src: Bytes, dst: array<Byte>, repeatTime: nat)
    requires src != [] && Size(src[..|src| - 1], repeatTime) < dst.Length
    modifies dst
    ensures var s := src[..|src| - 1]; var n := Size(s, repeatTime);
            && dst[..n + 1] == Repeated(s, repeatTime) + [0]
            && forall i :: n < i < dst.Length ==> dst[i] == old(dst[i])
  {
    var s := src[..|src| - 1];
    var n := Size(s, repeatTime);
    if repeatTime == 0 {
      dst[0] := 0;
      return;
    }
    FillRepeated(dst, s, repeatTime);
    dst[n] := 0;
    assert dst[..n + 1] == dst[..n] + [0];
  }
}
