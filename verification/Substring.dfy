/** Substrings of UTF-8 columns, by character positions: from the left, from the right over a
    small index or backwards, and on bytes when the column is ASCII. */
module Substring {
  import opened Arith
  import opened ByteStrings
  import opened BinaryColumns
  import opened Utf8

  const SMALL_INDEX_MAX: nat := 32
  const INT_MAX: int := 0x7FFF_FFFF

  // ---- what a substring is ---------------------------------------------------------------------

  function Take(t: seq<Bytes>, from: nat, len: nat): (u: seq<Bytes>) {
    if from >= |t| then [] else if from + len >= |t| then t[from..] else t[from..from + len]
  }

  /** Characters from a position counted from 1, or from the end if it is negative. */
  function Slice(t: seq<Bytes>, offset: int, len: nat): (u: seq<Bytes>) {
    if offset > 0 then Take(t, offset - 1, len)
    else if -offset > |t| then []
    else Take(t, |t| + offset, len)
  }

  /** Which characters those are: position p, counted from 1, is in the slice exactly when it is one of the len
      positions from the offset on; a negative offset counts from the end, and one beyond the beginning, or zero,
      gives nothing. */
  lemma SliceByPositions(t: seq<Bytes>, offset: int, len: nat, p: nat)
    requires 1 <= p <= |t|
    ensures var first := if offset > 0 then offset else |t| + 1 + offset;
            var u := Slice(t, offset, len);
            if offset == 0 || first < 1 then u == []
            else if first <= p < first + len then p - first < |u| && u[p - first] == t[p - 1]
            else |u| <= len && (p < first || p - first >= |u|)
  {
  }

  // ---- walking over characters -----------------------------------------------------------------

  function Width(b: Byte, table: bool): (n: nat)
    requires b != 0xFF
  {
    if table then TableWidth(b) else ClzWidth(b)
  }

  lemma WidthAt(t: Text, k: nat)
    requires k < |t|
    ensures Start(t, k) < |Encode(t)|
    ensures var b := Encode(t)[Start(t, k)];
            b != 0xFF && Width(b, true) == Width(b, false) == Start(t, k + 1) - Start(t, k) > 0
  {
    CharAt(t, k);
    CharWidth(t[k]);
    assert Encode(t)[Start(t, k)] == Encode(t)[Start(t, k)..Start(t, k + 1)][0];
  }

  method SkipLeading(s: Bytes, p0: nat, n: nat, table: bool, ghost t: Text, ghost k: nat) returns (p: nat)
    requires s == Encode(t) && k <= |t| && p0 == Start(t, k)
    ensures p == Start(t, Min(k + n, |t|))
  {
    p := p0;
    var i := 0;
    ghost var j := k;
    EndIsLength(t);
    StartInside(t, k);
    while i < n && p < |s|
      invariant i <= n && j == Min(k + i, |t|) && p == Start(t, j) <= |s|
      decreases n - i
    {
      if j < |t| {
        WidthAt(t, j);
        StartInside(t, j + 1);
      }
      p := p + Width(s[p], table);
      i := i + 1;
      j := j + 1;
    }
    StartAtEnd(t, j);
  }

  lemma StartAtEnd(t: Text, k: nat)
    requires k <= |t|
    ensures Start(t, k) <= |Encode(t)| && (Start(t, k) == |Encode(t)| <==> k == |t|)
  {
    EndIsLength(t);
    StartInside(t, k);
    if k < |t| {
      WidthAt(t, k);
    }
  }

  /** Inside a character there are only continuation bytes, and its first byte is none. */
  lemma BytesOfChar(t: Text, k: nat, j: nat)
    requires k < |t| && Start(t, k) <= j < Start(t, k + 1)
    ensures j < |Encode(t)| && (Continuation(Encode(t)[j]) <==> j > Start(t, k))
  {
    CharAt(t, k);
    CharWidth(t[k]);
    assert Encode(t)[j] == Encode(t)[Start(t, k)..Start(t, k + 1)][j - Start(t, k)];
  }

  /** Steps back from the end, a character at a time; -1 when there are too few. */
  method SkipTrailing(s: Bytes, n: nat, ghost t: Text) returns (p: int)
    requires s == Encode(t)
    ensures p == if n <= |t| then Start(t, |t| - n) else -1
  {
    p := |s|;
    EndIsLength(t);
    var i := 0;
    while i < n && p >= 0
      invariant i <= n && (if i <= |t| then p == Start(t, |t| - i) else p == -1)
      decreases n - i
    {
      p := StepBack(s, p, t, if i < |t| then |t| - i else 0);
      i := i + 1;
    }
  }

  method StepBack(s: Bytes, p0: nat, ghost t: Text, ghost k: nat) returns (p: int)
    requires s == Encode(t) && k <= |t| && p0 == Start(t, k)
    ensures p == if k > 0 then Start(t, k - 1) else -1
  {
    p := p0 - 1;
    if k > 0 {
      WidthAt(t, k - 1);
      StartInside(t, k);
    }
    while p >= 0 && Continuation(s[p])
      invariant if k > 0 then Start(t, k - 1) <= p < Start(t, k) <= |s| else p == -1
    {
      BytesOfChar(t, k - 1, p);
      p := p - 1;
    }
    if k > 0 {
      BytesOfChar(t, k - 1, p);
    }
  }

  // ---- one row ------------------------------------------------------------------------------------

  lemma TakeEncoded(t: Text, from: nat, len: nat)
    requires from <= |t|
    ensures var p, q := Start(t, from), Start(t, Min(from + len, |t|));
            p <= q <= |Encode(t)| && Encode(t)[p..q] == Encode(Take(t, from, len))
  {
    EncodeSlice(t, from, Min(from + len, |t|));
    assert Take(t, from, len) == t[from..Min(from + len, |t|)];
  }

  method RowFromLeft(s: Bytes, offset: nat, len: nat, table: bool, ghost t: Text) returns (r: Bytes)
    requires s == Encode(t)
    ensures r == Encode(Take(t, offset, len))
  {
    var from := SkipLeading(s, 0, offset, table, t, 0);
    StartAtEnd(t, Min(offset, |t|));
    if from >= |s| {
      r := [];
    } else {
      var to := SkipLeading(s, from, len, table, t, offset);
      TakeEncoded(t, offset, len);
      r := s[from..to];
    }
  }

  /** The starts of the characters of a short row. */
  method SmallIndex(s: Bytes, ghost t: Text) returns (index: seq<nat>)
    requires s == Encode(t) && |s| <= SMALL_INDEX_MAX
    ensures |index| == |t| <= SMALL_INDEX_MAX
    ensures forall k :: 0 <= k < |t| ==> index[k] == Start(t, k)
  {
    index := [];
    var i := 0;
    EndIsLength(t);
    while i < |s|
      invariant |index| <= |t| && i == Start(t, |index|) <= |s| && |index| <= i
      invariant forall k :: 0 <= k < |index| ==> index[k] == Start(t, k)
    {
      StartAtEnd(t, |index|);
      WidthAt(t, |index|);
      StartInside(t, |index| + 1);
      index, i := index + [i], i + TableWidth(s[i]);
    }
    StartAtEnd(t, |index|);
  }

  /** A text has no more characters than bytes. */
  lemma {:induction false} CharsAtMostBytes(t: Text)
    ensures |t| <= |Encode(t)|
  {
    if t != [] {
      CharWidth(t[0]);
      CharsAtMostBytes(t[1..]);
    }
  }

  method ShortRowFromRight(s: Bytes, offset: int, len: nat, ghost t: Text) returns (r: Bytes)
    requires s == Encode(t) && 0 < offset && |s| <= SMALL_INDEX_MAX
    ensures r == Encode(Slice(t, -offset, len))
  {
    var index := SmallIndex(s, t);
    if offset > |index| {
      return [];
    }
    var fromIdx := |index| - offset;
    var from, to := index[fromIdx], |s|;
    EndIsLength(t);
    TakeEncoded(t, fromIdx, len);
    if len < offset {
      to := index[fromIdx + len];
    }
    r := s[from..to];
  }

  method LongRowFromRight(s: Bytes, offset: int, len: nat, table: bool, ghost t: Text) returns (r: Bytes)
    requires s == Encode(t) && 0 < offset
    ensures r == Encode(Slice(t, -offset, len))
  {
    var from := SkipTrailing(s, offset, t);
    if from < 0 {
      return [];
    }
    ghost var k := |t| - offset;
    TakeEncoded(t, k, len);
    EndIsLength(t);
    if len > |s| - from {
      CharsFit(t, k);
      r := s[from..];
    } else {
      var to := SkipLeading(s, from, len, table, t, k);
      r := s[from..to];
    }
  }

  /** What follows a character has no more characters than bytes. */
  lemma CharsFit(t: Text, k: nat)
    requires k <= |t|
    ensures |t| - k <= |Encode(t)| - Start(t, k)
  {
    EndIsLength(t);
    EncodeSlice(t, k, |t|);
    assert t[k..|t|] == t[k..];
    CharsAtMostBytes(t[k..]);
  }

  method RowFromRight(s: Bytes, offset: int, len: nat, table: bool, ghost t: Text) returns (r: Bytes)
    requires s == Encode(t) && 0 < offset
    ensures r == Encode(Slice(t, -offset, len))
  {
    CharsAtMostBytes(t);
    if offset > |s| {
      r := [];
    } else if |s| <= SMALL_INDEX_MAX {
      r := ShortRowFromRight(s, offset, len, t);
    } else {
      r := LongRowFromRight(s, offset, len, table, t);
    }
  }

  // ---- ASCII ---------------------------------------------------------------------------------------

  predicate Ascii(s: Bytes) {
    forall i :: 0 <= i < |s| ==> s[i] < 0x80
  }

  /** Whether no byte has its top bit set. */
  method ValidateAscii(s: Bytes) returns (ok: bool)
    ensures ok <==> Ascii(s)
  {
    var error := false;
    for i := 0 to |s|
      invariant error <==> !Ascii(s[..i])
    {
      assert s[..i + 1] == s[..i] + [s[i]];
      error := error || s[i] >= 0x80;
    }
    assert s[..|s|] == s;
    ok := !error;
  }

  /** In ASCII text every byte is a character. */
  lemma {:induction false} AsciiStarts(t: Text, k: nat)
    requires Ascii(Encode(t)) && k <= |t|
    ensures Start(t, k) == k && |t| == |Encode(t)|
    decreases |t|
  {
    if t != [] {
      CharWidth(t[0]);
      var s := Encode(t);
      assert s[0] == t[0][0];
      assert |t[0]| == 1;
      assert Encode(t[1..]) == s[1..];
      AsciiStarts(t[1..], if k > 0 then k - 1 else 0);
    }
  }

  /** 32-bit addition. */
  function Wrap32(x: int): (w: int)
    ensures -INT_MAX - 1 <= w <= INT_MAX
  {
    (x + INT_MAX + 1) % (2 * (INT_MAX + 1)) - INT_MAX - 1
  }

  lemma TakeAscii(t: Text, from: nat, to: nat)
    requires Ascii(Encode(t)) && from <= to <= |t|
    ensures to <= |Encode(t)| && Encode(t)[from..to] == Encode(t[from..to])
  {
    EncodeSlice(t, from, to);
    AsciiStarts(t, from);
    AsciiStarts(t, to);
  }

  /** The bytes from a position on, at most len of them. */
  method AsciiFrom(s: Bytes, from: nat, len: nat, ghost t: Text) returns (r: Bytes)
    requires s == Encode(t) && Ascii(s) && from <= |s| <= INT_MAX && len <= INT_MAX
    ensures r == Encode(Take(t, from, len))
  {
    hide Wrap32;
    AsciiStarts(t, 0);
    AsciiBounds(|s|, from, len);
    var to := Wrap32(from + len);
    if to < from || to > |s| {
      to := |s|;
    }
    TakeAscii(t, from, to);
    assert Take(t, from, len) == t[from..to];
    r := s[from..to];
  }

  method AsciiRow(s: Bytes, offset: int, len: nat, negative: bool, ghost t: Text) returns (r: Bytes)
    requires s == Encode(t) && Ascii(s) && |s| <= INT_MAX && len <= INT_MAX
    requires -INT_MAX <= offset <= INT_MAX && (if negative then offset < 0 else offset >= 0)
    ensures r == Encode(Slice(t, if negative then offset else offset + 1, len))
  {
    hide Take;
    AsciiStarts(t, 0);
    if |s| == 0 {
      TakeNothing(t, offset, len);
      return [];
    }
    var from := offset;
    if negative {
      from := from + |s|;
      if from < 0 {
        return [];
      }
    } else if from > |s| {
      TakeNothing(t, offset, len);
      return [];
    }
    r := AsciiFrom(s, from, len, t);
  }

  lemma TakeNothing(t: Text, from: int, len: nat)
    ensures from >= |t| ==> Take(t, from, len) == []
  {
  }

  lemma AsciiBounds(n: int, from: int, len: int)
    requires 0 <= from <= n <= INT_MAX && 0 <= len <= INT_MAX
    ensures var to := Wrap32(from + len); (if to < from || to > n then n else to) == Min(from + len, n)
  {
  }

  // ---- columns ---------------------------------------------------------------------------------------

  predicate Encoded(rows: seq<Bytes>, texts: seq<Text>) {
    |rows| == |texts| && forall i :: 0 <= i < |rows| ==> rows[i] == Encode(texts[i]) && |rows[i]| <= INT_MAX
  }

  function Sliced(texts: seq<Text>, offset: int, len: nat): (rows: seq<Bytes>) {
    seq(|texts|, i requires 0 <= i < |texts| => Encode(Slice(texts[i], offset, len)))
  }

  lemma SlicedNext(texts: seq<Text>, offset: int, len: nat, i: nat)
    requires i < |texts|
    ensures Sliced(texts[..i + 1], offset, len) ==
            Sliced(texts[..i], offset, len) + [Encode(Slice(texts[i], offset, len))]
  {
  }

  lemma SlicedNone(texts: seq<Text>, offset: int, len: nat)
    ensures Sliced(texts[..0], offset, len) == []
  {
  }

  method AsciiSubstr(src: BinaryColumn, dst: BinaryColumn, offset: int, len: int, negative: bool,
                     ghost texts: seq<Text>)
    requires src != dst && src.Valid() && dst.Valid() && Encoded(src.Rows(), texts) && Ascii(src.bytes)
    requires 0 <= len <= INT_MAX && -INT_MAX <= offset <= INT_MAX && (if negative then offset < 0 else offset >= 0)
    modifies dst
    ensures dst.Valid() && dst.Rows() == old(dst.Rows()) + Sliced(texts, if negative then offset else offset + 1, len)
  {
    hide Sliced, Slice;
    ghost var o := if negative then offset else offset + 1;
    SlicedNone(texts, o, len);
    var i := 0;
    while i < src.Size()
      invariant i <= src.Size() && dst.Valid() && dst.Rows() == old(dst.Rows()) + Sliced(texts[..i], o, len)
    {
      var s := src.GetSlice(i);
      assert s == src.Rows()[i];
      var r := AsciiRow(s, offset, len, negative, texts[i]);
      dst.Append(r);
      SlicedNext(texts, o, len, i);
      i := i + 1;
    }
    assert texts[..|texts|] == texts;
  }

  method SubstrFromLeft(src: BinaryColumn, dst: BinaryColumn, offset: nat, len: nat, table: bool,
                        ghost texts: seq<Text>)
    requires src != dst && src.Valid() && dst.Valid() && Encoded(src.Rows(), texts)
    modifies dst
    ensures dst.Valid() && dst.Rows() == old(dst.Rows()) + Sliced(texts, offset + 1, len)
  {
    hide Sliced, Take;
    SlicedNone(texts, offset + 1, len);
    var i := 0;
    while i < src.Size()
      invariant i <= src.Size() && dst.Valid() && dst.Rows() == old(dst.Rows()) + Sliced(texts[..i], offset + 1, len)
    {
      var s := src.GetSlice(i);
      assert s == src.Rows()[i];
      var r := RowFromLeft(s, offset, len, table, texts[i]);
      dst.Append(r);
      SlicedNext(texts, offset + 1, len, i);
      i := i + 1;
    }
    assert texts[..|texts|] == texts;
  }

  method SubstrFromRight(src: BinaryColumn, dst: BinaryColumn, offset: int, len: nat, table: bool,
                         ghost texts: seq<Text>)
    requires src != dst && src.Valid() && dst.Valid() && Encoded(src.Rows(), texts) && offset > 0
    modifies dst
    ensures dst.Valid() && dst.Rows() == old(dst.Rows()) + Sliced(texts, -offset, len)
  {
    hide Sliced, Slice;
    SlicedNone(texts, -offset, len);
    var i := 0;
    while i < src.Size()
      invariant i <= src.Size() && dst.Valid() && dst.Rows() == old(dst.Rows()) + Sliced(texts[..i], -offset, len)
    {
      var s := src.GetSlice(i);
      assert s == src.Rows()[i];
      var r := RowFromRight(s, offset, len, table, texts[i]);
      dst.Append(r);
      SlicedNext(texts, -offset, len, i);
      i := i + 1;
    }
    assert texts[..|texts|] == texts;
  }

  /** The substring of every row, by characters, whichever path and width rule is taken. */
  method Substr(src: BinaryColumn, dst: BinaryColumn, offset: int, len: int, checkAscii: bool, table: bool,
                ghost texts: seq<Text>)
    requires src != dst && src.Valid() && dst.Valid() && Encoded(src.Rows(), texts)
    requires 0 <= len <= INT_MAX && -INT_MAX <= offset <= INT_MAX
    modifies dst
    ensures dst.Valid()
    ensures dst.Rows() == old(dst.Rows()) + if offset == 0 then [] else Sliced(texts, offset, len)
  {
    hide Sliced, Encoded, Ascii;
    if offset == 0 {
      assert dst.Rows() + [] == dst.Rows();
      return;
    }
    var ascii := false;
    if checkAscii {
      ascii := ValidateAscii(src.bytes);
    }
    if ascii {
      if offset > 0 {
        AsciiSubstr(src, dst, offset - 1, len, false, texts);
      } else {
        AsciiSubstr(src, dst, offset, len, true, texts);
      }
    } else if offset > 0 {
      SubstrFromLeft(src, dst, offset - 1, len, table, texts);
    } else {
      SubstrFromRight(src, dst, -offset, len, table, texts);
    }
  }

  // ---- lengths ------------------------------------------------------------------------------------------

  /** Counting characters by their widths. */
  method Utf8Length(s: Bytes, ghost t: Text) returns (n: nat)
    requires s == Encode(t)
    ensures n == |t|
  {
    n := 0;
    var i := 0;
    EndIsLength(t);
    while i < |s|
      invariant n <= |t| && i == Start(t, n) <= |s|
      decreases |s| - i
    {
      StartAtEnd(t, n);
      WidthAt(t, n);
      StartInside(t, n + 1);
      i := i + TableWidth(s[i]);
      n := n + 1;
    }
    StartAtEnd(t, n);
  }

  /** Bytes that start a character. */
  function Starts(s: Bytes): (n: nat) {
    if s == [] then 0 else (if Continuation(s[0]) then 0 else 1) + Starts(s[1..])
  }

  lemma {:induction false} StartsAppend(a: Bytes, b: Bytes)
    ensures Starts(a + b) == Starts(a) + Starts(b)
  {
    if a == [] {
      assert a + b == b;
    } else {
      StartsAppend(a[1..], b);
      assert (a + b)[1..] == a[1..] + b;
    }
  }

  lemma {:induction false} NoStarts(s: Bytes)
    requires forall i :: 0 <= i < |s| ==> Continuation(s[i])
    ensures Starts(s) == 0
  {
    if s != [] {
      NoStarts(s[1..]);
    }
  }

  lemma {:induction false} OneStartPerChar(t: Text)
    ensures Starts(Encode(t)) == |t|
  {
    if t != [] {
      CharWidth(t[0]);
      NoStarts(t[0][1..]);
      StartsAppend(t[0], Encode(t[1..]));
      OneStartPerChar(t[1..]);
    }
  }

  /** Counting characters by the bytes that start one, as signed bytes above -65. */
  method Utf8LengthBytewise(s: Bytes, ghost t: Text) returns (n: nat)
    requires s == Encode(t)
    ensures n == |t|
  {
    n := 0;
    for i := 0 to |s|
      invariant n == Starts(s[..i])
    {
      assert s[..i + 1] == s[..i] + [s[i]];
      StartsAppend(s[..i], [s[i]]);
      var signed := if s[i] >= 128 then s[i] as int - 256 else s[i] as int;
      if signed > -65 {
        n := n + 1;
      }
    }
    assert s[..|s|] == s;
    OneStartPerChar(t);
  }
}
