/** Row keys: the rows of several columns side by side, each string preceded by its length, every
    row in its own window of one buffer. */
module RowKeys {
  import opened ByteStrings
  import opened BinaryColumns
  import opened Arith

  const MAX_ROWS: nat := 4096
  const LENGTH_BYTES: nat := 4
  const B32: int := 0x1_0000_0000

  // ---- one string -------------------------------------------------------------------------------

  /** A length as four bytes, the lowest first. */
  function LengthBytes(n: nat): (b: Bytes)
    requires n < B32
    ensures |b| == LENGTH_BYTES
  {
    var n1 := n / 256;
    var n2 := n1 / 256;
    [(n % 256) as Byte, (n1 % 256) as Byte, (n2 % 256) as Byte, (n2 / 256) as Byte]
  }

  function LengthOf(b: Bytes): (n: nat)
    requires |b| == LENGTH_BYTES
  {
    b[0] as nat + 256 * (b[1] as nat + 256 * (b[2] as nat + 256 * b[3] as nat))
  }

  lemma LengthIsRecovered(n: nat)
    requires n < B32
    ensures LengthOf(LengthBytes(n)) == n
  {
    var n1 := n / 256;
    var n2 := n1 / 256;
    assert n == n % 256 + 256 * n1 && n1 == n1 % 256 + 256 * n2 && n2 == n2 % 256 + 256 * (n2 / 256);
  }

  function Serialized(s: Bytes): (b: Bytes)
    requires |s| < B32
  {
    LengthBytes(|s|) + s
  }

  // ---- one row ------------------------------------------------------------------------------------

  predicate Short(row: seq<Bytes>) {
    forall i :: 0 <= i < |row| ==> |row[i]| < B32
  }

  function Key(row: seq<Bytes>): (b: Bytes)
    requires Short(row)
  {
    if row == [] then [] else Key(row[..|row| - 1]) + Serialized(row[|row| - 1])
  }

  lemma {:induction false} KeyFirst(row: seq<Bytes>)
    requires Short(row) && row != []
    ensures Key(row) == Serialized(row[0]) + Key(row[1..])
    decreases |row|
  {
    hide Serialized;
    var n := |row| - 1;
    if n == 0 {
      assert row[..0] == [] && row[1..] == [];
    } else {
      var init, tail := row[..n], row[1..];
      KeyFirst(init);
      assert init[1..] == tail[..n - 1] && tail[n - 1] == row[n] && init[0] == row[0];
      assert Key(tail) == Key(tail[..n - 1]) + Serialized(row[n]);
      assert Key(row) == Key(init) + Serialized(row[n]);
      JoinedLeft(Serialized(row[0]), Key(init[1..]), Serialized(row[n]));
    }
  }

  lemma JoinedLeft(a: Bytes, b: Bytes, c: Bytes)
    ensures (a + b) + c == a + (b + c)
  {
  }

  /** What begins with a serialized string determines the string. */
  lemma FirstString(k: Bytes, s: Bytes, rest: Bytes, s': Bytes, rest': Bytes)
    requires |s| < B32 && |s'| < B32 && k == Serialized(s) + rest == Serialized(s') + rest'
    ensures s == s' && rest == rest'
  {
    assert k[..4] == LengthBytes(|s|) && k[..4] == LengthBytes(|s'|);
    LengthIsRecovered(|s|);
    LengthIsRecovered(|s'|);
    var n := 4 + |s|;
    assert s == k[4..n] && s' == k[4..n] && rest == k[n..] && rest' == k[n..];
  }

  /** A key determines the row, for rows of as many strings. */
  lemma {:induction false} KeyDeterminesRow(a: seq<Bytes>, b: seq<Bytes>)
    requires Short(a) && Short(b) && |a| == |b|
    ensures Key(a) == Key(b) <==> a == b
  {
    hide LengthBytes, Serialized;
    if a != [] && Key(a) == Key(b) {
      KeyFirst(a);
      KeyFirst(b);
      FirstString(Key(a), a[0], Key(a[1..]), b[0], Key(b[1..]));
      KeyDeterminesRow(a[1..], b[1..]);
      assert a == [a[0]] + a[1..] && b == [b[0]] + b[1..];
    }
  }

  // ---- sizes --------------------------------------------------------------------------------------

  function LongestRow(rows: seq<Bytes>): (m: nat)
    ensures forall i :: 0 <= i < |rows| ==> |rows[i]| <= m
    ensures rows != [] ==> exists i :: 0 <= i < |rows| && |rows[i]| == m
  {
    if rows == [] then 0
    else
      var m := LongestRow(rows[..|rows| - 1]);
      assert forall i :: 0 <= i < |rows| - 1 ==> rows[i] == rows[..|rows| - 1][i];
      assert |rows[|rows| - 1]| >= m ==> |rows[|rows| - 1]| == Max(m, |rows[|rows| - 1]|);
      Max(m, |rows[|rows| - 1]|)
  }

  /** The columns' rows, a sequence of rows for each column. */
  type Table = seq<seq<Bytes>>

  predicate Rectangular(t: Table, n: nat) {
    forall c :: 0 <= c < |t| ==> |t[c]| == n && Short(t[c])
  }

  function RowAt(t: Table, n: nat, i: nat): (row: seq<Bytes>)
    requires Rectangular(t, n) && i < n
    ensures Short(row) && |row| == |t|
  {
    seq(|t|, c requires 0 <= c < |t| => t[c][i])
  }

  /** Room for the longest string of each column and its length. */
  function RowSize(t: Table): (size: nat) {
    if t == [] then 0 else RowSize(t[..|t| - 1]) + LongestRow(t[|t| - 1]) + LENGTH_BYTES
  }

  lemma KeyNext(t: Table, n: nat, i: nat, c: nat)
    requires Rectangular(t, n) && i < n && c < |t|
    ensures Rectangular(t[..c], n) && Rectangular(t[..c + 1], n)
    ensures Key(RowAt(t[..c + 1], n, i)) == Key(RowAt(t[..c], n, i)) + Serialized(t[c][i])
  {
    var row := RowAt(t[..c + 1], n, i);
    assert row[..c] == RowAt(t[..c], n, i) && row[c] == t[c][i];
  }

  lemma {:induction false} KeyFits(t: Table, n: nat, i: nat)
    requires Rectangular(t, n) && i < n
    ensures |Key(RowAt(t, n, i))| <= RowSize(t)
  {
    if t != [] {
      var c := |t| - 1;
      KeyNext(t, n, i, c);
      assert t[..c + 1] == t;
      KeyFits(t[..c], n, i);
    }
  }

  lemma {:induction false} RowSizeGrows(t: Table, c: nat)
    requires c <= |t|
    ensures RowSize(t[..c]) <= RowSize(t)
    decreases |t|
  {
    if c < |t| {
      RowSizeGrows(t[..|t| - 1], c);
      assert t[..|t| - 1][..c] == t[..c];
    } else {
      assert t[..c] == t;
    }
  }

  // ---- writing into the buffer ----------------------------------------------------------------------

  function Written(b: Bytes, pos: nat, data: Bytes): (b': Bytes)
    requires pos + |data| <= |b|
    ensures |b'| == |b|
  {
    b[..pos] + data + b[pos + |data|..]
  }

  predicate HasKey(b: Bytes, base: nat, key: Bytes) {
    base + |key| <= |b| && b[base..base + |key|] == key
  }

  lemma KeyExtended(b: Bytes, base: nat, key: Bytes, data: Bytes)
    requires HasKey(b, base, key) && base + |key| + |data| <= |b|
    ensures HasKey(Written(b, base + |key|, data), base, key + data)
  {
    var w := Written(b, base + |key|, data);
    assert w[base..base + |key|] == key && w[base + |key|..base + |key + data|] == data;
    assert w[base..base + |key + data|] == w[base..base + |key|] + w[base + |key|..base + |key + data|];
  }

  lemma KeyUntouched(b: Bytes, base: nat, key: Bytes, pos: nat, data: Bytes)
    requires HasKey(b, base, key) && pos + |data| <= |b|
    requires base + |key| <= pos || pos + |data| <= base
    ensures HasKey(Written(b, pos, data), base, key)
  {
  }

  /** Where the window of a row begins. */
  function Base(i: nat, size: nat): (base: nat) {
    MulSign(i, size);
    i * size
  }

  /** The windows of two rows do not overlap. */
  lemma Windows(i: nat, j: nat, size: nat)
    requires i < j
    ensures Base(i, size) + size <= Base(j, size)
  {
    MulLe(i + 1, j, size);
    assert (i + 1) * size == i * size + size;
  }

  // ---- the columns ------------------------------------------------------------------------------------

  ghost predicate IsTable(columns: seq<BinaryColumn>, t: Table, n: nat)
    reads columns
  {
    && |columns| == |t| && Rectangular(t, n)
    && forall c :: 0 <= c < |columns| ==> columns[c].Valid() && columns[c].Rows() == t[c]
  }

  method GetMaxSerializedSize(column: BinaryColumn, ghost rows: seq<Bytes>) returns (size: nat)
    requires column.Valid() && column.Rows() == rows
    ensures size == LongestRow(rows) + LENGTH_BYTES
  {
    size := 0;
    for i := 0 to column.Size()
      invariant size == LongestRow(rows[..i])
    {
      assert column.GetSlice(i) == rows[i];
      assert rows[..i + 1][..i] == rows[..i];
      size := Max(size, column.offsets[i + 1] - column.offsets[i]);
    }
    assert rows[..|rows|] == rows;
    size := size + LENGTH_BYTES;
  }

  method GetMaxSerializeSize(columns: seq<BinaryColumn>, ghost t: Table, ghost n: nat) returns (size: nat)
    requires IsTable(columns, t, n)
    ensures size == RowSize(t)
  {
    size := 0;
    for c := 0 to |columns|
      invariant size == RowSize(t[..c])
    {
      var columnSize := GetMaxSerializedSize(columns[c], t[c]);
      assert t[..c + 1][..c] == t[..c];
      size := size + columnSize;
    }
    assert t[..|t|] == t;
  }

  /** Copies bytes into a buffer. */
  method Copy(buffer: array<Byte>, pos: nat, data: Bytes)
    requires pos + |data| <= buffer.Length
    modifies buffer
    ensures buffer[..] == Written(old(buffer[..]), pos, data)
  {
    forall i | 0 <= i < |data| {
      buffer[pos + i] := data[i];
    }
    assert buffer[..] == Written(old(buffer[..]), pos, data);
  }

  method Serialize(column: BinaryColumn, idx: nat, buffer: array<Byte>, pos: nat) returns (size: nat)
    requires column.Valid() && idx < column.Size() && |column.GetSlice(idx)| < B32
    requires pos + LENGTH_BYTES + |column.GetSlice(idx)| <= buffer.Length
    modifies buffer
    ensures buffer[..] == Written(old(buffer[..]), pos, Serialized(column.GetSlice(idx)))
    ensures size == |Serialized(column.GetSlice(idx))|
  {
    var s := column.GetSlice(idx);
    ghost var before := buffer[..];
    Copy(buffer, pos, LengthBytes(|s|));
    Copy(buffer, pos + LENGTH_BYTES, s);
    assert buffer[..] == Written(before, pos, Serialized(s));
    size := LENGTH_BYTES + |s|;
  }

  /** Row i of the buffer holds the key of the first c columns of the row, and its size. */
  ghost predicate RowHolds(b: Bytes, sizes: seq<nat>, size: nat, t: Table, n: nat, c: nat, i: nat)
    requires Rectangular(t, n) && c <= |t| && i < n && n <= |sizes|
  {
    var key := Key(RowAt(t[..c], n, i));
    sizes[i] == |key| <= RowSize(t[..c]) && HasKey(b, Base(i, size), key)
  }

  /** After a string is written, its row holds one more column. */
  lemma RowAdvances(b: Bytes, sizes: seq<nat>, size: nat, t: Table, n: nat, c: nat, i: nat)
    requires Rectangular(t, n) && c < |t| && i < n && n <= |sizes| && size == RowSize(t) && Base(i, size) + size <= |b|
    requires RowHolds(b, sizes, size, t, n, c, i)
    ensures var data := Serialized(t[c][i]); var pos := Base(i, size) + sizes[i];
            && sizes[i] + |data| <= size
            && RowHolds(Written(b, pos, data), sizes[i := sizes[i] + |data|], size, t, n, c + 1, i)
  {
    hide Base, Key, RowAt, RowSize, HasKey, Written, Serialized;
    KeyNext(t, n, i, c);
    KeyFits(t[..c + 1], n, i);
    RowSizeGrows(t, c + 1);
    KeyExtended(b, Base(i, size), Key(RowAt(t[..c], n, i)), Serialized(t[c][i]));
  }

  /** The other rows hold what they did. */
  lemma RowUntouched(b: Bytes, sizes: seq<nat>, size: nat, t: Table, n: nat, c: nat, j: nat,
                     i: nat, data: Bytes, sizes': seq<nat>)
    requires Rectangular(t, n) && c <= |t| && j < n && i < n && i != j && n <= |sizes| == |sizes'| && size == RowSize(t)
    requires RowHolds(b, sizes, size, t, n, c, j) && sizes'[j] == sizes[j]
    requires sizes[i] + |data| <= size && Base(i, size) + size <= |b|
    ensures RowHolds(Written(b, Base(i, size) + sizes[i], data), sizes', size, t, n, c, j)
  {
    hide Base, Key, RowAt, RowSize, HasKey, Written;
    RowSizeGrows(t, c);
    if i < j {
      Windows(i, j, size);
    } else {
      Windows(j, i, size);
    }
    KeyUntouched(b, Base(j, size), Key(RowAt(t[..c], n, j)), Base(i, size) + sizes[i], data);
  }

  function Columns(i: nat, k: nat, c: nat): (n: nat) {
    if i < k then c + 1 else c
  }

  /** All rows hold their keys, the first k of them with one column more. */
  ghost predicate RowsHold(b: Bytes, sizes: seq<nat>, size: nat, t: Table, n: nat, c: nat, k: nat)
    requires Rectangular(t, n) && c <= |t| && n <= |sizes| && (k > 0 ==> c < |t|)
  {
    forall i :: 0 <= i < n ==> RowHolds(b, sizes, size, t, n, Columns(i, k, c), i)
  }

  lemma RowsAdvance(b: Bytes, sizes: seq<nat>, size: nat, t: Table, n: nat, c: nat, k: nat)
    requires Rectangular(t, n) && c < |t| && n <= |sizes| && size == RowSize(t) && k < n && Base(k, size) + size <= |b|
    requires RowsHold(b, sizes, size, t, n, c, k)
    ensures var data := Serialized(t[c][k]); var pos := Base(k, size) + sizes[k];
            && sizes[k] + |data| <= size
            && RowsHold(Written(b, pos, data), sizes[k := sizes[k] + |data|], size, t, n, c, k + 1)
  {
    hide Base, Serialized, RowHolds, Written;
    assert Columns(k, k, c) == c && Columns(k, k + 1, c) == c + 1;
    assert RowHolds(b, sizes, size, t, n, Columns(k, k, c), k);
    RowAdvances(b, sizes, size, t, n, c, k);
    var data := Serialized(t[c][k]);
    var sizes' := sizes[k := sizes[k] + |data|];
    var next, b' := k + 1, Written(b, Base(k, size) + sizes[k], data);
    forall i | 0 <= i < n && i != k
      ensures RowHolds(b', sizes', size, t, n, Columns(i, next, c), i)
    {
      RowUntouched(b, sizes, size, t, n, Columns(i, k, c), i, k, data, sizes');
    }
  }

  lemma RowsStart(b: Bytes, sizes: seq<nat>, size: nat, t: Table, n: nat)
    requires Rectangular(t, n) && n <= MAX_ROWS == |sizes| && |b| == Base(MAX_ROWS, size)
    requires forall i :: 0 <= i < |sizes| ==> sizes[i] == 0
    ensures RowsHold(b, sizes, size, t, n, 0, 0)
  {
    hide Base;
    forall i | 0 <= i < n
      ensures RowHolds(b, sizes, size, t, n, Columns(i, 0, 0), i)
    {
      Windows(i, MAX_ROWS, size);
      assert RowAt(t[..0], n, i) == [];
    }
  }

  lemma RowsRenamed(b: Bytes, sizes: seq<nat>, size: nat, t: Table, n: nat, c: nat)
    requires Rectangular(t, n) && c < |t| && n <= |sizes| && RowsHold(b, sizes, size, t, n, c, n)
    ensures RowsHold(b, sizes, size, t, n, c + 1, 0)
  {
    hide RowHolds;
    var next := c + 1;
    forall i | 0 <= i < n
      ensures RowHolds(b, sizes, size, t, n, Columns(i, 0, next), i)
    {
      assert Columns(i, n, c) == Columns(i, 0, next) == next;
      assert RowHolds(b, sizes, size, t, n, Columns(i, n, c), i);
    }
  }

  method SerializeRow(column: BinaryColumn, buffer: array<Byte>, sizes: array<nat>, i: nat, size: nat,
                      ghost t: Table, ghost n: nat, ghost c: nat)
    requires Rectangular(t, n) && c < |t| && column.Valid() && column.Rows() == t[c] && i < n
    requires n <= MAX_ROWS == sizes.Length && buffer.Length == Base(MAX_ROWS, size) && size == RowSize(t)
    requires RowsHold(buffer[..], sizes[..], size, t, n, c, i)
    modifies buffer, sizes
    ensures RowsHold(buffer[..], sizes[..], size, t, n, c, i + 1)
    ensures forall j :: 0 <= j < MAX_ROWS && j != i ==> sizes[j] == old(sizes[j])
  {
    hide Base, Serialized, RowsHold, Written, RowSize;
    assert column.GetSlice(i) == t[c][i];
    Windows(i, MAX_ROWS, size);
    RowsAdvance(buffer[..], sizes[..], size, t, n, c, i);
    SerializedLength(t[c][i]);
    ghost var before := sizes[..];
    var k := Serialize(column, i, buffer, Base(i, size) + sizes[i]);
    sizes[i] := sizes[i] + k;
    assert sizes[..] == before[i := before[i] + k];
  }

  method SerializeBatch(column: BinaryColumn, buffer: array<Byte>, sizes: array<nat>, n: nat, size: nat,
                        ghost t: Table, ghost c: nat)
    requires Rectangular(t, n) && c < |t| && column.Valid() && column.Rows() == t[c]
    requires n <= MAX_ROWS == sizes.Length && buffer.Length == Base(MAX_ROWS, size) && size == RowSize(t)
    requires RowsHold(buffer[..], sizes[..], size, t, n, c, 0)
    modifies buffer, sizes
    ensures RowsHold(buffer[..], sizes[..], size, t, n, c + 1, 0)
    ensures forall i :: n <= i < MAX_ROWS ==> sizes[i] == old(sizes[i])
  {
    hide Base, RowsHold, RowSize;
    for i := 0 to n
      invariant RowsHold(buffer[..], sizes[..], size, t, n, c, i)
      invariant forall j :: n <= j < MAX_ROWS ==> sizes[j] == old(sizes[j])
    {
      SerializeRow(column, buffer, sizes, i, size, t, n, c);
    }
    RowsRenamed(buffer[..], sizes[..], size, t, n, c);
  }

  lemma SerializedLength(s: Bytes)
    requires |s| < B32
    ensures |Serialized(s)| == LENGTH_BYTES + |s|
  {
  }

  method SerializeColumns(columns: seq<BinaryColumn>, buffer: array<Byte>, sizes: array<nat>, size: nat,
                          ghost t: Table, ghost n: nat)
    requires columns != [] && IsTable(columns, t, n) && n <= MAX_ROWS == sizes.Length
    requires buffer.Length == Base(MAX_ROWS, size) && size == RowSize(t)
    requires forall i :: 0 <= i < MAX_ROWS ==> sizes[i] == 0
    modifies buffer, sizes
    ensures RowsHold(buffer[..], sizes[..], size, t, n, |t|, 0)
    ensures forall i :: n <= i < MAX_ROWS ==> sizes[i] == 0
  {
    hide Base, RowHolds, Rectangular, RowsHold, IsTable;
    TableShape(columns, t, n);
    RowsStart(buffer[..], sizes[..], size, t, n);
    for c := 0 to |columns|
      invariant IsTable(columns, t, n) && RowsHold(buffer[..], sizes[..], size, t, n, c, 0)
      invariant forall i :: n <= i < MAX_ROWS ==> sizes[i] == 0
    {
      TableColumn(columns, t, n, 0);
      TableColumn(columns, t, n, c);
      SerializeBatch(columns[c], buffer, sizes, columns[0].Size(), size, t, c);
    }
  }

  /** Every row's key ends up in its window, and its size beside it. */
  method ConcatVertically(columns: seq<BinaryColumn>, ghost t: Table, ghost n: nat)
    returns (buffer: array<Byte>, sizes: array<nat>, size: nat)
    requires columns != [] && IsTable(columns, t, n) && n <= MAX_ROWS
    ensures fresh(buffer) && fresh(sizes) && size == RowSize(t)
    ensures buffer.Length == Base(MAX_ROWS, size) && sizes.Length == MAX_ROWS
    ensures forall i :: 0 <= i < n ==> RowHolds(buffer[..], sizes[..], size, t, n, |t|, i)
    ensures forall i :: n <= i < MAX_ROWS ==> sizes[i] == 0
  {
    hide Base, RowHolds, Rectangular, RowsHold;
    sizes := new nat[MAX_ROWS](i => 0);
    size := GetMaxSerializeSize(columns, t, n);
    buffer := new Byte[Base(MAX_ROWS, size)];
    SerializeColumns(columns, buffer, sizes, size, t, n);
    RowsDone(buffer[..], sizes[..], size, t, n);
  }

  lemma TableShape(columns: seq<BinaryColumn>, t: Table, n: nat)
    requires IsTable(columns, t, n)
    ensures |columns| == |t| && Rectangular(t, n)
  {
  }

  lemma TableColumn(columns: seq<BinaryColumn>, t: Table, n: nat, c: nat)
    requires IsTable(columns, t, n) && c < |columns|
    ensures columns[c].Valid() && |columns| == |t| && columns[c].Rows() == t[c] && columns[c].Size() == n
  {
    assert |columns[c].Rows()| == |t[c]|;
  }

  lemma RowsDone(b: Bytes, sizes: seq<nat>, size: nat, t: Table, n: nat)
    requires Rectangular(t, n) && n <= |sizes| && RowsHold(b, sizes, size, t, n, |t|, 0)
    ensures forall i :: 0 <= i < n ==> RowHolds(b, sizes, size, t, n, |t|, i)
  {
    hide RowHolds;
    forall i | 0 <= i < n
      ensures RowHolds(b, sizes, size, t, n, |t|, i)
    {
      assert RowHolds(b, sizes, size, t, n, Columns(i, 0, |t|), i);
    }
  }

  /** Two rows have the same serialized bytes exactly when they are equal in every column. */
  lemma EqualKeysEqualRows(t: Table, n: nat, i: nat, j: nat)
    requires Rectangular(t, n) && i < n && j < n
    ensures Key(RowAt(t, n, i)) == Key(RowAt(t, n, j)) <==> forall c :: 0 <= c < |t| ==> t[c][i] == t[c][j]
  {
    var a, b := RowAt(t, n, i), RowAt(t, n, j);
    KeyDeterminesRow(a, b);
    assert forall c :: 0 <= c < |t| ==> a[c] == t[c][i] && b[c] == t[c][j];
  }
}
