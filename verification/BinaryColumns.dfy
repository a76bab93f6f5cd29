/** Columns of byte strings: all bytes in one vector, and the offset at which each row ends. */
module BinaryColumns {
  import opened ByteStrings

  class BinaryColumn {
    var bytes: Bytes
    var offsets: seq<nat>

    ghost predicate Valid()
      reads this
    {
      && |offsets| > 0 && offsets[0] == 0 && offsets[|offsets| - 1] == |bytes|
      && (forall i, j :: 0 <= i <= j < |offsets| ==> offsets[i] <= offsets[j])
    }

    function Size(): (n: nat)
      requires |offsets| > 0
      reads this
    {
      |offsets| - 1
    }

    /** The bytes of a row. */
    function GetSlice(i: nat): (s: Bytes)
      requires Valid() && i < Size()
      reads this
      ensures |s| == offsets[i + 1] - offsets[i]
    {
      InBytes(i + 1);
      bytes[offsets[i]..offsets[i + 1]]
    }

    lemma InBytes(i: nat)
      requires Valid() && i < |offsets|
      ensures offsets[i] <= |bytes|
    {
    }

    ghost function Rows(): (rows: seq<Bytes>)
      requires Valid()
      reads this
    {
      seq(Size(), i requires Valid() && 0 <= i < Size() reads this => GetSlice(i))
    }

    constructor ()
      ensures Valid() && Rows() == []
    {
      bytes, offsets := [], [0];
    }

    method Append(s: Bytes)
      requires Valid()
      modifies this
      ensures Valid() && Rows() == old(Rows()) + [s]
    {
      ghost var rows, before, ends := Rows(), bytes, offsets;
      bytes := bytes + s;
      offsets := offsets + [offsets[|offsets| - 1] + |s|];
      forall i | 0 <= i < |rows|
        ensures GetSlice(i) == rows[i]
      {
        assert offsets[i + 1] == ends[i + 1] <= |before|;
        assert bytes[ends[i]..ends[i + 1]] == before[ends[i]..ends[i + 1]];
      }
      assert GetSlice(|rows|) == s;
      assert Rows() == rows + [s];
    }
  }
}
