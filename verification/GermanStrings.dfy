/** Strings of up to 12 bytes kept in place and longer ones split: four bytes in place, the rest in
    a block of an allocator that fills pages and keeps large blocks apart. */
module GermanStrings {
  import opened ByteStrings

  const PAGE_SIZE: nat := 4096
  const MEDIUM_MAX: nat := 512
  const INLINE_MAX: nat := 12
  const PREFIX: nat := 4

  /** What an address returned by the allocator stands for. */
  datatype Block =
    | Null
    | InPage(page: nat, offset: nat, size: nat)
    | InLarge(index: nat, size: nat)

  function BlockSize(b: Block): (n: nat) {
    if b.Null? then 0 else b.size
  }

  /** Two blocks have no byte in common. */
  predicate Apart(a: Block, b: Block) {
    match (a, b)
    case (InPage(p, o, n), InPage(q, k, m)) => p != q || o + n <= k || k + m <= o
    case (InLarge(i, _), InLarge(j, _)) => i != j
    case _ => true
  }

  function TotalBytes(chunks: seq<Bytes>): (n: nat) {
    if chunks == [] then 0 else TotalBytes(chunks[..|chunks| - 1]) + |chunks[|chunks| - 1]|
  }

  function TotalGranted(blocks: seq<Block>): (n: nat) {
    if blocks == [] then 0 else TotalGranted(blocks[..|blocks| - 1]) + BlockSize(blocks[|blocks| - 1])
  }

  lemma TotalAppend(chunks: seq<Bytes>, c: Bytes)
    ensures TotalBytes(chunks + [c]) == TotalBytes(chunks) + |c|
  {
    assert (chunks + [c])[..|chunks|] == chunks;
  }

  lemma {:induction false} TotalUpdate(chunks: seq<Bytes>, i: nat, c: Bytes)
    requires i < |chunks|
    ensures TotalBytes(chunks[i := c]) == TotalBytes(chunks) - |chunks[i]| + |c|
    decreases |chunks|
  {
    var n := |chunks| - 1;
    if i == n {
      assert chunks[i := c][..n] == chunks[..n];
    } else {
      assert chunks[i := c][..n] == chunks[..n][i := c];
      TotalUpdate(chunks[..n], i, c);
    }
  }

  lemma GrantedAppend(blocks: seq<Block>, b: Block)
    ensures TotalGranted(blocks + [b]) == TotalGranted(blocks) + BlockSize(b)
  {
    assert (blocks + [b])[..|blocks|] == blocks;
  }

  /** Pages and large blocks, as they are at one time. */
  datatype Memory = Memory(pages: seq<Bytes>, larges: seq<Bytes>)

  predicate Inside(m: Memory, b: Block) {
    match b
    case Null => false
    case InPage(p, o, n) => p < |m.pages| && o + n <= |m.pages[p]|
    case InLarge(i, n) => i < |m.larges| && |m.larges[i]| == n
  }

  function Read(m: Memory, b: Block): (data: Bytes)
    requires Inside(m, b)
    ensures |data| == BlockSize(b)
  {
    match b
    case InPage(p, o, n) => m.pages[p][o..o + n]
    case InLarge(i, n) => m.larges[i]
  }

  ghost predicate Wf(m: Memory, granted: seq<Block>) {
    && (forall p :: 0 <= p < |m.pages| ==> |m.pages[p]| <= PAGE_SIZE)
    && (forall k :: 0 <= k < |granted| ==> Inside(m, granted[k]))
    && (forall j, k :: 0 <= j < k < |granted| ==> Apart(granted[j], granted[k]))
    && TotalBytes(m.pages) + TotalBytes(m.larges) == TotalGranted(granted)
  }

  /** Blocks hold in m' what they held in m, except perhaps the one at x. */
  ghost predicate Kept(m: Memory, m': Memory, blocks: seq<Block>, x: int) {
    forall k :: 0 <= k < |blocks| && k != x ==>
      Inside(m, blocks[k]) && Inside(m', blocks[k]) && Read(m', blocks[k]) == Read(m, blocks[k])
  }

  /** Where a block of k bytes goes: a medium one to the end of the last page, or of a new page if
      that is full, and a large one apart. */
  predicate Placed(m: Memory, k: nat, b: Block, m': Memory) {
    var n := |m.pages|;
    if k > MEDIUM_MAX then b == InLarge(|m.larges|, k) && m'.pages == m.pages && |m'.larges| == |m.larges| + 1
    else if n == 0 || |m.pages[n - 1]| + k > PAGE_SIZE then
      b == InPage(n, 0, k) && |m'.pages| == n + 1 && m'.larges == m.larges
    else b == InPage(n - 1, |m.pages[n - 1]|, k) && |m'.pages| == n && m'.larges == m.larges
  }

  /** A block at the end of a page that grows, or that is new. */
  lemma GrowPage(m: Memory, granted: seq<Block>, p: nat, extra: Bytes)
    requires Wf(m, granted) && p < |m.pages| && |m.pages[p]| + |extra| <= PAGE_SIZE
    ensures var m' := m.(pages := m.pages[p := m.pages[p] + extra]);
            var b := InPage(p, |m.pages[p]|, |extra|);
            Wf(m', granted + [b]) && Kept(m, m', granted, -1)
  {
    var page := m.pages[p];
    var m' := m.(pages := m.pages[p := page + extra]);
    var b := InPage(p, |page|, |extra|);
    TotalUpdate(m.pages, p, page + extra);
    GrantedAppend(granted, b);
    forall k | 0 <= k < |granted|
      ensures Inside(m', granted[k]) && Read(m', granted[k]) == Read(m, granted[k]) && Apart(granted[k], b)
    {
      assert Inside(m, granted[k]);
    }
  }

  lemma NewPage(m: Memory, granted: seq<Block>)
    requires Wf(m, granted)
    ensures var m' := m.(pages := m.pages + [[]]); Wf(m', granted) && Kept(m, m', granted, -1)
  {
    TotalAppend(m.pages, []);
  }

  lemma NewLarge(m: Memory, granted: seq<Block>, data: Bytes)
    requires Wf(m, granted)
    ensures var m' := m.(larges := m.larges + [data]);
            var b := InLarge(|m.larges|, |data|);
            Wf(m', granted + [b]) && Kept(m, m', granted, -1)
  {
    var m' := m.(larges := m.larges + [data]);
    var b := InLarge(|m.larges|, |data|);
    TotalAppend(m.larges, data);
    GrantedAppend(granted, b);
    forall k | 0 <= k < |granted|
      ensures Inside(m', granted[k]) && Read(m', granted[k]) == Read(m, granted[k]) && Apart(granted[k], b)
    {
      assert Inside(m, granted[k]);
    }
  }

  /** The memory with a block's bytes replaced. */
  function Written(m: Memory, b: Block, data: Bytes): (m': Memory)
    requires Inside(m, b) && |data| == BlockSize(b)
  {
    match b
    case InPage(p, o, n) => m.(pages := m.pages[p := m.pages[p][..o] + data + m.pages[p][o + n..]])
    case InLarge(i, n) => m.(larges := m.larges[i := data])
  }

  lemma WriteSizes(m: Memory, b: Block, data: Bytes)
    requires Inside(m, b) && |data| == BlockSize(b)
    ensures var m' := Written(m, b, data);
            && |m'.pages| == |m.pages| && (forall p :: 0 <= p < |m.pages| ==> |m'.pages[p]| == |m.pages[p]|)
            && TotalBytes(m'.pages) == TotalBytes(m.pages) && TotalBytes(m'.larges) == TotalBytes(m.larges)
  {
    match b
    case InPage(p, o, n) => TotalUpdate(m.pages, p, m.pages[p][..o] + data + m.pages[p][o + n..]);
    case InLarge(i, n) => TotalUpdate(m.larges, i, data);
  }

  lemma WriteOwn(m: Memory, b: Block, data: Bytes)
    requires Inside(m, b) && |data| == BlockSize(b)
    ensures Inside(Written(m, b, data), b) && Read(Written(m, b, data), b) == data
  {
  }

  lemma WriteKeepsOthers(m: Memory, granted: seq<Block>, x: nat, data: Bytes)
    requires Wf(m, granted) && x < |granted| && |data| == BlockSize(granted[x])
    ensures Inside(m, granted[x])
    ensures var m' := Written(m, granted[x], data);
            Wf(m', granted) && Kept(m, m', granted, x) && Inside(m', granted[x]) && Read(m', granted[x]) == data
  {
    hide Written, Inside, Read, Apart, TotalBytes, TotalGranted;
    var b := granted[x];
    var m' := Written(m, b, data);
    WriteSizes(m, b, data);
    WriteOwn(m, b, data);
    forall k | 0 <= k < |granted| && k != x
      ensures Inside(m, granted[k]) && Inside(m', granted[k]) && Read(m', granted[k]) == Read(m, granted[k])
    {
      WriteApart(m, b, data, granted[k]);
    }
  }

  lemma WriteApart(m: Memory, b: Block, data: Bytes, c: Block)
    requires Inside(m, b) && Inside(m, c) && |data| == BlockSize(b) && (Apart(b, c) || Apart(c, b))
    ensures Inside(Written(m, b, data), c) && Read(Written(m, b, data), c) == Read(m, c)
  {
    if b.InPage? && c.InPage? && b.page == c.page {
      SliceKept(m.pages[b.page], b.offset, data, c.offset, c.size);
    }
  }

  lemma SliceKept(page: Bytes, o: nat, data: Bytes, k: nat, n: nat)
    requires o + |data| <= |page| && k + n <= |page| && (o + |data| <= k || k + n <= o)
    ensures (page[..o] + data + page[o + |data|..])[k..k + n] == page[k..k + n]
  {
    var page' := page[..o] + data + page[o + |data|..];
    assert |page'| == |page|;
    forall i | k <= i < k + n
      ensures page'[i] == page[i]
    {
    }
  }

  lemma KeptSame(m: Memory, granted: seq<Block>)
    requires Wf(m, granted)
    ensures Kept(m, m, granted, -1)
  {
  }

  lemma KeptTrans(m1: Memory, m2: Memory, m3: Memory, blocks: seq<Block>)
    requires Kept(m1, m2, blocks, -1) && Kept(m2, m3, blocks, -1)
    ensures Kept(m1, m3, blocks, -1)
  {
  }

  // ---- strings ------------------------------------------------------------------------------------

  datatype GermanString =
    | Short(len: nat, str: Bytes)
    | Long(len: nat, prefix: Bytes, ptr: Block)

  /** A string kept in place: its bytes, then what is left of four stale bytes and eight zeros. */
  function InPlace(text: Bytes, stale: Bytes): (g: GermanString)
    requires |text| <= INLINE_MAX && |stale| == PREFIX
  {
    Short(|text|, text + (stale + [0, 0, 0, 0, 0, 0, 0, 0])[|text|..])
  }

  ghost predicate Represents(m: Memory, g: GermanString, text: Bytes) {
    g.len == |text| &&
    match g
    case Short(n, str) => n <= INLINE_MAX == |str| && str[..n] == text
    case Long(n, prefix, ptr) =>
      n > INLINE_MAX && prefix == text[..PREFIX] && Inside(m, ptr) && Read(m, ptr) == text[PREFIX..]
  }

  /** The conversion to a plain string. */
  function ToText(m: Memory, g: GermanString): (text: Bytes)
    requires g.Short? ==> g.len <= |g.str|
    requires g.Long? ==> Inside(m, g.ptr)
  {
    match g
    case Short(n, str) => str[..n]
    case Long(_, prefix, ptr) => prefix + Read(m, ptr)
  }

  lemma ConvertsBack(m: Memory, g: GermanString, text: Bytes)
    requires Represents(m, g, text)
    ensures ToText(m, g) == text
  {
  }

  class Allocator {
    var pages: seq<Bytes>
    var larges: seq<Bytes>
    ghost var granted: seq<Block>      // the blocks given out since the last clear

    function Contents(): (m: Memory)
      reads this
    {
      Memory(pages, larges)
    }

    ghost predicate Valid()
      reads this
    {
      Wf(Contents(), granted)
    }

    constructor ()
      ensures Valid() && granted == []
    {
      pages, larges, granted := [], [], [];
    }

    method Clear()
      modifies this
      ensures Valid() && granted == []
    {
      larges, pages, granted := [], [], [];
    }

    /** The bytes in use are those of the blocks given out. */
    method Size() returns (n: nat)
      requires Valid()
      ensures n == TotalGranted(granted)
    {
      n := 0;
      for i := 0 to |pages|
        invariant n == TotalBytes(pages[..i])
      {
        assert pages[..i + 1] == pages[..i] + [pages[i]];
        TotalAppend(pages[..i], pages[i]);
        n := n + |pages[i]|;
      }
      assert pages[..|pages|] == pages;
      for i := 0 to |larges|
        invariant n == TotalBytes(pages) + TotalBytes(larges[..i])
      {
        assert larges[..i + 1] == larges[..i] + [larges[i]];
        TotalAppend(larges[..i], larges[i]);
        n := n + |larges[i]|;
      }
      assert larges[..|larges|] == larges;
    }

    /** A block for what a string of n bytes does not keep in place; `unset` is what a new large
        block happens to contain. */
    method Allocate(n: nat, unset: Bytes) returns (b: Block)
      requires Valid() && (n > INLINE_MAX ==> |unset| == n - PREFIX)
      modifies this
      ensures Valid() && Kept(old(Contents()), Contents(), old(granted), -1)
      ensures n <= INLINE_MAX ==> b == Null && granted == old(granted)
      ensures n > INLINE_MAX ==> granted == old(granted) + [b] && BlockSize(b) == n - PREFIX && !b.Null?
      ensures n > INLINE_MAX ==> Placed(old(Contents()), n - PREFIX, b, Contents())
    {
      hide Wf, Kept;
      if n <= INLINE_MAX {
        KeptSame(Contents(), granted);
        return Null;
      }
      var k := n - PREFIX;
      ghost var m := Contents();
      if k <= MEDIUM_MAX {
        KeptSame(m, granted);
        if pages == [] || |pages[|pages| - 1]| + k > PAGE_SIZE {
          NewPage(m, granted);
          pages := pages + [[]];
        }
        ghost var m1 := Contents();
        var last := |pages| - 1;
        var page := pages[last];
        var zeros: Bytes := seq(k, i => 0);
        GrowPage(m1, granted, last, zeros);
        pages := pages[last := page + zeros];
        b := InPage(last, |page|, k);
        KeptTrans(m, m1, Contents(), granted);
      } else {
        NewLarge(m, granted, unset);
        larges := larges + [unset];
        b := InLarge(|larges| - 1, k);
      }
      granted := granted + [b];
    }

    /** Copies bytes into a block that was given out. */
    method Fill(b: Block, data: Bytes, ghost x: nat)
      requires Valid() && x < |granted| && granted[x] == b && |data| == BlockSize(b)
      modifies `pages, `larges
      ensures Valid() && Kept(old(Contents()), Contents(), granted, x)
      ensures Inside(Contents(), b) && Read(Contents(), b) == data
    {
      hide Wf, Kept;
      WriteKeepsOthers(Contents(), granted, x, data);
      match b
      case InPage(p, o, n) => pages := pages[p := pages[p][..o] + data + pages[p][o + n..]];
      case InLarge(i, n) => larges := larges[i := data];
    }

    /** Builds a string; what does not fit in place goes into its block.  `stale` is what the four
        bytes after the length happened to contain. */
    method Construct(text: Bytes, ptr: Block, stale: Bytes, ghost x: nat) returns (g: GermanString)
      requires Valid() && |stale| == PREFIX
      requires |text| > INLINE_MAX ==> x < |granted| && granted[x] == ptr && BlockSize(ptr) == |text| - PREFIX
      modifies `pages, `larges
      ensures Valid() && Kept(old(Contents()), Contents(), granted, if |text| > INLINE_MAX then x else -1)
      ensures Represents(Contents(), g, text) && (|text| > INLINE_MAX ==> g.ptr == ptr)
      ensures |text| <= INLINE_MAX ==> g == InPlace(text, stale)
    {
      if |text| <= INLINE_MAX {
        KeptSame(Contents(), granted);
        g := InPlace(text, stale);
      } else {
        Fill(ptr, text[PREFIX..], x);
        g := Long(|text|, text[..PREFIX], ptr);
      }
    }
  }
}
