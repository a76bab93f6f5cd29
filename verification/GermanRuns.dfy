/** Any sequence of allocations and constructions: a string stands for its text until its block is
    built again, and the size in use is what was asked for. */
module GermanRuns {
  import opened ByteStrings
  import opened GermanStrings
  import opened Options

  /** A block is asked for, for a string of n bytes, or a string is built, a long one in the k-th of the blocks
      got so far.  `unset` and `stale` are what the memory happens to contain. */
  datatype Event =
    | Alloc(n: nat, unset: Bytes)
    | Build(text: Bytes, k: nat, stale: Bytes)

  /** The bytes a string of n bytes does not keep in place. */
  function Spilled(n: nat): (k: nat) {
    if n > INLINE_MAX then n - PREFIX else 0
  }

  /** The sizes of the blocks got by a sequence of events. */
  function Sizes(events: seq<Event>): (sizes: seq<nat>) {
    if events == [] then []
    else
      var e := events[|events| - 1];
      Sizes(events[..|events| - 1]) + if e.Alloc? && e.n > INLINE_MAX then [e.n - PREFIX] else []
  }

  /** The bytes asked for by a sequence of events. */
  function Asked(events: seq<Event>): (n: nat) {
    if events == [] then 0
    else
      var e := events[|events| - 1];
      Asked(events[..|events| - 1]) + if e.Alloc? then Spilled(e.n) else 0
  }

  /** What a caller owes: a long string is built in a block that was got for its length. */
  predicate Allowed(sizes: seq<nat>, e: Event) {
    match e
    case Alloc(n, unset) => n > INLINE_MAX ==> |unset| == n - PREFIX
    case Build(text, k, stale) =>
      |stale| == PREFIX && (|text| > INLINE_MAX ==> k < |sizes| && sizes[k] == |text| - PREFIX)
  }

  predicate AllAllowed(events: seq<Event>) {
    forall i :: 0 <= i < |events| ==> Allowed(Sizes(events[..i]), events[i])
  }

  predicate BuildsIn(e: Event, k: nat) {
    e.Build? && |e.text| > INLINE_MAX && e.k == k
  }

  /** No later event builds in the block of the string built by event i. */
  ghost predicate Untouched(events: seq<Event>, i: nat)
    requires i < |events| && events[i].Build?
  {
    |events[i].text| <= INLINE_MAX || forall j :: i < j < |events| ==> !BuildsIn(events[j], events[i].k)
  }

  /** A string has the form and the block it was built with. */
  predicate Formed(g: GermanString, blocks: seq<Block>, e: Event)
    requires e.Build?
  {
    if |e.text| > INLINE_MAX then g.Long? && e.k < |blocks| && g.ptr == blocks[e.k] else g.Short?
  }

  /** What is known of the strings after some events: each stands for its text if it is untouched. */
  ghost predicate Standing(m: Memory, blocks: seq<Block>, events: seq<Event>, strings: seq<Option<GermanString>>) {
    |strings| == |events| &&
    forall i :: 0 <= i < |events| && events[i].Build? ==>
      && strings[i].Some? && Formed(strings[i].value, blocks, events[i])
      && (Untouched(events, i) ==> Represents(m, strings[i].value, events[i].text))
  }

  /** The blocks got have the sizes asked for. */
  ghost predicate Sized(blocks: seq<Block>, sizes: seq<nat>) {
    |blocks| == |sizes| && forall k :: 0 <= k < |blocks| ==> BlockSize(blocks[k]) == sizes[k]
  }

  lemma SizesAppend(events: seq<Event>, e: Event)
    ensures Sizes(events + [e]) == Sizes(events) + if e.Alloc? && e.n > INLINE_MAX then [e.n - PREFIX] else []
    ensures Asked(events + [e]) == Asked(events) + if e.Alloc? then Spilled(e.n) else 0
  {
    assert (events + [e])[..|events|] == events;
  }

  /** A string stays what it is if its block, the k-th of those behind the first ones, is kept. */
  lemma StaysStanding(m: Memory, m': Memory, first: seq<Block>, blocks: seq<Block>, x: int, g: GermanString, e: Event)
    requires e.Build? && Kept(m, m', first + blocks, x) && Formed(g, blocks, e) && Represents(m, g, e.text)
    requires |e.text| > INLINE_MAX ==> |first| + e.k != x
    ensures Represents(m', g, e.text)
  {
    if |e.text| > INLINE_MAX {
      assert (first + blocks)[|first| + e.k] == g.ptr;
    }
  }

  lemma UntouchedBefore(events: seq<Event>, e: Event, i: nat)
    requires i < |events| && events[i].Build? && Untouched(events + [e], i)
    ensures Untouched(events, i) && (|events[i].text| > INLINE_MAX ==> !BuildsIn(e, events[i].k))
  {
    var all := events + [e];
    assert all[i] == events[i] && all[|events|] == e;
    forall j | i < j < |events|
      ensures all[j] == events[j]
    {
    }
  }

  /** One more event: what was standing and is untouched still stands, in the blocks there were or more. */
  lemma StandsAfter(m: Memory, m': Memory, first: seq<Block>, blocks: seq<Block>, blocks': seq<Block>,
                    events: seq<Event>, strings: seq<Option<GermanString>>, e: Event, s: Option<GermanString>)
    requires Standing(m, blocks, events, strings) && blocks <= blocks'
    requires Kept(m, m', first + blocks, if e.Build? && |e.text| > INLINE_MAX then |first| + e.k else -1)
    requires e.Build? ==> s.Some? && Formed(s.value, blocks', e) && Represents(m', s.value, e.text)
    ensures Standing(m', blocks', events + [e], strings + [s])
  {
    hide Represents, Kept, Untouched;
    var all, all' := events + [e], strings + [s];
    forall i | 0 <= i < |all| && all[i].Build?
      ensures all'[i].Some? && Formed(all'[i].value, blocks', all[i])
      ensures Untouched(all, i) ==> Represents(m', all'[i].value, all[i].text)
    {
      if i < |events| && Untouched(all, i) {
        UntouchedBefore(events, e, i);
        var x := if e.Build? && |e.text| > INLINE_MAX then |first| + e.k else -1;
        StaysStanding(m, m', first, blocks, x, strings[i].value, events[i]);
      }
    }
  }

  lemma KeptFirst(m: Memory, m': Memory, first: seq<Block>, blocks: seq<Block>, x: int)
    requires Kept(m, m', first + blocks, x) && (x < 0 || |first| <= x)
    ensures Kept(m, m', first, -1)
  {
    forall k | 0 <= k < |first|
      ensures Inside(m, first[k]) && Inside(m', first[k]) && Read(m', first[k]) == Read(m, first[k])
    {
      assert (first + blocks)[k] == first[k];
    }
  }

  /** Carries out one event. */
  method Carry(a: Allocator, e: Event, blocks: seq<Block>, ghost first: seq<Block>, ghost events: seq<Event>,
               ghost strings: seq<Option<GermanString>>)
    returns (s: Option<GermanString>, blocks': seq<Block>)
    requires a.Valid() && a.granted == first + blocks
    requires Sized(blocks, Sizes(events)) && Allowed(Sizes(events), e)
    requires Standing(a.Contents(), blocks, events, strings)
    modifies a
    ensures a.Valid() && a.granted == first + blocks' && Sized(blocks', Sizes(events + [e]))
    ensures Standing(a.Contents(), blocks', events + [e], strings + [s])
    ensures Kept(old(a.Contents()), a.Contents(), first, -1)
    ensures TotalGranted(a.granted) == TotalGranted(old(a.granted)) + if e.Alloc? then Spilled(e.n) else 0
  {
    hide Wf, Kept, Represents, TotalGranted, Standing, Inside, Read, Sizes, Asked, Placed;
    ghost var m := a.Contents();
    SizesAppend(events, e);
    match e
    case Alloc(n, unset) =>
      var b := a.Allocate(n, unset);
      s, blocks' := None, blocks;
      if n > INLINE_MAX {
        GrantedAppend(first + blocks, b);
        blocks' := blocks + [b];
      }
      KeptFirst(m, a.Contents(), first, blocks, -1);
      StandsAfter(m, a.Contents(), first, blocks, blocks', events, strings, e, s);
    case Build(text, k, stale) =>
      var ptr := if |text| > INLINE_MAX then blocks[k] else Null;
      var g := a.Construct(text, ptr, stale, |first| + k);
      s, blocks' := Some(g), blocks;
      HasForm(a.Contents(), g, text);
      KeptFirst(m, a.Contents(), first, blocks, if |text| > INLINE_MAX then |first| + k else -1);
      StandsAfter(m, a.Contents(), first, blocks, blocks', events, strings, e, s);
  }

  lemma HasForm(m: Memory, g: GermanString, text: Bytes)
    requires Represents(m, g, text)
    ensures g.Long? <==> |text| > INLINE_MAX
  {
  }

  /** Carries out a sequence of allocations and constructions, in any order. */
  method Replay(a: Allocator, events: seq<Event>) returns (strings: seq<Option<GermanString>>, blocks: seq<Block>)
    requires a.Valid() && AllAllowed(events)
    modifies a
    ensures a.Valid() && a.granted == old(a.granted) + blocks && Sized(blocks, Sizes(events))
    ensures Standing(a.Contents(), blocks, events, strings)
    ensures Kept(old(a.Contents()), a.Contents(), old(a.granted), -1)
    ensures TotalGranted(a.granted) == TotalGranted(old(a.granted)) + Asked(events)
  {
    hide Wf, Kept, Represents, TotalGranted, Allowed, Standing;
    strings, blocks := [], [];
    KeptSame(a.Contents(), a.granted);
    NothingStands(a.Contents());
    for i := 0 to |events|
      invariant a.Valid() && a.granted == old(a.granted) + blocks && Sized(blocks, Sizes(events[..i]))
      invariant Standing(a.Contents(), blocks, events[..i], strings)
      invariant Kept(old(a.Contents()), a.Contents(), old(a.granted), -1)
      invariant TotalGranted(a.granted) == TotalGranted(old(a.granted)) + Asked(events[..i])
    {
      assert events[..i + 1] == events[..i] + [events[i]];
      SizesAppend(events[..i], events[i]);
      assert Allowed(Sizes(events[..i]), events[i]);
      ghost var m := a.Contents();
      var s;
      s, blocks := Carry(a, events[i], blocks, old(a.granted), events[..i], strings);
      KeptTrans(old(a.Contents()), m, a.Contents(), old(a.granted));
      strings := strings + [s];
    }
    assert events[..|events|] == events;
  }

  lemma NothingStands(m: Memory)
    ensures Standing(m, [], [], [])
  {
  }
}
