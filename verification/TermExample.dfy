/** A sequence of stores after which a term is in the dictionary twice. */
module TermExample {
  import opened TermOrder
  import opened TermStores
  import opened TermTrees

  const BOTH_BELOW: Relation := {(1, 3), (2, 3)}

  lemma CompareSymbols(r: Relation, a: Symbol, b: Symbol)
    ensures Compare(r, [a], [b]) ==
            if a == b then EQ else if (a, b) in r then LT else if (b, a) in r then GT else UNKNOWN
  {
    assert Unrelated(r, [a][0], [b][0]) <==> SomeUnrelated(r, [a], [b]);
    assert Below(r, [a][0], [b][0]) <==> SomeBelow(r, [a], [b]);
    assert (Below(r, [b][0], [a][0]) && !Below(r, [a][0], [b][0])) <==> SomeAbove(r, [a], [b]);
  }

  /** The terms, parents and children of a tree over BOTH_BELOW. */
  ghost predicate Looks(d: Dict, terms: seq<Term>, parent: seq<nat>, children: seq<seq<nat>>) {
    Tree(d) && d.order == BOTH_BELOW && d.terms == terms && d.parent == parent && d.children == children
  }

  lemma PutFirst(d: Dict)
    requires Looks(d, [[]], [0], [[]])
    ensures Looks(Put(d, [1]), [[], [1]], [0, 0], [[1], []])
  {
    var none: seq<nat> := [];
    assert none + [1] == [1];
    assert Find(d, 0, [1]) == (GT, 0);
  }

  lemma PutSecond(d: Dict)
    requires Looks(d, [[], [1]], [0, 0], [[1], []])
    ensures Looks(Put(d, [2]), [[], [1], [2]], [0, 0, 0], [[1, 2], [], []])
  {
    var one: seq<nat> := [1];
    assert one + [2] == [1, 2];
    CompareSymbols(d.order, 1, 2);
    assert FirstRelated(d, 0, 0, [2]) == 1;
    assert Find(d, 0, [2]) == (GT, 0);
  }

  lemma PutThird(d: Dict)
    requires Looks(d, [[], [1], [2]], [0, 0, 0], [[1, 2], [], []])
    ensures Looks(Put(d, [3]), [[], [1], [2], [3]], [0, 3, 0, 0], [[3, 2], [], [], [1]])
  {
    var both: seq<nat> := [1, 2];
    assert IndexOf(both, 1) == 0 && Replaced(both, 0, 3) == [3, 2];
    CompareSymbols(d.order, 1, 3);
    assert FirstRelated(d, 0, 0, [3]) == 0;
    assert Find(d, 1, [3]) == (LT, 1);
  }

  lemma PutAgain(d: Dict)
    requires Looks(d, [[], [1], [2], [3]], [0, 3, 0, 0], [[3, 2], [], [], [1]])
    ensures Put(d, [2]).terms == [[], [1], [2], [3], [2]]
  {
    CompareSymbols(d.order, 3, 2);
    CompareSymbols(d.order, 1, 2);
    assert FirstRelated(d, 0, 0, [2]) == 0;
    assert FirstRelated(d, 3, 0, [2]) == 1;
    assert Find(d, 3, [2]) == (GT, 3);
  }

  /** With 1 and 2 both below 3, storing 1, 2, 3 and then 2 again stores 2 twice: 3 has taken the
      place of 1, before 2, so that the second lookup of 2 goes down to 3. */
  lemma StoreTwice()
    ensures Antisymmetric(BOTH_BELOW)
    ensures PutAll(Empty(BOTH_BELOW), [[1], [2], [3], [2]]).terms == [[], [1], [2], [3], [2]]
  {
    hide Put, Tree;
    var d := Empty(BOTH_BELOW);
    var one, two, three, all: seq<Term> := [[1]], [[1], [2]], [[1], [2], [3]], [[1], [2], [3], [2]];
    assert one[..0] == [] && two[..1] == one && three[..2] == two && all[..3] == three;
    PutFirst(d);
    PutSecond(PutAll(d, one));
    PutThird(PutAll(d, two));
    PutAgain(PutAll(d, three));
  }
}
