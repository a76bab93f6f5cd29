/** A dictionary of terms kept as a tree: every term hangs below one that is above it. */
module TermDicts {
  import opened TermOrder
  import opened TermStores
  import opened TermTrees

  class TermDict {
    // node v holds terms[v]; the root, node 0, holds the empty term
    var terms: seq<Term>
    var parent: seq<nat>
    var children: seq<seq<nat>>
    const order: Relation
    // grows from parent to child
    ghost var rank: seq<real>

    /** The dictionary as a value. */
    ghost function Value(): (d: Dict)
      reads this
    {
      Dict(order, terms, parent, children, rank)
    }

    constructor (relation: Relation)
      requires Antisymmetric(relation)
      ensures Valid(Value()) && Value() == Empty(relation)
    {
      terms, parent, children, order := [[]], [0], [[]], relation;
      rank := [0.0];
    }

    method Lookup(v: nat, t: Term) returns (result: Comparison, node: nat)
      requires Tree(Value()) && v < |terms| && t != []
      ensures (result, node) == Find(Value(), v, t)
      decreases |Further(Value(), v)|
    {
      result := CompareTerm(order, terms[v], t);
      if result != GT {
        return result, v;
      }
      var i := 0;
      while i < |children[v]|
        invariant i <= |children[v]| && FirstRelated(Value(), v, 0, t) == FirstRelated(Value(), v, i, t)
      {
        var child := children[v][i];
        assert Child(parent, v, child);
        FurtherShrinks(Value(), v, child);
        result, node := Lookup(child, t);
        if result != UNKNOWN {
          return;
        }
        i := i + 1;
      }
      return GT, v;
    }

    /** Adds a node below another. */
    method HangNode(node: nat, t: Term)
      requires Valid(Value()) && node < |terms| && t != [] && Compare(order, terms[node], t) == GT
      modifies this
      ensures Valid(Value()) && Value() == Hung(old(Value()), node, t)
    {
      HungIsTree(Value(), node, t);
      var n := |terms|;
      terms := terms + [t];
      parent := parent + [node];
      children := children[node := children[node] + [n]] + [[]];
      rank := rank + [rank[node] + 1.0];
    }

    /** Adds a node in the place of another, which becomes its child. */
    method PutNodeAbove(node: nat, t: Term)
      requires Valid(Value()) && 0 < node < |terms| && t != []
      requires Compare(order, terms[node], t) == LT && Compare(order, terms[parent[node]], t) == GT
      modifies this
      ensures Valid(Value()) && Value() == PutOver(old(Value()), node, t)
    {
      LessMeansGreater(order, terms[node], t);
      PutOverIsTree(Value(), node, t);
      var n, p := |terms|, parent[node];
      var i := 0;
      while children[p][i] != node
        invariant i < |children[p]| && forall j :: 0 <= j < i ==> children[p][j] != node
        decreases |children[p]| - i
      {
        i := i + 1;
      }
      assert i == Position(Value(), node);
      terms := terms + [t];
      parent := parent[node := n] + [p];
      children := children[p := Replaced(children[p], i, n)] + [[node]];
      rank := rank + [(rank[p] + rank[node]) / 2.0];
    }

    /** Stores a term, unless it is empty or a lookup ends at it. */
    method PutOne(t: Term) returns (outcome: Outcome)
      requires Valid(Value())
      modifies this
      ensures Valid(Value()) && Value() == Put(old(Value()), t)
      ensures outcome == if t == [] then Invalid else if Find(old(Value()), 0, t).0 == EQ then Duplicate else Stored
    {
      hide Compare, Find, Linked;
      if t == [] {
        return Invalid;
      }
      AlwaysFound(Value(), t);
      var result, node := Lookup(0, t);
      if result == EQ {
        return Duplicate;
      }
      if result == LT {
        PutNodeAbove(node, t);
      } else {
        HangNode(node, t);
      }
      return Stored;
    }

    /** The closest stored term that is the given one or above it, or the empty term. */
    method BestMatch(t: Term) returns (outcome: Outcome, best: Term, ghost node: nat)
      requires Valid(Value())
      ensures outcome == if t == [] then Invalid else Stored
      ensures t != [] ==> node < |terms| && best == terms[node] && Closest(Value(), node, t)
      ensures t != [] && best == t <==> t != [] && Find(Value(), 0, t).0 == EQ
      ensures t != [] ==> best == [] || best == t || Over(order, best, t)
    {
      hide Compare, Find, Linked;
      node := 0;
      if t == [] {
        return Invalid, [], 0;
      }
      AlwaysFound(Value(), t);
      FindLeads(Value(), 0, t);
      var result, found := Lookup(0, t);
      CompareIsEqual(order, terms[found], t);
      outcome := Stored;
      OverOrEqual(order, terms[found], t);
      OverOrEqual(order, terms[parent[found]], t);
      if result == LT {
        CompareIsEqual(order, terms[parent[found]], t);
        best, node := terms[parent[found]], parent[found];
      } else {
        best, node := terms[found], found;
      }
    }
  }

  lemma OverOrEqual(r: Relation, s: Term, t: Term)
    requires t != []
    ensures Compare(r, s, t) == GT ==> s == [] || Over(r, s, t)
  {
    if s != [] {
      ComparesByPositions(r, s, t);
    }
  }

  /** A lookup is led to node v, whose term is t or above it, and no child of v on the way further is: they are
      all unrelated to t, or the first that is related is below it. */
  ghost predicate Closest(d: Dict, v: nat, t: Term)
    requires Tree(d) && v < |d.terms|
  {
    var k := FirstRelated(d, v, 0, t);
    && LeadsTo(d, v, t)
    && (At(d, v, t) == EQ || At(d, v, t) == GT)
    && (At(d, v, t) == EQ || k == |d.children[v]| || At(d, d.children[v][k], t) == LT)
  }
}
