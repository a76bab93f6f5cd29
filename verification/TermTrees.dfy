/** The tree of a term dictionary as a value: lookups, the two ways of storing, and which terms a
    lookup still finds after any sequence of stores. */
module TermTrees {
  import opened TermOrder

  // ---- trees as parents and child lists ---------------------------------------------------------

  /** Parents and child lists describe the same tree, and no child is listed twice. */
  ghost predicate Linked(parent: seq<nat>, children: seq<seq<nat>>) {
    && |parent| == |children|
    && (forall v :: 0 < v < |parent| ==> parent[v] < |parent| && v in children[parent[v]])
    && (forall u, i :: 0 <= u < |children| && 0 <= i < |children[u]| ==> Child(parent, u, children[u][i]))
    && (forall u, i, j :: 0 <= u < |children| && 0 <= i < j < |children[u]| ==> children[u][i] != children[u][j])
  }

  predicate Child(parent: seq<nat>, u: nat, v: nat) {
    0 < v < |parent| && parent[v] == u
  }

  /** A new node below u. */
  lemma HangBelow(parent: seq<nat>, children: seq<seq<nat>>, u: nat)
    requires Linked(parent, children) && u < |parent|
    ensures Linked(parent + [u], children[u := children[u] + [|parent|]] + [[]])
  {
    var n := |parent|;
    var p, c := parent + [u], children[u := children[u] + [n]] + [[]];
    forall v | 0 < v < |p|
      ensures p[v] < |p| && v in c[p[v]]
    {
      if v == n {
        assert c[u][|children[u]|] == n;
      } else {
        assert v in children[parent[v]];
      }
    }
    forall w, i | 0 <= w < |c| && 0 <= i < |c[w]|
      ensures Child(p, w, c[w][i])
    {
      if w < n && i < |children[w]| {
        assert Child(parent, w, children[w][i]);
      }
    }
  }

  function Replaced(list: seq<nat>, i: nat, x: nat): (r: seq<nat>)
    requires i < |list|
  {
    list[i := x]
  }

  /** Where x is in a list. */
  function IndexOf(list: seq<nat>, x: nat): (i: nat)
    requires x in list
    ensures i < |list| && list[i] == x && forall j :: 0 <= j < i ==> list[j] != x
  {
    if list[0] == x then 0 else 1 + IndexOf(list[1..], x)
  }

  /** A new node in the place of v, the i-th child of u, with v below it. */
  lemma PutAbove(parent: seq<nat>, children: seq<seq<nat>>, u: nat, i: nat, v: nat)
    requires Linked(parent, children) && 0 < v < |parent| && u == parent[v] && u < |parent|
    requires i < |children[u]| && children[u][i] == v
    ensures Linked(parent[v := |parent|] + [u], children[u := Replaced(children[u], i, |parent|)] + [[v]])
  {
    var n := |parent|;
    var p, c := parent[v := n] + [u], children[u := Replaced(children[u], i, n)] + [[v]];
    forall x | 0 < x < |p|
      ensures p[x] < |p| && x in c[p[x]]
    {
      if x == n {
        assert c[u][i] == n;
      } else if x == v {
        assert c[n][0] == v;
      } else {
        var k :| 0 <= k < |children[parent[x]]| && children[parent[x]][k] == x;
        assert c[p[x]][k] == x;
      }
    }
    forall w, j | 0 <= w < |c| && 0 <= j < |c[w]|
      ensures Child(p, w, c[w][j])
    {
      if w < n && !(w == u && j == i) {
        assert Child(parent, w, children[w][j]);
      }
    }
  }

  // ---- the dictionary as a value ----------------------------------------------------------------

  /** Node v holds terms[v]; the root, node 0, holds the empty term; the rank grows from parent to child. */
  datatype Dict = Dict(order: Relation, terms: seq<Term>, parent: seq<nat>, children: seq<seq<nat>>, rank: seq<real>)

  ghost predicate Shape(d: Dict) {
    && |d.terms| == |d.parent| == |d.children| == |d.rank| > 0 && d.terms[0] == [] && d.parent[0] == 0
    && (forall v :: 0 < v < |d.terms| ==> d.terms[v] != [])
  }

  ghost predicate Ranked(d: Dict)
    requires Shape(d)
  {
    forall v :: 0 < v < |d.terms| ==> d.parent[v] < |d.terms| && d.rank[d.parent[v]] < d.rank[v]
  }

  ghost predicate Tree(d: Dict) {
    Shape(d) && Linked(d.parent, d.children) && Ranked(d)
  }

  /** On every edge the term above compares as greater. */
  ghost predicate Ordered(d: Dict)
    requires Shape(d)
  {
    forall v :: 0 < v < |d.terms| ==>
      d.parent[v] < |d.terms| && Compare(d.order, d.terms[d.parent[v]], d.terms[v]) == GT
  }

  ghost predicate Valid(d: Dict) {
    Antisymmetric(d.order) && Tree(d) && Ordered(d)
  }

  /** The dictionary with nothing stored. */
  ghost function Empty(order: Relation): (d: Dict)
    ensures Tree(d) && Ordered(d)
  {
    Dict(order, [[]], [0], [[]], [0.0])
  }

  /** How node v compares with a term. */
  ghost function At(d: Dict, v: nat, t: Term): (c: Comparison)
    requires v < |d.terms|
  {
    Compare(d.order, d.terms[v], t)
  }

  /** The nodes further from the root than v by rank. */
  ghost function Further(d: Dict, v: nat): (nodes: set<nat>)
    requires Shape(d) && v < |d.terms|
  {
    set u | 0 <= u < |d.terms| && d.rank[u] > d.rank[v]
  }

  lemma FurtherShrinks(d: Dict, u: nat, v: nat)
    requires Shape(d) && u < |d.terms| && v < |d.terms| && d.rank[u] < d.rank[v]
    ensures |Further(d, v)| < |Further(d, u)|
  {
    assert v in Further(d, u) && v !in Further(d, v) && Further(d, v) <= Further(d, u);
    SmallerSet(Further(d, v), Further(d, u));
  }

  ghost function Nearer(d: Dict, v: nat): (nodes: set<nat>)
    requires Shape(d) && v < |d.terms|
  {
    set u | 0 <= u < |d.terms| && d.rank[u] < d.rank[v]
  }

  lemma NearerShrinks(d: Dict, u: nat, v: nat)
    requires Shape(d) && u < |d.terms| && v < |d.terms| && d.rank[u] < d.rank[v]
    ensures |Nearer(d, u)| < |Nearer(d, v)|
  {
    assert u in Nearer(d, v) && u !in Nearer(d, u) && Nearer(d, u) <= Nearer(d, v);
    SmallerSet(Nearer(d, u), Nearer(d, v));
  }

  lemma {:induction false} SmallerSet(a: set<nat>, b: set<nat>)
    requires a < b
    ensures |a| < |b|
  {
    var x :| x in b && x !in a;
    SubsetSize(a, b - {x});
  }

  lemma {:induction false} SubsetSize(a: set<nat>, b: set<nat>)
    requires a <= b
    ensures |a| <= |b|
  {
    if a != {} {
      var x :| x in a;
      SubsetSize(a - {x}, b - {x});
    }
  }

  /** The nodes from v up to the root. */
  ghost function PathUp(d: Dict, v: nat): (path: seq<nat>)
    requires Tree(d) && v < |d.terms|
    ensures path != [] && path[0] == v && path[|path| - 1] == 0
    decreases |Nearer(d, v)|
  {
    if v == 0 then [0]
    else
      NearerShrinks(d, d.parent[v], v);
      [v] + PathUp(d, d.parent[v])
  }

  // ---- looking a term up ------------------------------------------------------------------------

  /** The first of the children from the i-th on that compares at all. */
  ghost function FirstRelated(d: Dict, v: nat, i: nat, t: Term): (k: nat)
    requires Tree(d) && v < |d.terms| && i <= |d.children[v]|
    ensures i <= k <= |d.children[v]|
    ensures forall j :: i <= j < k ==> At(d, d.children[v][j], t) == UNKNOWN
    ensures k < |d.children[v]| ==> At(d, d.children[v][k], t) != UNKNOWN
    decreases |d.children[v]| - i
  {
    if i == |d.children[v]| || At(d, d.children[v][i], t) != UNKNOWN then i
    else FirstRelated(d, v, i + 1, t)
  }

  /** Where looking t up from v ends: down the first children that compare, as long as the term
      is greater. */
  ghost function Find(d: Dict, v: nat, t: Term): (f: (Comparison, nat))
    requires Tree(d) && v < |d.terms|
    ensures f.1 < |d.terms| && At(d, f.1, t) == f.0
    ensures f.0 == UNKNOWN <==> At(d, v, t) == UNKNOWN
    ensures f.1 != v ==> f.1 != 0 && At(d, d.parent[f.1], t) == GT
    ensures f.0 == GT ==> FirstRelated(d, f.1, 0, t) == |d.children[f.1]|
    decreases |Further(d, v)|
  {
    if At(d, v, t) != GT then (At(d, v, t), v)
    else
      var k := FirstRelated(d, v, 0, t);
      if k == |d.children[v]| then (GT, v)
      else
        var child := d.children[v][k];
        FurtherShrinks(d, v, child);
        Find(d, child, t)
  }

  /** The root is above every term, so a lookup always ends somewhere. */
  lemma AlwaysFound(d: Dict, t: Term)
    requires Tree(d)
    ensures Find(d, 0, t).0 != UNKNOWN && (Find(d, 0, t).0 != GT ==> Find(d, 0, t).1 != 0)
  {
  }

  lemma CompareIsEqual(r: Relation, s: Term, t: Term)
    requires t != []
    ensures Compare(r, s, t) == EQ <==> s == t
  {
  }

  /** From the root down to v, every step goes to the first child that compares with t. */
  ghost predicate LeadsTo(d: Dict, v: nat, t: Term)
    requires Tree(d) && v < |d.terms|
    decreases |Nearer(d, v)|
  {
    v == 0 ||
    (var u := d.parent[v];
     NearerShrinks(d, u, v);
     LeadsTo(d, u, t) && At(d, u, t) == GT && Chosen(d, u, v, t))
  }

  /** Of the children of u, the first that compares with t is v. */
  ghost predicate Chosen(d: Dict, u: nat, v: nat, t: Term)
    requires Tree(d) && u < |d.terms|
  {
    var k := FirstRelated(d, u, 0, t);
    k < |d.children[u]| && d.children[u][k] == v
  }

  lemma {:induction false} FindFollows(d: Dict, v: nat, t: Term)
    requires Tree(d) && v < |d.terms| && LeadsTo(d, v, t)
    ensures Find(d, 0, t) == Find(d, v, t)
    decreases |Nearer(d, v)|
  {
    if v != 0 {
      NearerShrinks(d, d.parent[v], v);
      FindFollows(d, d.parent[v], t);
    }
  }

  lemma {:induction false} FindLeads(d: Dict, v: nat, t: Term)
    requires Tree(d) && v < |d.terms| && LeadsTo(d, v, t)
    ensures LeadsTo(d, Find(d, v, t).1, t)
    decreases |Further(d, v)|
  {
    var k := FirstRelated(d, v, 0, t);
    if At(d, v, t) == GT && k < |d.children[v]| {
      var child := d.children[v][k];
      assert Child(d.parent, v, child);
      FurtherShrinks(d, v, child);
      FindLeads(d, child, t);
    }
  }

  /** A stored term is found exactly when the first children that compare lead to it. */
  lemma FoundExactlyWhenLedTo(d: Dict, v: nat, t: Term)
    requires Tree(d) && v < |d.terms| && t != []
    ensures Find(d, 0, t) == (EQ, v) <==> d.terms[v] == t && LeadsTo(d, v, t)
  {
    FindLeads(d, 0, t);
    if d.terms[v] == t && LeadsTo(d, v, t) {
      FindFollows(d, v, t);
    }
  }

  // ---- every stored term is found ---------------------------------------------------------------

  predicate Distinct(terms: seq<Term>) {
    forall i, j :: 0 <= i < j < |terms| ==> terms[i] != terms[j]
  }

  /** A lookup of any stored term is led to it. */
  ghost predicate AllFound(d: Dict)
    requires Tree(d)
  {
    forall v: nat :: v < |d.terms| ==> LeadsTo(d, v, d.terms[v])
  }

  /** Then no term is stored twice. */
  lemma AllFoundIsDistinct(d: Dict)
    requires Tree(d) && AllFound(d)
    ensures Distinct(d.terms)
  {
    hide Linked, Compare, LeadsTo;
    forall i: nat, j: nat | i < j < |d.terms| && d.terms[i] == d.terms[j]
      ensures false
    {
      FoundExactlyWhenLedTo(d, i, d.terms[j]);
      FoundExactlyWhenLedTo(d, j, d.terms[j]);
    }
  }

  /** And a lookup ends at a term exactly when it is stored. */
  lemma AllFoundFinds(d: Dict, t: Term)
    requires Tree(d) && AllFound(d) && t != []
    ensures Find(d, 0, t).0 == EQ <==> t in d.terms
  {
    hide Linked, Compare, LeadsTo;
    var f := Find(d, 0, t);
    CompareIsEqual(d.order, d.terms[f.1], t);
    if t in d.terms {
      var v: nat :| v < |d.terms| && d.terms[v] == t;
      FoundExactlyWhenLedTo(d, v, t);
    }
  }
}
