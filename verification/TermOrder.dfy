/** Comparing terms symbol by symbol under a partial order of symbols. */
module TermOrder {
  import opened Arith

  datatype Comparison = GT | LT | EQ | UNKNOWN

  datatype Outcome = Stored | Duplicate | Invalid | Violated | Impossible

  // symbols are only ever compared for equality
  type Symbol = int

  type Term = seq<Symbol>

  type Relation = set<(Symbol, Symbol)>

  /** No two different symbols are below each other. */
  ghost predicate Antisymmetric(r: Relation) {
    forall a, b :: (a, b) in r && (b, a) in r ==> a == b
  }

  class PartialOrderRelation {
    var pairs: Relation

    constructor ()
      ensures pairs == {}
    {
      pairs := {};
    }

    /** Adds a pair, unless it or its reverse is there. */
    method PutOne(a: Symbol, b: Symbol) returns (outcome: Outcome)
      modifies this
      ensures outcome == if (a, b) in old(pairs) then Duplicate else if (b, a) in old(pairs) then Violated else Stored
      ensures pairs == old(pairs) + if outcome.Stored? then {(a, b)} else {}
    {
      if (a, b) in pairs {
        return Duplicate;
      }
      if (b, a) in pairs {
        return Violated;
      }
      pairs := pairs + {(a, b)};
      return Stored;
    }
  }

  /** Adding pairs keeps the relation antisymmetric. */
  lemma PutKeepsAntisymmetry(r: Relation, a: Symbol, b: Symbol)
    requires Antisymmetric(r) && (b, a) !in r
    ensures Antisymmetric(r + {(a, b)})
  {
  }

  // ---- positions of two terms -------------------------------------------------------------------

  predicate Below(r: Relation, a: Symbol, b: Symbol) {
    a != b && (a, b) in r
  }

  predicate Unrelated(r: Relation, a: Symbol, b: Symbol) {
    a != b && (a, b) !in r && (b, a) !in r
  }

  predicate SomeUnrelated(r: Relation, s: Term, t: Term) {
    exists i :: 0 <= i < Min(|s|, |t|) && Unrelated(r, s[i], t[i])
  }

  predicate SomeBelow(r: Relation, s: Term, t: Term) {
    exists i :: 0 <= i < Min(|s|, |t|) && Below(r, s[i], t[i])
  }

  predicate SomeAbove(r: Relation, s: Term, t: Term) {
    exists i :: 0 <= i < Min(|s|, |t|) && Below(r, t[i], s[i]) && !Below(r, s[i], t[i])
  }

  /** How two terms compare: the empty term is above all, and a term that is never below another
      on their common positions is above it. */
  function Compare(r: Relation, s: Term, t: Term): (c: Comparison) {
    if s == [] then GT
    else if SomeUnrelated(r, s, t) then UNKNOWN
    else if s == t then EQ
    else if !SomeBelow(r, s, t) then GT
    else if !SomeAbove(r, s, t) then LT
    else UNKNOWN
  }

  method CompareTerm(r: Relation, s: Term, t: Term) returns (c: Comparison)
    requires t != []
    ensures c == Compare(r, s, t)
  {
    if s == [] {
      return GT;
    }
    var n := Min(|s|, |t|);
    var isEq, isGt, isLt := |s| == |t|, true, true;
    for i := 0 to n
      invariant isEq <==> |s| == |t| && s[..i] == t[..i]
      invariant isGt <==> forall j :: 0 <= j < i ==> !Below(r, s[j], t[j])
      invariant isLt <==> forall j :: 0 <= j < i ==> !(Below(r, t[j], s[j]) && !Below(r, s[j], t[j]))
      invariant forall j :: 0 <= j < i ==> !Unrelated(r, s[j], t[j])
    {
      var a, b := s[i], t[i];
      assert s[..i + 1] == s[..i] + [a] && t[..i + 1] == t[..i] + [b];
      if a != b {
        isEq := false;
        if (a, b) in r {
          isGt := false;
        } else if (b, a) in r {
          isLt := false;
        } else {
          assert Unrelated(r, s[i], t[i]);
          return UNKNOWN;
        }
      }
    }
    assert |s| == |t| ==> s[..n] == s && t[..n] == t;
    if isEq {
      return EQ;
    }
    if isGt {
      return GT;
    }
    if isLt {
      return LT;
    }
    return UNKNOWN;
  }

  /** A term below another has the other above it. */
  lemma LessMeansGreater(r: Relation, s: Term, t: Term)
    requires Antisymmetric(r) && t != [] && Compare(r, s, t) == LT
    ensures Compare(r, t, s) == GT
  {
    forall i | 0 <= i < Min(|t|, |s|)
      ensures !Unrelated(r, t[i], s[i]) && !Below(r, t[i], s[i])
    {
      var a, b := s[i], t[i];
      assert !Unrelated(r, a, b);
      assert !SomeAbove(r, s, t);
      assert !(Below(r, b, a) && !Below(r, a, b));
    }
  }

  // ---- position by position ---------------------------------------------------------------------

  /** At every common position the symbols are the same, or that of t is below that of s and not above it. */
  predicate Over(r: Relation, s: Term, t: Term) {
    forall i :: 0 <= i < |s| && i < |t| ==> s[i] == t[i] || ((t[i], s[i]) in r && (s[i], t[i]) !in r)
  }

  /** At every common position the symbols are the same, or that of s is below that of t. */
  predicate Beneath(r: Relation, s: Term, t: Term) {
    forall i :: 0 <= i < |s| && i < |t| ==> s[i] == t[i] || (s[i], t[i]) in r
  }

  /** At some common position the symbols are different and have no order. */
  predicate Apart(r: Relation, s: Term, t: Term) {
    exists i :: 0 <= i < |s| && i < |t| && s[i] != t[i] && (s[i], t[i]) !in r && (t[i], s[i]) !in r
  }

  /** What each answer says of the positions: greater means over everywhere, less means beneath everywhere and not over,
      and unknown means unrelated somewhere or pointing both ways. */
  lemma ComparesByPositions(r: Relation, s: Term, t: Term)
    requires s != []
    ensures Compare(r, s, t) == EQ <==> s == t
    ensures Compare(r, s, t) == GT <==> s != t && Over(r, s, t)
    ensures Compare(r, s, t) == LT <==> Beneath(r, s, t) && !Over(r, s, t)
    ensures Compare(r, s, t) == UNKNOWN <==> Apart(r, s, t) || (!Over(r, s, t) && !Beneath(r, s, t))
    ensures Compare(r, [], t) == GT
  {
    ApartIsUnrelated(r, s, t);
    if !Apart(r, s, t) {
      OverIsNotBelow(r, s, t);
      BeneathIsNotAbove(r, s, t);
    }
  }

  lemma ApartIsUnrelated(r: Relation, s: Term, t: Term)
    ensures Apart(r, s, t) <==> SomeUnrelated(r, s, t)
    ensures Apart(r, s, t) ==> !Over(r, s, t) && !Beneath(r, s, t)
  {
    if i :| 0 <= i < |s| && i < |t| && s[i] != t[i] && (s[i], t[i]) !in r && (t[i], s[i]) !in r {
      assert Unrelated(r, s[i], t[i]);
    }
    if i :| 0 <= i < Min(|s|, |t|) && Unrelated(r, s[i], t[i]) {
      assert s[i] != t[i];
    }
  }

  lemma OverIsNotBelow(r: Relation, s: Term, t: Term)
    requires !Apart(r, s, t)
    ensures Over(r, s, t) <==> !SomeBelow(r, s, t)
  {
    if i :| 0 <= i < |s| && i < |t| && !(s[i] == t[i] || ((t[i], s[i]) in r && (s[i], t[i]) !in r)) {
      assert Below(r, s[i], t[i]);
    }
    if i :| 0 <= i < Min(|s|, |t|) && Below(r, s[i], t[i]) {
      assert s[i] != t[i] && (s[i], t[i]) in r;
    }
  }

  lemma BeneathIsNotAbove(r: Relation, s: Term, t: Term)
    requires !Apart(r, s, t)
    ensures Beneath(r, s, t) <==> !SomeAbove(r, s, t)
  {
    if i :| 0 <= i < |s| && i < |t| && !(s[i] == t[i] || (s[i], t[i]) in r) {
      assert Below(r, t[i], s[i]) && !Below(r, s[i], t[i]);
    }
    if i :| 0 <= i < Min(|s|, |t|) && Below(r, t[i], s[i]) && !Below(r, s[i], t[i]) {
      assert s[i] != t[i] && (s[i], t[i]) !in r;
    }
  }
}
