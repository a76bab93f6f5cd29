/** Storing terms: what a store does to the tree, exactly when every stored term is still found
    after it, and what any sequence of stores keeps. */
module TermStores {
  import opened TermOrder
  import opened TermTrees

  // ---- the two ways of storing ------------------------------------------------------------------

  /** A term hung below node u, after its other children. */
  ghost function Hung(d: Dict, u: nat, t: Term): (d': Dict)
    requires Tree(d) && u < |d.terms|
  {
    Dict(d.order, d.terms + [t], d.parent + [u],
         d.children[u := d.children[u] + [|d.terms|]] + [[]], d.rank + [d.rank[u] + 1.0])
  }

  ghost function Position(d: Dict, v: nat): (i: nat)
    requires Tree(d) && 0 < v < |d.terms|
    ensures i < |d.children[d.parent[v]]| && d.children[d.parent[v]][i] == v
  {
    IndexOf(d.children[d.parent[v]], v)
  }

  /** A term in the place of node v, which hangs below it. */
  ghost function PutOver(d: Dict, v: nat, t: Term): (d': Dict)
    requires Tree(d) && 0 < v < |d.terms|
  {
    var u := d.parent[v];
    Dict(d.order, d.terms + [t], d.parent[v := |d.terms|] + [u],
         d.children[u := Replaced(d.children[u], Position(d, v), |d.terms|)] + [[v]],
         d.rank + [(d.rank[u] + d.rank[v]) / 2.0])
  }

  lemma HungIsTree(d: Dict, u: nat, t: Term)
    requires Tree(d) && u < |d.terms| && t != []
    ensures Tree(Hung(d, u, t))
  {
    HangBelow(d.parent, d.children, u);
  }

  lemma PutOverIsTree(d: Dict, v: nat, t: Term)
    requires Tree(d) && 0 < v < |d.terms| && t != []
    ensures Tree(PutOver(d, v, t))
  {
    PutAbove(d.parent, d.children, d.parent[v], Position(d, v), v);
  }

  /** The dictionary after a term is stored, which it is unless it is empty or a lookup ends at it. */
  ghost function Put(d: Dict, t: Term): (d': Dict)
    requires Tree(d)
    ensures Tree(d') && d'.order == d.order
    ensures forall s :: s in d'.terms <==> s in d.terms || (s == t && t != [])
  {
    AlwaysFound(d, t);
    var f := Find(d, 0, t);
    if t == [] then d
    else
      CompareIsEqual(d.order, d.terms[f.1], t);
      HungIsTree(d, f.1, t);
      if f.0 == EQ then d
      else if f.0 == LT then PutOverIsTree(d, f.1, t); PutOver(d, f.1, t)
      else Hung(d, f.1, t)
  }

  /** The dictionary after a sequence of stores. */
  ghost function PutAll(d: Dict, ts: seq<Term>): (d': Dict)
    requires Tree(d)
    ensures Tree(d') && d'.order == d.order
    ensures forall s :: s in d'.terms <==> s in d.terms || (s in ts && s != [])
    decreases |ts|
  {
    if ts == [] then d
    else
      var last := |ts| - 1;
      assert ts == ts[..last] + [ts[last]];
      Put(PutAll(d, ts[..last]), ts[last])
  }

  // ---- a term hung below another ----------------------------------------------------------------

  lemma FirstIs(d: Dict, v: nat, k: nat, t: Term)
    requires Tree(d) && v < |d.terms| && k <= |d.children[v]|
    requires forall j :: 0 <= j < k ==> At(d, d.children[v][j], t) == UNKNOWN
    requires k < |d.children[v]| ==> At(d, d.children[v][k], t) != UNKNOWN
    ensures FirstRelated(d, v, 0, t) == k
  {
    var f := FirstRelated(d, v, 0, t);
    if f < k {
      assert false;
    }
  }

  /** Hanging a term below u leads no lookup away from where it was led. */
  lemma {:induction false} HungLeads(d: Dict, u: nat, t: Term, d': Dict, w: nat, s: Term)
    requires Tree(d) && u < |d.terms| && w < |d.terms| && d' == Hung(d, u, t) && Tree(d')
    requires LeadsTo(d, w, s)
    ensures LeadsTo(d', w, s)
    decreases |Nearer(d, w)|
  {
    hide Compare, Linked;
    if w != 0 {
      var p := d.parent[w];
      NearerShrinks(d, p, w);
      HungLeads(d, u, t, d', p, s);
      HungChosen(d, u, t, d', p, w, s);
    }
  }

  lemma HungChosen(d: Dict, u: nat, t: Term, d': Dict, p: nat, w: nat, s: Term)
    requires Tree(d) && u < |d.terms| && p < |d.terms| && d' == Hung(d, u, t) && Tree(d')
    requires Chosen(d, p, w, s)
    ensures Chosen(d', p, w, s)
  {
    hide Compare, Ranked;
    var k := FirstRelated(d, p, 0, s);
    forall j | 0 <= j <= k
      ensures d'.children[p][j] == d.children[p][j] && At(d', d'.children[p][j], s) == At(d, d.children[p][j], s)
    {
      assert Child(d.parent, p, d.children[p][j]);
    }
    FirstIs(d', p, k, s);
  }

  /** A lookup is led to a term hung where it ended. */
  lemma HungIsLed(d: Dict, t: Term, d': Dict)
    requires Tree(d) && t != [] && Find(d, 0, t).0 == GT && d' == Hung(d, Find(d, 0, t).1, t) && Tree(d')
    ensures LeadsTo(d', |d.terms|, t)
  {
    hide Compare, Ranked, Find;
    var u, n := Find(d, 0, t).1, |d.terms|;
    FindLeads(d, 0, t);
    HungLeads(d, u, t, d', u, t);
    var k := |d.children[u]|;
    forall j | 0 <= j < k
      ensures At(d', d'.children[u][j], t) == UNKNOWN
    {
      assert Child(d.parent, u, d.children[u][j]);
      assert d'.children[u][j] == d.children[u][j];
    }
    CompareIsEqual(d.order, t, t);
    assert d'.children[u][k] == n && At(d', n, t) == EQ;
    FirstIs(d', u, k, t);
  }

  lemma HangingKeepsFound(d: Dict, t: Term)
    requires Tree(d) && AllFound(d) && t != [] && Find(d, 0, t).0 == GT
    ensures Tree(Hung(d, Find(d, 0, t).1, t)) && AllFound(Hung(d, Find(d, 0, t).1, t))
  {
    hide Compare, Linked, Ranked, Find, LeadsTo;
    var u := Find(d, 0, t).1;
    var d' := Hung(d, u, t);
    HungIsTree(d, u, t);
    forall v: nat | v < |d'.terms|
      ensures LeadsTo(d', v, d'.terms[v])
    {
      if v < |d.terms| {
        HungLeads(d, u, t, d', v, d.terms[v]);
      } else {
        HungIsLed(d, t, d');
      }
    }
  }

  // ---- a term put in the place of another -------------------------------------------------------

  /** Node w is v or below it. */
  ghost predicate Within(d: Dict, w: nat, v: nat)
    requires Tree(d) && w < |d.terms|
    decreases |Nearer(d, w)|
  {
    w == v || (w != 0 && (NearerShrinks(d, d.parent[w], w); Within(d, d.parent[w], v)))
  }

  /** Node w is within a sibling listed behind v. */
  ghost predicate Behind(d: Dict, w: nat, v: nat)
    requires Tree(d) && w < |d.terms| && 0 < v < |d.terms|
  {
    var siblings := d.children[d.parent[v]];
    exists j :: Position(d, v) < j < |siblings| && Within(d, w, siblings[j])
  }

  lemma {:induction false} WithinIsFurther(d: Dict, w: nat, v: nat)
    requires Tree(d) && w < |d.terms| && v < |d.terms| && Within(d, w, v)
    ensures w == v || d.rank[v] < d.rank[w]
    decreases |Nearer(d, w)|
  {
    if w != v {
      NearerShrinks(d, d.parent[w], w);
      WithinIsFurther(d, d.parent[w], v);
    }
  }

  /** What a term put over v must compare to for a lookup of s to reach w still. */
  ghost predicate Passes(d: Dict, v: nat, t: Term, w: nat, s: Term)
    requires Tree(d) && w < |d.terms| && 0 < v < |d.terms|
  {
    && (Within(d, w, v) ==> Compare(d.order, t, s) == GT)
    && (Behind(d, w, v) ==> Compare(d.order, t, s) == UNKNOWN)
  }

  /** The parent of v is neither within v nor after it, and v is not after itself. */
  lemma ParentIsApart(d: Dict, v: nat)
    requires Tree(d) && 0 < v < |d.terms|
    ensures !Within(d, d.parent[v], v) && !Behind(d, d.parent[v], v) && Within(d, v, v) && !Behind(d, v, v)
  {
    var u := d.parent[v];
    if Within(d, u, v) {
      WithinIsFurther(d, u, v);
    }
    forall j | Position(d, v) < j < |d.children[u]|
      ensures !Within(d, u, d.children[u][j]) && !Within(d, v, d.children[u][j])
    {
      var x := d.children[u][j];
      assert Child(d.parent, u, x);
      if Within(d, u, x) {
        WithinIsFurther(d, u, x);
      }
    }
  }

  /** A child of v's parent is within v exactly when it is v, and after v exactly when it is listed after v. */
  lemma SiblingIsApart(d: Dict, v: nat, j: nat)
    requires Tree(d) && 0 < v < |d.terms| && j < |d.children[d.parent[v]]| && j != Position(d, v)
    ensures !Within(d, d.children[d.parent[v]][j], v)
    ensures Behind(d, d.children[d.parent[v]][j], v) <==> Position(d, v) < j
  {
    var u := d.parent[v];
    var siblings := d.children[u];
    var w := siblings[j];
    assert Child(d.parent, u, w);
    ParentIsApart(d, v);
    assert w != v;
    forall k | Position(d, v) < k < |siblings|
      ensures Within(d, w, siblings[k]) <==> k == j
    {
      assert !Within(d, u, siblings[k]);
    }
  }

  /** Elsewhere a node is within or after v exactly when its parent is. */
  lemma ElsewhereLikeParent(d: Dict, v: nat, w: nat)
    requires Tree(d) && 0 < v < |d.terms| && 0 < w < |d.terms| && d.parent[w] != d.parent[v]
    ensures Within(d, w, v) <==> Within(d, d.parent[w], v)
    ensures Behind(d, w, v) <==> Behind(d, d.parent[w], v)
  {
    var siblings := d.children[d.parent[v]];
    forall k | Position(d, v) < k < |siblings|
      ensures Within(d, w, siblings[k]) <==> Within(d, d.parent[w], siblings[k])
    {
      assert Child(d.parent, d.parent[v], siblings[k]);
    }
  }

  // the children of the parent of v, with the new node in the place of v

  lemma PutOverKeepsOthers(d: Dict, v: nat, t: Term, d': Dict, p: nat, s: Term)
    requires Tree(d) && 0 < v < |d.terms| && d' == PutOver(d, v, t) && Tree(d')
    requires p < |d.terms| && p != d.parent[v]
    ensures d'.children[p] == d.children[p] && FirstRelated(d', p, 0, s) == FirstRelated(d, p, 0, s)
  {
    hide Compare, Ranked;
    forall j | 0 <= j < |d.children[p]|
      ensures At(d', d'.children[p][j], s) == At(d, d.children[p][j], s)
    {
      assert Child(d.parent, p, d.children[p][j]);
    }
    FirstIs(d', p, FirstRelated(d, p, 0, s), s);
  }

  /** A lookup that went to the j-th child goes there still, unless the new node stands before it and compares;
      where it went to v it goes to the new node if that compares. */
  lemma PutOverChoice(d: Dict, v: nat, t: Term, d': Dict, j: nat, s: Term)
    requires Tree(d) && 0 < v < |d.terms| && d' == PutOver(d, v, t) && Tree(d')
    requires j < |d.children[d.parent[v]]| && j == FirstRelated(d, d.parent[v], 0, s)
    ensures j == Position(d, v) ==>
              (Chosen(d', d.parent[v], |d.terms|, s) <==> Compare(d.order, t, s) != UNKNOWN)
    ensures j != Position(d, v) ==>
              (Chosen(d', d.parent[v], d.children[d.parent[v]][j], s) <==>
               j < Position(d, v) || Compare(d.order, t, s) == UNKNOWN)
  {
    hide Compare, Tree, PutOver, Position;
    PutOverLists(d, v, t, d');
    var u, i, n := d.parent[v], Position(d, v), |d.terms|;
    forall k | 0 <= k < |d.children[u]|
      ensures d.children[u][k] < n && d'.children[u][k] < |d'.terms|
      ensures d'.children[u][k] == if k == i then n else d.children[u][k]
      ensures At(d', d'.children[u][k], s) == if k == i then Compare(d.order, t, s) else At(d, d.children[u][k], s)
    {
      PutOverChild(d, v, t, d', k, s);
    }
    if i <= j && Compare(d.order, t, s) != UNKNOWN {
      FirstIs(d', u, i, s);
    } else if i != j {
      FirstIs(d', u, j, s);
    }
  }

  lemma PutOverLists(d: Dict, v: nat, t: Term, d': Dict)
    requires Tree(d) && 0 < v < |d.terms| && d' == PutOver(d, v, t) && Tree(d')
    ensures |d.parent| == |d.terms| == |d.children| < |d'.terms| == |d'.children| && d.parent[v] < |d.terms|
    ensures |d'.children[d.parent[v]]| == |d.children[d.parent[v]]| && Position(d, v) < |d.children[d.parent[v]]|
  {
    hide Compare;
  }

  lemma PutOverChild(d: Dict, v: nat, t: Term, d': Dict, k: nat, s: Term)
    requires Tree(d) && 0 < v < |d.terms| && d' == PutOver(d, v, t) && Tree(d') && k < |d.children[d.parent[v]]|
    ensures var u, i, n := d.parent[v], Position(d, v), |d.terms|;
            && u < |d'.children| && k < |d'.children[u]| && d.children[u][k] < n && d'.children[u][k] < |d'.terms|
            && d'.children[u][k] == (if k == i then n else d.children[u][k])
            && At(d', d'.children[u][k], s) == if k == i then Compare(d.order, t, s) else At(d, d.children[u][k], s)
  {
    hide Compare, Ranked;
    assert Child(d.parent, d.parent[v], d.children[d.parent[v]][k]);
  }

  lemma PutOverIsChosen(d: Dict, v: nat, t: Term, d': Dict, s: Term)
    requires Tree(d) && 0 < v < |d.terms| && d' == PutOver(d, v, t) && Tree(d')
    requires At(d, v, s) != UNKNOWN
    ensures Chosen(d', |d.terms|, v, s)
  {
    hide Compare, Ranked, Linked;
    assert d'.children[|d.terms|] == [v];
    FirstIs(d', |d.terms|, 0, s);
  }

  // where lookups are led

  lemma RootIsApart(d: Dict, v: nat)
    requires Tree(d) && 0 < v < |d.terms|
    ensures !Within(d, 0, v) && !Behind(d, 0, v)
  {
    var siblings := d.children[d.parent[v]];
    forall k | Position(d, v) < k < |siblings|
      ensures !Within(d, 0, siblings[k])
    {
      assert Child(d.parent, d.parent[v], siblings[k]);
    }
  }

  /** The new node is reached as v was, if it compares, and v from it, if it is greater. */
  lemma PutOverLeadsOver(d: Dict, v: nat, t: Term, d': Dict, s: Term)
    requires Tree(d) && 0 < v < |d.terms| && d' == PutOver(d, v, t) && Tree(d')
    requires At(d, v, s) != UNKNOWN && At(d, d.parent[v], s) == GT && LeadsTo(d', d.parent[v], s)
    requires Chosen(d', d.parent[v], |d.terms|, s) <==> Compare(d.order, t, s) != UNKNOWN
    ensures LeadsTo(d', |d.terms|, s) <==> Compare(d.order, t, s) != UNKNOWN
    ensures LeadsTo(d', v, s) <==> Compare(d.order, t, s) == GT
  {
    hide Compare, Linked;
    var n, u := |d.terms|, d.parent[v];
    assert u < n && d'.parent[n] == u && d'.parent[v] == n;
    assert At(d', n, s) == Compare(d.order, t, s) && At(d', u, s) == GT;
    PutOverIsChosen(d, v, t, d', s);
  }

  lemma {:induction false} PutOverLeads(d: Dict, v: nat, t: Term, d': Dict, w: nat, s: Term)
    requires Tree(d) && 0 < v < |d.terms| && d' == PutOver(d, v, t) && Tree(d')
    requires w < |d.terms| && LeadsTo(d, w, s)
    ensures LeadsTo(d', w, s) <==> Passes(d, v, t, w, s)
    decreases |Nearer(d, w)|
  {
    hide Compare, Linked, Find;
    if w == 0 {
      RootIsApart(d, v);
    } else {
      var p := d.parent[w];
      NearerShrinks(d, p, w);
      PutOverLeads(d, v, t, d', p, s);
      if p != d.parent[v] {
        ElsewhereLikeParent(d, v, w);
        PutOverKeepsOthers(d, v, t, d', p, s);
      } else {
        ParentIsApart(d, v);
        PutOverChoice(d, v, t, d', FirstRelated(d, p, 0, s), s);
        if w == v {
          PutOverLeadsOver(d, v, t, d', s);
        } else {
          SiblingIsApart(d, v, FirstRelated(d, p, 0, s));
        }
      }
    }
  }

  /** Putting t over v keeps every stored term found exactly when t is greater than every term within v and
      unrelated to every term within a later sibling. */
  ghost predicate Fits(d: Dict, v: nat, t: Term)
    requires Tree(d) && 0 < v < |d.terms|
  {
    forall w: nat :: w < |d.terms| ==> Passes(d, v, t, w, d.terms[w])
  }

  lemma PutOverIsLed(d: Dict, t: Term, d': Dict)
    requires Tree(d) && t != [] && Find(d, 0, t).0 == LT && Find(d, 0, t).1 != 0
    requires d' == PutOver(d, Find(d, 0, t).1, t) && Tree(d')
    ensures LeadsTo(d', |d.terms|, t)
  {
    hide Compare, Linked, Find;
    var v := Find(d, 0, t).1;
    var u := d.parent[v];
    FindLeads(d, 0, t);
    ParentIsApart(d, v);
    PutOverLeads(d, v, t, d', u, t);
    PutOverChoice(d, v, t, d', FirstRelated(d, u, 0, t), t);
    CompareIsEqual(d.order, t, t);
    PutOverLeadsOver(d, v, t, d', t);
  }

  lemma PuttingOverKeepsFound(d: Dict, t: Term)
    requires Tree(d) && AllFound(d) && t != [] && Find(d, 0, t).0 == LT && Find(d, 0, t).1 != 0
    ensures Tree(PutOver(d, Find(d, 0, t).1, t))
    ensures AllFound(PutOver(d, Find(d, 0, t).1, t)) <==> Fits(d, Find(d, 0, t).1, t)
  {
    hide Compare, Linked, Ranked, Find, LeadsTo, Passes;
    var v := Find(d, 0, t).1;
    var d' := PutOver(d, v, t);
    PutOverIsTree(d, v, t);
    PutOverIsLed(d, t, d');
    forall w: nat | w < |d.terms|
      ensures d'.terms[w] == d.terms[w]
      ensures LeadsTo(d', w, d'.terms[w]) <==> Passes(d, v, t, w, d.terms[w])
    {
      PutOverLeads(d, v, t, d', w, d.terms[w]);
    }
    assert d'.terms[|d.terms|] == t;
  }

  // ---- every stored term stays found ------------------------------------------------------------

  /** The store either hangs the term or finds it, or puts it where it fits. */
  ghost predicate GoodStore(d: Dict, t: Term)
    requires Tree(d)
  {
    AlwaysFound(d, t);
    t == [] || Find(d, 0, t).0 != LT || Fits(d, Find(d, 0, t).1, t)
  }

  /** One store keeps every stored term found exactly when it does not put the term where it does not fit. */
  lemma PutKeepsFound(d: Dict, t: Term)
    requires Tree(d) && AllFound(d)
    ensures AllFound(Put(d, t)) <==> GoodStore(d, t)
  {
    hide Compare, Linked, Ranked, Find, LeadsTo, Fits, AllFound;
    AlwaysFound(d, t);
    if t != [] {
      if Find(d, 0, t).0 == LT {
        PuttingOverKeepsFound(d, t);
      } else if Find(d, 0, t).0 == GT {
        HangingKeepsFound(d, t);
      }
    }
  }

  /** The dictionary after the first k stores of a sequence. */
  ghost function After(d: Dict, ts: seq<Term>, k: nat): (d': Dict)
    requires Tree(d) && k <= |ts|
    ensures Tree(d')
  {
    PutAll(d, ts[..k])
  }

  lemma AfterOneMore(d: Dict, ts: seq<Term>, k: nat)
    requires Tree(d) && k < |ts|
    ensures After(d, ts, k + 1) == Put(After(d, ts, k), ts[k])
  {
    assert ts[..k + 1][..k] == ts[..k];
  }

  /** Over a sequence of stores, every stored term is found all along exactly when every store is a good one. */
  lemma PutAllKeepsFound(d: Dict, ts: seq<Term>)
    requires Tree(d) && AllFound(d)
    ensures (forall k: nat :: k <= |ts| ==> AllFound(After(d, ts, k))) <==>
            (forall k: nat :: k < |ts| ==> GoodStore(After(d, ts, k), ts[k]))
  {
    hide Compare, Tree, Find, GoodStore, AllFound, Put;
    if k: nat :| k < |ts| && !GoodStore(After(d, ts, k), ts[k]) {
      if AllFound(After(d, ts, k)) {
        AfterOneMore(d, ts, k);
        PutKeepsFound(After(d, ts, k), ts[k]);
        assert !AllFound(After(d, ts, k + 1));
      }
    } else {
      assert After(d, ts, 0) == d;
      for k := 0 to |ts|
        invariant forall i: nat :: i <= k ==> AllFound(After(d, ts, i))
      {
        AfterOneMore(d, ts, k);
        PutKeepsFound(After(d, ts, k), ts[k]);
      }
    }
  }

  /** No term of the sequence has an earlier one below it, nor a stored one. */
  ghost predicate NoneBelow(d: Dict, ts: seq<Term>) {
    && (forall s, j :: s in d.terms && 0 <= j < |ts| ==> Compare(d.order, s, ts[j]) != LT)
    && (forall i, j :: 0 <= i < j < |ts| ==> Compare(d.order, ts[i], ts[j]) != LT)
  }

  /** Then every stored term is found after the stores, no term is stored twice, and what is found is what was
      put. */
  lemma {:induction false} StoresInOrderAreFound(d: Dict, ts: seq<Term>)
    requires Tree(d) && AllFound(d) && NoneBelow(d, ts)
    ensures AllFound(PutAll(d, ts)) && Distinct(PutAll(d, ts).terms)
    ensures forall t :: t != [] ==> (Find(PutAll(d, ts), 0, t).0 == EQ <==> t in d.terms || t in ts)
    decreases |ts|
  {
    hide Compare, Linked, Ranked, Find, LeadsTo, AllFound, Distinct;
    if ts != [] {
      var last := |ts| - 1;
      var before, t := PutAll(d, ts[..last]), ts[last];
      StoresInOrderAreFound(d, ts[..last]);
      var f := Find(before, 0, t);
      var s := before.terms[f.1];
      if s !in d.terms {
        var i :| 0 <= i < last && ts[i] == s;
      }
      assert Compare(d.order, s, t) != LT;
      PutKeepsFound(before, t);
    }
    AllFoundIsDistinct(PutAll(d, ts));
    forall t: Term | t != []
      ensures Find(PutAll(d, ts), 0, t).0 == EQ <==> t in PutAll(d, ts).terms
    {
      AllFoundFinds(PutAll(d, ts), t);
    }
  }

  /** A dictionary without repetitions finds all its terms exactly when storing none of them again repeats it. */
  lemma FoundAreNotRepeated(d: Dict)
    requires Tree(d) && Distinct(d.terms)
    ensures AllFound(d) <==> forall t :: t in d.terms ==> Distinct(Put(d, t).terms)
  {
    hide Compare, Linked, Ranked, Find, LeadsTo;
    forall v: nat | v < |d.terms|
      ensures LeadsTo(d, v, d.terms[v]) <==> Distinct(Put(d, d.terms[v]).terms)
    {
      StoredAgain(d, v);
    }
  }

  lemma StoredAgain(d: Dict, v: nat)
    requires Tree(d) && Distinct(d.terms) && v < |d.terms|
    ensures LeadsTo(d, v, d.terms[v]) <==> Distinct(Put(d, d.terms[v]).terms)
  {
    hide Compare, Linked, Ranked, Find, Put, LeadsTo, Distinct;
    var t := d.terms[v];
    PutTerms(d, t);
    if v == 0 {
      RootIsLed(d);
    } else {
      FoundExactlyWhenLedTo(d, v, t);
      var f := Find(d, 0, t);
      CompareIsEqual(d.order, d.terms[f.1], t);
      if f.0 == EQ {
        SamePlace(d.terms, v, f.1);
      } else {
        Repeated(d.terms, v);
      }
    }
  }

  lemma PutTerms(d: Dict, t: Term)
    requires Tree(d)
    ensures Put(d, t).terms == if t == [] || Find(d, 0, t).0 == EQ then d.terms else d.terms + [t]
  {
    hide Compare, Find, Linked, Ranked;
    AlwaysFound(d, t);
  }

  lemma RootIsLed(d: Dict)
    requires Tree(d)
    ensures d.terms[0] == [] && LeadsTo(d, 0, [])
  {
  }

  lemma SamePlace(terms: seq<Term>, i: nat, j: nat)
    requires Distinct(terms) && i < |terms| && j < |terms| && terms[i] == terms[j]
    ensures i == j
  {
  }

  lemma Repeated(terms: seq<Term>, v: nat)
    requires v < |terms|
    ensures !Distinct(terms + [terms[v]])
  {
    var all := terms + [terms[v]];
    assert all[v] == all[|terms|];
  }
}
