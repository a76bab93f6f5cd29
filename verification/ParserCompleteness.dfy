/** Whatever the grammar derives, the tables parse, and the value stack ends up with the value
    of the derivation. */
module ParserCompleteness {
  import opened Options
  import opened ParserTables
  import opened CalcGrammar
  import opened ParserMachine

  /** From p, the parser has read up to `rest` and stacked one more symbol, with value v. */
  predicate Landed(p: Parser, q: Parser, state: nat, v: int, rest: seq<Token>) {
    q == p.(states := p.states + [state], vals := p.vals + [v], rest := rest, lval := q.lval)
  }

  /** The parse of a derivation with a value lands; without one it traps, printing nothing. */
  predicate Parsed(p: Parser, q: Parser, state: nat, v: Option<int>, rest: seq<Token>) {
    (if v.Some? then Landed(p, q, state, v.value, rest) else q.status.Trapped? && q.out == p.out) == true
  }

  predicate WantsItem(state: nat) { state in {1, 4, 9, 10, 12, 13, 14} }
  predicate WantsFactor(state: nat) { state in {1, 4, 9, 10} }
  predicate WantsExpr(state: nat) { state in {1, 4} }

  /** The next token does not continue a product. */
  predicate NoTimes(rest: seq<Token>) {
    rest == [] || (!rest[0].Mul? && !rest[0].Div? && !rest[0].Mod?)
  }

  // ---- single moves -----------------------------------------------------------------

  lemma OneStep(p: Parser, q: Parser)
    requires WfParser(p) && Step(p) == q
    ensures Reaches(p, q) && WfParser(q)
  {
    ReachesSelf(q);
    ReachesStep(p, q);
  }

  lemma ShiftMove(p: Parser, t: Token, rest: seq<Token>, state: nat) returns (q: Parser)
    requires WfParser(p) && p.status.Running? && p.rest == [t] + rest
    requires LalrAction(Top(p.states), Internal(t)) == Shift(state)
    ensures Reaches(p, q) && WfParser(q) && Landed(p, q, state, if t.Number? then t.value else p.lval, rest)
  {
    ActionsDecode(Top(p.states), Internal(t));
    assert p.rest[1..] == rest;
    q := Step(p);
    OneStep(p, q);
  }

  lemma ReduceMove(p: Parser, rule: nat)
    requires WfParser(p) && p.status.Running? && 0 < rule < |YYR2|
    requires LalrAction(Top(p.states), Ahead(p.rest)) == Reduce(rule)
    ensures Reaches(p, Reduced(p, rule)) && WfParser(Reduced(p, rule))
  {
    ActionsDecode(Top(p.states), Ahead(p.rest));
    OneStep(p, Reduced(p, rule));
  }

  predicate UnitRule(rule: nat) {
    rule in {6, 10, 11}
  }

  /** A reduction by a rule with a right-hand side of length one. */
  lemma Reduced1(p: Parser, q: Parser, state: nat, v: int, rest: seq<Token>, rule: nat)
    requires WfParser(p) && WfParser(q) && Landed(p, q, state, v, rest) && UnitRule(rule)
    ensures Landed(p, Reduced(q, rule), LalrGoto(Top(p.states), YYR1[rule]), v, rest)
  {
    assert q.states[..|q.states| - 1] == p.states && q.vals[..|q.vals| - 1] == p.vals;
    GotosDecode(Top(p.states), YYR1[rule]);
  }

  lemma UnitReduce(p: Parser, q: Parser, state: nat, v: int, rest: seq<Token>, rule: nat) returns (r: Parser)
    requires WfParser(p) && WfParser(q) && p.status.Running? && Landed(p, q, state, v, rest) && Reaches(p, q)
    requires UnitRule(rule) && state < YYNSTATES
    requires LalrAction(state, Ahead(rest)) == Reduce(rule)
    ensures Reaches(p, r) && WfParser(r) && Landed(p, r, LalrGoto(Top(p.states), YYR1[rule]), v, rest)
  {
    Reduced1(p, q, state, v, rest, rule);
    r := Reduced(q, rule);
    ReduceMove(q, rule);
    ReachesTrans(p, q, r);
  }

  /** p with three more symbols stacked, ready for a reduction by a rule of length three. */
  predicate Stacked3(p: Parser, q: Parser, s1: nat, v1: int, s2: nat, v2: int, s3: nat, v3: int, rest: seq<Token>) {
    q == p.(states := p.states + [s1, s2, s3], vals := p.vals + [v1, v2, v3], rest := rest, lval := q.lval)
  }

  predicate LongRule(rule: nat) {
    rule in {4, 5, 7, 8, 9, 12}
  }

  lemma SemanticOfTop(rule: nat, vs: seq<int>, v1: int, v2: int, v3: int)
    requires LongRule(rule) && vs != []
    ensures YYR2[rule] == 3 && Semantic(rule, vs + [v1, v2, v3]) == Semantic(rule, [0, v1, v2, v3])
  {
  }

  lemma Reduced3(p: Parser, q: Parser, s1: nat, v1: int, s2: nat, v2: int, s3: nat, v3: int, rest: seq<Token>,
                 rule: nat)
    requires WfParser(p) && WfParser(q) && Stacked3(p, q, s1, v1, s2, v2, s3, v3, rest) && LongRule(rule)
    ensures YYR2[rule] == 3 &&
              Parsed(p, Reduced(q, rule), LalrGoto(Top(p.states), YYR1[rule]), Semantic(rule, [0, v1, v2, v3]), rest)
  {
    SemanticOfTop(rule, p.vals, v1, v2, v3);
    assert q.states[..|q.states| - 3] == p.states && q.vals[..|q.vals| - 3] == p.vals;
    GotosDecode(Top(p.states), YYR1[rule]);
  }

  lemma TripleReduce(p: Parser, q: Parser, s1: nat, v1: int, s2: nat, v2: int, s3: nat, v3: int, rest: seq<Token>,
                     rule: nat)
    returns (r: Parser)
    requires WfParser(p) && WfParser(q) && p.status.Running? && Reaches(p, q)
    requires Stacked3(p, q, s1, v1, s2, v2, s3, v3, rest) && s3 < YYNSTATES
    requires LongRule(rule) && LalrAction(s3, Ahead(rest)) == Reduce(rule)
    ensures Reaches(p, r) && WfParser(r) && YYR2[rule] == 3
    ensures Parsed(p, r, LalrGoto(Top(p.states), YYR1[rule]), Semantic(rule, [0, v1, v2, v3]), rest)
  {
    Reduced3(p, q, s1, v1, s2, v2, s3, v3, rest, rule);
    r := Reduced(q, rule);
    ReduceMove(q, rule);
    ReachesTrans(p, q, r);
  }

  /** Three symbols stacked one after the other. */
  lemma LandedThrice(p: Parser, q: Parser, s1: nat, v1: int, mid: Parser, s2: nat, v2: int, r: Parser, s3: nat,
                     v3: int, rest: seq<Token>)
    requires Landed(p, q, s1, v1, q.rest) && Landed(q, mid, s2, v2, mid.rest) && Landed(mid, r, s3, v3, rest)
    ensures Stacked3(p, r, s1, v1, s2, v2, s3, v3, rest)
  {
    assert p.states + [s1] + [s2] + [s3] == p.states + [s1, s2, s3];
    assert p.vals + [v1] + [v2] + [v3] == p.vals + [v1, v2, v3];
  }

  // ---- derivations --------------------------------------------------------------------

  lemma ParseItem(p: Parser, i: Item, rest: seq<Token>) returns (q: Parser)
    requires WfParser(p) && p.status.Running? && WantsItem(Top(p.states)) && p.rest == YieldItem(i) + rest
    ensures Reaches(p, q) && WfParser(q) && Parsed(p, q, LalrGoto(Top(p.states), ITEM), EvalItem(i), rest)
    decreases i, 0
  {
    match i
    case Num(v) =>
      var p1 := ShiftMove(p, Number(v), rest, 3);
      q := UnitReduce(p, p1, 3, v, rest, 11);
    case Paren(e) =>
      var rest1 := [RParen] + rest;
      assert p.rest == [LParen] + (YieldExpr(e) + rest1);
      var p1 := ShiftMove(p, LParen, YieldExpr(e) + rest1, 4);
      q := ParseExpr(p1, e, rest1);
      ReachesTrans(p, p1, q);
      if EvalExpr(e).Some? {
        q := CloseParen(p, p1, q, EvalExpr(e).value, rest);
      }
  }

  lemma ParenRule(from: nat, v1: int, v: int, v3: int, rest: seq<Token>)
    requires WantsItem(from)
    ensures LalrGoto(from, ITEM) < YYNSTATES && LongRule(12) && YYR1[12] == ITEM
    ensures LalrAction(8, Internal(RParen)) == Shift(15) && LalrAction(15, Ahead(rest)) == Reduce(12)
    ensures Semantic(12, [0, v1, v, v3]) == Some(v)
  {
  }

  lemma CloseParen(p: Parser, p1: Parser, p2: Parser, v: int, rest: seq<Token>) returns (q: Parser)
    requires WfParser(p) && p.status.Running? && WantsItem(Top(p.states))
    requires WfParser(p1) && Landed(p, p1, 4, p.lval, p1.rest)
    requires WfParser(p2) && Landed(p1, p2, 8, v, [RParen] + rest) && Reaches(p, p2)
    ensures Reaches(p, q) && WfParser(q) && Landed(p, q, LalrGoto(Top(p.states), ITEM), v, rest)
  {
    hide Reaches, LalrAction, LalrGoto, Semantic;
    ParenRule(Top(p.states), p.lval, v, p2.lval, rest);
    var p3 := ShiftMove(p2, RParen, rest, 15);
    ReachesTrans(p, p2, p3);
    LandedThrice(p, p1, 4, p.lval, p2, 8, v, p3, 15, p2.lval, rest);
    q := TripleReduce(p, p3, 4, p.lval, 8, v, 15, p2.lval, rest, 12);
  }

  lemma ParseFactor(p: Parser, f: Factor, rest: seq<Token>) returns (q: Parser)
    requires WfParser(p) && p.status.Running? && WantsFactor(Top(p.states)) && p.rest == YieldFactor(f) + rest
    ensures Reaches(p, q) && WfParser(q) && Parsed(p, q, LalrGoto(Top(p.states), FACTOR), EvalFactor(f), rest)
    decreases f, 1
  {
    match f
    case OneItem(i) =>
      q := ParseItem(p, i, rest);
      if EvalItem(i).Some? {
        q := UnitReduce(p, q, 7, EvalItem(i).value, rest, 10);
      }
    case Product(l, op, r) =>
      var rest1 := [MulToken(op)] + (YieldItem(r) + rest);
      assert p.rest == YieldFactor(l) + rest1;
      q := ParseFactor(p, l, rest1);
      if EvalFactor(l).Some? {
        var p2, p3 := TimesItem(p, q, op, EvalFactor(l).value, r, rest);
        if EvalItem(r).Some? {
          q := MulReduce(p, q, op, EvalFactor(l).value, p2, p3, EvalItem(r).value, rest);
        } else {
          q := p3;
        }
      }
  }

  function MulState(op: MulOp): (state: nat) {
    if op.Multiply? then 12 else if op.Divide? then 13 else 14
  }

  lemma MulShift(from: nat, op: MulOp)
    requires WantsFactor(from)
    ensures LalrGoto(from, FACTOR) < YYNSTATES && LalrGoto(MulState(op), ITEM) == MulState(op) + 6
    ensures LalrAction(LalrGoto(from, FACTOR), Internal(MulToken(op))) == Shift(MulState(op))
  {
  }

  lemma TimesItem(p: Parser, p1: Parser, op: MulOp, a: int, r: Item, rest: seq<Token>) returns (p2: Parser, p3: Parser)
    requires WfParser(p) && p.status.Running? && WantsFactor(Top(p.states)) && WfParser(p1) && Reaches(p, p1)
    requires Landed(p, p1, LalrGoto(Top(p.states), FACTOR), a, [MulToken(op)] + (YieldItem(r) + rest))
    ensures Reaches(p, p3) && WfParser(p3) && Landed(p1, p2, MulState(op), p1.lval, p2.rest)
    ensures Parsed(p2, p3, MulState(op) + 6, EvalItem(r), rest)
    decreases r, 2
  {
    MulShift(Top(p.states), op);
    p2 := ShiftMove(p1, MulToken(op), YieldItem(r) + rest, MulState(op));
    p3 := ParseItem(p2, r, rest);
    ReachesTrans(p1, p2, p3);
    ReachesTrans(p, p1, p3);
  }

  lemma MulRule(op: MulOp, a: int, v: int, b: int, rest: seq<Token>)
    ensures LongRule(MulState(op) - 5) && YYR1[MulState(op) - 5] == FACTOR
    ensures LalrAction(MulState(op) + 6, Ahead(rest)) == Reduce(MulState(op) - 5)
    ensures Semantic(MulState(op) - 5, [0, a, v, b]) == ApplyMul(op, a, b)
  {
  }

  lemma MulReduce(p: Parser, p1: Parser, op: MulOp, a: int, p2: Parser, p3: Parser, b: int, rest: seq<Token>)
    returns (q: Parser)
    requires WfParser(p) && p.status.Running? && WantsFactor(Top(p.states)) && WfParser(p3) && Reaches(p, p3)
    requires Landed(p, p1, LalrGoto(Top(p.states), FACTOR), a, p1.rest)
    requires Landed(p1, p2, MulState(op), p1.lval, p2.rest) && Landed(p2, p3, MulState(op) + 6, b, rest)
    ensures Reaches(p, q) && WfParser(q) && Parsed(p, q, LalrGoto(Top(p.states), FACTOR), ApplyMul(op, a, b), rest)
  {
    var s1, s2 := LalrGoto(Top(p.states), FACTOR), MulState(op);
    MulRule(op, a, p1.lval, b, rest);
    LandedThrice(p, p1, s1, a, p2, s2, p1.lval, p3, s2 + 6, b, rest);
    q := TripleReduce(p, p3, s1, a, s2, p1.lval, s2 + 6, b, rest, s2 - 5);
  }

  lemma EndOfProduct(from: nat, rest: seq<Token>)
    requires WantsExpr(from) && NoTimes(rest)
    ensures LalrGoto(from, FACTOR) == 6 && LalrAction(6, Ahead(rest)) == Reduce(6) && YYR1[6] == EXPR
  {
  }

  lemma ParseExpr(p: Parser, e: Expr, rest: seq<Token>) returns (q: Parser)
    requires WfParser(p) && p.status.Running? && WantsExpr(Top(p.states)) && p.rest == YieldExpr(e) + rest &&
               NoTimes(rest)
    ensures Reaches(p, q) && WfParser(q) && Parsed(p, q, LalrGoto(Top(p.states), EXPR), EvalExpr(e), rest)
    decreases e, 3
  {
    match e
    case OneFactor(f) =>
      q := ParseFactor(p, f, rest);
      if EvalFactor(f).Some? {
        EndOfProduct(Top(p.states), rest);
        q := UnitReduce(p, q, 6, EvalFactor(f).value, rest, 6);
      }
    case Sum(l, op, r) =>
      var rest1 := [AddToken(op)] + (YieldFactor(r) + rest);
      assert p.rest == YieldExpr(l) + rest1;
      q := ParseExpr(p, l, rest1);
      if EvalExpr(l).Some? {
        var p2, p3 := PlusFactor(p, q, op, EvalExpr(l).value, r, rest);
        if EvalFactor(r).Some? {
          q := AddReduce(p, q, op, EvalExpr(l).value, p2, p3, EvalFactor(r).value, rest);
        } else {
          q := p3;
        }
      }
  }

  function AddState(op: AddOp): (state: nat) {
    if op.Add? then 9 else 10
  }

  lemma AddShift(from: nat, op: AddOp)
    requires WantsExpr(from)
    ensures LalrGoto(from, EXPR) < YYNSTATES && LalrGoto(AddState(op), FACTOR) == AddState(op) + 7
    ensures LalrAction(LalrGoto(from, EXPR), Internal(AddToken(op))) == Shift(AddState(op))
  {
  }

  lemma PlusFactor(p: Parser, p1: Parser, op: AddOp, a: int, r: Factor, rest: seq<Token>)
    returns (p2: Parser, p3: Parser)
    requires WfParser(p) && p.status.Running? && WantsExpr(Top(p.states)) && WfParser(p1) && Reaches(p, p1)
    requires Landed(p, p1, LalrGoto(Top(p.states), EXPR), a, [AddToken(op)] + (YieldFactor(r) + rest))
    ensures Reaches(p, p3) && WfParser(p3) && Landed(p1, p2, AddState(op), p1.lval, p2.rest)
    ensures Parsed(p2, p3, AddState(op) + 7, EvalFactor(r), rest)
    decreases r, 4
  {
    AddShift(Top(p.states), op);
    p2 := ShiftMove(p1, AddToken(op), YieldFactor(r) + rest, AddState(op));
    p3 := ParseFactor(p2, r, rest);
    ReachesTrans(p1, p2, p3);
    ReachesTrans(p, p1, p3);
  }

  lemma AddRule(op: AddOp, a: int, v: int, b: int, rest: seq<Token>)
    requires NoTimes(rest)
    ensures LongRule(AddState(op) - 5) && YYR1[AddState(op) - 5] == EXPR
    ensures LalrAction(AddState(op) + 7, Ahead(rest)) == Reduce(AddState(op) - 5)
    ensures Semantic(AddState(op) - 5, [0, a, v, b]) == Some(ApplyAdd(op, a, b))
  {
  }

  lemma AddReduce(p: Parser, p1: Parser, op: AddOp, a: int, p2: Parser, p3: Parser, b: int, rest: seq<Token>)
    returns (q: Parser)
    requires WfParser(p) && p.status.Running? && WantsExpr(Top(p.states)) && WfParser(p3) && Reaches(p, p3) &&
               NoTimes(rest)
    requires Landed(p, p1, LalrGoto(Top(p.states), EXPR), a, p1.rest)
    requires Landed(p1, p2, AddState(op), p1.lval, p2.rest) && Landed(p2, p3, AddState(op) + 7, b, rest)
    ensures Reaches(p, q) && WfParser(q) && Parsed(p, q, LalrGoto(Top(p.states), EXPR), Some(ApplyAdd(op, a, b)), rest)
  {
    var s1, s2 := LalrGoto(Top(p.states), EXPR), AddState(op);
    AddRule(op, a, p1.lval, b, rest);
    LandedThrice(p, p1, s1, a, p2, s2, p1.lval, p3, s2 + 7, b, rest);
    q := TripleReduce(p, p3, s1, a, s2, p1.lval, s2 + 7, b, rest, s2 - 5);
  }
}
