/** Whatever the tables parse, the grammar derives: every reachable parser state is described
    by a stack of derivations whose tokens, followed by the rest of the input, are the input. */
module ParserSoundness {
  import opened Options
  import opened ParserTables
  import opened CalcGrammar
  import opened ParserMachine
  import opened ParserCompleteness

  datatype Symbol =
    | Tok(token: Token)
    | ItemOf(item: Item)
    | FactorOf(factor: Factor)
    | ExprOf(expr: Expr)
    | CalcOf(lines: seq<Expr>)

  /** The two stacks of the parser together with the derivations they stand for. */
  datatype Stack = Bottom | Push(below: Stack, state: nat, symbol: Symbol, value: int)

  function TopState(s: Stack): (state: nat) {
    if s.Bottom? then 0 else s.state
  }

  function States(s: Stack): (states: seq<nat>)
    ensures states != [] && Top(states) == TopState(s)
  {
    if s.Bottom? then [0] else States(s.below) + [s.state]
  }

  function Vals(s: Stack): (vals: seq<int>) {
    if s.Bottom? then [0] else Vals(s.below) + [s.value]
  }

  function YieldSymbol(x: Symbol): (ts: seq<Token>) {
    match x
    case Tok(t) => [t]
    case ItemOf(i) => YieldItem(i)
    case FactorOf(f) => YieldFactor(f)
    case ExprOf(e) => YieldExpr(e)
    case CalcOf(lines) => YieldLines(lines)
  }

  function Tokens(s: Stack): (ts: seq<Token>) {
    if s.Bottom? then [] else Tokens(s.below) + YieldSymbol(s.symbol)
  }

  /** The lines already reduced. */
  function Done(s: Stack): (lines: seq<Expr>) {
    match s
    case Bottom => []
    case Push(_, _, CalcOf(lines), _) => lines
    case Push(below, _, _, _) => Done(below)
  }

  /** The states that can sit below a state: where it is entered from. */
  predicate Edge(from: nat, state: nat) {
    match state
    case 1 => from == 0
    case 3 => WantsItem(from)
    case 4 => WantsItem(from)
    case 5 => from == 1
    case 6 => WantsExpr(from)
    case 7 => WantsFactor(from)
    case 8 => from == 4
    case 9 => from == 5 || from == 8
    case 10 => from == 5 || from == 8
    case 11 => from == 5
    case 12 => from == 6 || from == 16 || from == 17
    case 13 => from == 6 || from == 16 || from == 17
    case 14 => from == 6 || from == 16 || from == 17
    case 15 => from == 8
    case 16 => from == 9
    case 17 => from == 10
    case 18 => from == 12
    case 19 => from == 13
    case 20 => from == 14
    case _ => false
  }

  /** The symbol a state is entered on, with its value. */
  predicate Fits(state: nat, x: Symbol, v: int) {
    match x
    case Tok(Number(n)) => state == 3 && n == v
    case Tok(LParen) => state == 4
    case Tok(Plus) => state == 9
    case Tok(Minus) => state == 10
    case Tok(Eol) => state == 11
    case Tok(Mul) => state == 12
    case Tok(Div) => state == 13
    case Tok(Mod) => state == 14
    case Tok(RParen) => state == 15
    case Tok(Other) => false
    case ItemOf(i) => (state == 7 || 18 <= state <= 20) && EvalItem(i) == Some(v)
    case FactorOf(f) => (state == 6 || 16 <= state <= 17) && EvalFactor(f) == Some(v)
    case ExprOf(e) => (state == 5 || state == 8) && EvalExpr(e) == Some(v)
    case CalcOf(lines) => state == 1 && AllEvaluate(lines)
  }

  /** The grammar symbol's internal number. */
  function SymbolNumber(x: Symbol): (n: nat) {
    match x
    case Tok(t) => Internal(t)
    case ItemOf(_) => ITEM
    case FactorOf(_) => FACTOR
    case ExprOf(_) => EXPR
    case CalcOf(_) => CALC
  }

  /** The symbols states are entered on are those of the generated table. */
  lemma AccessingSymbols(state: nat, x: Symbol, v: int)
    requires Fits(state, x, v)
    ensures state < YYNSTATES && YYSTOS[state] == SymbolNumber(x)
  {
  }

  predicate Sound(s: Stack) {
    s.Push? ==> Sound(s.below) && Edge(TopState(s.below), s.state) && Fits(s.state, s.symbol, s.value)
  }

  predicate Inv(p: Parser, s: Stack, input: seq<Token>) {
    && p.states == States(s) && p.vals == Vals(s) && Sound(s)
    && Tokens(s) + p.rest == input
    && AllEvaluate(Done(s)) && p.out == Values(Done(s))
  }

  /** Every move lowers this, so the parser stops. */
  function Cost(s: Stack): (c: nat) {
    match s
    case Bottom => 1
    case Push(Bottom, _, x, _) => Weight(x)
    case Push(below, _, x, _) => Cost(below) + Weight(x)
  }

  function Weight(x: Symbol): (w: nat) {
    match x
    case Tok(_) => 4
    case ItemOf(_) => 3
    case FactorOf(_) => 2
    case ExprOf(_) => 1
    case CalcOf(_) => 0
  }

  function Measure(p: Parser, s: Stack): (m: nat) {
    10 * |p.rest| + Cost(s)
  }

  lemma {:induction false} StatesFit(s: Stack)
    requires Sound(s)
    ensures |States(s)| == |Vals(s)| && forall i :: 0 <= i < |States(s)| ==> States(s)[i] < YYNSTATES
  {
    if s.Push? {
      StatesFit(s.below);
    }
  }

  /** The parser as it was before the topmost symbols were stacked. */
  function Under(p: Parser, b: Stack): (q: Parser) {
    p.(states := States(b), vals := Vals(b))
  }

  /** s is b with three more symbols on it. */
  predicate Three(s: Stack, b: Stack, s1: nat, x1: Symbol, v1: int, s2: nat, x2: Symbol, v2: int) {
    s.Push? && s.below == Push(Push(b, s1, x1, v1), s2, x2, v2)
  }

  lemma PopThree(p: Parser, s: Stack, b: Stack, s1: nat, x1: Symbol, v1: int, s2: nat, x2: Symbol, v2: int)
    requires Three(s, b, s1, x1, v1, s2, x2, v2) && p.states == States(s) && p.vals == Vals(s)
    ensures Stacked3(Under(p, b), p, s1, v1, s2, v2, s.state, s.value, p.rest)
  {
    var q := Push(b, s1, x1, v1);
    assert States(s.below) == States(q) + [s2] && Vals(s.below) == Vals(q) + [v2];
    assert States(s) == States(b) + [s1] + [s2] + [s.state] == States(b) + [s1, s2, s.state];
    assert Vals(s) == Vals(b) + [v1] + [v2] + [s.value] == Vals(b) + [v1, v2, s.value];
  }

  lemma TokensOfThree(s: Stack, b: Stack, s1: nat, x1: Symbol, v1: int, s2: nat, x2: Symbol, v2: int)
    requires Three(s, b, s1, x1, v1, s2, x2, v2)
    ensures Tokens(s) == Tokens(b) + (YieldSymbol(x1) + YieldSymbol(x2) + YieldSymbol(s.symbol))
  {
    var y1, y2, y3 := YieldSymbol(x1), YieldSymbol(x2), YieldSymbol(s.symbol);
    assert Tokens(Push(b, s1, x1, v1)) == Tokens(b) + y1;
    assert Tokens(s.below) == Tokens(b) + y1 + y2;
    assert Tokens(b) + y1 + y2 + y3 == Tokens(b) + (y1 + y2 + y3);
  }

  lemma CostOfThree(s: Stack, b: Stack, s1: nat, x1: Symbol, v1: int, s2: nat, x2: Symbol, v2: int)
    requires Three(s, b, s1, x1, v1, s2, x2, v2)
    ensures !x1.CalcOf? && !x2.CalcOf? && !s.symbol.CalcOf? ==> Done(s) == Done(b)
    ensures Cost(s) == (if b.Bottom? then 0 else Cost(b)) + Weight(x1) + Weight(x2) + Weight(s.symbol)
  {
    var q := Push(b, s1, x1, v1);
    assert Cost(s.below) == Cost(q) + Weight(x2);
    assert !x1.CalcOf? ==> Done(q) == Done(b);
    assert !x2.CalcOf? ==> Done(s.below) == Done(q);
  }

  /** The input holds a product without a value: something is divided by zero. */
  ghost predicate DividesByZero(input: seq<Token>) {
    exists before, f, after :: Spans(input, before, f, after) && EvalFactor(f).None?
  }

  predicate Spans(input: seq<Token>, before: seq<Token>, f: Factor, after: seq<Token>) {
    input == before + YieldFactor(f) + after
  }

  /** What is known of a stack when the parser has stopped. */
  ghost predicate Justified(p: Parser, s: Stack, input: seq<Token>) {
    match p.status
    case Accepted => s.Push? && s.below.Bottom? && s.symbol.CalcOf? && p.rest == []
    case Trapped => DividesByZero(input)
    case Broken => false
    case _ => true
  }

  /** q is p after a move, described by t as p was by s, and closer to the end. */
  ghost predicate Kept(p: Parser, s: Stack, q: Parser, t: Stack, input: seq<Token>) {
    (Inv(q, t, input) && Justified(q, t, input) && (q.status.Running? ==> Measure(q, t) < Measure(p, s))) == true
  }

  /** What a reduction must show of the symbol it stacks. */
  predicate Replaces(s: Stack, b: Stack, x: Symbol, v: int, state: nat) {
    && Tokens(s) == Tokens(b) + YieldSymbol(x)
    && Fits(state, x, v) && Edge(TopState(b), state) && Sound(b)
    && Done(Push(b, state, x, v)) == Done(s)
    && Cost(Push(b, state, x, v)) < Cost(s)
  }

  lemma Restack(p: Parser, s: Stack, b: Stack, x: Symbol, v: int, state: nat, q: Parser, input: seq<Token>)
    requires p.status.Running? && Inv(p, s, input)
    requires Replaces(s, b, x, v, state) && Landed(Under(p, b), q, state, v, p.rest)
    ensures Kept(p, s, q, Push(b, state, x, v), input)
  {
  }

  // ---- rules 4 and 5 ------------------------------------------------------------------

  predicate SumBelow(s: Stack, op: AddOp, b: Stack, s1: nat, l: Expr, a: int, v2: int) {
    && Three(s, b, s1, ExprOf(l), a, AddState(op), Tok(AddToken(op)), v2)
    && s.symbol.FactorOf? && EvalFactor(s.symbol.factor) == Some(s.value)
    && Sound(b) && EvalExpr(l) == Some(a) && s1 == LalrGoto(TopState(b), EXPR) && Edge(TopState(b), s1)
  }

  lemma PeelSum(s: Stack, op: AddOp) returns (b: Stack, s1: nat, l: Expr, a: int, v2: int)
    requires Sound(s) && s.Push? && s.state == AddState(op) + 7
    ensures SumBelow(s, op, b, s1, l, a, v2)
  {
    var q2 := s.below;
    assert Sound(q2) && q2.state == AddState(op) && q2.symbol == Tok(AddToken(op));
    var q1 := q2.below;
    assert Sound(q1) && (q1.state == 5 || q1.state == 8);
    b, s1, l, a, v2 := q1.below, q1.state, q1.symbol.expr, q1.value, q2.value;
    assert Sound(b) && Edge(TopState(b), s1);
  }

  lemma SumReplaces(s: Stack, op: AddOp, b: Stack, s1: nat, l: Expr, a: int, v2: int)
    requires SumBelow(s, op, b, s1, l, a, v2)
    ensures Replaces(s, b, ExprOf(Sum(l, op, s.symbol.factor)), ApplyAdd(op, a, s.value), s1)
  {
    hide Tokens, Cost, Done;
    TokensOfThree(s, b, s1, ExprOf(l), a, AddState(op), Tok(AddToken(op)), v2);
    CostOfThree(s, b, s1, ExprOf(l), a, AddState(op), Tok(AddToken(op)), v2);
    var e := Sum(l, op, s.symbol.factor);
    assert YieldExpr(e) == YieldExpr(l) + [AddToken(op)] + YieldFactor(s.symbol.factor);
    OneMore(b, s1, ExprOf(e), ApplyAdd(op, a, s.value));
  }

  lemma OneMore(b: Stack, state: nat, x: Symbol, v: int)
    ensures Cost(Push(b, state, x, v)) == (if b.Bottom? then 0 else Cost(b)) + Weight(x)
    ensures !x.CalcOf? ==> Done(Push(b, state, x, v)) == Done(b)
  {
  }

  lemma SumLands(p: Parser, s: Stack, op: AddOp, b: Stack, s1: nat, l: Expr, a: int, v2: int)
    requires WfParser(p) && p.status.Running? && p.states == States(s) && p.vals == Vals(s)
    requires SumBelow(s, op, b, s1, l, a, v2) && s.state == AddState(op) + 7
    ensures Landed(Under(p, b), Reduced(p, AddState(op) - 5), s1, ApplyAdd(op, a, s.value), p.rest)
  {
    hide Reduced, Sound;
    PopThree(p, s, b, s1, ExprOf(l), a, AddState(op), Tok(AddToken(op)), v2);
    StatesFit(b);
    AddRule(op, a, v2, s.value, []);
    Reduced3(Under(p, b), p, s1, a, AddState(op), v2, s.state, s.value, p.rest, AddState(op) - 5);
  }

  lemma SumStep(p: Parser, s: Stack, op: AddOp, input: seq<Token>) returns (t: Stack)
    requires WfParser(p) && p.status.Running? && Inv(p, s, input) && s.Push? && s.state == AddState(op) + 7
    ensures Kept(p, s, Reduced(p, AddState(op) - 5), t, input)
  {
    hide Reduced, Replaces, Landed, Kept, Tokens, Sound, SumBelow, Under;
    var b, s1, l, a, v2 := PeelSum(s, op);
    SumHasFactor(s, op, b, s1, l, a, v2);
    SumReplaces(s, op, b, s1, l, a, v2);
    SumLands(p, s, op, b, s1, l, a, v2);
    t := Push(b, s1, ExprOf(Sum(l, op, s.symbol.factor)), ApplyAdd(op, a, s.value));
    Restack(p, s, b, t.symbol, t.value, s1, Reduced(p, AddState(op) - 5), input);
  }

  lemma SumHasFactor(s: Stack, op: AddOp, b: Stack, s1: nat, l: Expr, a: int, v2: int)
    requires SumBelow(s, op, b, s1, l, a, v2)
    ensures s.Push? && s.symbol.FactorOf?
  {
  }

  // ---- rules 7, 8 and 9 ---------------------------------------------------------------

  predicate ProductBelow(s: Stack, op: MulOp, b: Stack, s1: nat, l: Factor, a: int, v2: int) {
    && Three(s, b, s1, FactorOf(l), a, MulState(op), Tok(MulToken(op)), v2)
    && s.symbol.ItemOf? && EvalItem(s.symbol.item) == Some(s.value)
    && Sound(b) && EvalFactor(l) == Some(a) && s1 == LalrGoto(TopState(b), FACTOR) && Edge(TopState(b), s1)
  }

  lemma PeelProduct(s: Stack, op: MulOp) returns (b: Stack, s1: nat, l: Factor, a: int, v2: int)
    requires Sound(s) && s.Push? && s.state == MulState(op) + 6
    ensures ProductBelow(s, op, b, s1, l, a, v2)
  {
    var q2 := s.below;
    assert Sound(q2) && q2.state == MulState(op) && q2.symbol == Tok(MulToken(op));
    var q1 := q2.below;
    assert Sound(q1) && (q1.state == 6 || q1.state == 16 || q1.state == 17);
    b, s1, l, a, v2 := q1.below, q1.state, q1.symbol.factor, q1.value, q2.value;
    assert Sound(b) && Edge(TopState(b), s1);
  }

  lemma ProductOfThree(s: Stack, op: MulOp, b: Stack, s1: nat, l: Factor, a: int, v2: int)
    requires ProductBelow(s, op, b, s1, l, a, v2)
    ensures var f := Product(l, op, s.symbol.item);
            && Tokens(s) == Tokens(b) + YieldFactor(f) && EvalFactor(f) == ApplyMul(op, a, s.value)
            && (EvalFactor(f).Some? ==> Replaces(s, b, FactorOf(f), EvalFactor(f).value, s1))
  {
    TokensOfThree(s, b, s1, FactorOf(l), a, MulState(op), Tok(MulToken(op)), v2);
    CostOfThree(s, b, s1, FactorOf(l), a, MulState(op), Tok(MulToken(op)), v2);
  }

  lemma ProductParsed(p: Parser, s: Stack, op: MulOp, b: Stack, s1: nat, l: Factor, a: int, v2: int)
    requires WfParser(p) && p.status.Running? && p.states == States(s) && p.vals == Vals(s)
    requires ProductBelow(s, op, b, s1, l, a, v2) && s.state == MulState(op) + 6
    ensures Parsed(Under(p, b), Reduced(p, MulState(op) - 5), s1, ApplyMul(op, a, s.value), p.rest)
  {
    hide Reduced, Sound, Parsed;
    PopThree(p, s, b, s1, FactorOf(l), a, MulState(op), Tok(MulToken(op)), v2);
    StatesFit(b);
    MulRule(op, a, v2, s.value, []);
    Reduced3(Under(p, b), p, s1, a, MulState(op), v2, s.state, s.value, p.rest, MulState(op) - 5);
  }

  /** A product without a value is found where it stands in the input. */
  lemma TrapIsJustified(p: Parser, s: Stack, b: Stack, f: Factor, input: seq<Token>)
    requires Inv(p, s, input) && Tokens(s) == Tokens(b) + YieldFactor(f) && EvalFactor(f).None?
    ensures DividesByZero(input)
  {
    assert Spans(input, Tokens(b), f, p.rest);
  }

  /** A reduction that traps leaves the stack as it is. */
  lemma TrapKeeps(p: Parser, s: Stack, rule: nat, input: seq<Token>)
    requires WfParser(p) && 0 < rule < |YYR2| && Inv(p, s, input) && DividesByZero(input)
    requires Reduced(p, rule).status.Trapped?
    requires p.status.Running?
    ensures Kept(p, s, Reduced(p, rule), s, input)
  {
    hide Semantic, TableGoto, Tokens, Sound, DividesByZero;
  }

  lemma ProductStep(p: Parser, s: Stack, op: MulOp, input: seq<Token>) returns (t: Stack)
    requires WfParser(p) && p.status.Running? && Inv(p, s, input) && s.Push? && s.state == MulState(op) + 6
    ensures Kept(p, s, Reduced(p, MulState(op) - 5), t, input)
  {
    hide Reduced, Replaces, Kept, Tokens, Sound, Under, Landed;
    var b, s1, l, a, v2 := PeelProduct(s, op);
    ProductOfThree(s, op, b, s1, l, a, v2);
    ProductParsed(p, s, op, b, s1, l, a, v2);
    var f := Product(l, op, s.symbol.item);
    if EvalFactor(f).Some? {
      t := Push(b, s1, FactorOf(f), EvalFactor(f).value);
      Restack(p, s, b, FactorOf(f), t.value, s1, Reduced(p, MulState(op) - 5), input);
    } else {
      t := s;
      TrapIsJustified(p, s, b, f, input);
      TrapKeeps(p, s, MulState(op) - 5, input);
    }
  }

  // ---- rule 12 ------------------------------------------------------------------------

  predicate ParenBelow(s: Stack, b: Stack, v1: int, e: Expr, v: int) {
    && Three(s, b, 4, Tok(LParen), v1, 8, ExprOf(e), v)
    && s.symbol == Tok(RParen) && EvalExpr(e) == Some(v) && Sound(b) && WantsItem(TopState(b))
  }

  lemma PeelParen(s: Stack) returns (b: Stack, v1: int, e: Expr, v: int)
    requires Sound(s) && s.Push? && s.state == 15
    ensures ParenBelow(s, b, v1, e, v)
  {
    var q2 := s.below;
    assert Sound(q2) && q2.state == 8 && q2.symbol.ExprOf?;
    var q1 := q2.below;
    assert Sound(q1) && q1.state == 4 && q1.symbol == Tok(LParen);
    b, v1, e, v := q1.below, q1.value, q2.symbol.expr, q2.value;
    assert Sound(b) && WantsItem(TopState(b));
  }

  lemma ItemEdge(from: nat)
    requires WantsItem(from)
    ensures Edge(from, LalrGoto(from, ITEM)) && LalrGoto(from, ITEM) in {7, 18, 19, 20}
  {
  }

  lemma ParenReplaces(s: Stack, b: Stack, v1: int, e: Expr, v: int)
    requires ParenBelow(s, b, v1, e, v)
    ensures Replaces(s, b, ItemOf(Paren(e)), v, LalrGoto(TopState(b), ITEM))
  {
    hide Tokens, Cost, Done;
    TokensOfThree(s, b, 4, Tok(LParen), v1, 8, ExprOf(e), v);
    CostOfThree(s, b, 4, Tok(LParen), v1, 8, ExprOf(e), v);
    ItemEdge(TopState(b));
    assert YieldItem(Paren(e)) == [LParen] + YieldExpr(e) + [RParen];
    OneMore(b, LalrGoto(TopState(b), ITEM), ItemOf(Paren(e)), v);
  }

  lemma ParenLands(p: Parser, s: Stack, b: Stack, v1: int, e: Expr, v: int)
    requires WfParser(p) && p.status.Running? && p.states == States(s) && p.vals == Vals(s)
    requires ParenBelow(s, b, v1, e, v) && s.state == 15
    ensures Landed(Under(p, b), Reduced(p, 12), LalrGoto(TopState(b), ITEM), v, p.rest)
  {
    hide Reduced, Sound;
    PopThree(p, s, b, 4, Tok(LParen), v1, 8, ExprOf(e), v);
    StatesFit(b);
    ItemEdge(TopState(b));
    Reduced3(Under(p, b), p, 4, v1, 8, v, s.state, s.value, p.rest, 12);
  }

  lemma ParenStep(p: Parser, s: Stack, input: seq<Token>) returns (t: Stack)
    requires WfParser(p) && p.status.Running? && Inv(p, s, input) && s.Push? && s.state == 15
    ensures Kept(p, s, Reduced(p, 12), t, input)
  {
    hide Reduced, Replaces, Landed, Kept, Tokens, Sound, ParenBelow, Under;
    var b, v1, e, v := PeelParen(s);
    ParenReplaces(s, b, v1, e, v);
    ParenLands(p, s, b, v1, e, v);
    t := Push(b, LalrGoto(TopState(b), ITEM), ItemOf(Paren(e)), v);
    Restack(p, s, b, t.symbol, v, t.state, Reduced(p, 12), input);
  }

  // ---- rules 6, 10 and 11 -------------------------------------------------------------

  /** The symbol one rule of length one makes of another. */
  predicate Renames(rule: nat, x: Symbol, y: Symbol) {
    match rule
    case 6 => x.FactorOf? && y == ExprOf(OneFactor(x.factor))
    case 10 => x.ItemOf? && y == FactorOf(OneItem(x.item))
    case 11 => x.Tok? && x.token.Number? && y == ItemOf(Num(x.token.value))
    case _ => false
  }

  lemma UnitEdge(from: nat, state: nat, x: Symbol, v: int, rule: nat, y: Symbol)
    requires Edge(from, state) && Fits(state, x, v) && Renames(rule, x, y)
    requires rule == (if state == 6 then 6 else if state == 7 then 10 else 11) && state in {3, 6, 7}
    ensures Edge(from, LalrGoto(from, YYR1[rule])) && Fits(LalrGoto(from, YYR1[rule]), y, v)
    ensures YieldSymbol(x) == YieldSymbol(y) && Weight(y) < Weight(x)
  {
  }

  lemma UnitStep(p: Parser, s: Stack, rule: nat, input: seq<Token>) returns (t: Stack)
    requires WfParser(p) && p.status.Running? && Inv(p, s, input) && s.Push? && s.state in {3, 6, 7}
    requires rule == (if s.state == 6 then 6 else if s.state == 7 then 10 else 11)
    ensures Kept(p, s, Reduced(p, rule), t, input)
  {
    var b := s.below;
    StatesFit(b);
    Reduced1(Under(p, b), p, s.state, s.value, p.rest, rule);
    var y := match rule
             case 6 => ExprOf(OneFactor(s.symbol.factor))
             case 10 => FactorOf(OneItem(s.symbol.item))
             case _ => ItemOf(Num(s.symbol.token.value));
    UnitEdge(TopState(b), s.state, s.symbol, s.value, rule, y);
    t := Push(b, LalrGoto(TopState(b), YYR1[rule]), y, s.value);
    Restack(p, s, b, y, s.value, t.state, Reduced(p, rule), input);
  }

  // ---- rules 2 and 3 ------------------------------------------------------------------

  lemma FirstStep(p: Parser, input: seq<Token>) returns (t: Stack)
    requires WfParser(p) && p.status.Running? && Inv(p, Bottom, input)
    ensures Kept(p, Bottom, Reduced(p, 2), t, input)
  {
    hide TableGoto;
    t := Push(Bottom, 1, CalcOf([]), 0);
    GotosDecode(0, CALC);
    var states, vals := p.states, p.vals;
    assert states[..|states| - 0] == states && vals[..|vals| - 0] == vals;
    assert Values([]) == [];
  }

  lemma ValuesSnoc(lines: seq<Expr>, e: Expr)
    requires AllEvaluate(lines) && EvalExpr(e).Some?
    ensures AllEvaluate(lines + [e]) && Values(lines + [e]) == Values(lines) + [EvalExpr(e).value]
  {
  }

  predicate LineBelow(s: Stack, lines: seq<Expr>, v1: int, e: Expr, v: int) {
    && Three(s, Bottom, 1, CalcOf(lines), v1, 5, ExprOf(e), v)
    && s.symbol == Tok(Eol) && EvalExpr(e) == Some(v) && AllEvaluate(lines)
  }

  lemma PeelLine(s: Stack) returns (lines: seq<Expr>, v1: int, e: Expr, v: int)
    requires Sound(s) && s.Push? && s.state == 11
    ensures LineBelow(s, lines, v1, e, v)
  {
    var q2 := s.below;
    assert Sound(q2) && q2.state == 5 && q2.symbol.ExprOf?;
    var q1 := q2.below;
    assert Sound(q1) && q1.state == 1 && q1.symbol.CalcOf?;
    assert Sound(q1.below) && q1.below.Bottom?;
    lines, v1, e, v := q1.symbol.lines, q1.value, q2.symbol.expr, q2.value;
  }

  lemma ReducedLine(p: Parser, q: Parser, v1: int, v: int, v3: int, rest: seq<Token>)
    requires WfParser(p) && WfParser(q) && Stacked3(p, q, 1, v1, 5, v, 11, v3, rest) && Top(p.states) == 0
    ensures Reduced(q, 3) ==
            p.(states := p.states + [1], vals := p.vals + [v1], rest := rest, lval := q.lval, out := p.out + [v])
  {
    assert q.states[..|q.states| - 3] == p.states && q.vals[..|q.vals| - 3] == p.vals;
    GotosDecode(0, CALC);
  }

  lemma DoneOfLine(s: Stack, lines: seq<Expr>, v1: int, e: Expr, v: int)
    requires LineBelow(s, lines, v1, e, v)
    ensures Done(s) == lines
  {
    var bottom := Push(Bottom, 1, CalcOf(lines), v1);
    assert Done(bottom) == lines;
    assert Done(s.below) == Done(bottom);
    assert Done(s) == Done(s.below);
  }

  lemma LineStep(p: Parser, s: Stack, input: seq<Token>) returns (t: Stack)
    requires WfParser(p) && p.status.Running? && Inv(p, s, input) && s.Push? && s.state == 11
    ensures Kept(p, s, Reduced(p, 3), t, input)
  {
    var lines, v1, e, v := PeelLine(s);
    PopThree(p, s, Bottom, 1, CalcOf(lines), v1, 5, ExprOf(e), v);
    TokensOfThree(s, Bottom, 1, CalcOf(lines), v1, 5, ExprOf(e), v);
    CostOfThree(s, Bottom, 1, CalcOf(lines), v1, 5, ExprOf(e), v);
    DoneOfLine(s, lines, v1, e, v);
    ReducedLine(Under(p, Bottom), p, v1, v, s.value, p.rest);
    ValuesSnoc(lines, e);
    t := Push(Bottom, 1, CalcOf(lines + [e]), v1);
    assert YieldLines(lines + [e]) == YieldLines(lines) + YieldExpr(e) + [Eol] by {
      assert (lines + [e])[..|lines|] == lines;
    }
    assert Tokens(t) == YieldLines(lines + [e]);
    assert Sound(t);
  }

  // ---- shifts -------------------------------------------------------------------------

  lemma ShiftFits(from: nat, t: Token, state: nat, lval: int)
    requires from < YYNSTATES && LalrAction(from, Internal(t)) == Shift(state)
    ensures Edge(from, state) && Fits(state, Tok(t), if t.Number? then t.value else lval)
  {
  }

  lemma EndNotShifted(from: nat)
    requires from < YYNSTATES
    ensures !LalrAction(from, END).Shift?
  {
  }

  lemma ShiftStep(p: Parser, s: Stack, state: nat, input: seq<Token>) returns (t: Stack)
    requires WfParser(p) && p.status.Running? && Inv(p, s, input) &&
               LalrAction(TopState(s), Ahead(p.rest)) == Shift(state)
    ensures Kept(p, s, Shifted(p, state), t, input)
  {
    EndNotShifted(TopState(s));
    ShiftFits(TopState(s), p.rest[0], state, p.lval);
    t := Push(s, state, Tok(p.rest[0]), ReadValue(p.rest, p.lval));
    assert Tokens(t) + p.rest[1..] == Tokens(s) + p.rest;
  }

  // ---- every step ---------------------------------------------------------------------

  /** The rule each state reduces by. */
  predicate ReducesBy(state: nat, rule: nat) {
    match rule
    case 2 => state == 0
    case 3 => state == 11
    case 12 => state == 15
    case 6 => state == 6
    case 10 => state == 7
    case 11 => state == 3
    case 4 => state == 16
    case 5 => state == 17
    case 7 => state == 18
    case 8 => state == 19
    case 9 => state == 20
    case _ => false
  }

  lemma WhichRule(s: Stack, token: nat, rule: nat)
    requires Sound(s) && TopState(s) < YYNSTATES && LalrAction(TopState(s), token) == Reduce(rule)
    ensures ReducesBy(TopState(s), rule)
  {
    assert TopState(s) != 2;
  }

  lemma OperatorStep(p: Parser, s: Stack, rule: nat, input: seq<Token>) returns (t: Stack)
    requires WfParser(p) && p.status.Running? && Inv(p, s, input) && ReducesBy(TopState(s), rule)
    requires rule in {4, 5, 7, 8, 9}
    ensures Kept(p, s, Reduced(p, rule), t, input)
  {
    hide Reduced, Kept, Inv;
    match rule
    case 4 => t := SumStep(p, s, Add, input);
    case 5 => t := SumStep(p, s, Subtract, input);
    case 7 => t := ProductStep(p, s, Multiply, input);
    case 8 => t := ProductStep(p, s, Divide, input);
    case _ => t := ProductStep(p, s, Remainder, input);
  }

  lemma ReduceStep(p: Parser, s: Stack, rule: nat, input: seq<Token>) returns (t: Stack)
    requires WfParser(p) && p.status.Running? && Inv(p, s, input) && ReducesBy(TopState(s), rule)
    ensures 0 < rule < |YYR2| && Kept(p, s, Reduced(p, rule), t, input)
  {
    match rule
    case 2 => t := FirstStep(p, input);
    case 3 => t := LineStep(p, s, input);
    case 12 => t := ParenStep(p, s, input);
    case 6 => t := UnitStep(p, s, 6, input);
    case 10 => t := UnitStep(p, s, 10, input);
    case 11 => t := UnitStep(p, s, 11, input);
    case _ => t := OperatorStep(p, s, rule, input);
  }

  lemma EndOfInput(p: Parser, s: Stack)
    requires Sound(s) && TopState(s) < YYNSTATES && LalrAction(TopState(s), Ahead(p.rest)) == Accept
    ensures s.Push? && s.below.Bottom? && s.symbol.CalcOf? && p.rest == []
  {
    assert TopState(s) == 1 && Ahead(p.rest) == END;
    assert Sound(s.below);
  }

  /** The main step: every move of a described parser gives a described parser. */
  lemma StepKeeps(p: Parser, s: Stack, input: seq<Token>) returns (t: Stack)
    requires WfParser(p) && p.status.Running? && Inv(p, s, input)
    ensures Kept(p, s, Step(p), t, input)
  {
    ActionsDecode(TopState(s), Ahead(p.rest));
    match LalrAction(TopState(s), Ahead(p.rest))
    case Shift(state) => t := ShiftStep(p, s, state, input);
    case Reduce(rule) =>
      WhichRule(s, Ahead(p.rest), rule);
      t := ReduceStep(p, s, rule, input);
    case Accept =>
      EndOfInput(p, s);
      t := s;
    case Error => t := s;
  }
}
