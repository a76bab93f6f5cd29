/** The calculator's grammar: tokens, derivations, the tokens a derivation spans and the
    value it stands for.  Evaluation is partial: dividing by zero has no value. */
module CalcGrammar {
  import opened Arith
  import opened Options

  datatype Token =
    | Plus | Minus | Mul | Div | Mod
    | Number(value: int)
    | LParen | RParen | Eol
    | Other               // any code the grammar has no token for

  datatype AddOp = Add | Subtract
  datatype MulOp = Multiply | Divide | Remainder

  // expr, factor and item, one constructor per rule
  datatype Expr = Sum(left: Expr, op: AddOp, right: Factor) | OneFactor(factor: Factor)
  datatype Factor = Product(left: Factor, op: MulOp, right: Item) | OneItem(item: Item)
  datatype Item = Num(value: int) | Paren(inner: Expr)

  // ---- values -------------------------------------------------------------------

  /** Division of C integers rounds toward zero. */
  function TruncDiv(a: int, b: int): (q: int)
    requires b != 0
  {
    if a >= 0 then (if b > 0 then a / b else -(a / -b))
    else (if b > 0 then -(-a / b) else -a / -b)
  }

  function TruncMod(a: int, b: int): (r: int)
    requires b != 0
  {
    a - b * TruncDiv(a, b)
  }

  lemma TruncDivTimes(a: int, b: int, k: int)
    requires b != 0 && k == Abs(a) / Abs(b)
    ensures TruncDiv(a, b) * b == if a < 0 then -(Abs(b) * k) else Abs(b) * k
  {
    assert TruncDiv(a, b) == if (a < 0) == (b < 0) then k else -k;
  }

  /** The two operations truncate, and no other numbers do. */
  lemma DivisionTruncates(a: int, b: int, q: int, r: int)
    requires b != 0
    ensures Truncates(a, b, q, r) <==> q == TruncDiv(a, b) && r == TruncMod(a, b)
  {
    var m: int, n: int := Abs(a), Abs(b);
    var k: int := m / n;
    DivModUnique(m, n, k, m % n);
    TruncDivTimes(a, b, k);
    hide TruncDiv;
    if Truncates(a, b, q, r) {
      TruncatesOnce(a, b, q, r, TruncDiv(a, b), TruncMod(a, b));
    }
  }

  function ApplyAdd(op: AddOp, a: int, b: int): (v: int) {
    match op
    case Add => a + b
    case Subtract => a - b
  }

  function ApplyMul(op: MulOp, a: int, b: int): (v: Option<int>) {
    match op
    case Multiply => Some(a * b)
    case Divide => if b == 0 then None else Some(TruncDiv(a, b))
    case Remainder => if b == 0 then None else Some(TruncMod(a, b))
  }

  function EvalExpr(e: Expr): (v: Option<int>) {
    match e
    case OneFactor(f) => EvalFactor(f)
    case Sum(l, op, r) =>
      var a, b := EvalExpr(l), EvalFactor(r);
      if a.Some? && b.Some? then Some(ApplyAdd(op, a.value, b.value)) else None
  }

  function EvalFactor(f: Factor): (v: Option<int>) {
    match f
    case OneItem(i) => EvalItem(i)
    case Product(l, op, r) =>
      var a, b := EvalFactor(l), EvalItem(r);
      if a.Some? && b.Some? then ApplyMul(op, a.value, b.value) else None
  }

  function EvalItem(i: Item): (v: Option<int>) {
    match i
    case Num(v) => Some(v)
    case Paren(e) => EvalExpr(e)
  }

  // ---- tokens --------------------------------------------------------------------

  function AddToken(op: AddOp): (t: Token) {
    if op.Add? then Plus else Minus
  }

  function MulToken(op: MulOp): (t: Token) {
    match op
    case Multiply => Mul
    case Divide => Div
    case Remainder => Mod
  }

  function YieldExpr(e: Expr): (ts: seq<Token>) {
    match e
    case OneFactor(f) => YieldFactor(f)
    case Sum(l, op, r) => YieldExpr(l) + [AddToken(op)] + YieldFactor(r)
  }

  function YieldFactor(f: Factor): (ts: seq<Token>) {
    match f
    case OneItem(i) => YieldItem(i)
    case Product(l, op, r) => YieldFactor(l) + [MulToken(op)] + YieldItem(r)
  }

  function YieldItem(i: Item): (ts: seq<Token>) {
    match i
    case Num(v) => [Number(v)]
    case Paren(e) => [LParen] + YieldExpr(e) + [RParen]
  }

  /** calc: one expression and one end of line after another. */
  function YieldLines(lines: seq<Expr>): (ts: seq<Token>) {
    if lines == [] then []
    else YieldLines(lines[..|lines| - 1]) + YieldExpr(lines[|lines| - 1]) + [Eol]
  }

  ghost predicate Sentence(ts: seq<Token>) {
    exists lines :: YieldLines(lines) == ts
  }

  predicate AllEvaluate(lines: seq<Expr>) {
    forall i :: 0 <= i < |lines| ==> EvalExpr(lines[i]).Some?
  }

  /** The values printed for lines that all have one. */
  function Values(lines: seq<Expr>): (vs: seq<int>)
    requires AllEvaluate(lines)
  {
    seq(|lines|, i requires 0 <= i < |lines| => EvalExpr(lines[i]).value)
  }

  // ---- expression trees and how they are printed ------------------------------------

  datatype Op = AddOf(add: AddOp) | MulOf(mul: MulOp)

  /** An expression tree, without parentheses: its shape says what is computed first. */
  datatype Tree = Leaf(value: int) | Node(op: Op, left: Tree, right: Tree)

  function EvalTree(t: Tree): (v: Option<int>) {
    match t
    case Leaf(v) => Some(v)
    case Node(op, l, r) =>
      var a, b := EvalTree(l), EvalTree(r);
      if a.None? || b.None? then None
      else match op
           case AddOf(add) => Some(ApplyAdd(add, a.value, b.value))
           case MulOf(mul) => ApplyMul(mul, a.value, b.value)
  }

  function OpToken(op: Op): (t: Token) {
    match op
    case AddOf(add) => AddToken(add)
    case MulOf(mul) => MulToken(mul)
  }

  function Level(t: Tree): (level: nat) {
    if t.Leaf? then 2 else if t.op.MulOf? then 1 else 0
  }

  /** Prints a tree with parentheses exactly where its operator binds less tightly than asked:
      0 for sums, 1 for products, 2 for operands; the right operand must bind tighter. */
  function Print(t: Tree, level: nat): (ts: seq<Token>)
    decreases t, if level > Level(t) then 1 else 0
  {
    if level > Level(t) && t.Node? then [LParen] + Print(t, 0) + [RParen]
    else match t
         case Leaf(v) => [Number(v)]
         case Node(op, l, r) => Print(l, Level(t)) + [OpToken(op)] + Print(r, Level(t) + 1)
  }

  function ToExpr(t: Tree): (e: Expr)
    decreases t, 2
  {
    if t.Node? && t.op.AddOf? then Sum(ToExpr(t.left), t.op.add, ToFactor(t.right)) else OneFactor(ToFactor(t))
  }

  function ToFactor(t: Tree): (f: Factor)
    decreases t, 1
  {
    if t.Node? && t.op.MulOf? then Product(ToFactor(t.left), t.op.mul, ToItem(t.right)) else OneItem(ToItem(t))
  }

  function ToItem(t: Tree): (i: Item)
    decreases t, 0
  {
    match t
    case Leaf(v) => Num(v)
    case Node(AddOf(add), l, r) => Paren(Sum(ToExpr(l), add, ToFactor(r)))
    case Node(MulOf(mul), l, r) => Paren(OneFactor(Product(ToFactor(l), mul, ToItem(r))))
  }

  /** What is printed is derived by the grammar, in one way that keeps the value. */
  lemma {:induction false} PrintedTreeIsDerived(t: Tree)
    ensures YieldExpr(ToExpr(t)) == Print(t, 0) && EvalExpr(ToExpr(t)) == EvalTree(t)
    ensures YieldFactor(ToFactor(t)) == Print(t, 1) && EvalFactor(ToFactor(t)) == EvalTree(t)
    ensures YieldItem(ToItem(t)) == Print(t, 2) && EvalItem(ToItem(t)) == EvalTree(t)
  {
    if t.Node? {
      PrintedTreeIsDerived(t.left);
      PrintedTreeIsDerived(t.right);
      match t.op
      case AddOf(add) =>
        var e := Sum(ToExpr(t.left), add, ToFactor(t.right));
        assert ToExpr(t) == e && ToItem(t) == Paren(e) && ToFactor(t) == OneItem(Paren(e));
        assert YieldExpr(e) == Print(t, 0) && EvalExpr(e) == EvalTree(t);
        assert YieldItem(Paren(e)) == Print(t, 2) && Print(t, 1) == Print(t, 2);
      case MulOf(mul) =>
        var f := Product(ToFactor(t.left), mul, ToItem(t.right));
        assert ToFactor(t) == f && ToExpr(t) == OneFactor(f) && ToItem(t) == Paren(OneFactor(f));
        assert YieldFactor(f) == Print(t, 1) && Print(t, 0) == Print(t, 1) && EvalFactor(f) == EvalTree(t);
        assert EvalExpr(OneFactor(f)) == EvalTree(t) && YieldItem(Paren(OneFactor(f))) == Print(t, 2);
    } else {
      var i := Num(t.value);
      assert ToItem(t) == i && ToFactor(t) == OneItem(i) && ToExpr(t) == OneFactor(OneItem(i));
      assert YieldFactor(OneItem(i)) == [Number(t.value)] && EvalFactor(OneItem(i)) == Some(t.value);
    }
  }
}
