/** Lines of one operation, character by character, and the values they print. */
module CalcLines {
  import opened ByteStrings
  import opened CalcGrammar
  import opened CalcTokens
  import opened Calculator
  import opened Options
  import opened ParserTheorems

  function Joined(texts: seq<Bytes>): (s: Bytes) {
    if texts == [] then [] else texts[0] + Joined(texts[1..])
  }

  /** Without gaps the texts stand one after the other. */
  lemma {:induction false} RendersJoined(texts: seq<Bytes>, gaps: seq<Bytes>)
    requires |gaps| == |texts| && forall i :: 0 <= i < |gaps| ==> gaps[i] == []
    ensures Render(texts, gaps) == Joined(texts)
  {
    if texts != [] {
      RendersJoined(texts[1..], gaps[1..]);
    }
  }

  /** A line that prints a tree, written without blanks, calculates the value of the tree. */
  lemma LineCalculates(tree: Tree, v: int, texts: seq<Bytes>, lval: int)
    requires EvalTree(tree) == Some(v) && Spelled(Print(tree, 0) + [Eol], texts)
    ensures var q := Parse(TokensIn(Joined(texts)), lval); q.status.Accepted? && q.out == [v]
  {
    hide Parse, TokensIn, Spells, EvalTree, Print;
    var gaps: seq<Bytes> := seq(|texts|, i => []);
    assert [tree][..0] == [];
    assert PrintLines([tree]) == PrintLines([]) + Print(tree, 0) + [Eol];
    TextCalculates([tree], texts, gaps, lval);
    RendersJoined(texts, gaps);
  }

  /** What the five signs mean for natural numbers. */
  function Meaning(sign: char, a: nat, b: nat): (v: int)
    requires sign in "+-*/%" && (sign in "/%" ==> b > 0)
  {
    if sign == '+' then a + b
    else if sign == '-' then a - b
    else if sign == '*' then a * b
    else if sign == '/' then a / b
    else a % b
  }

  function OpOf(sign: char): (op: Op)
    requires sign in "+-*/%"
  {
    if sign == '+' then AddOf(Add)
    else if sign == '-' then AddOf(Subtract)
    else if sign == '*' then MulOf(Multiply)
    else if sign == '/' then MulOf(Divide)
    else MulOf(Remainder)
  }

  lemma SignIsSpelled(sign: char)
    requires sign in "+-*/%"
    ensures sign < 128 as char && Spells(OpToken(OpOf(sign)), Ascii([sign]))
  {
  }

  lemma OperationHasMeaning(sign: char, a: nat, b: nat)
    requires sign in "+-*/%" && (sign in "/%" ==> b > 0)
    ensures EvalTree(Node(OpOf(sign), Leaf(a), Leaf(b))) == Some(Meaning(sign, a, b))
  {
    if b > 0 {
      DivisionTruncates(a, b, a / b, a % b);
    }
  }

  lemma OperationPrints(op: Op, a: int, b: int)
    ensures Print(Node(op, Leaf(a), Leaf(b)), 0) == [Number(a), OpToken(op), Number(b)]
  {
    var t := Node(op, Leaf(a), Leaf(b));
    assert Print(t.left, Level(t)) == [Number(a)] && Print(t.right, Level(t) + 1) == [Number(b)];
  }

  /** A number, a sign, a number and the end of the line print the number the sign means. */
  lemma OperationIsPrinted(sign: char, a: nat, b: nat, x: Bytes, y: Bytes, lval: int)
    requires sign in "+-*/%" && (sign in "/%" ==> b > 0) && Spells(Number(a), x) && Spells(Number(b), y)
    ensures sign < 128 as char
    ensures var q := Parse(TokensIn(x + (Ascii([sign]) + (y + Ascii("\n")))), lval);
            q.status.Accepted? && q.out == [Meaning(sign, a, b)]
  {
    hide Parse, TokensIn, Spells, Ascii, EvalTree, Print, OpOf, Meaning;
    var tree := Node(OpOf(sign), Leaf(a), Leaf(b));
    SignIsSpelled(sign);
    EndIsSpelled();
    OperationHasMeaning(sign, a, b);
    OperationPrints(OpOf(sign), a, b);
    var texts := [x, Ascii([sign]), y, Ascii("\n")];
    LineCalculates(tree, Meaning(sign, a, b), texts, lval);
    FourJoined(x, Ascii([sign]), y, Ascii("\n"));
  }

  lemma EndIsSpelled()
    ensures Spells(Eol, Ascii("\n"))
  {
  }

  lemma FourJoined(a: Bytes, b: Bytes, c: Bytes, d: Bytes)
    ensures Joined([a, b, c, d]) == a + (b + (c + d))
  {
    assert [a, b, c, d][1..] == [b, c, d] && [b, c, d][1..] == [c, d] && [c, d][1..] == [d] && [d][1..] == [];
    assert Joined([d]) == d + Joined([]) == d;
    assert Joined([c, d]) == c + d;
    assert Joined([b, c, d]) == b + (c + d);
  }
}
