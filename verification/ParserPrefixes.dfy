/** Where a parse stops on an error: what it has read so far can still become a sentence, and
    with the next token it no longer can. */
module ParserPrefixes {
  import opened ParserTables
  import opened CalcGrammar
  import opened ParserMachine
  import opened ParserCompleteness
  import opened ParserSoundness
  import opened ParserTheorems

  ghost predicate Viable(ts: seq<Token>) {
    exists lines :: ts <= YieldLines(lines)
  }

  // ---- a described stack can be completed ---------------------------------------------

  lemma {:induction false} CompleteExpr(b: Stack, e: Expr)
    requires Sound(b) && WantsExpr(TopState(b))
    ensures Viable(Tokens(b) + YieldExpr(e))
    decreases b, 0
  {
    if b.state == 1 {
      CompleteLine(b, e);
    } else {
      assert b.symbol == Tok(LParen);
      CompleteItem(b.below, Paren(e));
      assert Tokens(b.below) + YieldItem(Paren(e)) == Tokens(b) + YieldExpr(e) + [RParen];
      StaysViable(Tokens(b) + YieldExpr(e), [RParen]);
    }
  }

  lemma StaysViable(a: seq<Token>, b: seq<Token>)
    requires Viable(a + b)
    ensures Viable(a)
  {
    var lines :| a + b <= YieldLines(lines);
    assert a <= YieldLines(lines);
  }

  lemma CompleteLine(b: Stack, e: Expr)
    requires Sound(b) && b.Push? && b.state == 1
    ensures Viable(Tokens(b) + YieldExpr(e))
  {
    hide YieldExpr;
    assert Sound(b.below) && b.below.Bottom? && b.symbol.CalcOf?;
    var lines := b.symbol.lines;
    assert (lines + [e])[..|lines|] == lines;
    assert Tokens(b) + YieldExpr(e) <= YieldLines(lines + [e]);
  }

  lemma {:induction false} CompleteFactor(b: Stack, f: Factor)
    requires Sound(b) && WantsFactor(TopState(b))
    ensures Viable(Tokens(b) + YieldFactor(f))
    decreases b, 1
  {
    if WantsExpr(b.state) {
      CompleteExpr(b, OneFactor(f));
    } else {
      var op, c := UnderPlus(b);
      CompleteExpr(c.below, Sum(c.symbol.expr, op, f));
      PlusTokens(b, op, f);
    }
  }

  lemma UnderPlus(b: Stack) returns (op: AddOp, c: Stack)
    requires Sound(b) && b.Push? && b.state in {9, 10}
    ensures b.symbol == Tok(AddToken(op)) && c == b.below && c.Push? && c.symbol.ExprOf?
    ensures Sound(c.below) && WantsExpr(TopState(c.below))
  {
    op, c := if b.state == 9 then Add else Subtract, b.below;
    assert Sound(c) && (c.state == 5 || c.state == 8);
  }

  lemma PlusTokens(b: Stack, op: AddOp, f: Factor)
    requires b.Push? && b.symbol == Tok(AddToken(op)) && b.below.Push? && b.below.symbol.ExprOf?
    ensures var c := b.below; Tokens(c.below) + YieldExpr(Sum(c.symbol.expr, op, f)) == Tokens(b) + YieldFactor(f)
  {
    hide YieldFactor;
    var c := b.below;
    var x, y, z := Tokens(c.below), YieldExpr(c.symbol.expr), YieldFactor(f);
    assert Tokens(b) == x + y + [AddToken(op)];
    assert x + (y + [AddToken(op)] + z) == (x + y + [AddToken(op)]) + z;
  }

  lemma {:induction false} CompleteItem(b: Stack, i: Item)
    requires Sound(b) && WantsItem(TopState(b))
    ensures Viable(Tokens(b) + YieldItem(i))
    decreases b, 2
  {
    if WantsFactor(b.state) {
      CompleteFactor(b, OneItem(i));
    } else {
      var op, c := UnderTimes(b);
      CompleteFactor(c.below, Product(c.symbol.factor, op, i));
      TimesTokens(b, op, i);
    }
  }

  lemma UnderTimes(b: Stack) returns (op: MulOp, c: Stack)
    requires Sound(b) && b.Push? && b.state in {12, 13, 14}
    ensures b.symbol == Tok(MulToken(op)) && c == b.below && c.Push? && c.symbol.FactorOf?
    ensures Sound(c.below) && WantsFactor(TopState(c.below))
  {
    op, c := if b.state == 12 then Multiply else if b.state == 13 then Divide else Remainder, b.below;
    assert Sound(c) && (c.state == 6 || c.state == 16 || c.state == 17);
  }

  lemma TimesTokens(b: Stack, op: MulOp, i: Item)
    requires b.Push? && b.symbol == Tok(MulToken(op)) && b.below.Push? && b.below.symbol.FactorOf?
    ensures var c := b.below; Tokens(c.below) + YieldFactor(Product(c.symbol.factor, op, i)) == Tokens(b) + YieldItem(i)
  {
    hide YieldItem;
    var c := b.below;
    var x, y, z := Tokens(c.below), YieldFactor(c.symbol.factor), YieldItem(i);
    assert Tokens(b) == x + y + [MulToken(op)];
    assert x + (y + [MulToken(op)] + z) == (x + y + [MulToken(op)]) + z;
  }

  lemma Shorter(a: seq<Token>, b: seq<Token>)
    requires Viable(b) && a <= b
    ensures Viable(a)
  {
    var lines :| b <= YieldLines(lines);
    assert a <= YieldLines(lines);
  }

  lemma OpenStackIsViable(s: Stack)
    requires Sound(s) && WantsItem(TopState(s))
    ensures Viable(Tokens(s))
  {
    CompleteItem(s, Num(0));
    Shorter(Tokens(s), Tokens(s) + YieldItem(Num(0)));
  }

  lemma ClosedStackIsViable(s: Stack)
    requires Sound(s) && s.Push? && (s.state == 11 || s.state == 15)
    ensures Viable(Tokens(s))
  {
    if s.state == 11 {
      var lines, v1, e, v := PeelLine(s);
      TokensOfThree(s, Bottom, 1, CalcOf(lines), v1, 5, ExprOf(e), v);
      assert (lines + [e])[..|lines|] == lines;
      assert Tokens(s) <= YieldLines(lines + [e]);
    } else {
      var b, v1, e, v := PeelParen(s);
      TokensOfThree(s, b, 4, Tok(LParen), v1, 8, ExprOf(e), v);
      CompleteItem(b, Paren(e));
      assert YieldItem(Paren(e)) == [LParen] + YieldExpr(e) + [RParen];
    }
  }

  lemma StackIsViable(s: Stack)
    requires Sound(s)
    ensures Viable(Tokens(s))
  {
    if s.Bottom? {
      assert Tokens(s) <= YieldLines([]);
    } else if WantsItem(s.state) {
      OpenStackIsViable(s);
    } else if s.state == 11 || s.state == 15 {
      ClosedStackIsViable(s);
    } else {
      match s.symbol
      case Tok(Number(v)) => CompleteItem(s.below, Num(v));
      case ItemOf(i) => CompleteItem(s.below, i);
      case FactorOf(f) => CompleteFactor(s.below, f);
      case ExprOf(e) => CompleteExpr(s.below, e);
      case _ => assert false;
    }
  }

  // ---- the next token decides -----------------------------------------------------------

  /** One move reads no further than the next token. */
  lemma ActInLockstep(p: Parser, action: Action, a: seq<Token>, x: seq<Token>, y: seq<Token>) returns (b: seq<Token>)
    requires WfParser(p) && Legal(action) && p.rest == a + x && a != []
    ensures Act(p, action).rest == b + x && Act(p.(rest := a + y), action) == Act(p, action).(rest := b + y)
  {
    hide Reduced;
    match action
    case Shift(state) =>
      assert (a + x)[1..] == a[1..] + x && (a + y)[1..] == a[1..] + y;
      b := a[1..];
    case Reduce(rule) =>
      ReducedInLockstep(p, rule, a + y);
      b := a;
    case _ => b := a;
  }

  /** A reduction does not look at the tokens to come. */
  lemma ReducedInLockstep(p: Parser, rule: nat, rest: seq<Token>)
    requires WfParser(p) && 0 < rule < |YYR2|
    ensures Reduced(p, rule).rest == p.rest && Reduced(p.(rest := rest), rule) == Reduced(p, rule).(rest := rest)
  {
    hide Semantic, TableGoto;
  }

  lemma StepInLockstep(p: Parser, a: seq<Token>, x: seq<Token>, y: seq<Token>) returns (b: seq<Token>)
    requires WfParser(p) && p.rest == a + x && a != []
    ensures Step(p).rest == b + x && Step(p.(rest := a + y)) == Step(p).(rest := b + y)
  {
    if p.status.Running? {
      assert Ahead(a + x) == Internal(a[0]) == Ahead(a + y);
      ActionInRange(Top(p.states), Ahead(p.rest));
      b := ActInLockstep(p, TableAction(Top(p.states), Ahead(p.rest)), a, x, y);
    } else {
      b := a;
    }
  }

  lemma {:induction false} Lockstep(p: Parser, a: seq<Token>, x: seq<Token>, y: seq<Token>, n: nat)
    returns (b: seq<Token>)
    requires WfParser(p) && p.rest == a + x && |Iterate(p, n).rest| > |x|
    ensures Iterate(p.(rest := a + y), n) == Iterate(p, n).(rest := b + y)
    decreases n
  {
    OutputGrows(p, n);
    if n == 0 {
      b := a;
    } else {
      var a' := StepInLockstep(p, a, x, y);
      b := Lockstep(Step(p), a', x, y, n - 1);
    }
  }

  /** Where a parse stops on an error, the tokens read so far start a sentence; with the next
      token they start none, and if there is no next token the input is not a sentence. */
  lemma ErrorIsAtFirstBadToken(input: seq<Token>, lval: int)
    requires Parse(input, lval).status.Aborted?
    ensures var k := |input| - |Parse(input, lval).rest|;
            && 0 <= k && input[k..] == Parse(input, lval).rest
            && Viable(input[..k]) && !Sentence(input)
            && (k < |input| ==> !Viable(input[..k + 1]))
  {
    var q := Parse(input, lval);
    var t := ResultIsDescribed(input, lval);
    var k := |input| - |q.rest|;
    assert input[..k] == Tokens(t) && input[k..] == q.rest;
    StackIsViable(t);
    RejectionsAreRight(input, lval);
    if k < |input| {
      forall lines
        ensures !(input[..k + 1] <= YieldLines(lines))
      {
        NoSentenceGoesOn(input, lval, lines, k);
      }
    }
  }

  lemma NoSentenceGoesOn(input: seq<Token>, lval: int, lines: seq<Expr>, k: nat)
    requires Parse(input, lval).status.Aborted? && k < |input| && |input| - |Parse(input, lval).rest| == k
    ensures !(input[..k + 1] <= YieldLines(lines))
  {
    var a, x, ts := input[..k + 1], input[k + 1..], YieldLines(lines);
    if a <= ts {
      var y := ts[k + 1..];
      assert input == a + x && ts == a + y;
      var b := Lockstep(Start(input, lval), a, x, y, Bound(input));
      assert Start(input, lval).(rest := a + y) == Start(ts, lval);
      ReachedIsResult(ts, lval, Iterate(Start(ts, lval), Bound(input)));
      SentencesAreParsed(lines, lval);
      assert false;
    }
  }
}
