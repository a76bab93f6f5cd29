/** What a whole parse does: it stops within a number of moves linear in the input, accepts
    exactly the sentences of the grammar that can be evaluated, prints the values of the lines
    it completed, and rejects at the first token no sentence could go on with. */
module ParserTheorems {
  import opened Options
  import opened ParserTables
  import opened CalcGrammar
  import opened ParserMachine
  import opened ParserCompleteness
  import opened ParserSoundness

  // ---- sentences are parsed line by line ---------------------------------------------

  /** Between two lines. */
  predicate AtLine(p: Parser) {
    p.states == [0, 1] && |p.vals| == 2 && p.status.Running?
  }

  lemma ParseLine(p: Parser, e: Expr, rest: seq<Token>) returns (q: Parser)
    requires AtLine(p) && p.rest == YieldExpr(e) + ([Eol] + rest)
    ensures WfParser(p) && Reaches(p, q) && WfParser(q)
    ensures if EvalExpr(e).Some? then q == p.(rest := rest, lval := q.lval, out := p.out + [EvalExpr(e).value])
            else q.status.Trapped? && q.out == p.out
  {
    q := ParseExpr(p, e, [Eol] + rest);
    if EvalExpr(e).Some? {
      var v := EvalExpr(e).value;
      var p2 := ShiftMove(q, Eol, rest, 11);
      ReachesTrans(p, q, p2);
      ReduceMove(p2, 3);
      ReachesTrans(p, p2, Reduced(p2, 3));
      LineReduced(p, q, p2, v, rest);
      q := Reduced(p2, 3);
    }
  }

  lemma LineReduced(p: Parser, p1: Parser, p2: Parser, v: int, rest: seq<Token>)
    requires AtLine(p) && Landed(p, p1, 5, v, p1.rest) && WfParser(p2) && Landed(p1, p2, 11, p1.lval, rest)
    ensures Reduced(p2, 3) == p.(rest := rest, lval := p2.lval, out := p.out + [v])
  {
    var base := p.(states := [0], vals := p.vals[..1]);
    assert p.vals == base.vals + [p.vals[1]];
    assert p2.states == base.states + [1, 5, 11] && p2.vals == base.vals + [p.vals[1], v, p1.lval];
    ReducedLine(base, p2, p.vals[1], v, p1.lval, rest);
  }

  lemma {:induction false} YieldLinesAppend(a: seq<Expr>, b: seq<Expr>)
    ensures YieldLines(a + b) == YieldLines(a) + YieldLines(b)
    decreases |b|
  {
    hide YieldExpr;
    if b == [] {
      assert a + b == a;
    } else {
      var n, all := |b| - 1, a + b;
      var init, e := b[..n], b[n];
      assert all[..|all| - 1] == a + init && all[|all| - 1] == e;
      YieldLinesAppend(a, init);
      var x, y, z := YieldLines(a), YieldLines(init), YieldExpr(e);
      assert (x + y) + z + [Eol] == x + (y + z + [Eol]);
    }
  }

  lemma YieldLinesFirst(lines: seq<Expr>)
    requires lines != []
    ensures YieldLines(lines) == YieldExpr(lines[0]) + ([Eol] + YieldLines(lines[1..]))
  {
    hide YieldExpr;
    var first, rest := [lines[0]], lines[1..];
    assert lines == first + rest;
    YieldLinesAppend(first, rest);
    YieldOne(lines[0]);
    var x, y := YieldExpr(lines[0]), YieldLines(rest);
    assert (x + [Eol]) + y == x + ([Eol] + y);
  }

  lemma YieldOne(e: Expr)
    ensures YieldLines([e]) == YieldExpr(e) + [Eol]
  {
    assert [e][..0] == [];
    assert YieldLines([e]) == YieldLines([]) + YieldExpr(e) + [Eol];
  }

  /** How many lines come before the first one without a value. */
  function Leading(lines: seq<Expr>): (n: nat)
    ensures n <= |lines| && AllEvaluate(lines[..n])
    ensures n < |lines| ==> EvalExpr(lines[n]).None?
  {
    if lines == [] || EvalExpr(lines[0]).None? then 0
    else
      var n := Leading(lines[1..]);
      assert lines[..n + 1] == [lines[0]] + lines[1..][..n];
      n + 1
  }

  /** Lines that have values are read and printed one after the other. */
  lemma {:induction false} ParseGoodLines(p: Parser, lines: seq<Expr>, tail: seq<Token>) returns (q: Parser)
    requires AtLine(p) && p.rest == YieldLines(lines) + tail && AllEvaluate(lines)
    ensures WfParser(p) && Reaches(p, q) && q == p.(rest := tail, lval := q.lval, out := p.out + Values(lines))
    decreases |lines|
  {
    if lines == [] {
      q := p;
      ReachesSelf(p);
    } else {
      var init, e := lines[..|lines| - 1], lines[|lines| - 1];
      assert lines == init + [e];
      ValuesSnoc(init, e);
      assert p.rest == YieldLines(init) + (YieldExpr(e) + ([Eol] + tail));
      var p1 := ParseGoodLines(p, init, YieldExpr(e) + ([Eol] + tail));
      q := ParseLine(p1, e, tail);
      ReachesTrans(p, p1, q);
    }
  }

  /** The outcome of a sentence: it is accepted when every line has a value, and otherwise
      the first line without one traps after the values of the earlier lines are printed. */
  predicate Finishes(q: Parser, lines: seq<Expr>) {
    && q.out == Values(lines[..Leading(lines)])
    && q.status == (if Leading(lines) == |lines| then Accepted else Trapped)
  }

  lemma FirstLine(input: seq<Token>, lval: int) returns (p: Parser)
    ensures AtLine(p) && p.rest == input && p.out == [] && Reaches(Start(input, lval), p)
  {
    var start := Start(input, lval);
    ReduceMove(start, 2);
    GotosDecode(0, CALC);
    assert start.states[..1] == [0] && start.vals[..1] == [0];
    p := Reduced(start, 2);
    assert p == start.(states := [0, 1], vals := [0, 0]);
  }

  lemma ParseSentence(lines: seq<Expr>, lval: int) returns (q: Parser)
    ensures Reaches(Start(YieldLines(lines), lval), q) && Finishes(q, lines)
  {
    hide Step, Reaches;
    var p := FirstLine(YieldLines(lines), lval);
    var n := Leading(lines);
    assert lines == lines[..n] + lines[n..];
    YieldLinesAppend(lines[..n], lines[n..]);
    q := ParseGoodLines(p, lines[..n], YieldLines(lines[n..]));
    ReachesTrans(Start(YieldLines(lines), lval), p, q);
    var r := LastLine(q, lines, n);
    ReachesTrans(Start(YieldLines(lines), lval), q, r);
    q := r;
  }

  lemma LastLine(p: Parser, lines: seq<Expr>, n: nat) returns (q: Parser)
    requires AtLine(p) && n == Leading(lines) && p.rest == YieldLines(lines[n..]) && p.out == Values(lines[..n])
    ensures WfParser(p) && Reaches(p, q) && Finishes(q, lines)
  {
    if n == |lines| {
      q := p.(status := Accepted);
      ActionsDecode(1, END);
      OneStep(p, q);
    } else {
      YieldLinesFirst(lines[n..]);
      q := ParseLine(p, lines[n], YieldLines(lines[n..][1..]));
    }
  }

  // ---- every run is described and ends -----------------------------------------------

  /** s describes p, and p has at most `moves` moves left. */
  ghost predicate Described(p: Parser, s: Stack, input: seq<Token>, moves: int) {
    (Inv(p, s, input) && Justified(p, s, input) && (p.status.Running? ==> Measure(p, s) <= moves)) == true
  }

  ghost predicate Describable(p: Parser, input: seq<Token>, moves: int) {
    exists s :: Described(p, s, input, moves)
  }

  lemma StepIsDescribable(p: Parser, input: seq<Token>, moves: int)
    requires WfParser(p) && p.status.Running? && Describable(p, input, moves)
    ensures Describable(Step(p), input, moves - 1) && !Step(p).status.Broken? && moves >= 0
  {
    var s :| Described(p, s, input, moves);
    var t := StepKeeps(p, s, input);
    assert Described(Step(p), t, input, moves - 1);
  }

  lemma NextIsDescribable(p: Parser, input: seq<Token>, moves: int) returns (q: Parser)
    requires WfParser(p) && p.status.Running? && Describable(p, input, moves)
    ensures WfParser(q) && Describable(q, input, moves - 1)
    ensures forall n: nat | n > 0 :: Iterate(p, n) == Iterate(q, n - 1)
  {
    q := Step(p);
    StepIsDescribable(p, input, moves);
  }

  lemma StoppedIsDescribable(p: Parser, input: seq<Token>, n: nat, moves: int, left: int)
    requires WfParser(p) && !p.status.Running? && Describable(p, input, moves)
    ensures Describable(Iterate(p, n), input, left)
  {
    IterateStopped(p, n);
    var s :| Described(p, s, input, moves);
    assert Described(p, s, input, left);
  }

  lemma {:induction false} RunKeeps(p: Parser, input: seq<Token>, n: nat, moves: int, left: int)
    requires WfParser(p) && Describable(p, input, moves) && moves == left + n
    ensures Describable(Iterate(p, n), input, left)
    decreases n
  {
    hide Step, Describable;
    if !p.status.Running? {
      StoppedIsDescribable(p, input, n, moves, left);
    } else if n > 0 {
      var q := NextIsDescribable(p, input, moves);
      RunKeeps(q, input, n - 1, moves - 1, left);
      assert Iterate(p, n) == Iterate(q, n - 1);
    }
  }

  /** Moves within which every parse has stopped. */
  function Bound(input: seq<Token>): (n: nat) {
    10 * |input| + 2
  }

  function Parse(input: seq<Token>, lval: int): (q: Parser) {
    Iterate(Start(input, lval), Bound(input))
  }

  lemma StartIsDescribed(input: seq<Token>, lval: int)
    ensures Describable(Start(input, lval), input, 10 * |input| + 1)
  {
    assert Values([]) == [];
    assert Described(Start(input, lval), Bottom, input, 10 * |input| + 1);
  }

  lemma ResultIsDescribed(input: seq<Token>, lval: int) returns (t: Stack)
    ensures Described(Parse(input, lval), t, input, -1)
  {
    var p := Start(input, lval);
    StartIsDescribed(input, lval);
    RunKeeps(p, input, Bound(input), 10 * |input| + 1, -1);
    t :| Described(Parse(input, lval), t, input, -1);
  }

  /** Every parse stops, after a number of moves linear in the input, in one of three ways. */
  lemma ParserStops(input: seq<Token>, lval: int)
    ensures Parse(input, lval).status in {Accepted, Aborted, Trapped}
  {
    var t := ResultIsDescribed(input, lval);
  }

  lemma StoppedTwice(p: Parser, m: nat, n: nat)
    requires WfParser(p) && !Iterate(p, m).status.Running? && !Iterate(p, n).status.Running?
    ensures Iterate(p, m) == Iterate(p, n)
  {
    hide Step;
    IterateLater(p, m, m + n);
    IterateLater(p, n, m + n);
  }

  /** A stopped state that a run reaches is the result of the parse. */
  lemma ReachedIsResult(input: seq<Token>, lval: int, q: Parser)
    requires Reaches(Start(input, lval), q) && !q.status.Running?
    ensures q == Parse(input, lval)
  {
    var p := Start(input, lval);
    var n: nat :| Iterate(p, n) == q;
    ParserStops(input, lval);
    StoppedTwice(p, n, Bound(input));
  }

  // ---- what the result says about the input ------------------------------------------

  /** Completeness: a sentence is accepted with the values of its lines, or traps in the first
      line that has no value. */
  lemma SentencesAreParsed(lines: seq<Expr>, lval: int)
    ensures Finishes(Parse(YieldLines(lines), lval), lines)
  {
    var q := ParseSentence(lines, lval);
    ReachedIsResult(YieldLines(lines), lval, q);
  }

  /** lines is a way to read ts in which every line has a value. */
  predicate Reading(ts: seq<Token>, lines: seq<Expr>) {
    YieldLines(lines) == ts && AllEvaluate(lines)
  }

  lemma ReadingIsAccepted(input: seq<Token>, lval: int, lines: seq<Expr>)
    requires Reading(input, lines)
    ensures Parse(input, lval).status.Accepted? && Parse(input, lval).out == Values(lines)
  {
    SentencesAreParsed(lines, lval);
    assert lines[..|lines|] == lines;
  }

  /** A parse is accepted exactly when the input can be read as lines that have values, and
      then it prints those values, whichever way the lines are read. */
  lemma AcceptsExactlyReadings(input: seq<Token>, lval: int)
    ensures Parse(input, lval).status.Accepted? <==> exists lines :: Reading(input, lines)
    ensures forall lines | Reading(input, lines) :: Parse(input, lval).out == Values(lines)
  {
    var t := ResultIsDescribed(input, lval);
    if Parse(input, lval).status.Accepted? {
      assert Tokens(t) == YieldLines(t.symbol.lines) && Tokens(t) + [] == Tokens(t);
      assert Reading(input, Done(t));
    }
    forall lines | Reading(input, lines)
      ensures Parse(input, lval).status.Accepted? && Parse(input, lval).out == Values(lines)
    {
      ReadingIsAccepted(input, lval, lines);
    }
  }

  /** A parse stops with an error only outside the grammar, and traps only where something is
      divided by zero. */
  lemma RejectionsAreRight(input: seq<Token>, lval: int)
    ensures Parse(input, lval).status.Aborted? ==> !Sentence(input)
    ensures Parse(input, lval).status.Trapped? ==> DividesByZero(input)
  {
    var t := ResultIsDescribed(input, lval);
    forall lines | YieldLines(lines) == input
      ensures !Parse(input, lval).status.Aborted?
    {
      SentencesAreParsed(lines, lval);
    }
  }

  // ---- what is printed ------------------------------------------------------------------

  lemma {:induction false} OutputGrows(p: Parser, n: nat)
    requires WfParser(p)
    ensures p.out <= Iterate(p, n).out && |Iterate(p, n).rest| <= |p.rest|
    decreases n
  {
    if n > 0 {
      StepGrows(p);
      OutputGrows(Step(p), n - 1);
    }
  }

  lemma StepGrows(p: Parser)
    requires WfParser(p)
    ensures p.out <= Step(p).out && |Step(p).rest| <= |p.rest|
  {
  }

  lemma OutputBeforeStop(p: Parser, m: nat, n: nat)
    requires WfParser(p) && !Iterate(p, n).status.Running?
    ensures Iterate(p, m).out <= Iterate(p, n).out
  {
    IterateAdd(p, m, n);
    IterateAdd(p, n, m);
    assert m + n == n + m;
    IterateStopped(Iterate(p, n), m);
    OutputGrows(Iterate(p, m), n);
  }

  lemma ReachedIsPrinted(input: seq<Token>, lval: int, q: Parser)
    requires Reaches(Start(input, lval), q)
    ensures q.out <= Parse(input, lval).out
  {
    var p := Start(input, lval);
    var n: nat :| Iterate(p, n) == q;
    ParserStops(input, lval);
    OutputBeforeStop(p, n, Bound(input));
  }

  /** The input starts with these lines, and they all have values. */
  predicate Leads(input: seq<Token>, lines: seq<Expr>, tail: seq<Token>) {
    input == YieldLines(lines) + tail && AllEvaluate(lines)
  }

  lemma LinesArePrinted(input: seq<Token>, lval: int, lines: seq<Expr>, tail: seq<Token>)
    requires Leads(input, lines, tail)
    ensures Values(lines) <= Parse(input, lval).out
  {
    var p := FirstLine(input, lval);
    var q := ParseGoodLines(p, lines, tail);
    ReachesTrans(Start(input, lval), p, q);
    ReachedIsPrinted(input, lval, q);
  }

  lemma {:induction false} DoneIsPrefix(s: Stack)
    requires Sound(s)
    ensures YieldLines(Done(s)) <= Tokens(s)
  {
    if s.Push? {
      if s.symbol.CalcOf? {
        assert Sound(s.below) && s.below.Bottom?;
      } else {
        DoneIsPrefix(s.below);
      }
    }
  }

  lemma DoneLinesLead(p: Parser, t: Stack, input: seq<Token>) returns (tail: seq<Token>)
    requires Inv(p, t, input)
    ensures Leads(input, Done(t), tail)
  {
    hide Inv, Tokens, Sound, YieldLines, Done;
    InvTokens(p, t, input);
    DoneIsPrefix(t);
    var lines, tokens := YieldLines(Done(t)), Tokens(t);
    var more := tokens[|lines|..];
    assert tokens == lines + more;
    assert (lines + more) + p.rest == lines + (more + p.rest);
    tail := more + p.rest;
  }

  lemma InvTokens(p: Parser, t: Stack, input: seq<Token>)
    requires Inv(p, t, input)
    ensures input == Tokens(t) + p.rest && Sound(t) && AllEvaluate(Done(t))
  {
  }

  /** Whatever the outcome, what is printed is the values of lines at the start of the input,
      and of every such line: complete lines before an error are never lost. */
  lemma PrintsTheLeadingLines(input: seq<Token>, lval: int)
    ensures exists lines, tail :: Leads(input, lines, tail) && Parse(input, lval).out == Values(lines)
    ensures forall lines, tail | Leads(input, lines, tail) :: Values(lines) <= Parse(input, lval).out
  {
    var t := ResultIsDescribed(input, lval);
    var tail := DoneLinesLead(Parse(input, lval), t, input);
    forall lines, tail | Leads(input, lines, tail)
      ensures Values(lines) <= Parse(input, lval).out
    {
      LinesArePrinted(input, lval, lines, tail);
    }
  }

  // ---- printed trees --------------------------------------------------------------------

  /** Expression trees, printed one to a line. */
  function PrintLines(trees: seq<Tree>): (ts: seq<Token>) {
    if trees == [] then []
    else PrintLines(trees[..|trees| - 1]) + Print(trees[|trees| - 1], 0) + [Eol]
  }

  function Exprs(trees: seq<Tree>): (lines: seq<Expr>) {
    seq(|trees|, i requires 0 <= i < |trees| => ToExpr(trees[i]))
  }

  lemma {:induction false} PrintedLinesAreDerived(trees: seq<Tree>)
    ensures YieldLines(Exprs(trees)) == PrintLines(trees)
  {
    if trees != [] {
      var n := |trees| - 1;
      PrintedLinesAreDerived(trees[..n]);
      PrintedTreeIsDerived(trees[n]);
      assert Exprs(trees)[..n] == Exprs(trees[..n]);
    }
  }

  /** Round trip: parsing printed trees prints their values, in order, exactly when they all
      have one. */
  lemma PrintThenParse(trees: seq<Tree>, lval: int)
    ensures var q := Parse(PrintLines(trees), lval);
            if forall i :: 0 <= i < |trees| ==> EvalTree(trees[i]).Some?
            then q.status.Accepted? && |q.out| == |trees|
                 && forall i :: 0 <= i < |trees| ==> EvalTree(trees[i]) == Some(q.out[i])
            else q.status.Trapped?
  {
    var lines := Exprs(trees);
    forall i | 0 <= i < |trees|
      ensures EvalExpr(lines[i]) == EvalTree(trees[i])
    {
      PrintedTreeIsDerived(trees[i]);
    }
    PrintedLinesAreDerived(trees);
    SentencesAreParsed(lines, lval);
    if Leading(lines) == |lines| {
      assert lines[..|lines|] == lines;
    } else {
      assert EvalTree(trees[Leading(lines)]).None?;
    }
  }
}
