/** The scanner and the parser together: expressions written as text come out as their values. */
module Calculator {
  import opened Options
  import opened ByteStrings
  import opened CalcGrammar
  import opened CalcTokens
  import D = ParserSoundness
  import L = LexSpec
  import S = FlexScanner
  import M = ParserMachine
  import P = ParserPrefixes
  import T = ParserTheorems
  import Y = YyParse

  // ---- numbers ------------------------------------------------------------------------------------

  function DigitsOf(n: nat): (text: Bytes)
    ensures L.Digits(text)
  {
    var last: Byte := (48 + n % 10) as Byte;
    if n < 10 then [last] else DigitsOf(n / 10) + [last]
  }

  lemma {:induction false} DigitsHaveValue(n: nat)
    ensures DecimalValue(DigitsOf(n)) == n
  {
    if n >= 10 {
      DigitsHaveValue(n / 10);
      assert DigitsOf(n)[..|DigitsOf(n)| - 1] == DigitsOf(n / 10);
    }
  }

  lemma TensCount()
    ensures DecimalValue(Ascii("42")) == 42
  {
    var text := Ascii("42");
    assert text[..1] == [52] && [52][..0] == [];
    assert DecimalValue([52]) == 4;
  }

  // ---- tokens and their text ------------------------------------------------------------------------

  /** The text is digits of value v, and perhaps a dot and more digits, which do not count. */
  predicate SpellsNumber(v: int, text: Bytes, k: nat) {
    && k <= |text| && L.Digits(text[..k]) && DecimalValue(text[..k]) == v
    && (k < |text| ==> text[k] == 46 && L.Digits(text[k + 1..]))
  }

  function Ascii(s: string): (text: Bytes)
    requires forall i :: 0 <= i < |s| ==> s[i] < 128 as char
  {
    seq(|s|, i requires 0 <= i < |s| => s[i] as int as Byte)
  }

  /** A text a token is written as. */
  ghost predicate Spells(t: Token, text: Bytes) {
    match t
    case Plus => text == Ascii("+")
    case Minus => text == Ascii("-")
    case Mul => text == Ascii("*")
    case Div => text == Ascii("/")
    case Mod => text == Ascii("%")
    case Number(v) => exists k: nat :: SpellsNumber(v, text, k)
    case LParen => text == Ascii("(")
    case RParen => text == Ascii(")")
    case Eol => text == Ascii("\n")
    case Other => false
  }

  ghost predicate Spelled(ts: seq<Token>, texts: seq<Bytes>) {
    |texts| == |ts| && forall i :: 0 <= i < |ts| ==> Spells(ts[i], texts[i])
  }

  /** Every natural number has a spelling. */
  lemma DigitsSpell(n: nat)
    ensures Spells(Number(n), DigitsOf(n))
  {
    var text := DigitsOf(n);
    assert text[..|text|] == text;
    DigitsHaveValue(n);
    assert SpellsNumber(n, text, |text|);
  }

  predicate Blank(gap: Bytes) {
    forall i :: 0 <= i < |gap| ==> gap[i] in {9, 11, 13, 32}
  }

  /** Gaps to put after tokens: blank, and not empty between two numbers. */
  predicate Separates(ts: seq<Token>, gaps: seq<Bytes>) {
    && |gaps| == |ts| && (forall i :: 0 <= i < |ts| ==> Blank(gaps[i]))
    && (forall i :: 0 <= i < |ts| - 1 && ts[i].Number? && ts[i + 1].Number? ==> gaps[i] != [])
  }

  /** Texts of tokens, with a gap after each. */
  function Render(texts: seq<Bytes>, gaps: seq<Bytes>): (s: Bytes)
    requires |gaps| == |texts|
  {
    if texts == [] then [] else texts[0] + (gaps[0] + Render(texts[1..], gaps[1..]))
  }

  /** What may follow a number without becoming part of it. */
  predicate EndsNumber(after: Bytes) {
    after == [] || (!L.Digit(after[0]) && after[0] != 46)
  }

  /** A token's text is the next match, and gives the token, if what follows does not continue a number. */
  lemma TokenIsMatched(t: Token, text: Bytes, after: Bytes)
    requires Spells(t, text) && (t.Number? ==> EndsNumber(after))
    ensures var s := text + after;
            && s != [] && L.MatchLength(s) == |text| && L.MatchRule(s) <= L.NUMBER_RULE
            && TokenOf(L.Lexeme(L.MatchRule(s), text)) == t
  {
    var s := text + after;
    if t.Number? {
      var k: nat :| SpellsNumber(t.value, text, k);
      NumberIsMatched(text, k, after);
      ValueOfSpelling(t.value, text, k);
    } else {
      assert |text| == 1 && s[0] == text[0];
    }
  }

  lemma NumberIsMatched(text: Bytes, k: nat, after: Bytes)
    requires k <= |text| && L.Digits(text[..k]) && (k < |text| ==> text[k] == 46 && L.Digits(text[k + 1..]))
    requires EndsNumber(after)
    ensures var s := text + after; L.Digit(s[0]) && L.NumberLength(s) == |text|
  {
    var s := text + after;
    RunIs(s, text[..k], k);
    if k < |text| {
      assert s[k] == 46;
      var tail, more := s[k + 1..], text[k + 1..];
      assert tail == more + after;
      RunIs(tail, more, |more|);
    }
  }

  /** A run of digits ends where something else begins. */
  lemma RunIs(s: Bytes, digits: Bytes, k: nat)
    requires k == |digits| <= |s| && s[..k] == digits && L.Digits(digits) && (k < |s| ==> !L.Digit(s[k]))
    ensures L.DigitRun(s) == k && L.Digit(s[0])
  {
    assert forall i :: 0 <= i < k ==> s[i] == digits[i];
    L.RunIsLongest(s, k);
  }

  /** The value of a spelling is the value of the digits before the dot. */
  lemma ValueOfSpelling(v: int, text: Bytes, k: nat)
    requires SpellsNumber(v, text, k)
    ensures ValueOf(text) == v
  {
    RunIs(text, text[..k], k);
  }

  lemma {:induction false} GapIsSkipped(gap: Bytes, rest: Bytes)
    requires Blank(gap)
    ensures TokensIn(gap + rest) == TokensIn(rest) && L.Reports(gap + rest) == L.Reports(rest)
  {
    hide TokensIn, L.Reports;
    if gap == [] {
      assert gap + rest == rest;
    } else {
      var s := gap + rest;
      assert s[0] == gap[0] && s[1..] == gap[1..] + rest;
      BlankIsSkipped(s);
      GapIsSkipped(gap[1..], rest);
    }
  }

  lemma BlankIsSkipped(s: Bytes)
    requires s != [] && s[0] in {9, 11, 13, 32}
    ensures TokensIn(s) == TokensIn(s[1..]) && L.Reports(s) == L.Reports(s[1..])
  {
    hide L.Lexemes, L.Reports;
    L.SkipPiece(s);
    assert L.Report(s) == [];
    assert [] + L.Reports(s[1..]) == L.Reports(s[1..]);
  }

  lemma SpellingStarts(t: Token, text: Bytes)
    requires Spells(t, text)
    ensures text != [] && (!t.Number? ==> !L.Digit(text[0]) && text[0] != 46)
  {
  }

  /** What is rendered after a number does not continue it. */
  lemma RenderedEndsNumber(ts: seq<Token>, texts: seq<Bytes>, gaps: seq<Bytes>)
    requires ts != [] && Spelled(ts, texts) && Separates(ts, gaps) && ts[0].Number?
    ensures EndsNumber(gaps[0] + Render(texts[1..], gaps[1..]))
  {
    hide Spells;
    var rest := Render(texts[1..], gaps[1..]);
    if gaps[0] != [] {
      assert (gaps[0] + rest)[0] == gaps[0][0];
    } else if |ts| > 1 {
      SpellingStarts(ts[1], texts[1]);
      assert !ts[1].Number? && texts[1..][0] == texts[1];
      assert rest[0] == texts[1][0];
    }
  }

  /** Scanning a rendering of tokens, however they are spelled and spaced, gives them back and reports nothing. */
  lemma {:induction false} RenderThenScan(ts: seq<Token>, texts: seq<Bytes>, gaps: seq<Bytes>)
    requires Spelled(ts, texts) && Separates(ts, gaps)
    ensures TokensIn(Render(texts, gaps)) == ts && L.Reports(Render(texts, gaps)) == []
    decreases |ts|
  {
    hide L.MatchLength, L.MatchRule, Spells, TokensIn, L.Reports, L.Next, EndsNumber;
    if ts == [] {
      NothingIn();
    } else {
      var rest := Render(texts[1..], gaps[1..]);
      var after := gaps[0] + rest;
      if ts[0].Number? {
        RenderedEndsNumber(ts, texts, gaps);
      }
      FirstIsScanned(ts[0], texts[0], after);
      GapIsSkipped(gaps[0], rest);
      RenderThenScan(ts[1..], texts[1..], gaps[1..]);
      assert ts == [ts[0]] + ts[1..];
    }
  }

  /** The first token of a text is scanned, and the rest is what follows. */
  lemma FirstIsScanned(t: Token, text: Bytes, after: Bytes)
    requires Spells(t, text) && (t.Number? ==> EndsNumber(after))
    ensures TokensIn(text + after) == [t] + TokensIn(after) && L.Reports(text + after) == L.Reports(after)
  {
    hide L.MatchLength, L.MatchRule, Spells, L.Reports, L.Lexemes, L.Next, TokenOf;
    var s := text + after;
    TokenIsMatched(t, text, after);
    assert s[..|text|] == text && s[|text|..] == after;
    L.NextTakes(s);
    TokensNext(s);
    assert [] + L.Reports(after) == L.Reports(after);
  }

  // ---- the parser on a text ---------------------------------------------------------------------------

  /** What the end of a call means in terms of the grammar: 0 exactly when the tokens read as lines with values,
      which are printed; 1 only where they are no sentence; a trap only where something is divided by zero. */
  ghost predicate Means(ts: seq<Token>, outcome: Y.Outcome, out: seq<int>) {
    && (outcome == Y.Returned(0) || outcome == Y.Returned(1) || outcome == Y.DivisionTrap)
    && (outcome == Y.Returned(0) <==> exists lines :: T.Reading(ts, lines))
    && (forall lines | T.Reading(ts, lines) :: out == Values(lines))
    && (outcome == Y.Returned(1) ==> !Sentence(ts))
    && (outcome == Y.DivisionTrap ==> D.DividesByZero(ts))
  }

  lemma EndMeans(ts: seq<Token>, lval: int)
    ensures var q := T.Parse(ts, lval); Means(ts, Y.Code(q.status), q.out)
  {
    hide T.Parse;
    T.ParserStops(ts, lval);
    T.AcceptsExactlyReadings(ts, lval);
    T.RejectionsAreRight(ts, lval);
  }

  /** One call of the parser on a text: what it prints, how it ends and what it reports as unrecognized. */
  method Calculate(input: Bytes, sizes: seq<nat>, size: nat, lval: int, gotMemory: bool)
    returns (outcome: Y.Outcome, out: seq<int>, reports: Bytes)
    requires size > 0
    ensures if Y.Overflows(TokensIn(input), lval, Y.DepthLimit(gotMemory)) then outcome == Y.Returned(2)
            else outcome == Y.Code(T.Parse(TokensIn(input), lval).status) && out == T.Parse(TokensIn(input), lval).out
    ensures outcome == Y.Returned(2) || Means(TokensIn(input), outcome, out)
    ensures reports <= L.Reports(input) && (outcome == Y.Returned(0) ==> reports == L.Reports(input))
  {
    hide L.Reports, TokensIn, Means, T.Parse;
    EndMeans(TokensIn(input), lval);
    var scanner := new S.Scanner(input, sizes, size);
    assert scanner.printed + L.Reports(input) == L.Reports(input);
    var yylval;
    outcome, out, yylval := Y.Run(scanner, lval, gotMemory);
    reports := scanner.printed;
    NothingIn();
  }

  // ---- the program, which calls the parser again and again --------------------------------------------

  /** What the first n calls print: each goes on behind the token the one before ended with, unless that was ended by
      a division by zero. */
  function Calls(ts: seq<Token>, lval: int, n: nat): (out: seq<int>)
    decreases n
  {
    if n == 0 then []
    else
      var q := T.Parse(ts, lval);
      q.out + if q.status.Trapped? then [] else Calls(Y.Behind(q), Y.LastValue(q), n - 1)
  }

  lemma ParseShortens(ts: seq<Token>, lval: int)
    ensures var q := T.Parse(ts, lval); |Y.Behind(q)| < |ts| || ts == Y.Behind(q) == []
  {
    T.OutputGrows(M.Start(ts, lval), T.Bound(ts));
  }

  lemma NothingPrintsNothing(lval: int)
    ensures T.Parse([], lval).out == [] && Y.Behind(T.Parse([], lval)) == []
  {
    hide T.Parse;
    ParseShortens([], lval);
    T.PrintsTheLeadingLines([], lval);
    var lines, tail :| T.Leads([], lines, tail) && T.Parse([], lval).out == Values(lines);
    NoLines(lines, tail);
  }

  lemma NoLines(lines: seq<Expr>, tail: seq<Token>)
    requires T.Leads([], lines, tail)
    ensures Values(lines) == []
  {
  }

  lemma {:induction false} NothingMore(lval: int, n: nat)
    ensures Calls([], lval, n) == []
    decreases n
  {
    hide T.Parse;
    if n > 0 {
      NothingPrintsNothing(lval);
      NothingMore(Y.LastValue(T.Parse([], lval)), n - 1);
    }
  }

  /** Every call uses up a token, so that after as many calls as there are tokens nothing more is printed. */
  lemma {:induction false} CallsSettle(ts: seq<Token>, lval: int, n: nat)
    requires n >= |ts|
    ensures Calls(ts, lval, n) == Calls(ts, lval, |ts|)
    decreases |ts|
  {
    hide T.Parse;
    var q := T.Parse(ts, lval);
    ParseShortens(ts, lval);
    if ts == [] {
      NothingMore(lval, n);
    } else if !q.status.Trapped? {
      var rest := Y.Behind(q);
      CallsSettle(rest, Y.LastValue(q), n - 1);
      CallsSettle(rest, Y.LastValue(q), |ts| - 1);
    }
  }

  /** Token k of the text is the first with which what was read starts no sentence. */
  ghost predicate FirstBad(ts: seq<Token>, k: nat) {
    k <= |ts| && P.Viable(ts[..k]) && (k < |ts| ==> !P.Viable(ts[..k + 1]))
  }

  /** In terms of the grammar: a call prints the values of all lines that lead the text.  If it ends with an error, the
      next call reads on behind the first bad token, or there is none and everything has been read. */
  lemma CallsReadOn(ts: seq<Token>, lval: int, n: nat) returns (lines: seq<Expr>, tail: seq<Token>, k: nat)
    requires n > 0
    ensures var q := T.Parse(ts, lval);
            && T.Leads(ts, lines, tail) && (forall ls, tl | T.Leads(ts, ls, tl) :: Values(ls) <= Values(lines))
            && (q.status.Aborted? ==>
                  && FirstBad(ts, k) && !Sentence(ts)
                  && Y.Behind(q) == if k < |ts| then ts[k + 1..] else [])
            && Calls(ts, lval, n) ==
               Values(lines) + if q.status.Trapped? then [] else Calls(Y.Behind(q), Y.LastValue(q), n - 1)
  {
    hide T.Parse, Values, P.Viable;
    T.PrintsTheLeadingLines(ts, lval);
    lines, tail :| T.Leads(ts, lines, tail) && T.Parse(ts, lval).out == Values(lines);
    var q := T.Parse(ts, lval);
    k := 0;
    if q.status.Aborted? {
      P.ErrorIsAtFirstBadToken(ts, lval);
      k := |ts| - |q.rest|;
      assert Y.Behind(q) == if k < |ts| then ts[k + 1..] else [];
    }
  }

  /** What was printed, followed by what n more calls on the rest print, is what the calls on the whole print. */
  ghost predicate GoesOn(ts: seq<Token>, lval: int, calls: nat, out: seq<int>, rest: seq<Token>, yylval: int, n: nat) {
    out + Calls(rest, yylval, n) == Calls(ts, lval, calls) && |rest| <= |ts|
  }

  lemma FirstCall(ts: seq<Token>, lval: int, calls: nat)
    ensures GoesOn(ts, lval, calls, [], ts, lval, calls)
  {
  }

  lemma AllCalled(ts: seq<Token>, lval: int, calls: nat, out: seq<int>, rest: seq<Token>, yylval: int)
    requires GoesOn(ts, lval, calls, out, rest, yylval, 0)
    ensures out == Calls(ts, lval, calls)
  {
  }

  lemma NextCall(ts: seq<Token>, lval: int, calls: nat, out: seq<int>, rest: seq<Token>, yylval: int, n: nat)
    requires n > 0 && GoesOn(ts, lval, calls, out, rest, yylval, n)
    ensures |rest| <= |ts|
    ensures var q := T.Parse(rest, yylval);
            && (q.status.Accepted? || q.status.Aborted? || q.status.Trapped?)
            && if q.status.Trapped? then out + q.out == Calls(ts, lval, calls)
               else GoesOn(ts, lval, calls, out + q.out, Y.Behind(q), Y.LastValue(q), n - 1)
  {
    hide T.Parse;
    T.ParserStops(rest, yylval);
    ParseShortens(rest, yylval);
    var q := T.Parse(rest, yylval);
    assert (out + q.out) + Calls(Y.Behind(q), Y.LastValue(q), n - 1) ==
           out + (q.out + Calls(Y.Behind(q), Y.LastValue(q), n - 1));
  }

  /** The loop of the program, up to a number of calls.  Unless the stacks overflow, which they do not on fewer tokens
      than they have room for, it prints what the calls print one after the other. */
  method Loop(input: Bytes, sizes: seq<nat>, size: nat, lval: int, gotMemory: bool, calls: nat)
    returns (out: seq<int>, overflowed: bool, reports: Bytes)
    requires size > 0
    ensures !overflowed ==> out == Calls(TokensIn(input), lval, calls)
    ensures |TokensIn(input)| + 2 < Y.DepthLimit(gotMemory) ==> !overflowed
    ensures reports <= L.Reports(input)
  {
    hide L.Reports, TokensIn, T.Parse, Y.Overflows, S.Scanner.Idle, S.Scanner.Pending, Calls, GoesOn, Y.Behind;
    var scanner := new S.Scanner(input, sizes, size);
    ghost var ts := TokensIn(input);
    assert scanner.printed + L.Reports(input) == L.Reports(input);
    FirstCall(ts, lval, calls);
    out, overflowed := [], false;
    var yylval, died, n: nat := lval, false, 0;
    while n < calls && !died && !overflowed
      invariant n <= calls && scanner.Idle() && fresh(scanner) && fresh(scanner.chBuf)
      invariant scanner.printed + L.Reports(scanner.Pending()) == L.Reports(input)
      invariant !died && !overflowed ==> GoesOn(ts, lval, calls, out, TokensIn(scanner.Pending()), yylval, calls - n)
      invariant died ==> !overflowed && out == Calls(ts, lval, calls)
      invariant overflowed ==> |ts| + 2 >= Y.DepthLimit(gotMemory)
      decreases if died || overflowed then 0 else calls - n + 1
    {
      ghost var left := TokensIn(scanner.Pending());
      NextCall(ts, lval, calls, out, left, yylval, calls - n);
      if |ts| + 2 < Y.DepthLimit(gotMemory) {
        Y.ShortInputsFit(left, yylval, Y.DepthLimit(gotMemory));
      }
      var outcome, printed, value := Y.Run(scanner, yylval, gotMemory);
      died, overflowed := outcome == Y.DivisionTrap, outcome == Y.Returned(2);
      out, yylval, n := out + printed, value, n + 1;
    }
    if !died && !overflowed {
      AllCalled(ts, lval, calls, out, TokensIn(scanner.Pending()), yylval);
    }
    reports := scanner.printed;
  }

  // ---- texts that print expressions -----------------------------------------------------------------

  /** No two numbers are next to each other. */
  predicate NumbersApart(ts: seq<Token>) {
    forall i :: 0 <= i < |ts| - 1 ==> !(ts[i].Number? && ts[i + 1].Number?)
  }

  lemma ApartAround(a: seq<Token>, t: Token, b: seq<Token>)
    requires NumbersApart(a) && NumbersApart(b) && !t.Number?
    ensures NumbersApart(a + [t] + b)
  {
    var all := a + [t] + b;
    forall i | 0 <= i < |all| - 1
      ensures !(all[i].Number? && all[i + 1].Number?)
    {
      if i + 1 < |a| {
        assert all[i] == a[i] && all[i + 1] == a[i + 1];
      } else if i > |a| {
        assert all[i] == b[i - |a| - 1] && all[i + 1] == b[i - |a|];
      }
    }
  }

  lemma {:induction false} TreeIsApart(t: Tree, level: nat)
    ensures NumbersApart(Print(t, level))
    decreases t, if level > Level(t) then 1 else 0
  {
    if level > Level(t) && t.Node? {
      TreeIsApart(t, 0);
      ApartAround([], LParen, Print(t, 0));
      ApartAround([LParen] + Print(t, 0), RParen, []);
    } else if t.Node? {
      TreeIsApart(t.left, Level(t));
      TreeIsApart(t.right, Level(t) + 1);
    }
  }

  lemma {:induction false} LinesAreApart(trees: seq<Tree>)
    ensures NumbersApart(T.PrintLines(trees))
  {
    if trees != [] {
      var lines, last := T.PrintLines(trees[..|trees| - 1]), Print(trees[|trees| - 1], 0);
      LinesAreApart(trees[..|trees| - 1]);
      TreeIsApart(trees[|trees| - 1], 0);
    }
  }

  /** Texts and gaps that write expressions, one to a line: the numbers in any spelling, blanks anywhere or nowhere. */
  ghost predicate Writes(trees: seq<Tree>, texts: seq<Bytes>, gaps: seq<Bytes>) {
    Spelled(T.PrintLines(trees), texts) && |gaps| == |texts| && forall i :: 0 <= i < |gaps| ==> Blank(gaps[i])
  }

  /** Such a text is read back as the tokens of the expressions, and parses to their values. */
  lemma TextCalculates(trees: seq<Tree>, texts: seq<Bytes>, gaps: seq<Bytes>, lval: int)
    requires Writes(trees, texts, gaps)
    ensures TokensIn(Render(texts, gaps)) == T.PrintLines(trees) && L.Reports(Render(texts, gaps)) == []
    ensures var q := T.Parse(T.PrintLines(trees), lval);
            if forall i :: 0 <= i < |trees| ==> EvalTree(trees[i]).Some?
            then q.status.Accepted? && |q.out| == |trees|
                 && forall i :: 0 <= i < |trees| ==> EvalTree(trees[i]) == Some(q.out[i])
            else q.status.Trapped?
  {
    hide L.Reports, L.Lexemes, T.Parse, Spells;
    LinesAreApart(trees);
    RenderThenScan(T.PrintLines(trees), texts, gaps);
    T.PrintThenParse(trees, lval);
  }

  /** A call on the text of expressions, however it is spelled and spaced and however it is read: unless the text is too
      long for the stacks, their values are printed, or a division by zero ends it. */
  method CalculateLines(trees: seq<Tree>, texts: seq<Bytes>, gaps: seq<Bytes>, sizes: seq<nat>, size: nat, lval: int,
                        gotMemory: bool)
    returns (outcome: Y.Outcome, out: seq<int>, reports: Bytes)
    requires size > 0 && Writes(trees, texts, gaps)
    ensures |texts| + 2 < Y.DepthLimit(gotMemory) ==> outcome != Y.Returned(2)
    ensures outcome != Y.Returned(2) ==>
              if forall i :: 0 <= i < |trees| ==> EvalTree(trees[i]).Some?
              then outcome == Y.Returned(0) && |out| == |trees|
                   && forall i :: 0 <= i < |trees| ==> EvalTree(trees[i]) == Some(out[i])
              else outcome == Y.DivisionTrap
    ensures reports == []
  {
    hide L.Reports, TokensIn, T.Parse, Y.Overflows, Render, Spells;
    TextCalculates(trees, texts, gaps, lval);
    if |texts| + 2 < Y.DepthLimit(gotMemory) {
      Y.ShortInputsFit(T.PrintLines(trees), lval, Y.DepthLimit(gotMemory));
    }
    outcome, out, reports := Calculate(Render(texts, gaps), sizes, size, lval, gotMemory);
  }
}
