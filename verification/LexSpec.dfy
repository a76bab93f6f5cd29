/** What the scanner is meant to recognise: at each point the longest match of a rule, the rules
    being single characters and numbers. */
module LexSpec {
  import opened Options
  import opened ByteStrings

  // ---- the rules, as the rules file states them -------------------------------------------

  predicate Digit(b: Byte) {
    48 <= b <= 57
  }

  predicate Digits(t: Bytes) {
    t != [] && forall i :: 0 <= i < |t| ==> Digit(t[i])
  }

  /** Digits, optionally followed by a dot and more digits. */
  ghost predicate Number(t: Bytes) {
    Digits(t) || exists k: nat :: DottedAt(t, k)
  }

  predicate DottedAt(t: Bytes, k: nat) {
    k < |t| && Digits(t[..k]) && t[k] == 46 && Digits(t[k + 1..])
  }

  const EOL_RULE: nat := 8
  const NUMBER_RULE: nat := 9
  const SPACE_RULE: nat := 10
  const ANY_RULE: nat := 11

  predicate Space(b: Byte) {
    b in {32, 10, 13, 11, 9}
  }

  /** The text a rule stands for, rule by rule. */
  ghost predicate Matches(rule: nat, t: Bytes) {
    match rule
    case 1 => t == [43]
    case 2 => t == [45]
    case 3 => t == [42]
    case 4 => t == [47]
    case 5 => t == [37]
    case 6 => t == [40]
    case 7 => t == [41]
    case 8 => t == [10]
    case 9 => Number(t)
    case 10 => |t| == 1 && Space(t[0])
    case 11 => |t| == 1 && t[0] != 10
    case _ => false
  }

  /** The longest match at the start of s; among rules that match as much, the first. */
  ghost predicate Wins(s: Bytes, rule: nat, n: nat) {
    && n <= |s| && Matches(rule, s[..n])
    && forall r: nat, m: nat | m <= |s| && Matches(r, s[..m]) :: m < n || (m == n && rule <= r)
  }

  // ---- the longest match --------------------------------------------------------------------

  function DigitRun(s: Bytes): (n: nat)
    ensures n <= |s| && (forall i :: 0 <= i < n ==> Digit(s[i])) && (n < |s| ==> !Digit(s[n]))
  {
    if s == [] || !Digit(s[0]) then 0
    else
      var n := DigitRun(s[1..]);
      assert forall i :: 0 < i < n + 1 ==> s[i] == s[1..][i - 1];
      assert n + 1 < |s| ==> s[n + 1] == s[1..][n];
      n + 1
  }

  function NumberLength(s: Bytes): (n: nat)
    requires s != [] && Digit(s[0])
    ensures 0 < n <= |s|
  {
    var k := DigitRun(s);
    if k < |s| && s[k] == 46 && DigitRun(s[k + 1..]) > 0 then k + 1 + DigitRun(s[k + 1..]) else k
  }

  /** The rule for a single character that starts no number. */
  function CharRule(b: Byte): (rule: nat) {
    match b
    case 43 => 1
    case 45 => 2
    case 42 => 3
    case 47 => 4
    case 37 => 5
    case 40 => 6
    case 41 => 7
    case 10 => EOL_RULE
    case 32 => SPACE_RULE
    case 13 => SPACE_RULE
    case 11 => SPACE_RULE
    case 9 => SPACE_RULE
    case _ => ANY_RULE
  }

  function MatchLength(s: Bytes): (n: nat)
    requires s != []
    ensures 0 < n <= |s|
  {
    if Digit(s[0]) then NumberLength(s) else 1
  }

  function MatchRule(s: Bytes): (rule: nat)
    requires s != []
    ensures 0 < rule <= ANY_RULE
  {
    if Digit(s[0]) then NUMBER_RULE else CharRule(s[0])
  }

  lemma NumberIsNumber(s: Bytes)
    requires s != [] && Digit(s[0])
    ensures Number(s[..NumberLength(s)])
  {
    var k, n := DigitRun(s), NumberLength(s);
    if n == k {
      assert Digits(s[..k]);
    } else {
      assert s[..n][k + 1..] == s[k + 1..][..n - k - 1] && s[..n][..k] == s[..k];
      assert DottedAt(s[..n], k);
    }
  }

  lemma RunIsLongest(s: Bytes, m: nat)
    requires m <= |s| && forall i :: 0 <= i < m ==> Digit(s[i])
    ensures m <= DigitRun(s)
  {
  }

  lemma NoLongerNumber(s: Bytes, m: nat)
    requires s != [] && Digit(s[0]) && m <= |s| && Number(s[..m])
    ensures m <= NumberLength(s)
  {
    var t := s[..m];
    if Digits(t) {
      assert forall i :: 0 <= i < m ==> s[i] == t[i];
      RunIsLongest(s, m);
    } else {
      var d: nat :| DottedAt(t, d);
      assert forall i :: 0 <= i < d ==> s[i] == t[..d][i];
      RunIsLongest(s, d);
      assert !Digit(s[d]) && d == DigitRun(s);
      var u, w := s[d + 1..], t[d + 1..];
      assert |w| == m - d - 1 && forall i :: 0 <= i < |w| ==> w[i] == t[d + 1 + i] == u[i];
      RunIsLongest(u, |w|);
    }
  }

  /** MatchRule and MatchLength give the match that wins. */
  lemma LongestMatchWins(s: Bytes)
    requires s != []
    ensures Wins(s, MatchRule(s), MatchLength(s))
  {
    forall r: nat, m: nat | m <= |s| && Matches(r, s[..m])
      ensures m < MatchLength(s) || (m == MatchLength(s) && MatchRule(s) <= r)
    {
      if Digit(s[0]) {
        OtherRuleOnDigit(s, r, m);
      } else {
        RuleOnOther(s, r, m);
      }
    }
    if Digit(s[0]) {
      NumberIsNumber(s);
    } else {
      assert s[..1] == [s[0]];
    }
  }

  lemma OtherRuleOnDigit(s: Bytes, r: nat, m: nat)
    requires s != [] && Digit(s[0]) && m <= |s| && Matches(r, s[..m])
    ensures m <= NumberLength(s) && (m == NumberLength(s) ==> NUMBER_RULE <= r)
  {
    if r == NUMBER_RULE {
      NoLongerNumber(s, m);
    } else {
      assert m == 1 && s[..m][0] == s[0];
    }
  }

  lemma RuleOnOther(s: Bytes, r: nat, m: nat)
    requires s != [] && !Digit(s[0]) && m <= |s| && Matches(r, s[..m])
    ensures m == 1 && CharRule(s[0]) <= r
  {
    NumberStartsWithDigit(s[..m]);
    assert r != NUMBER_RULE;
    assert m == 1 && s[..m][0] == s[0];
  }

  lemma NumberStartsWithDigit(t: Bytes)
    ensures Number(t) ==> t != [] && Digit(t[0])
  {
    if !Digits(t) && Number(t) {
      var d: nat :| DottedAt(t, d);
      assert t[0] == t[..d][0];
    }
  }

  // ---- a whole text ---------------------------------------------------------------------------


  datatype Lexeme = Lexeme(rule: nat, text: Bytes)

  /** The next token, what follows it, and the characters no rule but the last one matched. */
  datatype Scan = Scan(token: Option<Lexeme>, rest: Bytes, reports: Bytes)

  function Next(s: Bytes): (r: Scan)
    ensures r.token.Some? ==> |r.rest| < |s|
    ensures r.token.None? ==> r.rest == []
  {
    if s == [] then Scan(None, [], [])
    else
      var n := MatchLength(s);
      if MatchRule(s) <= NUMBER_RULE then Scan(Some(Lexeme(MatchRule(s), s[..n])), s[n..], [])
      else
        var r := Next(s[n..]);
        r.(reports := (if MatchRule(s) == ANY_RULE then s[..n] else []) + r.reports)
  }

  function Lexemes(s: Bytes): (tokens: seq<Lexeme>)
    decreases |s|
  {
    var r := Next(s);
    if r.token.None? then [] else [r.token.value] + Lexemes(r.rest)
  }

  function Reports(s: Bytes): (reports: Bytes)
    decreases |s|
  {
    var r := Next(s);
    if r.token.None? then r.reports else r.reports + Reports(r.rest)
  }

  // ---- nothing is lost --------------------------------------------------------------------------

  /** The winning matches one after the other, spaces and reported characters included. */
  function Pieces(s: Bytes): (pieces: seq<Lexeme>) {
    if s == [] then [] else [Lexeme(MatchRule(s), s[..MatchLength(s)])] + Pieces(s[MatchLength(s)..])
  }

  function Joined(pieces: seq<Lexeme>): (s: Bytes) {
    if pieces == [] then [] else pieces[0].text + Joined(pieces[1..])
  }

  function Tokens(pieces: seq<Lexeme>): (tokens: seq<Lexeme>) {
    if pieces == [] then []
    else (if pieces[0].rule <= NUMBER_RULE then [pieces[0]] else []) + Tokens(pieces[1..])
  }

  function Reported(pieces: seq<Lexeme>): (reports: Bytes) {
    if pieces == [] then []
    else (if pieces[0].rule == ANY_RULE then pieces[0].text else []) + Reported(pieces[1..])
  }

  /** The matches divide the text: every character belongs to exactly one. */
  lemma {:induction false} PiecesCoverTheText(s: Bytes)
    ensures Joined(Pieces(s)) == s
  {
    if s != [] {
      PiecesCoverTheText(s[MatchLength(s)..]);
      assert s == s[..MatchLength(s)] + s[MatchLength(s)..];
    }
  }

  /** The tokens and the reports are those of the matches, in order. */
  lemma {:induction false} TokensOfPieces(s: Bytes)
    ensures Lexemes(s) == Tokens(Pieces(s)) && Reports(s) == Reported(Pieces(s))
    decreases |s|
  {
    hide MatchLength, MatchRule;
    if s != [] {
      var n := MatchLength(s);
      TokensOfPieces(s[n..]);
      assert Pieces(s)[1..] == Pieces(s[n..]);
      if MatchRule(s) > NUMBER_RULE {
        SkipPiece(s);
      }
    }
  }

  /** What a match adds to the reports. */
  function Report(s: Bytes): (report: Bytes)
    requires s != []
  {
    if MatchRule(s) == ANY_RULE then s[..MatchLength(s)] else []
  }

  lemma NextTakes(s: Bytes)
    requires s != [] && MatchRule(s) <= NUMBER_RULE
    ensures Next(s) == Scan(Some(Lexeme(MatchRule(s), s[..MatchLength(s)])), s[MatchLength(s)..], []) && Report(s) == []
  {
  }

  lemma NextSkips(s: Bytes)
    requires s != [] && MatchRule(s) > NUMBER_RULE
    ensures var q := Next(s[MatchLength(s)..]); Next(s) == Scan(q.token, q.rest, Report(s) + q.reports)
  {
    hide MatchLength, MatchRule;
  }

  lemma SkipPiece(s: Bytes)
    requires s != [] && MatchRule(s) > NUMBER_RULE
    ensures Lexemes(s) == Lexemes(s[MatchLength(s)..])
    ensures Reports(s) == Report(s) + Reports(s[MatchLength(s)..])
  {
    hide MatchLength, MatchRule, Next;
    NextSkips(s);
    var q := Next(s[MatchLength(s)..]);
    if q.token.Some? {
      assert Report(s) + q.reports + Reports(q.rest) == Report(s) + (q.reports + Reports(q.rest));
    }
  }
}
