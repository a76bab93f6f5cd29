/** The automaton run over a text, and why the last accepting state it passed gives the longest
    match. */
module ScannerRuns {
  import opened ByteStrings
  import opened ScannerTables
  import opened LexSpec

  /** The class of a character of the text: a NUL in the text is like any other character. */
  function TextClass(b: Byte): (c: nat)
    ensures 0 < c <= 12
  {
    if b == 0 then OTHER_CLASS else Ec(b)
  }

  /** The state after the first i characters. */
  function Path(s: Bytes, i: nat): (state: nat)
    requires i <= |s|
    ensures State(state) && state != AT_NUL
  {
    if i == 0 then START else Delta(Path(s, i - 1), TextClass(s[i - 1]))
  }

  function Accept(state: nat): (rule: nat) {
    match state
    case 1 => 0
    case 3 => 13
    case 4 => 11
    case 5 => 10
    case 6 => 8
    case 7 => 5
    case 8 => 6
    case 9 => 7
    case 10 => 3
    case 11 => 1
    case 12 => 2
    case 13 => 4
    case 14 => 9
    case 16 => 9
    case 17 => 9
    case _ => 0
  }

  lemma AcceptDecodes(state: nat)
    requires State(state)
    ensures YY_ACCEPT[state] == Accept(state)
  {
  }

  /** The length of the longest accepted prefix among the first i characters. */
  function Last(s: Bytes, i: nat): (n: nat)
    requires i <= |s|
    ensures n <= i
  {
    if i == 0 || Accept(Path(s, i)) != 0 then i else Last(s, i - 1)
  }

  /** The automaton has read i characters and cannot read the next one. */
  predicate Stuck(s: Bytes, i: nat) {
    i <= |s| && Path(s, i) != JAM && (i < |s| ==> Path(s, i + 1) == JAM)
  }

  // ---- the run over a number ------------------------------------------------------------------

  lemma {:induction false} PathInteger(s: Bytes, i: nat)
    requires s != [] && Digit(s[0]) && 0 < i <= DigitRun(s)
    ensures Path(s, i) == if i == 1 then 14 else 16
  {
    if i > 1 {
      PathInteger(s, i - 1);
    }
  }

  predicate Dotted(s: Bytes) {
    DigitRun(s) < |s| && s[DigitRun(s)] == 46
  }

  lemma {:induction false} PathFraction(s: Bytes, i: nat)
    requires s != [] && Digit(s[0]) && Dotted(s)
    requires DigitRun(s) < i <= DigitRun(s) + 1 + DigitRun(s[DigitRun(s) + 1..])
    ensures Path(s, i) == if i == DigitRun(s) + 1 then 15 else 17
  {
    var k := DigitRun(s);
    if i == k + 1 {
      PathInteger(s, k);
    } else {
      PathFraction(s, i - 1);
      assert s[i - 1] == s[k + 1..][i - k - 2];
    }
  }

  /** How far the automaton gets. */
  function Extent(s: Bytes): (n: nat)
    requires s != []
    ensures 0 < n <= |s|
  {
    if !Digit(s[0]) then 1
    else if Dotted(s) then DigitRun(s) + 1 + DigitRun(s[DigitRun(s) + 1..])
    else DigitRun(s)
  }

  lemma AliveUpToExtent(s: Bytes, i: nat)
    requires s != [] && i <= Extent(s)
    ensures Path(s, i) != JAM
  {
    if i > 0 && Digit(s[0]) {
      if i <= DigitRun(s) {
        PathInteger(s, i);
      } else {
        PathFraction(s, i);
      }
    }
  }

  lemma OneCharacter(s: Bytes)
    requires s != [] && !Digit(s[0])
    ensures 4 <= Path(s, 1) <= 13 && Accept(Path(s, 1)) == CharRule(s[0])
  {
    assert Path(s, 1) == Delta(START, TextClass(s[0]));
  }

  lemma JamsOn(state: nat, b: Byte)
    requires 4 <= state <= 17 && !Digit(b) && ((state == 14 || state == 16) ==> b != 46)
    ensures Delta(state, TextClass(b)) == JAM
  {
  }

  lemma JamsAfterOne(s: Bytes)
    requires |s| > 1 && !Digit(s[0])
    ensures Path(s, 2) == JAM
  {
    OneCharacter(s);
    assert Path(s, 2) == Delta(Path(s, 1), TextClass(s[1]));
  }

  lemma FractionEnds(s: Bytes)
    requires s != [] && Digit(s[0]) && Dotted(s) && Extent(s) < |s|
    ensures !Digit(s[Extent(s)])
  {
    var k := DigitRun(s) + 1;
    assert s[Extent(s)] == s[k..][Extent(s) - k];
  }

  lemma JamsAfterExtent(s: Bytes)
    requires s != [] && Extent(s) < |s|
    ensures Path(s, Extent(s) + 1) == JAM
  {
    hide Delta, TextClass;
    var n := Extent(s);
    if !Digit(s[0]) {
      JamsAfterOne(s);
    } else if Dotted(s) {
      PathFraction(s, n);
      FractionEnds(s);
      JamsOn(Path(s, n), s[n]);
    } else {
      PathInteger(s, n);
      JamsOn(Path(s, n), s[n]);
    }
  }

  lemma {:induction false} JamStays(s: Bytes, i: nat, j: nat)
    requires i <= j <= |s| && Path(s, i) == JAM
    ensures Path(s, j) == JAM
    decreases j
  {
    if i < j {
      JamStays(s, i, j - 1);
    }
  }

  lemma AliveBefore(s: Bytes, i: nat, j: nat)
    requires i <= j <= |s| && Path(s, j) != JAM
    ensures Path(s, i) != JAM
  {
    if Path(s, i) == JAM {
      JamStays(s, i, j);
    }
  }

  lemma StuckAtExtent(s: Bytes, i: nat)
    requires s != [] && Stuck(s, i)
    ensures i == Extent(s)
  {
    var n := Extent(s);
    if i < n {
      AliveUpToExtent(s, i + 1);
    }
    if i > n {
      JamsAfterExtent(s);
      JamStays(s, n + 1, i);
    }
  }

  lemma LastAtExtent(s: Bytes)
    requires s != []
    ensures Last(s, Extent(s)) == MatchLength(s) && Accept(Path(s, MatchLength(s))) == MatchRule(s)
  {
    var n := Extent(s);
    if Digit(s[0]) {
      PathInteger(s, DigitRun(s));
      if Dotted(s) {
        PathFraction(s, n);
      }
    } else {
      OneCharacter(s);
    }
  }

  /** When the automaton is stuck, the last accepting state it passed gives the winning match. */
  lemma StuckMatches(s: Bytes, i: nat)
    requires s != [] && Stuck(s, i)
    ensures Last(s, i) == MatchLength(s) && Accept(Path(s, Last(s, i))) == MatchRule(s)
  {
    StuckAtExtent(s, i);
    LastAtExtent(s);
  }
}
