/** The generated tables of the calculator's scanner, and the automaton they encode. */
module ScannerTables {
  import opened ByteStrings

  const YY_ACCEPT: seq<nat> := [0, 0, 0, 13, 11, 10, 8, 5, 6, 7, 3, 1, 2, 4, 9, 0, 9, 9, 0]
  const YY_BASE: seq<nat> := [0, 0, 0, 17, 18, 18, 18, 18, 18, 18, 18, 18, 18, 18, 3, 4, 0, 2, 18]
  const YY_DEF: seq<nat> := [0, 18, 1, 18, 18, 18, 18, 18, 18, 18, 18, 18, 18, 18, 18, 18, 14, 18, 0]
  const YY_NXT: seq<nat> := [0,
    4, 5, 6, 7, 8, 9, 10, 11, 12, 4,
    13, 14, 15, 17, 16, 17, 18, 3, 18, 18,
    18, 18, 18, 18, 18, 18, 18, 18, 18, 18]
  const YY_CHK: seq<nat> := [0,
    1, 1, 1, 1, 1, 1, 1, 1, 1, 1,
    1, 1, 14, 17, 14, 15, 3, 18, 18, 18,
    18, 18, 18, 18, 18, 18, 18, 18, 18, 18]

  const START: nat := 1
  const AT_NUL: nat := 3         // entered on the end-of-buffer character
  const JAM: nat := 18

  // character classes
  const NUL_CLASS: nat := 0
  const OTHER_CLASS: nat := 1
  const DOT_CLASS: nat := 10
  const DIGIT_CLASS: nat := 12

  /** yy_ec: the class of a character; only the end-of-buffer character has class 0. */
  function Ec(b: Byte): (c: nat)
    ensures c <= 12 && (c == NUL_CLASS <==> b == 0)
  {
    match b
    case 0 => NUL_CLASS
    case 9 => 2
    case 10 => 3
    case 11 => 2
    case 13 => 2
    case 32 => 2
    case 37 => 4
    case 40 => 5
    case 41 => 6
    case 42 => 7
    case 43 => 8
    case 45 => 9
    case 46 => DOT_CLASS
    case 47 => 11
    case _ => if 48 <= b <= 57 then DIGIT_CLASS else OTHER_CLASS
  }

  predicate State(s: nat) {
    s == 1 || 3 <= s <= 18
  }

  /** One transition in the compressed tables, following the defaults. */
  function TableStep(s: nat, c: nat): (t: nat)
    requires State(s) && c <= 12
    decreases if s == 16 then 2 else if s == JAM then 0 else 1
  {
    if YY_CHK[YY_BASE[s] + c] != s then TableStep(YY_DEF[s], c) else YY_NXT[YY_BASE[s] + c]
  }

  /** The automaton in plain form. */
  function Delta(s: nat, c: nat): (t: nat) {
    if c == NUL_CLASS then (if s == AT_NUL then JAM else AT_NUL)
    else match s
         case 1 => if c == DOT_CLASS then 4 else if c == 11 then 13 else if c == DIGIT_CLASS then 14 else c + 3
         case 14 => if c == DOT_CLASS then 15 else if c == DIGIT_CLASS then 16 else JAM
         case 16 => if c == DOT_CLASS then 15 else if c == DIGIT_CLASS then 16 else JAM
         case 15 => if c == DIGIT_CLASS then 17 else JAM
         case 17 => if c == DIGIT_CLASS then 17 else JAM
         case _ => JAM
  }

  lemma JamDecodes(c: nat)
    requires c <= 12
    ensures TableStep(JAM, c) == if c == NUL_CLASS then AT_NUL else JAM
  {
  }

  lemma StartRow(c: nat)
    requires c <= 12
    ensures YY_CHK[c] == if c == NUL_CLASS then 0 else START
    ensures c != NUL_CLASS ==> YY_NXT[c] == Delta(START, c)
  {
  }

  lemma Hit(s: nat, c: nat)
    requires State(s) && c <= 12 && 0 <= YY_BASE[s] + c < |YY_CHK| && YY_CHK[YY_BASE[s] + c] == s
    ensures YY_BASE[s] + c < |YY_NXT| && TableStep(s, c) == YY_NXT[YY_BASE[s] + c]
  {
  }

  lemma Miss(s: nat, c: nat, d: nat)
    requires State(s) && c <= 12 && 0 <= YY_BASE[s] + c < |YY_CHK| && YY_CHK[YY_BASE[s] + c] != s
    requires d == YY_DEF[s] && State(d)
    ensures TableStep(s, c) == TableStep(d, c)
  {
  }

  lemma StartBase()
    ensures YY_BASE[START] == 0 && YY_DEF[START] == JAM
  {
  }

  lemma StartDecodes(c: nat)
    requires c <= 12
    ensures TableStep(START, c) == Delta(START, c)
  {
    hide Delta, TableStep;
    StartBase();
    StartRow(c);
    if c == NUL_CLASS {
      Miss(START, c, JAM);
      JamDecodes(c);
      DeltaOnNul(START);
    } else {
      Hit(START, c);
    }
  }

  lemma DeltaOnNul(s: nat)
    ensures Delta(s, NUL_CLASS) == if s == AT_NUL then JAM else AT_NUL
  {
  }

  lemma FinishedRows(s: nat)
    requires 4 <= s <= 13
    ensures YY_BASE[s] == 18 && YY_DEF[s] == JAM
  {
  }

  lemma JamRow(c: nat)
    requires c <= 12
    ensures YY_CHK[18 + c] == JAM
  {
  }

  lemma FinishedDecodes(s: nat, c: nat)
    requires (s == AT_NUL || 4 <= s <= 13 || s == JAM) && c <= 12
    ensures TableStep(s, c) == Delta(s, c)
  {
    JamDecodes(c);
    JamRow(c);
    if 4 <= s <= 13 {
      FinishedRows(s);
    }
  }

  /** Only two entries of the table belong to states 14 and 16, one each to 15 and 17. */
  lemma NumberRows(c: nat)
    requires c <= 12
    ensures YY_CHK[3 + c] == 14 <==> c == DOT_CLASS || c == DIGIT_CLASS
    ensures YY_CHK[4 + c] == 15 <==> c == DIGIT_CLASS
    ensures YY_CHK[c] != 16
    ensures YY_CHK[2 + c] == 17 <==> c == DIGIT_CLASS
  {
  }

  lemma NumberDecodes(s: nat, c: nat)
    requires s == 14 || s == 15 || s == 17
    requires c <= 12
    ensures TableStep(s, c) == Delta(s, c)
  {
    hide TableStep;
    NumberBase(s);
    NumberRows(c);
    if YY_CHK[YY_BASE[s] + c] == s {
      NumberHit(s, c);
      Hit(s, c);
    } else {
      JamDecodes(c);
      Miss(s, c, JAM);
    }
  }

  lemma NumberBase(s: nat)
    requires s == 14 || s == 15 || s == 17
    ensures YY_BASE[s] == (if s == 14 then 3 else if s == 15 then 4 else 2) && YY_DEF[s] == JAM
  {
  }

  lemma NumberHit(s: nat, c: nat)
    requires s == 14 || s == 15 || s == 17
    requires c == DIGIT_CLASS || (s == 14 && c == DOT_CLASS)
    ensures YY_NXT[YY_BASE[s] + c] == Delta(s, c)
  {
  }

  lemma DefaultDecodes(c: nat)
    requires c <= 12
    ensures TableStep(16, c) == Delta(16, c)
  {
    NumberRows(c);
    NumberDecodes(14, c);
  }

  lemma TablesDecode(s: nat, c: nat)
    requires State(s) && c <= 12
    ensures TableStep(s, c) == Delta(s, c)
  {
    if s == START {
      StartDecodes(c);
    } else if s == 16 {
      DefaultDecodes(c);
    } else if 14 <= s <= 17 {
      NumberDecodes(s, c);
    } else {
      FinishedDecodes(s, c);
    }
  }

  /** The states in which the matching loop goes on. */
  predicate GoesOn(s: nat)
    requires State(s)
  {
    YY_BASE[s] != 18
  }

  lemma Stops(s: nat)
    requires State(s)
    ensures GoesOn(s) <==> s in {1, 3, 14, 15, 16, 17}
  {
  }
}
