/** The tokens of the grammar that the rules of the scanner return. */
module CalcTokens {
  import opened ByteStrings
  import opened CalcGrammar
  import opened LexSpec

  function DecimalValue(text: Bytes): (n: nat)
    requires forall i :: 0 <= i < |text| ==> Digit(text[i])
  {
    if text == [] then 0
    else
      var last := text[|text| - 1];
      assert Digit(last);
      10 * DecimalValue(text[..|text| - 1]) + (last as nat - 48)
  }

  /** The value of a number's text, cut off at the dot as the conversion to an integer does. */
  function ValueOf(text: Bytes): (n: nat) {
    DecimalValue(text[..DigitRun(text)])
  }

  /** The token a rule returns. */
  function TokenOf(l: Lexeme): (t: Token) {
    match l.rule
    case 1 => Plus
    case 2 => Minus
    case 3 => Mul
    case 4 => Div
    case 5 => Mod
    case 6 => LParen
    case 7 => RParen
    case 8 => Eol
    case 9 => Number(ValueOf(l.text))
    case _ => Other
  }

  function TokensOf(ls: seq<Lexeme>): (ts: seq<Token>) {
    seq(|ls|, i requires 0 <= i < |ls| => TokenOf(ls[i]))
  }

  /** The tokens of a text. */
  function TokensIn(s: Bytes): (ts: seq<Token>) {
    TokensOf(Lexemes(s))
  }

  lemma TokensNext(s: Bytes)
    ensures var r := Next(s);
            TokensIn(s) == (if r.token.None? then [] else [TokenOf(r.token.value)] + TokensIn(r.rest)) &&
            Reports(s) == r.reports + (if r.token.None? then [] else Reports(r.rest))
  {
    hide Next, TokenOf;
  }

  lemma NothingIn()
    ensures TokensIn([]) == [] && Reports([]) == []
  {
  }
}
