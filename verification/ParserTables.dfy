/** The generated tables of the calculator's parser, and what they encode.

    `TableAction` and `TableGoto` look things up in the compressed tables exactly as `yyparse` does.
    `LalrAction` and `LalrGoto` write the same automaton out state by state. */
module ParserTables {

  const YYFINAL: nat := 2
  const YYLAST: int := 19
  const YYNTOKENS: nat := 12
  const YYNSTATES: nat := 21
  const YYPACT_NINF: int := -4
  const YYTABLE_NINF: int := -1
  const YYTERROR: int := 1

  const YYR1: seq<nat> := [0, 12, 13, 13, 14, 14, 14, 15, 15, 15, 15, 16, 16]
  const YYR2: seq<nat> := [0, 2, 0, 3, 3, 3, 1, 3, 3, 3, 1, 1, 3]
  const YYDEFACT: seq<nat> := [2, 0, 1, 11, 0, 0, 6, 10, 0, 0, 0, 3, 0, 0, 0, 12, 4, 5, 7, 8, 9]
  const YYDEFGOTO: seq<int> := [-1, 1, 5, 6, 7]
  const YYPACT: seq<int> := [-4, 0, -4, -4, -2, -1, 7, -4, 1, -2, -2, -4, -2, -2, -2, -4, 7, 7, -4, -4, -4]
  const YYPGOTO: seq<int> := [-4, -4, -3, 9, 3]
  const YYTABLE: seq<int> := [2, 8, 9, 10, 9, 10, 3, 4, 3, 4, 11, 15, 12, 13, 14, 18, 19, 20, 16, 17]
  const YYCHECK: seq<int> := [0, 4, 3, 4, 3, 4, 8, 9, 8, 9, 11, 10, 5, 6, 7, 12, 13, 14, 9, 10]
  const YYSTOS: seq<nat> := [0, 13, 0, 8, 9, 14, 15, 16, 14, 3, 4, 11, 5, 6, 7, 10, 15, 15, 16, 16, 16]

  // grammar symbols
  const END: nat := 0
  const UNDEFINED: nat := 2
  const PLUS: nat := 3
  const MINUS: nat := 4
  const MUL: nat := 5
  const DIV: nat := 6
  const MOD: nat := 7
  const NUMBER: nat := 8
  const LPAREN: nat := 9
  const RPAREN: nat := 10
  const EOL: nat := 11
  const CALC: nat := 13
  const EXPR: nat := 14
  const FACTOR: nat := 15
  const ITEM: nat := 16

  datatype Action = Shift(state: nat) | Reduce(rule: int) | Accept | Error

  function DefaultAction(state: nat): (a: Action)
    requires state < YYNSTATES
  {
    if YYDEFACT[state] == 0 then Error else Reduce(YYDEFACT[state])
  }

  /** yybackup and yydefault: the action in a state on an internal token number. */
  function TableAction(state: nat, token: nat): (a: Action)
    requires state < YYNSTATES
  {
    if YYPACT[state] == YYPACT_NINF then DefaultAction(state)
    else
      var n := YYPACT[state] + token;
      if n < 0 || YYLAST < n || YYCHECK[n] != token then DefaultAction(state)
      else
        var a := YYTABLE[n];
        if a <= 0 then (if a == 0 || a == YYTABLE_NINF then Error else Reduce(-a))
        else if a == YYFINAL then Accept
        else Shift(a)
  }

  /** The state after a reduction to a nonterminal, from the state uncovered by the pops. */
  function TableGoto(state: nat, symbol: nat): (target: int)
    requires state < YYNSTATES && YYNTOKENS <= symbol < YYNTOKENS + 5
  {
    var n := YYPGOTO[symbol - YYNTOKENS] + state;
    if 0 <= n <= YYLAST && YYCHECK[n] == state then YYTABLE[n] else YYDEFGOTO[symbol - YYNTOKENS]
  }

  // ---- the automaton in plain form ---------------------------------------------

  function OnOperand(token: nat): (a: Action) {
    if token == NUMBER then Shift(3) else if token == LPAREN then Shift(4) else Error
  }

  function OnTimes(token: nat, otherwise: nat): (a: Action) {
    if token == MUL then Shift(12) else if token == DIV then Shift(13) else if token == MOD then Shift(14)
    else Reduce(otherwise)
  }

  function OnPlus(token: nat, closing: nat, target: nat): (a: Action) {
    if token == PLUS then Shift(9) else if token == MINUS then Shift(10)
    else if token == closing then Shift(target) else Error
  }

  function LalrAction(state: nat, token: nat): (a: Action)
    requires state < YYNSTATES
  {
    match state
    case 0 => Reduce(2)
    case 1 => if token == END then Accept else OnOperand(token)
    case 2 => Reduce(1)
    case 3 => Reduce(11)
    case 5 => OnPlus(token, EOL, 11)
    case 6 => OnTimes(token, 6)
    case 7 => Reduce(10)
    case 8 => OnPlus(token, RPAREN, 15)
    case 11 => Reduce(3)
    case 15 => Reduce(12)
    case 16 => OnTimes(token, 4)
    case 17 => OnTimes(token, 5)
    case 18 => Reduce(7)
    case 19 => Reduce(8)
    case 20 => Reduce(9)
    case _ => OnOperand(token)     // 4, 9, 10, 12, 13 and 14 want an operand
  }

  function LalrGoto(state: nat, symbol: nat): (target: nat) {
    if symbol == CALC then 1
    else if symbol == EXPR then (if state == 4 then 8 else 5)
    else if symbol == FACTOR then (if state == 9 then 16 else if state == 10 then 17 else 6)
    else if state == 12 then 18
    else if state == 13 then 19
    else if state == 14 then 20
    else 7
  }

  predicate ReducesBlindly(state: nat) {
    state in {0, 2, 3, 7, 11, 15, 18, 19, 20}
  }

  lemma BlindRows(state: nat, token: nat)
    requires state < YYNSTATES && ReducesBlindly(state)
    ensures TableAction(state, token) == LalrAction(state, token)
  {
  }

  lemma OperandRows(state: nat, token: nat)
    requires state in {4, 9, 10, 12, 13, 14}
    ensures TableAction(state, token) == LalrAction(state, token)
  {
  }

  lemma StartRow(token: nat)
    ensures TableAction(1, token) == LalrAction(1, token)
  {
  }

  lemma LineRow(token: nat)
    ensures TableAction(5, token) == LalrAction(5, token)
  {
  }

  lemma ParenRow(token: nat)
    ensures TableAction(8, token) == LalrAction(8, token)
  {
  }

  lemma MultiplicativeRows(state: nat, token: nat)
    requires state in {6, 16, 17}
    ensures TableAction(state, token) == LalrAction(state, token)
  {
    hide TableAction, LalrAction;
    MultiplicativeRow(token, state);
  }

  lemma MultiplicativeRow(token: nat, state: nat)
    requires state in {6, 16, 17}
    ensures TableAction(state, token) == LalrAction(state, token)
  {
    assert YYPACT[state] == 7;
  }

  /** The compressed action tables encode the automaton, on every token. */
  lemma ActionsDecode(state: nat, token: nat)
    requires state < YYNSTATES
    ensures TableAction(state, token) == LalrAction(state, token)
  {
    if ReducesBlindly(state) {
      BlindRows(state, token);
    } else if state in {4, 9, 10, 12, 13, 14} {
      OperandRows(state, token);
    } else if state == 1 {
      StartRow(token);
    } else if state == 5 {
      LineRow(token);
    } else if state == 8 {
      ParenRow(token);
    } else {
      MultiplicativeRows(state, token);
    }
  }

  /** So do the compressed goto tables. */
  lemma GotosDecode(state: nat, symbol: nat)
    requires state < YYNSTATES && CALC <= symbol <= ITEM
    ensures TableGoto(state, symbol) == LalrGoto(state, symbol)
  {
  }

  /** No state shifts the error token, so error recovery pops everything. */
  lemma NoErrorShift(state: nat)
    requires state < YYNSTATES
    ensures var n := YYPACT[state] + YYTERROR; !(0 <= n <= YYLAST && YYCHECK[n] == YYTERROR)
  {
  }
}
