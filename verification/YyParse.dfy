/** The parsing loop itself, over stacks kept in arrays that are doubled when they fill up, with
    the look-ahead token read only when a state needs it. */
module YyParse {
  import opened Options
  import opened ByteStrings
  import opened CalcTokens
  import L = LexSpec
  import S = FlexScanner
  import opened ParserTables
  import opened CalcGrammar
  import opened ParserMachine
  import opened ParserTheorems

  const YYINITDEPTH: nat := 200
  const YYMAXDEPTH: nat := 10000

  /** yychar: no token read, the end of input, or a token. */
  datatype Lookahead = Empty | AtEnd | Has(token: Token)

  /** How a call ends: with a result code, or inside an action that divides by zero. */
  datatype Outcome = Returned(code: int) | DivisionTrap

  /** The tokens not shifted yet, where the scanner still has the text `rest` before it. */
  function Remaining(yychar: Lookahead, rest: Bytes): (ts: seq<Token>) {
    match yychar
    case Empty => TokensIn(rest)
    case AtEnd => []
    case Has(t) => [t] + TokensIn(rest)
  }

  predicate LookaheadOk(yychar: Lookahead, yylval: int, lval: int, rest: Bytes) {
    && (yychar.AtEnd? ==> rest == [])
    && yylval == (if yychar.Has? && yychar.token.Number? then yychar.token.value else lval)
  }

  /** What was reported, followed by what the rest of the text will give, are the reports of the whole. */
  predicate Reporting(reported: Bytes, rest: Bytes, whole: Bytes) {
    reported + L.Reports(rest) == whole
  }

  /** yybackup and yydefault: what to do in a state, calling the scanner only if a token is needed. */
  method Decide(yystate: nat, yychar0: Lookahead, yylval0: int, scanner: S.Scanner, ghost lval: int, ghost whole: Bytes)
    returns (action: Action, yychar: Lookahead, yylval: int)
    requires yystate < YYNSTATES && scanner.Idle() && LookaheadOk(yychar0, yylval0, lval, scanner.Pending())
    requires Reporting(scanner.printed, scanner.Pending(), whole)
    modifies scanner, scanner.chBuf
    ensures scanner.Idle() && (scanner.chBuf == old(scanner.chBuf) || fresh(scanner.chBuf))
    ensures LookaheadOk(yychar, yylval, lval, scanner.Pending())
    ensures Reporting(scanner.printed, scanner.Pending(), whole)
    ensures Remaining(yychar, scanner.Pending()) == old(Remaining(yychar0, scanner.Pending()))
    ensures action == TableAction(yystate, Ahead(Remaining(yychar, scanner.Pending())))
    ensures (action.Shift? ==> yychar.Has?) && (action.Accept? ==> yychar.AtEnd?) && (action.Error? ==> !yychar.Empty?)
    ensures YYPACT[yystate] == YYPACT_NINF || !yychar0.Empty? ==>
              yychar == yychar0 && scanner.Pending() == old(scanner.Pending())
  {
    hide Reporting, TokensIn, TableAction, DefaultAction, Internal, S.Scanner.Idle, S.Scanner.Pending;
    yychar, yylval := yychar0, yylval0;
    if YYPACT[yystate] == YYPACT_NINF {
      DefaultIsTaken(yystate, Ahead(Remaining(yychar, scanner.Pending())));
      action := DefaultAction(yystate);
      return;
    }
    if yychar.Empty? {
      yychar, yylval := NextToken(yylval, scanner, whole);
    }
    var yytoken := if yychar.AtEnd? then END else Internal(yychar.token);
    action := Lookup(yystate, yytoken);
    InternalIsToken(yychar);
    EndIsNotShifted(yystate, yytoken);
  }

  lemma InternalIsToken(yychar: Lookahead)
    ensures yychar.Has? ==> END < Internal(yychar.token) < YYNTOKENS
  {
  }

  lemma DefaultIsTaken(state: nat, token: nat)
    requires state < YYNSTATES && YYPACT[state] == YYPACT_NINF
    ensures DefaultAction(state) == TableAction(state, token)
    ensures DefaultAction(state).Reduce?
  {
  }

  /** The end of input is never shifted, and nothing else is accepted at. */
  lemma EndIsNotShifted(state: nat, token: nat)
    requires state < YYNSTATES && token < YYNTOKENS
    ensures token == END ==> !TableAction(state, token).Shift?
    ensures token != END ==> !TableAction(state, token).Accept?
  {
    ActionsDecode(state, token);
  }

  /** yychar = yylex (). */
  method NextToken(yylval0: int, scanner: S.Scanner, ghost whole: Bytes) returns (yychar: Lookahead, yylval: int)
    requires scanner.Idle() && Reporting(scanner.printed, scanner.Pending(), whole)
    modifies scanner, scanner.chBuf
    ensures scanner.Idle() && (scanner.chBuf == old(scanner.chBuf) || fresh(scanner.chBuf))
    ensures LookaheadOk(yychar, yylval, yylval0, scanner.Pending()) && !yychar.Empty?
    ensures Reporting(scanner.printed, scanner.Pending(), whole)
    ensures Remaining(yychar, scanner.Pending()) == TokensIn(old(scanner.Pending()))
  {
    hide TokensIn, L.Reports, L.Next;
    ghost var s, reported := scanner.Pending(), scanner.printed;
    TokensNext(s);
    var token := scanner.Yylex();
    ReportingNext(reported, s, whole);
    yylval := yylval0;
    if token.None? {
      yychar := AtEnd;
    } else {
      yychar := Has(TokenOf(token.value));
      if yychar.token.Number? {
        yylval := yychar.token.value;
      }
    }
  }

  lemma ReportingNext(reported: Bytes, s: Bytes, whole: Bytes)
    requires Reporting(reported, s, whole)
    ensures var r := L.Next(s); Reporting(reported + r.reports, r.rest, whole)
  {
    hide L.Next, L.Reports;
    var r := L.Next(s);
    TokensNext(s);
    NothingIn();
    assert reported + (r.reports + L.Reports(r.rest)) == reported + r.reports + L.Reports(r.rest);
  }

  /** The compressed tables, probed as the parser does. */
  method Lookup(yystate: nat, yytoken: nat) returns (action: Action)
    requires yystate < YYNSTATES && YYPACT[yystate] != YYPACT_NINF
    ensures action == TableAction(yystate, yytoken)
  {
    var yyn := YYPACT[yystate] + yytoken;
    if yyn < 0 || YYLAST < yyn || YYCHECK[yyn] != yytoken {
      return DefaultAction(yystate);
    }
    yyn := YYTABLE[yyn];
    assert yyn > 0;   // these tables hold no reductions and no errors: both are default actions
    if yyn == YYFINAL {
      return Accept;
    }
    return Shift(yyn);
  }

  // ---- the stacks -----------------------------------------------------------------------

  /** The stacks, in arrays of which the first `top + 1` elements are in use. */
  ghost predicate Holds(yyss: array<nat>, yyvs: array<int>, top: nat, p: Parser)
    reads yyss, yyvs
  {
    && yyss.Length == yyvs.Length && top < yyss.Length
    && yyss[..top + 1] == p.states && yyvs[..top + 1] == p.vals
  }

  /** yynewstate: a state and a value go on top. */
  method PushSymbol(yyss: array<nat>, yyvs: array<int>, top0: nat, state: nat, value: int,
                    ghost p: Parser, ghost q: Parser)
    returns (top: nat)
    requires Holds(yyss, yyvs, top0, p) && top0 + 1 < yyss.Length
    requires q.states == p.states + [state] && q.vals == p.vals + [value]
    modifies yyss, yyvs
    ensures Holds(yyss, yyvs, top, q) && top == top0 + 1
  {
    top := top0 + 1;
    yyvs[top] := value;
    yyss[top] := state;
    assert yyss[..top + 1] == yyss[..top] + [state] && yyvs[..top + 1] == yyvs[..top] + [value];
  }

  /** The stacks are moved to arrays twice as long, but never longer than YYMAXDEPTH. */
  method Relocate(yyss: array<nat>, yyvs: array<int>, top: nat, ghost p: Parser)
    returns (yyss': array<nat>, yyvs': array<int>)
    requires Holds(yyss, yyvs, top, p) && yyss.Length < YYMAXDEPTH
    ensures fresh(yyss') && fresh(yyvs') && Holds(yyss', yyvs', top, p)
    ensures yyss.Length < yyss'.Length == (if 2 * yyss.Length > YYMAXDEPTH then YYMAXDEPTH else 2 * yyss.Length)
  {
    var yystacksize := 2 * yyss.Length;
    if YYMAXDEPTH < yystacksize {
      yystacksize := YYMAXDEPTH;
    }
    yyss', yyvs' := new nat[yystacksize], new int[yystacksize];
    for i := 0 to top + 1
      invariant yyss'[..i] == yyss[..i] && yyvs'[..i] == yyvs[..i]
      invariant Holds(yyss, yyvs, top, p)
    {
      yyss'[i], yyvs'[i] := yyss[i], yyvs[i];
      assert yyss'[..i + 1] == yyss'[..i] + [yyss[i]] && yyss[..i + 1] == yyss[..i] + [yyss[i]];
      assert yyvs'[..i + 1] == yyvs'[..i] + [yyvs[i]] && yyvs[..i + 1] == yyvs[..i] + [yyvs[i]];
    }
  }

  // ---- reductions -----------------------------------------------------------------------

  /** p after the pops of a reduction and its printing, before the result is pushed. */
  function Popped(p: Parser, rule: nat, printed: seq<int>): (q: Parser)
    requires WfParser(p) && 0 < rule < |YYR2| && YYR2[rule] < |p.states|
  {
    p.(states := p.states[..|p.states| - YYR2[rule]], vals := p.vals[..|p.vals| - YYR2[rule]], out := p.out + printed)
  }

  /** The action of a rule: the value of its left-hand side and what it prints, if it does not
      divide by zero. */
  method RunAction(yyvs: array<int>, top: nat, rule: nat, ghost vals: seq<int>)
    returns (yyval: int, printed: seq<int>, trapped: bool)
    requires 0 < rule < |YYR2| && YYR2[rule] <= top < yyvs.Length && yyvs[..top + 1] == vals
    ensures trapped == Semantic(rule, vals).None?
    ensures !trapped ==> Semantic(rule, vals) == Some(yyval)
    ensures printed == (if rule == 3 then [vals[|vals| - 2]] else [])
  {
    var yylen := YYR2[rule];
    assert forall i :: 0 <= i <= top ==> yyvs[i] == vals[i];
    yyval, printed, trapped := if yylen == 0 then 0 else yyvs[top + 1 - yylen], [], false;
    match rule
    case 3 => printed := [yyvs[top - 1]];
    case 4 => yyval := yyvs[top - 2] + yyvs[top];
    case 5 => yyval := yyvs[top - 2] - yyvs[top];
    case 7 => yyval := yyvs[top - 2] * yyvs[top];
    case 8 =>
      if yyvs[top] == 0 {
        trapped := true;
      } else {
        yyval := TruncDiv(yyvs[top - 2], yyvs[top]);
      }
    case 9 =>
      if yyvs[top] == 0 {
        trapped := true;
      } else {
        yyval := TruncMod(yyvs[top - 2], yyvs[top]);
      }
    case 12 => yyval := yyvs[top - 1];
    case _ =>
  }

  /** The state after a reduction, from the state its pops uncover. */
  method GotoState(yyss: array<nat>, top: nat, rule: nat) returns (yystate: int)
    requires 0 < rule < |YYR2| && top < yyss.Length && yyss[top] < YYNSTATES
    ensures yystate == TableGoto(yyss[top], YYR1[rule])
  {
    var yyn := YYR1[rule] - YYNTOKENS;
    yystate := YYPGOTO[yyn] + yyss[top];
    if 0 <= yystate <= YYLAST && YYCHECK[yystate] == yyss[top] {
      yystate := YYTABLE[yystate];
    } else {
      yystate := YYDEFGOTO[yyn];
    }
  }

  /** yyreduce, up to the push of its result. */
  method ReduceBy(yyss: array<nat>, yyvs: array<int>, top0: nat, rule: nat, ghost p: Parser)
    returns (yyval: int, yystate: nat, top: nat, printed: seq<int>, trapped: bool)
    requires Holds(yyss, yyvs, top0, p) && WfParser(p) && 0 < rule < |YYR2|
    requires p.status.Running? && !Reduced(p, rule).status.Broken?
    ensures trapped ==> Reduced(p, rule) == p.(status := Trapped)
    ensures !trapped ==> YYR2[rule] < |p.states| && Holds(yyss, yyvs, top, Popped(p, rule, printed)) && top <= top0
                         && Reduced(p, rule) == (var b := Popped(p, rule, printed);
                                                 b.(states := b.states + [yystate], vals := b.vals + [yyval]))
  {
    hide Semantic, TableGoto;
    yystate, top := 0, top0;
    yyval, printed, trapped := RunAction(yyvs, top0, rule, p.vals);
    if !trapped {
      top := top0 - YYR2[rule];
      assert yyss[..top + 1] == p.states[..top + 1] && yyvs[..top + 1] == p.vals[..top + 1];
      assert yyss[top] == Top(p.states[..top + 1]);
      yystate := GotoState(yyss, top, rule);
    }
  }

  // ---- errors ---------------------------------------------------------------------------

  /** The tables, probed for a shift of the error token. */
  method ProbeError(yystate: nat) returns (yyn: int)
    requires yystate < YYNSTATES
    ensures yyn > 0 <==> ShiftsError(yystate)
  {
    yyn := YYPACT[yystate];
    if yyn != YYPACT_NINF {
      yyn := yyn + YYTERROR;
      if 0 <= yyn && yyn <= YYLAST && YYCHECK[yyn] == YYTERROR {
        yyn := YYTABLE[yyn];
        return;
      }
    }
    return 0;
  }

  predicate ShiftsError(state: nat)
    requires state < YYNSTATES
  {
    var yyn := YYPACT[state] + YYTERROR;
    YYPACT[state] != YYPACT_NINF && 0 <= yyn <= YYLAST && YYCHECK[yyn] == YYTERROR && 0 < YYTABLE[yyn]
  }

  /** yyerrlab1: states are popped until one shifts the error token.  None does, so all are
      popped and the parse is aborted. */
  method Recover(yyss: array<nat>, top0: nat, ghost p: Parser) returns (top: nat, found: bool)
    requires top0 < yyss.Length && yyss[..top0 + 1] == p.states && WfParser(p)
    ensures top == 0 && !found
  {
    top, found := top0, false;
    while true
      invariant top <= top0
      decreases top
    {
      assert yyss[top] == p.states[top];
      var yyn := ProbeError(yyss[top]);
      NoErrorShift(yyss[top]);
      found := 0 < yyn;
      if found || top == 0 {
        break;
      }
      top := top - 1;
    }
  }

  // ---- the loop -------------------------------------------------------------------------

  /** The local variables agree with a state of the machine. */
  ghost predicate Agrees(yyss: array<nat>, yyvs: array<int>, top: nat, yychar: Lookahead, yylval: int, rest: Bytes,
                         out: seq<int>, p: Parser)
    reads yyss, yyvs
  {
    && Holds(yyss, yyvs, top, p) && out == p.out
    && LookaheadOk(yychar, yylval, p.lval, rest) && Remaining(yychar, rest) == p.rest
  }

  /** The scanner is ready, and has reported what the text before its rest gives. */
  ghost predicate Scanning(scanner: S.Scanner, whole: Bytes)
    reads scanner, scanner.chBuf
  {
    scanner.Idle() && Reporting(scanner.printed, scanner.Pending(), whole)
  }

  /** A parse has ended with the token it looked at. */
  predicate Ended(yychar: Lookahead, yylval: int, rest: Bytes, p: Parser) {
    !yychar.Empty? && LookaheadOk(yychar, yylval, p.lval, rest) && Remaining(yychar, rest) == p.rest
  }

  /** One round, from yybackup to the next push, is one step of the machine. */
  method Advance(yyss: array<nat>, yyvs: array<int>, top0: nat, yychar0: Lookahead, yylval0: int,
                 scanner: S.Scanner, out0: seq<int>, ghost p: Parser, ghost whole: Bytes)
    returns (status: Status, top: nat, yychar: Lookahead, yylval: int, out: seq<int>)
    requires Scanning(scanner, whole) && top0 + 1 < yyss.Length
    requires Agrees(yyss, yyvs, top0, yychar0, yylval0, scanner.Pending(), out0, p)
    requires WfParser(p) && p.status.Running? && !Step(p).status.Broken?
    modifies yyss, yyvs, scanner, scanner.chBuf
    ensures Scanning(scanner, whole) && (scanner.chBuf == old(scanner.chBuf) || fresh(scanner.chBuf))
    ensures status == Step(p).status && out == Step(p).out
    ensures status.Running? ==> Agrees(yyss, yyvs, top, yychar, yylval, scanner.Pending(), out, Step(p))
    ensures status.Accepted? || status.Aborted? ==> Ended(yychar, yylval, scanner.Pending(), Step(p))
    ensures status.Accepted? ==> scanner.Pending() == []
  {
    hide Step, TableAction, Reduced, Reporting, TokensIn, Holds, Shifted, S.Scanner.Idle, S.Scanner.Pending, Ended;
    hide LookaheadOk, Remaining;
    top, out, status := top0, out0, Running;
    HoldsTop(yyss, yyvs, top, p);
    var action;
    action, yychar, yylval := Decide(yyss[top], yychar0, yylval0, scanner, p.lval, whole);
    ActionInRange(yyss[top], Ahead(p.rest));
    StepIsAct(p, action);
    match action
    case Shift(state) =>
      ShiftTakes(yychar, yylval, scanner.Pending(), p, state);
      top := PushSymbol(yyss, yyvs, top, state, yylval, p, Shifted(p, state));
      yychar := Empty;
    case Reduce(rule) =>
      status, top, out := ReduceRound(yyss, yyvs, top, rule, out, p);
    case Accept =>
      status := Accepted;
      StopEnds(yychar, yylval, scanner.Pending(), p, Accepted);
    case Error =>
      var found;
      HoldsTop(yyss, yyvs, top, p);
      top, found := Recover(yyss, top, p);
      status := if found then Running else Aborted;
      StopEnds(yychar, yylval, scanner.Pending(), p, Aborted);
  }

  lemma HoldsTop(yyss: array<nat>, yyvs: array<int>, top: nat, p: Parser)
    requires Holds(yyss, yyvs, top, p) && WfParser(p)
    ensures top < yyss.Length && yyss[top] == Top(p.states) && yyss[..top + 1] == p.states
  {
  }

  /** The token that was read is shifted with its value. */
  lemma ShiftTakes(yychar: Lookahead, yylval: int, rest: Bytes, p: Parser, state: nat)
    requires yychar.Has? && LookaheadOk(yychar, yylval, p.lval, rest) && Remaining(yychar, rest) == p.rest
    ensures var q := Shifted(p, state);
            && q.states == p.states + [state] && q.vals == p.vals + [yylval] && q.out == p.out && q.status == p.status
            && LookaheadOk(Empty, yylval, q.lval, rest) && Remaining(Empty, rest) == q.rest
  {
    hide TokensIn;
  }

  lemma StopEnds(yychar: Lookahead, yylval: int, rest: Bytes, p: Parser, status: Status)
    requires !yychar.Empty? && LookaheadOk(yychar, yylval, p.lval, rest) && Remaining(yychar, rest) == p.rest
    ensures Ended(yychar, yylval, rest, p.(status := status)) && (yychar.AtEnd? ==> rest == [])
  {
    hide TokensIn;
  }

  /** A reduction and the push of its result. */
  method ReduceRound(yyss: array<nat>, yyvs: array<int>, top0: nat, rule: nat, out0: seq<int>, ghost p: Parser)
    returns (status: Status, top: nat, out: seq<int>)
    requires Holds(yyss, yyvs, top0, p) && out0 == p.out && top0 + 1 < yyss.Length && WfParser(p)
    requires p.status.Running? && 0 < rule < |YYR2| && !Reduced(p, rule).status.Broken?
    modifies yyss, yyvs
    ensures var q := Reduced(p, rule);
            && status == q.status && out == q.out && q.rest == p.rest && q.lval == p.lval
            && (status.Running? ==> Holds(yyss, yyvs, top, q))
            && (status.Running? || status.Trapped?)
  {
    hide Reduced, Holds, Semantic;
    status, top, out := Running, top0, out0;
    var yyval, yystate, popped, printed, trapped := ReduceBy(yyss, yyvs, top, rule, p);
    if trapped {
      status := Trapped;
    } else {
      top := PushSymbol(yyss, yyvs, popped, yystate, yyval, Popped(p, rule, printed), Reduced(p, rule));
      out := out + printed;
    }
  }

  lemma StepIsAct(p: Parser, action: Action)
    requires WfParser(p) && p.status.Running? && Legal(action) && action == TableAction(Top(p.states), Ahead(p.rest))
    ensures Step(p) == Act(p, action)
  {
    hide Act;
  }

  /** How deep the stacks may become: no deeper than their first arrays if no memory can be had. */
  function DepthLimit(gotMemory: bool): (n: nat) {
    if gotMemory then YYMAXDEPTH else YYINITDEPTH
  }

  /** Some state of the run fills the stacks. */
  ghost predicate Overflows(input: seq<Token>, lval: int, limit: nat) {
    exists n: nat :: |Iterate(Start(input, lval), n).states| >= limit
  }

  // every symbol on the stacks but the first two has taken a token

  ghost predicate Shallow(p: Parser, n: nat) {
    && WfParser(p) && (forall i :: 0 < i < |p.states| ==> p.states[i] != 0)
    && |p.states| + |p.rest| <= n + 2 && (|p.states| == 1 ==> |p.rest| <= n)
  }

  lemma ActionKeepsShallow(state: nat, rest: seq<Token>)
    requires state < YYNSTATES
    ensures var a := TableAction(state, Ahead(rest));
            && (a.Shift? ==> rest != [] && a.state != 0)
            && (a.Reduce? && YYR2[a.rule] == 0 ==> state == 0)
  {
    hide TableAction;
    ActionsDecode(state, Ahead(rest));
    EndIsNotShifted(state, Ahead(rest));
  }

  lemma GotoIsNotStart(state: nat, rule: nat)
    requires state < YYNSTATES && 0 < rule < |YYR2|
    ensures TableGoto(state, YYR1[rule]) != 0
  {
  }

  lemma StepKeepsShallow(p: Parser, n: nat)
    requires Shallow(p, n)
    ensures Shallow(Step(p), n)
  {
    hide TableAction, TableGoto, Semantic;
    if p.status.Running? {
      var top := Top(p.states);
      ActionKeepsShallow(top, p.rest);
      ActionInRange(top, Ahead(p.rest));
      var a := TableAction(top, Ahead(p.rest));
      if a.Reduce? && YYR2[a.rule] < |p.states| {
        GotoIsNotStart(Top(p.states[..|p.states| - YYR2[a.rule]]), a.rule);
      }
    }
  }

  lemma {:induction false} RunIsShallow(p: Parser, n: nat, m: nat)
    requires Shallow(p, n)
    ensures |Iterate(p, m).states| <= n + 2
    decreases m
  {
    if m > 0 {
      StepKeepsShallow(p, n);
      RunIsShallow(Step(p), n, m - 1);
    }
  }

  /** An input with two tokens less than the stacks have room for never fills them. */
  lemma ShortInputsFit(input: seq<Token>, lval: int, limit: nat)
    requires |input| + 2 < limit
    ensures !Overflows(input, lval, limit)
  {
    forall m: nat
      ensures |Iterate(Start(input, lval), m).states| < limit
    {
      RunIsShallow(Start(input, lval), |input|, m);
    }
  }

  ghost predicate ShallowUpTo(input: seq<Token>, lval: int, limit: nat, n: nat) {
    forall m: nat | m <= n :: |Iterate(Start(input, lval), m).states| < limit
  }

  /** The n-th state of the run, with at most `moves` moves left. */
  ghost predicate Reached(input: seq<Token>, lval: int, n: nat, p: Parser, moves: int) {
    Iterate(Start(input, lval), n) == p && Describable(p, input, moves)
  }

  lemma ReachedNext(input: seq<Token>, lval: int, n: nat, p: Parser, moves: int)
    requires WfParser(p) && p.status.Running? && Reached(input, lval, n, p, moves)
    ensures Reached(input, lval, n + 1, Step(p), moves - 1) && moves >= 0 && !Step(p).status.Broken?
  {
    StepIsDescribable(p, input, moves);
    IterateNext(Start(input, lval), n);
  }

  /** The n-th state of the run, which has been shallow so far. */
  ghost predicate Tracks(input: seq<Token>, lval: int, limit: nat, n: nat, p: Parser, moves: int) {
    WfParser(p) && Reached(input, lval, n, p, moves) && ShallowUpTo(input, lval, limit, n)
  }

  lemma TracksStart(input: seq<Token>, lval: int, limit: nat)
    requires limit > 1
    ensures Tracks(input, lval, limit, 0, Start(input, lval), 10 * |input| + 1)
  {
    StartIsDescribed(input, lval);
  }

  /** The next state of the run is tracked too, unless it is too deep. */
  lemma TracksNext(input: seq<Token>, lval: int, limit: nat, n: nat, p: Parser, moves: int)
    requires Tracks(input, lval, limit, n, p, moves) && p.status.Running?
    ensures WfParser(Step(p)) && !Step(p).status.Broken? && moves >= 0
    ensures if |Step(p).states| < limit then Tracks(input, lval, limit, n + 1, Step(p), moves - 1)
            else Step(p).status.Running? && Overflows(input, lval, limit) && Step(p).out <= Parse(input, lval).out
  {
    ReachedNext(input, lval, n, p, moves);
    TracksShallow(input, lval, limit, n, p);
    ReachedIsPrinted(input, lval, Step(p));
    assert Iterate(Start(input, lval), n) == p;
    if !Step(p).status.Running? {
      StopKeepsStates(p);
    }
  }

  lemma TracksShallow(input: seq<Token>, lval: int, limit: nat, n: nat, p: Parser)
    requires ShallowUpTo(input, lval, limit, n) && WfParser(p) && Iterate(Start(input, lval), n + 1) == Step(p)
    ensures |Step(p).states| < limit ==> ShallowUpTo(input, lval, limit, n + 1)
  {
    hide Step;
    forall m: nat | m <= n + 1 && |Step(p).states| < limit
      ensures |Iterate(Start(input, lval), m).states| < limit
    {
      assert m == n + 1 || m <= n;
    }
  }

  lemma StopKeepsStates(p: Parser)
    requires WfParser(p) && !Step(p).status.Running?
    ensures Step(p).states == p.states
  {
  }

  lemma TracksToTheEnd(input: seq<Token>, lval: int, limit: nat, n: nat, p: Parser, moves: int)
    requires Tracks(input, lval, limit, n, p, moves) && !p.status.Running?
    ensures !Overflows(input, lval, limit) && p == Parse(input, lval)
  {
    var start := Start(input, lval);
    ParserStops(input, lval);
    StoppedTwice(start, n, Bound(input));
    if Overflows(input, lval, limit) {
      var m: nat :| |Iterate(start, m).states| >= limit;
      if m > n {
        IterateLater(start, n, m);
      }
      assert false;
    }
  }

  function Code(status: Status): (outcome: Outcome) {
    match status
    case Accepted => Returned(0)
    case Trapped => DivisionTrap
    case _ => Returned(1)
  }

  /** yysetstate: when the stacks are full they are moved, unless they are as long as they may
      become or no memory can be had. */
  method MakeRoom(yyss: array<nat>, yyvs: array<int>, top: nat, gotMemory: bool, ghost p: Parser)
    returns (ok: bool, yyss': array<nat>, yyvs': array<int>)
    requires Holds(yyss, yyvs, top, p) && YYINITDEPTH <= yyss.Length <= DepthLimit(gotMemory)
    ensures ok == (|p.states| < DepthLimit(gotMemory))
    ensures ok ==> Holds(yyss', yyvs', top, p) && top + 1 < yyss'.Length
    ensures ok ==> YYINITDEPTH <= yyss'.Length <= DepthLimit(gotMemory)
    ensures (yyss' == yyss && yyvs' == yyvs) || (fresh(yyss') && fresh(yyvs'))
  {
    ok, yyss', yyvs' := true, yyss, yyvs;
    assert |p.states| == top + 1;
    if yyss.Length - 1 <= top {
      if YYMAXDEPTH <= yyss.Length || !gotMemory {
        ok := false;
      } else {
        yyss', yyvs' := Relocate(yyss, yyvs, top, p);
      }
    }
  }

  /** The tokens behind the one a parse has ended with, and the value of the last number read. */
  function Behind(p: Parser): (ts: seq<Token>) {
    if p.rest == [] then [] else p.rest[1..]
  }

  function LastValue(p: Parser): (v: int) {
    ReadValue(p.rest, p.lval)
  }

  lemma EndedIsBehind(yychar: Lookahead, yylval: int, rest: Bytes, p: Parser)
    requires Ended(yychar, yylval, rest, p)
    ensures TokensIn(rest) == Behind(p) && yylval == LastValue(p)
  {
    hide TokensIn;
    NothingIn();
  }

  /** A call of yyparse on what the scanner has before it returns 2 exactly when the stacks overflow; otherwise it
      ends as the machine does, having printed the same values.  The scanner has reported what lies before
      the text it leaves, and leaves the tokens behind the one the parse ended with. */
  method Run(scanner: S.Scanner, lval: int, gotMemory: bool) returns (outcome: Outcome, out: seq<int>, yylval: int)
    requires scanner.Idle()
    modifies scanner, scanner.chBuf
    ensures scanner.Idle() && (scanner.chBuf == old(scanner.chBuf) || fresh(scanner.chBuf))
    ensures var input := TokensIn(old(scanner.Pending()));
            && (outcome == Returned(2) <==> Overflows(input, lval, DepthLimit(gotMemory)))
            && (outcome != Returned(2) ==> outcome == Code(Parse(input, lval).status) && out == Parse(input, lval).out)
            && (outcome == Returned(2) ==> out <= Parse(input, lval).out)
            && (outcome == Returned(0) || outcome == Returned(1) ==>
                  TokensIn(scanner.Pending()) == Behind(Parse(input, lval)) && yylval == LastValue(Parse(input, lval)))
    ensures scanner.printed + L.Reports(scanner.Pending()) == old(scanner.printed + L.Reports(scanner.Pending()))
    ensures outcome == Returned(0) ==> scanner.Pending() == []
  {
    hide Step, Parse, Tracks, WfParser, Overflows, L.Reports, TokensIn, S.Scanner.Idle, S.Scanner.Pending, Ended;
    hide Holds;
    var yyss, yyvs := new nat[YYINITDEPTH], new int[YYINITDEPTH];
    yyss[0], yyvs[0] := 0, 0;
    var top: nat, yychar, status := 0, Empty, Running;
    yylval, out := lval, [];
    ghost var input, whole := TokensIn(scanner.Pending()), scanner.printed + L.Reports(scanner.Pending());
    ghost var p, n, moves := Start(input, lval), 0, 10 * |input| + 1;
    ghost var limit := DepthLimit(gotMemory);
    TracksStart(input, lval, limit);
    StartHolds(yyss, yyvs, input, lval);
    while status.Running?
      invariant Scanning(scanner, whole) && (scanner.chBuf == old(scanner.chBuf) || fresh(scanner.chBuf))
      invariant Tracks(input, lval, limit, n, p, moves) && WfParser(p) && status == p.status && out == p.out
      invariant fresh(yyss) && fresh(yyvs) && YYINITDEPTH <= yyss.Length <= limit
      invariant status.Running? ==>
                  Agrees(yyss, yyvs, top, yychar, yylval, scanner.Pending(), out, p) && top + 1 < yyss.Length
      invariant status.Accepted? || status.Aborted? ==> Ended(yychar, yylval, scanner.Pending(), p)
      invariant status.Accepted? ==> scanner.Pending() == []
      decreases status.Running?, moves
    {
      TracksNext(input, lval, limit, n, p, moves);
      status, top, yychar, yylval, out := Advance(yyss, yyvs, top, yychar, yylval, scanner, out, p, whole);
      p, n, moves := Step(p), n + 1, moves - 1;
      if status.Running? {
        var ok;
        ok, yyss, yyvs := MakeRoom(yyss, yyvs, top, gotMemory, p);
        if !ok {
          return Returned(2), out, yylval;
        }
      }
    }
    TracksToTheEnd(input, lval, limit, n, p, moves);
    ParserStops(input, lval);
    if !status.Trapped? {
      EndedIsBehind(yychar, yylval, scanner.Pending(), p);
    }
    outcome := Code(status);
  }

  lemma StartHolds(yyss: array<nat>, yyvs: array<int>, input: seq<Token>, lval: int)
    requires yyss.Length == yyvs.Length > 0 && yyss[0] == 0 && yyvs[0] == 0
    ensures Holds(yyss, yyvs, 0, Start(input, lval))
  {
  }
}
