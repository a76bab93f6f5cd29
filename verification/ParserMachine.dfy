/** The parser as a machine over its two stacks: one step is one shift, one reduction, or the
    end of the parse. */
module ParserMachine {
  import opened Options
  import opened ParserTables
  import opened CalcGrammar

  /** Trapped: an action divided by zero.  Broken: a reduction found too few states. */
  datatype Status = Running | Accepted | Aborted | Trapped | Broken

  datatype Parser = Parser(
    states: seq<nat>, vals: seq<int>,   // yyss and yyvs; the first value is never used
    rest: seq<Token>,                   // tokens not shifted yet
    lval: int,                          // yylval: the value of the last number read
    out: seq<int>,                      // values printed
    status: Status)

  function Start(input: seq<Token>, lval: int): (p: Parser) {
    Parser([0], [0], input, lval, [], Running)
  }

  /** YYTRANSLATE: the internal number of the next token; the end of input is token 0. */
  function Internal(t: Token): (n: nat) {
    match t
    case Plus => PLUS
    case Minus => MINUS
    case Mul => MUL
    case Div => DIV
    case Mod => MOD
    case Number(_) => NUMBER
    case LParen => LPAREN
    case RParen => RPAREN
    case Eol => EOL
    case Other => UNDEFINED
  }

  function Ahead(rest: seq<Token>): (n: nat) {
    if rest == [] then END else Internal(rest[0])
  }

  function ReadValue(rest: seq<Token>, lval: int): (v: int) {
    if rest != [] && rest[0].Number? then rest[0].value else lval
  }

  predicate WfParser(p: Parser) {
    && |p.states| == |p.vals| > 0
    && forall i :: 0 <= i < |p.states| ==> p.states[i] < YYNSTATES
  }

  function Top(s: seq<nat>): (state: nat)
    requires s != []
  {
    s[|s| - 1]
  }

  /** The value of the left-hand side, from the values of the right-hand side on top of the
      stack; None where the action would trap. */
  function Semantic(rule: nat, vs: seq<int>): (v: Option<int>)
    requires rule < |YYR2| && YYR2[rule] < |vs|
  {
    var n := |vs|;
    match rule
    case 4 => Some(vs[n - 3] + vs[n - 1])
    case 5 => Some(vs[n - 3] - vs[n - 1])
    case 7 => Some(vs[n - 3] * vs[n - 1])
    case 8 => if vs[n - 1] == 0 then None else Some(TruncDiv(vs[n - 3], vs[n - 1]))
    case 9 => if vs[n - 1] == 0 then None else Some(TruncMod(vs[n - 3], vs[n - 1]))
    case 12 => Some(vs[n - 2])
    case _ => Some(if YYR2[rule] == 0 then 0 else vs[n - YYR2[rule]])
  }

  function Reduced(p: Parser, rule: nat): (p': Parser)
    requires WfParser(p) && 0 < rule < |YYR2|
  {
    var len := YYR2[rule];
    if len >= |p.states| then p.(status := Broken)
    else
      var v := Semantic(rule, p.vals);
      if v.None? then p.(status := Trapped)
      else
        var out := if rule == 3 then p.out + [p.vals[|p.vals| - 2]] else p.out;
        var states := p.states[..|p.states| - len];
        var target := TableGoto(Top(states), YYR1[rule]);
        if target < 0 || target >= YYNSTATES then p.(status := Broken)
        else p.(states := states + [target], vals := p.vals[..|p.vals| - len] + [v.value], out := out)
  }

  function Shifted(p: Parser, state: nat): (p': Parser) {
    var lval := ReadValue(p.rest, p.lval);
    p.(states := p.states + [state], vals := p.vals + [lval], lval := lval,
       rest := if p.rest == [] then [] else p.rest[1..])
  }

  predicate Legal(a: Action) {
    (a.Shift? ==> a.state < YYNSTATES) && (a.Reduce? ==> 0 < a.rule < |YYR2|)
  }

  lemma ActionInRange(state: nat, token: nat)
    requires state < YYNSTATES
    ensures Legal(TableAction(state, token))
  {
    hide TableAction;
    ActionsDecode(state, token);
  }

  function Act(p: Parser, a: Action): (p': Parser)
    requires WfParser(p) && Legal(a)
    ensures WfParser(p')
  {
    match a
    case Shift(state) => Shifted(p, state)
    case Reduce(rule) => Reduced(p, rule)
    case Accept => p.(status := Accepted)
    case Error => p.(status := Aborted)
  }

  function Step(p: Parser): (p': Parser)
    requires WfParser(p)
    ensures WfParser(p')
  {
    if !p.status.Running? then p
    else
      ActionInRange(Top(p.states), Ahead(p.rest));
      Act(p, TableAction(Top(p.states), Ahead(p.rest)))
  }

  function Iterate(p: Parser, n: nat): (p': Parser)
    requires WfParser(p)
    ensures WfParser(p')
    decreases n
  {
    if n == 0 then p else Iterate(Step(p), n - 1)
  }

  lemma FirstMove(p: Parser) returns (q: Parser)
    requires WfParser(p)
    ensures WfParser(q) && forall n: nat | n > 0 :: Iterate(p, n) == Iterate(q, n - 1)
  {
    q := Step(p);
  }

  lemma {:induction false} IterateAdd(p: Parser, m: nat, n: nat)
    requires WfParser(p)
    ensures Iterate(p, m + n) == Iterate(Iterate(p, m), n)
    decreases m
  {
    if m > 0 {
      var q := FirstMove(p);
      IterateAdd(q, m - 1, n);
      assert Iterate(p, m) == Iterate(q, m - 1) && Iterate(p, m + n) == Iterate(q, m - 1 + n);
    }
  }

  /** A parser that has stopped stays as it is. */
  lemma {:induction false} IterateStopped(p: Parser, n: nat)
    requires WfParser(p) && !p.status.Running?
    ensures Iterate(p, n) == p
  {
    if n > 0 {
      IterateStopped(p, n - 1);
    }
  }

  lemma IterateNext(p: Parser, n: nat)
    requires WfParser(p)
    ensures Iterate(p, n + 1) == Step(Iterate(p, n))
  {
    IterateAdd(p, n, 1);
    IterateOnce(Iterate(p, n));
  }

  lemma IterateOnce(p: Parser)
    requires WfParser(p)
    ensures Iterate(p, 1) == Step(p)
  {
    assert Iterate(Step(p), 0) == Step(p);
  }

  lemma IterateLater(p: Parser, m: nat, n: nat)
    requires WfParser(p) && !Iterate(p, m).status.Running? && m <= n
    ensures Iterate(p, n) == Iterate(p, m)
  {
    hide Step;
    IterateAdd(p, m, n - m);
    IterateStopped(Iterate(p, m), n - m);
  }

  ghost predicate Reaches(p: Parser, q: Parser)
    requires WfParser(p)
  {
    exists n: nat :: Iterate(p, n) == q
  }

  lemma ReachesStep(p: Parser, q: Parser)
    requires WfParser(p) && Reaches(Step(p), q)
    ensures Reaches(p, q)
  {
    var n: nat :| Iterate(Step(p), n) == q;
    assert Iterate(p, n + 1) == q;
  }

  lemma ReachesSelf(p: Parser)
    requires WfParser(p)
    ensures Reaches(p, p)
  {
    assert Iterate(p, 0) == p;
  }

  lemma ReachesTrans(p: Parser, q: Parser, r: Parser)
    requires WfParser(p) && Reaches(p, q) && WfParser(q) && Reaches(q, r)
    ensures Reaches(p, r)
  {
    var m: nat :| Iterate(p, m) == q;
    var n: nat :| Iterate(q, n) == r;
    IterateAdd(p, m, n);
  }
}
