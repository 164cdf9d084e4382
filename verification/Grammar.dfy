// The LALR(1) automaton of the libconfig grammar: the compressed tables that Bison
// generated, the grammar they were generated from, and the graph of the automaton.
// Symbols are numbered as in the tables: 0..22 are terminals, 23..45 nonterminals.
module Grammar {

  const YYFINAL := 6
  const YYLAST := 37
  const YYNTOKENS := 23
  const YYNNTS := 23
  const YYNRULES := 43
  const YYNSTATES := 51
  const YYPACT_NINF := -26
  const YYINITDEPTH := 200
  const YYMAXDEPTH := 10000

  // ---------- The generated tables ----------

  // yypact: where the action row of a state starts in yytable.
  function Pact(i: int): int
  {
    match i
    case 0 => 2 case 1 => -26 case 2 => 10 case 3 => 2 case 4 => -26 case 5 => 5 case 6 => -26 case 7 => -26
    case 8 => 0 case 9 => -26 case 10 => -26 case 11 => -26 case 12 => -26 case 13 => -26 case 14 => -26
    case 15 => -26 case 16 => -26 case 17 => -26 case 18 => -26 case 19 => -26 case 20 => -26 case 21 => -6
    case 22 => 8 case 23 => -26 case 24 => -26 case 25 => 18 case 26 => 0 case 27 => 2 case 28 => -26
    case 29 => -26 case 30 => -26 case 31 => -26 case 32 => -26 case 33 => 11 case 34 => -26 case 35 => 15
    case 36 => -26 case 37 => 13 case 38 => -26 case 39 => 16 case 40 => 2 case 41 => 12 case 42 => 18
    case 43 => -26 case 44 => -26 case 45 => 0 case 46 => -26 case 47 => -26 case 48 => -26 case 49 => -26
    case 50 => -26 case _ => -26
  }

  // yydefact: the default reduction of a state, 0 for none.
  function DefAct(i: int): int
  {
    match i
    case 0 => 2 case 1 => 13 case 2 => 0 case 3 => 3 case 4 => 4 case 5 => 0 case 6 => 1 case 7 => 5
    case 8 => 0 case 9 => 25 case 10 => 26 case 11 => 28 case 12 => 27 case 13 => 29 case 14 => 30
    case 15 => 23 case 16 => 15 case 17 => 17 case 18 => 42 case 19 => 20 case 20 => 21 case 21 => 8
    case 22 => 31 case 23 => 19 case 24 => 22 case 25 => 40 case 26 => 35 case 27 => 6 case 28 => 10
    case 29 => 9 case 30 => 14 case 31 => 24 case 32 => 37 case 33 => 11 case 34 => 41 case 35 => 0
    case 36 => 32 case 37 => 11 case 38 => 36 case 39 => 0 case 40 => 7 case 41 => 0 case 42 => 12
    case 43 => 39 case 44 => 16 case 45 => 12 case 46 => 34 case 47 => 18 case 48 => 43 case 49 => 38
    case 50 => 33 case _ => 0
  }

  // yypgoto: where the goto row of a nonterminal starts, indexed from YYNTOKENS.
  function PGoto(i: int): int
  {
    match i
    case 0 => -26 case 1 => -26 case 2 => 6 case 3 => -26 case 4 => -26 case 5 => -2 case 6 => -3
    case 7 => -26 case 8 => -26 case 9 => -26 case 10 => -26 case 11 => -26 case 12 => -25 case 13 => -26
    case 14 => -23 case 15 => -26 case 16 => -26 case 17 => -26 case 18 => -26 case 19 => -26 case 20 => -26
    case 21 => -26 case 22 => -26 case _ => -26
  }

  // yydefgoto: the default goto of a nonterminal, indexed from YYNTOKENS.
  function DefGoto(i: int): int
  {
    match i
    case 0 => -1 case 1 => 2 case 2 => 3 case 3 => 41 case 4 => 30 case 5 => 43 case 6 => 4 case 7 => 5
    case 8 => 19 case 9 => 25 case 10 => 20 case 11 => 26 case 12 => 21 case 13 => 22 case 14 => 23
    case 15 => 37 case 16 => 38 case 17 => 39 case 18 => 33 case 19 => 34 case 20 => 35 case 21 => 24
    case 22 => 27 case _ => -1
  }

  // yytable: the packed action and goto rows.
  function Table(i: int): int
    requires 0 <= i <= YYLAST
  {
    match i
    case 0 => 7 case 1 => 36 case 2 => 32 case 3 => 9 case 4 => 10 case 5 => 11 case 6 => 12 case 7 => 13
    case 8 => 14 case 9 => 15 case 10 => 6 case 11 => 28 case 12 => 1 case 13 => 16 case 14 => 29
    case 15 => 17 case 16 => 8 case 17 => 31 case 18 => 18 case 19 => 49 case 20 => 50 case 21 => 9
    case 22 => 10 case 23 => 11 case 24 => 12 case 25 => 13 case 26 => 14 case 27 => 15 case 28 => 42
    case 29 => 44 case 30 => 45 case 31 => 48 case 32 => 47 case 33 => 40 case 34 => 0 case 35 => 46
    case 36 => 0 case 37 => 7 case _ => 0
  }

  // yycheck: the owner of each slot of yytable.
  function Check(i: int): int
    requires 0 <= i <= YYLAST
  {
    match i
    case 0 => 3 case 1 => 26 case 2 => 25 case 3 => 3 case 4 => 4 case 5 => 5 case 6 => 6 case 7 => 7
    case 8 => 8 case 9 => 9 case 10 => 0 case 11 => 17 case 12 => 10 case 13 => 13 case 14 => 20 case 15 => 15
    case 16 => 11 case 17 => 9 case 18 => 18 case 19 => 42 case 20 => 45 case 21 => 3 case 22 => 4
    case 23 => 5 case 24 => 6 case 25 => 7 case 26 => 8 case 27 => 9 case 28 => 17 case 29 => 14 case 30 => 17
    case 31 => 19 case 32 => 16 case 33 => 27 case 34 => -1 case 35 => 37 case 36 => -1 case 37 => 40 case _ => -1
  }

  // yystos: the symbol by which a state is entered.
  function Stos(i: int): int
  {
    match i
    case 0 => 0 case 1 => 10 case 2 => 24 case 3 => 25 case 4 => 29 case 5 => 30 case 6 => 0 case 7 => 29
    case 8 => 11 case 9 => 3 case 10 => 4 case 11 => 5 case 12 => 6 case 13 => 7 case 14 => 8 case 15 => 9
    case 16 => 13 case 17 => 15 case 18 => 18 case 19 => 31 case 20 => 33 case 21 => 35 case 22 => 36
    case 23 => 37 case 24 => 44 case 25 => 32 case 26 => 34 case 27 => 45 case 28 => 17 case 29 => 20
    case 30 => 27 case 31 => 9 case 32 => 37 case 33 => 41 case 34 => 42 case 35 => 43 case 36 => 35
    case 37 => 38 case 38 => 39 case 39 => 40 case 40 => 25 case 41 => 26 case 42 => 17 case 43 => 28
    case 44 => 14 case 45 => 17 case 46 => 28 case 47 => 16 case 48 => 19 case 49 => 37 case 50 => 35 case _ => 0
  }

  // yyr1: the left-hand side of a rule.
  function R1(i: int): int
  {
    match i
    case 0 => 0 case 1 => 23 case 2 => 24 case 3 => 24 case 4 => 25 case 5 => 25 case 6 => 26 case 7 => 26
    case 8 => 27 case 9 => 27 case 10 => 27 case 11 => 28 case 12 => 28 case 13 => 30 case 14 => 29
    case 15 => 32 case 16 => 31 case 17 => 34 case 18 => 33 case 19 => 35 case 20 => 35 case 21 => 35
    case 22 => 35 case 23 => 36 case 24 => 36 case 25 => 37 case 26 => 37 case 27 => 37 case 28 => 37
    case 29 => 37 case 30 => 37 case 31 => 37 case 32 => 38 case 33 => 38 case 34 => 39 case 35 => 40
    case 36 => 40 case 37 => 41 case 38 => 41 case 39 => 42 case 40 => 43 case 41 => 43 case 42 => 45
    case 43 => 44 case _ => 0
  }

  // yyr2: the number of symbols on the right-hand side of a rule.
  function R2(i: int): int
  {
    match i
    case 0 => 0 case 1 => 2 case 2 => 0 case 3 => 1 case 4 => 1 case 5 => 2 case 6 => 0 case 7 => 1
    case 8 => 0 case 9 => 1 case 10 => 1 case 11 => 0 case 12 => 1 case 13 => 0 case 14 => 5 case 15 => 0
    case 16 => 4 case 17 => 0 case 18 => 4 case 19 => 1 case 20 => 1 case 21 => 1 case 22 => 1 case 23 => 1
    case 24 => 2 case 25 => 1 case 26 => 1 case 27 => 1 case 28 => 1 case 29 => 1 case 30 => 1 case 31 => 1
    case 32 => 1 case 33 => 3 case 34 => 2 case 35 => 0 case 36 => 1 case 37 => 1 case 38 => 3 case 39 => 2
    case 40 => 0 case 41 => 1 case 42 => 0 case 43 => 4 case _ => 0
  }

  // ---------- The driver's decisions ----------

  datatype Move = Shift(state: int) | Reduce(rule: int) | Reject

  // What yybackup and yydefault decide in state s with the translated lookahead t.
  function Decide(s: int, t: int): Move
  {
    var i := Pact(s) + t;
    if Pact(s) == YYPACT_NINF || i < 0 || YYLAST < i || Check(i) != t then
      if DefAct(s) == 0 then Reject else Reduce(DefAct(s))
    else if Table(i) <= 0 then Reduce(-Table(i))
    else Shift(Table(i))
  }

  // The state pushed over state b after a reduction to the nonterminal a.
  function GoTo(b: int, a: int): int
  {
    var i := PGoto(a - YYNTOKENS) + b;
    if 0 <= i <= YYLAST && Check(i) == b then Table(i) else DefGoto(a - YYNTOKENS)
  }

  // ---------- The grammar ----------

  const END := 0
  const BOOLEAN := 3
  const INTEGER := 4
  const HEX := 5
  const INTEGER64 := 6
  const HEX64 := 7
  const FLOAT := 8
  const STRING := 9
  const NAME := 10
  const EQUALS := 11
  const ARRAY_START := 13
  const ARRAY_END := 14
  const LIST_START := 15
  const LIST_END := 16
  const COMMA := 17
  const GROUP_START := 18
  const GROUP_END := 19
  const SEMICOLON := 20
  const ACCEPT := 23
  const CONFIGURATION := 24
  const SETTING_LIST := 25
  const SETTING_LIST_OPT := 26
  const TERMINATOR := 27
  const COMMA_OPT := 28
  const SETTING := 29
  const MID_SETTING := 30
  const ARRAY := 31
  const MID_ARRAY := 32
  const LIST := 33
  const MID_LIST := 34
  const VALUE := 35
  const STRING_VALUE := 36
  const SIMPLE := 37
  const VALUE_SUB := 38
  const VALUE_LIST := 39
  const VALUE_LIST_OPT := 40
  const SIMPLE_SUB := 41
  const SIMPLE_LIST := 42
  const SIMPLE_LIST_OPT := 43
  const GROUP := 44
  const MID_GROUP := 45

  // The right-hand sides, as written in the grammar file.
  function Rhs(n: int): seq<int>
  {
    match n
    case 1 => [CONFIGURATION, END]
    case 2 => []
    case 3 => [SETTING_LIST]
    case 4 => [SETTING]
    case 5 => [SETTING_LIST, SETTING]
    case 6 => []
    case 7 => [SETTING_LIST]
    case 8 => []
    case 9 => [SEMICOLON]
    case 10 => [COMMA]
    case 11 => []
    case 12 => [COMMA]
    case 13 => []
    case 14 => [NAME, MID_SETTING, EQUALS, VALUE, TERMINATOR]
    case 15 => []
    case 16 => [ARRAY_START, MID_ARRAY, SIMPLE_LIST_OPT, ARRAY_END]
    case 17 => []
    case 18 => [LIST_START, MID_LIST, VALUE_LIST_OPT, LIST_END]
    case 19 => [SIMPLE]
    case 20 => [ARRAY]
    case 21 => [LIST]
    case 22 => [GROUP]
    case 23 => [STRING]
    case 24 => [STRING_VALUE, STRING]
    case 25 => [BOOLEAN]
    case 26 => [INTEGER]
    case 27 => [INTEGER64]
    case 28 => [HEX]
    case 29 => [HEX64]
    case 30 => [FLOAT]
    case 31 => [STRING_VALUE]
    case 32 => [VALUE]
    case 33 => [VALUE_SUB, COMMA, VALUE]
    case 34 => [VALUE_SUB, COMMA_OPT]
    case 35 => []
    case 36 => [VALUE_LIST]
    case 37 => [SIMPLE]
    case 38 => [SIMPLE_SUB, COMMA, SIMPLE]
    case 39 => [SIMPLE_SUB, COMMA_OPT]
    case 40 => []
    case 41 => [SIMPLE_LIST]
    case 42 => []
    case 43 => [GROUP_START, MID_GROUP, SETTING_LIST_OPT, GROUP_END]
    case _ => []
  }

  // ---------- The graph of the automaton ----------

  // The automaton has a transition from state b to state q, on the symbol Stos(q).
  predicate Edge(b: int, q: int)
  {
    match q
    case 1 => b == 0 || b == 3 || b == 27 || b == 40
    case 2 | 3 => b == 0
    case 4 => b == 0 || b == 27
    case 5 => b == 1
    case 6 => b == 2
    case 7 => b == 3 || b == 40
    case 8 => b == 5
    case 9 | 10 | 11 | 12 | 13 | 14 | 15 | 22 => b == 8 || b == 25 || b == 26 || b == 42 || b == 45
    case 16 | 17 | 18 | 19 | 20 | 23 | 24 => b == 8 || b == 26 || b == 45
    case 21 => b == 8
    case 25 => b == 16
    case 26 => b == 17
    case 27 => b == 18
    case 28 | 29 | 30 => b == 21
    case 31 => b == 22
    case 32 | 33 | 34 | 35 => b == 25
    case 36 | 37 | 38 | 39 => b == 26
    case 40 | 41 => b == 27
    case 42 | 43 => b == 33
    case 44 => b == 35
    case 45 | 46 => b == 37
    case 47 => b == 39
    case 48 => b == 41
    case 49 => b == 42
    case 50 => b == 45
    case _ => false
  }

  // A weight that falls at every reduction together with the height of the stack.
  function Rank(s: int): nat
  {
    match s
    case 3 | 7 | 28 | 29 | 34 | 38 | 40 | 43 | 46 => 1
    case 0 | 1 | 4 | 21 | 25 | 26 | 27 | 42 | 45 | 49 | 50 => 2
    case 33 | 37 | 44 | 47 | 48 => 3
    case 16 | 17 | 18 | 32 | 36 => 4
    case 19 | 20 | 23 | 24 => 5
    case 9 | 10 | 11 | 12 | 13 | 14 | 22 | 31 => 6
    case 15 => 7
    case _ => 0
  }

  // A state stack is a path of the automaton from its start state.
  ghost predicate Path(st: seq<int>)
  {
    && |st| > 0 && st[0] == 0
    && 0 <= st[|st| - 1] < YYNSTATES
    && forall i {:trigger st[i]} {:trigger Link(st, i)} :: Link(st, i)
  }

  // State i of the stack is entered along an edge from the state below it.
  predicate Link(st: seq<int>, i: int)
  {
    0 < i < |st| ==> Edge(st[i - 1], st[i])
  }

  // yyr1 and yyr2 encode the rules of the grammar file, and no right-hand side is
  // longer than five symbols.
  lemma RulesMatchTables(n: int)
    requires 1 <= n <= YYNRULES
    ensures |Rhs(n)| == R2(n) <= 5 && YYNTOKENS <= R1(n) < YYNTOKENS + YYNNTS
    ensures forall X :: X in Rhs(n) ==> 0 <= X < 46 && X != ACCEPT
  {
  }

  // A shift the driver decides on is a transition of the automaton on that token, and
  // the end of input is shifted only into the final state.
  lemma ShiftIsEdge(s: int, t: int, q: int)
    requires 0 <= s < YYNSTATES && 0 <= t < YYNTOKENS && Decide(s, t) == Shift(q)
    ensures 0 < q < YYNSTATES && Edge(s, q) && Stos(q) == t
    ensures q == YYFINAL <==> t == END
  {
    if s < 22 {
      ShiftIsEdgeLow(s, t, q);
    } else if s < 33 {
      ShiftIsEdgeMid(s, t, q);
    } else {
      ShiftIsEdgeHigh(s, t, q);
    }
  }

  lemma ShiftIsEdgeLow(s: int, t: int, q: int)
    requires 0 <= s < 22 && 0 <= t < YYNTOKENS && Decide(s, t) == Shift(q)
    ensures 0 < q < YYNSTATES && Edge(s, q) && Stos(q) == t
    ensures q == YYFINAL <==> t == END
  {
  }

  lemma ShiftIsEdgeMid(s: int, t: int, q: int)
    requires 22 <= s < 33 && 0 <= t < YYNTOKENS && Decide(s, t) == Shift(q)
    ensures 0 < q < YYNSTATES && Edge(s, q) && Stos(q) == t && q != YYFINAL && t != END
  {
  }

  lemma ShiftIsEdgeHigh(s: int, t: int, q: int)
    requires 33 <= s < YYNSTATES && 0 <= t < YYNTOKENS && Decide(s, t) == Shift(q)
    ensures 0 < q < YYNSTATES && Edge(s, q) && Stos(q) == t
    ensures q == YYFINAL <==> t == END
  {
  }

  // Conversely, every edge of the graph is a transition that the tables give.
  lemma EdgeIsTransition(b: int, q: int)
    requires Edge(b, q)
    ensures if Stos(q) < YYNTOKENS then Decide(b, Stos(q)) == Shift(q) else GoTo(b, Stos(q)) == q
  {
    if Stos(q) >= YYNTOKENS {
      EdgeIsGoto(b, q);
    } else if 9 <= q <= 15 {
      EdgeIsScalarShift(b, q);
    } else {
      EdgeIsOtherShift(b, q);
    }
  }

  lemma EdgeIsScalarShift(b: int, q: int)
    requires Edge(b, q) && 9 <= q <= 15
    ensures Decide(b, Stos(q)) == Shift(q)
  {
  }

  lemma EdgeIsOtherShift(b: int, q: int)
    requires Edge(b, q) && Stos(q) < YYNTOKENS && !(9 <= q <= 15)
    ensures Decide(b, Stos(q)) == Shift(q)
  {
  }

  lemma EdgeIsGoto(b: int, q: int)
    requires Edge(b, q) && Stos(q) >= YYNTOKENS
    ensures GoTo(b, Stos(q)) == q
  {
  }

  // The driver only ever reduces by the default reduction.
  lemma ReduceIsDefault(s: int, t: int, n: int)
    requires 0 <= s < YYNSTATES && 0 <= t < YYNTOKENS && Decide(s, t) == Reduce(n)
    ensures n == DefAct(s) && 1 <= n <= YYNRULES
  {
  }

  // ---------- Reductions ----------

  // The state that follows b when the default rule of state s has been popped down to b.
  function After(b: int, s: int): int
  {
    match s
    case 0 | 3 => 2
    case 1 => 5
    case 4 | 7 => if b == 0 then 3 else 40
    case 9 | 10 | 11 | 12 | 13 | 14 | 22 => if b == 25 then 32 else if b == 42 then 49 else 23
    case 15 | 31 => 22
    case 16 => 25
    case 17 => 26
    case 18 => 27
    case 19 | 20 | 23 | 24 => if b == 8 then 21 else if b == 26 then 36 else 50
    case 21 | 28 | 29 => 30
    case 25 | 34 => 35
    case 26 | 38 => 39
    case 27 | 40 => 41
    case 30 => if b == 0 || b == 27 then 4 else 7
    case 32 | 49 => 33
    case 33 | 42 => 43
    case 36 | 50 => 37
    case 37 | 45 => 46
    case 43 => 34
    case 44 => 19
    case 46 => 38
    case 47 => 20
    case 48 => 24
    case _ => -1
  }

  // How many symbols the default rule of state s pops, -1 when there is none.
  function Pops(s: int): int
  {
    match s
    case 0 | 1 | 16 | 17 | 18 | 21 | 25 | 26 | 27 | 33 | 37 => 0
    case 6 | 7 | 31 | 43 | 46 => 2
    case 49 | 50 => 3
    case 44 | 47 | 48 => 4
    case 30 => 5
    case 2 | 5 | 8 | 35 | 39 | 41 => -1
    case _ => 1
  }

  lemma DefaultRule(s: int)
    requires 0 <= s < YYNSTATES
    ensures DefAct(s) == 0 <==> Pops(s) == -1
    ensures Pops(s) != -1 ==> 1 <= DefAct(s) <= YYNRULES && R2(DefAct(s)) == Pops(s)
  {
  }

  lemma DefaultLhs(b: int, s: int)
    requires 0 <= s < YYNSTATES && Pops(s) != -1 && s != YYFINAL
    ensures R1(DefAct(s)) == Stos(After(b, s)) >= YYNTOKENS
  {
    if s < 23 {
      DefaultLhsLow(b, s);
    } else {
      DefaultLhsHigh(b, s);
    }
  }

  lemma DefaultLhsLow(b: int, s: int)
    requires 0 <= s < 23 && Pops(s) != -1 && s != YYFINAL
    ensures R1(DefAct(s)) == Stos(After(b, s)) >= YYNTOKENS
  {
  }

  lemma DefaultLhsHigh(b: int, s: int)
    requires 23 <= s < YYNSTATES && Pops(s) != -1
    ensures R1(DefAct(s)) == Stos(After(b, s)) >= YYNTOKENS
  {
  }

  lemma RankFalls(b: int, s: int)
    requires 0 <= s < YYNSTATES && Pops(s) != -1 && s != YYFINAL
    ensures Rank(After(b, s)) + 1 < Rank(s) + Pops(s) && After(b, s) != YYFINAL
  {
  }

  // The symbols by which the states of a stretch of the stack were entered.
  function SymbolsOf(w: seq<int>): seq<int>
  {
    seq(|w|, i requires 0 <= i < |w| => Stos(w[i]))
  }

  lemma AfterEmpty(s: int)
    requires 0 <= s < YYNSTATES && Pops(s) == 0
    ensures Edge(s, After(s, s)) && SymbolsOf([]) == Rhs(DefAct(s))
  {
  }

  lemma AfterOne(st: seq<int>)
    requires Path(st) && |st| > 1 && Pops(st[|st| - 1]) == 1 && st[|st| - 1] != YYFINAL
    ensures Edge(st[|st| - 2], After(st[|st| - 2], st[|st| - 1]))
  {
    assert Link(st, |st| - 1);
  }

  lemma AfterTwo(st: seq<int>)
    requires Path(st) && |st| > 2 && Pops(st[|st| - 1]) == 2 && st[|st| - 1] != YYFINAL
    ensures Edge(st[|st| - 3], After(st[|st| - 3], st[|st| - 1]))
  {
    assert Link(st, |st| - 2);
    assert Link(st, |st| - 1);
  }

  lemma AfterThree(st: seq<int>)
    requires Path(st) && |st| > 3 && Pops(st[|st| - 1]) == 3 && st[|st| - 1] != YYFINAL
    ensures Edge(st[|st| - 4], After(st[|st| - 4], st[|st| - 1]))
  {
    assert Link(st, |st| - 3);
    assert Link(st, |st| - 2);
    assert Link(st, |st| - 1);
  }

  lemma AfterFour(st: seq<int>)
    requires Path(st) && |st| > 4 && Pops(st[|st| - 1]) == 4 && st[|st| - 1] != YYFINAL
    ensures Edge(st[|st| - 5], After(st[|st| - 5], st[|st| - 1]))
  {
    assert Link(st, |st| - 4);
    assert Link(st, |st| - 3);
    assert Link(st, |st| - 2);
    assert Link(st, |st| - 1);
  }

  lemma AfterFive(st: seq<int>)
    requires Path(st) && |st| > 5 && Pops(st[|st| - 1]) == 5 && st[|st| - 1] != YYFINAL
    ensures Edge(st[|st| - 6], After(st[|st| - 6], st[|st| - 1]))
  {
    assert Link(st, |st| - 5);
    assert Link(st, |st| - 4);
    assert Link(st, |st| - 3);
    assert Link(st, |st| - 2);
    assert Link(st, |st| - 1);
  }

  lemma PopsOne(s: int)
    requires 0 <= s < YYNSTATES && Pops(s) == 1
    ensures SymbolsOf([s]) == Rhs(DefAct(s))
  {
  }

  lemma PopsTwo(x: int, s: int)
    requires Edge(x, s) && Pops(s) == 2
    ensures SymbolsOf([x, s]) == Rhs(DefAct(s))
  {
  }

  lemma PopsThree(x: int, y: int, s: int)
    requires Edge(x, y) && Edge(y, s) && Pops(s) == 3
    ensures SymbolsOf([x, y, s]) == Rhs(DefAct(s))
  {
  }

  lemma PopsFour(x: int, y: int, z: int, s: int)
    requires Edge(x, y) && Edge(y, z) && Edge(z, s) && Pops(s) == 4
    ensures SymbolsOf([x, y, z, s]) == Rhs(DefAct(s))
  {
  }

  lemma PopsFive(x: int, y: int, z: int, w: int, s: int)
    requires Edge(x, y) && Edge(y, z) && Edge(z, w) && Edge(w, s) && Pops(s) == 5
    ensures SymbolsOf([x, y, z, w, s]) == Rhs(DefAct(s))
  {
  }

  // On a path of the automaton a default reduction never pops past the bottom state,
  // pops exactly the right-hand side of its rule, and goes by the tables along an edge of
  // the automaton to a state at which the stack is lighter.
  lemma ReductionIsSound(st: seq<int>, n: int)
    requires Path(st) && n == DefAct(st[|st| - 1]) != 0 && st[|st| - 1] != YYFINAL
    ensures 1 <= n <= YYNRULES && R2(n) < |st| && SymbolsOf(st[|st| - R2(n)..]) == Rhs(n)
    ensures var b, s := st[|st| - 1 - R2(n)], st[|st| - 1];
      && GoTo(b, R1(n)) == After(b, s) && Edge(b, After(b, s)) && Stos(After(b, s)) == R1(n) >= YYNTOKENS
      && After(b, s) != YYFINAL && Rank(After(b, s)) + 1 < Rank(s) + R2(n)
  {
    var h := |st|;
    var s := st[h - 1];
    DefaultRule(s);
    EnoughSymbols(st);
    var b := st[h - 1 - R2(n)];
    DefaultLhs(b, s);
    RankFalls(b, s);
    PoppedSymbols(st);
    AfterIsEdge(st);
    EdgeIsGoto(b, After(b, s));
  }

  // Too few symbols above the bottom state cannot complete the default rule.
  lemma EnoughSymbols(st: seq<int>)
    requires Path(st) && st[|st| - 1] != YYFINAL
    ensures Pops(st[|st| - 1]) < |st|
  {
    var h := |st|;
    assert Link(st, h - 1);
    assert Link(st, h - 2);
    assert Link(st, h - 3);
    assert Link(st, h - 4);
  }

  lemma PoppedSymbols(st: seq<int>)
    requires Path(st) && st[|st| - 1] != YYFINAL && 0 <= Pops(st[|st| - 1]) < |st|
    ensures var s := st[|st| - 1];
      SymbolsOf(st[|st| - Pops(s)..]) == Rhs(DefAct(s))
  {
    var h := |st|;
    var s := st[h - 1];
    var k := Pops(s);
    PopsAtMostFive(s);
    if k == 0 {
      AfterEmpty(s);
      assert st[h..] == [];
    } else if k == 1 {
      PopsOne(s);
      assert st[h - 1..] == [s];
    } else if k == 2 {
      assert Link(st, h - 1);
      PopsTwo(st[h - 2], s);
      assert st[h - 2..] == [st[h - 2], s];
    } else if k == 3 {
      assert Link(st, h - 1) && Link(st, h - 2);
      PopsThree(st[h - 3], st[h - 2], s);
      assert st[h - 3..] == [st[h - 3], st[h - 2], s];
    } else if k == 4 {
      assert Link(st, h - 1) && Link(st, h - 2) && Link(st, h - 3);
      PopsFour(st[h - 4], st[h - 3], st[h - 2], s);
      assert st[h - 4..] == [st[h - 4], st[h - 3], st[h - 2], s];
    } else {
      assert Link(st, h - 1) && Link(st, h - 2) && Link(st, h - 3) && Link(st, h - 4);
      PopsFive(st[h - 5], st[h - 4], st[h - 3], st[h - 2], s);
      assert st[h - 5..] == [st[h - 5], st[h - 4], st[h - 3], st[h - 2], s];
    }
  }

  lemma PopsAtMostFive(s: int)
    ensures Pops(s) <= 5
  {
  }

  lemma AfterIsEdge(st: seq<int>)
    requires Path(st) && st[|st| - 1] != YYFINAL && 0 <= Pops(st[|st| - 1]) < |st|
    ensures var b, s := st[|st| - 1 - Pops(st[|st| - 1])], st[|st| - 1]; Edge(b, After(b, s))
  {
    var h := |st|;
    var s := st[h - 1];
    PopsAtMostFive(s);
    match Pops(s)
    case 0 => AfterEmpty(s);
    case 1 => AfterOne(st);
    case 2 => AfterTwo(st);
    case 3 => AfterThree(st);
    case 4 => AfterFour(st);
    case _ => AfterFive(st);
  }

  // ---------- Paths ----------

  lemma PathPush(st: seq<int>, q: int)
    requires Path(st) && 0 <= q < YYNSTATES && Edge(st[|st| - 1], q)
    ensures Path(st + [q])
  {
    var r := st + [q];
    forall i
      ensures Link(r, i)
    {
      assert Link(st, i);
    }
  }

  lemma PathPrefix(st: seq<int>, k: nat)
    requires Path(st) && 0 < k <= |st|
    ensures Path(st[..k])
  {
    var r := st[..k];
    forall i
      ensures Link(r, i)
    {
      assert Link(st, i);
    }
    assert Link(st, k - 1);
    if k > 1 {
      EdgeTarget(r[k - 2], r[k - 1]);
    }
  }

  lemma EdgeTarget(b: int, q: int)
    requires Edge(b, q)
    ensures 0 < q < YYNSTATES
  {
  }

  // The driver's reductions stay inside the stack.
  lemma ReductionFits(st: seq<int>, t: int, n: int)
    requires Path(st) && st[|st| - 1] != YYFINAL
    requires 0 <= t < YYNTOKENS && Decide(st[|st| - 1], t) == Reduce(n)
    ensures n == DefAct(st[|st| - 1]) && 1 <= n <= YYNRULES && 0 <= R2(n) < |st|
  {
    ReduceIsDefault(st[|st| - 1], t, n);
    ReductionIsSound(st, n);
  }

  // The stack after a reduction is again a path, and lighter.
  lemma ReductionKeepsPath(st: seq<int>, n: int)
    requires Path(st) && st[|st| - 1] != YYFINAL && n == DefAct(st[|st| - 1]) != 0
    ensures 1 <= n <= YYNRULES && 0 <= R2(n) < |st|
    ensures var k := |st| - R2(n); var q := GoTo(st[k - 1], R1(n));
      Path(st[..k] + [q]) && q != YYFINAL && k + 1 + Rank(q) < |st| + Rank(st[|st| - 1])
  {
    ReductionIsSound(st, n);
    var k := |st| - R2(n);
    var q := GoTo(st[k - 1], R1(n));
    EdgeTarget(st[k - 1], q);
    PathPrefix(st, k);
    PathPush(st[..k], q);
  }
}
