// Soundness of the driver: a token sequence it accepts derives from the grammar.
module Derivation {
  import opened Settings
  import opened Grammar
  import opened Parser

  // Derivation trees of the grammar.
  datatype Tree = Leaf(token: Token) | Node(rule: int, kids: seq<Tree>)

  function Symbol(t: Tree): int
  {
    match t
    case Leaf(k) => Num(k)
    case Node(n, _) => R1(n)
  }

  function Symbols(ts: seq<Tree>): seq<int>
  {
    seq(|ts|, i requires 0 <= i < |ts| => Symbol(ts[i]))
  }

  // Every inner node is an instance of a rule of the grammar file. Rule 1, which only adds
  // the end of input, is not used.
  predicate Derives(t: Tree)
  {
    match t
    case Leaf(_) => true
    case Node(n, kids) =>
      && 2 <= n <= YYNRULES
      && Symbols(kids) == Rhs(n)
      && forall k | k in kids :: Derives(k)
  }

  function Yield(t: Tree): seq<Token>
  {
    match t
    case Leaf(k) => [k]
    case Node(_, kids) => Yields(kids)
  }

  function Yields(ts: seq<Tree>): seq<Token>
  {
    if ts == [] then [] else Yields(ts[..|ts| - 1]) + Yield(ts[|ts| - 1])
  }

  lemma {:induction false} YieldsConcat(a: seq<Tree>, b: seq<Tree>)
    ensures Yields(a + b) == Yields(a) + Yields(b)
  {
    if b == [] {
      assert a + b == a;
    } else {
      var n := |b| - 1;
      YieldsConcat(a, b[..n]);
      assert (a + b)[..|a + b| - 1] == a + b[..n] && (a + b)[|a + b| - 1] == b[n];
      assert (Yields(a) + Yields(b[..n])) + Yield(b[n]) == Yields(a) + (Yields(b[..n]) + Yield(b[n]));
    }
  }

  // Derivation trees for the symbols on the stack.
  ghost predicate Covers(trees: seq<Tree>, st: seq<int>)
  {
    && |trees| + 1 == |st|
    && (forall t | t in trees :: Derives(t))
    && (forall i {:trigger trees[i]} :: 0 <= i < |trees| ==> Symbol(trees[i]) == Stos(st[i + 1]))
  }

  // From any stack that trees cover, an accepting run completes them to a derivation of
  // everything read and everything still to be read.
  lemma {:induction false} AcceptDerives(c: Config, depth: nat, trees: seq<Tree>) returns (t: Tree)
    requires WellFormed(c) && Covers(trees, c.st) && Run(c, depth).Accepted?
    ensures Derives(t) && Symbol(t) == CONFIGURATION && Yield(t) == Yields(trees) + c.input
    decreases |c.input|, |c.st| + Rank(Top(c.st))
  {
    assert c.st != [];
    hide WellFormed, Covers, Run, Decide, Rank, Derives, Symbol, Yield, Yields;
    StepCases(c, depth);
    if c.input == [] && Decide(Top(c.st), END).Shift? {
      t := Complete(c, trees);
    } else {
      var d, ts := Onward(c, depth, trees);
      t := AcceptDerives(d, depth, ts);
    }
  }

  // One step of such a run.
  lemma Onward(c: Config, depth: nat, trees: seq<Tree>) returns (d: Config, ts: seq<Tree>)
    requires WellFormed(c) && Covers(trees, c.st) && Run(c, depth).Accepted?
    requires !(c.input == [] && Decide(Top(c.st), END).Shift?)
    ensures WellFormed(d) && Covers(ts, d.st) && Run(d, depth).Accepted?
    ensures Yields(ts) + d.input == Yields(trees) + c.input
    ensures |d.input| < |c.input|
      || (d.input == c.input && |d.st| + Rank(Top(d.st)) < |c.st| + Rank(Top(c.st)))
  {
    assert |trees| + 1 == |c.st|;
    hide Covers, Run, Decide, DefAct, GoTo, R1, R2, Rank;
    StepCases(c, depth);
    match Decide(Top(c.st), Lookahead(c.input))
    case Shift(q) =>
      d, ts := ShiftTo(c, q), trees + [Leaf(c.input[0])];
      CoversShift(c, q, trees);
      YieldsShift(trees, c.input);
    case Reduce(n) =>
      ReductionFits(c.st, Lookahead(c.input), n);
      d := Step(c, depth).next;
      var k := |trees| - R2(n);
      ts := trees[..k] + [Node(n, trees[k..])];
      ReduceIsSound(c, n, depth);
      CoversReduce(c, n, d.ctx, trees);
      YieldsReduce(trees, k, n);
  }

  lemma YieldsShift(trees: seq<Tree>, input: seq<Token>)
    requires input != []
    ensures Yields(trees + [Leaf(input[0])]) + input[1..] == Yields(trees) + input
  {
    YieldsConcat(trees, [Leaf(input[0])]);
    assert Yields([Leaf(input[0])]) == [] + [input[0]];
    assert [input[0]] + input[1..] == input;
  }

  lemma YieldsReduce(trees: seq<Tree>, k: nat, n: int)
    requires k <= |trees|
    ensures Yields(trees[..k] + [Node(n, trees[k..])]) == Yields(trees)
  {
    YieldsConcat(trees[..k], [Node(n, trees[k..])]);
    YieldsConcat(trees[..k], trees[k..]);
    assert trees[..k] + trees[k..] == trees;
    assert Yields([Node(n, trees[k..])]) == [] + Yield(Node(n, trees[k..]));
  }

  // What an accepting run does first.
  lemma StepCases(c: Config, depth: nat)
    requires WellFormed(c) && Run(c, depth).Accepted?
    ensures var m := Decide(Top(c.st), Lookahead(c.input));
      && !m.Reject?
      && (m.Shift? && c.input != [] ==>
            WellFormed(ShiftTo(c, m.state)) && Run(ShiftTo(c, m.state), depth).Accepted?)
      && (m.Reduce? ==>
            && 1 <= m.rule && 0 <= R2(m.rule) < |c.st|
            && Step(c, depth).Go? && WellFormed(Step(c, depth).next)
            && Run(Step(c, depth).next, depth).Accepted?
            && Step(c, depth).next == ReduceTo(c, m.rule, Step(c, depth).next.ctx))
  {
    match Decide(Top(c.st), Lookahead(c.input))
    case Reject =>
    case Shift(q) => ShiftIsSound(c, q);
    case Reduce(n) =>
      ReductionFits(c.st, Lookahead(c.input), n);
      ReduceIsSound(c, n, depth);
  }

  // Only the start state with a whole configuration over it shifts the end of input.
  lemma Complete(c: Config, trees: seq<Tree>) returns (t: Tree)
    requires WellFormed(c) && Covers(trees, c.st) && c.input == []
    requires Decide(Top(c.st), END).Shift?
    ensures Derives(t) && Symbol(t) == CONFIGURATION && Yield(t) == Yields(trees) + c.input
  {
    var q := Decide(Top(c.st), END).state;
    ShiftIsEdge(Top(c.st), END, q);
    var h := |c.st|;
    assert Top(c.st) == 2 && h > 1;
    assert Link(c.st, h - 1);
    assert c.st[h - 2] == 0;
    assert Link(c.st, h - 2);
    assert trees == [trees[0]];
    assert Symbol(trees[0]) == Stos(c.st[1]);
    assert Yields(trees) == Yield(trees[0]);
    t := trees[0];
  }

  lemma CoversShift(c: Config, q: int, trees: seq<Tree>)
    requires WellFormed(c) && Covers(trees, c.st) && c.input != []
    requires Decide(Top(c.st), Lookahead(c.input)) == Shift(q)
    ensures Covers(trees + [Leaf(c.input[0])], ShiftTo(c, q).st)
  {
    ShiftIsEdge(Top(c.st), Lookahead(c.input), q);
    CoversPush(trees, c.st, Leaf(c.input[0]), q);
  }

  lemma CoversPush(trees: seq<Tree>, st: seq<int>, t: Tree, q: int)
    requires Covers(trees, st) && Derives(t) && Symbol(t) == Stos(q)
    ensures Covers(trees + [t], st + [q])
  {
  }

  lemma CoversReduce(c: Config, n: int, ctx: Ctx, trees: seq<Tree>)
    requires WellFormed(c) && Covers(trees, c.st) && n == DefAct(Top(c.st)) != 0
    requires 1 <= n && 0 <= R2(n) < |c.st|
    ensures var k := |trees| - R2(n);
      Covers(trees[..k] + [Node(n, trees[k..])], ReduceTo(c, n, ctx).st)
  {
    hide DefAct, GoTo, R1, R2, Rank, Stos;
    ReductionIsSound(c.st, n);
    var k := |trees| - R2(n);
    var t := Node(n, trees[k..]);
    NotRuleOne(Top(c.st));
    SymbolsMatch(trees, c.st, k);
    CoversPrefix(trees, c.st, k);
    CoversPush(trees[..k], c.st[..k + 1], t, GoTo(c.st[k], R1(n)));
  }

  lemma NotRuleOne(s: int)
    requires s != YYFINAL
    ensures DefAct(s) != 1
  {
  }

  lemma SymbolsMatch(trees: seq<Tree>, st: seq<int>, k: nat)
    requires Covers(trees, st) && k <= |trees|
    ensures Symbols(trees[k..]) == SymbolsOf(st[k + 1..])
  {
    forall i | 0 <= i < |trees| - k
      ensures Symbol(trees[k..][i]) == Stos(st[k + 1..][i])
    {
      assert trees[k..][i] == trees[k + i];
    }
  }

  lemma CoversPrefix(trees: seq<Tree>, st: seq<int>, k: nat)
    requires Covers(trees, st) && k <= |trees|
    ensures Covers(trees[..k], st[..k + 1])
  {
  }

  // Acceptance implies that the tokens derive from the grammar.
  lemma ParseSound(tokens: seq<Token>)
    requires Parse(tokens).Accepted?
    ensures exists t :: Derives(t) && Symbol(t) == CONFIGURATION && Yield(t) == tokens
  {
    var t := AcceptDerives(Initial(tokens), YYMAXDEPTH, []);
    assert Yields([]) + tokens == tokens;
  }
}
