// Single steps of the parser, and how they compose, with the tables, the invariants and the
// definition of the run sealed.
module Steps {
  import opened Settings
  import opened Grammar
  import opened Parser
  import opened Sealing

  ghost predicate Sound(c: Config)
  {
    forall k :: Unfold(k) ==> WellFormed(c)
  }

  ghost predicate Live(c: Config)
  {
    c.st != [] && |c.vs| == |c.st| && Sound(c)
  }

  // The run from c continues as the run from r.
  ghost predicate Leads(c: Config, r: Config, d: nat)
  {
    forall k :: Unfold(k) ==> WellFormed(c) && WellFormed(r) && Run(c, d) == Run(r, d)
  }

  // The run from c is not accepted.
  ghost predicate Fails(c: Config, d: nat)
  {
    forall k :: Unfold(k) ==> WellFormed(c) && !Run(c, d).Accepted?
  }

  // The run from c continues as the run from r exactly when ok, and otherwise fails.
  ghost predicate Continues(c: Config, r: Config, d: nat, ok: bool)
  {
    if ok then Live(r) && Leads(c, r, d) else Fails(c, d)
  }

  lemma Stay(c: Config, d: nat)
    requires Live(c)
    ensures Leads(c, c, d)
  {
    assert Unfold(0);
  }

  lemma Chain(c: Config, r: Config, s: Config, d: nat)
    requires Leads(c, r, d)
    ensures Leads(r, s, d) ==> Leads(c, s, d)
    ensures Fails(r, d) ==> Fails(c, d)
  {
    assert Unfold(0);
  }

  // ---------- What the tables say ----------

  ghost predicate Shifts(s: int, t: Token, q: int)
  {
    forall k :: Unfold(k) ==> Decide(s, Num(t)) == Shift(q)
  }

  // A transition of the automaton on a token is a shift.
  lemma EdgeShifts(s: int, t: Token, q: int)
    requires Edge(s, q) && Stos(q) == Num(t)
    ensures Shifts(s, t, q)
  {
    EdgeIsTransition(s, q);
  }

  // In state s with this input the default rule is reduced; it pops so many symbols, and
  // over state b it leads to state q.
  ghost predicate Reduces(s: int, input: seq<Token>, b: int, pops: nat, q: int)
  {
    forall k :: Unfold(k) ==>
      Decide(s, Lookahead(input)) == Reduce(DefAct(s)) && Pops(s) == pops && After(b, s) == q
  }

  // What the action of the default rule of state s does.
  ghost predicate Acts(s: int, top: Val, ctx: Ctx, e: Effect)
  {
    forall k :: Unfold(k) ==> Act(DefAct(s), top, ctx) == e
  }

  lemma Initially(tokens: seq<Token>)
    ensures Live(Initial(tokens))
  {
  }

  // ---------- Steps ----------

  lemma DoShift(c: Config, d: nat, q: int) returns (r: Config)
    requires Live(c) && c.input != [] && Shifts(Top(c.st), c.input[0], q)
    ensures r == Config(c.st + [q], c.vs + [Tok(c.input[0])], c.input[1..], c.ctx)
    ensures Continues(c, r, d, |r.st| < d)
  {
    assert Unfold(0);
    r := ShiftTo(c, q);
    ShiftIsSound(c, q);
  }

  // Reduces by the default rule, whose right-hand side lies above base.
  lemma DoReduce(c: Config, d: nat, base: seq<int>, q: int, e: Effect) returns (r: Config)
    requires Live(c) && base != [] && base <= c.st
    requires Reduces(Top(c.st), c.input, Top(base), |c.st| - |base|, q)
    requires Acts(Top(c.st), c.vs[|c.vs| - 1], c.ctx, e)
    ensures e.Proceed? ==> r.st == base + [q] && r.input == c.input && r.ctx == e.ctx
    ensures Continues(c, r, d, e.Proceed? && |base| + 1 < d)
  {
    assert Unfold(0);
    var n := DefAct(Top(c.st));
    ReductionFits(c.st, Lookahead(c.input), n);
    StepIs(c, d, n);
    r := c;
    if e.Proceed? {
      ReduceIsSound(c, n, d);
      r := ReducesTo(c, base, e.ctx);
      PushedRun(c, r, d);
    }
  }

  lemma StepIs(c: Config, d: nat, n: int)
    requires WellFormed(c) && Decide(Top(c.st), Lookahead(c.input)) == Reduce(n)
    ensures 1 <= n && 0 <= R2(n) < |c.st|
    ensures Step(c, d) == StepReduce(c, n, d)
  {
    ReductionFits(c.st, Lookahead(c.input), n);
  }

  lemma PushedRun(c: Config, r: Config, d: nat)
    requires WellFormed(c) && WellFormed(r) && Step(c, d) == Pushed(r, d)
    ensures if |r.st| < d then Run(c, d) == Run(r, d) else !Run(c, d).Accepted?
  {
  }

  lemma ReducesTo(c: Config, base: seq<int>, ctx: Ctx) returns (r: Config)
    requires WellFormed(c) && base != [] && base <= c.st && |c.st| == |base| + Pops(Top(c.st))
    requires var n := DefAct(Top(c.st)); n != 0 && 1 <= n && 0 <= R2(n) < |c.st|
    ensures r == ReduceTo(c, DefAct(Top(c.st)), ctx)
    ensures r.st == base + [After(Top(base), Top(c.st))] && r.input == c.input && r.ctx == ctx
  {
    var k := |base|;
    GotoAfter(c.st, k);
    assert c.st[..k] == base && c.st[k - 1] == Top(base);
    r := ReduceTo(c, DefAct(Top(c.st)), ctx);
  }

  // The goto of the default reduction over the first k states.
  lemma GotoAfter(st: seq<int>, k: nat)
    requires Path(st) && Top(st) != YYFINAL && DefAct(Top(st)) != 0 && 0 < k <= |st| && |st| == k + Pops(Top(st))
    ensures R2(DefAct(Top(st))) == |st| - k
    ensures GoTo(st[k - 1], R1(DefAct(Top(st)))) == After(st[k - 1], Top(st))
  {
    DefaultRule(Top(st));
    ReductionIsSound(st, DefAct(Top(st)));
  }

  // ---------- Whole runs ----------

  ghost predicate Ends(c: Config, d: nat, o: Outcome)
  {
    forall k :: Unfold(k) ==> WellFormed(c) && Run(c, d) == o
  }

  // At the end of the input, after the whole configuration.
  lemma EndRun(c: Config, d: nat)
    requires Live(c) && c.st == [0, 2] && c.input == [] && 3 < d
    ensures Ends(c, d, Accepted(c.ctx))
  {
    assert Unfold(0);
    assert Decide(2, END) == Shift(YYFINAL);
  }

  lemma Conclude(c: Config, r: Config, d: nat, o: Outcome)
    requires Leads(c, r, d) && Ends(r, d, o)
    ensures Ends(c, d, o)
  {
    assert Unfold(0);
  }

  lemma ParseEnds(tokens: seq<Token>)
    ensures Fails(Initial(tokens), YYMAXDEPTH) ==> !Parse(tokens).Accepted?
    ensures forall o {:trigger Ends(Initial(tokens), YYMAXDEPTH, o)} ::
      Ends(Initial(tokens), YYMAXDEPTH, o) ==> Parse(tokens) == o
  {
    assert Unfold(0);
  }
}
