// One turn of the driver's loop, as far as the loop needs to know about it.
module Turns {
  import opened Settings
  import opened Grammar
  import opened Parser
  import opened Discipline
  import opened Steps
  import opened Sealing

  // How many more turns the run takes.
  function TurnsLeft(c: Config): nat
    requires WellFormed(c)
    decreases |c.input|, |c.st| + Rank(Top(c.st))
  {
    match Step(c, YYMAXDEPTH)
    case Halt(_) => 0
    case Go(d) => StepIsSound(c, YYMAXDEPTH); 1 + TurnsLeft(d)
  }

  // c is a disciplined configuration from which the run goes on as the parse of the
  // tokens does, for so many turns.
  ghost predicate Underway(c: Config, tokens: seq<Token>, turns: nat)
  {
    forall k :: Unfold(k) ==>
      Disciplined(c) && Run(c, YYMAXDEPTH) == Parse(tokens) && TurnsLeft(c) == turns
  }

  ghost predicate Orderly(c: Config)
  {
    forall k :: Unfold(k) ==> Disciplined(c)
  }

  ghost predicate StepsTo(c: Config, r: StepResult)
  {
    forall k :: Unfold(k) ==> Disciplined(c) && Step(c, YYMAXDEPTH) == r
  }

  lemma Begin(tokens: seq<Token>) returns (turns: nat)
    ensures Underway(Initial(tokens), tokens, turns)
  {
    InitialDisciplined(tokens);
    turns := TurnsLeft(Initial(tokens));
  }

  lemma UnderwayOrderly(c: Config, tokens: seq<Token>, turns: nat)
    requires Underway(c, tokens, turns)
    ensures Orderly(c)
  {
    assert Unfold(0);
  }

  lemma Turned(c: Config, tokens: seq<Token>, turns: nat, r: StepResult)
    requires Underway(c, tokens, turns) && StepsTo(c, r)
    ensures r.Go? ==> turns > 0 && Underway(r.next, tokens, turns - 1)
    ensures r.Halt? ==> Parse(tokens) == r.outcome
  {
    assert Unfold(0);
    StepDisciplined(c, YYMAXDEPTH);
    if r.Go? {
      StepIsSound(c, YYMAXDEPTH);
    }
  }

  // The state on top indexes the tables.
  lemma TopInRange(c: Config)
    requires Orderly(c) && c.st != []
    ensures 0 <= Top(c.st) < YYNSTATES
  {
    assert Unfold(0);
  }

  // The reduction by rule n is possible, and r is what comes of it.
  ghost predicate ReducesBy(c: Config, n: int, r: StepResult)
  {
    forall k :: Unfold(k) ==>
      && ReadsInRange(c, n) && |c.st| == |c.vs| && StepReduce(c, n, YYMAXDEPTH) == r
      && exists e :: ActsAs(c, n, e)
  }

  // The action of rule n has the effect e; it neither names a member nor closes a bracket
  // while a value is pending.
  ghost predicate ActsAs(c: Config, n: int, e: Effect)
  {
    forall k :: Unfold(k) ==>
      && c.vs != [] && Act(n, c.vs[|c.vs| - 1], c.ctx) == e && !e.Illegal?
      && (c.ctx.pending.Some? ==>
            n != 13 && n != 16 && n != 18 && n != 43 && c.ctx.frames != [] && Parent(c.ctx).container == InGroup)
  }

  // What the driver's decision leads to.
  lemma TurnCases(c: Config, m: Move) returns (r: StepResult)
    requires Orderly(c) && c.st != [] && |c.vs| == |c.st| && m == Decide(Top(c.st), Lookahead(c.input))
    ensures StepsTo(c, r)
    ensures m.Reject? ==> r == Halt(SyntaxError)
    ensures m.Shift? ==> r == Pushed(ShiftTo(c, m.state), YYMAXDEPTH)
    ensures m.Reduce? ==> ReducesBy(c, m.rule, r)
  {
    assert Unfold(0);
    r := Step(c, YYMAXDEPTH);
    if m.Reduce? {
      ReduceTurn(c, m.rule, r);
    }
  }

  lemma ReduceTurn(c: Config, n: int, r: StepResult)
    requires Disciplined(c) && Decide(Top(c.st), Lookahead(c.input)) == Reduce(n) && r == Step(c, YYMAXDEPTH)
    ensures ReducesBy(c, n, r)
  {
    ReductionFits(c.st, Lookahead(c.input), n);
    TablesInRange(c);
    StepIs(c, YYMAXDEPTH, n);
    var e := ActionFound(c, n);
  }

  lemma ActionFound(c: Config, n: int) returns (e: Effect)
    requires Disciplined(c) && n == DefAct(Top(c.st)) && 1 <= n && 0 <= R2(n) < |c.st|
    ensures ActsAs(c, n, e)
  {
    ReduceDisciplined(c, n);
    PendingRules(c, n);
    e := Act(n, c.vs[|c.vs| - 1], c.ctx);
  }

  // While a value is pending, no rule names a member or closes a bracket.
  lemma PendingRules(c: Config, n: int)
    requires Disciplined(c) && n == DefAct(Top(c.st)) && 1 <= n
    ensures c.ctx.pending.Some? ==>
      n != 13 && n != 16 && n != 18 && n != 43 && c.ctx.frames != [] && Parent(c.ctx).container == InGroup
  {
    if c.ctx.pending.Some? {
      AwaitingState(At(c.st, 0), At(c.st, 1), At(c.st, 2));
    }
  }

  lemma AwaitingState(a: int, b: int, c: int)
    requires AwaitsAt(a, b, c)
    ensures DefAct(a) != 13 && DefAct(a) != 16 && DefAct(a) != 18 && DefAct(a) != 43
  {
  }

  // k symbols popped and replaced by the nonterminal a with value v.
  function Popped(c: Config, k: nat, a: int, v: Val): Config
    requires k < |c.st| == |c.vs|
  {
    var h := |c.st| - k;
    c.(st := c.st[..h] + [GoTo(c.st[h - 1], a)], vs := c.vs[..h] + [v])
  }

  lemma EffectIs(c: Config, n: int, e: Effect)
    requires ActsAs(c, n, e)
    ensures c.vs != [] && Act(n, c.vs[|c.vs| - 1], c.ctx) == e && !e.Illegal?
    ensures c.ctx.pending.Some? ==>
      n != 13 && n != 16 && n != 18 && n != 43 && c.ctx.frames != [] && Parent(c.ctx).container == InGroup
  {
    assert Unfold(0);
  }

  lemma ReductionHas(c: Config, n: int, r: StepResult, k: int) returns (e: Effect)
    requires ReducesBy(c, n, r) && k == R2(n)
    ensures 0 <= k < |c.st| == |c.vs| && ActsAs(c, n, e) && ReadsInRange(c, n)
  {
    assert Unfold(0);
    e :| ActsAs(c, n, e);
  }

  // A reduction, with the value of the left-hand side spelled out.
  lemma ReductionIs(c: Config, n: int, r: StepResult, e: Effect, k: nat, a: int, v: Val)
    requires ReducesBy(c, n, r) && ActsAs(c, n, e) && k == R2(n) && a == R1(n) && k < |c.st| == |c.vs|
    requires v == if k == 0 then Stale else c.vs[|c.st| - k]
    ensures r == if e.Proceed? then Pushed(Popped(c.(ctx := e.ctx), k, a, v), YYMAXDEPTH) else Halt(Aborted)
  {
    assert Unfold(0);
  }
}
