// yyparse in memory: two stacks in arrays that are relocated when they are full, a
// lookahead that is read only when it is needed, and the loop over the tables.
module Driver {
  import opened Settings
  import opened Grammar
  import opened Parser
  import opened Context
  import opened Turns

  // YYSTACK_RELOCATE: copies a full stack to the bottom of a larger one.
  method Relocate<T>(from: array<T>, to: array<T>)
    requires from != to && from.Length <= to.Length
    modifies to
    ensures to[..from.Length] == from[..]
  {
    var i := 0;
    while i < from.Length
      invariant 0 <= i <= from.Length
      invariant to[..i] == from[..i]
    {
      to[i] := from[i];
      i := i + 1;
    }
  }

  // The state stack and the value stack. There is always one free place above the top.
  class Stacks {
    var yyss: array<int>
    var yyvs: array<Val>
    var yyssp: nat
    var yystacksize: nat

    ghost predicate Valid()
      reads this, yyss, yyvs
    {
      && 0 < yystacksize <= YYMAXDEPTH && yyss.Length == yyvs.Length == yystacksize
      && yyssp + 1 < yystacksize
    }

    ghost function States(): (st: seq<int>)
      requires Valid()
      reads this, yyss, yyvs
      ensures |st| == yyssp + 1
    {
      yyss[..yyssp + 1]
    }

    ghost function Values(): (vs: seq<Val>)
      requires Valid()
      reads this, yyss, yyvs
      ensures |vs| == yyssp + 1
    {
      yyvs[..yyssp + 1]
    }

    constructor ()
      ensures Valid() && States() == [0] && Values() == [Stale] && fresh(yyss) && fresh(yyvs) && yystacksize == 200
    {
      yyss := new int[YYINITDEPTH](_ => 0);
      yyvs := new Val[YYINITDEPTH](_ => Stale);
      yyssp, yystacksize := 0, YYINITDEPTH;
    }

    // Doubles the stacks, up to the maximal depth, and copies them over.
    method Grow()
      requires 0 < yystacksize < YYMAXDEPTH && yyss.Length == yyvs.Length == yystacksize == yyssp + 1
      modifies this`yyss, this`yyvs, this`yystacksize
      ensures Valid() && fresh(yyss) && fresh(yyvs)
      ensures States() == old(yyss[..]) && Values() == old(yyvs[..])
      ensures yystacksize == if old(yystacksize) <= 5000 then 2 * old(yystacksize) else 10000
    {
      yystacksize := yystacksize * 2;
      if YYMAXDEPTH < yystacksize {
        yystacksize := YYMAXDEPTH;
      }
      var ss := new int[yystacksize](_ => 0);
      var vs := new Val[yystacksize](_ => Stale);
      Relocate(yyss, ss);
      Relocate(yyvs, vs);
      yyss, yyvs := ss, vs;
    }

    // Pushes a state and its value, and makes room if the stacks are full; reports whether
    // there is still room.
    method Push(state: int, value: Val) returns (room: bool)
      requires Valid()
      modifies this, yyss, yyvs
      ensures fresh(yyss) || yyss == old(yyss)
      ensures fresh(yyvs) || yyvs == old(yyvs)
      ensures room <==> |old(States())| + 1 < YYMAXDEPTH
      ensures room ==> Valid() && States() == old(States()) + [state] && Values() == old(Values()) + [value]
    {
      ghost var st, vs := States(), Values();
      yyvs[yyssp + 1] := value;
      yyssp := yyssp + 1;
      yyss[yyssp] := state;
      assert yyss[..yyssp + 1] == st + [state] && yyvs[..yyssp + 1] == vs + [value];
      room := true;
      if yystacksize - 1 <= yyssp {
        if YYMAXDEPTH <= yystacksize {
          return false;
        }
        assert yyss[..] == yyss[..yyssp + 1] && yyvs[..] == yyvs[..yyssp + 1];
        Grow();
      }
    }

    // YYPOPSTACK
    method Pop(k: nat)
      requires Valid() && k < |States()|
      modifies this`yyssp
      ensures Valid() && States() == old(States())[..|old(States())| - k]
      ensures Values() == old(Values())[..|old(States())| - k]
    {
      yyssp := yyssp - k;
    }

    method TopState() returns (s: int)
      requires Valid()
      ensures s == States()[|States()| - 1]
    {
      s := yyss[yyssp];
    }

    method TopValue() returns (v: Val)
      requires Valid()
      ensures v == Values()[|Values()| - 1]
    {
      v := yyvs[yyssp];
    }

    // The first value of the k on top, or what an empty rule finds above the stack.
    method FirstOf(k: nat) returns (v: Val)
      requires Valid() && k < |States()|
      ensures v == if k == 0 then Stale else Values()[|States()| - k]
    {
      v := if k == 0 then Stale else yyvs[yyssp + 1 - k];
    }
  }

  // yychar: nothing read, the end of input, or a token.
  datatype Look = Empty | Eof | Got(token: Token)

  datatype Status = Continue | Accept | Abort | Exhaust

  // The status that an outcome of the run is reported as.
  function StatusOf(o: Outcome): Status
  {
    match o
    case Accepted(_) => Accept
    case Exhausted => Exhaust
    case _ => Abort
  }

  // The scanner's tokens and the lookahead.
  class Source {
    const tokens: seq<Token>
    var yychar: Look
    var next: nat

    ghost predicate Valid()
      reads this
    {
      next <= |tokens| && (yychar == Eof ==> next == |tokens|)
    }

    // The tokens not shifted yet.
    ghost function Input(): seq<Token>
      requires Valid()
      reads this
    {
      if yychar.Got? then [yychar.token] + tokens[next..] else tokens[next..]
    }

    constructor (ts: seq<Token>)
      ensures Valid() && tokens == ts && Input() == ts && yychar == Empty
    {
      tokens, yychar, next := ts, Empty, 0;
    }

    // The symbol number of the lookahead, reading it if that has not been done.
    method Look() returns (t: int)
      requires Valid()
      modifies this
      ensures Valid() && Input() == old(Input()) && yychar != Empty
      ensures t == Lookahead(Input())
    {
      if yychar == Empty {
        if next < |tokens| {
          yychar := Got(tokens[next]);
          next := next + 1;
        } else {
          yychar := Eof;
        }
      }
      t := if yychar.Got? then Num(yychar.token) else END;
    }

    // yybackup and yydefault: decides on the state alone where it can, and reads the
    // lookahead only if it must.
    method Backup(yystate: int) returns (m: Move)
      requires Valid() && 0 <= yystate < YYNSTATES
      modifies this
      ensures Valid() && Input() == old(Input())
      ensures m == Decide(yystate, Lookahead(Input()))
      ensures m.Shift? ==> yychar != Empty
      ensures Pact(yystate) == YYPACT_NINF ==> yychar == old(yychar) && next == old(next)
    {
      var yyn := Pact(yystate);
      if yyn != YYPACT_NINF {
        var yytoken := Look();
        yyn := yyn + yytoken;
        if !(yyn < 0 || YYLAST < yyn || Check(yyn) != yytoken) {
          yyn := Table(yyn);
          if yyn <= 0 {
            return Reduce(-yyn);
          }
          return Shift(yyn);
        }
      }
      yyn := DefAct(yystate);
      m := if yyn == 0 then Reject else Reduce(yyn);
    }

    // The lookahead is used up.
    method Take() returns (v: Val)
      requires Valid() && yychar != Empty
      modifies this
      ensures Valid() && yychar == Empty
      ensures if old(Input()) == [] then v == Stale && Input() == []
        else v == Tok(old(Input())[0]) && Input() == old(Input())[1..]
    {
      v := if yychar.Got? then Tok(yychar.token) else Stale;
      yychar := Empty;
    }
  }

  class Machine {
    const stacks: Stacks
    const source: Source
    const ctx: ParseContext

    ghost predicate Valid()
      reads stacks, stacks.yyss, stacks.yyvs, source, ctx
    {
      stacks.Valid() && source.Valid() && ctx.Valid()
    }

    // The configuration of the parser that the memory stands for.
    ghost function View(): Config
      requires Valid()
      reads stacks, stacks.yyss, stacks.yyvs, source, ctx
    {
      Config(stacks.States(), stacks.Values(), source.Input(), ctx.View())
    }

    // The memory and the status are what the result of a step says.
    ghost predicate Obeys(s: Status, r: StepResult)
      reads stacks, stacks.yyss, stacks.yyvs, source, ctx
    {
      match r
      case Go(d) => s == Continue && Valid() && View() == d
      case Halt(o) => s == StatusOf(o) && (o.Accepted? ==> Valid() && ctx.View() == o.ctx)
    }

    constructor (tokens: seq<Token>, auto: bool, casts: Casts)
      ensures Valid() && View() == Initial(tokens)
      ensures fresh(stacks) && fresh(stacks.yyss) && fresh(stacks.yyvs) && fresh(source) && fresh(ctx)
    {
      stacks := new Stacks();
      source := new Source(tokens);
      ctx := new ParseContext(auto, casts);
      new;
      assert stacks.Valid() && source.Valid() && ctx.Valid();
      assert stacks.States() == [0] && stacks.Values() == [Stale];
      assert source.Input() == tokens && ctx.View() == Start;
      hide *;
    }

    // yynewstate: pushes a state, and stops in the final state.
    method NewState(state: int, value: Val) returns (s: Status)
      requires Valid()
      modifies stacks, stacks.yyss, stacks.yyvs
      ensures fresh(stacks.yyss) || stacks.yyss == old(stacks.yyss)
      ensures fresh(stacks.yyvs) || stacks.yyvs == old(stacks.yyvs)
      ensures Obeys(s, Pushed(old(View()).(st := old(View()).st + [state], vs := old(View()).vs + [value]), YYMAXDEPTH))
    {
      var room := stacks.Push(state, value);
      if !room {
        return Exhaust;
      }
      s := if state == YYFINAL then Accept else Continue;
    }

    // The decision in the current state.
    method Choose() returns (m: Move)
      requires Valid() && Orderly(View())
      modifies source
      ensures Valid() && View() == old(View())
      ensures m == Decide(Top(View().st), Lookahead(View().input))
      ensures m.Shift? ==> source.yychar != Empty
    {
      var yystate := stacks.TopState();
      TopInRange(View());
      m := source.Backup(yystate);
    }

    // Shifts the lookahead and goes to state q.
    method ShiftLookahead(q: int) returns (s: Status)
      requires Valid() && source.yychar != Empty
      modifies source, stacks, stacks.yyss, stacks.yyvs
      ensures fresh(stacks.yyss) || stacks.yyss == old(stacks.yyss)
      ensures fresh(stacks.yyvs) || stacks.yyvs == old(stacks.yyvs)
      ensures Obeys(s, Pushed(ShiftTo(old(View()), q), YYMAXDEPTH))
    {
      ghost var c := View();
      var value := source.Take();
      assert ShiftTo(c, q) == View().(st := c.st + [q], vs := c.vs + [value]);
      s := NewState(q, value);
    }

    // Pops k symbols and goes on from the state that is left to the one for nonterminal a.
    method PopAndGo(k: nat, a: int, yyval: Val) returns (s: Status)
      requires Valid() && k < |View().st| && 0 <= a - YYNTOKENS < YYNNTS
      requires 0 <= View().st[|View().st| - 1 - k] < YYNSTATES
      modifies stacks, stacks.yyss, stacks.yyvs
      ensures fresh(stacks.yyss) || stacks.yyss == old(stacks.yyss)
      ensures fresh(stacks.yyvs) || stacks.yyvs == old(stacks.yyvs)
      ensures Obeys(s, Pushed(Popped(old(View()), k, a, yyval), YYMAXDEPTH))
    {
      hide GoTo, Pushed, StatusOf;
      stacks.Pop(k);
      var yystate := stacks.TopState();
      s := NewState(GoTo(yystate, a), yyval);
    }

    // Runs the action of rule n, whose effect is e.
    method RunAction(n: int, ghost e: Effect) returns (ok: bool)
      requires Valid() && ActsAs(View(), n, e)
      modifies ctx
      ensures ok == e.Proceed?
      ensures ok ==> Valid() && View() == old(View()).(ctx := e.ctx)
    {
      EffectIs(View(), n, e);
      var top := stacks.TopValue();
      ok := ctx.Act(n, top);
    }

    // yyreduce: runs the action of rule n, then replaces its right-hand side on the stacks;
    // the first value popped is the value of the left-hand side.
    method ReduceRule(n: int, ghost r: StepResult) returns (s: Status)
      requires Valid() && ReducesBy(View(), n, r)
      modifies ctx, stacks, stacks.yyss, stacks.yyvs
      ensures fresh(stacks.yyss) || stacks.yyss == old(stacks.yyss)
      ensures fresh(stacks.yyvs) || stacks.yyvs == old(stacks.yyvs)
      ensures Obeys(s, r)
    {
      hide R1, R2, GoTo, StepReduce, ReducesBy, ActsAs, Pushed;
      ghost var c := View();
      var yylen, lhs := R2(n), R1(n);
      ghost var e := ReductionHas(c, n, r, yylen);
      var yyval := stacks.FirstOf(yylen);
      var ok := RunAction(n, e);
      ReductionIs(c, n, r, e, yylen, lhs, yyval);
      if !ok {
        return Abort;
      }
      s := PopAndGo(yylen, lhs, yyval);
    }

    // yyparse: the whole run.
    method Parse(tokens: seq<Token>) returns (s: Status)
      requires Valid() && View() == Initial(tokens)
      modifies source, ctx, stacks, stacks.yyss, stacks.yyvs
      ensures s == StatusOf(Parser.Parse(tokens))
      ensures s == Accept ==> Valid() && Parser.Parse(tokens) == Accepted(ctx.View())
    {
      ghost var turns := Begin(tokens);
      s := Continue;
      while s == Continue
        invariant fresh(stacks.yyss) || stacks.yyss == old(stacks.yyss)
        invariant fresh(stacks.yyvs) || stacks.yyvs == old(stacks.yyvs)
        invariant s == Continue ==> Valid() && Underway(View(), tokens, turns)
        invariant s != Continue ==> s == StatusOf(Parser.Parse(tokens))
        invariant s == Accept ==> Valid() && Parser.Parse(tokens) == Accepted(ctx.View())
        decreases s == Continue, turns
      {
        ghost var c := View();
        UnderwayOrderly(c, tokens, turns);
        ghost var r;
        s, r := Advance();
        Turned(c, tokens, turns, r);
        turns := if turns > 0 then turns - 1 else 0;
      }
    }

    // One turn of the loop.
    method Advance() returns (s: Status, ghost r: StepResult)
      requires Valid() && Orderly(View())
      modifies source, ctx, stacks, stacks.yyss, stacks.yyvs
      ensures fresh(stacks.yyss) || stacks.yyss == old(stacks.yyss)
      ensures fresh(stacks.yyvs) || stacks.yyvs == old(stacks.yyvs)
      ensures StepsTo(old(View()), r)
      ensures Obeys(s, r)
    {
      ghost var c := View();
      var m := Choose();
      r := TurnCases(c, m);
      match m {
        case Reject =>
          s := Abort;
        case Shift(q) =>
          s := ShiftLookahead(q);
        case Reduce(n) =>
          s := ReduceRule(n, r);
      }
    }
  }
}
