// The parser as a state machine on values: one step of the table-driven driver, the
// semantic actions on the stack of open brackets, and the run to an outcome.
module Parser {
  import opened Settings
  import opened Grammar

  // ---------- The parse context ----------

  // An open group, array or list with the children completed so far.
  datatype Frame = Frame(name: Option<string>, container: Container, kids: seq<Setting>)

  // The parse context: the settings from the root down to the current parent, the member
  // that has been named and awaits its value, and the string collected so far.
  datatype Ctx = Ctx(frames: seq<Frame>, pending: Option<Option<string>>, text: Option<string>)

  // What a semantic action does: it may stop the parse with an error, and it may be asked
  // to read a value that was never set or to follow a null pointer.
  datatype Effect = Proceed(ctx: Ctx) | Mismatch | Illegal

  const Root: Frame := Frame(None, InGroup, [])
  const Start: Ctx := Ctx([Root], None, None)

  function Parent(ctx: Ctx): Frame
    requires ctx.frames != []
  {
    ctx.frames[|ctx.frames| - 1]
  }

  // Appends a completed setting to the current parent.
  function AddKid(ctx: Ctx, s: Setting): Ctx
    requires ctx.frames != []
  {
    var p := Parent(ctx);
    ctx.(frames := ctx.frames[..|ctx.frames| - 1] + [p.(kids := p.kids + [s])])
  }

  // Starts a member of the current parent: config_setting_add drops the name of an
  // element and checks the name of a member.
  function AddNamed(ctx: Ctx, name: string): Effect
  {
    if ctx.frames == [] then Mismatch
    else if Parent(ctx).container != InGroup then Proceed(ctx.(pending := Some(None)))
    else if !ValidName(name) then Mismatch
    else Proceed(ctx.(pending := Some(Some(name))))
  }

  // Opens a bracket: a new element of a list, or the value of the pending member.
  function Open(ctx: Ctx, c: Container): Effect
  {
    if ctx.frames != [] && Parent(ctx).container == InList then
      Proceed(ctx.(frames := ctx.frames + [Frame(None, c, [])]))
    else if ctx.pending.Some? then
      Proceed(ctx.(frames := ctx.frames + [Frame(ctx.pending.value, c, [])], pending := None))
    else Illegal
  }

  // Closes the innermost bracket.
  function Close(ctx: Ctx): Effect
  {
    if |ctx.frames| <= 1 then Illegal
    else
      var p := Parent(ctx);
      Proceed(AddKid(ctx.(frames := ctx.frames[..|ctx.frames| - 1]), Setting(p.name, Contain(p.container, p.kids))))
  }

  // Stores a scalar: as a new element of an array or list, or in the pending member. The
  // first element of an array fixes the type of the others.
  function Store(ctx: Ctx, v: Value): Effect
  {
    if ctx.frames != [] && Parent(ctx).container != InGroup then
      var p := Parent(ctx);
      if p.container == InArray && p.kids != [] && KindOf(p.kids[0].value) != KindOf(v) then Mismatch
      else Proceed(AddKid(ctx, Setting(None, v)))
    else if ctx.frames != [] && ctx.pending.Some? then
      Proceed(AddKid(ctx, Setting(ctx.pending.value, v)).(pending := None))
    else Illegal
  }

  // ---------- Semantic actions ----------

  // An entry of the value stack: the token shifted there, or whatever was left in the
  // slot above the stack when an empty rule was reduced.
  datatype Val = Tok(token: Token) | Stale

  // The value that rules 25 to 30 store for the token on top of the value stack.
  function ScalarOf(n: int, top: Val): Option<Value>
  {
    match top
    case Tok(TBool(b)) => if n == 25 then Some(Bool(b)) else None
    case Tok(TInt(i)) => if n == 26 then Some(Int(i, Decimal)) else None
    case Tok(TInt64(i)) => if n == 27 then Some(Int64(i, Decimal)) else None
    case Tok(THex(i)) => if n == 28 then Some(Int(i, Hex)) else None
    case Tok(THex64(i)) => if n == 29 then Some(Int64(i, Hex)) else None
    case Tok(TFloat(x)) => if n == 30 then Some(Float(x)) else None
    case _ => None
  }

  function AppendText(ctx: Ctx, s: string): Ctx
  {
    ctx.(text := Some(if ctx.text.Some? then ctx.text.value + s else s))
  }

  // The action of rule n, given the top of the value stack.
  function Act(n: int, top: Val, ctx: Ctx): Effect
  {
    if n == 13 then
      if top.Tok? && top.token.TName? then AddNamed(ctx, top.token.name) else Illegal
    else if n == 15 then Open(ctx, InArray)
    else if n == 17 then Open(ctx, InList)
    else if n == 42 then Open(ctx, InGroup)
    else if n == 16 || n == 18 || n == 43 then Close(ctx)
    else if n == 23 || n == 24 then
      if top.Tok? && top.token.TString? then Proceed(AppendText(ctx, top.token.text)) else Illegal
    else if 25 <= n <= 30 then
      if ScalarOf(n, top).Some? then Store(ctx, ScalarOf(n, top).value) else Illegal
    else if n == 31 then Store(ctx.(text := None), String(ctx.text))
    else Proceed(ctx)
  }

  // ---------- The driver ----------

  // The state stack, the value stack aligned with it, the unread tokens, the context.
  datatype Config = Config(st: seq<int>, vs: seq<Val>, input: seq<Token>, ctx: Ctx)

  datatype Outcome = Accepted(ctx: Ctx) | SyntaxError | Aborted | Exhausted | Undefined

  datatype StepResult = Go(next: Config) | Halt(outcome: Outcome)

  function Top(st: seq<int>): int
    requires st != []
  {
    st[|st| - 1]
  }

  function Lookahead(input: seq<Token>): (n: int)
    ensures 0 <= n < YYNTOKENS
  {
    if input == [] then END else Num(input[0])
  }

  ghost predicate WellFormed(c: Config)
  {
    Path(c.st) && Top(c.st) != YYFINAL && |c.vs| == |c.st|
  }

  // A state has just been pushed: the stacks may be full, and the final state accepts.
  function Pushed(c: Config, depth: nat): StepResult
    requires c.st != []
  {
    if |c.st| >= depth then Halt(Exhausted)
    else if Top(c.st) == YYFINAL then Halt(Accepted(c.ctx))
    else Go(c)
  }

  function ShiftTo(c: Config, q: int): Config
  {
    if c.input == [] then c.(st := c.st + [q], vs := c.vs + [Stale])
    else c.(st := c.st + [q], vs := c.vs + [Tok(c.input[0])], input := c.input[1..])
  }

  // Pops the right-hand side of rule n; the first value popped stays as the value of the
  // left-hand side.
  function ReduceTo(c: Config, n: int, ctx: Ctx): Config
    requires 1 <= n && 0 <= R2(n) < |c.st| == |c.vs|
  {
    var k := |c.st| - R2(n);
    Config(c.st[..k] + [GoTo(c.st[k - 1], R1(n))],
           c.vs[..k] + [if R2(n) == 0 then Stale else c.vs[k]], c.input, ctx)
  }

  function Step(c: Config, depth: nat): StepResult
    requires WellFormed(c)
  {
    match Decide(Top(c.st), Lookahead(c.input))
    case Reject => Halt(SyntaxError)
    case Shift(q) => Pushed(ShiftTo(c, q), depth)
    case Reduce(n) => ReductionFits(c.st, Lookahead(c.input), n); StepReduce(c, n, depth)
  }

  function StepReduce(c: Config, n: int, depth: nat): StepResult
    requires 1 <= n && 0 <= R2(n) < |c.st| == |c.vs|
  {
    match Act(n, c.vs[|c.vs| - 1], c.ctx)
    case Proceed(ctx) => Pushed(ReduceTo(c, n, ctx), depth)
    case Mismatch => Halt(Aborted)
    case Illegal => Halt(Undefined)
  }

  // Whatever a step reads of the tables is inside them: the states on the stack index the
  // rows of actions, a shift is found in the packed table, and a reduction names a rule,
  // whose left-hand side indexes the rows of gotos.
  lemma TablesInRange(c: Config)
    requires WellFormed(c)
    ensures forall i :: 0 <= i < |c.st| ==> 0 <= c.st[i] < YYNSTATES
    ensures var s, t := Top(c.st), Lookahead(c.input);
      && (Decide(s, t).Shift? ==> 0 <= Pact(s) + t <= YYLAST && 0 < Decide(s, t).state < YYNSTATES)
      && (Decide(s, t).Reduce? ==> ReadsInRange(c, Decide(s, t).rule))
  {
    var s, t := Top(c.st), Lookahead(c.input);
    forall i | 0 <= i < |c.st| - 1
      ensures 0 <= c.st[i] < YYNSTATES
    {
      PathPrefix(c.st, i + 1);
    }
    match Decide(s, t)
    case Shift(q) => ShiftIsEdge(s, t, q);
    case Reduce(n) =>
      ReductionFits(c.st, t, n);
      RulesMatchTables(n);
    case Reject =>
  }

  // What a reduction by rule n reads is inside the tables.
  predicate ReadsInRange(c: Config, n: int)
  {
    && 1 <= n <= YYNRULES && 0 <= R1(n) - YYNTOKENS < YYNNTS
    && 0 <= R2(n) < |c.st| && 0 <= c.st[|c.st| - 1 - R2(n)] < YYNSTATES
  }

  // Every step keeps the stack a path of the automaton, and either consumes a token or
  // makes the stack lighter.
  lemma StepIsSound(c: Config, depth: nat)
    requires WellFormed(c) && Step(c, depth).Go?
    ensures var d := Step(c, depth).next;
      && WellFormed(d)
      && (|d.input| < |c.input|
          || (d.input == c.input && |d.st| + Rank(Top(d.st)) < |c.st| + Rank(Top(c.st))))
  {
    match Decide(Top(c.st), Lookahead(c.input))
    case Shift(q) => ShiftIsSound(c, q);
    case Reduce(n) =>
      ReductionFits(c.st, Lookahead(c.input), n);
      ReduceIsSound(c, n, depth);
  }

  lemma ShiftIsSound(c: Config, q: int)
    requires WellFormed(c) && Decide(Top(c.st), Lookahead(c.input)) == Shift(q)
    ensures q == YYFINAL <==> c.input == []
    ensures q != YYFINAL ==> WellFormed(ShiftTo(c, q))
  {
    ShiftIsEdge(Top(c.st), Lookahead(c.input), q);
    PathPush(c.st, q);
  }

  lemma ReduceIsSound(c: Config, n: int, depth: nat)
    requires WellFormed(c) && n == DefAct(Top(c.st)) != 0
    ensures 1 <= n && 0 <= R2(n) < |c.st|
    ensures forall ctx {:trigger ReduceTo(c, n, ctx)} :: var d := ReduceTo(c, n, ctx);
      WellFormed(d) && |d.st| + Rank(Top(d.st)) < |c.st| + Rank(Top(c.st))
  {
    ReductionKeepsPath(c.st, n);
  }

  // The whole run. It ends for every token sequence.
  function Run(c: Config, depth: nat): Outcome
    requires WellFormed(c)
    decreases |c.input|, |c.st| + Rank(Top(c.st))
  {
    match Step(c, depth)
    case Halt(o) => o
    case Go(d) => StepIsSound(c, depth); Run(d, depth)
  }

  function Initial(tokens: seq<Token>): (c: Config)
    ensures WellFormed(c)
  {
    Config([0], [Stale], tokens, Start)
  }

  function Parse(tokens: seq<Token>): Outcome
  {
    Run(Initial(tokens), YYMAXDEPTH)
  }
}
