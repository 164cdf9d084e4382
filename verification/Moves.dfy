// The moves of the parser through each construct of the grammar: which state follows
// which, and what the semantic actions do there.
module Moves {
  import opened Settings
  import opened Grammar
  import opened Parser
  import opened Steps

  // ---------- States around scalars and values ----------

  // The states in which a scalar may start.
  predicate ScalarState(s: int)
  {
    s == 8 || s == 25 || s == 26 || s == 42 || s == 45
  }

  // The states in which a value of any kind may start.
  predicate ValueState(s: int)
  {
    s == 8 || s == 26 || s == 45
  }

  function ScalarGoto(b: int): int
  {
    if b == 25 then 32 else if b == 42 then 49 else 23
  }

  function ValueGoto(b: int): int
  {
    if b == 8 then 21 else if b == 26 then 36 else 50
  }

  predicate NotString(input: seq<Token>)
  {
    input == [] || !input[0].TString?
  }

  // The state after a scalar token.
  function ScalarTokState(t: Token): int
  {
    match t
    case TBool(_) => 9
    case TInt(_) => 10
    case THex(_) => 11
    case TInt64(_) => 12
    case THex64(_) => 13
    case TFloat(_) => 14
    case _ => -1
  }

  // The value a scalar token stands for.
  function TokValue(t: Token): Value
  {
    match t
    case TBool(b) => Bool(b)
    case TInt(i) => Int(i, Decimal)
    case THex(i) => Int(i, Hex)
    case TInt64(i) => Int64(i, Decimal)
    case THex64(i) => Int64(i, Hex)
    case TFloat(x) => Float(x)
    case _ => NoValue
  }

  lemma ScalarMoves(b: int, t: Token, input: seq<Token>, ctx: Ctx)
    requires ScalarState(b) && ScalarTokState(t) != -1
    ensures var q := ScalarTokState(t);
      && Shifts(b, t, q)
      && Reduces(q, input, b, 1, ScalarGoto(b))
      && Acts(q, Tok(t), ctx, Store(ctx, TokValue(t)))
  {
    ScalarShifts(b, t);
    ScalarReduces(ScalarTokState(t), b, input);
    ScalarActs(t, ctx);
  }

  lemma ScalarShifts(b: int, t: Token)
    requires ScalarState(b) && ScalarTokState(t) != -1
    ensures Shifts(b, t, ScalarTokState(t))
  {
    assert Stos(ScalarTokState(t)) == Num(t);
    EdgeShifts(b, t, ScalarTokState(t));
  }

  lemma ScalarReduces(q: int, b: int, input: seq<Token>)
    requires 9 <= q <= 14 && ScalarState(b)
    ensures Reduces(q, input, b, 1, ScalarGoto(b))
  {
  }

  lemma ScalarActs(t: Token, ctx: Ctx)
    requires ScalarTokState(t) != -1
    ensures Acts(ScalarTokState(t), Tok(t), ctx, Store(ctx, TokValue(t)))
  {
    var n := DefAct(ScalarTokState(t));
    assert 25 <= n <= 30;
    assert ScalarOf(n, Tok(t)) == Some(TokValue(t));
  }

  // q is 15 for the first of several adjacent literals and 31 for another.
  lemma LiteralMoves(s: int, q: int, b: int, text: string, input: seq<Token>, ctx: Ctx)
    requires (q == 15 && ScalarState(s)) || (q == 31 && s == 22)
    ensures Shifts(s, TString(text), q)
    ensures Reduces(q, input, b, if q == 15 then 1 else 2, 22)
    ensures Acts(q, Tok(TString(text)), ctx, Proceed(AppendText(ctx, text)))
  {
    if q == 15 {
      assert DefAct(15) == 23;
    } else {
      assert DefAct(31) == 24;
    }
    LiteralShifts(s, q, text);
    LiteralReduces(q, b, input);
  }

  lemma LiteralShifts(s: int, q: int, text: string)
    requires (q == 15 && ScalarState(s)) || (q == 31 && s == 22)
    ensures Shifts(s, TString(text), q)
  {
    EdgeShifts(s, TString(text), q);
  }

  lemma LiteralReduces(q: int, b: int, input: seq<Token>)
    requires q == 15 || q == 31
    ensures Reduces(q, input, b, if q == 15 then 1 else 2, 22)
  {
  }

  lemma TextMoves(b: int, input: seq<Token>, top: Val, ctx: Ctx)
    requires ScalarState(b) && NotString(input)
    ensures Reduces(22, input, b, 1, ScalarGoto(b))
    ensures Acts(22, top, ctx, Store(ctx.(text := None), String(ctx.text)))
  {
    assert DefAct(22) == 31;
  }

  // q is the state after a scalar, an array, a list or a group that is a value.
  lemma ValueMoves(b: int, q: int, input: seq<Token>, top: Val, ctx: Ctx)
    requires ValueState(b) && q in {19, 20, 23, 24}
    ensures Reduces(q, input, b, 1, ValueGoto(b))
    ensures Acts(q, top, ctx, Proceed(ctx))
  {
    assert DefAct(19) == 20 && DefAct(20) == 21 && DefAct(23) == 19 && DefAct(24) == 22;
  }

  // ---------- Brackets ----------

  // The states around a bracket of each kind: after its opening token, after the mid-rule
  // action, before and after its closing token, and after the bracket as a whole.
  function OpenState(k: Container): int
  {
    if k == InArray then 16 else if k == InList then 17 else 18
  }

  function InsideState(k: Container): int
  {
    if k == InArray then 25 else if k == InList then 26 else 27
  }

  function FullState(k: Container): int
  {
    if k == InArray then 35 else if k == InList then 39 else 41
  }

  function CloseState(k: Container): int
  {
    if k == InArray then 44 else if k == InList then 47 else 48
  }

  function BracketState(k: Container): int
  {
    if k == InArray then 19 else if k == InList then 20 else 24
  }

  function OpenTok(k: Container): Token
  {
    if k == InArray then TArrayStart else if k == InList then TListStart else TGroupStart
  }

  function CloseTok(k: Container): Token
  {
    if k == InArray then TArrayEnd else if k == InList then TListEnd else TGroupEnd
  }

  lemma OpenMoves(b: int, k: Container, input: seq<Token>, top: Val, ctx: Ctx)
    requires ValueState(b)
    ensures Shifts(b, OpenTok(k), OpenState(k))
    ensures Reduces(OpenState(k), input, OpenState(k), 0, InsideState(k))
    ensures Acts(OpenState(k), top, ctx, Open(ctx, k))
  {
    OpenShifts(b, k);
    OpenReduces(k, input);
    match k
    case InArray => assert DefAct(16) == 15;
    case InList => assert DefAct(17) == 17;
    case InGroup => assert DefAct(18) == 42;
  }

  lemma OpenReduces(k: Container, input: seq<Token>)
    ensures Reduces(OpenState(k), input, OpenState(k), 0, InsideState(k))
  {
  }

  lemma OpenShifts(b: int, k: Container)
    requires ValueState(b)
    ensures Shifts(b, OpenTok(k), OpenState(k))
  {
    match k
    case InArray => EdgeShifts(b, TArrayStart, 16);
    case InList => EdgeShifts(b, TListStart, 17);
    case InGroup => EdgeShifts(b, TGroupStart, 18);
  }

  lemma CloseMoves(b: int, k: Container, input: seq<Token>, top: Val, ctx: Ctx)
    ensures Shifts(FullState(k), CloseTok(k), CloseState(k))
    ensures Reduces(CloseState(k), input, b, 4, BracketState(k))
    ensures Acts(CloseState(k), top, ctx, Close(ctx))
  {
    CloseShifts(k);
    CloseReduces(b, k, input);
    match k
    case InArray => assert DefAct(44) == 16;
    case InList => assert DefAct(47) == 18;
    case InGroup => assert DefAct(48) == 43;
  }

  lemma CloseShifts(k: Container)
    ensures Shifts(FullState(k), CloseTok(k), CloseState(k))
  {
    match k
    case InArray => EdgeShifts(35, TArrayEnd, 44);
    case InList => EdgeShifts(39, TListEnd, 47);
    case InGroup => EdgeShifts(41, TGroupEnd, 48);
  }

  lemma CloseReduces(b: int, k: Container, input: seq<Token>)
    ensures Reduces(CloseState(k), input, b, 4, BracketState(k))
  {
    match k
    case InArray => ArrayReduces(b, input);
    case InList => ListReduces(b, input);
    case InGroup => GroupReduces(b, input);
  }

  lemma ArrayReduces(b: int, input: seq<Token>)
    ensures Reduces(44, input, b, 4, 19)
  {
  }

  lemma ListReduces(b: int, input: seq<Token>)
    ensures Reduces(47, input, b, 4, 20)
  {
  }

  lemma GroupReduces(b: int, input: seq<Token>)
    ensures Reduces(48, input, b, 4, 24)
  {
  }

  predicate StartsWith(input: seq<Token>, t: Token)
  {
    input != [] && input[0] == t
  }

  // The default reduction of a state that looks at the token that comes next.
  lemma ReducesOn(s: int, t: Token, input: seq<Token>, b: int, pops: nat, q: int)
    requires StartsWith(input, t) && Decide(s, Num(t)) == Reduce(DefAct(s)) && Pops(s) == pops && After(b, s) == q
    ensures Reduces(s, input, b, pops, q)
  {
    hide Decide, DefAct, Pops, After;
  }

  // What the tables say before a closing bracket: after the opening one, after an element,
  // and after its comma.
  lemma CloseTables()
    ensures Decide(25, 14) == Reduce(DefAct(25)) && Pops(25) == 0 && After(25, 25) == 35
    ensures Decide(33, 14) == Reduce(DefAct(33)) && Pops(33) == 0 && After(33, 33) == 43
    ensures Decide(42, 14) == Reduce(DefAct(42)) && Pops(42) == 1 && After(33, 42) == 43
    ensures Decide(26, 16) == Reduce(DefAct(26)) && Pops(26) == 0 && After(26, 26) == 39
    ensures Decide(37, 16) == Reduce(DefAct(37)) && Pops(37) == 0 && After(37, 37) == 46
    ensures Decide(45, 16) == Reduce(DefAct(45)) && Pops(45) == 1 && After(37, 45) == 46
    ensures Decide(27, 19) == Reduce(DefAct(27)) && Pops(27) == 0 && After(27, 27) == 41
  {
  }

  // Nothing between the brackets.
  lemma EmptyMoves(k: Container, input: seq<Token>, top: Val, ctx: Ctx)
    requires StartsWith(input, CloseTok(k))
    ensures Reduces(InsideState(k), input, InsideState(k), 0, FullState(k))
    ensures Acts(InsideState(k), top, ctx, Proceed(ctx))
  {
    EmptyReduces(k, input);
    match k
    case InArray => assert DefAct(25) == 40;
    case InList => assert DefAct(26) == 35;
    case InGroup => assert DefAct(27) == 6;
  }

  lemma EmptyReduces(k: Container, input: seq<Token>)
    requires StartsWith(input, CloseTok(k))
    ensures Reduces(InsideState(k), input, InsideState(k), 0, FullState(k))
  {
    match k
    case InArray => EmptyArrayReduces(input);
    case InList => EmptyListReduces(input);
    case InGroup => EmptyGroupReduces(input);
  }

  lemma EmptyArrayReduces(input: seq<Token>)
    requires StartsWith(input, TArrayEnd)
    ensures Reduces(25, input, 25, 0, 35)
  {
    hide Decide, DefAct, Pops, After;
    CloseTables();
    ReducesOn(25, TArrayEnd, input, 25, 0, 35);
  }

  lemma EmptyListReduces(input: seq<Token>)
    requires StartsWith(input, TListEnd)
    ensures Reduces(26, input, 26, 0, 39)
  {
    hide Decide, DefAct, Pops, After;
    CloseTables();
    ReducesOn(26, TListEnd, input, 26, 0, 39);
  }

  lemma EmptyGroupReduces(input: seq<Token>)
    requires StartsWith(input, TGroupEnd)
    ensures Reduces(27, input, 27, 0, 41)
  {
    hide Decide, DefAct, Pops, After;
    CloseTables();
    ReducesOn(27, TGroupEnd, input, 27, 0, 41);
  }

  // ---------- The elements of arrays and lists ----------

  // The states after the first element and after another one, after the elements so far,
  // after a comma, after the optional last comma, and after all elements.
  function FirstState(k: Container): int
  {
    if k == InArray then 32 else 36
  }

  function NextState(k: Container): int
  {
    if k == InArray then 49 else 50
  }

  function SubState(k: Container): int
  {
    if k == InArray then 33 else 37
  }

  function CommaState(k: Container): int
  {
    if k == InArray then 42 else 45
  }

  function OptCommaState(k: Container): int
  {
    if k == InArray then 43 else 46
  }

  function ElementsState(k: Container): int
  {
    if k == InArray then 34 else 38
  }

  lemma FirstMoves(k: Container, input: seq<Token>, top: Val, ctx: Ctx)
    requires k != InGroup
    ensures Reduces(FirstState(k), input, InsideState(k), 1, SubState(k))
    ensures Acts(FirstState(k), top, ctx, Proceed(ctx))
  {
    assert DefAct(32) == 37 && DefAct(36) == 32;
  }

  lemma NextMoves(k: Container, input: seq<Token>, top: Val, ctx: Ctx)
    requires k != InGroup
    ensures Reduces(NextState(k), input, InsideState(k), 3, SubState(k))
    ensures Acts(NextState(k), top, ctx, Proceed(ctx))
  {
    assert DefAct(49) == 38 && DefAct(50) == 33;
  }

  lemma CommaShifts(k: Container)
    requires k != InGroup
    ensures Shifts(SubState(k), TComma, CommaState(k))
  {
    if k == InArray {
      EdgeShifts(33, TComma, 42);
    } else {
      EdgeShifts(37, TComma, 45);
    }
  }

  // The optional comma before the closing bracket, absent or present.
  lemma NoCommaMoves(k: Container, input: seq<Token>, top: Val, ctx: Ctx)
    requires k != InGroup && StartsWith(input, CloseTok(k))
    ensures Reduces(SubState(k), input, SubState(k), 0, OptCommaState(k))
    ensures Acts(SubState(k), top, ctx, Proceed(ctx))
  {
    if k == InArray {
      NoCommaInArray(input);
    } else {
      NoCommaInList(input);
    }
    assert DefAct(33) == 11 && DefAct(37) == 11;
  }

  lemma NoCommaInArray(input: seq<Token>)
    requires StartsWith(input, TArrayEnd)
    ensures Reduces(33, input, 33, 0, 43)
  {
    hide Decide, DefAct, Pops, After;
    CloseTables();
    ReducesOn(33, TArrayEnd, input, 33, 0, 43);
  }

  lemma NoCommaInList(input: seq<Token>)
    requires StartsWith(input, TListEnd)
    ensures Reduces(37, input, 37, 0, 46)
  {
    hide Decide, DefAct, Pops, After;
    CloseTables();
    ReducesOn(37, TListEnd, input, 37, 0, 46);
  }

  lemma LastCommaMoves(k: Container, input: seq<Token>, top: Val, ctx: Ctx)
    requires k != InGroup && StartsWith(input, CloseTok(k))
    ensures Reduces(CommaState(k), input, SubState(k), 1, OptCommaState(k))
    ensures Acts(CommaState(k), top, ctx, Proceed(ctx))
  {
    LastCommaReduces(k, input);
    assert DefAct(42) == 12 && DefAct(45) == 12;
  }

  lemma LastCommaReduces(k: Container, input: seq<Token>)
    requires k != InGroup && StartsWith(input, CloseTok(k))
    ensures Reduces(CommaState(k), input, SubState(k), 1, OptCommaState(k))
  {
    if k == InArray {
      LastCommaInArray(input);
    } else {
      LastCommaInList(input);
    }
  }

  lemma LastCommaInArray(input: seq<Token>)
    requires StartsWith(input, TArrayEnd)
    ensures Reduces(42, input, 33, 1, 43)
  {
    hide Decide, DefAct, Pops, After;
    CloseTables();
    ReducesOn(42, TArrayEnd, input, 33, 1, 43);
  }

  lemma LastCommaInList(input: seq<Token>)
    requires StartsWith(input, TListEnd)
    ensures Reduces(45, input, 37, 1, 46)
  {
    hide Decide, DefAct, Pops, After;
    CloseTables();
    ReducesOn(45, TListEnd, input, 37, 1, 46);
  }

  lemma ElementsMoves(k: Container, input: seq<Token>, top: Val, ctx: Ctx)
    requires k != InGroup
    ensures Reduces(OptCommaState(k), input, InsideState(k), 2, ElementsState(k))
    ensures Acts(OptCommaState(k), top, ctx, Proceed(ctx))
  {
    assert DefAct(43) == 39 && DefAct(46) == 34;
  }

  lemma FullMoves(k: Container, input: seq<Token>, top: Val, ctx: Ctx)
    requires k != InGroup
    ensures Reduces(ElementsState(k), input, InsideState(k), 1, FullState(k))
    ensures Acts(ElementsState(k), top, ctx, Proceed(ctx))
  {
    assert DefAct(34) == 41 && DefAct(38) == 36;
  }

  // ---------- Members of groups ----------

  // The states in which a member may start: at the start of the document or of a group,
  // and after the members so far.
  predicate MemberState(s: int)
  {
    s == 0 || s == 3 || s == 27 || s == 40
  }

  function MembersState(b: int): int
  {
    if b == 0 then 3 else 40
  }

  // Neither a separator nor another string literal comes next.
  predicate EndsMember(input: seq<Token>)
  {
    input == [] || input[0].TName? || input[0].TGroupEnd?
  }

  lemma NameMoves(b: int, name: string, input: seq<Token>, ctx: Ctx)
    requires MemberState(b)
    ensures Shifts(b, TName(name), 1) && Shifts(5, TEquals, 8)
    ensures Reduces(1, input, 1, 0, 5)
    ensures Acts(1, Tok(TName(name)), ctx, AddNamed(ctx, name))
  {
    NameShifts(b, name);
    assert DefAct(1) == 13;
  }

  lemma NameShifts(b: int, name: string)
    requires MemberState(b)
    ensures Shifts(b, TName(name), 1) && Shifts(5, TEquals, 8)
  {
    EdgeShifts(b, TName(name), 1);
    EdgeShifts(5, TEquals, 8);
  }

  // q is the state after an explicit separator, or 21 when there is none.
  lemma SeparatorMoves(q: int, input: seq<Token>, top: Val, ctx: Ctx)
    requires q == 28 || q == 29 || (q == 21 && EndsMember(input))
    ensures Reduces(q, input, 21, if q == 21 then 0 else 1, 30)
    ensures Acts(q, top, ctx, Proceed(ctx))
  {
    assert DefAct(21) == 8 && DefAct(28) == 10 && DefAct(29) == 9;
  }

  lemma SeparatorShifts()
    ensures Shifts(21, TComma, 28) && Shifts(21, TSemicolon, 29)
  {
    EdgeShifts(21, TComma, 28);
    EdgeShifts(21, TSemicolon, 29);
  }

  function MemberGoto(b: int): int
  {
    if b == 0 || b == 27 then 4 else 7
  }

  lemma MemberMoves(b: int, input: seq<Token>, top: Val, ctx: Ctx)
    requires MemberState(b)
    ensures Reduces(30, input, b, 5, MemberGoto(b))
    ensures Acts(30, top, ctx, Proceed(ctx))
  {
    assert DefAct(30) == 14;
  }

  lemma FirstMemberMoves(b: int, input: seq<Token>, top: Val, ctx: Ctx)
    requires b == 0 || b == 27
    ensures Reduces(4, input, b, 1, MembersState(b))
    ensures Acts(4, top, ctx, Proceed(ctx))
  {
    assert DefAct(4) == 4;
  }

  lemma NextMemberMoves(b: int, input: seq<Token>, top: Val, ctx: Ctx)
    requires b == 0 || b == 27
    ensures Reduces(7, input, b, 2, MembersState(b))
    ensures Acts(7, top, ctx, Proceed(ctx))
  {
    assert DefAct(7) == 5;
  }

  lemma GroupFullMoves(input: seq<Token>, top: Val, ctx: Ctx)
    requires StartsWith(input, TGroupEnd)
    ensures Reduces(40, input, 27, 1, 41)
    ensures Acts(40, top, ctx, Proceed(ctx))
  {
    assert DefAct(40) == 7;
  }

  // The end of the document: with members (s is 3) or without (s is 0).
  lemma DocumentMoves(s: int, top: Val, ctx: Ctx)
    requires s == 0 || s == 3
    ensures Reduces(s, [], 0, if s == 0 then 0 else 1, 2)
    ensures Acts(s, top, ctx, Proceed(ctx))
  {
    assert DefAct(0) == 2 && DefAct(3) == 3;
  }
}
