// The discipline of the parse context: in every reachable state of the parser the open
// brackets of the context are those on the stack, a value that is about to be stored has
// a setting to go to, and what has been built so far is well typed.
module Discipline {
  import opened Settings
  import opened Grammar
  import opened Parser

  // ---------- What the stack says about the context ----------

  // The bracket that a state opens: the states after the mid-rule actions do.
  function OpenedBy(s: int): seq<Container>
  {
    if s == 25 then [InArray] else if s == 26 then [InList] else if s == 27 then [InGroup] else []
  }

  // The brackets open on a stack, outermost first.
  function Opened(st: seq<int>): seq<Container>
  {
    if st == [] then [] else Opened(st[..|st| - 1]) + OpenedBy(st[|st| - 1])
  }

  // The stack ends inside "name = value" with the value not stored yet: a, b and c are
  // its top states, the topmost first.
  predicate AwaitsAt(a: int, b: int, c: int)
  {
    a == 5 || a == 8 || (b == 8 && (9 <= a <= 18 || a == 22)) || (c == 8 && a == 31)
  }

  function At(st: seq<int>, i: nat): int
  {
    if i < |st| then st[|st| - 1 - i] else -1
  }

  predicate Awaits(st: seq<int>)
  {
    AwaitsAt(At(st, 0), At(st, 1), At(st, 2))
  }

  // The stack ends with a string literal whose text has been collected.
  predicate HoldsText(st: seq<int>)
  {
    st != [] && (Top(st) == 22 || Top(st) == 31)
  }

  // ---------- Well-typed settings ----------

  // A member of a group has a valid name, an element of an array or list has none.
  predicate NameFits(name: Option<string>, c: Container)
  {
    if c == InGroup then name.Some? && ValidName(name.value) else name.None?
  }

  // Names fit, and the elements of an array are scalars of the type of the first.
  predicate Tidy(v: Value)
  {
    match v
    case Group(ms) => forall k | k in ms :: NameFits(k.name, InGroup) && Tidy(k.value) && k.value != NoValue
    case List(es) => forall k | k in es :: NameFits(k.name, InList) && Tidy(k.value) && k.value != NoValue
    case Array(es) => forall k | k in es ::
      NameFits(k.name, InArray) && IsScalar(k.value) && KindOf(k.value) == KindOf(es[0].value)
    case _ => true
  }

  // Frame i is well typed, and is named as its place in the frame outside it requires.
  predicate TidyFrame(fs: seq<Frame>, i: int)
  {
    0 <= i < |fs| ==>
      && Tidy(Contain(fs[i].container, fs[i].kids))
      && (if i == 0 then fs[i].name == None
          else NameFits(fs[i].name, fs[i - 1].container) && fs[i - 1].container != InArray)
  }

  ghost predicate TidyCtx(ctx: Ctx)
  {
    && ctx.frames != []
    && (forall i :: TidyFrame(ctx.frames, i))
    && (ctx.pending.Some? ==> NameFits(ctx.pending.value, InGroup) && Parent(ctx).container == InGroup)
  }

  function Containers(fs: seq<Frame>): seq<Container>
  {
    seq(|fs|, i requires 0 <= i < |fs| => fs[i].container)
  }

  // ---------- The invariant ----------

  ghost predicate ValuesAligned(st: seq<int>, vs: seq<Val>)
  {
    && |st| == |vs|
    && forall i {:trigger vs[i]} :: 0 < i < |st| && Stos(st[i]) < YYNTOKENS ==>
         vs[i].Tok? && Num(vs[i].token) == Stos(st[i])
  }

  ghost predicate CtxAligned(st: seq<int>, ctx: Ctx)
  {
    && Containers(ctx.frames) == [InGroup] + Opened(st)
    && (ctx.pending.Some? <==> Awaits(st))
    && (ctx.text.Some? <==> HoldsText(st))
    && TidyCtx(ctx)
  }

  ghost predicate Disciplined(c: Config)
  {
    WellFormed(c) && ValuesAligned(c.st, c.vs) && CtxAligned(c.st, c.ctx)
  }

  // ---------- Reading the open brackets off a path ----------

  lemma {:induction false} OpenedConcat(a: seq<int>, b: seq<int>)
    ensures Opened(a + b) == Opened(a) + Opened(b)
  {
    if b == [] {
      assert a + b == a;
    } else {
      var r, last := b[..|b| - 1], b[|b| - 1];
      OpenedConcat(a, r);
      assert (a + b)[..|a + b| - 1] == a + r && (a + b)[|a + b| - 1] == last;
      Associative(Opened(a), Opened(r), OpenedBy(last));
    }
  }

  lemma Associative<T>(x: seq<T>, y: seq<T>, z: seq<T>)
    ensures (x + y) + z == x + (y + z)
  {
  }

  lemma OpenedPush(st: seq<int>, q: int)
    ensures Opened(st + [q]) == Opened(st) + OpenedBy(q)
  {
    assert (st + [q])[..|st|] == st;
  }

  lemma OpenedPop(st: seq<int>)
    requires st != []
    ensures Opened(st) == Opened(st[..|st| - 1]) + OpenedBy(Top(st))
  {
  }

  // The brackets among the symbols that the default rule pops: only the rules that close
  // a bracket pop one, and they pop exactly that one.
  lemma OpenedByPopped(st: seq<int>)
    requires Path(st) && Top(st) != YYFINAL && 0 <= Pops(Top(st)) < |st|
    ensures Opened(st) == Opened(st[..|st| - Pops(Top(st))]) + ClosedBy(Top(st))
  {
    var k := |st| - Pops(Top(st));
    if k == |st| {
      EmptyRulesClose(Top(st));
      assert st[..k] == st;
    } else {
      PoppedStates(st);
      OpenedSplit(st, k);
    }
  }

  lemma OpenedSplit(st: seq<int>, k: nat)
    requires k <= |st|
    ensures Opened(st) == Opened(st[..k]) + Opened(st[k..])
  {
    var a, b := st[..k], st[k..];
    OpenedConcat(a, b);
    Rejoin(st, k);
  }

  lemma Rejoin<T>(s: seq<T>, k: nat)
    requires k <= |s|
    ensures s[..k] + s[k..] == s
  {
  }

  lemma EmptyRulesClose(s: int)
    requires Pops(s) == 0
    ensures ClosedBy(s) == []
  {
  }

  // The bracket that the default rule of state s closes.
  function ClosedBy(s: int): seq<Container>
  {
    if s == 44 then [InArray] else if s == 47 then [InList] else if s == 48 then [InGroup] else []
  }

  lemma PoppedStates(st: seq<int>)
    requires Path(st) && Top(st) != YYFINAL && 0 < Pops(Top(st)) < |st|
    ensures Opened(st[|st| - Pops(Top(st))..]) == ClosedBy(Top(st))
  {
    var h := |st|;
    PopsAtMostFive(Top(st));
    assert Link(st, h - 1);
    match Pops(Top(st))
    case 1 => OpenedOne(st[h - 1..]);
    case 2 => OpenedTwo(st[h - 2..]);
    case 3 => assert Link(st, h - 2); OpenedThree(st[h - 3..]);
    case 4 =>
      assert Link(st, h - 2) && Link(st, h - 3);
      OpenedFour(st[h - 4..]);
    case _ =>
      assert Link(st, h - 2) && Link(st, h - 3) && Link(st, h - 4);
      OpenedFive(st[h - 5..]);
  }

  lemma OpenedOne(w: seq<int>)
    requires |w| == 1 && Pops(w[0]) == 1
    ensures Opened(w) == ClosedBy(w[0])
  {
    assert w[..0] == [];
  }

  lemma OpenedTwo(w: seq<int>)
    requires |w| == 2 && Edge(w[0], w[1]) && Pops(w[1]) == 2 && w[1] != YYFINAL
    ensures Opened(w) == ClosedBy(w[1])
  {
    OpenedPop(w[..1]);
  }

  lemma OpenedThree(w: seq<int>)
    requires |w| == 3 && Edge(w[0], w[1]) && Edge(w[1], w[2]) && Pops(w[2]) == 3
    ensures Opened(w) == ClosedBy(w[2])
  {
    assert w[..2][..1] == w[..1];
    OpenedPop(w[..2]);
    OpenedPop(w[..1]);
  }

  lemma OpenedFour(w: seq<int>)
    requires |w| == 4 && Edge(w[0], w[1]) && Edge(w[1], w[2]) && Edge(w[2], w[3]) && Pops(w[3]) == 4
    ensures Opened(w) == ClosedBy(w[3])
  {
    assert w[..3][..2] == w[..2] && w[..2][..1] == w[..1];
    OpenedPop(w[..3]);
    OpenedPop(w[..2]);
    OpenedPop(w[..1]);
  }

  lemma OpenedFive(w: seq<int>)
    requires |w| == 5 && Pops(w[4]) == 5
    requires Edge(w[0], w[1]) && Edge(w[1], w[2]) && Edge(w[2], w[3]) && Edge(w[3], w[4])
    ensures Opened(w) == ClosedBy(w[4])
  {
    assert w[..4][..3] == w[..3] && w[..3][..2] == w[..2] && w[..2][..1] == w[..1];
    OpenedPop(w[..4]);
    OpenedPop(w[..3]);
    OpenedPop(w[..2]);
    OpenedPop(w[..1]);
  }

  // ---------- The innermost open bracket ----------

  function Context(st: seq<int>): Container
  {
    if Opened(st) == [] then InGroup else Opened(st)[|Opened(st)| - 1]
  }

  lemma ContextBelow(st: seq<int>)
    requires Path(st) && |st| > 1 && OpenedBy(Top(st)) == []
    ensures Path(st[..|st| - 1]) && Edge(Top(st[..|st| - 1]), Top(st))
    ensures Context(st) == Context(st[..|st| - 1])
  {
    OpenedPop(st);
    PathPrefix(st, |st| - 1);
  }

  lemma ContextOpened(st: seq<int>)
    requires st != [] && OpenedBy(Top(st)) != []
    ensures [Context(st)] == OpenedBy(Top(st))
  {
    OpenedPop(st);
  }

  // Where a name, an equals sign or a member of a group may be, the innermost bracket is a
  // group or the root.
  lemma {:induction false} GroupContext(st: seq<int>)
    requires Path(st) && Top(st) in {0, 1, 3, 5, 8, 27, 40}
    ensures Context(st) == InGroup
    decreases |st|
  {
    if |st| == 1 {
      assert st[..0] == [];
    } else if Top(st) == 27 {
      ContextOpened(st);
    } else {
      ContextBelow(st);
      GroupContext(st[..|st| - 1]);
    }
  }

  lemma {:induction false} ArrayContext(st: seq<int>)
    requires Path(st) && Top(st) in {25, 33, 42}
    ensures Context(st) == InArray
    decreases |st|
  {
    if Top(st) == 25 {
      ContextOpened(st);
    } else {
      ContextBelow(st);
      ArrayContext(st[..|st| - 1]);
    }
  }

  lemma {:induction false} ListContext(st: seq<int>)
    requires Path(st) && Top(st) in {26, 37, 45}
    ensures Context(st) == InList
    decreases |st|
  {
    if Top(st) == 26 {
      ContextOpened(st);
    } else {
      ContextBelow(st);
      ListContext(st[..|st| - 1]);
    }
  }

  lemma ParentIsContext(st: seq<int>, ctx: Ctx)
    requires st != [] && CtxAligned(st, ctx)
    ensures Parent(ctx).container == Context(st)
    ensures |ctx.frames| == 1 + |Opened(st)|
  {
    var cs := Containers(ctx.frames);
    assert cs[|cs| - 1] == Parent(ctx).container;
  }

  // Where a value may start, the context says where it goes: a value under "name =" has
  // a fresh setting, and every other one is an element.
  lemma ValueContext(st: seq<int>)
    requires Path(st) && |st| > 1 && Top(st) in {9, 10, 11, 12, 13, 14, 16, 17, 18, 22}
    ensures Awaits(st) <==> Context(st) == InGroup
    ensures Top(st) in {16, 17, 18} ==> Context(st) != InArray
  {
    var h := |st|;
    var below := st[..h - 1];
    ContextBelow(st);
    if st[h - 2] == 8 {
      GroupContext(below);
    } else if st[h - 2] in {25, 42} {
      ArrayContext(below);
    } else {
      ListContext(below);
    }
  }

  // ---------- What the actions keep ----------

  lemma AddKidKeeps(ctx: Ctx, k: Setting)
    requires TidyCtx(ctx) && ctx.pending == None
    requires Tidy(Contain(Parent(ctx).container, Parent(ctx).kids + [k]))
    ensures TidyCtx(AddKid(ctx, k)) && Containers(AddKid(ctx, k).frames) == Containers(ctx.frames)
  {
    var fs, r := ctx.frames, AddKid(ctx, k).frames;
    forall i
      ensures TidyFrame(r, i)
    {
      assert TidyFrame(fs, i);
    }
  }

  lemma PushFrameKeeps(ctx: Ctx, f: Frame)
    requires TidyCtx(ctx) && ctx.pending == None && f.kids == []
    requires NameFits(f.name, Parent(ctx).container) && Parent(ctx).container != InArray
    ensures var r := ctx.(frames := ctx.frames + [f]);
      TidyCtx(r) && Containers(r.frames) == Containers(ctx.frames) + [f.container]
  {
    var r := ctx.frames + [f];
    EmptyTidy(f.container);
    forall i
      ensures TidyFrame(r, i)
    {
      assert TidyFrame(ctx.frames, i);
    }
  }

  lemma EmptyTidy(c: Container)
    ensures Tidy(Contain(c, []))
  {
  }

  lemma PopFrameKeeps(ctx: Ctx)
    requires TidyCtx(ctx) && |ctx.frames| > 1 && ctx.pending == None
    ensures var r := ctx.(frames := ctx.frames[..|ctx.frames| - 1]);
      TidyCtx(r) && Containers(r.frames) == Containers(ctx.frames)[..|ctx.frames| - 1]
  {
    var r := ctx.frames[..|ctx.frames| - 1];
    forall i
      ensures TidyFrame(r, i)
    {
      assert TidyFrame(ctx.frames, i);
    }
  }

  // Adding one more child that fits keeps a container well typed.
  lemma GrowTidy(c: Container, kids: seq<Setting>, k: Setting)
    requires Tidy(Contain(c, kids)) && NameFits(k.name, c) && k.value != NoValue
    requires if c == InArray then
               IsScalar(k.value) && (kids != [] ==> KindOf(k.value) == KindOf(kids[0].value))
             else Tidy(k.value)
    ensures Tidy(Contain(c, kids + [k]))
  {
    var r := kids + [k];
    assert forall x | x in r :: x in kids || x == k;
    assert kids != [] ==> r[0] == kids[0];
  }

  lemma StoreKeeps(ctx: Ctx, v: Value)
    requires TidyCtx(ctx) && IsScalar(v)
    requires ctx.pending.Some? <==> Parent(ctx).container == InGroup
    ensures var e := Store(ctx, v);
      && !e.Illegal?
      && (e.Proceed? ==> TidyCtx(e.ctx) && Containers(e.ctx.frames) == Containers(ctx.frames)
                         && e.ctx.pending == None && e.ctx.text == ctx.text)
  {
    var p := Parent(ctx);
    assert TidyFrame(ctx.frames, |ctx.frames| - 1);
    if p.container == InGroup {
      var k := Setting(ctx.pending.value, v);
      GrowTidy(p.container, p.kids, k);
      AddKidKeeps(ctx.(pending := None), k);
      assert AddKid(ctx, k).(pending := None) == AddKid(ctx.(pending := None), k);
    } else if Store(ctx, v).Proceed? {
      GrowTidy(p.container, p.kids, Setting(None, v));
      AddKidKeeps(ctx, Setting(None, v));
    }
  }

  lemma OpenKeeps(ctx: Ctx, c: Container)
    requires TidyCtx(ctx) && Parent(ctx).container != InArray
    requires ctx.pending.Some? <==> Parent(ctx).container == InGroup
    ensures var e := Open(ctx, c);
      && e.Proceed? && TidyCtx(e.ctx) && Containers(e.ctx.frames) == Containers(ctx.frames) + [c]
      && e.ctx.pending == None && e.ctx.text == ctx.text
  {
    if Parent(ctx).container == InList {
      PushFrameKeeps(ctx, Frame(None, c, []));
    } else {
      PushFrameKeeps(ctx.(pending := None), Frame(ctx.pending.value, c, []));
    }
  }

  lemma CloseKeeps(ctx: Ctx)
    requires TidyCtx(ctx) && |ctx.frames| > 1 && ctx.pending == None
    ensures var e := Close(ctx);
      && e.Proceed? && TidyCtx(e.ctx)
      && Containers(e.ctx.frames) == Containers(ctx.frames)[..|ctx.frames| - 1]
      && e.ctx.pending == None && e.ctx.text == ctx.text
  {
    var n := |ctx.frames|;
    var p := Parent(ctx);
    var outer := ctx.(frames := ctx.frames[..n - 1]);
    assert TidyFrame(ctx.frames, n - 1) && TidyFrame(ctx.frames, n - 2);
    PopFrameKeeps(ctx);
    var k := Setting(p.name, Contain(p.container, p.kids));
    GrowTidy(Parent(outer).container, Parent(outer).kids, k);
    AddKidKeeps(outer, k);
  }

  // ---------- What each step keeps ----------

  lemma ShiftAligned(st: seq<int>, ctx: Ctx, q: int)
    requires Path(st) && CtxAligned(st, ctx) && Edge(Top(st), q) && Stos(q) < YYNTOKENS
    ensures CtxAligned(st + [q], ctx)
  {
    OpenedPush(st, q);
    AwaitsShift(st, q);
  }

  lemma AwaitsShift(st: seq<int>, q: int)
    requires Path(st) && Edge(Top(st), q) && Stos(q) < YYNTOKENS
    ensures OpenedBy(q) == []
    ensures Awaits(st + [q]) <==> Awaits(st)
    ensures HoldsText(st + [q]) <==> HoldsText(st)
  {
    var h := |st|;
    var r := st + [q];
    assert At(r, 0) == q && At(r, 1) == At(st, 0) && At(r, 2) == At(st, 1);
    Terminals(q);
    if h > 1 {
      assert Link(st, h - 1);
    }
    AwaitsEdge(At(st, 2), At(st, 1), At(st, 0), q);
  }

  predicate Terminal(q: int)
  {
    || q == 1 || q == 6 || 8 <= q <= 18 || q == 28 || q == 29 || q == 31
    || q == 42 || q == 44 || q == 45 || q == 47 || q == 48
  }

  lemma Terminals(q: int)
    requires 0 < q < YYNSTATES
    ensures Stos(q) < YYNTOKENS <==> Terminal(q)
  {
  }

  lemma AwaitsEdge(c: int, b: int, a: int, q: int)
    requires Edge(a, q) && Terminal(q) && (Edge(b, a) || a == 0)
    ensures AwaitsAt(q, a, b) <==> AwaitsAt(a, b, c)
    ensures OpenedBy(q) == []
    ensures q == 31 || q != 22
    ensures q == 31 <==> (a == 22 || a == 31)
  {
  }

  // The stack after the default reduction in its top state.
  function Reduced(st: seq<int>): seq<int>
    requires st != [] && 0 <= Pops(Top(st)) < |st|
  {
    var k := |st| - Pops(Top(st));
    st[..k] + [After(st[k - 1], Top(st))]
  }

  lemma OpenedReduced(st: seq<int>)
    requires Path(st) && Top(st) != YYFINAL && 0 <= Pops(Top(st)) < |st|
    ensures var rest := Opened(st[..|st| - Pops(Top(st))]);
      Opened(st) == rest + ClosedBy(Top(st)) && Opened(Reduced(st)) == rest + OpenedByRule(Top(st))
  {
    var k := |st| - Pops(Top(st));
    OpenedByPopped(st);
    AfterOpens(st[k - 1], Top(st));
    OpenedPush(st[..k], After(st[k - 1], Top(st)));
  }

  // The bracket that the default rule of state s opens.
  function OpenedByRule(s: int): seq<Container>
  {
    if s == 16 then [InArray] else if s == 17 then [InList] else if s == 18 then [InGroup] else []
  }

  lemma AfterOpens(b: int, s: int)
    ensures OpenedBy(After(b, s)) == OpenedByRule(s)
  {
  }

  lemma AwaitsReduced(st: seq<int>)
    requires Path(st) && Top(st) != YYFINAL && 0 <= Pops(Top(st)) < |st|
    ensures Awaits(Reduced(st)) <==> Top(st) == 1 || (Top(st) in {15, 31} && Awaits(st))
    ensures HoldsText(Reduced(st)) <==> Top(st) in {15, 31}
    ensures Awaits(st) ==> !Quiet(Top(st)) && Top(st) != 1 && Top(st) !in {44, 47, 48}
  {
    var s := Top(st);
    var k := |st| - Pops(s);
    var r := Reduced(st);
    assert At(r, 0) == After(st[k - 1], s) && At(r, 1) == st[k - 1];
    assert s == 15 ==> At(st, 1) == st[k - 1];
    assert s == 31 ==> At(st, 2) == st[k - 1];
    assert Link(st, k);
    AwaitsAfter(st[k - 1], s, At(r, 2));
  }

  lemma AwaitsAfter(b: int, s: int, c: int)
    requires 0 <= s < YYNSTATES && Pops(s) != -1 && s != YYFINAL
    requires s == 31 ==> b in {8, 25, 26, 42, 45}
    ensures var q := After(b, s);
      && (AwaitsAt(q, b, c) <==> s == 1 || ((s == 15 || s == 31) && b == 8))
      && (q == 22 || q == 31 <==> s == 15 || s == 31)
  {
  }

  // The states whose default rule has no action on the context.
  predicate Quiet(s: int)
  {
    s != 1 && !(9 <= s <= 18) && s != 22 && s != 31 && s != 44 && s != 47 && s != 48
  }

  lemma QuietRule(s: int, top: Val, ctx: Ctx)
    requires 0 <= s < YYNSTATES && Pops(s) != -1 && Quiet(s)
    ensures Act(DefAct(s), top, ctx) == Proceed(ctx)
    ensures OpenedByRule(s) == ClosedBy(s) == []
  {
  }

  // What a reduction's action does in a disciplined state.
  ghost predicate ActAligned(st: seq<int>, e: Effect)
  {
    && !e.Illegal?
    && (e.Proceed? ==> CtxAligned(st, e.ctx))
  }

  ghost predicate Reducible(st: seq<int>, ctx: Ctx)
  {
    Path(st) && Top(st) != YYFINAL && 0 <= Pops(Top(st)) < |st| && CtxAligned(st, ctx)
  }

  lemma ReduceAligned(st: seq<int>, top: Val, ctx: Ctx)
    requires Reducible(st, ctx)
    requires |st| > 1 && Terminal(Top(st)) ==> top.Tok? && Num(top.token) == Stos(Top(st))
    ensures ActAligned(Reduced(st), Act(DefAct(Top(st)), top, ctx))
  {
    var s := Top(st);
    if Quiet(s) {
      QuietAligned(st, top, ctx);
    } else {
      assert |st| > 1;
      if s == 1 {
        NameAligned(st, top, ctx);
      } else if s == 15 || s == 31 {
        TextAligned(st, top, ctx);
      } else if s in {16, 17, 18} {
        OpenAligned(st, top, ctx);
      } else if s in {44, 47, 48} {
        CloseAligned(st, top, ctx);
      } else {
        ScalarAligned(st, top, ctx);
      }
    }
  }

  lemma QuietAligned(st: seq<int>, top: Val, ctx: Ctx)
    requires Reducible(st, ctx) && Quiet(Top(st))
    ensures ActAligned(Reduced(st), Act(DefAct(Top(st)), top, ctx))
  {
    QuietRule(Top(st), top, ctx);
    OpenedReduced(st);
    AwaitsReduced(st);
  }

  lemma NameAligned(st: seq<int>, top: Val, ctx: Ctx)
    requires Reducible(st, ctx) && Top(st) == 1 && top.Tok? && Num(top.token) == Stos(1)
    ensures ActAligned(Reduced(st), Act(DefAct(Top(st)), top, ctx))
  {
    NameReduced(st);
    GroupContext(st);
    ParentIsContext(st, ctx);
    NameRule(top, ctx);
    AddNamedKeeps(ctx, top.token.name);
  }

  lemma NameReduced(st: seq<int>)
    requires Path(st) && Top(st) == 1 && Pops(1) < |st|
    ensures Opened(Reduced(st)) == Opened(st) && Awaits(Reduced(st)) && !HoldsText(Reduced(st))
    ensures !Awaits(st) && !HoldsText(st)
  {
    OpenedReduced(st);
    AwaitsReduced(st);
  }

  lemma NameRule(top: Val, ctx: Ctx)
    requires top.Tok? && Num(top.token) == Stos(1)
    ensures top.token.TName? && Act(DefAct(1), top, ctx) == AddNamed(ctx, top.token.name)
  {
    assert DefAct(1) == 13;
  }

  lemma AddNamedKeeps(ctx: Ctx, name: string)
    requires TidyCtx(ctx) && Parent(ctx).container == InGroup
    ensures var e := AddNamed(ctx, name);
      && !e.Illegal?
      && (e.Proceed? ==> TidyCtx(e.ctx) && e.ctx.frames == ctx.frames && e.ctx.pending.Some? && e.ctx.text == ctx.text)
  {
  }

  lemma TextAligned(st: seq<int>, top: Val, ctx: Ctx)
    requires Reducible(st, ctx) && Top(st) in {15, 31} && top.Tok? && Num(top.token) == Stos(Top(st))
    ensures ActAligned(Reduced(st), Act(DefAct(Top(st)), top, ctx))
  {
    TextReduced(st);
    TextRule(Top(st), top, ctx);
    assert TidyCtx(AppendText(ctx, top.token.text));
  }

  lemma TextReduced(st: seq<int>)
    requires Path(st) && Top(st) in {15, 31} && 0 <= Pops(Top(st)) < |st|
    ensures Opened(Reduced(st)) == Opened(st) && HoldsText(Reduced(st))
    ensures Awaits(Reduced(st)) <==> Awaits(st)
  {
    OpenedReduced(st);
    AwaitsReduced(st);
  }

  lemma TextRule(s: int, top: Val, ctx: Ctx)
    requires s in {15, 31} && top.Tok? && Num(top.token) == Stos(s)
    ensures top.token.TString? && Act(DefAct(s), top, ctx) == Proceed(AppendText(ctx, top.token.text))
  {
    assert DefAct(s) in {23, 24};
  }

  lemma OpenAligned(st: seq<int>, top: Val, ctx: Ctx)
    requires Reducible(st, ctx) && Top(st) in {16, 17, 18} && |st| > 1
    ensures ActAligned(Reduced(st), Act(DefAct(Top(st)), top, ctx))
  {
    var c := BracketOpened(st);
    AwaitsReduced(st);
    ValueContext(st);
    ParentIsContext(st, ctx);
    OpenRule(Top(st), top, ctx);
    OpenKeeps(ctx, c);
    Associative([InGroup], Opened(st), [c]);
  }

  lemma BracketOpened(st: seq<int>) returns (c: Container)
    requires Path(st) && Top(st) in {16, 17, 18} && |st| > 1
    ensures OpenedByRule(Top(st)) == [c] && Opened(Reduced(st)) == Opened(st) + [c]
  {
    OpenedReduced(st);
    c := OpenedByRule(Top(st))[0];
  }

  lemma OpenRule(s: int, top: Val, ctx: Ctx)
    requires s in {16, 17, 18}
    ensures |OpenedByRule(s)| == 1 && ClosedBy(s) == []
    ensures Act(DefAct(s), top, ctx) == Open(ctx, OpenedByRule(s)[0])
  {
    assert DefAct(s) in {15, 17, 42};
  }

  lemma CloseAligned(st: seq<int>, top: Val, ctx: Ctx)
    requires Reducible(st, ctx) && Top(st) in {44, 47, 48}
    ensures ActAligned(Reduced(st), Act(DefAct(Top(st)), top, ctx))
  {
    OpenedReduced(st);
    AwaitsReduced(st);
    ParentIsContext(st, ctx);
    CloseRule(Top(st), top, ctx);
    CloseKeeps(ctx);
  }

  lemma CloseRule(s: int, top: Val, ctx: Ctx)
    requires s in {44, 47, 48}
    ensures |ClosedBy(s)| == 1 && OpenedByRule(s) == []
    ensures Act(DefAct(s), top, ctx) == Close(ctx)
  {
    assert DefAct(s) in {16, 18, 43};
  }

  lemma ScalarAligned(st: seq<int>, top: Val, ctx: Ctx)
    requires Reducible(st, ctx) && Top(st) in {9, 10, 11, 12, 13, 14, 22} && |st| > 1
    requires Top(st) != 22 ==> top.Tok? && Num(top.token) == Stos(Top(st))
    ensures ActAligned(Reduced(st), Act(DefAct(Top(st)), top, ctx))
  {
    OpenedReduced(st);
    AwaitsReduced(st);
    ValueContext(st);
    ParentIsContext(st, ctx);
    if Top(st) == 22 {
      StringRule(top, ctx);
      StoreKeeps(ctx.(text := None), String(ctx.text));
    } else {
      ScalarRule(Top(st), top, ctx);
      StoreKeeps(ctx, ScalarOf(DefAct(Top(st)), top).value);
    }
  }

  lemma StringRule(top: Val, ctx: Ctx)
    ensures ClosedBy(22) == OpenedByRule(22) == []
    ensures Act(DefAct(22), top, ctx) == Store(ctx.(text := None), String(ctx.text))
  {
    assert DefAct(22) == 31;
  }

  lemma ScalarRule(s: int, top: Val, ctx: Ctx)
    requires 9 <= s <= 14 && top.Tok? && Num(top.token) == Stos(s)
    ensures ClosedBy(s) == OpenedByRule(s) == []
    ensures ScalarOf(DefAct(s), top).Some? && IsScalar(ScalarOf(DefAct(s), top).value)
    ensures Act(DefAct(s), top, ctx) == Store(ctx, ScalarOf(DefAct(s), top).value)
  {
    assert 25 <= DefAct(s) <= 30;
  }

  lemma StepDisciplined(c: Config, depth: nat)
    requires Disciplined(c)
    ensures Step(c, depth) != Halt(Undefined)
    ensures Step(c, depth).Go? ==> Disciplined(Step(c, depth).next)
    ensures Step(c, depth).Halt? && Step(c, depth).outcome.Accepted? ==> Finished(Step(c, depth).outcome.ctx)
  {
    assert c.st != [];
    StepUnfolds(c, depth);
    hide Decide, DefAct, WellFormed, Step, StepReduce, Finished, ValuesAligned, CtxAligned;
    match Decide(Top(c.st), Lookahead(c.input))
    case Reject =>
    case Shift(q) => ShiftDisciplined(c, q);
    case Reduce(n) => StepReduceDisciplined(c, n, depth);
  }

  lemma StepUnfolds(c: Config, depth: nat)
    requires WellFormed(c)
    ensures var m := Decide(Top(c.st), Lookahead(c.input));
      && (m.Reject? ==> Step(c, depth) == Halt(SyntaxError))
      && (m.Shift? ==> Step(c, depth) == Pushed(ShiftTo(c, m.state), depth))
      && (m.Reduce? ==> m.rule == DefAct(Top(c.st)) && 1 <= m.rule && 0 <= R2(m.rule) < |c.st|
                        && Step(c, depth) == StepReduce(c, m.rule, depth))
  {
    assert c.st != [];
    hide Decide, DefAct, GoTo, R1, Path, StepReduce;
    match Decide(Top(c.st), Lookahead(c.input))
    case Reject =>
    case Shift(q) =>
    case Reduce(n) => ReductionFits(c.st, Lookahead(c.input), n);
  }

  lemma StepReduceDisciplined(c: Config, n: int, depth: nat)
    requires Disciplined(c) && n == DefAct(Top(c.st)) && 1 <= n && 0 <= R2(n) < |c.st|
    ensures var r := StepReduce(c, n, depth);
      && r != Halt(Undefined)
      && (r.Go? ==> Disciplined(r.next))
      && !(r.Halt? && r.outcome.Accepted?)
  {
    ReduceDisciplined(c, n);
    StepReduceCases(c, n, depth);
    var e := Act(n, c.vs[|c.vs| - 1], c.ctx);
    if e.Proceed? {
      PushedDisciplined(ReduceTo(c, n, e.ctx), depth);
    }
  }

  lemma StepReduceCases(c: Config, n: int, depth: nat)
    requires 1 <= n && 0 <= R2(n) < |c.st| == |c.vs|
    ensures var e := Act(n, c.vs[|c.vs| - 1], c.ctx); var r := StepReduce(c, n, depth);
      && (e.Proceed? ==> r == Pushed(ReduceTo(c, n, e.ctx), depth))
      && (e.Mismatch? ==> r == Halt(Aborted))
  {
  }

  lemma PushedDisciplined(d: Config, depth: nat)
    requires Disciplined(d)
    ensures var r := Pushed(d, depth);
      r != Halt(Undefined) && (r.Go? ==> r.next == d) && !(r.Halt? && r.outcome.Accepted?)
  {
  }

  // Every bracket is closed and no member lacks its value.
  ghost predicate Finished(ctx: Ctx)
  {
    TidyCtx(ctx) && |ctx.frames| == 1 && ctx.pending == None && Parent(ctx).container == InGroup
  }

  lemma ShiftDisciplined(c: Config, q: int)
    requires Disciplined(c) && Decide(Top(c.st), Lookahead(c.input)) == Shift(q)
    ensures q != YYFINAL ==> Disciplined(ShiftTo(c, q))
    ensures q == YYFINAL ==> Finished(c.ctx)
  {
    ShiftIsEdge(Top(c.st), Lookahead(c.input), q);
    ShiftIsSound(c, q);
    if q == YYFINAL {
      AtEnd(c.st, c.ctx);
    } else {
      ShiftAligned(c.st, c.ctx, q);
      ValuesShift(c, q);
    }
  }

  lemma ValuesShift(c: Config, q: int)
    requires ValuesAligned(c.st, c.vs) && c.input != [] && Stos(q) == Num(c.input[0])
    ensures ValuesAligned(ShiftTo(c, q).st, ShiftTo(c, q).vs)
  {
  }

  lemma ReduceDisciplined(c: Config, n: int)
    requires Disciplined(c) && n == DefAct(Top(c.st)) && 1 <= n && 0 <= R2(n) < |c.st|
    ensures var e := Act(n, c.vs[|c.vs| - 1], c.ctx);
      && !e.Illegal?
      && (e.Proceed? ==> Disciplined(ReduceTo(c, n, e.ctx)))
  {
    var e := Act(n, c.vs[|c.vs| - 1], c.ctx);
    DefaultRule(Top(c.st));
    if |c.st| > 1 {
      TopTerminal(c.st);
    }
    ReduceAligned(c.st, c.vs[|c.vs| - 1], c.ctx);
    if e.Proceed? {
      ReducedStack(c, n, e.ctx);
      ValuesReduced(c, n, e.ctx);
      ReduceIsSound(c, n, 0);
    }
  }

  lemma TopTerminal(st: seq<int>)
    requires Path(st) && |st| > 1
    ensures Stos(Top(st)) < YYNTOKENS <==> Terminal(Top(st))
  {
    assert Link(st, |st| - 1);
    Terminals(Top(st));
  }

  lemma ReducedStack(c: Config, n: int, ctx: Ctx)
    requires WellFormed(c) && n == DefAct(Top(c.st)) && 1 <= n
    requires 0 <= Pops(Top(c.st)) == R2(n) < |c.st|
    ensures ReduceTo(c, n, ctx).st == Reduced(c.st)
  {
    hide DefAct, GoTo, R1, R2, Rank, Stos, Pops, After;
    ReductionIsSound(c.st, n);
  }

  lemma ValuesReduced(c: Config, n: int, ctx: Ctx)
    requires WellFormed(c) && ValuesAligned(c.st, c.vs) && n == DefAct(Top(c.st)) && 1 <= n
    requires 0 <= R2(n) < |c.st|
    ensures ValuesAligned(ReduceTo(c, n, ctx).st, ReduceTo(c, n, ctx).vs)
  {
    hide DefAct, GoTo, R1, R2, Rank, Stos, After;
    ReductionIsSound(c.st, n);
    var k := |c.st| - R2(n);
    ValuesPush(c.st[..k], c.vs[..k], GoTo(c.st[k - 1], R1(n)), ReduceTo(c, n, ctx).vs[k]);
  }

  lemma ValuesPush(st: seq<int>, vs: seq<Val>, q: int, v: Val)
    requires ValuesAligned(st, vs) && Stos(q) >= YYNTOKENS
    ensures ValuesAligned(st + [q], vs + [v])
  {
  }

  // The end of input is shifted with every bracket closed.
  lemma AtEnd(st: seq<int>, ctx: Ctx)
    requires Path(st) && CtxAligned(st, ctx) && Edge(Top(st), YYFINAL)
    ensures Finished(ctx)
  {
    var h := |st|;
    assert Top(st) == 2 && h > 1;
    assert Link(st, h - 1);
    if h > 2 {
      NotStart(st, h - 2);
    }
    assert st[..1] == [0] && [0][..0] == [];
    OpenedPop(st);
    OpenedPop(st[..1]);
    ParentIsContext(st, ctx);
  }

  lemma NotStart(st: seq<int>, i: nat)
    requires Path(st) && 0 < i < |st|
    ensures st[i] != 0
  {
    assert Link(st, i);
  }

  lemma {:induction false} RunDisciplined(c: Config, depth: nat)
    requires Disciplined(c)
    ensures Run(c, depth) != Undefined
    ensures Run(c, depth).Accepted? ==> Finished(Run(c, depth).ctx)
    decreases |c.input|, |c.st| + Rank(Top(c.st))
  {
    StepDisciplined(c, depth);
    if Step(c, depth).Go? {
      StepIsSound(c, depth);
      RunDisciplined(Step(c, depth).next, depth);
    }
  }

  // No token sequence makes the parser read a value that was never set, store through a
  // null setting or leave the root; and what it accepts is one root group that is well
  // typed, with every bracket closed and no member left without a value.
  lemma ParseDisciplined(tokens: seq<Token>)
    ensures Parse(tokens) != Undefined
    ensures Parse(tokens).Accepted? ==>
      && Parse(tokens).ctx.pending == None
      && exists kids :: Tidy(Group(kids)) && Parse(tokens).ctx.frames == [Frame(None, InGroup, kids)]
  {
    InitialDisciplined(tokens);
    RunDisciplined(Initial(tokens), YYMAXDEPTH);
    if Parse(tokens).Accepted? {
      FinishedRoot(Parse(tokens).ctx);
    }
  }

  lemma InitialDisciplined(tokens: seq<Token>)
    ensures Disciplined(Initial(tokens))
  {
    assert [0][..0] == [];
    OpenedPop([0]);
    EmptyTidy(InGroup);
  }

  lemma FinishedRoot(ctx: Ctx)
    requires Finished(ctx)
    ensures exists kids :: Tidy(Group(kids)) && ctx.frames == [Frame(None, InGroup, kids)]
  {
    assert TidyFrame(ctx.frames, 0);
    assert Tidy(Group(Parent(ctx).kids));
  }
}
