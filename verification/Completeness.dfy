// What the parser does on the tokens of every document, whatever its nesting: it goes on
// past each construct with the settings it denotes stored, or it does not accept.
module Completeness {
  import opened Settings
  import Grammar
  import opened Parser
  import opened Documents
  import opened Steps
  import opened Moves

  // ---------- The context around a value ----------

  function AddKids(ctx: Ctx, kids: seq<Setting>): Ctx
    requires ctx.frames != []
  {
    var p := Parent(ctx);
    ctx.(frames := ctx.frames[..|ctx.frames| - 1] + [p.(kids := p.kids + kids)])
  }

  // A completed value goes to the pending member, or becomes a new element.
  function Deliver(ctx: Ctx, v: Value): Ctx
    requires ctx.frames != []
  {
    if ctx.pending.Some? then AddKid(ctx, Setting(ctx.pending.value, v)).(pending := None)
    else AddKid(ctx, Setting(None, v))
  }

  // The context inside a bracket that has just been opened.
  function Inside(ctx: Ctx, k: Container): Ctx
  {
    ctx.(frames := ctx.frames + [Frame(if ctx.pending.Some? then ctx.pending.value else None, k, [])],
         pending := None)
  }

  // The context expects a value where the parser does.
  predicate Ready(ctx: Ctx, s: int)
  {
    && ctx.frames != [] && ctx.text == None
    && (if s == 8 then Parent(ctx).container == InGroup && ctx.pending.Some?
        else Parent(ctx).container == InList && ctx.pending == None)
  }

  // The parent is of kind k and nothing is pending.
  predicate Within(ctx: Ctx, k: Container)
  {
    ctx.frames != [] && Parent(ctx).container == k && ctx.pending == None && ctx.text == None
  }

  lemma OpenAndClose(ctx: Ctx, s: int, k: Container, kids: seq<Setting>)
    requires ValueState(s) && Ready(ctx, s)
    ensures Open(ctx, k) == Proceed(Inside(ctx, k)) && Within(Inside(ctx, k), k)
    ensures Close(AddKids(Inside(ctx, k), kids)) == Proceed(Deliver(ctx, Contain(k, kids)))
  {
    var i := Inside(ctx, k);
    var p := Parent(i).(kids := kids);
    assert i.frames[..|i.frames| - 1] == ctx.frames && [] + kids == kids;
    assert AddKids(i, kids).frames == ctx.frames + [p];
    assert AddKids(i, kids).frames[..|ctx.frames|] == ctx.frames;
  }

  lemma OpenInside(ctx: Ctx, s: int, k: Container)
    requires ValueState(s) && Ready(ctx, s)
    ensures var i := Inside(ctx, k);
      Open(ctx, k) == Proceed(i) && Within(i, k) && Parent(i).kids == [] && AddKids(i, []) == i
  {
    AddNoKids(Inside(ctx, k));
  }

  lemma AddKidsTwice(ctx: Ctx, a: seq<Setting>, b: seq<Setting>)
    requires ctx.frames != []
    ensures AddKids(AddKids(ctx, a), b) == AddKids(ctx, a + b)
  {
    var p := Parent(ctx);
    assert AddKids(ctx, a).frames[..|ctx.frames| - 1] == ctx.frames[..|ctx.frames| - 1];
    assert (p.kids + a) + b == p.kids + (a + b);
  }

  lemma AddNoKids(ctx: Ctx)
    requires ctx.frames != []
    ensures AddKids(ctx, []) == ctx
  {
    var p := Parent(ctx);
    assert p.kids + [] == p.kids;
    assert ctx.frames[..|ctx.frames| - 1] + [p] == ctx.frames;
  }

  // The run goes on with these settings added, exactly if ok.
  ghost predicate Adds(c: Config, r: Config, d: nat, st: seq<int>, rest: seq<Token>, kids: seq<Setting>, ok: bool)
    requires c.ctx.frames != []
  {
    Continues(c, r, d, ok) && (ok ==> r.st == st && r.input == rest && r.ctx == AddKids(c.ctx, kids))
  }

  // One such run after another.
  lemma AddsThen(c: Config, m: Config, r: Config, d: nat, mid: seq<Token>, a: seq<Setting>, ok: bool,
                 st: seq<int>, rest: seq<Token>, b: seq<Setting>, next: bool)
    requires c.ctx.frames != [] && Adds(c, m, d, m.st, mid, a, ok)
    requires if ok then m.ctx.frames != [] && Adds(m, r, d, st, rest, b, next) else r == m
    ensures Adds(c, r, d, st, rest, a + b, ok && next)
  {
    if ok {
      Chain(c, m, r, d);
      AddKidsTwice(c.ctx, a, b);
    }
  }

  // ---------- Scalars ----------

  // The run stores value v over the stack of c and goes on in state q.
  ghost predicate Stores(c: Config, r: Config, d: nat, q: int, rest: seq<Token>, v: Value, fits: bool)
  {
    var e := Store(c.ctx, v);
    && Continues(c, r, d, fits && e.Proceed?)
    && (fits && e.Proceed? ==> r.st == c.st + [q] && r.input == rest && r.ctx == e.ctx)
  }

  lemma PlainRun(c: Config, d: nat, s: Scalar, rest: seq<Token>) returns (r: Config)
    requires Live(c) && ScalarState(Top(c.st)) && !s.SString?
    requires c.input == ScalarToks(s) + rest
    ensures Stores(c, r, d, ScalarGoto(Top(c.st)), rest, ScalarValue(s), ScalarFits(s, |c.st|, d))
  {
    var tok := PlainTok(s, rest);
    ScalarMoves(Top(c.st), tok, rest, c.ctx);
    r := DoShift(c, d, ScalarTokState(tok));
    if |r.st| < d {
      var m := r;
      r := DoReduce(m, d, c.st, ScalarGoto(Top(c.st)), Store(c.ctx, ScalarValue(s)));
      Chain(c, m, r, d);
    }
  }

  lemma PlainTok(s: Scalar, rest: seq<Token>) returns (t: Token)
    requires !s.SString?
    ensures var ts := ScalarToks(s) + rest; StartsWith(ts, t) && ts[1..] == rest
    ensures ScalarTokState(t) != -1 && TokValue(t) == ScalarValue(s)
  {
    t := ScalarToks(s)[0];
  }

  lemma LiteralTok(parts: seq<string>, rest: seq<Token>)
    requires parts != []
    ensures var ts := StringToks(parts) + rest;
      StartsWith(ts, TString(parts[0])) && ts[1..] == StringToks(parts[1..]) + rest
  {
    Regroup(TString(parts[0]), StringToks(parts[1..]), [], rest);
    assert StringToks(parts) == [TString(parts[0])] + StringToks(parts[1..]) + [];
    assert [] + rest == rest;
  }

  lemma JoinedAfter(text: string, parts: seq<string>)
    ensures if parts == [] then text + Joined(parts) == text
      else (text + parts[0]) + Joined(parts[1..]) == text + Joined(parts)
  {
  }

  // One string literal: q is 15 for the first and 31 for another.
  lemma LiteralRun(c: Config, d: nat, base: seq<int>, q: int, text: string) returns (r: Config)
    requires Live(c) && base != [] && StartsWith(c.input, TString(text))
    requires (q == 15 && c.st == base && ScalarState(Top(base))) || (q == 31 && c.st == base + [22])
    ensures Continues(c, r, d, |c.st| + 1 < d)
    ensures |c.st| + 1 < d ==> r.st == base + [22] && r.input == c.input[1..] && r.ctx == AppendText(c.ctx, text)
  {
    LiteralMoves(Top(c.st), q, Top(base), text, c.input[1..], c.ctx);
    r := DoShift(c, d, q);
    if |r.st| < d {
      var m := r;
      r := DoReduce(m, d, base, 22, Proceed(AppendText(c.ctx, text)));
      Chain(c, m, r, d);
    }
  }

  // The literals that follow the first, collected into the text.
  lemma {:induction false} LiteralsRun(c: Config, d: nat, base: seq<int>, parts: seq<string>, rest: seq<Token>)
    returns (r: Config)
    requires Live(c) && base != [] && c.st == base + [22] && c.ctx.text.Some?
    requires c.input == StringToks(parts) + rest
    ensures Continues(c, r, d, parts == [] || |base| + 2 < d)
    ensures parts == [] || |base| + 2 < d ==>
      r.st == c.st && r.input == rest && r.ctx == c.ctx.(text := Some(c.ctx.text.value + Joined(parts)))
    decreases parts
  {
    r := c;
    JoinedAfter(c.ctx.text.value, parts);
    if parts == [] {
      Stay(c, d);
    } else {
      LiteralTok(parts, rest);
      r := LiteralRun(c, d, base, 31, parts[0]);
      if |base| + 2 < d {
        var m := r;
        r := LiteralsRun(m, d, base, parts[1..], rest);
        Chain(c, m, r, d);
      }
    }
  }

  lemma StringRun(c: Config, d: nat, s: Scalar, rest: seq<Token>) returns (r: Config)
    requires Live(c) && ScalarState(Top(c.st)) && s.SString? && c.ctx.text == None
    requires c.input == ScalarToks(s) + rest && NotString(rest)
    ensures Stores(c, r, d, ScalarGoto(Top(c.st)), rest, ScalarValue(s), ScalarFits(s, |c.st|, d))
  {
    LiteralTok([s.first] + s.others, rest);
    assert c.input == StringToks([s.first] + s.others) + rest;
    r := LiteralRun(c, d, c.st, 15, s.first);
    if |c.st| + 1 < d {
      var m := r;
      r := LiteralsRun(m, d, c.st, s.others, rest);
      Chain(c, m, r, d);
      if s.others == [] || |c.st| + 2 < d {
        var n := r;
        assert n.ctx.(text := None) == c.ctx;
        TextMoves(Top(c.st), rest, n.vs[|n.vs| - 1], n.ctx);
        r := DoReduce(n, d, c.st, ScalarGoto(Top(c.st)), Store(c.ctx, ScalarValue(s)));
        Chain(c, n, r, d);
      }
    }
  }

  lemma ScalarRun(c: Config, d: nat, s: Scalar, rest: seq<Token>) returns (r: Config)
    requires Live(c) && ScalarState(Top(c.st)) && c.ctx.text == None
    requires c.input == ScalarToks(s) + rest && NotString(rest)
    ensures Stores(c, r, d, ScalarGoto(Top(c.st)), rest, ScalarValue(s), ScalarFits(s, |c.st|, d))
  {
    if s.SString? {
      r := StringRun(c, d, s, rest);
    } else {
      r := PlainRun(c, d, s, rest);
    }
  }

  // ---------- Brackets ----------

  // Opening a bracket.
  lemma OpenRun(c: Config, d: nat, k: Container) returns (r: Config)
    requires Live(c) && ValueState(Top(c.st)) && Ready(c.ctx, Top(c.st)) && StartsWith(c.input, OpenTok(k))
    ensures Continues(c, r, d, |c.st| + 2 < d)
    ensures |c.st| + 2 < d ==>
      && r.st == c.st + [OpenState(k), InsideState(k)] && r.input == c.input[1..] && r.ctx == Inside(c.ctx, k)
      && Within(r.ctx, k) && Parent(r.ctx).kids == [] && AddKids(r.ctx, []) == r.ctx
  {
    OpenMoves(Top(c.st), k, c.input[1..], Tok(OpenTok(k)), c.ctx);
    OpenInside(c.ctx, Top(c.st), k);
    r := DoShift(c, d, OpenState(k));
    if |r.st| < d {
      var m := r;
      r := DoReduce(m, d, m.st, InsideState(k), Proceed(Inside(c.ctx, k)));
      Chain(c, m, r, d);
    }
  }

  // Closing a bracket whose contents have all been read.
  lemma CloseRun(c: Config, d: nat, base: seq<int>, k: Container, outer: Ctx, kids: seq<Setting>)
    returns (r: Config)
    requires base != [] && ValueState(Top(base)) && Ready(outer, Top(base))
    requires Live(c) && c.st == base + [OpenState(k), InsideState(k)] + [FullState(k)]
    requires StartsWith(c.input, CloseTok(k)) && c.ctx == AddKids(Inside(outer, k), kids)
    ensures Continues(c, r, d, |base| + 4 < d)
    ensures |base| + 4 < d ==>
      r.st == base + [ValueGoto(Top(base))] && r.input == c.input[1..] && r.ctx == Deliver(outer, Contain(k, kids))
  {
    OpenAndClose(outer, Top(base), k, kids);
    CloseMoves(Top(base), k, c.input[1..], Tok(CloseTok(k)), c.ctx);
    r := DoShift(c, d, CloseState(k));
    if |r.st| < d {
      var m := r;
      var closed := Deliver(outer, Contain(k, kids));
      r := DoReduce(m, d, base, BracketState(k), Proceed(closed));
      Chain(c, m, r, d);
      var n := r;
      ValueMoves(Top(base), BracketState(k), n.input, n.vs[|n.vs| - 1], closed);
      r := DoReduce(n, d, base, ValueGoto(Top(base)), Proceed(closed));
      Chain(c, n, r, d);
    }
  }

  // Nothing between the brackets.
  lemma EmptyRun(c: Config, d: nat, k: Container) returns (r: Config)
    requires Live(c) && Top(c.st) == InsideState(k) && StartsWith(c.input, CloseTok(k))
    ensures r.st == c.st + [FullState(k)] && r.input == c.input && r.ctx == c.ctx
    ensures Continues(c, r, d, |c.st| + 1 < d)
  {
    EmptyMoves(k, c.input, c.vs[|c.vs| - 1], c.ctx);
    r := DoReduce(c, d, c.st, FullState(k), Proceed(c.ctx));
  }

  // A bracket that is closed at once, up to its closing token.
  lemma NothingInsideRun(c: Config, d: nat, k: Container) returns (r: Config)
    requires Live(c) && ValueState(Top(c.st)) && Ready(c.ctx, Top(c.st))
    requires StartsWith(c.input, OpenTok(k)) && StartsWith(c.input[1..], CloseTok(k))
    ensures Continues(c, r, d, |c.st| + 3 < d)
    ensures |c.st| + 3 < d ==>
      && r.st == c.st + [OpenState(k), InsideState(k)] + [FullState(k)]
      && r.input == c.input[1..] && r.ctx == AddKids(Inside(c.ctx, k), [])
  {
    r := OpenRun(c, d, k);
    if |c.st| + 2 < d {
      var m := r;
      r := EmptyRun(m, d, k);
      Chain(c, m, r, d);
    }
  }

  // ---------- The elements of arrays and lists ----------

  // The optional comma after the last element.
  lemma OptCommaRun(c: Config, d: nat, k: Container, comma: bool, rest: seq<Token>) returns (r: Config)
    requires Live(c) && k != InGroup && Top(c.st) == SubState(k)
    requires c.input == CommaToks(comma) + rest && StartsWith(rest, CloseTok(k))
    ensures Continues(c, r, d, |c.st| + 1 < d)
    ensures |c.st| + 1 < d ==> r.st == c.st + [OptCommaState(k)] && r.input == rest && r.ctx == c.ctx
  {
    if comma {
      assert c.input[1..] == rest;
      CommaShifts(k);
      r := DoShift(c, d, CommaState(k));
      if |r.st| < d {
        var m := r;
        LastCommaMoves(k, rest, m.vs[|m.vs| - 1], c.ctx);
        r := DoReduce(m, d, c.st, OptCommaState(k), Proceed(c.ctx));
        Chain(c, m, r, d);
      }
    } else {
      assert c.input == rest;
      NoCommaMoves(k, rest, c.vs[|c.vs| - 1], c.ctx);
      r := DoReduce(c, d, c.st, OptCommaState(k), Proceed(c.ctx));
    }
  }

  // After the last element, up to the closing bracket.
  lemma TailRun(c: Config, d: nat, inside: seq<int>, k: Container, comma: bool, rest: seq<Token>)
    returns (r: Config)
    requires Live(c) && k != InGroup && inside != [] && Top(inside) == InsideState(k)
    requires c.st == inside + [SubState(k)]
    requires c.input == CommaToks(comma) + rest && StartsWith(rest, CloseTok(k))
    ensures Continues(c, r, d, |inside| + 2 < d)
    ensures |inside| + 2 < d ==> r.st == inside + [FullState(k)] && r.input == rest && r.ctx == c.ctx
  {
    r := OptCommaRun(c, d, k, comma, rest);
    if |c.st| + 1 < d {
      var m := r;
      ElementsMoves(k, rest, m.vs[|m.vs| - 1], c.ctx);
      r := DoReduce(m, d, inside, ElementsState(k), Proceed(c.ctx));
      Chain(c, m, r, d);
      var n := r;
      FullMoves(k, rest, n.vs[|n.vs| - 1], c.ctx);
      r := DoReduce(n, d, inside, FullState(k), Proceed(c.ctx));
      Chain(c, n, r, d);
    }
  }

  // The first element has been read.
  lemma FirstRun(c: Config, d: nat, inside: seq<int>, k: Container) returns (r: Config)
    requires Live(c) && k != InGroup && inside != [] && Top(inside) == InsideState(k)
    requires c.st == inside + [FirstState(k)] && |c.st| < d
    ensures Continues(c, r, d, true)
    ensures r.st == inside + [SubState(k)] && r.input == c.input && r.ctx == c.ctx
  {
    FirstMoves(k, c.input, c.vs[|c.vs| - 1], c.ctx);
    r := DoReduce(c, d, inside, SubState(k), Proceed(c.ctx));
  }

  // Another element has been read.
  lemma NextRun(c: Config, d: nat, inside: seq<int>, k: Container) returns (r: Config)
    requires Live(c) && k != InGroup && inside != [] && Top(inside) == InsideState(k)
    requires c.st == inside + [SubState(k), CommaState(k), NextState(k)] && |c.st| < d
    ensures Continues(c, r, d, true)
    ensures r.st == inside + [SubState(k)] && r.input == c.input && r.ctx == c.ctx
  {
    NextMoves(k, c.input, c.vs[|c.vs| - 1], c.ctx);
    r := DoReduce(c, d, inside, SubState(k), Proceed(c.ctx));
  }

  lemma CommaRun(c: Config, d: nat, inside: seq<int>, k: Container) returns (r: Config)
    requires Live(c) && k != InGroup && c.st == inside + [SubState(k)] && StartsWith(c.input, TComma)
    ensures Continues(c, r, d, |inside| + 2 < d)
    ensures r.st == inside + [SubState(k), CommaState(k)] && r.input == c.input[1..] && r.ctx == c.ctx
  {
    CommaShifts(k);
    r := DoShift(c, d, CommaState(k));
  }

  // ---------- Arrays ----------

  lemma StoreElement(ctx: Ctx, v: Value)
    requires Within(ctx, InArray)
    ensures var kids := Parent(ctx).kids; var e := Store(ctx, v);
      if kids == [] || KindOf(kids[0].value) == KindOf(v) then
        e == Proceed(AddKids(ctx, [Setting(None, v)])) && Within(e.ctx, InArray)
        && Parent(e.ctx).kids == kids + [Setting(None, v)]
      else e == Mismatch
  {
  }

  lemma MoreScalarTok(es: seq<Scalar>, rest: seq<Token>)
    requires es != []
    ensures var ts := MoreScalarToks(es) + rest;
      StartsWith(ts, TComma) && ts[1..] == ScalarToks(es[0]) + (MoreScalarToks(es[1..]) + rest)
  {
    Regroup(TComma, ScalarToks(es[0]), MoreScalarToks(es[1..]), rest);
  }

  lemma Regroup(t: Token, a: seq<Token>, b: seq<Token>, rest: seq<Token>)
    ensures var ts := ([t] + a + b) + rest; StartsWith(ts, t) && ts[1..] == a + (b + rest)
  {
  }

  lemma MoreScalarsNotString(es: seq<Scalar>, rest: seq<Token>)
    requires NotString(rest)
    ensures NotString(MoreScalarToks(es) + rest)
  {
  }

  // The elements after the first.
  lemma {:induction false} ElementsRun(c: Config, d: nat, inside: seq<int>, es: seq<Scalar>, rest: seq<Token>)
    returns (r: Config)
    requires Live(c) && inside != [] && Top(inside) == 25 && c.st == inside + [33]
    requires c.input == MoreScalarToks(es) + rest && NotString(rest)
    requires Within(c.ctx, InArray) && Parent(c.ctx).kids != []
    ensures var ok := SameKind(es, KindOf(Parent(c.ctx).kids[0].value)) && ScalarsFit(es, |inside| + 2, d);
      Adds(c, r, d, c.st, rest, ScalarKids(es), ok)
    decreases es
  {
    r := c;
    if es == [] {
      Stay(c, d);
      AddNoKids(c.ctx);
    } else {
      var k := KindOf(Parent(c.ctx).kids[0].value);
      var more := MoreScalarToks(es[1..]) + rest;
      var next := ScalarFits(es[0], |inside| + 2, d) && KindOf(ScalarValue(es[0])) == k;
      MoreScalarTok(es, rest);
      MoreScalarsNotString(es[1..], rest);
      r := NextElementRun(c, d, inside, es[0], more);
      if next {
        var m := r;
        r := ElementsRun(m, d, inside, es[1..], rest);
        AddsThen(c, m, r, d, more, [Setting(None, ScalarValue(es[0]))], next, c.st, rest, ScalarKids(es[1..]),
                 SameKind(es[1..], k) && ScalarsFit(es[1..], |inside| + 2, d));
      }
    }
  }

  // A comma and another element.
  lemma NextElementRun(c: Config, d: nat, inside: seq<int>, e: Scalar, rest: seq<Token>) returns (r: Config)
    requires Live(c) && inside != [] && Top(inside) == 25 && c.st == inside + [33]
    requires StartsWith(c.input, TComma) && c.input[1..] == ScalarToks(e) + rest && NotString(rest)
    requires Within(c.ctx, InArray) && Parent(c.ctx).kids != []
    ensures var ok := ScalarFits(e, |inside| + 2, d) && KindOf(ScalarValue(e)) == KindOf(Parent(c.ctx).kids[0].value);
      && Adds(c, r, d, c.st, rest, [Setting(None, ScalarValue(e))], ok)
      && (ok ==> Within(r.ctx, InArray) && Parent(r.ctx).kids == Parent(c.ctx).kids + [Setting(None, ScalarValue(e))])
  {
    StoreElement(c.ctx, ScalarValue(e));
    r := CommaRun(c, d, inside, InArray);
    if |inside| + 2 < d {
      var m := r;
      r := ScalarRun(m, d, e, rest);
      Chain(c, m, r, d);
      if ScalarFits(e, |inside| + 2, d) && Store(c.ctx, ScalarValue(e)).Proceed? {
        var n := r;
        r := NextRun(n, d, inside, InArray);
        Chain(c, n, r, d);
      }
    }
  }

  // The elements of a non-empty array.
  lemma ElementsOfRun(c: Config, d: nat, es: seq<Scalar>, rest: seq<Token>) returns (r: Config)
    requires Live(c) && Top(c.st) == 25 && Within(c.ctx, InArray) && Parent(c.ctx).kids == []
    requires es != [] && NotString(rest) && c.input == ScalarToks(es[0]) + (MoreScalarToks(es[1..]) + rest)
    ensures var ok := SameKind(es[1..], KindOf(ScalarValue(es[0])))
                      && ScalarFits(es[0], |c.st|, d) && ScalarsFit(es[1..], |c.st| + 2, d);
      && Continues(c, r, d, ok)
      && (ok ==> r.st == c.st + [33] && r.input == rest && r.ctx == AddKids(c.ctx, ScalarKids(es)))
  {
    var v := ScalarValue(es[0]);
    StoreElement(c.ctx, v);
    MoreScalarsNotString(es[1..], rest);
    r := ScalarRun(c, d, es[0], MoreScalarToks(es[1..]) + rest);
    if ScalarFits(es[0], |c.st|, d) {
      var m := r;
      r := FirstRun(m, d, c.st, InArray);
      Chain(c, m, r, d);
      var n := r;
      r := ElementsRun(n, d, c.st, es[1..], rest);
      Chain(c, n, r, d);
      AddKidsTwice(c.ctx, [Setting(None, v)], ScalarKids(es[1..]));
    }
  }

  // The elements of a non-empty array, up to its closing bracket.
  lemma ArrayBodyRun(c: Config, d: nat, es: seq<Scalar>, comma: bool, rest: seq<Token>) returns (r: Config)
    requires Live(c) && Top(c.st) == 25 && Within(c.ctx, InArray) && Parent(c.ctx).kids == []
    requires es != [] && StartsWith(rest, TArrayEnd)
    requires c.input == ScalarToks(es[0]) + (MoreScalarToks(es[1..]) + (CommaToks(comma) + rest))
    ensures var ok := ArrayBodyOk(es, |c.st|, d);
      && Continues(c, r, d, ok)
      && (ok ==> r.st == c.st + [35] && r.input == rest && r.ctx == AddKids(c.ctx, ScalarKids(es)))
  {
    r := ElementsOfRun(c, d, es, CommaToks(comma) + rest);
    if SameKind(es[1..], KindOf(ScalarValue(es[0]))) && ScalarFits(es[0], |c.st|, d)
       && ScalarsFit(es[1..], |c.st| + 2, d) {
      var o := r;
      r := TailRun(o, d, c.st, InArray, comma, rest);
      Chain(c, o, r, d);
    }
  }

  // The run reads item v and goes on with the value it denotes delivered.
  ghost predicate Reads(c: Config, r: Config, d: nat, v: Item, rest: seq<Token>)
    requires c.ctx.frames != [] && c.st != []
  {
    var ok := Typed(v) && Fits(v, |c.st|, d);
    && Continues(c, r, d, ok)
    && (ok ==> r.st == c.st + [ValueGoto(Top(c.st))] && r.input == rest && r.ctx == Deliver(c.ctx, ItemValue(v)))
  }

  lemma ArrayToks(es: seq<Scalar>, comma: bool, rest: seq<Token>)
    ensures var ts := ItemToks(ArrayItem(es, comma)) + rest;
      && StartsWith(ts, TArrayStart)
      && ts[1..] == if es == [] then [TArrayEnd] + rest
                    else ScalarToks(es[0]) + (MoreScalarToks(es[1..]) + (CommaToks(comma) + ([TArrayEnd] + rest)))
  {
    if es == [] {
      assert ItemToks(ArrayItem(es, comma)) == [TArrayStart, TArrayEnd];
    } else {
      RegroupBracket(TArrayStart, ScalarToks(es[0]), MoreScalarToks(es[1..]), CommaToks(comma), TArrayEnd, rest);
    }
  }

  lemma RegroupBracket(open: Token, a: seq<Token>, b: seq<Token>, c: seq<Token>, close: Token, rest: seq<Token>)
    ensures var ts := ([open] + (a + b + c) + [close]) + rest;
      StartsWith(ts, open) && ts[1..] == a + (b + (c + ([close] + rest)))
  {
  }

  // From the opening bracket on: what is read inside it is read after it.
  lemma BodyInside(c: Config, m: Config, r: Config, d: nat, k: Container, kids: seq<Setting>, close: seq<Token>,
                   ok: bool)
    requires Continues(c, m, d, true) && m.st == c.st + [OpenState(k), InsideState(k)]
    requires m.ctx == Inside(c.ctx, k) && Adds(m, r, d, m.st + [FullState(k)], close, kids, ok)
    ensures Continues(c, r, d, ok)
    ensures ok ==>
      && r.st == c.st + [OpenState(k), InsideState(k)] + [FullState(k)]
      && r.input == close && r.ctx == AddKids(Inside(c.ctx, k), kids)
  {
    Chain(c, m, r, d);
  }

  lemma ArrayRun(c: Config, d: nat, es: seq<Scalar>, comma: bool, rest: seq<Token>) returns (r: Config)
    requires Live(c) && ValueState(Top(c.st)) && Ready(c.ctx, Top(c.st))
    requires c.input == ItemToks(ArrayItem(es, comma)) + rest
    ensures Reads(c, r, d, ArrayItem(es, comma), rest)
  {
    var close := [TArrayEnd] + rest;
    ArrayToks(es, comma, rest);
    r := ArrayInsideRun(c, d, es, comma, close);
    r := FinishRun(c, r, d, InArray, ScalarKids(es), close, ArrayBodyOk(es, |c.st| + 2, d));
    assert close[1..] == rest;
    ArrayOk(es, comma, |c.st|, d);
  }

  // The opening bracket and what follows, up to the closing one.
  lemma ArrayInsideRun(c: Config, d: nat, es: seq<Scalar>, comma: bool, close: seq<Token>) returns (r: Config)
    requires Live(c) && ValueState(Top(c.st)) && Ready(c.ctx, Top(c.st)) && StartsWith(close, TArrayEnd)
    requires StartsWith(c.input, TArrayStart) && c.input[1..] == if es == [] then close
      else ScalarToks(es[0]) + (MoreScalarToks(es[1..]) + (CommaToks(comma) + close))
    ensures Continues(c, r, d, ArrayBodyOk(es, |c.st| + 2, d))
    ensures ArrayBodyOk(es, |c.st| + 2, d) ==>
      && r.st == c.st + [OpenState(InArray), InsideState(InArray)] + [FullState(InArray)]
      && r.input == close && r.ctx == AddKids(Inside(c.ctx, InArray), ScalarKids(es))
  {
    if es == [] {
      r := NothingInsideRun(c, d, InArray);
    } else {
      r := ArrayFullRun(c, d, es, comma, close);
    }
  }

  lemma ArrayFullRun(c: Config, d: nat, es: seq<Scalar>, comma: bool, close: seq<Token>) returns (r: Config)
    requires Live(c) && ValueState(Top(c.st)) && Ready(c.ctx, Top(c.st)) && StartsWith(close, TArrayEnd)
    requires es != [] && StartsWith(c.input, TArrayStart)
    requires c.input[1..] == ScalarToks(es[0]) + (MoreScalarToks(es[1..]) + (CommaToks(comma) + close))
    ensures var ok := ArrayBodyOk(es, |c.st| + 2, d);
      && Continues(c, r, d, ok)
      && (ok ==> r.st == c.st + [OpenState(InArray), InsideState(InArray)] + [FullState(InArray)]
                 && r.input == close && r.ctx == AddKids(Inside(c.ctx, InArray), ScalarKids(es)))
  {
    hide Sound, Leads, Fails, ArrayBodyOk, AddKids, Inside, ScalarToks, MoreScalarToks, CommaToks;
    BodyNeeds(es, [], [], |c.st| + 2, d);
    r := OpenRun(c, d, InArray);
    if |c.st| + 2 < d {
      var m := r;
      r := ArrayBodyRun(m, d, es, comma, close);
      BodyInside(c, m, r, d, InArray, ScalarKids(es), close, ArrayBodyOk(es, |m.st|, d));
    }
  }

  // The contents of an array can be read from stack height h.
  predicate ArrayBodyOk(es: seq<Scalar>, h: nat, d: nat)
  {
    if es == [] then h + 1 < d
    else SameKind(es[1..], KindOf(ScalarValue(es[0]))) && h + 2 < d
         && ScalarFits(es[0], h, d) && ScalarsFit(es[1..], h + 2, d)
  }

  lemma ArrayOk(es: seq<Scalar>, comma: bool, h: nat, d: nat)
    ensures var v := ArrayItem(es, comma); Typed(v) && Fits(v, h, d) <==> ArrayBodyOk(es, h + 2, d) && h + 4 < d
  {
  }

  // From the full bracket to the delivered value, when the body was read.
  lemma FinishRun(c: Config, m: Config, d: nat, k: Container, kids: seq<Setting>, close: seq<Token>, ok: bool)
    returns (r: Config)
    requires Live(c) && ValueState(Top(c.st)) && Ready(c.ctx, Top(c.st))
    requires StartsWith(close, CloseTok(k)) && Continues(c, m, d, ok)
    requires ok ==> m.st == c.st + [OpenState(k), InsideState(k)] + [FullState(k)] && m.input == close
                    && m.ctx == AddKids(Inside(c.ctx, k), kids)
    ensures Continues(c, r, d, ok && |c.st| + 4 < d)
    ensures ok && |c.st| + 4 < d ==>
      r.st == c.st + [ValueGoto(Top(c.st))] && r.input == close[1..] && r.ctx == Deliver(c.ctx, Contain(k, kids))
  {
    r := m;
    if ok {
      r := CloseRun(m, d, c.st, k, c.ctx, kids);
      Chain(c, m, r, d);
    }
  }

  // ---------- Lists and groups ----------

  lemma MoreItemTok(vs: seq<Item>, rest: seq<Token>)
    requires vs != []
    ensures var ts := MoreItemToks(vs) + rest;
      StartsWith(ts, TComma) && ts[1..] == ItemToks(vs[0]) + (MoreItemToks(vs[1..]) + rest)
  {
    Regroup(TComma, ItemToks(vs[0]), MoreItemToks(vs[1..]), rest);
  }

  lemma MoreItemsNotString(vs: seq<Item>, rest: seq<Token>)
    requires NotString(rest)
    ensures NotString(MoreItemToks(vs) + rest)
  {
  }

  lemma ListToks(vs: seq<Item>, comma: bool, rest: seq<Token>)
    ensures var ts := ItemToks(ListItem(vs, comma)) + rest;
      && StartsWith(ts, TListStart)
      && ts[1..] == if vs == [] then [TListEnd] + rest
                    else ItemToks(vs[0]) + (MoreItemToks(vs[1..]) + (CommaToks(comma) + ([TListEnd] + rest)))
  {
    if vs == [] {
      assert ItemToks(ListItem(vs, comma)) == [TListStart, TListEnd];
    } else {
      RegroupBracket(TListStart, ItemToks(vs[0]), MoreItemToks(vs[1..]), CommaToks(comma), TListEnd, rest);
    }
  }

  lemma GroupToks(ms: seq<Member>, rest: seq<Token>)
    ensures var ts := ItemToks(GroupItem(ms)) + rest;
      StartsWith(ts, TGroupStart) && ts[1..] == MemberToks(ms) + ([TGroupEnd] + rest)
  {
  }

  // Delivering an element to a list.
  lemma DeliverElement(ctx: Ctx, v: Value)
    requires Within(ctx, InList)
    ensures Deliver(ctx, v) == AddKids(ctx, [Setting(None, v)]) && Within(Deliver(ctx, v), InList)
  {
  }

  lemma ItemRun(c: Config, d: nat, v: Item, rest: seq<Token>) returns (r: Config)
    requires Live(c) && ValueState(Top(c.st)) && Ready(c.ctx, Top(c.st))
    requires c.input == ItemToks(v) + rest && NotString(rest)
    ensures Reads(c, r, d, v, rest)
    decreases v, 2
  {
    match v
    case Plain(s) => r := PlainItemRun(c, d, s, rest);
    case ArrayItem(es, comma) => r := ArrayRun(c, d, es, comma, rest);
    case ListItem(vs, comma) => r := ListRun(c, d, vs, comma, rest);
    case GroupItem(ms) => r := GroupRun(c, d, ms, rest);
  }

  lemma PlainItemRun(c: Config, d: nat, s: Scalar, rest: seq<Token>) returns (r: Config)
    requires Live(c) && ValueState(Top(c.st)) && Ready(c.ctx, Top(c.st))
    requires c.input == ScalarToks(s) + rest && NotString(rest)
    ensures Reads(c, r, d, Plain(s), rest)
  {
    assert Store(c.ctx, ScalarValue(s)) == Proceed(Deliver(c.ctx, ScalarValue(s)));
    r := ScalarRun(c, d, s, rest);
    if ScalarFits(s, |c.st|, d) {
      var m := r;
      ValueMoves(Top(c.st), 23, rest, m.vs[|m.vs| - 1], m.ctx);
      r := DoReduce(m, d, c.st, ValueGoto(Top(c.st)), Proceed(m.ctx));
      Chain(c, m, r, d);
    }
  }

  lemma ListRun(c: Config, d: nat, vs: seq<Item>, comma: bool, rest: seq<Token>) returns (r: Config)
    requires Live(c) && ValueState(Top(c.st)) && Ready(c.ctx, Top(c.st))
    requires c.input == ItemToks(ListItem(vs, comma)) + rest
    ensures Reads(c, r, d, ListItem(vs, comma), rest)
    decreases vs, 4
  {
    var close := [TListEnd] + rest;
    ListToks(vs, comma, rest);
    r := ListInsideRun(c, d, vs, comma, close);
    r := FinishRun(c, r, d, InList, ItemKids(vs), close, ListBodyOk(vs, |c.st| + 2, d));
    assert close[1..] == rest;
    ListOk(vs, comma, |c.st|, d);
  }

  // The opening bracket and what follows, up to the closing one.
  lemma ListInsideRun(c: Config, d: nat, vs: seq<Item>, comma: bool, close: seq<Token>) returns (r: Config)
    requires Live(c) && ValueState(Top(c.st)) && Ready(c.ctx, Top(c.st)) && StartsWith(close, TListEnd)
    requires StartsWith(c.input, TListStart) && c.input[1..] == if vs == [] then close
      else ItemToks(vs[0]) + (MoreItemToks(vs[1..]) + (CommaToks(comma) + close))
    ensures Continues(c, r, d, ListBodyOk(vs, |c.st| + 2, d))
    ensures ListBodyOk(vs, |c.st| + 2, d) ==>
      && r.st == c.st + [OpenState(InList), InsideState(InList)] + [FullState(InList)]
      && r.input == close && r.ctx == AddKids(Inside(c.ctx, InList), ItemKids(vs))
    decreases vs, 3
  {
    if vs == [] {
      r := NothingInsideRun(c, d, InList);
    } else {
      r := ListFullRun(c, d, vs, comma, close);
    }
  }

  lemma ListFullRun(c: Config, d: nat, vs: seq<Item>, comma: bool, close: seq<Token>) returns (r: Config)
    requires Live(c) && ValueState(Top(c.st)) && Ready(c.ctx, Top(c.st)) && StartsWith(close, TListEnd)
    requires vs != [] && StartsWith(c.input, TListStart)
    requires c.input[1..] == ItemToks(vs[0]) + (MoreItemToks(vs[1..]) + (CommaToks(comma) + close))
    ensures var ok := ListBodyOk(vs, |c.st| + 2, d);
      && Continues(c, r, d, ok)
      && (ok ==> r.st == c.st + [OpenState(InList), InsideState(InList)] + [FullState(InList)]
                 && r.input == close && r.ctx == AddKids(Inside(c.ctx, InList), ItemKids(vs)))
    decreases vs, 2
  {
    hide Sound, Leads, Fails, ListBodyOk, AddKids, Inside, ItemToks, MoreItemToks, CommaToks;
    BodyNeeds([], vs, [], |c.st| + 2, d);
    r := OpenRun(c, d, InList);
    if |c.st| + 2 < d {
      var m := r;
      r := ListBodyRun(m, d, vs, comma, close);
      BodyInside(c, m, r, d, InList, ItemKids(vs), close, ListBodyOk(vs, |m.st|, d));
    }
  }

  predicate ListBodyOk(vs: seq<Item>, h: nat, d: nat)
  {
    if vs == [] then h + 1 < d
    else ItemsTyped(vs) && h + 2 < d && Fits(vs[0], h, d) && ItemsFit(vs[1..], h + 2, d)
  }

  lemma ListOk(vs: seq<Item>, comma: bool, h: nat, d: nat)
    ensures var v := ListItem(vs, comma); Typed(v) && Fits(v, h, d) <==> ListBodyOk(vs, h + 2, d) && h + 4 < d
  {
    assert Typed(ListItem(vs, comma)) == ItemsTyped(vs);
    assert vs != [] ==> ItemsTyped(vs) == (Typed(vs[0]) && ItemsTyped(vs[1..]));
  }

  // The elements of a non-empty list, up to its closing bracket.
  lemma ListBodyRun(c: Config, d: nat, vs: seq<Item>, comma: bool, rest: seq<Token>) returns (r: Config)
    requires Live(c) && Top(c.st) == 26 && Within(c.ctx, InList) && |c.st| < d
    requires vs != [] && StartsWith(rest, TListEnd)
    requires c.input == ItemToks(vs[0]) + (MoreItemToks(vs[1..]) + (CommaToks(comma) + rest))
    ensures var ok := ListBodyOk(vs, |c.st|, d);
      && Continues(c, r, d, ok)
      && (ok ==> r.st == c.st + [39] && r.input == rest && r.ctx == AddKids(c.ctx, ItemKids(vs)))
    decreases vs, 1
  {
    var tail := CommaToks(comma) + rest;
    var ok := ItemsTyped(vs) && Fits(vs[0], |c.st|, d) && ItemsFit(vs[1..], |c.st| + 2, d);
    r := ItemsOfRun(c, d, vs, tail);
    if ok {
      var m := r;
      r := TailRun(m, d, c.st, InList, comma, rest);
      AddNoKids(m.ctx);
      AddsThen(c, m, r, d, tail, ItemKids(vs), ok, c.st + [39], rest, [], |c.st| + 2 < d);
      assert ItemKids(vs) + [] == ItemKids(vs);
    }
  }

  // The elements of a non-empty list.
  lemma ItemsOfRun(c: Config, d: nat, vs: seq<Item>, rest: seq<Token>) returns (r: Config)
    requires Live(c) && Top(c.st) == 26 && Within(c.ctx, InList) && |c.st| < d
    requires vs != [] && NotString(rest) && c.input == ItemToks(vs[0]) + (MoreItemToks(vs[1..]) + rest)
    ensures var ok := ItemsTyped(vs) && Fits(vs[0], |c.st|, d) && ItemsFit(vs[1..], |c.st| + 2, d);
      Adds(c, r, d, c.st + [37], rest, ItemKids(vs), ok)
    decreases vs, 0
  {
    var more := MoreItemToks(vs[1..]) + rest;
    var first := Typed(vs[0]) && Fits(vs[0], |c.st|, d);
    MoreItemsNotString(vs[1..], rest);
    r := FirstItemRun(c, d, vs[0], more);
    if first {
      var m := r;
      r := ItemsRun(m, d, c.st, vs[1..], rest);
      AddsThen(c, m, r, d, more, [Setting(None, ItemValue(vs[0]))], first, c.st + [37], rest, ItemKids(vs[1..]),
               ItemsTyped(vs[1..]) && ItemsFit(vs[1..], |c.st| + 2, d));
    }
  }

  // The first element.
  lemma FirstItemRun(c: Config, d: nat, v: Item, rest: seq<Token>) returns (r: Config)
    requires Live(c) && Top(c.st) == 26 && Within(c.ctx, InList) && |c.st| < d
    requires NotString(rest) && c.input == ItemToks(v) + rest
    ensures var ok := Typed(v) && Fits(v, |c.st|, d);
      Adds(c, r, d, c.st + [37], rest, [Setting(None, ItemValue(v))], ok) && (ok ==> Within(r.ctx, InList))
    decreases v, 3
  {
    DeliverElement(c.ctx, ItemValue(v));
    FitsNeeds(v, |c.st|, d);
    r := ItemRun(c, d, v, rest);
    if Typed(v) && Fits(v, |c.st|, d) {
      var m := r;
      r := FirstRun(m, d, c.st, InList);
      Chain(c, m, r, d);
    }
  }

  // The elements after the first.
  lemma ItemsRun(c: Config, d: nat, inside: seq<int>, vs: seq<Item>, rest: seq<Token>) returns (r: Config)
    requires Live(c) && inside != [] && Top(inside) == 26 && c.st == inside + [37]
    requires c.input == MoreItemToks(vs) + rest && NotString(rest) && Within(c.ctx, InList)
    ensures var ok := ItemsTyped(vs) && ItemsFit(vs, |inside| + 2, d);
      Adds(c, r, d, c.st, rest, ItemKids(vs), ok)
    decreases vs, 0
  {
    r := c;
    if vs == [] {
      Stay(c, d);
      AddNoKids(c.ctx);
    } else {
      var more := MoreItemToks(vs[1..]) + rest;
      var next := Typed(vs[0]) && Fits(vs[0], |inside| + 2, d);
      MoreItemTok(vs, rest);
      MoreItemsNotString(vs[1..], rest);
      r := NextItemRun(c, d, inside, vs[0], more);
      if next {
        var m := r;
        r := ItemsRun(m, d, inside, vs[1..], rest);
        AddsThen(c, m, r, d, more, [Setting(None, ItemValue(vs[0]))], next, c.st, rest, ItemKids(vs[1..]),
                 ItemsTyped(vs[1..]) && ItemsFit(vs[1..], |inside| + 2, d));
      }
    }
  }

  // A comma and another element.
  lemma NextItemRun(c: Config, d: nat, inside: seq<int>, v: Item, rest: seq<Token>) returns (r: Config)
    requires Live(c) && inside != [] && Top(inside) == 26 && c.st == inside + [37] && Within(c.ctx, InList)
    requires StartsWith(c.input, TComma) && c.input[1..] == ItemToks(v) + rest && NotString(rest)
    ensures var ok := Typed(v) && Fits(v, |inside| + 2, d);
      Adds(c, r, d, c.st, rest, [Setting(None, ItemValue(v))], ok) && (ok ==> Within(r.ctx, InList))
    decreases v, 3
  {
    hide Sound, Leads, Fails, Typed, Fits, ItemToks, AddKids, Deliver;
    DeliverElement(c.ctx, ItemValue(v));
    FitsNeeds(v, |inside| + 2, d);
    r := CommaRun(c, d, inside, InList);
    if |inside| + 2 < d {
      var m := r;
      r := ItemRun(m, d, v, rest);
      Chain(c, m, r, d);
      if Typed(v) && Fits(v, |inside| + 2, d) {
        var n := r;
        r := NextRun(n, d, inside, InList);
        Chain(c, n, r, d);
      }
    }
  }

  // Whatever is read needs at least one more place on the stack.
  lemma FitsNeeds(v: Item, h: nat, d: nat)
    ensures Fits(v, h, d) ==> h + 1 < d
  {
  }

  lemma GroupRun(c: Config, d: nat, ms: seq<Member>, rest: seq<Token>) returns (r: Config)
    requires Live(c) && ValueState(Top(c.st)) && Ready(c.ctx, Top(c.st))
    requires c.input == ItemToks(GroupItem(ms)) + rest
    ensures Reads(c, r, d, GroupItem(ms), rest)
    decreases ms, 3
  {
    var close := [TGroupEnd] + rest;
    GroupToks(ms, rest);
    r := GroupInsideRun(c, d, ms, close);
    r := FinishRun(c, r, d, InGroup, MemberKids(ms), close, GroupBodyOk(ms, |c.st| + 2, d));
    assert close[1..] == rest;
    GroupOk(ms, |c.st|, d);
  }

  // The opening bracket and what follows, up to the closing one.
  lemma GroupInsideRun(c: Config, d: nat, ms: seq<Member>, close: seq<Token>) returns (r: Config)
    requires Live(c) && ValueState(Top(c.st)) && Ready(c.ctx, Top(c.st)) && StartsWith(close, TGroupEnd)
    requires StartsWith(c.input, TGroupStart) && c.input[1..] == MemberToks(ms) + close
    ensures Continues(c, r, d, GroupBodyOk(ms, |c.st| + 2, d))
    ensures GroupBodyOk(ms, |c.st| + 2, d) ==>
      && r.st == c.st + [OpenState(InGroup), InsideState(InGroup)] + [FullState(InGroup)]
      && r.input == close && r.ctx == AddKids(Inside(c.ctx, InGroup), MemberKids(ms))
    decreases ms, 2
  {
    BodyNeeds([], [], ms, |c.st| + 2, d);
    if ms == [] {
      assert MemberToks(ms) + close == close;
      r := NothingInsideRun(c, d, InGroup);
    } else {
      r := OpenRun(c, d, InGroup);
      if |c.st| + 2 < d {
        var m := r;
        r := GroupBodyRun(m, d, ms, close);
        BodyInside(c, m, r, d, InGroup, MemberKids(ms), close, GroupBodyOk(ms, |m.st|, d));
      }
    }
  }

  predicate GroupBodyOk(ms: seq<Member>, h: nat, d: nat)
  {
    if ms == [] then h + 1 < d
    else MembersTyped(ms) && MemberFits(ms[0], h, d) && MembersFit(ms[1..], h + 1, d)
  }

  // Whatever is read inside a bracket needs one more place than the bracket.
  lemma BodyNeeds(es: seq<Scalar>, vs: seq<Item>, ms: seq<Member>, h: nat, d: nat)
    ensures ArrayBodyOk(es, h, d) ==> h + 1 < d
    ensures ListBodyOk(vs, h, d) ==> h + 1 < d
    ensures GroupBodyOk(ms, h, d) ==> h + 1 < d
  {
  }

  lemma GroupOk(ms: seq<Member>, h: nat, d: nat)
    ensures var v := GroupItem(ms); Typed(v) && Fits(v, h, d) <==> GroupBodyOk(ms, h + 2, d) && h + 4 < d
  {
    assert Typed(GroupItem(ms)) == MembersTyped(ms);
  }

  // The members of a non-empty group, up to its closing bracket.
  lemma GroupBodyRun(c: Config, d: nat, ms: seq<Member>, rest: seq<Token>) returns (r: Config)
    requires Live(c) && Top(c.st) == 27 && Within(c.ctx, InGroup) && |c.st| < d
    requires ms != [] && StartsWith(rest, TGroupEnd) && c.input == MemberToks(ms) + rest
    ensures var ok := GroupBodyOk(ms, |c.st|, d);
      && Continues(c, r, d, ok)
      && (ok ==> r.st == c.st + [41] && r.input == rest && r.ctx == AddKids(c.ctx, MemberKids(ms)))
    decreases ms, 1
  {
    r := MembersRun(c, d, ms, rest);
    if MembersTyped(ms) && MemberFits(ms[0], |c.st|, d) && MembersFit(ms[1..], |c.st| + 1, d) {
      var m := r;
      GroupFullMoves(rest, m.vs[|m.vs| - 1], m.ctx);
      r := DoReduce(m, d, c.st, 41, Proceed(m.ctx));
      Chain(c, m, r, d);
    }
  }

  // All members from the first, in the document (base state 0) or in a group (27).
  lemma MembersRun(c: Config, d: nat, ms: seq<Member>, rest: seq<Token>) returns (r: Config)
    requires Live(c) && (Top(c.st) == 0 || Top(c.st) == 27) && Within(c.ctx, InGroup) && |c.st| < d
    requires ms != [] && EndsMember(rest) && c.input == MemberToks(ms) + rest
    ensures var ok := MembersTyped(ms) && MemberFits(ms[0], |c.st|, d) && MembersFit(ms[1..], |c.st| + 1, d);
      && Continues(c, r, d, ok)
      && (ok ==> r.st == c.st + [MembersState(Top(c.st))] && r.input == rest
                 && r.ctx == AddKids(c.ctx, MemberKids(ms)))
    decreases ms, 0
  {
    assert [ms[0]] + ms[1..] == ms;
    r := FirstMemberRun(c, d, ms[0], ms[1..], rest);
    if ValidName(ms[0].name) && Typed(ms[0].item) && MemberFits(ms[0], |c.st|, d) {
      var n := r;
      r := MoreMembersRun(n, d, c.st, ms[1..], rest);
      Chain(c, n, r, d);
      AddKidsTwice(c.ctx, [Setting(Some(ms[0].name), ItemValue(ms[0].item))], MemberKids(ms[1..]));
    }
  }

  lemma FirstMemberRun(c: Config, d: nat, m: Member, ms: seq<Member>, rest: seq<Token>) returns (r: Config)
    requires Live(c) && (Top(c.st) == 0 || Top(c.st) == 27) && Within(c.ctx, InGroup) && |c.st| < d
    requires EndsMember(rest) && c.input == MemberToks([m] + ms) + rest
    ensures var ok := ValidName(m.name) && Typed(m.item) && MemberFits(m, |c.st|, d);
      && Continues(c, r, d, ok)
      && (ok ==> r.st == c.st + [MembersState(Top(c.st))] && r.input == MemberToks(ms) + rest && Within(r.ctx, InGroup)
                 && r.ctx == AddKids(c.ctx, [Setting(Some(m.name), ItemValue(m.item))]))
    decreases m, 4
  {
    r := MemberRun(c, d, m, ms, rest);
    if ValidName(m.name) && Typed(m.item) && MemberFits(m, |c.st|, d) {
      var n := r;
      FirstMemberMoves(Top(c.st), n.input, n.vs[|n.vs| - 1], n.ctx);
      r := DoReduce(n, d, c.st, MembersState(Top(c.st)), Proceed(n.ctx));
      Chain(c, n, r, d);
    }
  }

  lemma MoreMembersRun(c: Config, d: nat, base: seq<int>, ms: seq<Member>, rest: seq<Token>) returns (r: Config)
    requires Live(c) && base != [] && (Top(base) == 0 || Top(base) == 27)
    requires c.st == base + [MembersState(Top(base))] && |c.st| < d
    requires EndsMember(rest) && c.input == MemberToks(ms) + rest && Within(c.ctx, InGroup)
    ensures var ok := MembersTyped(ms) && MembersFit(ms, |c.st|, d);
      && Continues(c, r, d, ok)
      && (ok ==> r.st == c.st && r.input == rest && r.ctx == AddKids(c.ctx, MemberKids(ms)))
    decreases ms, 0
  {
    r := c;
    if ms == [] {
      Stay(c, d);
      AddNoKids(c.ctx);
      assert MemberToks(ms) + rest == rest;
    } else {
      assert [ms[0]] + ms[1..] == ms;
      r := MemberRun(c, d, ms[0], ms[1..], rest);
      if ValidName(ms[0].name) && Typed(ms[0].item) && MemberFits(ms[0], |c.st|, d) {
        var m := r;
        NextMemberMoves(Top(base), m.input, m.vs[|m.vs| - 1], m.ctx);
        r := DoReduce(m, d, base, MembersState(Top(base)), Proceed(m.ctx));
        Chain(c, m, r, d);
        var n := r;
        r := MoreMembersRun(n, d, base, ms[1..], rest);
        Chain(c, n, r, d);
        AddKidsTwice(c.ctx, [Setting(Some(ms[0].name), ItemValue(ms[0].item))], MemberKids(ms[1..]));
      }
    }
  }

  // One member: its name, the equals sign, its value, and its separator.
  lemma MemberRun(c: Config, d: nat, m: Member, ms: seq<Member>, rest: seq<Token>) returns (r: Config)
    requires Live(c) && MemberState(Top(c.st)) && Within(c.ctx, InGroup) && EndsMember(rest)
    requires c.input == MemberToks([m] + ms) + rest
    ensures var ok := ValidName(m.name) && Typed(m.item) && MemberFits(m, |c.st|, d);
      && Continues(c, r, d, ok)
      && (ok ==> r.st == c.st + [MemberGoto(Top(c.st))] && r.input == MemberToks(ms) + rest
                 && r.ctx == AddKids(c.ctx, [Setting(Some(m.name), ItemValue(m.item))]) && Within(r.ctx, InGroup))
    decreases m, 3
  {
    var after := MemberToks(ms) + rest;
    MemberTok(m, ms, rest);
    r := NamedRun(c, d, m.name, m.item, SepToks(m.sep) + after);
    if ValidName(m.name) && Typed(m.item) && Fits(m.item, |c.st| + 3, d) {
      var o := r;
      r := SeparatorRun(o, d, c.st, m.sep, after);
      Chain(c, o, r, d);
    }
  }

  lemma DeliverMember(ctx: Ctx, name: string, v: Value)
    requires Within(ctx, InGroup)
    ensures var named := ctx.(pending := Some(Some(name)));
      Ready(named, 8) && Deliver(named, v) == AddKids(ctx, [Setting(Some(name), v)])
  {
  }

  // The name, the equals sign and the value.
  lemma NamedRun(c: Config, d: nat, name: string, v: Item, rest: seq<Token>) returns (r: Config)
    requires Live(c) && MemberState(Top(c.st)) && Within(c.ctx, InGroup) && NotString(rest)
    requires |c.input| >= 2 && c.input[0] == TName(name) && c.input[1] == TEquals
    requires c.input[2..] == ItemToks(v) + rest
    ensures var ok := ValidName(name) && Typed(v) && Fits(v, |c.st| + 3, d);
      && Continues(c, r, d, ok)
      && (ok ==> r.st == c.st + [1, 5, 8, 21] && r.input == rest
                 && r.ctx == AddKids(c.ctx, [Setting(Some(name), ItemValue(v))]))
    decreases v, 3
  {
    hide Sound, Leads, Fails, Typed, Fits, ValidName, ItemToks, AddKids, Deliver;
    FitsNeeds(v, |c.st| + 3, d);
    DeliverMember(c.ctx, name, ItemValue(v));
    r := NameRun(c, d, name);
    if ValidName(name) && |c.st| + 3 < d {
      var n := r;
      assert Top(n.st) == 8;
      r := ItemRun(n, d, v, rest);
      Chain(c, n, r, d);
      assert c.st + [1, 5, 8] + [21] == c.st + [1, 5, 8, 21];
    }
  }

  lemma MemberTok(m: Member, ms: seq<Member>, rest: seq<Token>)
    requires EndsMember(rest)
    ensures var ts := MemberToks([m] + ms) + rest; var after := MemberToks(ms) + rest;
      && |ts| >= 2 && ts[0] == TName(m.name) && ts[1] == TEquals
      && ts[2..] == ItemToks(m.item) + (SepToks(m.sep) + after)
      && EndsMember(after) && NotString(SepToks(m.sep) + after)
  {
    assert ([m] + ms)[1..] == ms;
    RegroupMember(m.name, ItemToks(m.item), SepToks(m.sep), MemberToks(ms), rest);
    assert ms != [] ==> (MemberToks(ms) + rest)[0] == TName(ms[0].name);
  }

  lemma RegroupMember(name: string, a: seq<Token>, b: seq<Token>, c: seq<Token>, rest: seq<Token>)
    ensures var ts := ([TName(name), TEquals] + a + b + c) + rest;
      |ts| >= 2 && ts[0] == TName(name) && ts[1] == TEquals && ts[2..] == a + (b + (c + rest))
  {
  }

  // The name and the equals sign.
  lemma NameRun(c: Config, d: nat, name: string) returns (r: Config)
    requires Live(c) && MemberState(Top(c.st)) && Within(c.ctx, InGroup)
    requires |c.input| >= 2 && c.input[0] == TName(name) && c.input[1] == TEquals
    ensures Continues(c, r, d, ValidName(name) && |c.st| + 3 < d)
    ensures ValidName(name) && |c.st| + 3 < d ==>
      r.st == c.st + [1, 5, 8] && r.input == c.input[2..] && r.ctx == c.ctx.(pending := Some(Some(name)))
  {
    hide Sound, Leads, Fails, Shifts, Reduces, Acts, ValidName;
    NameMoves(Top(c.st), name, c.input[1..], c.ctx);
    r := DoShift(c, d, 1);
    if |r.st| < d {
      var m := r;
      r := DoReduce(m, d, m.st, 5, AddNamed(c.ctx, name));
      Chain(c, m, r, d);
      if ValidName(name) && |c.st| + 2 < d {
        var n := r;
        assert n.st == c.st + [1, 5] && n.input[0] == TEquals && n.input[1..] == c.input[2..];
        r := DoShift(n, d, 8);
        Chain(c, n, r, d);
        assert c.st + [1, 5] + [8] == c.st + [1, 5, 8];
      }
    }
  }

  // The separator, and the reduction of the whole member.
  lemma SeparatorRun(c: Config, d: nat, base: seq<int>, sep: Separator, rest: seq<Token>) returns (r: Config)
    requires Live(c) && base != [] && MemberState(Top(base)) && c.st == base + [1, 5, 8, 21]
    requires c.input == SepToks(sep) + rest && EndsMember(rest)
    ensures Continues(c, r, d, |base| + 5 < d)
    ensures |base| + 5 < d ==> r.st == base + [MemberGoto(Top(base))] && r.input == rest && r.ctx == c.ctx
  {
    r := OptSeparatorRun(c, d, sep, rest);
    if |c.st| + 1 < d {
      var m := r;
      MemberMoves(Top(base), rest, m.vs[|m.vs| - 1], c.ctx);
      r := DoReduce(m, d, base, MemberGoto(Top(base)), Proceed(c.ctx));
      Chain(c, m, r, d);
    }
  }

  lemma OptSeparatorRun(c: Config, d: nat, sep: Separator, rest: seq<Token>) returns (r: Config)
    requires Live(c) && Top(c.st) == 21 && c.input == SepToks(sep) + rest && EndsMember(rest)
    ensures Continues(c, r, d, |c.st| + 1 < d)
    ensures |c.st| + 1 < d ==> r.st == c.st + [30] && r.input == rest && r.ctx == c.ctx
  {
    if sep == Nothing {
      assert c.input == rest;
      SeparatorMoves(21, rest, c.vs[|c.vs| - 1], c.ctx);
      r := DoReduce(c, d, c.st, 30, Proceed(c.ctx));
    } else {
      var q := if sep == Comma then 28 else 29;
      assert c.input[1..] == rest;
      SeparatorShifts();
      r := DoShift(c, d, q);
      if |r.st| < d {
        var m := r;
        SeparatorMoves(q, rest, m.vs[|m.vs| - 1], c.ctx);
        r := DoReduce(m, d, c.st, 30, Proceed(c.ctx));
        Chain(c, m, r, d);
      }
    }
  }

  // ---------- Whole documents ----------

  // Parsing the tokens of a document succeeds exactly when the document is well typed and
  // shallow enough for the parser's stack, and then builds the settings it denotes.
  lemma ParseDocument(ms: seq<Member>)
    ensures Parse(MemberToks(ms)).Accepted? <==> MembersTyped(ms) && DocumentFits(ms, Grammar.YYMAXDEPTH)
    ensures Parse(MemberToks(ms)).Accepted? ==> Parse(MemberToks(ms)) == Accepted(Whole(ms))
  {
    DocumentRun(ms);
    ParseEnds(MemberToks(ms));
  }

  // The context after a whole document.
  function Whole(ms: seq<Member>): Ctx
  {
    Ctx([Frame(None, InGroup, MemberKids(ms))], None, None)
  }

  lemma DocumentRun(ms: seq<Member>)
    ensures var c := Initial(MemberToks(ms));
      if MembersTyped(ms) && DocumentFits(ms, Grammar.YYMAXDEPTH) then Ends(c, Grammar.YYMAXDEPTH, Accepted(Whole(ms)))
      else Fails(c, Grammar.YYMAXDEPTH)
  {
    var c := Initial(MemberToks(ms));
    Initially(MemberToks(ms));
    var r := BodyRun(c, ms);
    if MembersTyped(ms) && DocumentFits(ms, Grammar.YYMAXDEPTH) {
      DocumentMoves(Top(r.st), r.vs[|r.vs| - 1], r.ctx);
      var e := DoReduce(r, Grammar.YYMAXDEPTH, [0], 2, Proceed(r.ctx));
      Chain(c, r, e, Grammar.YYMAXDEPTH);
      EndRun(e, Grammar.YYMAXDEPTH);
      assert e.ctx.frames == [Frame(None, InGroup, [] + MemberKids(ms))];
      assert [] + MemberKids(ms) == MemberKids(ms);
      Conclude(c, e, Grammar.YYMAXDEPTH, Accepted(e.ctx));
    }
  }

  lemma BodyRun(c: Config, ms: seq<Member>) returns (r: Config)
    requires c == Initial(MemberToks(ms)) && Live(c)
    ensures var ok := MembersTyped(ms) && DocumentFits(ms, Grammar.YYMAXDEPTH);
      && Continues(c, r, Grammar.YYMAXDEPTH, ok)
      && (ok ==> r.st == (if ms == [] then [0] else [0, 3]) && r.input == [] && r.ctx == AddKids(Start, MemberKids(ms)))
  {
    r := c;
    if ms == [] {
      Stay(c, Grammar.YYMAXDEPTH);
      AddNoKids(Start);
    } else {
      assert MemberToks(ms) + [] == MemberToks(ms);
      r := MembersRun(c, Grammar.YYMAXDEPTH, ms, []);
    }
  }
}
