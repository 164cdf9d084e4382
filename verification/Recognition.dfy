// The parser recognizes exactly its grammar: every derivation is the derivation of a
// document, so what it accepts are the well-typed documents its stack has room for.
module Recognition {
  import opened Settings
  import opened Grammar
  import opened Parser
  import opened Derivation
  import opened Documents
  import Completeness

  // ---------- Appending at the end ----------

  lemma {:induction false} MembersSnoc(ms: seq<Member>, m: Member)
    ensures MemberToks(ms + [m]) == MemberToks(ms) + MemberToks([m])
  {
    if ms == [] {
      assert ms + [m] == [m];
    } else {
      MembersSnoc(ms[1..], m);
      assert (ms + [m])[1..] == ms[1..] + [m];
    }
  }

  lemma {:induction false} ScalarsSnoc(es: seq<Scalar>, e: Scalar)
    ensures MoreScalarToks(es + [e]) == MoreScalarToks(es) + ([TComma] + ScalarToks(e))
  {
    if es == [] {
      assert es + [e] == [e] && [e][1..] == [];
    } else {
      ScalarsSnoc(es[1..], e);
      assert (es + [e])[1..] == es[1..] + [e];
      Append([TComma] + ScalarToks(es[0]), MoreScalarToks(es[1..]), [TComma] + ScalarToks(e), []);
    }
  }

  lemma {:induction false} ItemsSnoc(vs: seq<Item>, v: Item)
    ensures MoreItemToks(vs + [v]) == MoreItemToks(vs) + ([TComma] + ItemToks(v))
  {
    if vs == [] {
      assert vs + [v] == [v];
    } else {
      ItemsSnoc(vs[1..], v);
      assert (vs + [v])[1..] == vs[1..] + [v];
    }
  }

  lemma {:induction false} LiteralsSnoc(ps: seq<string>, p: string)
    ensures StringToks(ps + [p]) == StringToks(ps) + [TString(p)]
  {
    if ps == [] {
      assert ps + [p] == [p];
    } else {
      LiteralsSnoc(ps[1..], p);
      assert (ps + [p])[1..] == ps[1..] + [p];
    }
  }

  lemma Append(a: seq<Token>, b: seq<Token>, c: seq<Token>, d: seq<Token>)
    ensures a + b + c + d == a + (b + (c + d))
    ensures (a + b) + c == a + (b + c)
  {
  }

  // ---------- Derivations as instances of rules ----------

  // A derivation from a nonterminal is a node, and its children spell the right-hand side.
  lemma NodeOf(t: Tree)
    requires Derives(t) && Symbol(t) >= YYNTOKENS
    ensures t.Node? && 2 <= t.rule <= YYNRULES && R1(t.rule) == Symbol(t)
    ensures Symbols(t.kids) == Rhs(t.rule) && |t.kids| == |Rhs(t.rule)|
    ensures forall k | k in t.kids :: Derives(k) && k < t
    ensures forall i :: 0 <= i < |t.kids| ==> Symbol(t.kids[i]) == Rhs(t.rule)[i] && t.kids[i] in t.kids
  {
    if t.Node? {
      assert forall i :: 0 <= i < |t.kids| ==> Symbols(t.kids)[i] == Symbol(t.kids[i]);
    }
  }

  // A derivation from a terminal is that token.
  lemma LeafOf(t: Tree)
    requires Derives(t) && Symbol(t) < YYNTOKENS
    ensures t.Leaf? && Num(t.token) == Symbol(t) && Yield(t) == [t.token]
  {
    if t.Node? {
      RulesMatchTables(t.rule);
    }
  }

  lemma YieldNone(t: Tree)
    requires t.Node? && t.kids == []
    ensures Yield(t) == []
  {
  }

  lemma YieldOne(t: Tree)
    requires t.Node? && |t.kids| == 1
    ensures Yield(t) == Yield(t.kids[0])
  {
    YieldsLast(t.kids);
    assert Yields(t.kids[..0]) == [] && [] + Yield(t.kids[0]) == Yield(t.kids[0]);
  }

  lemma YieldsLast(ts: seq<Tree>)
    requires ts != []
    ensures Yields(ts) == Yields(ts[..|ts| - 1]) + Yield(ts[|ts| - 1])
  {
  }

  lemma YieldTwo(t: Tree)
    requires t.Node? && |t.kids| == 2
    ensures Yield(t) == Yield(t.kids[0]) + Yield(t.kids[1])
  {
    YieldOne(Node(0, t.kids[..1]));
    YieldsLast(t.kids);
  }

  lemma YieldThree(t: Tree)
    requires t.Node? && |t.kids| == 3
    ensures Yield(t) == Yield(t.kids[0]) + Yield(t.kids[1]) + Yield(t.kids[2])
  {
    YieldTwo(Node(0, t.kids[..2]));
    YieldsLast(t.kids);
  }

  lemma YieldFour(t: Tree)
    requires t.Node? && |t.kids| == 4
    ensures Yield(t) == Yield(t.kids[0]) + Yield(t.kids[1]) + Yield(t.kids[2]) + Yield(t.kids[3])
  {
    YieldThree(Node(0, t.kids[..3]));
    YieldsLast(t.kids);
  }

  lemma YieldFive(t: Tree)
    requires t.Node? && |t.kids| == 5
    ensures Yield(t) == Yield(t.kids[0]) + Yield(t.kids[1]) + Yield(t.kids[2]) + Yield(t.kids[3]) + Yield(t.kids[4])
  {
    YieldFour(Node(0, t.kids[..4]));
    YieldsLast(t.kids);
  }

  // ---------- Which rules derive a nonterminal ----------

  lemma RulesForMembers(n: int)
    requires 2 <= n <= YYNRULES
    ensures R1(n) == CONFIGURATION ==> n in {2, 3}
    ensures R1(n) == SETTING_LIST ==> n in {4, 5}
    ensures R1(n) == SETTING_LIST_OPT ==> n in {6, 7}
    ensures R1(n) == TERMINATOR ==> n in {8, 9, 10}
    ensures R1(n) == COMMA_OPT ==> n in {11, 12}
    ensures R1(n) == SETTING ==> n == 14
  {
  }

  lemma RulesForBrackets(n: int)
    requires 2 <= n <= YYNRULES
    ensures R1(n) == MID_SETTING ==> n == 13
    ensures R1(n) == MID_ARRAY ==> n == 15
    ensures R1(n) == MID_LIST ==> n == 17
    ensures R1(n) == MID_GROUP ==> n == 42
    ensures R1(n) == ARRAY ==> n == 16
    ensures R1(n) == LIST ==> n == 18
    ensures R1(n) == GROUP ==> n == 43
  {
  }

  lemma RulesForValues(n: int)
    requires 2 <= n <= YYNRULES
    ensures R1(n) == VALUE ==> n in {19, 20, 21, 22}
    ensures R1(n) == STRING_VALUE ==> n in {23, 24}
    ensures R1(n) == SIMPLE ==> 25 <= n <= 31
  {
  }

  lemma RulesForElements(n: int)
    requires 2 <= n <= YYNRULES
    ensures R1(n) == VALUE_SUB ==> n in {32, 33}
    ensures R1(n) == VALUE_LIST ==> n == 34
    ensures R1(n) == VALUE_LIST_OPT ==> n in {35, 36}
    ensures R1(n) == SIMPLE_SUB ==> n in {37, 38}
    ensures R1(n) == SIMPLE_LIST ==> n == 39
    ensures R1(n) == SIMPLE_LIST_OPT ==> n in {40, 41}
  {
  }

  // ---------- The document of a derivation ----------

  lemma EmptyMid(t: Tree)
    requires Derives(t) && Symbol(t) in {MID_SETTING, MID_ARRAY, MID_LIST, MID_GROUP}
    ensures Yield(t) == []
  {
    NodeOf(t);
    RulesForBrackets(t.rule);
    YieldNone(t);
  }

  lemma SeparatorOf(t: Tree) returns (s: Separator)
    requires Derives(t) && Symbol(t) == TERMINATOR
    ensures Yield(t) == SepToks(s)
  {
    NodeOf(t);
    RulesForMembers(t.rule);
    if t.rule == 8 {
      YieldNone(t);
      s := Nothing;
    } else {
      YieldOne(t);
      LeafOf(t.kids[0]);
      s := if t.rule == 9 then Semicolon else Comma;
    }
  }

  lemma OptCommaOf(t: Tree) returns (comma: bool)
    requires Derives(t) && Symbol(t) == COMMA_OPT
    ensures Yield(t) == CommaToks(comma)
  {
    NodeOf(t);
    RulesForMembers(t.rule);
    comma := t.rule == 12;
    if comma {
      YieldOne(t);
      LeafOf(t.kids[0]);
    } else {
      YieldNone(t);
    }
  }

  lemma {:induction false} LiteralsOf(t: Tree) returns (ps: seq<string>)
    requires Derives(t) && Symbol(t) == STRING_VALUE
    ensures ps != [] && Yield(t) == StringToks(ps)
    decreases t
  {
    NodeOf(t);
    RulesForValues(t.rule);
    if t.rule == 23 {
      YieldOne(t);
      ps := [LiteralOf(t.kids[0])];
    } else {
      YieldTwo(t);
      ps := LiteralsOf(t.kids[0]);
      var p := LiteralOf(t.kids[1]);
      LiteralsSnoc(ps, p);
      ps := ps + [p];
    }
  }

  function LiteralOf(t: Tree): (p: string)
    requires Derives(t) && Symbol(t) == STRING
    ensures Yield(t) == [TString(p)] == StringToks([p])
  {
    LeafOf(t);
    t.token.text
  }

  lemma SimpleOf(t: Tree) returns (s: Scalar)
    requires Derives(t) && Symbol(t) == SIMPLE
    ensures Yield(t) == ScalarToks(s)
  {
    NodeOf(t);
    RulesForValues(t.rule);
    YieldOne(t);
    if t.rule == 31 {
      var ps := LiteralsOf(t.kids[0]);
      s := SString(ps[0], ps[1..]);
    } else {
      LeafOf(t.kids[0]);
      s := ScalarOf(t.kids[0].token);
    }
  }

  function ScalarOf(t: Token): (s: Scalar)
    requires 3 <= Num(t) <= 8
    ensures ScalarToks(s) == [t]
  {
    if t.TBool? then SBool(t.flag)
    else if t.TInt? then SInt(t.int32)
    else if t.THex? then SHex(t.int32)
    else if t.TInt64? then SInt64(t.int64)
    else if t.THex64? then SHex64(t.int64)
    else SFloat(t.number)
  }

  lemma {:induction false} ScalarsOf(t: Tree) returns (es: seq<Scalar>)
    requires Derives(t) && Symbol(t) == SIMPLE_SUB
    ensures es != [] && Yield(t) == ScalarToks(es[0]) + MoreScalarToks(es[1..])
    decreases t
  {
    NodeOf(t);
    RulesForElements(t.rule);
    if t.rule == 37 {
      YieldOne(t);
      var e := SimpleOf(t.kids[0]);
      es := [e];
      assert MoreScalarToks(es[1..]) == [];
    } else {
      YieldThree(t);
      var xs := ScalarsOf(t.kids[0]);
      var e := SimpleOf(t.kids[2]);
      CommaLeaf(t.kids[1]);
      ScalarsSnoc(xs[1..], e);
      Append(ScalarToks(xs[0]), MoreScalarToks(xs[1..]), [TComma], ScalarToks(e));
      es := xs + [e];
      assert es[1..] == xs[1..] + [e];
    }
  }

  lemma CommaLeaf(t: Tree)
    requires Derives(t) && Symbol(t) == COMMA
    ensures Yield(t) == [TComma]
  {
    LeafOf(t);
  }

  // The tokens between the brackets of an array.
  function ScalarBody(es: seq<Scalar>, comma: bool): seq<Token>
  {
    if es == [] then [] else ScalarToks(es[0]) + MoreScalarToks(es[1..]) + CommaToks(comma)
  }

  lemma ArrayBodyOf(t: Tree) returns (es: seq<Scalar>, comma: bool)
    requires Derives(t) && Symbol(t) == SIMPLE_LIST_OPT
    ensures Yield(t) == ScalarBody(es, comma)
  {
    NodeOf(t);
    RulesForElements(t.rule);
    if t.rule == 40 {
      YieldNone(t);
      es, comma := [], false;
    } else {
      YieldOne(t);
      var u := t.kids[0];
      NodeOf(u);
      RulesForElements(u.rule);
      YieldTwo(u);
      es := ScalarsOf(u.kids[0]);
      comma := OptCommaOf(u.kids[1]);
    }
  }

  lemma {:induction false} ItemOf(t: Tree) returns (v: Item)
    requires Derives(t) && Symbol(t) == VALUE
    ensures Yield(t) == ItemToks(v)
    decreases t, 0
  {
    NodeOf(t);
    RulesForValues(t.rule);
    YieldOne(t);
    var u := t.kids[0];
    if t.rule == 19 {
      var s := SimpleOf(u);
      v := Plain(s);
    } else {
      var body := BracketBody(u);
      assert body < t;
      if t.rule == 20 {
        var es, comma := ArrayBodyOf(body);
        v := ArrayItem(es, comma);
      } else if t.rule == 21 {
        var vs, comma := ListBodyOf(body);
        v := ListItem(vs, comma);
      } else {
        var ms := GroupBodyOf(body);
        v := GroupItem(ms);
      }
    }
  }

  // What is between the brackets of an array, a list or a group.
  lemma BracketBody(u: Tree) returns (body: Tree)
    requires Derives(u) && Symbol(u) in {ARRAY, LIST, GROUP}
    ensures Derives(body) && body < u
    ensures Symbol(body) ==
      if Symbol(u) == ARRAY then SIMPLE_LIST_OPT else if Symbol(u) == LIST then VALUE_LIST_OPT else SETTING_LIST_OPT
    ensures Yield(u) == [BracketToks(u).0] + Yield(body) + [BracketToks(u).1]
  {
    NodeOf(u);
    RulesForBrackets(u.rule);
    YieldFour(u);
    BracketLeaves(u);
    EmptyMid(u.kids[1]);
    body := u.kids[2];
    assert [BracketToks(u).0] + [] == [BracketToks(u).0];
  }

  function BracketToks(u: Tree): (Token, Token)
  {
    if Symbol(u) == ARRAY then (TArrayStart, TArrayEnd)
    else if Symbol(u) == LIST then (TListStart, TListEnd)
    else (TGroupStart, TGroupEnd)
  }

  lemma BracketLeaves(u: Tree)
    requires Derives(u) && u.Node? && u.rule in {16, 18, 43} && |u.kids| == 4
    ensures Yield(u.kids[0]) == [BracketToks(u).0] && Yield(u.kids[3]) == [BracketToks(u).1]
  {
    NodeOf(u);
    LeafOf(u.kids[0]);
    LeafOf(u.kids[3]);
  }

  function ItemBody(vs: seq<Item>, comma: bool): seq<Token>
  {
    if vs == [] then [] else ItemToks(vs[0]) + MoreItemToks(vs[1..]) + CommaToks(comma)
  }

  lemma {:induction false} ListBodyOf(t: Tree) returns (vs: seq<Item>, comma: bool)
    requires Derives(t) && Symbol(t) == VALUE_LIST_OPT
    ensures Yield(t) == ItemBody(vs, comma)
    decreases t, 0
  {
    NodeOf(t);
    RulesForElements(t.rule);
    if t.rule == 35 {
      YieldNone(t);
      vs, comma := [], false;
    } else {
      YieldOne(t);
      var u := t.kids[0];
      NodeOf(u);
      RulesForElements(u.rule);
      YieldTwo(u);
      assert u.kids[0] < t;
      vs := ItemsOf(u.kids[0]);
      comma := OptCommaOf(u.kids[1]);
    }
  }

  lemma {:induction false} ItemsOf(t: Tree) returns (vs: seq<Item>)
    requires Derives(t) && Symbol(t) == VALUE_SUB
    ensures vs != [] && Yield(t) == ItemToks(vs[0]) + MoreItemToks(vs[1..])
    decreases t, 0
  {
    NodeOf(t);
    RulesForElements(t.rule);
    if t.rule == 32 {
      YieldOne(t);
      var v := ItemOf(t.kids[0]);
      vs := [v];
      assert MoreItemToks(vs[1..]) == [];
    } else {
      YieldThree(t);
      var xs := ItemsOf(t.kids[0]);
      var v := ItemOf(t.kids[2]);
      CommaLeaf(t.kids[1]);
      ItemsSnoc(xs[1..], v);
      Append(ItemToks(xs[0]), MoreItemToks(xs[1..]), [TComma], ItemToks(v));
      vs := xs + [v];
      assert vs[1..] == xs[1..] + [v];
    }
  }

  lemma {:induction false} GroupBodyOf(t: Tree) returns (ms: seq<Member>)
    requires Derives(t) && Symbol(t) == SETTING_LIST_OPT
    ensures Yield(t) == MemberToks(ms)
    decreases t, 0
  {
    NodeOf(t);
    RulesForMembers(t.rule);
    if t.rule == 6 {
      YieldNone(t);
      ms := [];
    } else {
      YieldOne(t);
      ms := MembersOf(t.kids[0]);
    }
  }

  lemma {:induction false} MembersOf(t: Tree) returns (ms: seq<Member>)
    requires Derives(t) && Symbol(t) == SETTING_LIST
    ensures Yield(t) == MemberToks(ms)
    decreases t, 0
  {
    NodeOf(t);
    RulesForMembers(t.rule);
    if t.rule == 4 {
      YieldOne(t);
      var m := MemberOf(t.kids[0]);
      ms := [m];
    } else {
      YieldTwo(t);
      ms := MembersOf(t.kids[0]);
      var m := MemberOf(t.kids[1]);
      MembersSnoc(ms, m);
      ms := ms + [m];
    }
  }

  lemma {:induction false} MemberOf(t: Tree) returns (m: Member)
    requires Derives(t) && Symbol(t) == SETTING
    ensures Yield(t) == MemberToks([m])
    decreases t, 0
  {
    NodeOf(t);
    RulesForMembers(t.rule);
    YieldFive(t);
    var name := NameLeaves(t);
    EmptyMid(t.kids[1]);
    var v := ItemOf(t.kids[3]);
    var s := SeparatorOf(t.kids[4]);
    m := Member(name, v, s);
    OneMember(m);
  }

  lemma NameLeaves(t: Tree) returns (name: string)
    requires Derives(t) && t.Node? && t.rule == 14 && |t.kids| == 5
    ensures Yield(t.kids[0]) == [TName(name)] && Yield(t.kids[2]) == [TEquals]
  {
    NodeOf(t);
    LeafOf(t.kids[0]);
    LeafOf(t.kids[2]);
    name := t.kids[0].token.name;
  }

  lemma OneMember(m: Member)
    ensures MemberToks([m]) == [TName(m.name)] + [] + [TEquals] + ItemToks(m.item) + SepToks(m.sep)
  {
    assert [m][1..] == [] && MemberToks([]) == [];
    assert [TName(m.name)] + [] + [TEquals] == [TName(m.name), TEquals];
  }

  lemma DocumentOf(t: Tree) returns (ms: seq<Member>)
    requires Derives(t) && Symbol(t) == CONFIGURATION
    ensures Yield(t) == MemberToks(ms)
  {
    NodeOf(t);
    RulesForMembers(t.rule);
    if t.rule == 2 {
      YieldNone(t);
      ms := [];
    } else {
      YieldOne(t);
      ms := MembersOf(t.kids[0]);
    }
  }

  // ---------- The language of the parser ----------

  // A token sequence is accepted if and only if it spells a well-typed document that the
  // parser's stack has room for.
  lemma Language(tokens: seq<Token>)
    ensures Parse(tokens).Accepted? <==>
      exists ms :: MemberToks(ms) == tokens && MembersTyped(ms) && DocumentFits(ms, YYMAXDEPTH)
  {
    forall ms | MemberToks(ms) == tokens
      ensures Parse(tokens).Accepted? <==> MembersTyped(ms) && DocumentFits(ms, YYMAXDEPTH)
    {
      Completeness.ParseDocument(ms);
    }
    if Parse(tokens).Accepted? {
      ParseSound(tokens);
      var t :| Derives(t) && Symbol(t) == CONFIGURATION && Yield(t) == tokens;
      var ms := DocumentOf(t);
      assert MemberToks(ms) == tokens;
    }
  }
}
