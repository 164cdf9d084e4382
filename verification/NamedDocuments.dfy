// Documents as they come from the scanner: no name in them is refused.
module NamedDocuments {
  import Grammar
  import opened Settings
  import opened Parser
  import opened Documents
  import opened Names
  import Completeness

  // Every name is one that the scanner produces.
  predicate Spelled(v: Item)
  {
    match v
    case ListItem(vs, _) => ItemsSpelled(vs)
    case GroupItem(ms) => MembersSpelled(ms)
    case _ => true
  }

  predicate ItemsSpelled(vs: seq<Item>)
  {
    vs == [] || (Spelled(vs[0]) && ItemsSpelled(vs[1..]))
  }

  predicate MembersSpelled(ms: seq<Member>)
  {
    ms == [] || (IsLexeme(ms[0].name) && Spelled(ms[0].item) && MembersSpelled(ms[1..]))
  }

  // The elements of every array have one type.
  predicate Alike(v: Item)
  {
    match v
    case Plain(_) => true
    case ArrayItem(es, _) =>
      forall i {:trigger es[i]} :: 0 < i < |es| ==> KindOf(ScalarValue(es[i])) == KindOf(ScalarValue(es[0]))
    case ListItem(vs, _) => ItemsAlike(vs)
    case GroupItem(ms) => MembersAlike(ms)
  }

  predicate ItemsAlike(vs: seq<Item>)
  {
    vs == [] || (Alike(vs[0]) && ItemsAlike(vs[1..]))
  }

  predicate MembersAlike(ms: seq<Member>)
  {
    ms == [] || (Alike(ms[0].item) && MembersAlike(ms[1..]))
  }

  lemma {:induction false} SameKindIs(es: seq<Scalar>, k: Kind)
    ensures SameKind(es, k) <==> forall i {:trigger es[i]} :: 0 <= i < |es| ==> KindOf(ScalarValue(es[i])) == k
  {
    if es != [] {
      SameKindIs(es[1..], k);
      assert forall i {:trigger es[i]} :: 0 < i < |es| ==> es[i] == es[1..][i - 1];
      assert forall i {:trigger es[1..][i]} :: 0 <= i < |es| - 1 ==> es[1..][i] == es[i + 1];
    }
  }

  lemma {:induction false} TypedIsAlike(v: Item)
    requires Spelled(v)
    ensures Typed(v) <==> Alike(v)
    decreases v, 1
  {
    match v
    case Plain(_) =>
    case ArrayItem(es, _) =>
      if es != [] {
        SameKindIs(es[1..], KindOf(ScalarValue(es[0])));
        assert forall i {:trigger es[i]} :: 0 < i < |es| ==> es[i] == es[1..][i - 1];
        assert forall i {:trigger es[1..][i]} :: 0 <= i < |es| - 1 ==> es[1..][i] == es[i + 1];
      }
    case ListItem(vs, _) => ItemsTypedAlike(vs);
    case GroupItem(ms) => MembersTypedAlike(ms);
  }

  lemma {:induction false} ItemsTypedAlike(vs: seq<Item>)
    requires ItemsSpelled(vs)
    ensures ItemsTyped(vs) <==> ItemsAlike(vs)
    decreases vs, 0
  {
    if vs != [] {
      TypedIsAlike(vs[0]);
      ItemsTypedAlike(vs[1..]);
    }
  }

  lemma {:induction false} MembersTypedAlike(ms: seq<Member>)
    requires MembersSpelled(ms)
    ensures MembersTyped(ms) <==> MembersAlike(ms)
    decreases ms, 0
  {
    if ms != [] {
      LexemesAreValid(ms[0].name);
      TypedIsAlike(ms[0].item);
      MembersTypedAlike(ms[1..]);
    }
  }

  // A document with names from the scanner is accepted if and only if its arrays are alike and
  // the stack of 10000 entries has room; what is built is what it denotes.
  lemma SpelledDocument(ms: seq<Member>)
    requires MembersSpelled(ms)
    ensures var result := Parse(MemberToks(ms));
      && (result.Accepted? <==> MembersAlike(ms) && DocumentFits(ms, 10000))
      && (result.Accepted? ==> result.ctx == Ctx([Frame(None, InGroup, MemberKids(ms))], None, None))
  {
    MembersTypedAlike(ms);
    Completeness.ParseDocument(ms);
  }

  // ip_rules: {};
  lemma RulesExample()
    ensures Parse([TName("ip_rules"), TEquals, TGroupStart, TGroupEnd, TSemicolon])
         == Accepted(Ctx([Frame(None, InGroup, [Setting(Some("ip_rules"), Group([]))])], None, None))
  {
    hide Parse;
    var m := Member("ip_rules", GroupItem([]), Semicolon);
    assert IsLexeme("ip_rules");
    assert [m][1..] == [] && MembersSpelled([]) && MembersAlike([]) && MemberToks([]) == [] && MemberKids([]) == [];
    assert Spelled(m.item) && Alike(m.item) && MembersSpelled([m]) && MembersAlike([m]);
    assert ItemToks(m.item) == [TGroupStart] + [] + [TGroupEnd];
    assert MemberToks([m]) == [TName("ip_rules"), TEquals, TGroupStart, TGroupEnd, TSemicolon];
    assert MemberKids([m]) == [Setting(Some("ip_rules"), Group([]))];
    assert MemberFits(m, 1, 10000) && DocumentFits([m], 10000);
    SpelledDocument([m]);
  }
}
