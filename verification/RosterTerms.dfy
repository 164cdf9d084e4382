// What the figures of a party and its handlers come to, said in plain terms.
module RosterTerms {
  import opened Roster

  // ---------- How many ----------

  ghost function OccupiedSlots(ms: seq<Member>): set<int>
  {
    set i | 0 <= i < |ms| && ms[i].lv > 0
  }

  ghost function OnlineSlots(ms: seq<Member>): set<int>
  {
    set i | 0 <= i < |ms| && ms[i].lv > 0 && ms[i].online
  }

  lemma OneMoreSlot(ms: seq<Member>, n: nat)
    requires |ms| == n + 1
    ensures |OccupiedSlots(ms)| == |OccupiedSlots(ms[..n])| + if ms[n].lv > 0 then 1 else 0
    ensures |OnlineSlots(ms)| == |OnlineSlots(ms[..n])| + if ms[n].lv > 0 && ms[n].online then 1 else 0
  {
    assert OccupiedSlots(ms) == OccupiedSlots(ms[..n]) + if ms[n].lv > 0 then {n} else {};
    assert OnlineSlots(ms) == OnlineSlots(ms[..n]) + if ms[n].lv > 0 && ms[n].online then {n} else {};
  }

  lemma {:induction false} CountsSlots(ms: seq<Member>)
    ensures Occupied(ms) == |OccupiedSlots(ms)|
    ensures Online(ms) == |OnlineSlots(ms)|
  {
    if ms == [] {
      assert OccupiedSlots(ms) == {} && OnlineSlots(ms) == {};
    } else {
      hide OccupiedSlots, OnlineSlots;
      CountsSlots(ms[..|ms| - 1]);
      OneMoreSlot(ms, |ms| - 1);
    }
  }

  // ---------- Even share ----------

  // The member takes part in the sharing; the child of a family does not.
  predicate TakesPart(m: Member, family: int)
  {
    m.online && m.lv > 0 && m.id != family
  }

  ghost predicate AnyTakesPart(ms: seq<Member>, family: int)
  {
    exists i :: 0 <= i < |ms| && TakesPart(ms[i], family)
  }

  // No two of those who take part are further than this apart in level.
  ghost predicate Close(ms: seq<Member>, family: int, limit: nat)
  {
    forall i, j :: 0 <= i < |ms| && 0 <= j < |ms| && TakesPart(ms[i], family) && TakesPart(ms[j], family) ==>
      ms[i].lv <= ms[j].lv + limit
  }

  lemma TakesPartIs(m: Member, family: int)
    ensures TakesPart(m, family) <==> Counts(m, family)
  {
  }

  // Even share is allowed if and only if fewer than two are online, or the levels are close; if
  // nobody takes part, the empty range counts as one level.
  lemma SharesMeans(ms: seq<Member>, family: int, limit: nat)
    ensures Shares(ms, family, limit) <==>
      || |OnlineSlots(ms)| < 2
      || if AnyTakesPart(ms, family) then Close(ms, family, limit) else limit >= 1
  {
    CountsSlots(ms);
    var min, max := MinLv(ms, family), MaxLv(ms, family);
    Extremes(ms, family, min, max);
    assert forall m :: TakesPart(m, family) <==> Counts(m, family);
    if AnyTakesPart(ms, family) {
      var i :| 0 <= i < |ms| && TakesPart(ms[i], family);
      assert min <= ms[i].lv <= max;
      assert Range(min, max) == max - min;
      var a :| 0 <= a < |ms| && TakesPart(ms[a], family) && ms[a].lv == min;
      var b :| 0 <= b < |ms| && TakesPart(ms[b], family) && ms[b].lv == max;
    } else {
      assert min == 0xFFFF_FFFF && max == 0;
    }
  }

  // ---------- Families ----------

  predicate IsBaby(m: Member)
  {
    4023 <= m.job <= 4045
  }

  // A party of two whose first slots are a child and a parent: the child is whoever has the
  // job of one, in whichever slot.
  lemma FamilyOfTwo(ms: seq<Member>, kin: Kinship, child: nat, parent: nat)
    requires |ms| == MAX_PARTY && |OccupiedSlots(ms)| == 2
    requires kin.isChild(ms[0].id, ms[1].id) || kin.isChild(ms[1].id, ms[0].id)
    requires {child, parent} == {0, 1} && IsBaby(ms[child]) && !IsBaby(ms[parent])
    ensures Family(ms, kin) == ms[child].id
  {
    CountsSlots(ms);
    assert child in {0, 1} && parent in {0, 1};
  }

  // Then the parent's level is the whole range, whatever the child's is.
  lemma ParentIsTheRange(ms: seq<Member>, kin: Kinship, child: nat, parent: nat)
    requires |ms| == MAX_PARTY && OccupiedSlots(ms) == {0, 1}
    requires kin.isChild(ms[0].id, ms[1].id) || kin.isChild(ms[1].id, ms[0].id)
    requires {child, parent} == {0, 1} && IsBaby(ms[child]) && !IsBaby(ms[parent])
    requires ms[child].id != ms[parent].id && ms[parent].online
    ensures MinLv(ms, Family(ms, kin)) == MaxLv(ms, Family(ms, kin)) == ms[parent].lv
    ensures forall limit :: Shares(ms, Family(ms, kin), limit)
  {
    hide Family, MinLv, MaxLv, Online;
    FamilyOfTwo(ms, kin, child, parent);
    var family, lv := ms[child].id, ms[parent].lv;
    assert child in {0, 1} && parent in OccupiedSlots(ms);
    forall i | 0 <= i < |ms| && Counts(ms[i], family)
      ensures i == parent
    {
      assert i in OccupiedSlots(ms);
    }
    assert Counts(ms[parent], family);
    assert IsMin(ms, family, lv) && IsMax(ms, family, lv);
    Extremes(ms, family, lv, lv);
  }

  // A party of three is a family if the database says so; any other party is none.
  lemma OtherFamilies(ms: seq<Member>, kin: Kinship)
    requires |ms| == MAX_PARTY
    ensures |OccupiedSlots(ms)| == 3 ==> Family(ms, kin) == kin.familyOf(ms[0].id, ms[1].id, ms[2].id)
    ensures |OccupiedSlots(ms)| !in {2, 3} ==> Family(ms, kin) == 0
    ensures |OccupiedSlots(ms)| == 2 && !kin.isChild(ms[0].id, ms[1].id) && !kin.isChild(ms[1].id, ms[0].id) ==>
      Family(ms, kin) == 0
  {
    CountsSlots(ms);
  }

  // A parent of level 99 and his child of level 10 share evenly, however small the limit.
  lemma FamilyExample(kin: Kinship) returns (ms: seq<Member>)
    requires kin.isChild(2, 1)
    ensures ms == [Member(1, 1, 7, 0, 99, true, true), Member(1, 2, 4030, 0, 10, false, true)] + seq(10, _ => Vacant)
    ensures Family(ms, kin) == 2 && MinLv(ms, 2) == MaxLv(ms, 2) == 99 && Shares(ms, 2, 0)
  {
    ms := [Member(1, 1, 7, 0, 99, true, true), Member(1, 2, 4030, 0, 10, false, true)] + seq(10, _ => Vacant);
    assert OccupiedSlots(ms) == {0, 1};
    FamilyOfTwo(ms, kin, 1, 0);
    ParentIsTheRange(ms, kin, 1, 0);
  }

  // ---------- Handlers ----------

  // The first slot with this account and character.
  ghost predicate IsAt(ms: seq<Member>, account: int, id: int, i: int)
  {
    && 0 <= i < |ms| && ms[i].account == account && ms[i].id == id
    && forall k :: 0 <= k < i ==> ms[k].account != account || ms[k].id != id
  }

  // The first slot with this character.
  ghost predicate CharIsAt(ms: seq<Member>, id: int, i: int)
  {
    0 <= i < |ms| && ms[i].id == id && forall k :: 0 <= k < i ==> ms[k].id != id
  }

  // Only this slot changes, and nothing else but the family and the even-share flag, which is
  // taken away if the levels do not allow it.
  ghost predicate Changes(p: Party, q: Party, i: int, m: Member, limit: nat)
  {
    && 0 <= i < |p.members| == |q.members| && q.members[i] == m
    && (forall k :: 0 <= k < |p.members| && k != i ==> q.members[k] == p.members[k])
    && q.item == p.item && (q.even <==> p.even && Shares(q.members, q.family, limit))
  }

  lemma PutChanges(p: Party, i: nat, m: Member, family: int, limit: nat)
    requires i < |p.members|
    ensures Changes(p, Put(p, i, m, family, limit), i, m, limit) && Put(p, i, m, family, limit).family == family
  {
  }

  // Whoever joins takes the first slot without an account, is not the leader, and makes the
  // party a family or breaks one up; there is no room in a party without such a slot.
  lemma JoinTerms(p: Party, m: Member, kin: Kinship, limit: nat)
    requires |p.members| == MAX_PARTY
    ensures var q := Handle(p, AddMember(m), kin, limit);
      if exists i :: 0 <= i < MAX_PARTY && p.members[i].account == 0 then
        exists i :: 0 <= i < MAX_PARTY && p.members[i].account == 0
          && (forall k :: 0 <= k < i ==> p.members[k].account != 0)
          && Changes(p, q, i, Member(m.account, m.id, m.job, m.map_, m.lv, false, m.online), limit)
          && q.family == Family(q.members, kin)
      else q == p
  {
    var i := First(p.members, Free);
    if exists k :: 0 <= k < MAX_PARTY && p.members[k].account == 0 {
      var k :| 0 <= k < MAX_PARTY && p.members[k].account == 0;
      assert Matches(p.members[k], Free);
      assert forall j :: 0 <= j < i ==> !Matches(p.members[j], Free);
    }
  }

  lemma PairIsFirst(ms: seq<Member>, account: int, id: int)
    ensures var i := First(ms, Pair(account, id));
      if exists k :: IsAt(ms, account, id, k) then IsAt(ms, account, id, i) else i == |ms|
    ensures forall i :: IsAt(ms, account, id, i) ==> i == First(ms, Pair(account, id))
  {
    var i := First(ms, Pair(account, id));
    assert forall k :: 0 <= k < i ==> !Matches(ms[k], Pair(account, id));
    if i < |ms| {
      assert Matches(ms[i], Pair(account, id));
      assert IsAt(ms, account, id, i);
    }
    forall k | IsAt(ms, account, id, k)
      ensures k == i
    {
      assert Matches(ms[k], Pair(account, id));
    }
  }

  lemma CharIsFirst(ms: seq<Member>, id: int)
    ensures var i := First(ms, Char(id));
      if exists k :: CharIsAt(ms, id, k) then CharIsAt(ms, id, i) else i == |ms|
    ensures forall i :: CharIsAt(ms, id, i) ==> i == First(ms, Char(id))
  {
    var i := First(ms, Char(id));
    assert forall k :: 0 <= k < i ==> !Matches(ms[k], Char(id));
    if i < |ms| {
      assert Matches(ms[i], Char(id));
      assert CharIsAt(ms, id, i);
    }
    forall k | CharIsAt(ms, id, k)
      ensures k == i
    {
      assert Matches(ms[k], Char(id));
    }
  }

  // Leaving empties the member's slot and breaks up the family.
  lemma LeaveTerms(p: Party, account: int, id: int, kin: Kinship, limit: nat)
    requires |p.members| == MAX_PARTY
    ensures var q := Handle(p, PartyLeave(account, id), kin, limit);
      && ((forall i :: !IsAt(p.members, account, id, i)) ==> q == p)
      && forall i :: IsAt(p.members, account, id, i) ==>
           Changes(p, q, i, Member(0, 0, 0, 0, 0, false, false), limit) && q.family == 0
  {
    PairIsFirst(p.members, account, id);
  }

  // A member who moves has the map, the level and the presence that are reported.
  lemma MoveTerms(p: Party, account: int, id: int, map_: int, online: bool, lv: Level, kin: Kinship, limit: nat)
    requires |p.members| == MAX_PARTY
    ensures var q := Handle(p, ChangeMap(account, id, map_, online, lv), kin, limit);
      && ((forall i :: !IsAt(p.members, account, id, i)) ==> q == p)
      && forall i :: IsAt(p.members, account, id, i) ==>
           var m := p.members[i];
           Changes(p, q, i, Member(account, id, m.job, map_, lv, m.leader, online), limit) && q.family == p.family
  {
    PairIsFirst(p.members, account, id);
  }

  // Whoever logs in or out is marked so.
  lemma PresenceTerms(p: Party, id: int, online: bool, kin: Kinship, limit: nat)
    requires |p.members| == MAX_PARTY
    ensures var q := Handle(p, if online then CharOnline(id) else CharOffline(id), kin, limit);
      && ((forall i :: !CharIsAt(p.members, id, i)) ==> q == p)
      && forall i :: CharIsAt(p.members, id, i) ==>
           var m := p.members[i];
           Changes(p, q, i, Member(m.account, id, m.job, m.map_, m.lv, m.leader, online), limit) && q.family == p.family
  {
    CharIsFirst(p.members, id);
  }

  // The flags that come with a request are cut to one bit and to two.
  lemma OptionTerms(p: Party, exp: int, item: int, kin: Kinship, limit: nat)
    requires |p.members| == MAX_PARTY
    ensures var q := Handle(p, ChangeOption(exp, item), kin, limit);
      && q.members == p.members && q.family == p.family
      && (q.even <==> exp % 2 == 1 && Shares(p.members, p.family, limit))
      && 0 <= q.item < 4 && (item - q.item) % 4 == 0
  {
  }

  // A party that is loaded has the first twelve rows.
  lemma SeatedRows(rows: seq<Member>)
    ensures |Seated(rows)| == 12
    ensures forall i :: 0 <= i < 12 ==>
      Seated(rows)[i] == if i < |rows| then rows[i] else Member(0, 0, 0, 0, 0, false, false)
  {
  }
}
