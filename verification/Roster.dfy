// A party as its member slots, and the figures that follow from them.
module Roster {

  const MAX_PARTY := 12
  const UINT_MAX := 0xFFFF_FFFF
  const LV_MAX := 0xFFFF

  // Levels have 16 bits.
  type Level = lv: nat | lv <= LV_MAX
  const JOB_BABY := 4023
  const JOB_SUPER_BABY := 4045

  // A member slot; an empty one is all zero.
  datatype Member = Member(account: int, id: int, job: int, map_: int, lv: Level, leader: bool, online: bool)

  const Vacant: Member := Member(0, 0, 0, 0, 0, false, false)

  // Slots, the id of the child if the party is a family, the even-share flag, the item flags.
  datatype Party = Party(members: seq<Member>, family: int, even: bool, item: int)

  // Who is whose child, as the character database tells.
  datatype Kinship = Kinship(isChild: (int, int) -> bool, familyOf: (int, int, int) -> int)

  predicate SlotOk(m: Member)
  {
    m == Vacant || (m.account != 0 && m.id != 0 && m.lv != 0)
  }

  // The first members of a list take the slots in order.
  function Seated(rows: seq<Member>): (ms: seq<Member>)
    ensures |ms| == MAX_PARTY
  {
    seq(MAX_PARTY, i requires 0 <= i => if i < |rows| then rows[i] else Vacant)
  }

  // Slots are vacant or filled; one character may fill several.
  ghost predicate Sound(ms: seq<Member>)
  {
    && |ms| == MAX_PARTY
    && (forall i :: 0 <= i < |ms| ==> SlotOk(ms[i]))
  }

  // ---------- The figures ----------

  // As a recount works them out: a slot without a level is passed over.
  predicate Here(m: Member)
  {
    m.online && m.lv != 0
  }

  function Online(ms: seq<Member>): (n: nat)
    ensures n <= |ms|
  {
    if ms == [] then 0 else Online(ms[..|ms| - 1]) + if Here(ms[|ms| - 1]) then 1 else 0
  }

  function Occupied(ms: seq<Member>): (n: nat)
    ensures n <= |ms|
  {
    if ms == [] then 0 else Occupied(ms[..|ms| - 1]) + if ms[|ms| - 1].lv != 0 then 1 else 0
  }

  // Whether the member's level counts: the child of a family does not.
  predicate Counts(m: Member, family: int)
  {
    Here(m) && m.id != family
  }

  function MinLv(ms: seq<Member>, family: int): nat
  {
    if ms == [] then UINT_MAX
    else
      var m, rest := ms[|ms| - 1], MinLv(ms[..|ms| - 1], family);
      if Counts(m, family) && m.lv < rest then m.lv else rest
  }

  function MaxLv(ms: seq<Member>, family: int): nat
  {
    if ms == [] then 0
    else
      var m, rest := ms[|ms| - 1], MaxLv(ms[..|ms| - 1], family);
      if Counts(m, family) && m.lv > rest then m.lv else rest
  }

  // The slots that are online all have a level.
  ghost predicate Whole(ms: seq<Member>)
  {
    forall i :: 0 <= i < |ms| && ms[i].online ==> ms[i].lv != 0
  }

  // A slot that is online without a level, which does count where only the range is worked out.
  predicate HasStray(ms: seq<Member>, family: int)
  {
    ms != [] &&
    var m := ms[|ms| - 1];
    HasStray(ms[..|ms| - 1], family) || (m.online && m.lv == 0 && m.id != family)
  }

  lemma {:induction false} WholeHasNoStray(ms: seq<Member>, family: int)
    requires Whole(ms)
    ensures !HasStray(ms, family)
  {
    if ms != [] {
      WholeHasNoStray(ms[..|ms| - 1], family);
    }
  }

  lemma {:induction false} MinIsPositive(ms: seq<Member>, family: int)
    ensures MinLv(ms, family) > 0
  {
    if ms != [] {
      MinIsPositive(ms[..|ms| - 1], family);
    }
  }

  // An unsigned difference.
  function Range(min: nat, max: nat): nat
  {
    (max - min) % 0x1_0000_0000
  }

  // Experience may be shared evenly: there is nobody to share with, or the levels are close.
  predicate MayShare(count: nat, min: nat, max: nat, limit: nat)
  {
    count < 2 || Range(min, max) <= limit
  }

  predicate Shares(ms: seq<Member>, family: int, limit: nat)
  {
    MayShare(Online(ms), MinLv(ms, family), MaxLv(ms, family), limit)
  }

  // Takes even share away where it is not allowed.
  function Settle(p: Party, limit: nat): Party
  {
    p.(even := p.even && Shares(p.members, p.family, limit))
  }

  // The child of a family of two or three, by the first slots.
  function Family(ms: seq<Member>, kin: Kinship): int
    requires |ms| == MAX_PARTY
  {
    if Occupied(ms) == 2 && (kin.isChild(ms[0].id, ms[1].id) || kin.isChild(ms[1].id, ms[0].id)) then
      if JOB_BABY <= ms[0].job <= JOB_SUPER_BABY then ms[0].id else ms[1].id
    else if Occupied(ms) == 3 then kin.familyOf(ms[0].id, ms[1].id, ms[2].id)
    else 0
  }

  // ---------- What the figures mean ----------

  // v is the least level that counts.
  ghost predicate IsMin(ms: seq<Member>, family: int, v: nat)
  {
    && (forall i :: 0 <= i < |ms| && Counts(ms[i], family) ==> v <= ms[i].lv)
    && (v == UINT_MAX || exists i :: 0 <= i < |ms| && Counts(ms[i], family) && ms[i].lv == v)
    && v <= UINT_MAX
  }

  ghost predicate IsMax(ms: seq<Member>, family: int, v: nat)
  {
    && (forall i :: 0 <= i < |ms| && Counts(ms[i], family) ==> ms[i].lv <= v)
    && (v == 0 || exists i :: 0 <= i < |ms| && Counts(ms[i], family) && ms[i].lv == v)
  }

  lemma {:induction false} MinIsMin(ms: seq<Member>, family: int)
    ensures IsMin(ms, family, MinLv(ms, family))
  {
    if ms != [] {
      var n := |ms| - 1;
      var rest := ms[..n];
      MinIsMin(rest, family);
      if Counts(ms[n], family) && ms[n].lv < MinLv(rest, family) {
      } else if MinLv(rest, family) != UINT_MAX {
        var i :| 0 <= i < n && Counts(rest[i], family) && rest[i].lv == MinLv(rest, family);
        assert ms[i] == rest[i];
      }
      assert forall i :: 0 <= i < n ==> ms[i] == rest[i];
    }
  }

  lemma {:induction false} MaxIsMax(ms: seq<Member>, family: int)
    ensures IsMax(ms, family, MaxLv(ms, family))
  {
    if ms != [] {
      var n := |ms| - 1;
      var rest := ms[..n];
      MaxIsMax(rest, family);
      if Counts(ms[n], family) && ms[n].lv > MaxLv(rest, family) {
      } else if MaxLv(rest, family) != 0 {
        var i :| 0 <= i < n && Counts(rest[i], family) && rest[i].lv == MaxLv(rest, family);
        assert ms[i] == rest[i];
      }
      assert forall i :: 0 <= i < n ==> ms[i] == rest[i];
    }
  }

  // The extremes are what they are said to be, and nothing else is.
  lemma Extremes(ms: seq<Member>, family: int, min: nat, max: nat)
    ensures IsMin(ms, family, min) <==> min == MinLv(ms, family)
    ensures IsMax(ms, family, max) <==> max == MaxLv(ms, family)
  {
    MinIsMin(ms, family);
    MaxIsMax(ms, family);
  }

  lemma LevelBounds(ms: seq<Member>, family: int, i: nat)
    requires i < |ms| && Counts(ms[i], family)
    ensures MinLv(ms, family) <= ms[i].lv <= MaxLv(ms, family)
  {
    MinIsMin(ms, family);
    MaxIsMax(ms, family);
  }

  // ---------- Replacing one slot ----------

  lemma {:induction false} CountsChange(ms: seq<Member>, i: nat, m: Member)
    requires i < |ms|
    ensures Online(ms[i := m]) == Online(ms) - (if Here(ms[i]) then 1 else 0) + (if Here(m) then 1 else 0)
    ensures Occupied(ms[i := m]) == Occupied(ms) - (if ms[i].lv != 0 then 1 else 0) + (if m.lv != 0 then 1 else 0)
    decreases |ms|
  {
    var n := |ms| - 1;
    var ns := ms[i := m];
    if i == n {
      assert ns[..n] == ms[..n];
    } else {
      assert ns[..n] == ms[..n][i := m];
      CountsChange(ms[..n], i, m);
    }
  }

  // The member's level does not reach the extremes.
  predicate Inside(m: Member, family: int, min: nat, max: nat)
  {
    Counts(m, family) ==> min < m.lv < max
  }

  predicate Within(m: Member, family: int, min: nat, max: nat)
  {
    Counts(m, family) ==> min <= m.lv <= max
  }

  lemma KeepsExtremes(ms: seq<Member>, family: int, i: nat, m: Member)
    requires i < |ms|
    requires Inside(ms[i], family, MinLv(ms, family), MaxLv(ms, family))
    ensures MinLv(ms[i := m], family) == MinLv(ms, family) && MaxLv(ms[i := m], family) == MaxLv(ms, family) <==>
      Within(m, family, MinLv(ms, family), MaxLv(ms, family))
  {
    var ns := ms[i := m];
    var min, max := MinLv(ms, family), MaxLv(ms, family);
    Extremes(ms, family, min, max);
    Extremes(ns, family, min, max);
    assert ns[i] == m;
    if Within(m, family, min, max) {
      assert IsMin(ns, family, min) by {
        if min != UINT_MAX {
          var k :| 0 <= k < |ms| && Counts(ms[k], family) && ms[k].lv == min;
          assert ns[k] == ms[k];
        }
      }
      assert IsMax(ns, family, max) by {
        if max != 0 {
          var k :| 0 <= k < |ms| && Counts(ms[k], family) && ms[k].lv == max;
          assert ns[k] == ms[k];
        }
      }
    }
  }

  // ---------- Even share ----------

  lemma {:induction false} OnlineTwo(ms: seq<Member>, i: nat, j: nat)
    requires i < j < |ms| && Here(ms[i]) && Here(ms[j])
    ensures Online(ms) >= 2
  {
    var n := |ms| - 1;
    if j < n {
      OnlineTwo(ms[..n], i, j);
    } else {
      OnlineOne(ms[..n], i);
    }
  }

  lemma {:induction false} OnlineOne(ms: seq<Member>, i: nat)
    requires i < |ms| && Here(ms[i])
    ensures Online(ms) >= 1
  {
    if i < |ms| - 1 {
      OnlineOne(ms[..|ms| - 1], i);
    }
  }

  // With one member online the range is a single level, or empty.
  lemma OneOnline(ms: seq<Member>, family: int)
    requires Online(ms) < 2
    ensures MinLv(ms, family) >= MaxLv(ms, family)
  {
    var min, max := MinLv(ms, family), MaxLv(ms, family);
    Extremes(ms, family, min, max);
    if min < max {
      var i :| 0 <= i < |ms| && Counts(ms[i], family) && ms[i].lv == min;
      var j :| 0 <= j < |ms| && Counts(ms[j], family) && ms[j].lv == max;
      OnlineTwo(ms, if i < j then i else j, if i < j then j else i);
    }
  }

  // A change that leaves the extremes alone, and brings nobody online outside them, leaves
  // even share allowed.
  lemma StillShares(ms: seq<Member>, family: int, i: nat, m: Member, limit: nat)
    requires i < |ms|
    requires MinLv(ms[i := m], family) == MinLv(ms, family) && MaxLv(ms[i := m], family) == MaxLv(ms, family)
    requires Here(m) && !Here(ms[i]) ==> MinLv(ms, family) <= MaxLv(ms, family)
    requires Shares(ms, family, limit)
    ensures Shares(ms[i := m], family, limit)
  {
    CountsChange(ms, i, m);
    if Online(ms) < 2 {
      OneOnline(ms, family);
    }
  }

  // Levels that count neither before nor after as extremes: nothing is to be recomputed.
  lemma NothingToDo(ms: seq<Member>, family: int, i: nat, m: Member, limit: nat)
    requires i < |ms|
    requires Inside(ms[i], family, MinLv(ms, family), MaxLv(ms, family))
    requires Within(m, family, MinLv(ms, family), MaxLv(ms, family))
    requires Here(m) && !Here(ms[i]) ==> MinLv(ms, family) <= MaxLv(ms, family)
    ensures MinLv(ms[i := m], family) == MinLv(ms, family) && MaxLv(ms[i := m], family) == MaxLv(ms, family)
    ensures Shares(ms, family, limit) ==> Shares(ms[i := m], family, limit)
  {
    KeepsExtremes(ms, family, i, m);
    if Shares(ms, family, limit) {
      StillShares(ms, family, i, m, limit);
    }
  }

  // A level that does not lie on the border of the range changes and nothing is recomputed:
  // that is right just if it stays within.
  lemma LevelUnnoticed(ms: seq<Member>, family: int, i: nat, m: Member, limit: nat)
    requires i < |ms| && m.online == ms[i].online && m.id == ms[i].id
    requires ms[i].lv != MinLv(ms, family) && ms[i].lv != MaxLv(ms, family)
    ensures var min, max := MinLv(ms, family), MaxLv(ms, family); var ns := ms[i := m];
      ms[i].lv != 0 && m.lv != 0 ==>
        && (Counts(ms[i], family) ==> min < ms[i].lv < max)
        && (MinLv(ns, family) == min && MaxLv(ns, family) == max <==> Within(m, family, min, max))
        && (Within(m, family, min, max) && Shares(ms, family, limit) ==> Shares(ns, family, limit))
  {
    if ms[i].lv != 0 && m.lv != 0 {
      if Counts(ms[i], family) {
        LevelBounds(ms, family, i);
      }
      KeepsExtremes(ms, family, i, m);
      if Within(m, family, MinLv(ms, family), MaxLv(ms, family)) {
        NothingToDo(ms, family, i, m, limit);
      }
    }
  }

  // The figures do not depend on where a member is.
  lemma {:induction false} MapDoesNotMatter(ms: seq<Member>, family: int, i: nat, map_: int)
    requires i < |ms|
    ensures var ns := ms[i := ms[i].(map_ := map_)];
      && Online(ns) == Online(ms) && Occupied(ns) == Occupied(ms)
      && MinLv(ns, family) == MinLv(ms, family) && MaxLv(ns, family) == MaxLv(ms, family)
    decreases |ms|
  {
    var n := |ms| - 1;
    var ns := ms[i := ms[i].(map_ := map_)];
    if i == n {
      assert ns[..n] == ms[..n];
    } else {
      assert ns[..n] == ms[..n][i := ms[..n][i].(map_ := map_)];
      MapDoesNotMatter(ms[..n], family, i, map_);
    }
  }

  // ---------- What the handlers do ----------

  // What a handler looks for.
  datatype Key = Free | Pair(account: int, id: int) | Char(id: int)

  predicate Matches(m: Member, key: Key)
  {
    match key
    case Free => m.account == 0
    case Pair(account, id) => m.account == account && m.id == id
    case Char(id) => m.id == id
  }

  // The first slot that matches, or the number of slots.
  function First(ms: seq<Member>, key: Key): (i: nat)
    ensures i <= |ms| && (i < |ms| ==> Matches(ms[i], key)) && forall k :: 0 <= k < i ==> !Matches(ms[k], key)
  {
    if ms == [] || Matches(ms[0], key) then 0
    else
      var i := First(ms[1..], key);
      assert forall k :: 0 < k <= i ==> !Matches(ms[k], key) by {
        forall k | 0 < k <= i
          ensures !Matches(ms[k], key)
        {
          assert ms[k] == ms[1..][k - 1];
        }
      }
      i + 1
  }

  function Put(p: Party, i: nat, m: Member, family: int, limit: nat): Party
    requires i < |p.members|
  {
    Settle(p.(members := p.members[i := m], family := family), limit)
  }

  // A member joins in the first free slot; the family is worked out again for a party of
  // two or three, and any other party is none.
  function Join(p: Party, m: Member, kin: Kinship, limit: nat): Party
    requires |p.members| == MAX_PARTY
  {
    var i := First(p.members, Free);
    if i == MAX_PARTY then p
    else
      var m' := m.(leader := false);
      var ms := p.members[i := m'];
      Put(p, i, m', if Occupied(ms) == 2 || Occupied(ms) == 3 then Family(ms, kin) else 0, limit)
  }

  function Leave(p: Party, account: int, id: int, limit: nat): Party
  {
    var i := First(p.members, Pair(account, id));
    if i == |p.members| then p else Put(p, i, Vacant, 0, limit)
  }

  function Move(p: Party, account: int, id: int, map_: int, online: bool, lv: Level, limit: nat): Party
  {
    var i := First(p.members, Pair(account, id));
    if i == |p.members| then p
    else Put(p, i, p.members[i].(map_ := map_, online := online, lv := lv), p.family, limit)
  }

  function SetOnline(p: Party, id: int, online: bool, limit: nat): Party
  {
    var i := First(p.members, Char(id));
    if i == |p.members| then p else Put(p, i, p.members[i].(online := online), p.family, limit)
  }

  function SetOption(p: Party, exp: int, item: int, limit: nat): Party
  {
    Settle(p.(even := exp % 2 != 0, item := item % 4), limit)
  }

  // The level of a member changes from strictly inside the range to outside of it while
  // the member stays online.
  predicate Jumps(p: Party, account: int, id: int, online: bool, lv: Level)
  {
    var i := First(p.members, Pair(account, id));
    i < |p.members| && var m := p.members[i];
      var min, max := MinLv(p.members, p.family), MaxLv(p.members, p.family);
      online && Counts(m, p.family) && min < m.lv < max && !(min <= lv <= max)
  }

  // ---------- What the handlers keep ----------

  lemma {:induction false} AllOccupied(ms: seq<Member>)
    ensures Occupied(ms) == |ms| <==> forall i :: 0 <= i < |ms| ==> ms[i].lv != 0
    decreases |ms|
  {
    if ms != [] {
      var n := |ms| - 1;
      AllOccupied(ms[..n]);
      assert forall i :: 0 <= i < n ==> ms[i] == ms[..n][i];
    }
  }

  lemma FreeSlot(ms: seq<Member>)
    requires Sound(ms)
    ensures First(ms, Free) < MAX_PARTY <==> Occupied(ms) < MAX_PARTY
  {
    AllOccupied(ms);
    var i := First(ms, Free);
    assert forall k :: 0 <= k < |ms| ==> SlotOk(ms[k]);
  }

  lemma PutKeepsSound(ms: seq<Member>, i: nat, m: Member)
    requires Sound(ms) && i < |ms|
    ensures Sound(ms[i := m]) <==> SlotOk(m)
  {
    assert ms[i := m][i] == m;
  }

  // ---------- Whole runs ----------

  datatype Event =
    | AddMember(member: Member)
    | PartyLeave(account: int, id: int)
    | ChangeMap(account: int, id: int, map_: int, online: bool, lv: Level)
    | ChangeOption(exp: int, item: int)
    | CharOnline(id: int)
    | CharOffline(id: int)

  function Handle(p: Party, e: Event, kin: Kinship, limit: nat): Party
    requires |p.members| == MAX_PARTY
  {
    match e
    case AddMember(m) => Join(p, m, kin, limit)
    case PartyLeave(account, id) => Leave(p, account, id, limit)
    case ChangeMap(account, id, map_, online, lv) => Move(p, account, id, map_, online, lv, limit)
    case ChangeOption(exp, item) => SetOption(p, exp, item, limit)
    case CharOnline(id) => SetOnline(p, id, true, limit)
    case CharOffline(id) => SetOnline(p, id, false, limit)
  }

  function HandleAll(p: Party, es: seq<Event>, kin: Kinship, limit: nat): (r: Party)
    requires |p.members| == MAX_PARTY
    ensures |r.members| == MAX_PARTY
    decreases |es|
  {
    if es == [] then p else HandleAll(Handle(p, es[0], kin, limit), es[1..], kin, limit)
  }

  // The key leads to an empty slot.
  predicate HitsVacant(p: Party, key: Key)
  {
    var i := First(p.members, key);
    i < |p.members| && p.members[i] == Vacant
  }

  // The member with this id is not online.
  predicate Absent(p: Party, id: int)
  {
    var i := First(p.members, Char(id));
    i < |p.members| && !p.members[i].online
  }

  // The level of the member found is zero before just if it is zero after, and an empty slot
  // does not come online.
  predicate KeepsLevel(p: Party, account: int, id: int, online: bool, lv: Level)
  {
    var i := First(p.members, Pair(account, id));
    i < |p.members| ==>
      (lv == 0 <==> p.members[i].lv == 0) && (p.members[i] == Vacant ==> !online)
  }

  // The events that leave the cached figures right: whoever joins has a level, or the party
  // is counted anew anyway; nobody leaves from an empty slot or comes online in one; nobody
  // gets or loses a level in place, and no level jumps out of the range; and only members
  // that are online go offline.
  predicate KeepsFigures(p: Party, e: Event)
  {
    match e
    case AddMember(m) =>
      First(p.members, Free) < |p.members| && m.lv == 0 ==> Occupied(p.members) == 1 || Occupied(p.members) == 2
    case PartyLeave(account, id) => !HitsVacant(p, Pair(account, id))
    case ChangeMap(account, id, map_, online, lv) =>
      KeepsLevel(p, account, id, online, lv) && !Jumps(p, account, id, online, lv)
    case ChangeOption(exp, item) => true
    case CharOnline(id) => !HitsVacant(p, Char(id))
    case CharOffline(id) => !Absent(p, id)
  }

  // The events that leave every slot vacant or filled.
  predicate KeepsSlots(p: Party, e: Event)
  {
    match e
    case AddMember(m) => First(p.members, Free) < |p.members| ==> SlotOk(m.(leader := false))
    case ChangeMap(account, id, map_, online, lv) =>
      var i := First(p.members, Pair(account, id));
      i < |p.members| ==> SlotOk(p.members[i].(map_ := map_, online := online, lv := lv))
    case CharOnline(id) => !HitsVacant(p, Char(id))
    case _ => true
  }

  predicate Proper(p: Party, e: Event)
  {
    KeepsFigures(p, e) && KeepsSlots(p, e)
  }

  // Only requests that name nobody lead to an empty slot, and they do so in every party
  // that is not full.
  lemma VacantHit(p: Party, account: int, id: int)
    requires Sound(p.members)
    ensures HitsVacant(p, Pair(account, id)) <==> account == 0 && id == 0 && Occupied(p.members) < MAX_PARTY
    ensures HitsVacant(p, Char(id)) <==> id == 0 && Occupied(p.members) < MAX_PARTY
  {
    AllOccupied(p.members);
    var i, j := First(p.members, Pair(account, id)), First(p.members, Char(id));
    assert forall k :: 0 <= k < |p.members| ==> SlotOk(p.members[k]);
  }

  ghost predicate AllProper(p: Party, es: seq<Event>, kin: Kinship, limit: nat)
    requires |p.members| == MAX_PARTY
    decreases |es|
  {
    es != [] ==> Proper(p, es[0]) && AllProper(Handle(p, es[0], kin, limit), es[1..], kin, limit)
  }

  // The slots stay in order and even share stays allowed.
  lemma HandleKeeps(p: Party, e: Event, kin: Kinship, limit: nat)
    requires Sound(p.members) && (p.even ==> Shares(p.members, p.family, limit)) && Proper(p, e)
    ensures var q := Handle(p, e, kin, limit);
      Sound(q.members) && (q.even ==> Shares(q.members, q.family, limit))
  {
    match e
    case AddMember(m) =>
      var i := First(p.members, Free);
      if i < MAX_PARTY {
        PutKeepsSound(p.members, i, m.(leader := false));
      }
    case PartyLeave(account, id) =>
      var i := First(p.members, Pair(account, id));
      if i < MAX_PARTY {
        PutKeepsSound(p.members, i, Vacant);
      }
    case ChangeMap(account, id, map_, online, lv) =>
      var i := First(p.members, Pair(account, id));
      if i < MAX_PARTY {
        assert SlotOk(p.members[i]);
        PutKeepsSound(p.members, i, p.members[i].(map_ := map_, online := online, lv := lv));
      }
    case ChangeOption(exp, item) =>
    case CharOnline(id) =>
      var i := First(p.members, Char(id));
      if i < MAX_PARTY {
        assert SlotOk(p.members[i]);
        PutKeepsSound(p.members, i, p.members[i].(online := true));
      }
    case CharOffline(id) =>
      var i := First(p.members, Char(id));
      if i < MAX_PARTY {
        assert SlotOk(p.members[i]);
        PutKeepsSound(p.members, i, p.members[i].(online := false));
      }
  }

  lemma {:induction false} RunKeeps(p: Party, es: seq<Event>, kin: Kinship, limit: nat)
    requires Sound(p.members) && (p.even ==> Shares(p.members, p.family, limit))
    requires AllProper(p, es, kin, limit)
    ensures var q := HandleAll(p, es, kin, limit);
      Sound(q.members) && (q.even ==> Shares(q.members, q.family, limit))
    decreases |es|
  {
    if es != [] {
      HandleKeeps(p, es[0], kin, limit);
      RunKeeps(Handle(p, es[0], kin, limit), es[1..], kin, limit);
    }
  }

  // ---------- Events that are not proper ----------

  // Three members online, of levels 10, b and 30, and nobody else.
  predicate IsTrio(ms: seq<Member>, b: Level)
  {
    && |ms| == MAX_PARTY
    && ms[0] == Member(1, 1, 0, 0, 10, true, true) && ms[1] == Member(2, 2, 0, 0, b, false, true)
    && ms[2] == Member(3, 3, 0, 0, 30, false, true)
    && forall i :: 3 <= i < MAX_PARTY ==> ms[i] == Vacant
  }

  function Trio(b: Level): (ms: seq<Member>)
    ensures IsTrio(ms, b)
  {
    var trio := [Member(1, 1, 0, 0, 10, true, true), Member(2, 2, 0, 0, b, false, true),
                 Member(3, 3, 0, 0, 30, false, true)];
    trio + seq(MAX_PARTY - 3, _ => Vacant)
  }

  lemma TrioRange(ms: seq<Member>, b: Level)
    requires IsTrio(ms, b) && 10 < b < 100
    ensures Sound(ms) && Online(ms) >= 2
    ensures MinLv(ms, 0) == 10 && MaxLv(ms, 0) == if b < 30 then 30 else b
    ensures First(ms, Pair(2, 2)) == 1
  {
    assert Counts(ms[0], 0) && Counts(ms[1], 0) && Counts(ms[2], 0);
    assert IsMin(ms, 0, 10) && IsMax(ms, 0, if b < 30 then 30 else b);
    Extremes(ms, 0, 10, if b < 30 then 30 else b);
    OnlineTwo(ms, 0, 1);
    assert Matches(ms[1], Pair(2, 2));
  }

  lemma TrioOnline(ms: seq<Member>, b: Level)
    requires IsTrio(ms, b) && b > 0
    ensures Online(ms) == 3
  {
    NobodyMore(ms, 3);
    assert ms[..3] == [ms[0], ms[1], ms[2]];
    assert [ms[0], ms[1], ms[2]][..2] == [ms[0], ms[1]] && [ms[0], ms[1]][..1] == [ms[0]];
    assert Online([ms[0]]) == 1;
  }

  lemma TrioOccupied(ms: seq<Member>, b: Level)
    requires IsTrio(ms, b) && b > 0
    ensures Occupied(ms) == 3
  {
    NobodyMore(ms, 3);
    assert ms[..3] == [ms[0], ms[1], ms[2]];
    assert [ms[0], ms[1], ms[2]][..2] == [ms[0], ms[1]] && [ms[0], ms[1]][..1] == [ms[0]];
    assert Occupied([ms[0]]) == 1;
  }

  lemma {:induction false} NobodyMore(ms: seq<Member>, n: nat)
    requires n <= |ms| && forall i :: n <= i < |ms| ==> ms[i] == Vacant
    ensures Online(ms) == Online(ms[..n]) && Occupied(ms) == Occupied(ms[..n])
    decreases |ms|
  {
    if n < |ms| {
      NobodyMore(ms[..|ms| - 1], n);
      assert ms[..|ms| - 1][..n] == ms[..n];
    } else {
      assert ms[..n] == ms;
    }
  }

  // Members of levels 10, 20 and 30 share evenly within 25 levels. The second reaches level
  // 40: the range is 30 levels then, but the event is a jump.
  lemma JumpExample() returns (p: Party)
    ensures Sound(p.members) && p.even && Shares(p.members, p.family, 25) && Jumps(p, 2, 2, true, 40)
    ensures !Shares(p.members[1 := p.members[1].(lv := 40)], p.family, 25)
  {
    var ms := Trio(20);
    p := Party(ms, 0, true, 0);
    TrioRange(ms, 20);
    TrioRange(ms[1 := ms[1].(lv := 40)], 40);
  }

  // In a party with room, a request for character 0 leads to an empty slot: no slot is left
  // free by leaving, and coming online or moving there fills a slot with nobody.
  lemma NobodyIsImproper(p: Party, limit: nat)
    requires Sound(p.members) && Occupied(p.members) < MAX_PARTY
    ensures !KeepsFigures(p, PartyLeave(0, 0)) && Leave(p, 0, 0, limit).members == p.members
    ensures !KeepsFigures(p, CharOnline(0)) && !Sound(SetOnline(p, 0, true, limit).members)
    ensures !KeepsFigures(p, ChangeMap(0, 0, 0, true, 1)) && !Sound(Move(p, 0, 0, 0, true, 1, limit).members)
    ensures !KeepsFigures(p, CharOffline(0)) && SetOnline(p, 0, false, limit).members == p.members
  {
    VacantHit(p, 0, 0);
    var i, j := First(p.members, Pair(0, 0)), First(p.members, Char(0));
    assert p.members[i := Vacant] == p.members == p.members[j := Vacant];
    PutKeepsSound(p.members, j, Vacant.(online := true));
    PutKeepsSound(p.members, i, Vacant.(online := true, lv := 1));
  }

  // A party of three has room. There an all-zero member who joins goes wrong as well, and so
  // does a member who loses the level; one who has a level only leaves the figures right.
  lemma NobodyExample() returns (p: Party)
    ensures Sound(p.members) && p.even && Shares(p.members, p.family, 25)
    ensures !KeepsFigures(p, PartyLeave(0, 0)) && !KeepsFigures(p, CharOnline(0))
    ensures !KeepsFigures(p, AddMember(Vacant)) && !KeepsFigures(p, ChangeMap(2, 2, 0, true, 0))
    ensures KeepsFigures(p, AddMember(Vacant.(lv := 20))) && !KeepsSlots(p, AddMember(Vacant.(lv := 20)))
  {
    p := Party(Trio(20), 0, true, 0);
    TrioRange(p.members, 20);
    hide Online, MinLv, MaxLv;
    TrioOccupied(p.members, 20);
    FreeSlot(p.members);
    VacantHit(p, 0, 0);
  }

  // A member who is offline goes offline: nobody stops being online.
  lemma AbsentExample() returns (p: Party)
    ensures Sound(p.members) && p.even && Shares(p.members, p.family, 25)
    ensures !KeepsFigures(p, CharOffline(2)) && SetOnline(p, 2, false, 25) == p && Online(p.members) == 2
  {
    var ms := Trio(20);
    TrioRange(ms, 20);
    var m := ms[1].(online := false);
    NothingToDo(ms, 0, 1, m, 25);
    p := Party(ms[1 := m], 0, true, 0);
    assert Matches(p.members[1], Char(2)) && First(p.members, Char(2)) == 1;
    assert p.members[1 := p.members[1].(online := false)] == p.members;
    TrioOnline(ms, 20);
    CountsChange(ms, 1, m);
  }
}
