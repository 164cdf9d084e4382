// The party in memory, with its figures cached.
module PartyCache {
  import opened Roster

  class PartyData {
    const member: array<Member>
    const kin: Kinship
    const shareLevel: nat
    var count: nat
    var size: nat
    var minLv: nat
    var maxLv: nat
    var family: int
    var exp: bool
    var item: int

    ghost function View(): Party
      reads this, member
    {
      Party(member[..], family, exp, item)
    }

    // The figures other than the size are those that a recount gives.
    ghost predicate Ranged()
      reads this, member
    {
      && member.Length == MAX_PARTY && count == Online(member[..])
      && minLv == MinLv(member[..], family) && maxLv == MaxLv(member[..], family)
    }

    // ... and even share is on only where it is allowed.
    ghost predicate Settled()
      reads this, member
    {
      Ranged() && (exp ==> Shares(member[..], family, shareLevel))
    }

    // All cached figures are those that a recount gives, whatever the slots hold.
    ghost predicate Figures()
      reads this, member
    {
      Settled() && size == Occupied(member[..])
    }

    // And the slots are in order.
    ghost predicate Valid()
      reads this, member
    {
      Figures() && Sound(member[..])
    }

    // mapif_parse_CreateParty, past the checks of the name: the leader is online and alone.
    constructor Create(leader: Member, item1: bool, item2: bool, kin: Kinship, shareLevel: nat)
      ensures Figures() && this.kin == kin && this.shareLevel == shareLevel && fresh(member) && !exp
      ensures member[..] == [leader.(leader := true, online := true)] + seq(MAX_PARTY - 1, _ => Vacant)
      ensures Valid() <==> leader.account != 0 && leader.id != 0 && leader.lv != 0
      ensures item == (if item1 then 1 else 0) + if item2 then 2 else 0
    {
      this.kin, this.shareLevel := kin, shareLevel;
      member := new Member[MAX_PARTY](i => if i == 0 then leader.(leader := true, online := true) else Vacant);
      count, size, minLv, maxLv, family := 0, 0, 0, 0, 0;
      exp, item := false, (if item1 then 1 else 0) + if item2 then 2 else 0;
      new;
      assert member[..] == [leader.(leader := true, online := true)] + seq(MAX_PARTY - 1, _ => Vacant);
      assert Sound(member[..]) <==> SlotOk(member[..][0]);
      CalcState();
    }

    // inter_party_fromsql: the first members that the database lists.
    constructor Load(rows: seq<Member>, even: bool, flags: int, kin: Kinship, shareLevel: nat)
      ensures Figures() && this.kin == kin && this.shareLevel == shareLevel && fresh(member)
      ensures member[..] == Seated(rows) && item == flags % 4
      ensures Valid() <==> forall i :: 0 <= i < |rows| && i < MAX_PARTY ==> SlotOk(rows[i])
      ensures exp == (even && Shares(member[..], family, shareLevel)) && family == Family(member[..], kin)
    {
      this.kin, this.shareLevel := kin, shareLevel;
      member := new Member[MAX_PARTY](i => if 0 <= i < |rows| then rows[i] else Vacant);
      count, size, minLv, maxLv, family := 0, 0, 0, 0, 0;
      exp, item := even, flags % 4;
      new;
      assert member[..] == Seated(rows);
      assert forall i :: 0 <= i < |rows| && i < MAX_PARTY ==> Seated(rows)[i] == rows[i];
      CalcState();
    }

    method CheckExpShare() returns (ok: bool)
      ensures ok == MayShare(count, minLv, maxLv, shareLevel)
    {
      ok := count < 2 || (maxLv - minLv) % 0x1_0000_0000 <= shareLevel;
    }

    method LevelRange()
      modifies this`minLv, this`maxLv
      ensures minLv == (if HasStray(member[..], family) then 0 else MinLv(member[..], family))
      ensures maxLv == MaxLv(member[..], family)
    {
      minLv, maxLv := UINT_MAX, 0;
      var i := 0;
      while i < member.Length
        invariant i <= member.Length
        invariant minLv == if HasStray(member[..i], family) then 0 else MinLv(member[..i], family)
        invariant maxLv == MaxLv(member[..i], family)
      {
        assert member[..i + 1][..i] == member[..i];
        if member[i].online && member[i].id != family {
          var lv := member[i].lv;
          if lv < minLv {
            minLv := lv;
          }
          if lv > maxLv {
            maxLv := lv;
          }
        }
        i := i + 1;
      }
      assert member[..member.Length] == member[..];
    }

    // inter_party_check_lv
    method CheckLv()
      modifies this`minLv, this`maxLv, this`exp
      ensures minLv == (if HasStray(member[..], family) then 0 else MinLv(member[..], family))
      ensures maxLv == MaxLv(member[..], family)
      ensures Whole(member[..]) ==> minLv == MinLv(member[..], family)
      ensures exp == (old(exp) && MayShare(count, minLv, maxLv, shareLevel))
    {
      LevelRange();
      if Whole(member[..]) {
        WholeHasNoStray(member[..], family);
      }
      if exp {
        var ok := CheckExpShare();
        if !ok {
          exp := false;
        }
      }
    }

    // The first loop of inter_party_calc_state.
    method Census()
      modifies this`count, this`size
      ensures size == Occupied(member[..]) && count == Online(member[..])
    {
      count, size := 0, 0;
      var i := 0;
      while i < member.Length
        invariant i <= member.Length
        invariant size == Occupied(member[..i]) && count == Online(member[..i])
      {
        assert member[..i + 1][..i] == member[..i];
        if member[i].lv != 0 {
          size := size + 1;
          if member[i].online {
            count := count + 1;
          }
        }
        i := i + 1;
      }
      assert member[..member.Length] == member[..];
    }

    // The second one, which passes over slots without a level.
    method Survey()
      modifies this`minLv, this`maxLv
      ensures minLv == MinLv(member[..], family) && maxLv == MaxLv(member[..], family)
    {
      minLv, maxLv := UINT_MAX, 0;
      var i := 0;
      while i < member.Length
        invariant i <= member.Length
        invariant minLv == MinLv(member[..i], family) && maxLv == MaxLv(member[..i], family)
      {
        assert member[..i + 1][..i] == member[..i];
        var lv := member[i].lv;
        if lv != 0 && member[i].online && member[i].id != family {
          if lv < minLv {
            minLv := lv;
          }
          if maxLv < lv {
            maxLv := lv;
          }
        }
        i := i + 1;
      }
      assert member[..member.Length] == member[..];
    }

    // inter_party_calc_state: the recount.
    method CalcState()
      requires member.Length == MAX_PARTY
      modifies this
      ensures Figures() && item == old(item)
      ensures View() == Settle(Party(member[..], Family(member[..], kin), old(exp), item), shareLevel)
    {
      hide MinLv, MaxLv, Online, Occupied;
      Census();
      family := 0;
      if size == 2 && (kin.isChild(member[0].id, member[1].id) || kin.isChild(member[1].id, member[0].id)) {
        if JOB_BABY <= member[0].job && member[0].job <= JOB_SUPER_BABY {
          family := member[0].id;
        } else {
          family := member[1].id;
        }
      } else if size == 3 {
        family := kin.familyOf(member[0].id, member[1].id, member[2].id);
      }
      Survey();
      if exp {
        var ok := CheckExpShare();
        if !ok {
          exp := false;
        }
      }
    }

    method Find(key: Key) returns (i: nat)
      requires member.Length == MAX_PARTY
      ensures i == First(member[..], key)
    {
      i := 0;
      while i < MAX_PARTY && !Matches(member[i], key)
        invariant i <= MAX_PARTY
        invariant First(member[..], key) == i + First(member[i..], key)
      {
        assert member[i..][1..] == member[i + 1..];
        i := i + 1;
      }
    }

    // mapif_parse_PartyAddMember
    method AddMember(m: Member) returns (joined: bool)
      requires Valid()
      modifies this, member
      ensures Figures() <==> KeepsFigures(old(View()), Event.AddMember(m))
      ensures Valid() <==> Proper(old(View()), Event.AddMember(m))
      ensures Figures() ==> View() == Join(old(View()), m, kin, shareLevel)
      ensures member[..] == Join(old(View()), m, kin, shareLevel).members
      ensures joined <==> old(size) < MAX_PARTY
    {
      FreeSlot(member[..]);
      if size == MAX_PARTY {
        return false;
      }
      var i := Find(Free);
      if i == MAX_PARTY {
        return false;
      }
      PutKeepsSound(member[..], i, m.(leader := false));
      AddAt(i, m);
      joined := true;
    }

    method AddAt(i: nat, m: Member)
      requires Valid() && i < MAX_PARTY && member[i] == Vacant
      modifies this, member
      ensures member[..] == old(member[..])[i := m.(leader := false)]
      ensures Figures() <==> m.lv != 0 || old(size) == 1 || old(size) == 2
      ensures var ms := old(member[..])[i := m.(leader := false)];
        Figures() ==> View() == Put(old(View()), i, m.(leader := false),
                        if Occupied(ms) == 2 || Occupied(ms) == 3 then Family(ms, kin) else 0, shareLevel)
    {
      hide MinLv, MaxLv, Online, Occupied;
      ghost var ms := member[..];
      ghost var m' := m.(leader := false);
      CountsChange(ms, i, m');
      member[i] := m;
      member[i] := member[i].(leader := false);
      assert member[..] == ms[i := m'];
      if member[i].online {
        count := count + 1;
      }
      size := size + 1;
      if size == 2 || size == 3 {
        CalcState();
      } else if m.lv < minLv || m.lv > maxLv || family != 0 {
        if family != 0 {
          family := 0;
        }
        CheckLv();
      } else {
        NothingToDo(ms, family, i, m', shareLevel);
      }
    }

    // mapif_parse_PartyLeave; reports whether the member was found. Leaving from an empty
    // slot spoils the size.
    method RemoveMember(account: int, id: int) returns (found: bool)
      requires Valid()
      modifies this, member
      ensures Figures() <==> KeepsFigures(old(View()), PartyLeave(account, id))
      ensures Valid() <==> Proper(old(View()), PartyLeave(account, id))
      ensures View() == Leave(old(View()), account, id, shareLevel)
      ensures found <==> First(old(member[..]), Pair(account, id)) < MAX_PARTY
    {
      var i := Find(Pair(account, id));
      if i >= MAX_PARTY {
        return false;
      }
      RemoveAt(i);
      found := true;
    }

    method RemoveAt(i: nat)
      requires Valid() && i < MAX_PARTY
      modifies this, member
      ensures Figures() <==> old(member[i]) != Vacant
      ensures Sound(member[..])
      ensures View() == Put(old(View()), i, Vacant, 0, shareLevel)
    {
      hide MinLv, MaxLv, Online, Occupied;
      ghost var ms := member[..];
      assert SlotOk(ms[i]);
      CountsChange(ms, i, Vacant);
      PutKeepsSound(ms, i, Vacant);
      var j := member[i].lv;
      if member[i].online {
        OnlineOne(ms, i);
        count := count - 1;
      }
      member[i] := Vacant;
      size := (size - 1) % 0x100;
      assert member[..] == ms[i := Vacant];
      if j == minLv || j == maxLv || family != 0 {
        if family != 0 {
          family := 0;
        }
        CheckLv();
      } else {
        if Counts(ms[i], family) {
          LevelBounds(ms, family, i);
        }
        NothingToDo(ms, family, i, Vacant, shareLevel);
      }
    }

    // mapif_parse_PartyChangeOption
    method ChangeOption(e: int, it: int)
      requires Valid()
      modifies this`exp, this`item
      ensures Valid() && View() == SetOption(old(View()), e, it, shareLevel)
    {
      exp := e % 2 != 0;
      if e != 0 {
        var ok := CheckExpShare();
        if !ok {
          exp := false;
        }
      }
      item := it % 4;
    }

    // inter_party_CharOnline. An empty slot that comes online is counted, other than by a
    // recount.
    method CharOnline(id: int)
      requires Valid()
      modifies this, member
      ensures Figures() <==> KeepsFigures(old(View()), Event.CharOnline(id))
      ensures Valid() <==> Proper(old(View()), Event.CharOnline(id))
      ensures Figures() ==> View() == SetOnline(old(View()), id, true, shareLevel)
      ensures member[..] == SetOnline(old(View()), id, true, shareLevel).members
      ensures family == old(family) && item == old(item) && size == old(size)
      ensures !Figures() ==> count == old(count) + 1 && exp == (old(exp) && MayShare(count, minLv, maxLv, shareLevel))
    {
      var i := Find(Char(id));
      if i < MAX_PARTY {
        ghost var ms := member[..];
        assert SlotOk(ms[i]) && ms == ms[i := ms[i]];
        if !member[i].online {
          PutKeepsSound(ms, i, ms[i].(online := true));
          CountsChange(ms, i, ms[i].(online := true));
          OnlineAt(i);
        }
      }
    }

    method OnlineAt(i: nat)
      requires Settled() && Whole(member[..]) && i < MAX_PARTY && !member[i].online
      modifies this, member
      ensures size == old(size) && family == old(family) && item == old(item) && count == old(count) + 1
      ensures member[..] == old(member[..])[i := old(member[i]).(online := true)]
      ensures member[i].lv != 0 ==> Settled() && View() == Put(old(View()), i, member[i], family, shareLevel)
      ensures member[i].lv == 0 ==> exp == (old(exp) && MayShare(count, minLv, maxLv, shareLevel))
    {
      ghost var ms, m' := member[..], member[i].(online := true);
      CountsChange(ms, i, m');
      MinIsPositive(ms, family);
      member[i] := member[i].(online := true);
      count := count + 1;
      assert member[..] == ms[i := m'];
      if member[i].lv < minLv || member[i].lv > maxLv {
        CheckLv();
      } else {
        NothingToDo(ms, family, i, m', shareLevel);
      }
    }

    // inter_party_CharOffline; reports whether nobody is left online. Taking a member
    // offline who is not online spoils the count.
    method CharOffline(id: int) returns (unload: bool)
      requires Valid()
      modifies this, member
      ensures Figures() <==> KeepsFigures(old(View()), Event.CharOffline(id))
      ensures Valid() <==> Proper(old(View()), Event.CharOffline(id))
      ensures Figures() ==> View() == SetOnline(old(View()), id, false, shareLevel)
      ensures !Figures() ==> member[..] == old(member[..]) && count == (old(count) - 1) % 0x100
      ensures unload <==> count == 0
    {
      var i := Find(Char(id));
      if i < MAX_PARTY {
        ghost var ms := member[..];
        assert SlotOk(ms[i]);
        ghost var m' := ms[i].(online := false);
        CountsChange(ms, i, m');
        PutKeepsSound(ms, i, m');
        member[i] := member[i].(online := false);
        count := (count - 1) % 0x100;
        assert member[..] == ms[i := m'];
        if member[i].lv == minLv || member[i].lv == maxLv {
          CheckLv();
        } else if ms[i].online {
          if Counts(ms[i], family) {
            LevelBounds(ms, family, i);
          }
          NothingToDo(ms, family, i, m', shareLevel);
        }
      }
      unload := count == 0;
    }

    // The part of mapif_parse_PartyChangeMap that deals with a member who comes online or
    // goes offline.
    method ChangeOnline(i: nat, online: bool, lv: Level)
      requires Settled() && Whole(member[..]) && i < MAX_PARTY && member[i].online != online
      modifies this, member
      ensures family == old(family) && item == old(item) && size == old(size)
      ensures count == if online then old(count) + 1 else old(count) - 1
      ensures member[..] == old(member[..])[i := old(member[i]).(online := online, lv := member[i].lv)]
      ensures member[i].lv == lv || (member[i].lv == old(member[i].lv) != 0 && lv != 0
              && minLv < member[i].lv < maxLv && minLv < lv < maxLv && exp == old(exp))
      ensures old(member[i].lv) != 0 && lv != 0 ==>
        Settled() && exp == (old(exp) && Shares(member[..], family, shareLevel))
      ensures exp == old(exp) || exp == (old(exp) && MayShare(count, minLv, maxLv, shareLevel))
    {
      hide MinLv, MaxLv, Online;
      ghost var ms := member[..];
      MinIsPositive(ms, family);
      member[i] := member[i].(online := online);
      if online {
        count := count + 1;
      } else {
        OnlineOne(ms, i);
        count := count - 1;
      }
      ghost var m' := ms[i].(online := online, lv := lv);
      CountsChange(ms, i, m');
      if family != 0 || (member[i].lv <= minLv || member[i].lv >= maxLv)
         || (member[i].lv != lv && (lv <= minLv || lv >= maxLv)) {
        member[i] := member[i].(lv := lv);
        assert member[..] == ms[i := m'];
        CheckLv();
      } else {
        m' := ms[i].(online := online);
        CountsChange(ms, i, m');
        assert member[..] == ms[i := m'];
        NothingToDo(ms, family, i, m', shareLevel);
      }
    }

    // The part of it that deals with a level that has changed. A jump out of the range goes
    // unnoticed, and then the cached range is wrong.
    method ChangeLevel(i: nat, lv: Level)
      requires i < MAX_PARTY == member.Length
      modifies this, member
      ensures family == old(family) && item == old(item) && size == old(size) && count == old(count)
      ensures member[..] == old(member[..])[i := old(member[i]).(lv := lv)]
      ensures old(Settled() && Whole(member[..])) && old(member[i].lv) != 0 && lv != 0 ==>
        && (Ranged() <==> !(Counts(member[i], family) && old(minLv < member[i].lv < maxLv)
                            && !(old(minLv) <= lv <= old(maxLv))))
        && exp == (old(exp) && (Ranged() ==> Shares(member[..], family, shareLevel)))
      ensures old(member[i].lv) == lv ==> exp == old(exp) && minLv == old(minLv) && maxLv == old(maxLv)
      ensures exp == old(exp) || exp == (old(exp) && MayShare(count, minLv, maxLv, shareLevel))
    {
      hide MinLv, MaxLv, Online;
      ghost var ms := member[..];
      ghost var m' := ms[i].(lv := lv);
      CountsChange(ms, i, m');
      if member[i].lv != lv {
        if member[i].lv == minLv || member[i].lv == maxLv {
          member[i] := member[i].(lv := lv);
          assert member[..] == ms[i := m'];
          CheckLv();
        } else {
          member[i] := member[i].(lv := lv);
          assert member[..] == ms[i := m'];
          if old(Settled()) {
            LevelUnnoticed(ms, family, i, m', shareLevel);
          }
        }
      } else {
        assert ms == ms[i := m'];
      }
    }

    // mapif_parse_PartyChangeMap
    method ChangeMap(account: int, id: int, map_: int, online: bool, lv: Level)
      requires Valid()
      modifies this, member
      ensures Figures() <==> KeepsFigures(old(View()), Event.ChangeMap(account, id, map_, online, lv))
      ensures Valid() <==> Proper(old(View()), Event.ChangeMap(account, id, map_, online, lv))
      ensures Figures() ==> View() == Move(old(View()), account, id, map_, online, lv, shareLevel)
      ensures member[..] == Move(old(View()), account, id, map_, online, lv, shareLevel).members
      ensures family == old(family) && item == old(item) && size == old(size)
      ensures Jumps(old(View()), account, id, online, lv) && lv != 0 ==> exp == old(exp)
      ensures exp == old(exp) || exp == (old(exp) && MayShare(count, minLv, maxLv, shareLevel))
    {
      var i := Find(Pair(account, id));
      if i == MAX_PARTY {
        return;
      }
      ghost var ms, m := member[..], member[i];
      assert SlotOk(m) && forall k :: 0 <= k < |ms| ==> SlotOk(ms[k]);
      ghost var m' := m.(map_ := map_, online := online, lv := lv);
      PutKeepsSound(ms, i, m');
      CountsChange(ms, i, m');
      ChangeAt(i, map_, online, lv);
    }

    method ChangeAt(i: nat, map_: int, online: bool, lv: Level)
      requires Settled() && Whole(member[..]) && i < MAX_PARTY
      modifies this, member
      ensures family == old(family) && item == old(item) && size == old(size)
      ensures member[..] == old(member[..])[i := old(member[i]).(map_ := map_, online := online, lv := lv)]
      ensures count - old(count) == (if online then 1 else 0) - if old(member[i].online) then 1 else 0
      ensures old(member[i].lv) != 0 && lv != 0 ==>
        && (Ranged() <==> !(online && Counts(old(member[i]), family) && old(minLv < member[i].lv < maxLv)
                            && !(old(minLv) <= lv <= old(maxLv))))
        && exp == (old(exp) && (Ranged() ==> Shares(member[..], family, shareLevel)))
      ensures old(member[i].lv) == lv == 0 && old(member[i].online) == online ==> Settled() && exp == old(exp)
      ensures exp == old(exp) || exp == (old(exp) && MayShare(count, minLv, maxLv, shareLevel))
    {
      ghost var ms, m := member[..], member[i];
      ChangeState(i, online, lv);
      assert ms[i := m] == ms;
      if member[i].map_ != map_ {
        SetMap(i, map_);
      }
      assert member[..] == ms[i := m.(map_ := map_, online := online, lv := lv)];
    }

    method ChangeState(i: nat, online: bool, lv: Level)
      requires Settled() && Whole(member[..]) && i < MAX_PARTY
      modifies this, member
      ensures family == old(family) && item == old(item) && size == old(size)
      ensures member[..] == old(member[..])[i := old(member[i]).(online := online, lv := lv)]
      ensures count - old(count) == (if online then 1 else 0) - if old(member[i].online) then 1 else 0
      ensures old(member[i].lv) != 0 && lv != 0 ==>
        && (Ranged() <==> !(online && Counts(old(member[i]), family) && old(minLv < member[i].lv < maxLv)
                            && !(old(minLv) <= lv <= old(maxLv))))
        && exp == (old(exp) && (Ranged() ==> Shares(member[..], family, shareLevel)))
      ensures old(member[i].lv) == lv == 0 && old(member[i].online) == online ==> Settled() && exp == old(exp)
      ensures exp == old(exp) || exp == (old(exp) && MayShare(count, minLv, maxLv, shareLevel))
    {
      hide MinLv, MaxLv, Online;
      ghost var ms, m := member[..], member[i];
      assert ms[i := m] == ms;
      if member[i].online != online {
        ChangeOnline(i, online, lv);
      }
      ChangeLevel(i, lv);
      assert member[..] == ms[i := m.(online := online, lv := lv)];
    }

    method SetMap(i: nat, map_: int)
      requires i < member.Length == MAX_PARTY
      modifies member
      ensures member[..] == old(member[..])[i := old(member[i]).(map_ := map_)]
      ensures Ranged() <==> old(Ranged())
      ensures Shares(member[..], family, shareLevel) == Shares(old(member[..]), family, shareLevel)
    {
      ghost var ms := member[..];
      MapDoesNotMatter(ms, family, i, map_);
      member[i] := member[i].(map_ := map_);
      assert member[..] == ms[i := ms[i].(map_ := map_)];
    }

    method Dispatch(e: Event)
      requires Valid()
      modifies this, member
      ensures Figures() <==> KeepsFigures(old(View()), e)
      ensures Valid() <==> Proper(old(View()), e)
      ensures Figures() ==> View() == Handle(old(View()), e, kin, shareLevel)
      ensures member[..] == Handle(old(View()), e, kin, shareLevel).members
    {
      match e {
        case AddMember(m) =>
          var joined := AddMember(m);
        case PartyLeave(account, id) =>
          var found := RemoveMember(account, id);
        case ChangeMap(account, id, map_, online, lv) =>
          ChangeMap(account, id, map_, online, lv);
        case ChangeOption(exp, item) =>
          ChangeOption(exp, item);
        case CharOnline(id) =>
          CharOnline(id);
        case CharOffline(id) =>
          var unload := CharOffline(id);
      }
    }

    // Over any run of proper events the cache stays the recomputed one.
    method Serve(es: seq<Event>)
      requires Valid() && AllProper(View(), es, kin, shareLevel)
      modifies this, member
      ensures Valid() && View() == HandleAll(old(View()), es, kin, shareLevel)
    {
      var i := 0;
      assert es[0..] == es;
      while i < |es|
        invariant i <= |es| && Valid() && AllProper(View(), es[i..], kin, shareLevel)
        invariant HandleAll(View(), es[i..], kin, shareLevel) == HandleAll(old(View()), es, kin, shareLevel)
      {
        assert es[i..][0] == es[i] && es[i..][1..] == es[i + 1..];
        Dispatch(es[i]);
        i := i + 1;
      }
    }
  }
}
