// The guild in memory.
module GuildExp {
  import opened Levels

  const BASE_GUILD_SIZE := 16
  const MAX_GUILD := BASE_GUILD_SIZE + 10 * 6

  class GuildData {
    const expTable: seq<nat>
    const expRate: nat
    const member: array<GuildMember>
    var guildLv: int
    var exp: nat
    var nextExp: nat
    var skillPoint: int
    var maxMember: int
    var averageLv: int
    var connectMember: nat
    // The level of the guild skill that makes room for more members.
    var extension: nat
    // Kinds of data that are to be saved: level data and member data.
    var saveLevel: bool
    var saveMember: bool

    ghost predicate Valid()
      reads this, member
    {
      && IsTable(expTable) && member.Length == MAX_GUILD && exp <= UINT64_MAX
      && (forall i :: 0 <= i < MAX_GUILD ==> member[i].exp <= UINT64_MAX)
    }

    // How many members the guild has room for.
    function Room(): (n: nat)
      reads this`extension
      ensures n == if extension < 10 then 16 + 6 * extension else 76
    {
      var n := BASE_GUILD_SIZE + extension * 6;
      if n > MAX_GUILD then MAX_GUILD else n
    }

    // All figures are worked out: no more levels can be had.
    ghost predicate Settled()
      requires Valid()
      reads this, member
    {
      && guildLv >= 1 && Reaches(expTable, guildLv, exp, guildLv) && nextExp == NextExp(expTable, guildLv)
      && maxMember == Room()
      && averageLv == AverageLevel(member[..Room()]) && connectMember == Connected(member[..Room()])
    }

    // Consumes experience for as many levels as it lasts.
    method GainLevels()
      requires IsTable(expTable) && guildLv >= 1
      modifies this`exp, this`guildLv, this`skillPoint, this`nextExp
      ensures Reaches(expTable, old(guildLv), old(exp), guildLv)
      ensures exp == old(exp) - Cost(expTable, old(guildLv), guildLv)
      ensures skillPoint - old(skillPoint) == guildLv - old(guildLv)
      ensures nextExp == NextExp(expTable, guildLv) && (nextExp == 0 || exp < nextExp)
    {
      nextExp := NextExp(expTable, guildLv);
      while exp >= nextExp && nextExp > 0
        invariant guildLv >= old(guildLv) && nextExp == NextExp(expTable, guildLv)
        invariant Passable(expTable, old(guildLv), guildLv)
        invariant exp + Cost(expTable, old(guildLv), guildLv) == old(exp)
        invariant skillPoint - old(skillPoint) == guildLv - old(guildLv)
        decreases exp
      {
        exp := exp - nextExp;
        guildLv := guildLv + 1;
        skillPoint := skillPoint + 1;
        nextExp := NextExp(expTable, guildLv);
      }
    }

    // The average level of the members and how many of them are online.
    method SurveyMembers()
      requires member.Length == MAX_GUILD && 0 <= maxMember <= MAX_GUILD
      modifies this`averageLv, this`connectMember
      ensures averageLv == AverageLevel(member[..maxMember]) && connectMember == Connected(member[..maxMember])
    {
      averageLv, connectMember := 0, 0;
      var i, c := 0, 0;
      while i < maxMember
        invariant 0 <= i <= maxMember && c == Levelled(member[..i])
        invariant averageLv == LevelSum(member[..i]) && connectMember == Connected(member[..i])
      {
        assert member[..i + 1][..i] == member[..i];
        if member[i].account > 0 {
          if member[i].lv >= 0 {
            averageLv := Short(averageLv + member[i].lv);
            c := c + 1;
          }
          if member[i].online {
            connectMember := connectMember + 1;
          }
        }
        i := i + 1;
      }
      if c != 0 {
        averageLv := Quotient(averageLv, c);
      }
    }

    // The level that the guild gains levels from.
    function FirstLevel(): (l: int)
      reads this`guildLv
      ensures (guildLv >= 1 ==> l == guildLv) && (guildLv < 1 ==> l == 1)
    {
      if guildLv <= 0 then 1 else guildLv
    }

    // inter_guild_calcinfo
    method CalcInfo() returns (changed: bool)
      requires Valid()
      modifies this
      ensures Valid() && Settled()
      ensures var level := old(FirstLevel());
        && Reaches(expTable, level, old(exp), guildLv) && exp + Cost(expTable, level, guildLv) == old(exp)
        && skillPoint - old(skillPoint) == guildLv - level
      ensures extension == old(extension) && saveMember == old(saveMember)
      ensures changed <==> maxMember != old(maxMember) || guildLv != old(guildLv) || skillPoint != old(skillPoint)
      ensures saveLevel == (old(saveLevel) || changed)
      // Another call changes nothing.
      ensures old(Settled()) ==>
        && !changed && guildLv == old(guildLv) && exp == old(exp) && nextExp == old(nextExp)
        && skillPoint == old(skillPoint) && maxMember == old(maxMember)
        && averageLv == old(averageLv) && connectMember == old(connectMember)
    {
      hide AverageLevel, Connected, NextExp, Reaches, Cost;
      ghost var l0, e0 := guildLv, exp;
      var beforeLv, beforePoints, beforeRoom := guildLv, skillPoint, maxMember;
      if guildLv <= 0 {
        guildLv := 1;
      }
      ghost var l1 := guildLv;
      GainLevels();
      LeftOver(expTable, l1, e0, guildLv);
      if old(Settled()) {
        ReachIsUnique(expTable, l1, e0, l1, guildLv);
      }
      maxMember := BASE_GUILD_SIZE + extension * 6;
      if maxMember > MAX_GUILD {
        maxMember := MAX_GUILD;
      }
      SurveyMembers();
      changed := maxMember != beforeRoom || guildLv != beforeLv || skillPoint != beforePoints;
      if changed {
        saveLevel := true;
      }
    }

    // The guild's part of the experience that a member has gained.
    method GainExp(gain: nat)
      requires Valid() && gain <= UINT64_MAX
      modifies this
      ensures Valid() && Settled() && saveLevel && saveMember == old(saveMember)
      ensures var points := Saturated(old(exp), Scaled(gain, expRate));
        && Reaches(expTable, old(FirstLevel()), points, guildLv)
        && exp + Cost(expTable, old(FirstLevel()), guildLv) == points
        && skillPoint - old(skillPoint) == guildLv - old(FirstLevel())
    {
      var share := gain;
      if expRate != 100 {
        share := share * expRate % (UINT64_MAX + 1) / 100;
      }
      if share > UINT64_MAX - exp {
        exp := UINT64_MAX;
      } else {
        exp := exp + share;
      }
      var changed := CalcInfo();
      saveLevel := true;
    }

    method FindMember(account: int, id: int) returns (i: int)
      requires Valid() && 0 <= maxMember <= MAX_GUILD
      ensures 0 <= i <= maxMember
      ensures i < maxMember ==> member[i].account == account && member[i].id == id
      ensures forall k :: 0 <= k < i ==> !(member[k].account == account && member[k].id == id)
    {
      i := 0;
      while i < maxMember && !(member[i].account == account && member[i].id == id)
        invariant 0 <= i <= maxMember
        invariant forall k :: 0 <= k < i ==> !(member[k].account == account && member[k].id == id)
      {
        i := i + 1;
      }
    }

    // mapif_parse_GuildMemberInfoChange for the experience of a member; returns the slot of
    // the member, or the number of slots if there is no such member.
    method ChangeMemberExp(account: int, id: int, newExp: nat) returns (i: int)
      requires Valid() && 0 <= maxMember <= MAX_GUILD && newExp <= UINT64_MAX
      modifies this, member
      ensures Valid() && 0 <= i <= old(maxMember)
      ensures forall k :: 0 <= k < i ==> old(member[k].account) != account || old(member[k].id) != id
      ensures i == old(maxMember) ==>
        guildLv == old(guildLv) && exp == old(exp) && skillPoint == old(skillPoint) && member[..] == old(member[..])
      ensures i < old(maxMember) ==>
        && old(member[i].account) == account && old(member[i].id) == id && saveMember
        && member[..] == old(member[..])[i := old(member[i]).(exp := newExp)]
        && (newExp <= old(member[i].exp) ==>
              guildLv == old(guildLv) && exp == old(exp) && skillPoint == old(skillPoint))
        && (newExp > old(member[i].exp) ==>
              var points := Saturated(old(exp), Scaled(newExp - old(member[i].exp), expRate));
              && saveLevel && Settled() && Reaches(expTable, old(FirstLevel()), points, guildLv)
              && exp + Cost(expTable, old(FirstLevel()), guildLv) == points
              && skillPoint - old(skillPoint) == guildLv - old(FirstLevel()))
    {
      i := FindMember(account, id);
      if i == maxMember {
        return;
      }
      var oldExp := member[i].exp;
      ghost var ms := member[..];
      member[i] := member[i].(exp := newExp);
      assert member[..] == ms[i := ms[i].(exp := newExp)];
      if newExp > oldExp {
        GainExp(newExp - oldExp);
      }
      saveMember := true;
    }
  }
}
