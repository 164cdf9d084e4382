// What levels and averages come to, said in plain terms.
module LevelTerms {
  import opened Levels

  // The first n entries of the table together.
  function Together(exp: seq<nat>, n: nat): nat
    requires n <= |exp|
  {
    if n == 0 then 0 else Together(exp, n - 1) + exp[n - 1]
  }

  // A level that there is costs its entry; level 0, which there is not, costs a single point,
  // and all others nothing.
  lemma CostOfLevel(exp: seq<nat>, level: int)
    requires IsTable(exp)
    ensures 0 < level <= 50 ==> NextExp(exp, level) == exp[level - 1]
    ensures NextExp(exp, 0) == 1 && (level < 0 || level > 50 ==> NextExp(exp, level) == 0)
  {
  }

  // To get from level 1 to a level takes the entries of all levels below it.
  lemma {:induction false} CostFromOne(exp: seq<nat>, goal: nat)
    requires IsTable(exp) && 1 <= goal <= 51
    ensures Cost(exp, 1, goal) == Together(exp, goal - 1)
  {
    if goal > 1 {
      CostFromOne(exp, goal - 1);
    }
  }

  lemma NoWayBeyond(exp: seq<nat>, goal: int)
    requires IsTable(exp) && goal >= 1
    ensures Passable(exp, 1, goal) <==> goal <= 51 && forall i :: 0 <= i < goal - 1 && i < 50 ==> exp[i] > 0
  {
    if Passable(exp, 1, goal) {
      assert goal > 51 ==> NextExp(exp, 51) > 0;
      forall i | 0 <= i < goal - 1 && i < 50
        ensures exp[i] > 0
      {
        assert NextExp(exp, i + 1) > 0;
      }
    }
  }

  // The level that experience is good for: all entries below it are paid, and the next one
  // cannot be, or there is none.
  lemma LevelFor(exp: seq<nat>, points: nat, goal: int)
    requires IsTable(exp)
    ensures Reaches(exp, 1, points, goal) <==>
      && 1 <= goal <= 51 && (forall i :: 0 <= i < goal - 1 ==> exp[i] > 0) && Together(exp, goal - 1) <= points
      && (goal <= 50 ==> exp[goal - 1] == 0 || points < Together(exp, goal))
  {
    if goal >= 1 {
      NoWayBeyond(exp, goal);
      if goal <= 51 {
        CostFromOne(exp, goal);
      }
    }
  }

  // The share of the guild is the percentage, rounded down, unless the product overflows;
  // the whole gain never does.
  lemma ShareIs(gain: nat, rate: nat)
    ensures rate == 100 ==> Scaled(gain, rate) == gain
    ensures gain * rate < 0x1_0000_0000_0000_0000 ==>
      100 * Scaled(gain, rate) <= gain * rate < 100 * (Scaled(gain, rate) + 1)
  {
    if gain * rate < 0x1_0000_0000_0000_0000 && rate != 100 {
      assert gain * rate % 0x1_0000_0000_0000_0000 == gain * rate;
    }
  }

  // Twice 2 to the 63 is nothing.
  lemma ShareOverflows()
    ensures Scaled(0x8000_0000_0000_0000, 200) == 0
  {
    assert 0x8000_0000_0000_0000 * 200 == 0x1_0000_0000_0000_0000 * 100;
  }

  // The guild's experience stops at the largest number of 64 bits.
  lemma ExperienceStops(points: nat, gain: nat)
    requires points < 0x1_0000_0000_0000_0000
    ensures Saturated(points, gain) ==
      if points + gain < 0x1_0000_0000_0000_0000 then points + gain else 0xFFFF_FFFF_FFFF_FFFF
  {
  }

  // What a short holds of a number.
  lemma ShortIs(x: int)
    ensures -0x8000 <= Short(x) <= 0x7FFF && (x - Short(x)) % 0x1_0000 == 0
  {
  }

  ghost function LevelSlots(ms: seq<GuildMember>): set<int>
  {
    set i | 0 <= i < |ms| && ms[i].account > 0 && ms[i].lv >= 0
  }

  ghost function OnlineSlots(ms: seq<GuildMember>): set<int>
  {
    set i | 0 <= i < |ms| && ms[i].account > 0 && ms[i].online
  }

  lemma OneMoreLevel(ms: seq<GuildMember>, n: nat)
    requires |ms| == n + 1
    ensures |LevelSlots(ms)| == |LevelSlots(ms[..n])| + if ms[n].account > 0 && ms[n].lv >= 0 then 1 else 0
  {
    assert LevelSlots(ms) == LevelSlots(ms[..n]) + if ms[n].account > 0 && ms[n].lv >= 0 then {n} else {};
  }

  lemma OneMoreOnline(ms: seq<GuildMember>, n: nat)
    requires |ms| == n + 1
    ensures |OnlineSlots(ms)| == |OnlineSlots(ms[..n])| + if ms[n].account > 0 && ms[n].online then 1 else 0
  {
    assert OnlineSlots(ms) == OnlineSlots(ms[..n]) + if ms[n].account > 0 && ms[n].online then {n} else {};
  }

  // The members whose levels are averaged, and those who are counted as online.
  lemma {:induction false} CountsSlots(ms: seq<GuildMember>)
    ensures Levelled(ms) == |LevelSlots(ms)| && Connected(ms) == |OnlineSlots(ms)|
  {
    if ms == [] {
      assert LevelSlots(ms) == {} && OnlineSlots(ms) == {};
    } else {
      hide LevelSlots, OnlineSlots;
      CountsSlots(ms[..|ms| - 1]);
      OneMoreLevel(ms, |ms| - 1);
      OneMoreOnline(ms, |ms| - 1);
    }
  }

  // If all levels that count are the same, so is the average, up to what a short holds.
  lemma {:induction false} SameLevels(ms: seq<GuildMember>, lv: nat)
    requires forall i :: 0 <= i < |ms| && ms[i].account > 0 && ms[i].lv >= 0 ==> ms[i].lv == lv
    ensures TrueSum(ms) == |LevelSlots(ms)| * lv
  {
    if ms == [] {
      assert LevelSlots(ms) == {};
    } else {
      hide LevelSlots;
      var n := |ms| - 1;
      SameLevels(ms[..n], lv);
      OneMoreLevel(ms, n);
      OneMore(|LevelSlots(ms[..n])|, lv);
    }
  }
}
