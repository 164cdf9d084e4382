// Guild levels: how experience is turned into levels.
module Levels {

  const MAX_GUILDLEVEL := 50
  const MAX_LEVEL := 175
  const UINT64_MAX := 0xFFFF_FFFF_FFFF_FFFF

  // The experience table, one entry per level.
  predicate IsTable(exp: seq<nat>)
  {
    |exp| == MAX_GUILDLEVEL && forall i :: 0 <= i < |exp| ==> exp[i] <= 0xFFFF_FFFF
  }

  // What a level costs; 0 if it is the last.
  function NextExp(exp: seq<nat>, level: int): nat
    requires IsTable(exp)
  {
    if level == 0 then 1
    else if level <= 0 || level > MAX_GUILDLEVEL then 0
    else exp[level - 1]
  }

  // What the levels from one up to another cost.
  function Cost(exp: seq<nat>, start: int, goal: int): nat
    requires IsTable(exp) && start <= goal
    decreases goal - start
  {
    if start == goal then 0 else Cost(exp, start, goal - 1) + NextExp(exp, goal - 1)
  }

  // The guild passes every level on the way.
  ghost predicate Passable(exp: seq<nat>, start: int, goal: int)
    requires IsTable(exp)
  {
    forall l {:trigger NextExp(exp, l)} :: start <= l < goal ==> NextExp(exp, l) > 0
  }

  // A guild of this level with this experience gets to that level and no further.
  ghost predicate Reaches(exp: seq<nat>, level: int, points: nat, goal: int)
    requires IsTable(exp)
  {
    && level <= goal && Passable(exp, level, goal) && Cost(exp, level, goal) <= points
    && (NextExp(exp, goal) == 0 || points < Cost(exp, level, goal) + NextExp(exp, goal))
  }

  lemma {:induction false} CostGrows(exp: seq<nat>, start: int, mid: int, goal: int)
    requires IsTable(exp) && start <= mid <= goal
    ensures Cost(exp, start, mid) <= Cost(exp, start, goal)
    decreases goal - mid
  {
    if mid < goal {
      CostGrows(exp, start, mid, goal - 1);
    }
  }

  // There is just one level that it gets to.
  lemma ReachIsUnique(exp: seq<nat>, level: int, points: nat, a: int, b: int)
    requires IsTable(exp) && Reaches(exp, level, points, a) && Reaches(exp, level, points, b)
    ensures a == b
  {
    if a < b {
      CostGrows(exp, level, a + 1, b);
    } else if b < a {
      CostGrows(exp, level, b + 1, a);
    }
  }

  // With the experience that is left it gets no further.
  lemma LeftOver(exp: seq<nat>, level: int, points: nat, goal: int)
    requires IsTable(exp) && Reaches(exp, level, points, goal)
    ensures Cost(exp, level, goal) <= points && level <= goal && (level == goal ==> Cost(exp, level, goal) == 0)
    ensures Reaches(exp, goal, points - Cost(exp, level, goal), goal)
  {
  }

  // A guild never gets further than one level above the highest in the table, and it does
  // get there: the cost of the highest level is taken like any other.
  lemma HighestLevel(exp: seq<nat>, level: int, points: nat, goal: int)
    requires IsTable(exp) && 1 <= level <= MAX_GUILDLEVEL && Reaches(exp, level, points, goal)
    ensures goal <= MAX_GUILDLEVEL + 1
    ensures goal == MAX_GUILDLEVEL + 1 <==>
      Passable(exp, level, MAX_GUILDLEVEL + 1) && Cost(exp, level, MAX_GUILDLEVEL + 1) <= points
  {
    assert NextExp(exp, MAX_GUILDLEVEL + 1) == 0;
    if Passable(exp, level, MAX_GUILDLEVEL + 1) && Cost(exp, level, MAX_GUILDLEVEL + 1) <= points {
      assert Reaches(exp, level, points, MAX_GUILDLEVEL + 1);
      ReachIsUnique(exp, level, points, goal, MAX_GUILDLEVEL + 1);
    }
  }

  // ---------- Experience that members bring in ----------

  // The guild's share, in 64-bit arithmetic: the product wraps around.
  function Scaled(gain: nat, rate: nat): nat
  {
    if rate == 100 then gain else gain * rate % (UINT64_MAX + 1) / 100
  }

  function Saturated(points: nat, gain: nat): (r: nat)
    ensures points <= UINT64_MAX && gain <= UINT64_MAX ==> points <= r <= UINT64_MAX
    ensures r == points + gain || (r == UINT64_MAX && points + gain > UINT64_MAX)
  {
    if gain > UINT64_MAX - points then UINT64_MAX else points + gain
  }

  // ---------- Members ----------

  datatype GuildMember = GuildMember(account: int, id: int, lv: int, exp: nat, online: bool)

  // A value stored in a short.
  function Short(x: int): int
  {
    (x + 0x8000) % 0x1_0000 - 0x8000
  }

  // Whose level counts.
  predicate HasLevel(m: GuildMember)
  {
    m.account > 0 && m.lv >= 0
  }

  function LevelSum(ms: seq<GuildMember>): int
  {
    if ms == [] then 0
    else
      var m, rest := ms[|ms| - 1], LevelSum(ms[..|ms| - 1]);
      if HasLevel(m) then Short(rest + m.lv) else rest
  }

  function Levelled(ms: seq<GuildMember>): nat
  {
    if ms == [] then 0
    else
      var m, rest := ms[|ms| - 1], Levelled(ms[..|ms| - 1]);
      if HasLevel(m) then rest + 1 else rest
  }

  function Connected(ms: seq<GuildMember>): nat
  {
    if ms == [] then 0
    else
      var m, rest := ms[|ms| - 1], Connected(ms[..|ms| - 1]);
      if m.account > 0 && m.online then rest + 1 else rest
  }

  // Division towards zero.
  function Quotient(a: int, b: nat): int
    requires b > 0
  {
    if a >= 0 then a / b else 0 - (0 - a) / b
  }

  function AverageLevel(ms: seq<GuildMember>): int
  {
    if Levelled(ms) == 0 then LevelSum(ms) else Quotient(LevelSum(ms), Levelled(ms))
  }

  // The sum of the levels that count, without a width.
  function TrueSum(ms: seq<GuildMember>): nat
  {
    if ms == [] then 0
    else
      var m, rest := ms[|ms| - 1], TrueSum(ms[..|ms| - 1]);
      if HasLevel(m) then rest + m.lv else rest
  }

  ghost predicate LevelsWithin(ms: seq<GuildMember>, lo: int, hi: int)
  {
    forall i :: 0 <= i < |ms| && HasLevel(ms[i]) ==> lo <= ms[i].lv <= hi
  }

  lemma OneMore(n: nat, x: nat)
    ensures (n + 1) * x == n * x + x
  {
  }

  lemma {:induction false} SumWithin(ms: seq<GuildMember>, lo: nat, hi: nat)
    requires LevelsWithin(ms, lo, hi)
    ensures Levelled(ms) * lo <= TrueSum(ms) <= Levelled(ms) * hi && Levelled(ms) <= |ms|
  {
    if ms != [] {
      var n := |ms| - 1;
      var rest := ms[..n];
      SumWithin(rest, lo, hi);
      OneMore(Levelled(rest), lo);
      OneMore(Levelled(rest), hi);
      assert HasLevel(ms[n]) ==> lo <= ms[n].lv <= hi;
    }
  }

  // What a short holds of the sum; it is the sum just if that is not too large.
  lemma {:induction false} SumWraps(ms: seq<GuildMember>)
    ensures LevelSum(ms) == Short(TrueSum(ms)) && Levelled(ms) <= |ms|
    ensures LevelSum(ms) == TrueSum(ms) <==> TrueSum(ms) <= 0x7FFF
  {
    hide Short;
    ShortFits(TrueSum(ms));
    if ms != [] {
      var n := |ms| - 1;
      SumWraps(ms[..n]);
      ShortAdd(TrueSum(ms[..n]), ms[n].lv);
    } else {
      ShortFits(0);
    }
  }

  lemma ShortFits(x: nat)
    ensures Short(x) == x <==> x <= 0x7FFF
  {
  }

  lemma ShortAdd(x: int, y: int)
    ensures Short(Short(x) + y) == Short(x + y)
  {
  }

  lemma LessByProduct(x: nat, y: nat, c: nat)
    requires x * c < y * c
    ensures x < y
  {
    assert (y - x) * c > 0;
  }

  lemma QuotientTimes(a: nat, c: nat)
    requires c > 0
    ensures a / c * c <= a < a / c * c + c
  {
    assert a == a / c * c + a % c;
  }

  lemma QuotientBetween(a: nat, c: nat, lo: nat, hi: nat)
    requires c > 0 && c * lo <= a <= c * hi
    ensures lo <= a / c <= hi
  {
    var q := a / c;
    QuotientTimes(a, c);
    OneMore(q, c);
    OneMore(hi, c);
    LessByProduct(lo, q + 1, c);
    LessByProduct(q, hi + 1, c);
  }

  // A sum that has wrapped around gives another quotient.
  lemma WrappedQuotient(sum: nat, c: nat)
    requires 0 < c <= 0x8000 && sum > 0x7FFF
    ensures Quotient(Short(sum), c) != sum / c
  {
    var s := Short(sum);
    assert s <= sum - 0x1_0000;
    hide Short;
    if s >= 0 {
      SmallerQuotient(s, sum, c);
    } else {
      SmallerQuotient(0, sum, c);
    }
  }

  lemma SmallerQuotient(a: nat, b: nat, c: nat)
    requires 0 < c && a + c <= b
    ensures 0 <= a / c < b / c
  {
    QuotientTimes(a, c);
    QuotientTimes(b, c);
    LessByProduct(a / c, b / c, c);
  }

  // The average of a guild's members is their true average, rounded down, if and only if the
  // sum of their levels fits.
  lemma AverageIsTrue(ms: seq<GuildMember>)
    requires |ms| <= 76 && Levelled(ms) != 0
    ensures AverageLevel(ms) == TrueSum(ms) / Levelled(ms) <==> TrueSum(ms) <= 0x7FFF
  {
    SumWraps(ms);
    if TrueSum(ms) > 0x7FFF {
      WrappedQuotient(TrueSum(ms), Levelled(ms));
    }
  }

  // That is so for sound levels, and the average lies between the least and the greatest.
  lemma AverageIsSound(ms: seq<GuildMember>, lo: nat, hi: nat)
    requires |ms| <= 76 && LevelsWithin(ms, 0, MAX_LEVEL) && LevelsWithin(ms, lo, hi)
    ensures TrueSum(ms) <= 0x7FFF && LevelSum(ms) == TrueSum(ms)
    ensures Levelled(ms) == 0 ==> AverageLevel(ms) == 0
    ensures Levelled(ms) != 0 ==> lo <= AverageLevel(ms) <= hi
  {
    SumWraps(ms);
    SumWithin(ms, 0, MAX_LEVEL);
    SumWithin(ms, lo, hi);
    if Levelled(ms) != 0 {
      AverageIsTrue(ms);
      QuotientBetween(TrueSum(ms), Levelled(ms), lo, hi);
    }
  }

  // Two levels of 20000 have a negative average.
  lemma OverflowExample() returns (ms: seq<GuildMember>)
    ensures |ms| == 2 && LevelsWithin(ms, 0, 0x7FFF) && AverageLevel(ms) < 0 < TrueSum(ms)
  {
    var m := GuildMember(1, 1, 20000, 0, false);
    ms := [m, m];
    assert ms[..1] == [m] && [m][..0] == [];
    assert LevelSum([]) == 0 && Levelled([]) == 0 && TrueSum([]) == 0;
    assert LevelSum([m]) == Short(20000) == 20000 && Levelled([m]) == 1 && TrueSum([m]) == 20000;
    assert LevelSum(ms) == Short(40000) == 40000 - 0x1_0000 && Levelled(ms) == 2;
  }
}
