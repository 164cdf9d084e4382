// The ranking of players by fame.
module Ranking {

  // A place in the list; an empty one has id 0 and fame 0.
  datatype Place = Place(id: int, fame: int)

  const Nobody: Place := Place(0, 0)

  // Fame never increases down the list.
  ghost predicate Sorted(list: seq<Place>)
  {
    forall i, j :: 0 <= i < j < |list| ==> list[i].fame >= list[j].fame
  }

  // Players first, then empty places; nobody has two places.
  ghost predicate Proper(list: seq<Place>)
  {
    && (forall i :: 0 <= i < |list| ==> list[i].id >= 0 && list[i].fame >= 0)
    && (forall i :: 0 <= i < |list| && list[i].id == 0 ==> list[i] == Nobody)
    && (forall i, j :: 0 <= i < j < |list| && list[i].id == 0 ==> list[j].id == 0)
    && (forall i, j :: 0 <= i < j < |list| && list[i].id != 0 ==> list[i].id != list[j].id)
  }

  // The place of a player, or the length of the list.
  function PlayerAt(list: seq<Place>, id: int): (p: nat)
    ensures p <= |list| && (p < |list| ==> list[p].id == id) && forall k :: 0 <= k < p ==> list[k].id != id
  {
    if list == [] then 0
    else
      var n := |list| - 1;
      var p := PlayerAt(list[..n], id);
      if p < n then p else if list[n].id == id then n else n + 1
  }

  // The first place with no more fame than this, or the length of the list.
  function FameAt(list: seq<Place>, fame: int): (f: nat)
    ensures f <= |list| && (f < |list| ==> list[f].fame <= fame) && forall k :: 0 <= k < f ==> list[k].fame > fame
  {
    if list == [] then 0
    else
      var n := |list| - 1;
      var f := FameAt(list[..n], fame);
      if f < n then f else if list[n].fame <= fame then n else n + 1
  }

  // One element taken out and put in elsewhere.
  function Moved(s: seq<Place>, from: nat, to_: nat): (r: seq<Place>)
    requires from < |s| && to_ < |s|
    ensures |r| == |s|
    ensures forall k {:trigger r[k]} :: 0 <= k < |s| ==>
      r[k] == if k == to_ then s[from] else if from <= k < to_ then s[k + 1]
              else if to_ < k <= from then s[k - 1] else s[k]
  {
    if from < to_ then s[..from] + s[from + 1..to_ + 1] + [s[from]] + s[to_ + 1..]
    else s[..to_] + [s[from]] + s[to_..from] + s[from + 1..]
  }

  // The list after a report.
  function Report(list: seq<Place>, id: int, fame: int): (r: seq<Place>)
    ensures |r| == |list|
  {
    var n, p, f := |list|, PlayerAt(list, id), FameAt(list, fame);
    if p == n && f == n then list
    else if f == p then list[p := list[p].(fame := fame)]
    else if p == n then Moved(list, n - 1, f)[f := Place(id, fame)]
    else
      var g := if f == n then f - 1 else f;
      var m := Moved(list, p, g);
      m[g := m[g].(fame := fame)]
  }

  // The fame of the player falls below that of the one on the next place, but not below
  // that of all the others.
  predicate FallsPast(list: seq<Place>, id: int, fame: int)
  {
    var p, f := PlayerAt(list, id), FameAt(list, fame);
    p < f < |list| && list[f].fame < fame
  }

  // The player falls to where the empty places begin.
  predicate FallsToEmpty(list: seq<Place>, id: int, fame: int)
  {
    var p, f := PlayerAt(list, id), FameAt(list, fame);
    p < f < |list| && list[f].id == 0
  }

  // A report keeps the list in order exactly if it is no such fall.
  lemma ReportSorts(list: seq<Place>, id: int, fame: int)
    requires Proper(list) && Sorted(list) && id > 0 && fame >= 0
    ensures Proper(Report(list, id, fame)) <==> !FallsToEmpty(list, id, fame)
    ensures Sorted(Report(list, id, fame)) <==> !FallsPast(list, id, fame)
  {
    var n, p, f := |list|, PlayerAt(list, id), FameAt(list, fame);
    if f == p {
      if p < n {
        SetFame(list, p, fame);
      }
    } else if f < p {
      ReportUp(list, id, fame);
    } else {
      ReportDown(list, id, fame);
    }
  }

  lemma ReportUp(list: seq<Place>, id: int, fame: int)
    requires Proper(list) && Sorted(list) && id > 0 && fame >= 0 && FameAt(list, fame) < PlayerAt(list, id)
    ensures Proper(Report(list, id, fame)) && Sorted(Report(list, id, fame))
  {
    var n, p, f := |list|, PlayerAt(list, id), FameAt(list, fame);
    var q := if p == n then n - 1 else p;
    if p == n {
      NewRanker(list, id, fame);
    } else {
      Rises(list, id, fame);
    }
    InsertedProper(list, Report(list, id, fame), Place(id, fame), f, q);
    InsertedSorts(list, Report(list, id, fame), Place(id, fame), f, q);
  }

  lemma ReportDown(list: seq<Place>, id: int, fame: int)
    requires Proper(list) && Sorted(list) && id > 0 && fame >= 0 && PlayerAt(list, id) < FameAt(list, fame)
    ensures Proper(Report(list, id, fame)) <==> !FallsToEmpty(list, id, fame)
    ensures Sorted(Report(list, id, fame)) <==> !FallsPast(list, id, fame)
  {
    var n, p, f := |list|, PlayerAt(list, id), FameAt(list, fame);
    var g := if f == n then f - 1 else f;
    Falls(list, id, fame);
    LoweredProper(list, Report(list, id, fame), Place(id, fame), p, g);
    LoweredSorts(list, Report(list, id, fame), Place(id, fame), p, g);
  }

  lemma SetFame(list: seq<Place>, p: nat, fame: int)
    requires Proper(list) && Sorted(list) && p < |list| && list[p].id != 0 && fame >= 0 && FameAt(list, fame) == p
    ensures var r := list[p := list[p].(fame := fame)]; Proper(r) && Sorted(r)
  {
  }

  // r is the list with x put in at f, and what was at p left out.
  ghost predicate IsInserted(list: seq<Place>, r: seq<Place>, x: Place, f: nat, p: nat)
  {
    && |r| == |list| && f <= p < |list|
    && forall k {:trigger r[k]} :: 0 <= k < |r| ==>
         r[k] == if k == f then x else if f < k <= p then list[k - 1] else list[k]
  }

  // r is the list with the element at p taken down to g and replaced by x.
  ghost predicate IsLowered(list: seq<Place>, r: seq<Place>, x: Place, p: nat, g: nat)
  {
    && |r| == |list| && p <= g < |list|
    && forall k {:trigger r[k]} :: 0 <= k < |r| ==>
         r[k] == if k == g then x else if p <= k < g then list[k + 1] else list[k]
  }

  lemma NewRanker(list: seq<Place>, id: int, fame: int)
    requires PlayerAt(list, id) == |list| && FameAt(list, fame) < |list|
    ensures IsInserted(list, Report(list, id, fame), Place(id, fame), FameAt(list, fame), |list| - 1)
  {
  }

  lemma Rises(list: seq<Place>, id: int, fame: int)
    requires FameAt(list, fame) < PlayerAt(list, id) < |list|
    ensures IsInserted(list, Report(list, id, fame), Place(id, fame), FameAt(list, fame), PlayerAt(list, id))
  {
  }

  lemma Falls(list: seq<Place>, id: int, fame: int)
    requires PlayerAt(list, id) < FameAt(list, fame) && PlayerAt(list, id) < |list|
    ensures var f := FameAt(list, fame);
      IsLowered(list, Report(list, id, fame), Place(id, fame), PlayerAt(list, id), if f == |list| then f - 1 else f)
  {
  }

  lemma InsertedProper(list: seq<Place>, r: seq<Place>, x: Place, f: nat, p: nat)
    requires Proper(list) && IsInserted(list, r, x, f, p)
    requires x.id > 0 && x.fame >= 0 && forall k :: 0 <= k < |list| && k != p ==> list[k].id != x.id
    requires forall k :: 0 <= k < f ==> list[k].fame > x.fame
    requires list[p].id == x.id || p == |list| - 1
    ensures Proper(r)
  {
  }

  lemma InsertedSorts(list: seq<Place>, r: seq<Place>, x: Place, f: nat, p: nat)
    requires Sorted(list) && IsInserted(list, r, x, f, p)
    requires list[f].fame <= x.fame && forall k :: 0 <= k < f ==> list[k].fame > x.fame
    ensures Sorted(r)
  {
  }

  lemma LoweredProper(list: seq<Place>, r: seq<Place>, x: Place, p: nat, g: nat)
    requires Proper(list) && IsLowered(list, r, x, p, g)
    requires x.id > 0 && x.fame >= 0 && list[p].id == x.id
    requires forall k :: 0 <= k < g ==> list[k].fame > x.fame
    ensures Proper(r) <==> p == g || list[g].id != 0
  {
    if p < g && list[g].id == 0 {
      assert r[g - 1] == list[g] && r[g] == x;
    }
  }

  lemma LoweredSorts(list: seq<Place>, r: seq<Place>, x: Place, p: nat, g: nat)
    requires Sorted(list) && IsLowered(list, r, x, p, g)
    requires forall k :: 0 <= k < g ==> list[k].fame > x.fame
    requires g == |list| - 1 || list[g].fame <= x.fame
    ensures Sorted(r) <==> p == g || list[g].fame >= x.fame
  {
    if p < g && list[g].fame < x.fame {
      assert r[g - 1] == list[g] && r[g] == x;
    } else {
      forall i, j | 0 <= i < j < |r|
        ensures r[i].fame >= r[j].fame
      {
        if i == g {
          assert list[g].fame >= list[j].fame;
        }
      }
    }
  }

  // r is the list with the player put in before place k, and place q taken out: his own, or
  // the last one if he has had none. Everybody before k has more fame, and nobody after.
  ghost predicate Stands(list: seq<Place>, r: seq<Place>, id: int, fame: int, k: int, q: int)
  {
    && 0 <= k <= q < |list| && r == list[..k] + [Place(id, fame)] + list[k..q] + list[q + 1..]
    && (forall j :: 0 <= j < k ==> list[j].fame > fame) && list[k].fame <= fame
    && (list[q].id == id || (q == |list| - 1 && forall j :: 0 <= j < |list| ==> list[j].id != id))
  }

  lemma InsertedStands(list: seq<Place>, r: seq<Place>, id: int, fame: int, k: nat, q: nat)
    requires IsInserted(list, r, Place(id, fame), k, q)
    requires (forall j :: 0 <= j < k ==> list[j].fame > fame) && list[k].fame <= fame
    requires list[q].id == id || (q == |list| - 1 && forall j :: 0 <= j < |list| ==> list[j].id != id)
    ensures Stands(list, r, id, fame, k, q)
  {
    var s := list[..k] + [Place(id, fame)] + list[k..q] + list[q + 1..];
    assert |s| == |r| && forall j :: 0 <= j < |r| ==> r[j] == s[j];
  }

  lemma StaysInPlace(list: seq<Place>, id: int, fame: int)
    requires PlayerAt(list, id) == FameAt(list, fame) < |list|
    ensures var f := FameAt(list, fame);
      IsInserted(list, Report(list, id, fame), Place(id, fame), f, f)
  {
  }

  // Where a player stands whose fame does not fall: before all who have no more. If everybody
  // in the list has more, it stays as it is.
  lemma Standing(list: seq<Place>, id: int, fame: int)
    requires Proper(list) && Sorted(list) && id > 0
    requires forall i :: 0 <= i < |list| && list[i].id == id ==> list[i].fame <= fame
    ensures var r := Report(list, id, fame);
      if exists i :: 0 <= i < |list| && list[i].fame <= fame then exists k, q :: Stands(list, r, id, fame, k, q)
      else r == list
  {
    hide Stands, Moved;
    var n, p, f := |list|, PlayerAt(list, id), FameAt(list, fame);
    if f < n {
      hide Report;
      if f == p {
        StaysInPlace(list, id, fame);
      } else if p == n {
        NewRanker(list, id, fame);
      } else {
        Rises(list, id, fame);
      }
      InsertedStands(list, Report(list, id, fame), id, fame, f, if p == n then n - 1 else p);
    }
  }

  // Two players, and the first falls between the two: he ends up below the second.
  lemma FallExample(list: seq<Place>)
    requires |list| == 2 && list[0] == Place(1, 100) && list[1] == Place(2, 50)
    ensures Proper(list) && Sorted(list) && FallsPast(list, 1, 70)
    ensures var r := Report(list, 1, 70);
      r[0] == Place(2, 50) && r[1] == Place(1, 70) && !Sorted(r)
  {
    assert list[1].fame <= 70 < list[0].fame;
    assert PlayerAt(list, 1) == 0 && FameAt(list, 70) == 1;
    Falls(list, 1, 70);
  }

  // ---------- The best players ----------

  // The entry of the list for this player, if there is one.
  ghost predicate Listed(list: seq<Place>, id: int, fame: int)
  {
    exists i :: 0 <= i < |list| && list[i] == Place(id, fame)
  }

  // The list is full, of players with no less fame than this.
  ghost predicate FullAbove(list: seq<Place>, fame: int)
  {
    forall i :: 0 <= i < |list| ==> list[i].id != 0 && list[i].fame >= fame
  }

  // What every player reported last: the list has nothing else, and whoever has reported is
  // in the list, or the list is full of others who have no less fame.
  ghost predicate IsTop(list: seq<Place>, last: map<int, int>)
  {
    && (forall i :: 0 <= i < |list| && list[i].id != 0 ==> list[i].id in last && last[list[i].id] == list[i].fame)
    && forall id :: id in last ==> id > 0 && Accounted(list, last, id)
  }

  ghost predicate Accounted(list: seq<Place>, last: map<int, int>, id: int)
    requires id in last
  {
    Listed(list, id, last[id]) || FullAbove(list, last[id])
  }

  // Somebody else's entry is still there, unless it was the last one.
  lemma InsertedKeeps(list: seq<Place>, r: seq<Place>, x: Place, f: nat, p: nat, id: int, fame: int)
    requires IsInserted(list, r, x, f, p) && id != list[p].id && Listed(list, id, fame)
    ensures Listed(r, id, fame)
  {
    var i :| 0 <= i < |list| && list[i] == Place(id, fame);
    if i < f || i > p {
      assert r[i] == list[i];
    } else {
      assert r[i + 1] == list[i];
    }
  }

  lemma InsertedAbove(list: seq<Place>, r: seq<Place>, x: Place, f: nat, p: nat, fame: int)
    requires IsInserted(list, r, x, f, p) && FullAbove(list, fame) && x.id != 0 && x.fame >= list[f].fame
    ensures FullAbove(r, fame)
  {
  }

  // The entry that is pushed out had the least fame.
  lemma PushedOut(list: seq<Place>, r: seq<Place>, x: Place, f: nat, p: nat)
    requires Proper(list) && Sorted(list) && IsInserted(list, r, x, f, p) && p == |list| - 1 && x.id != 0
    requires x.fame >= list[f].fame && list[p].id != 0
    ensures FullAbove(r, list[p].fame)
  {
  }

  lemma InsertedTop(list: seq<Place>, r: seq<Place>, last: map<int, int>, x: Place, f: nat, p: nat)
    requires Proper(list) && Sorted(list) && IsTop(list, last) && IsInserted(list, r, x, f, p) && x.id > 0
    requires forall k :: 0 <= k < |list| && k != p ==> list[k].id != x.id
    requires list[f].fame <= x.fame && (list[p].id == x.id || p == |list| - 1)
    ensures IsTop(r, last[x.id := x.fame])
  {
    assert r[f] == x;
    var last' := last[x.id := x.fame];
    forall id | id in last'
      ensures Accounted(r, last', id)
    {
      assert id != x.id ==> Accounted(list, last, id);
      if id != x.id && FullAbove(list, last[id]) {
        InsertedAbove(list, r, x, f, p, last[id]);
      } else if id != x.id && id != list[p].id {
        InsertedKeeps(list, r, x, f, p, id, last[id]);
      } else if id != x.id {
        PushedOut(list, r, x, f, p);
      }
    }
    forall i | 0 <= i < |r| && r[i].id != 0
      ensures r[i].id in last' && last'[r[i].id] == r[i].fame
    {
    }
  }

  lemma SetFameTop(list: seq<Place>, last: map<int, int>, p: nat, fame: int)
    requires Proper(list) && IsTop(list, last) && p < |list| && list[p].id != 0 && list[p].fame <= fame
    ensures IsTop(list[p := list[p].(fame := fame)], last[list[p].id := fame])
  {
    var r := list[p := list[p].(fame := fame)];
    var last' := last[list[p].id := fame];
    assert r[p] == Place(list[p].id, fame);
    forall id | id in last'
      ensures Accounted(r, last', id)
    {
      assert id != list[p].id ==> Accounted(list, last, id);
      if id != list[p].id && Listed(list, id, last[id]) {
        var i :| 0 <= i < |list| && list[i] == Place(id, last[id]);
        assert r[i] == list[i];
      }
    }
  }

  // A report of no less fame than before keeps the best players in the list.
  lemma ReportKeepsTop(list: seq<Place>, last: map<int, int>, id: int, fame: int)
    requires Proper(list) && Sorted(list) && IsTop(list, last) && id > 0 && fame >= 0
    requires id in last ==> last[id] <= fame
    ensures Proper(Report(list, id, fame)) && Sorted(Report(list, id, fame))
    ensures IsTop(Report(list, id, fame), last[id := fame])
  {
    ReportSorts(list, id, fame);
    var n, p, f := |list|, PlayerAt(list, id), FameAt(list, fame);
    if p == n && f == n {
      LeftOut(list, last, id, fame);
    } else if f == p {
      SetFameTop(list, last, p, fame);
    } else if p == n {
      NewRanker(list, id, fame);
      InsertedTop(list, Report(list, id, fame), last, Place(id, fame), f, n - 1);
    } else {
      assert list[p].fame <= fame;
      Rises(list, id, fame);
      InsertedTop(list, Report(list, id, fame), last, Place(id, fame), f, p);
    }
  }

  lemma LeftOut(list: seq<Place>, last: map<int, int>, id: int, fame: int)
    requires Proper(list) && IsTop(list, last) && id > 0 && fame >= 0
    requires PlayerAt(list, id) == |list| == FameAt(list, fame)
    ensures IsTop(list, last[id := fame])
  {
    assert FullAbove(list, fame);
    var last' := last[id := fame];
    forall x | x in last'
      ensures Accounted(list, last', x)
    {
      assert x != id ==> Accounted(list, last, x);
    }
  }

  // ---------- Whole runs ----------

  datatype Result = Result(id: int, fame: int)

  function ReportAll(list: seq<Place>, rs: seq<Result>): seq<Place>
    decreases |rs|
  {
    if rs == [] then list else ReportAll(Report(list, rs[0].id, rs[0].fame), rs[1..])
  }

  function LastOf(last: map<int, int>, rs: seq<Result>): map<int, int>
    decreases |rs|
  {
    if rs == [] then last else LastOf(last[rs[0].id := rs[0].fame], rs[1..])
  }

  // Fame is not negative, and does not fall for any player.
  ghost predicate NeverFalls(last: map<int, int>, rs: seq<Result>)
    decreases |rs|
  {
    rs != [] ==>
      && rs[0].id > 0 && rs[0].fame >= 0 && (rs[0].id in last ==> last[rs[0].id] <= rs[0].fame)
      && NeverFalls(last[rs[0].id := rs[0].fame], rs[1..])
  }

  // After any such sequence of reports the list holds the best players in order.
  lemma {:induction false} BestPlayers(list: seq<Place>, last: map<int, int>, rs: seq<Result>)
    requires Proper(list) && Sorted(list) && IsTop(list, last) && NeverFalls(last, rs)
    ensures var r := ReportAll(list, rs);
      |r| == |list| && Proper(r) && Sorted(r) && IsTop(r, LastOf(last, rs))
    decreases |rs|
  {
    if rs != [] {
      ReportKeepsTop(list, last, rs[0].id, rs[0].fame);
      BestPlayers(Report(list, rs[0].id, rs[0].fame), last[rs[0].id := rs[0].fame], rs[1..]);
    }
  }

  // So it does from an empty list on, whoever is reported.
  lemma BestOfAll(n: nat, rs: seq<Result>)
    requires NeverFalls(map[], rs)
    ensures var r := ReportAll(seq(n, _ => Nobody), rs);
      |r| == n && Proper(r) && Sorted(r) && IsTop(r, LastOf(map[], rs))
  {
    var list := seq(n, _ => Nobody);
    assert Proper(list) && Sorted(list) && IsTop(list, map[]);
    BestPlayers(list, map[], rs);
  }
}
