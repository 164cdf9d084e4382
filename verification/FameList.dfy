// The list in memory.
module FameList {
  import opened Ranking
  import opened Shifting

  // ARR_MOVE: takes an element out and moves those between over by one.
  method ArrMove(from: nat, to_: nat, list: array<Place>)
    requires from < list.Length && to_ < list.Length
    modifies list
    ensures list[..] == Moved(old(list[..]), from, to_)
  {
    if from != to_ {
      ghost var s := list[..];
      var backup := list[from];
      if from < to_ {
        ShiftDown(list, from, to_);
      } else {
        ShiftUp(list, from, to_);
      }
      list[to_] := backup;
    }
  }

  method FindPlayer(list: array<Place>, id: int) returns (p: nat)
    ensures p == PlayerAt(list[..], id)
  {
    p := 0;
    while p < list.Length && list[p].id != id
      invariant p <= list.Length && forall k :: 0 <= k < p ==> list[k].id != id
    {
      p := p + 1;
    }
  }

  method FindFame(list: array<Place>, fame: int) returns (f: nat)
    ensures f == FameAt(list[..], fame)
  {
    f := 0;
    while f < list.Length && list[f].fame > fame
      invariant f <= list.Length && forall k :: 0 <= k < f ==> list[k].fame > fame
    {
      f := f + 1;
    }
  }

  // char_parse_frommap_fame_list
  method ParseFameList(list: array<Place>, id: int, fame: int)
    modifies list
    ensures list[..] == Report(old(list[..]), id, fame)
  {
    var size := list.Length;
    var playerPos := FindPlayer(list, id);
    var famePos := FindFame(list, fame);
    if playerPos == size && famePos == size {
    } else if famePos == playerPos {
      list[playerPos] := list[playerPos].(fame := fame);
    } else if playerPos == size {
      ArrMove(size - 1, famePos, list);
      list[famePos] := Place(id, fame);
    } else {
      if famePos == size {
        famePos := famePos - 1;
      }
      ArrMove(playerPos, famePos, list);
      list[famePos] := list[famePos].(fame := fame);
    }
  }

  // Any sequence of reports.
  method ParseReports(list: array<Place>, rs: seq<Result>, ghost last: map<int, int>)
    requires Proper(list[..]) && Sorted(list[..]) && IsTop(list[..], last) && NeverFalls(last, rs)
    modifies list
    ensures Proper(list[..]) && Sorted(list[..]) && IsTop(list[..], LastOf(last, rs))
  {
    BestPlayers(list[..], last, rs);
    var i := 0;
    assert rs[0..] == rs;
    while i < |rs|
      invariant i <= |rs| && ReportAll(list[..], rs[i..]) == ReportAll(old(list[..]), rs)
    {
      assert rs[i..][0] == rs[i] && rs[i..][1..] == rs[i + 1..];
      ParseFameList(list, rs[i].id, rs[i].fame);
      i := i + 1;
    }
  }
}
