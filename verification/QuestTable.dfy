// The table in the database, and the function that saves into it.
module QuestTable {
  import opened Quests
  import opened Shifting

  // An empty slot.
  const Blank: Quest := Quest(0, 0, seq(MAX_QUEST_OBJECTIVES, _ => 0), 0)

  class Table {
    var logs: Logs

    // The logs of all other characters are as they were.
    twostate predicate OthersKept(c: int)
      reads this
    {
      forall d :: d != c ==> LogOf(logs, d) == LogOf(old(logs), d)
    }

    // The statements. The database tells by `works` whether it carries one out.
    method QuestAdd(c: int, q: Quest, works: bool) returns (ok: bool)
      modifies this
      ensures OthersKept(c) && ok == (works && q.id !in LogOf(old(logs), c))
      ensures LogOf(logs, c) == if ok then LogOf(old(logs), c)[q.id := q] else LogOf(old(logs), c)
    {
      ok := works && q.id !in LogOf(logs, c);
      if ok {
        logs := logs[c := LogOf(logs, c)[q.id := q]];
      }
    }

    method QuestUpdate(c: int, q: Quest, works: bool) returns (ok: bool)
      modifies this
      ensures OthersKept(c) && ok == works
      ensures LogOf(logs, c) == if ok && q.id in LogOf(old(logs), c) then LogOf(old(logs), c)[q.id := q]
        else LogOf(old(logs), c)
    {
      ok := works;
      if ok && q.id in LogOf(logs, c) {
        logs := logs[c := LogOf(logs, c)[q.id := q]];
      }
    }

    method QuestDelete(c: int, id: int, works: bool) returns (ok: bool)
      modifies this
      ensures OthersKept(c) && ok == works
      ensures LogOf(logs, c) == if ok then LogOf(old(logs), c) - {id} else LogOf(old(logs), c)
    {
      ok := works;
      if ok {
        logs := logs[c := LogOf(logs, c) - {id}];
      }
    }

    // mapif_parse_quest_save. The database lists the stored quests in this order; statement
    // k works or fails as works tells.
    method Save(c: int, received: seq<Quest>, order: seq<Quest>, works: nat -> bool) returns (success: bool)
      requires Distinct(received) && Lists(order, LogOf(logs, c))
      modifies this
      ensures OthersKept(c) && Saved(LogOf(old(logs), c), LogOf(logs, c), received, order, works)
      ensures success <==> AllWork(LogOf(old(logs), c), received, order, works)
      ensures (forall k :: works(k)) ==> success
      ensures success ==> Synced(LogOf(old(logs), c), LogOf(logs, c), received)
    {
      hide Midway, IsStored, Issues, Rest, Saved, Synced, Wanted;
      ghost var was := LogOf(logs, c);
      success := true;
      var oldQd := new Quest[|order|](k requires 0 <= k < |order| => order[k]);
      var oldN: nat := |order|;
      assert oldQd[..oldN] == order;
      Begin(was, received, order, works);
      RestOfNone(order);
      assert received[..0] == [];
      var i: nat := 0;
      while i < |received|
        invariant 0 <= i <= |received| && oldN <= oldQd.Length && OthersKept(c)
        invariant oldQd[..oldN] == Rest(order, received[..i])
        invariant Midway(was, LogOf(logs, c), received, i, oldQd[..oldN], works)
        invariant success <==> forall k :: 0 <= k < i && Issues(was, received[k]) ==> works(k)
      {
        var ok;
        ok, oldN := SaveQuest(c, received, i, oldQd, oldN, order, works, was);
        success := success && ok;
        i := i + 1;
      }
      assert received[..i] == received;
      var rest := DeleteRest(c, received, oldQd, oldN, order, works, was);
      success := success && rest;
      if success {
        AllWorkSyncs(was, LogOf(logs, c), received, order, works);
      }
    }

    // Stores one received quest, and takes it off those that are left.
    method SaveQuest(c: int, received: seq<Quest>, i: nat, oldQd: array<Quest>, oldN: nat, ghost order: seq<Quest>,
                     works: nat -> bool, ghost was: map<int, Quest>)
      returns (ok: bool, n: nat)
      requires i < |received| && Distinct(received) && oldN <= oldQd.Length
      requires oldQd[..oldN] == Rest(order, received[..i])
      requires Midway(was, LogOf(logs, c), received, i, oldQd[..oldN], works)
      modifies this, oldQd
      ensures OthersKept(c) && n <= oldQd.Length && oldQd[..n] == Rest(order, received[..i + 1])
      ensures Midway(was, LogOf(logs, c), received, i + 1, oldQd[..n], works)
      ensures ok <==> (Issues(was, received[i]) ==> works(i))
    {
      ghost var left, now := oldQd[..oldN], LogOf(logs, c);
      var j := FindQuest(oldQd, oldN, received[i].id);
      if j < oldN {
        ok := SaveKnown(c, received, i, oldQd, oldN, j, works, was);
        n := oldN - 1;
        RestWithoutOne(order, received, i, j);
      } else {
        assert forall k :: 0 <= k < |left| ==> left[k] == oldQd[k];
        RestWithoutNew(order, received, i);
        NewQuest(was, now, received, i, left, works, if works(i) then now[received[i].id := received[i]] else now);
        ok := QuestAdd(c, received[i], works(i));
        n := oldN;
      }
    }

    // The quest is number j of those left.
    method SaveKnown(c: int, received: seq<Quest>, i: nat, oldQd: array<Quest>, oldN: nat, j: nat,
                     works: nat -> bool, ghost was: map<int, Quest>)
      returns (ok: bool)
      requires i < |received| && Distinct(received) && j < oldN <= oldQd.Length && oldQd[j].id == received[i].id
      requires Midway(was, LogOf(logs, c), received, i, oldQd[..oldN], works)
      modifies this, oldQd
      ensures OthersKept(c) && oldQd[..oldN - 1] == old(oldQd[..oldN][..j] + oldQd[..oldN][j + 1..])
      ensures Midway(was, LogOf(logs, c), received, i + 1, oldQd[..oldN - 1], works)
      ensures ok <==> (Issues(was, received[i]) ==> works(i))
    {
      hide Midway, IsStored, Issues, Distinct;
      ghost var left, now := oldQd[..oldN], LogOf(logs, c);
      KnownQuest(was, now, received, i, left, j, works,
                 if !SameProgress(left[j], received[i]) && works(i) then now[received[i].id := received[i]] else now);
      ok := UpdateQuest(c, received[i], oldQd[j], works(i));
      Compact(oldQd, j, oldN);
      assert oldQd[..oldN - 1] == left[..j] + left[j + 1..];
    }

    // Updates a quest whose state or counts have changed.
    method UpdateQuest(c: int, q: Quest, p: Quest, works: bool) returns (ok: bool)
      modifies this
      ensures OthersKept(c) && ok == (SameProgress(p, q) || works)
      ensures LogOf(logs, c) == if ok && !SameProgress(p, q) && q.id in LogOf(old(logs), c)
        then LogOf(old(logs), c)[q.id := q] else LogOf(old(logs), c)
    {
      ok := true;
      var k := 0;
      while k < |q.count| && k < |p.count| && q.count[k] == p.count[k]
        invariant 0 <= k <= |q.count| && k <= |p.count| && q.count[..k] == p.count[..k]
      {
        k := k + 1;
      }
      assert k == |q.count| == |p.count| ==> q.count[..k] == q.count && p.count[..k] == p.count;
      if k != |q.count| || k != |p.count| || q.state != p.state {
        ok := QuestUpdate(c, q, works);
      }
    }

    // Deletes the quests that were not received.
    method DeleteRest(c: int, received: seq<Quest>, oldQd: array<Quest>, oldN: nat, ghost order: seq<Quest>,
                      works: nat -> bool, ghost was: map<int, Quest>)
      returns (success: bool)
      requires oldN <= oldQd.Length && oldQd[..oldN] == Rest(order, received)
      requires Midway(was, LogOf(logs, c), received, |received|, oldQd[..oldN], works)
      modifies this
      ensures OthersKept(c) && Saved(was, LogOf(logs, c), received, order, works)
      ensures success <==> forall k :: 0 <= k < |Rest(order, received)| ==> DeletionWorks(works, received, k)
    {
      hide Midway, Rest, Saved, Deleted;
      success := true;
      ghost var now, left := LogOf(logs, c), oldQd[..oldN];
      var i := 0;
      NoneDeleted(left, received, works);
      assert now - {} == now;
      while i < oldN
        invariant 0 <= i <= oldN && OthersKept(c)
        invariant success <==> forall k :: 0 <= k < i ==> DeletionWorks(works, received, k)
        invariant LogOf(logs, c) == now - Deleted(left, received, works, i)
      {
        DeletedOne(left, received, works, i);
        var ok := QuestDelete(c, oldQd[i].id, works(|received| + i));
        success := success && ok;
        i := i + 1;
      }
      End(was, now, received, order, works, LogOf(logs, c));
    }
  }

  // The position of a quest among the first n, or n.
  method FindQuest(qs: array<Quest>, n: nat, id: int) returns (j: nat)
    requires n <= qs.Length
    ensures j <= n && (j < n ==> qs[j].id == id) && forall k :: 0 <= k < j ==> qs[k].id != id
  {
    j := 0;
    while j < n && qs[j].id != id
      invariant j <= n && forall k :: 0 <= k < j ==> qs[k].id != id
    {
      j := j + 1;
    }
  }

  // Takes element j out of the first n, moves the rest together, and blanks the last.
  method Compact(qs: array<Quest>, j: nat, n: nat)
    requires j < n <= qs.Length
    modifies qs
    ensures qs[..n - 1] == old(qs[..j] + qs[j + 1..n])
  {
    ghost var s := qs[..];
    if j < n - 1 {
      ShiftDown(qs, j, n - 1);
      qs[n - 1] := Blank;
    }
    Taken(s, qs[..], j, n);
  }

  lemma Taken(s: seq<Quest>, t: seq<Quest>, j: nat, n: nat)
    requires j < n <= |s| == |t|
    requires forall x :: 0 <= x < n - 1 ==> t[x] == s[if x < j then x else x + 1]
    ensures t[..n - 1] == s[..j] + s[j + 1..n]
  {
    var r := s[..j] + s[j + 1..n];
    assert forall x :: 0 <= x < n - 1 ==> t[..n - 1][x] == r[x];
  }
}
