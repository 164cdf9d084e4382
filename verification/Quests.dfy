// Saving a quest log: the stored quests of a character are made to agree with the received
// ones, with statements for those that differ only.
module Quests {

  const MAX_QUEST_OBJECTIVES := 3

  datatype Quest = Quest(id: int, time: int, count: seq<int>, state: int)

  // The stored quests of each character.
  type Logs = map<int, map<int, Quest>>

  function LogOf(logs: Logs, c: int): map<int, Quest>
  {
    if c in logs then logs[c] else map[]
  }

  predicate SameProgress(q: Quest, p: Quest)
  {
    q.count == p.count && q.state == p.state
  }

  // What is to be stored for a received quest: an update is left out if state and counts
  // agree, so that the old time stays then.
  function Wanted(was: map<int, Quest>, q: Quest): Quest
  {
    if q.id in was && SameProgress(was[q.id], q) then was[q.id] else q
  }

  ghost predicate Distinct(qs: seq<Quest>)
  {
    forall i, j :: 0 <= i < j < |qs| ==> qs[i].id != qs[j].id
  }

  function Ids(qs: seq<Quest>): set<int>
  {
    set k | 0 <= k < |qs| :: qs[k].id
  }

  // The quests of a log, in some order.
  ghost predicate Lists(qs: seq<Quest>, log: map<int, Quest>)
  {
    && Distinct(qs) && Ids(qs) == log.Keys
    && forall k :: 0 <= k < |qs| ==> qs[k].id in log && log[qs[k].id] == qs[k]
  }

  // Saving a received quest needs a statement: it is new, or has made progress.
  predicate Issues(was: map<int, Quest>, q: Quest)
  {
    q.id !in was || !SameProgress(was[q.id], q)
  }

  // What is stored for a received quest: what was stored before, if there is no statement or
  // it fails, and the quest itself otherwise.
  predicate IsStored(was: map<int, Quest>, now: map<int, Quest>, q: Quest, works: bool)
  {
    if Issues(was, q) && works then q.id in now && now[q.id] == q
    else (q.id in now <==> q.id in was) && (q.id in was ==> now[q.id] == was[q.id])
  }

  // The first n received quests have been dealt with, the quests `left` are as they were, and
  // nothing else is stored.
  ghost predicate Midway(was: map<int, Quest>, now: map<int, Quest>, received: seq<Quest>, n: nat, left: seq<Quest>,
                         works: nat -> bool)
    requires n <= |received|
  {
    && Distinct(left) && Ids(left) == was.Keys - Ids(received[..n])
    && now.Keys <= Ids(received[..n]) + Ids(left)
    && (forall k :: 0 <= k < |left| ==> left[k].id in was && was[left[k].id] == left[k] && left[k].id in now
                                        && now[left[k].id] == left[k])
    && forall k :: 0 <= k < n ==> IsStored(was, now, received[k], works(k))
  }

  // The stored quests that were not received, in the order of the database.
  function Rest(order: seq<Quest>, received: seq<Quest>): seq<Quest>
  {
    if order == [] then []
    else
      var n := |order| - 1;
      Rest(order[..n], received) + if order[n].id in Ids(received) then [] else [order[n]]
  }

  // The statement that deletes number k of the rest; those for the received quests come first.
  predicate DeletionWorks(works: nat -> bool, received: seq<Quest>, k: nat)
  {
    works(|received| + k)
  }

  // What the log is afterwards: the received quests are stored as far as their statements
  // work, the rest is deleted likewise, and there is nothing else.
  ghost predicate Saved(was: map<int, Quest>, now: map<int, Quest>, received: seq<Quest>, order: seq<Quest>,
                        works: nat -> bool)
  {
    && (forall k :: 0 <= k < |received| ==> IsStored(was, now, received[k], works(k)))
    && (forall k :: 0 <= k < |Rest(order, received)| ==>
          var q := Rest(order, received)[k];
          if DeletionWorks(works, received, k) then q.id !in now else q.id in now && now[q.id] == q)
    && now.Keys <= Ids(received) + Ids(Rest(order, received))
  }

  // All statements that are issued work.
  ghost predicate AllWork(was: map<int, Quest>, received: seq<Quest>, order: seq<Quest>, works: nat -> bool)
  {
    && (forall k :: 0 <= k < |received| && Issues(was, received[k]) ==> works(k))
    && forall k :: 0 <= k < |Rest(order, received)| ==> DeletionWorks(works, received, k)
  }

  // Then the log is the received one.
  lemma AllWorkSyncs(was: map<int, Quest>, now: map<int, Quest>, received: seq<Quest>, order: seq<Quest>,
                     works: nat -> bool)
    requires Saved(was, now, received, order, works) && AllWork(was, received, order, works)
    ensures Synced(was, now, received)
  {
    var rest := Rest(order, received);
    forall k | 0 <= k < |rest|
      ensures rest[k].id !in now
    {
      assert DeletionWorks(works, received, k);
    }
    assert forall id :: id in Ids(rest) ==> id !in now;
    forall k | 0 <= k < |received|
      ensures received[k].id in now
    {
      assert IsStored(was, now, received[k], works(k));
    }
    forall k | 0 <= k < |received|
      ensures received[k].id in now && now[received[k].id] == Wanted(was, received[k])
    {
      assert IsStored(was, now, received[k], works(k));
    }
  }

  // The stored log is the received one, up to the times of quests without progress.
  ghost predicate Synced(was: map<int, Quest>, now: map<int, Quest>, received: seq<Quest>)
  {
    && now.Keys == Ids(received)
    && forall k :: 0 <= k < |received| ==> received[k].id in now && now[received[k].id] == Wanted(was, received[k])
  }

  // What that says about a single quest: it is stored as received, unless one with the same
  // state and counts is stored already, which then keeps its time.
  lemma SyncedQuest(was: map<int, Quest>, now: map<int, Quest>, received: seq<Quest>, k: nat)
    requires Synced(was, now, received) && k < |received|
    requires forall id :: id in was ==> was[id].id == id
    ensures var q := received[k];
      && q.id in now && now[q.id].id == q.id && now[q.id].count == q.count && now[q.id].state == q.state
      && now[q.id].time ==
           if q.id in was && was[q.id].count == q.count && was[q.id].state == q.state then was[q.id].time else q.time
  {
  }

  // Only the time may change without a statement.
  lemma OnlyTimeIsFree(was: map<int, Quest>, q: Quest)
    requires forall id :: id in was ==> was[id].id == id
    ensures !Issues(was, q) <==> exists t :: q.id in was && was[q.id] == Quest(q.id, t, q.count, q.state)
  {
    if q.id in was && SameProgress(was[q.id], q) {
      assert was[q.id] == Quest(q.id, was[q.id].time, q.count, q.state);
    }
  }

  lemma IdsOfPrefix(qs: seq<Quest>, n: nat)
    requires n < |qs|
    ensures Ids(qs[..n + 1]) == Ids(qs[..n]) + {qs[n].id}
    ensures Distinct(qs) ==> qs[n].id !in Ids(qs[..n])
  {
    var p := qs[..n + 1];
    assert forall k :: 0 <= k < n ==> p[k] == qs[..n][k];
    assert p[n].id in Ids(p);
    forall x | x in Ids(qs[..n])
      ensures x in Ids(p)
    {
      var k :| 0 <= k < n && qs[..n][k].id == x;
      assert p[k].id == x;
    }
  }

  lemma IdsWithout(qs: seq<Quest>, j: nat)
    requires j < |qs| && Distinct(qs)
    ensures Distinct(qs[..j] + qs[j + 1..]) && Ids(qs[..j] + qs[j + 1..]) == Ids(qs) - {qs[j].id}
  {
    var r := qs[..j] + qs[j + 1..];
    assert forall k :: 0 <= k < |r| ==> r[k] == qs[if k < j then k else k + 1];
    forall x | x in Ids(qs) && x != qs[j].id
      ensures x in Ids(r)
    {
      var k :| 0 <= k < |qs| && qs[k].id == x;
      assert r[if k < j then k else k - 1].id == x;
    }
  }

  lemma Begin(was: map<int, Quest>, received: seq<Quest>, left: seq<Quest>, works: nat -> bool)
    requires Lists(left, was)
    ensures Midway(was, was, received, 0, left, works)
  {
    assert Ids(received[..0]) == {};
  }

  // The next received quest is stored already, as number j of those left.
  lemma KnownQuest(was: map<int, Quest>, now: map<int, Quest>, received: seq<Quest>, n: nat, left: seq<Quest>, j: nat,
                   works: nat -> bool, now': map<int, Quest>)
    requires n < |received| && Distinct(received) && Midway(was, now, received, n, left, works)
    requires j < |left| && left[j].id == received[n].id
    requires now' == if !SameProgress(left[j], received[n]) && works(n) then now[received[n].id := received[n]] else now
    ensures Midway(was, now', received, n + 1, left[..j] + left[j + 1..], works)
    ensures received[n].id in now && (Issues(was, received[n]) <==> !SameProgress(left[j], received[n]))
  {
    IdsOfPrefix(received, n);
    IdsWithout(left, j);
    hide Ids, Distinct, SameProgress;
    var rest := left[..j] + left[j + 1..];
    assert forall k :: 0 <= k < |rest| ==> rest[k] == left[if k < j then k else k + 1];
    RestHasOther(received, left, n, j);
    forall k | 0 <= k < n
      ensures IsStored(was, now', received[k], works(k))
    {
      assert IsStored(was, now, received[k], works(k)) && received[k].id != received[n].id;
    }
  }

  // Other quests have other ids.
  lemma RestHasOther(received: seq<Quest>, left: seq<Quest>, n: nat, j: nat)
    requires n < |received| && Distinct(received) && Distinct(left) && j < |left|
    ensures forall k :: 0 <= k < n ==> received[k].id != received[n].id && received[k].id in Ids(received[..n])
    ensures forall k :: 0 <= k < |left| && k != j ==> left[k].id != left[j].id
  {
    assert forall k :: 0 <= k < n ==> received[..n][k] == received[k];
  }

  // The next received quest is new.
  lemma NewQuest(was: map<int, Quest>, now: map<int, Quest>, received: seq<Quest>, n: nat, left: seq<Quest>,
                 works: nat -> bool, now': map<int, Quest>)
    requires n < |received| && Distinct(received) && Midway(was, now, received, n, left, works)
    requires forall k :: 0 <= k < |left| ==> left[k].id != received[n].id
    requires now' == if works(n) then now[received[n].id := received[n]] else now
    ensures received[n].id !in now && Issues(was, received[n])
    ensures Midway(was, now', received, n + 1, left, works)
  {
    IdsOfPrefix(received, n);
    assert received[n].id !in Ids(left);
    assert forall k :: 0 <= k < n ==> received[k].id in Ids(received[..n]) by {
      assert forall k :: 0 <= k < n ==> received[..n][k] == received[k];
    }
    forall k | 0 <= k < n
      ensures IsStored(was, now', received[k], works(k))
    {
      assert IsStored(was, now, received[k], works(k)) && received[k].id != received[n].id;
    }
  }

  // ---------- The quests that are left ----------

  lemma {:induction false} RestOfNone(order: seq<Quest>)
    ensures Rest(order, []) == order
  {
    if order != [] {
      RestOfNone(order[..|order| - 1]);
    }
  }

  lemma {:induction false} RestIsIn(order: seq<Quest>, received: seq<Quest>)
    ensures forall q :: q in Rest(order, received) <==> q in order && q.id !in Ids(received)
  {
    if order != [] {
      var n := |order| - 1;
      RestIsIn(order[..n], received);
      assert forall q :: q in order <==> q in order[..n] || q == order[n];
    }
  }

  lemma IdsOfOne(received: seq<Quest>, n: nat, id: int)
    requires n < |received|
    ensures id in Ids(received[..n + 1]) <==> id in Ids(received[..n]) || id == received[n].id
  {
    IdsOfPrefix(received, n);
  }

  // A quest that is not among those left changes nothing; ...
  lemma {:induction false} RestWithoutNew(order: seq<Quest>, received: seq<Quest>, n: nat)
    requires n < |received| && forall q :: q in Rest(order, received[..n]) ==> q.id != received[n].id
    ensures Rest(order, received[..n + 1]) == Rest(order, received[..n])
    decreases order
  {
    if order != [] {
      var m := |order| - 1;
      IdsOfOne(received, n, order[m].id);
      RestWithoutNew(order[..m], received, n);
    }
  }

  // ... one that is comes off.
  lemma {:induction false} RestWithoutOne(order: seq<Quest>, received: seq<Quest>, n: nat, j: nat)
    requires n < |received| && Distinct(Rest(order, received[..n]))
    requires j < |Rest(order, received[..n])| && Rest(order, received[..n])[j].id == received[n].id
    ensures var left := Rest(order, received[..n]);
      Rest(order, received[..n + 1]) == left[..j] + left[j + 1..]
    decreases order
  {
    var left := Rest(order, received[..n]);
    var m := |order| - 1;
    var head := Rest(order[..m], received[..n]);
    IdsOfOne(received, n, order[m].id);
    if order[m].id in Ids(received[..n]) {
      assert left == head;
      RestWithoutOne(order[..m], received, n, j);
    } else {
      assert left == head + [order[m]];
      hide Ids;
      if j == |head| {
        LastOne(head, order[m]);
        RestWithoutNew(order[..m], received, n);
      } else {
        EarlierOne(head, order[m], j);
        assert head[j] == left[j];
        RestWithoutOne(order[..m], received, n, j);
      }
    }
  }

  lemma LastOne(head: seq<Quest>, q: Quest)
    requires Distinct(head + [q])
    ensures forall p :: p in head ==> p.id != q.id
    ensures var left := head + [q]; left[..|head|] + left[|head| + 1..] == head
  {
    var left := head + [q];
    forall p | p in head
      ensures p.id != q.id
    {
      var k :| 0 <= k < |head| && head[k] == p;
      assert left[k] == p && left[|head|] == q;
    }
  }

  lemma EarlierOne(head: seq<Quest>, q: Quest, j: nat)
    requires Distinct(head + [q]) && j < |head|
    ensures Distinct(head) && head[j].id != q.id
    ensures var left := head + [q]; left[..j] + left[j + 1..] == (head[..j] + head[j + 1..]) + [q]
  {
    var left := head + [q];
    assert forall k :: 0 <= k < |head| ==> left[k] == head[k];
    assert left[|head|] == q;
  }

  // The ids among the first n quests left whose deletions work.
  function Deleted(left: seq<Quest>, received: seq<Quest>, works: nat -> bool, n: nat): set<int>
    requires n <= |left|
  {
    set k | 0 <= k < n && DeletionWorks(works, received, k) :: left[k].id
  }

  lemma NoneDeleted(left: seq<Quest>, received: seq<Quest>, works: nat -> bool)
    ensures Deleted(left, received, works, 0) == {}
  {
  }

  lemma DeletedOne(left: seq<Quest>, received: seq<Quest>, works: nat -> bool, n: nat)
    requires n < |left|
    ensures Deleted(left, received, works, n + 1)
         == Deleted(left, received, works, n) + if DeletionWorks(works, received, n) then {left[n].id} else {}
  {
    var more := Deleted(left, received, works, n + 1);
    if DeletionWorks(works, received, n) {
      assert left[n].id in more;
    }
  }

  // Without the quests that are left over, as far as their deletions work, all is saved.
  lemma End(was: map<int, Quest>, now: map<int, Quest>, received: seq<Quest>, order: seq<Quest>, works: nat -> bool,
            now': map<int, Quest>)
    requires Midway(was, now, received, |received|, Rest(order, received), works)
    requires now' == now - Deleted(Rest(order, received), received, works, |Rest(order, received)|)
    ensures Saved(was, now', received, order, works)
  {
    hide Rest;
    var left := Rest(order, received);
    assert received[..|received|] == received;
    forall k | 0 <= k < |received|
      ensures IsStored(was, now', received[k], works(k))
    {
      assert IsStored(was, now, received[k], works(k)) && received[k].id in Ids(received);
      assert received[k].id !in Ids(left);
    }
    forall k | 0 <= k < |left|
      ensures if DeletionWorks(works, received, k) then left[k].id !in now'
        else left[k].id in now' && now'[left[k].id] == left[k]
    {
      assert left[k].id in now && now[left[k].id] == left[k];
    }
  }
}
