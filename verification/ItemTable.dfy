// The table in the database, and the function that saves into it.
module ItemTable {
  import opened ItemRows

  class Table {
    var rows: map<int, Row>
    var nextId: int
    const hasFavorite: bool

    ghost predicate Valid()
      reads this
    {
      forall id :: id in rows ==>
        id < nextId && |rows[id].item.cards| == MAX_SLOTS && (!hasFavorite ==> rows[id].item.favorite == 0)
    }

    // The statements. The database tells by `works` whether it carries one out.
    method Update(id: int, x: Item, works: bool) returns (ok: bool)
      requires Valid() && id in rows && |x.cards| == MAX_SLOTS
      modifies this`rows
      ensures Valid() && ok == works
      ensures rows == if ok then old(rows)[id := Row(old(rows)[id].owner, Updated(old(rows)[id].item, x, hasFavorite))]
        else old(rows)
    {
      ok := works;
      if ok {
        rows := rows[id := Row(rows[id].owner, Updated(rows[id].item, x, hasFavorite))];
      }
    }

    method Delete(id: int, works: bool) returns (ok: bool)
      requires Valid()
      modifies this`rows
      ensures Valid() && ok == works && rows == if ok then old(rows) - {id} else old(rows)
    {
      ok := works;
      if ok {
        rows := rows - {id};
      }
    }

    // One row of an INSERT.
    method InsertRow(owner: int, x: Item)
      requires Valid() && |x.cards| == MAX_SLOTS
      modifies this
      ensures Valid() && old(nextId) !in old(rows)
      ensures rows == old(rows)[old(nextId) := Row(owner, Persisted(x, hasFavorite))] && nextId == old(nextId) + 1
    {
      rows := rows[nextId := Row(owner, Persisted(x, hasFavorite))];
      nextId := nextId + 1;
    }

    // The first item that is there, is not taken yet, and is like the row.
    method FindAlike(items: seq<Item>, flag: array<bool>, item: Item) returns (i: nat)
      requires ProperItems(items) && flag.Length == |items| && |item.cards| == MAX_SLOTS
      ensures i == FirstAlike(items, flag[..], item, 0)
    {
      i := 0;
      while i < |items| && !(items[i].nameid != 0 && !flag[i] && Alike(items[i], item))
        invariant i <= |items| && FirstAlike(items, flag[..], item, i) == FirstAlike(items, flag[..], item, 0)
      {
        i := i + 1;
      }
    }

    // Deals with one row of the result.
    method SaveRow(items: seq<Item>, flag: array<bool>, owner: int, order: seq<int>, r: nat, works: nat -> bool,
                   ghost was: map<int, Row>) returns (ok: bool)
      requires Valid() && Saving(was, owner, order, items) && ProperMarks(items, flag[..])
      requires r < |order| && Walking(was, rows, owner, order, r)
      requires flag[..] == MarksAfter(was, owner, order, items, r)
      modifies this`rows, flag
      ensures Valid() && ProperMarks(items, flag[..]) && Walking(was, rows, owner, order, r + 1)
      ensures flag[..] == MarksAfter(was, owner, order, items, r + 1)
      ensures ok <==> (Issues(was, owner, order, items, hasFavorite, r) ==> works(r))
      ensures RowIs(was, rows, owner, order, items, hasFavorite, works, r)
      ensures forall id :: id != order[r] ==> SameAt(old(rows), rows, id)
      ensures ok && Matched(old(rows), owner, order, r, items, old(flag[..]), hasFavorite) ==>
        Matched(rows, owner, order, r + 1, items, flag[..], hasFavorite)
    {
      hide Matched, Done, Stored, Marked, Walking, Alike;
      WalkingIs(was, rows, owner, order, r);
      var id := order[r];
      var item := rows[id].item;
      SkipRow(was, rows, owner, order, r);
      var i := FindAlike(items, flag, item);
      if i < |items| {
        RowSaved(was, rows, owner, order, r, items, flag[..], i, hasFavorite);
        ok := MakeEqual(id, items[i], works(r));
        ghost var marks := flag[..];
        flag[i] := true;
        assert flag[..] == marks[i := true];
      } else {
        RowDropped(was, rows, owner, order, r, items, flag[..], hasFavorite);
        ok := Delete(id, works(r));
      }
      WalkingIs(was, rows, owner, order, r + 1);
    }

    // Updates a row, unless it has all columns of the item already.
    method MakeEqual(id: int, x: Item, works: bool) returns (ok: bool)
      requires Valid() && id in rows && |x.cards| == MAX_SLOTS && Alike(x, rows[id].item)
      modifies this`rows
      ensures Valid() && ok == (SameColumns(x, old(rows)[id].item, hasFavorite) || works)
      ensures rows == if ok then old(rows)[id := Row(old(rows)[id].owner, Persisted(x, hasFavorite))] else old(rows)
    {
      ok := true;
      AlikeUpdated(x, rows[id].item, hasFavorite);
      if !SameColumns(x, rows[id].item, hasFavorite) {
        ok := Update(id, x, works);
      } else {
        assert rows[id].item == Persisted(x, hasFavorite);
      }
    }

    // All rows that there were are as they were, and all others are new.
    ghost predicate KeepsOld(before: map<int, Row>, next: int)
      reads this
    {
      forall id :: id < next ==> SameAt(before, rows, id)
    }

    // The multi-row INSERT of the items that no row was found for.
    method InsertRest(items: seq<Item>, flag: array<bool>, owner: int, works: bool, ghost was: map<int, Row>)
      returns (ok: bool)
      requires Valid() && ProperItems(items) && ProperMarks(items, flag[..]) && OthersKept(was, rows, owner)
      modifies this
      ensures Valid() && OthersKept(was, rows, owner) && KeepsOld(old(rows), old(nextId))
      ensures ok <==> (HasUnmarked(items, flag[..]) ==> works)
      ensures !ok ==> rows == old(rows)
      ensures ok && Stored(old(rows), owner) == Marked(items, flag[..], hasFavorite) ==>
        Stored(rows, owner) == Present(items, hasFavorite)
    {
      var i, found := 0, false;
      while i < |items| && !found
        invariant 0 <= i <= |items| && (!found ==> forall k :: 0 <= k < i ==> flag[k] == (items[k].nameid != 0))
        invariant found ==> HasUnmarked(items, flag[..])
      {
        assert flag[..][i] == flag[i];
        found := items[i].nameid != 0 && !flag[i];
        i := i + 1;
      }
      ok := !found || works;
      if found && works {
        InsertAll(items, flag, owner, was);
      } else if !found {
        AllMarked(items, flag[..], hasFavorite);
      }
    }

    method InsertAll(items: seq<Item>, flag: array<bool>, owner: int, ghost was: map<int, Row>)
      requires Valid() && ProperItems(items) && ProperMarks(items, flag[..]) && OthersKept(was, rows, owner)
      modifies this
      ensures Valid() && OthersKept(was, rows, owner) && KeepsOld(old(rows), old(nextId))
      ensures Stored(old(rows), owner) == Marked(items, flag[..], hasFavorite) ==>
        Stored(rows, owner) == Present(items, hasFavorite)
    {
      hide Stored, Marked, Present, OthersKept;
      var i := 0;
      ghost var marks := flag[..];
      while i < |items|
        invariant 0 <= i <= |items| && Valid() && ProperMarks(items, marks) && OthersKept(was, rows, owner)
        invariant old(nextId) <= nextId && KeepsOld(old(rows), old(nextId))
        invariant forall k :: 0 <= k < |items| ==> marks[k] == if k < i then items[k].nameid != 0 else flag[k]
        invariant Stored(old(rows), owner) == Marked(items, flag[..], hasFavorite) ==>
          Stored(rows, owner) == Marked(items, marks, hasFavorite)
      {
        if items[i].nameid != 0 && !flag[i] {
          ghost var before := rows;
          RowInserted(was, rows, owner, nextId, items, marks, i, hasFavorite);
          InsertRow(owner, items[i]);
          marks := marks[i := true];
          assert KeepsOld(old(rows), old(nextId)) by {
            forall id | id < old(nextId)
              ensures SameAt(old(rows), rows, id)
            {
              assert SameAt(old(rows), before, id);
            }
          }
        }
        i := i + 1;
      }
      AllMarked(items, marks, hasFavorite);
    }

    // char_memitemdata_to_sql. The query works if selected, and statement k as works tells;
    // returns how many failed.
    method Save(items: seq<Item>, owner: int, order: seq<int>, selected: bool, works: nat -> bool)
      returns (errors: nat)
      requires Valid() && ProperItems(items) && IsResult(rows, owner, order)
      modifies this
      ensures Valid() && OthersKept(old(rows), rows, owner) && Saving(old(rows), owner, order, items)
      ensures !selected ==> errors == 1 && rows == old(rows)
      ensures selected ==> errors == AllFailures(old(rows), owner, order, items, hasFavorite, works)
      ensures selected && (forall k :: works(k)) ==> errors == 0
      ensures errors == 0 ==> Stored(rows, owner) == Present(items, hasFavorite)
      ensures selected ==>
        forall r :: 0 <= r < |order| ==> RowIs(old(rows), rows, owner, order, items, hasFavorite, works, r)
    {
      if !selected {
        return 1;
      }
      ghost var was := rows;
      var flag := new bool[|items|](_ => false);
      assert flag[..] == MarksAfter(was, owner, order, items, 0);
      assert forall id :: id in was ==> id < nextId;
      hide Stored, Present, Marked, Failures, Issues, Match, MarksAfter, RowIs, OthersKept, Walking, Matched;
      hide HasUnmarked, SameAt;
      MatchedAtFirst(rows, owner, order, items, flag[..], hasFavorite);
      errors := SaveRows(items, flag, owner, order, works);
      ghost var then_, next := rows, nextId;
      var ok := InsertRest(items, flag, owner, works(|order|), was);
      if !ok {
        errors := errors + 1;
      }
      NoFailures(was, owner, order, items, hasFavorite, works, |order|);
      forall r | 0 <= r < |order|
        ensures RowIs(was, rows, owner, order, items, hasFavorite, works, r)
      {
        InResult(was, owner, order, items, r);
        RowIsKept(was, then_, rows, owner, order, items, hasFavorite, works, r);
      }
    }

    // The walk over the result of the query.
    method SaveRows(items: seq<Item>, flag: array<bool>, owner: int, order: seq<int>, works: nat -> bool)
      returns (errors: nat)
      requires Valid() && Saving(rows, owner, order, items) && ProperMarks(items, flag[..])
      requires Walking(rows, rows, owner, order, 0) && Matched(rows, owner, order, 0, items, flag[..], hasFavorite)
      requires flag[..] == MarksAfter(rows, owner, order, items, 0)
      modifies this`rows, flag
      ensures Valid() && ProperMarks(items, flag[..]) && OthersKept(old(rows), rows, owner)
      ensures flag[..] == MarksAfter(old(rows), owner, order, items, |order|)
      ensures errors == Failures(old(rows), owner, order, items, hasFavorite, works, |order|)
      ensures forall r :: 0 <= r < |order| ==> RowIs(old(rows), rows, owner, order, items, hasFavorite, works, r)
      ensures errors == 0 ==> Stored(rows, owner) == Marked(items, flag[..], hasFavorite)
    {
      hide Stored, Marked, Issues, Match, RowIs, OthersKept, Walking, Matched;
      ghost var was := rows;
      errors := 0;
      var r := 0;
      while r < |order|
        invariant 0 <= r <= |order| && Valid() && ProperMarks(items, flag[..])
        invariant Walking(was, rows, owner, order, r) && flag[..] == MarksAfter(was, owner, order, items, r)
        invariant errors == Failures(was, owner, order, items, hasFavorite, works, r)
        invariant forall k :: 0 <= k < r ==> RowIs(was, rows, owner, order, items, hasFavorite, works, k)
        invariant errors == 0 ==> Matched(rows, owner, order, r, items, flag[..], hasFavorite)
      {
        ghost var before := rows;
        var ok := SaveRow(items, flag, owner, order, r, works, was);
        forall k | 0 <= k < r
          ensures RowIs(was, rows, owner, order, items, hasFavorite, works, k)
        {
          assert order[k] != order[r];
          RowIsKept(was, before, rows, owner, order, items, hasFavorite, works, k);
        }
        if !ok {
          errors := errors + 1;
        }
        r := r + 1;
      }
      WalkOver(was, rows, owner, order);
      if errors == 0 {
        MatchedAtLast(rows, owner, order, items, flag[..], hasFavorite);
      }
    }
  }
}
