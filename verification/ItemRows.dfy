// Saving a list of items: the rows of one owner in an item table are made to agree with the
// list, row by row, with as few statements as a greedy matching allows.
module ItemRows {
  import opened Sealing
  import opened Sets

  const MAX_SLOTS := 4

  // An item with all columns that are saved. The favorite mark is saved for inventories
  // only, and is 0 elsewhere.
  datatype Item = Item(nameid: int, unique: int, amount: int, equip: int, identify: int, refine: int,
                       attribute: int, expire: int, bound: int, cards: seq<int>, favorite: int)

  datatype Row = Row(owner: int, item: Item)

  // What a table keeps of an item.
  function Persisted(x: Item, hasFavorite: bool): Item
  {
    if hasFavorite then x else x.(favorite := 0)
  }

  // The test by which a row is taken for an item: card 1 is not looked at.
  predicate Alike(x: Item, y: Item)
    requires |x.cards| == |y.cards| == MAX_SLOTS
  {
    && x.nameid == y.nameid && x.unique == y.unique
    && x.cards[0] == y.cards[0] && x.cards[2] == y.cards[2] && x.cards[3] == y.cards[3]
  }

  // The test by which a row needs no statement.
  predicate SameColumns(x: Item, item: Item, hasFavorite: bool)
  {
    && x.cards == item.cards && x.amount == item.amount && x.equip == item.equip
    && x.identify == item.identify && x.refine == item.refine && x.attribute == item.attribute
    && x.expire == item.expire && x.bound == item.bound && (!hasFavorite || x.favorite == item.favorite)
  }

  // ---------- The items of a set of rows ----------

  ghost function ItemsIn(rows: map<int, Row>, ids: set<int>): multiset<Item>
    requires ids <= rows.Keys
    decreases |ids|
  {
    if |ids| == 0 then multiset{}
    else
      var id := Any(ids);
      multiset{rows[id].item} + ItemsIn(rows, ids - {id})
  }

  lemma {:induction false} ItemsWithout(rows: map<int, Row>, ids: set<int>, id: int)
    requires ids <= rows.Keys && id in ids
    ensures ItemsIn(rows, ids) == multiset{rows[id].item} + ItemsIn(rows, ids - {id})
    decreases |ids|
  {
    var x := Any(ids);
    if x != id {
      ItemsWithout(rows, ids - {x}, id);
      ItemsWithout(rows, ids - {id}, x);
      assert ids - {x} - {id} == ids - {id} - {x};
    }
  }

  lemma {:induction false} ItemsAgree(rows: map<int, Row>, rows': map<int, Row>, ids: set<int>)
    requires ids <= rows.Keys && ids <= rows'.Keys && forall id :: id in ids ==> rows[id].item == rows'[id].item
    ensures ItemsIn(rows, ids) == ItemsIn(rows', ids)
    decreases |ids|
  {
    if |ids| != 0 {
      var x := Any(ids);
      ItemsAgree(rows, rows', ids - {x});
      ItemsWithout(rows', ids, x);
    }
  }

  lemma ItemsWith(rows: map<int, Row>, ids: set<int>, id: int, row: Row)
    requires ids <= rows.Keys && id !in ids
    ensures ItemsIn(rows[id := row], ids + {id}) == ItemsIn(rows, ids) + multiset{row.item}
  {
    ItemsWithout(rows[id := row], ids + {id}, id);
    assert ids + {id} - {id} == ids;
    ItemsAgree(rows, rows[id := row], ids);
  }

  function RowsOf(rows: map<int, Row>, owner: int): set<int>
  {
    set id | id in rows && rows[id].owner == owner
  }

  // The items that the table holds for the owner.
  ghost function Stored(rows: map<int, Row>, owner: int): multiset<Item>
  {
    ItemsIn(rows, RowsOf(rows, owner))
  }

  // The rows of all other owners are as they were.
  ghost predicate OthersKept(rows: map<int, Row>, rows': map<int, Row>, owner: int)
  {
    && (forall id :: id in rows && rows[id].owner != owner ==> id in rows' && rows'[id] == rows[id])
    && (forall id :: id in rows' && rows'[id].owner != owner ==> id in rows && rows[id] == rows'[id])
  }

  // ---------- The items of a list ----------

  // The items that are marked.
  function Marked(items: seq<Item>, flag: seq<bool>, hasFavorite: bool): multiset<Item>
    requires |items| == |flag|
  {
    if items == [] then multiset{}
    else
      var n := |items| - 1;
      Marked(items[..n], flag[..n], hasFavorite)
      + if flag[n] then multiset{Persisted(items[n], hasFavorite)} else multiset{}
  }

  // The items that are there, an empty slot having no name.
  function Present(items: seq<Item>, hasFavorite: bool): multiset<Item>
  {
    if items == [] then multiset{}
    else
      var n := |items| - 1;
      Present(items[..n], hasFavorite)
      + if items[n].nameid != 0 then multiset{Persisted(items[n], hasFavorite)} else multiset{}
  }

  lemma {:induction false} MarkOne(items: seq<Item>, flag: seq<bool>, i: nat, hasFavorite: bool)
    requires |items| == |flag| && i < |items| && !flag[i]
    ensures Marked(items, flag[i := true], hasFavorite)
         == Marked(items, flag, hasFavorite) + multiset{Persisted(items[i], hasFavorite)}
  {
    var n := |items| - 1;
    if i == n {
      assert flag[i := true][..n] == flag[..n];
    } else {
      assert flag[i := true][..n] == flag[..n][i := true];
      MarkOne(items[..n], flag[..n], i, hasFavorite);
    }
  }

  lemma {:induction false} NoneMarked(items: seq<Item>, flag: seq<bool>, hasFavorite: bool)
    requires |items| == |flag| && forall i :: 0 <= i < |flag| ==> !flag[i]
    ensures Marked(items, flag, hasFavorite) == multiset{}
  {
    if items != [] {
      NoneMarked(items[..|items| - 1], flag[..|items| - 1], hasFavorite);
    }
  }

  lemma {:induction false} AllMarked(items: seq<Item>, flag: seq<bool>, hasFavorite: bool)
    requires |items| == |flag| && forall i :: 0 <= i < |flag| ==> flag[i] == (items[i].nameid != 0)
    ensures Marked(items, flag, hasFavorite) == Present(items, hasFavorite)
  {
    if items != [] {
      AllMarked(items[..|items| - 1], flag[..|items| - 1], hasFavorite);
    }
  }

  // An update makes a row equal to the item it was matched with.
  lemma AlikeUpdated(x: Item, y: Item, hasFavorite: bool)
    requires |x.cards| == |y.cards| == MAX_SLOTS && Alike(x, y) && (!hasFavorite ==> y.favorite == 0)
    ensures Updated(y, x, hasFavorite) == Persisted(x, hasFavorite)
  {
  }

  // The columns that an UPDATE sets; name and unique id are not among them.
  function Updated(row: Item, x: Item, hasFavorite: bool): Item
  {
    Item(row.nameid, row.unique, x.amount, x.equip, x.identify, x.refine, x.attribute, x.expire, x.bound,
         x.cards, if hasFavorite then x.favorite else row.favorite)
  }

  // ---------- The walk over the rows ----------

  // The result of the query: the ids of the owner's rows, each once.
  ghost predicate IsResult(rows: map<int, Row>, owner: int, order: seq<int>)
  {
    && (forall id :: id in order <==> id in RowsOf(rows, owner))
    && forall i, j :: 0 <= i < j < |order| ==> order[i] != order[j]
  }

  // The rows still to be looked at.
  function Todo(order: seq<int>, r: nat): set<int>
    requires r <= |order|
  {
    set k | r <= k < |order| :: order[k]
  }

  // The owner's rows that have been looked at hold the marked items; the others are as the
  // query found them.
  ghost predicate Midway(was: map<int, Row>, rows: map<int, Row>, owner: int, order: seq<int>, r: nat)
    requires r <= |order|
  {
    && OthersKept(was, rows, owner)
    && forall k :: r <= k < |order| ==>
         && order[k] in was && order[k] in rows && rows[order[k]] == was[order[k]]
         && was[order[k]].owner == owner
  }

  ghost function Done(rows: map<int, Row>, owner: int, order: seq<int>, r: nat): multiset<Item>
    requires r <= |order|
  {
    ItemsIn(rows, RowsOf(rows, owner) - Todo(order, r))
  }

  lemma WalkBegins(rows: map<int, Row>, owner: int, order: seq<int>)
    requires IsResult(rows, owner, order)
    ensures Midway(rows, rows, owner, order, 0) && Done(rows, owner, order, 0) == multiset{}
  {
    assert forall k :: 0 <= k < |order| ==> order[k] in order;
    assert RowsOf(rows, owner) - Todo(order, 0) == {} by {
      forall id | id in RowsOf(rows, owner)
        ensures id in Todo(order, 0)
      {
        assert id in order;
      }
    }
  }

  lemma WalkEnds(rows: map<int, Row>, owner: int, order: seq<int>)
    ensures Done(rows, owner, order, |order|) == Stored(rows, owner)
  {
    assert Todo(order, |order|) == {};
    assert RowsOf(rows, owner) - {} == RowsOf(rows, owner);
  }

  lemma TodoStep(order: seq<int>, r: nat)
    requires r < |order| && forall i, j :: 0 <= i < j < |order| ==> order[i] != order[j]
    ensures order[r] !in Todo(order, r + 1) && Todo(order, r) == Todo(order, r + 1) + {order[r]}
  {
  }

  lemma RowsWith(rows: map<int, Row>, owner: int, id: int, x: Item)
    ensures RowsOf(rows[id := Row(owner, x)], owner) == RowsOf(rows, owner) + {id}
  {
  }

  lemma TakeOff(all: set<int>, todo: set<int>, id: int, less: set<int>)
    requires todo == less + {id} && id !in less
    ensures all + {id} - less == all - todo + {id}
  {
  }

  // The row is kept, with these columns.
  lemma KeepRow(was: map<int, Row>, rows: map<int, Row>, owner: int, order: seq<int>, r: nat, x: Item)
    requires IsResult(was, owner, order) && r < |order| && Midway(was, rows, owner, order, r)
    ensures Midway(was, rows[order[r] := Row(owner, x)], owner, order, r + 1)
    ensures Done(rows[order[r] := Row(owner, x)], owner, order, r + 1) == Done(rows, owner, order, r) + multiset{x}
  {
    TodoStep(order, r);
    KeepDone(rows, owner, order, r, x);
    KeepMidway(was, rows, owner, order, r, x);
  }

  lemma KeepMidway(was: map<int, Row>, rows: map<int, Row>, owner: int, order: seq<int>, r: nat, x: Item)
    requires IsResult(was, owner, order) && r < |order| && Midway(was, rows, owner, order, r)
    ensures Midway(was, rows[order[r] := Row(owner, x)], owner, order, r + 1)
  {
  }

  lemma KeepDone(rows: map<int, Row>, owner: int, order: seq<int>, r: nat, x: Item)
    requires r < |order| && Todo(order, r) == Todo(order, r + 1) + {order[r]} && order[r] !in Todo(order, r + 1)
    ensures Done(rows[order[r] := Row(owner, x)], owner, order, r + 1) == Done(rows, owner, order, r) + multiset{x}
  {
    var id := order[r];
    RowsWith(rows, owner, id, x);
    TakeOff(RowsOf(rows, owner), Todo(order, r), id, Todo(order, r + 1));
    ItemsWith(rows, RowsOf(rows, owner) - Todo(order, r), id, Row(owner, x));
  }

  lemma DropRow(was: map<int, Row>, rows: map<int, Row>, owner: int, order: seq<int>, r: nat)
    requires IsResult(was, owner, order) && r < |order| && Midway(was, rows, owner, order, r)
    ensures Midway(was, rows - {order[r]}, owner, order, r + 1)
    ensures Done(rows - {order[r]}, owner, order, r + 1) == Done(rows, owner, order, r)
  {
    TodoStep(order, r);
    DropDone(rows, owner, order, r);
    DropMidway(was, rows, owner, order, r);
  }

  lemma DropMidway(was: map<int, Row>, rows: map<int, Row>, owner: int, order: seq<int>, r: nat)
    requires IsResult(was, owner, order) && r < |order| && Midway(was, rows, owner, order, r)
    ensures Midway(was, rows - {order[r]}, owner, order, r + 1)
  {
  }

  lemma RowsWithout(rows: map<int, Row>, owner: int, id: int)
    ensures RowsOf(rows - {id}, owner) == RowsOf(rows, owner) - {id}
  {
  }

  lemma DropDone(rows: map<int, Row>, owner: int, order: seq<int>, r: nat)
    requires r < |order| && Todo(order, r) == Todo(order, r + 1) + {order[r]} && order[r] !in Todo(order, r + 1)
    ensures Done(rows - {order[r]}, owner, order, r + 1) == Done(rows, owner, order, r)
  {
    var id := order[r];
    RowsWithout(rows, owner, id);
    var done := RowsOf(rows, owner) - Todo(order, r);
    assert RowsOf(rows, owner) - {id} - Todo(order, r + 1) == done;
    ItemsAgree(rows, rows - {id}, done);
  }

  // A failed statement leaves the row as it was.
  lemma SkipRow(was: map<int, Row>, rows: map<int, Row>, owner: int, order: seq<int>, r: nat)
    requires IsResult(was, owner, order) && r < |order| && Midway(was, rows, owner, order, r)
    ensures Midway(was, rows, owner, order, r + 1)
  {
  }

  lemma NewRow(was: map<int, Row>, rows: map<int, Row>, owner: int, id: int, x: Item)
    requires OthersKept(was, rows, owner) && id !in rows
    ensures OthersKept(was, rows[id := Row(owner, x)], owner)
    ensures Stored(rows[id := Row(owner, x)], owner) == Stored(rows, owner) + multiset{x}
  {
    StoredWith(rows, owner, id, x);
  }

  lemma StoredWith(rows: map<int, Row>, owner: int, id: int, x: Item)
    requires id !in rows
    ensures Stored(rows[id := Row(owner, x)], owner) == Stored(rows, owner) + multiset{x}
  {
    RowsWith(rows, owner, id, x);
    ItemsWith(rows, RowsOf(rows, owner), id, Row(owner, x));
  }

  // The rows looked at hold the marked items; sealed.
  ghost predicate Matched(rows: map<int, Row>, owner: int, order: seq<int>, r: nat,
                          items: seq<Item>, flag: seq<bool>, hasFavorite: bool)
    requires r <= |order| && |flag| == |items|
  {
    forall k :: Unfold(k) ==> Done(rows, owner, order, r) == Marked(items, flag, hasFavorite)
  }

  lemma MatchedIs(rows: map<int, Row>, owner: int, order: seq<int>, r: nat,
                  items: seq<Item>, flag: seq<bool>, hasFavorite: bool)
    requires r <= |order| && |flag| == |items|
    ensures Matched(rows, owner, order, r, items, flag, hasFavorite) <==>
      Done(rows, owner, order, r) == Marked(items, flag, hasFavorite)
  {
    assert Unfold(0);
  }

  // The walk is at this row of the result; sealed.
  ghost predicate Walking(was: map<int, Row>, rows: map<int, Row>, owner: int, order: seq<int>, r: nat)
  {
    r <= |order| && forall k :: Unfold(k) ==> IsResult(was, owner, order) && Midway(was, rows, owner, order, r)
  }

  lemma WalkingIs(was: map<int, Row>, rows: map<int, Row>, owner: int, order: seq<int>, r: nat)
    requires r <= |order|
    ensures Walking(was, rows, owner, order, r) <==>
      IsResult(was, owner, order) && Midway(was, rows, owner, order, r)
  {
    assert Unfold(0);
  }

  lemma WalkOver(was: map<int, Row>, rows: map<int, Row>, owner: int, order: seq<int>)
    requires Walking(was, rows, owner, order, |order|)
    ensures OthersKept(was, rows, owner)
  {
    assert Unfold(0);
  }

  lemma MatchedAtFirst(rows: map<int, Row>, owner: int, order: seq<int>, items: seq<Item>, flag: seq<bool>,
                       hasFavorite: bool)
    requires IsResult(rows, owner, order) && |flag| == |items| && forall i :: 0 <= i < |flag| ==> !flag[i]
    ensures Walking(rows, rows, owner, order, 0) && Matched(rows, owner, order, 0, items, flag, hasFavorite)
  {
    WalkBegins(rows, owner, order);
    NoneMarked(items, flag, hasFavorite);
  }

  lemma MatchedAtLast(rows: map<int, Row>, owner: int, order: seq<int>, items: seq<Item>, flag: seq<bool>,
                      hasFavorite: bool)
    requires |flag| == |items| && Matched(rows, owner, order, |order|, items, flag, hasFavorite)
    ensures Stored(rows, owner) == Marked(items, flag, hasFavorite)
  {
    assert Unfold(0);
    WalkEnds(rows, owner, order);
  }

  // A row has been made equal to item i, which is marked then.
  lemma RowSaved(was: map<int, Row>, rows: map<int, Row>, owner: int, order: seq<int>, r: nat,
                 items: seq<Item>, flag: seq<bool>, i: nat, hasFavorite: bool)
    requires IsResult(was, owner, order) && r < |order| && Midway(was, rows, owner, order, r)
    requires |flag| == |items| && i < |items| && !flag[i]
    ensures var rows' := rows[order[r] := Row(owner, Persisted(items[i], hasFavorite))];
      && Midway(was, rows', owner, order, r + 1)
      && (Matched(rows, owner, order, r, items, flag, hasFavorite) ==>
            Matched(rows', owner, order, r + 1, items, flag[i := true], hasFavorite))
  {
    var x := Persisted(items[i], hasFavorite);
    KeepRow(was, rows, owner, order, r, x);
    MarkOne(items, flag, i, hasFavorite);
    MatchedIs(rows, owner, order, r, items, flag, hasFavorite);
    MatchedIs(rows[order[r] := Row(owner, x)], owner, order, r + 1, items, flag[i := true], hasFavorite);
  }

  lemma RowDropped(was: map<int, Row>, rows: map<int, Row>, owner: int, order: seq<int>, r: nat,
                   items: seq<Item>, flag: seq<bool>, hasFavorite: bool)
    requires IsResult(was, owner, order) && r < |order| && Midway(was, rows, owner, order, r)
    requires |flag| == |items|
    ensures Midway(was, rows - {order[r]}, owner, order, r + 1)
    ensures Matched(rows, owner, order, r, items, flag, hasFavorite) ==>
      Matched(rows - {order[r]}, owner, order, r + 1, items, flag, hasFavorite)
  {
    DropRow(was, rows, owner, order, r);
    MatchedIs(rows, owner, order, r, items, flag, hasFavorite);
    MatchedIs(rows - {order[r]}, owner, order, r + 1, items, flag, hasFavorite);
  }

  // A new row for item i, which is marked then.
  lemma RowInserted(was: map<int, Row>, rows: map<int, Row>, owner: int, id: int,
                    items: seq<Item>, flag: seq<bool>, i: nat, hasFavorite: bool)
    requires OthersKept(was, rows, owner) && id !in rows && |flag| == |items| && i < |items| && !flag[i]
    ensures var rows' := rows[id := Row(owner, Persisted(items[i], hasFavorite))];
      && OthersKept(was, rows', owner)
      && (Stored(rows, owner) == Marked(items, flag, hasFavorite) ==>
            Stored(rows', owner) == Marked(items, flag[i := true], hasFavorite))
  {
    NewRow(was, rows, owner, id, Persisted(items[i], hasFavorite));
    MarkOne(items, flag, i, hasFavorite);
  }

  ghost predicate ProperItems(items: seq<Item>)
  {
    forall i :: 0 <= i < |items| ==> |items[i].cards| == MAX_SLOTS
  }

  ghost predicate ProperMarks(items: seq<Item>, flag: seq<bool>)
  {
    |flag| == |items| && forall i :: 0 <= i < |items| && flag[i] ==> items[i].nameid != 0
  }

  // ---------- What becomes of each row ----------

  // The result of the query on a table with all columns, and a list to be saved.
  ghost predicate Saving(was: map<int, Row>, owner: int, order: seq<int>, items: seq<Item>)
  {
    && IsResult(was, owner, order) && ProperItems(items)
    && forall id :: id in was ==> |was[id].item.cards| == MAX_SLOTS
  }

  lemma InResult(was: map<int, Row>, owner: int, order: seq<int>, items: seq<Item>, r: nat)
    requires IsResult(was, owner, order) && r < |order|
    ensures order[r] in was && was[order[r]].owner == owner
    ensures Saving(was, owner, order, items) ==> |was[order[r]].item.cards| == MAX_SLOTS
  {
    assert order[r] in order;
  }

  // The first item from i on that is there, is not taken yet, and is like the row.
  ghost function FirstAlike(items: seq<Item>, flag: seq<bool>, item: Item, i: nat): (k: nat)
    requires ProperItems(items) && |flag| == |items| && |item.cards| == MAX_SLOTS && i <= |items|
    ensures i <= k <= |items|
    ensures k < |items| ==> items[k].nameid != 0 && !flag[k] && Alike(items[k], item)
    ensures forall j :: i <= j < k ==> items[j].nameid == 0 || flag[j] || !Alike(items[j], item)
    decreases |items| - i
  {
    if i == |items| || (items[i].nameid != 0 && !flag[i] && Alike(items[i], item)) then i
    else FirstAlike(items, flag, item, i + 1)
  }

  // The items that are taken when r rows have been looked at, whether statements work or not.
  ghost function MarksAfter(was: map<int, Row>, owner: int, order: seq<int>, items: seq<Item>, r: nat): (f: seq<bool>)
    requires Saving(was, owner, order, items) && r <= |order|
    ensures |f| == |items|
    decreases r, 0
  {
    if r == 0 then seq(|items|, _ => false)
    else
      var f, i := MarksAfter(was, owner, order, items, r - 1), Match(was, owner, order, items, r - 1);
      if i < |items| then f[i := true] else f
  }

  // The item that row r is matched with; if it is past the last one, there is none.
  ghost function Match(was: map<int, Row>, owner: int, order: seq<int>, items: seq<Item>, r: nat): (i: nat)
    requires Saving(was, owner, order, items) && r < |order|
    ensures i <= |items|
    decreases r, 1
  {
    InResult(was, owner, order, items, r);
    var row := was[order[r]];
    FirstAlike(items, MarksAfter(was, owner, order, items, r), row.item, 0)
  }

  // Row r needs a statement: a deletion, or an update that changes something.
  ghost predicate Issues(was: map<int, Row>, owner: int, order: seq<int>, items: seq<Item>, hasFavorite: bool, r: nat)
    requires Saving(was, owner, order, items) && r < |order|
  {
    InResult(was, owner, order, items, r);
    var i := Match(was, owner, order, items, r);
    i == |items| || !SameColumns(items[i], was[order[r]].item, hasFavorite)
  }

  // How many of the statements for the first r rows fail.
  ghost function Failures(was: map<int, Row>, owner: int, order: seq<int>, items: seq<Item>, hasFavorite: bool,
                          works: nat -> bool, r: nat): nat
    requires Saving(was, owner, order, items) && r <= |order|
  {
    if r == 0 then 0
    else
      Failures(was, owner, order, items, hasFavorite, works, r - 1)
      + if Issues(was, owner, order, items, hasFavorite, r - 1) && !works(r - 1) then 1 else 0
  }

  // What has become of row r: if its statement failed it is as it was; otherwise it keeps its
  // id and holds the item it was matched with, or it is gone if there is none.
  ghost predicate RowIs(was: map<int, Row>, rows: map<int, Row>, owner: int, order: seq<int>, items: seq<Item>,
                        hasFavorite: bool, works: nat -> bool, r: nat)
    requires Saving(was, owner, order, items) && r < |order|
  {
    InResult(was, owner, order, items, r);
    var id, i := order[r], Match(was, owner, order, items, r);
    if Issues(was, owner, order, items, hasFavorite, r) && !works(r) then id in rows && rows[id] == was[id]
    else if i < |items| then id in rows && rows[id] == Row(owner, Persisted(items[i], hasFavorite))
    else id !in rows
  }

  lemma RowIsKept(was: map<int, Row>, before: map<int, Row>, rows: map<int, Row>, owner: int, order: seq<int>,
                  items: seq<Item>, hasFavorite: bool, works: nat -> bool, r: nat)
    requires Saving(was, owner, order, items) && r < |order| && SameAt(before, rows, order[r])
    requires RowIs(was, before, owner, order, items, hasFavorite, works, r)
    ensures RowIs(was, rows, owner, order, items, hasFavorite, works, r)
  {
    hide Saving, Match, Issues, Persisted;
  }

  // An item is there that is not marked.
  ghost predicate HasUnmarked(items: seq<Item>, flag: seq<bool>)
    requires |flag| == |items|
  {
    exists i :: 0 <= i < |items| && items[i].nameid != 0 && !flag[i]
  }

  // The tables agree on this id.
  ghost predicate SameAt(rows: map<int, Row>, rows': map<int, Row>, id: int)
  {
    (id in rows <==> id in rows') && (id in rows ==> rows[id] == rows'[id])
  }

  // How many statements fail in all.
  ghost function AllFailures(was: map<int, Row>, owner: int, order: seq<int>, items: seq<Item>, hasFavorite: bool,
                             works: nat -> bool): nat
    requires Saving(was, owner, order, items)
  {
    Failures(was, owner, order, items, hasFavorite, works, |order|)
    + if HasUnmarked(items, MarksAfter(was, owner, order, items, |order|)) && !works(|order|) then 1 else 0
  }

  // No statement fails just if all that are issued work.
  lemma {:induction false} NoFailures(was: map<int, Row>, owner: int, order: seq<int>, items: seq<Item>,
                                      hasFavorite: bool, works: nat -> bool, r: nat)
    requires Saving(was, owner, order, items) && r <= |order|
    ensures Failures(was, owner, order, items, hasFavorite, works, r) == 0 <==>
      forall k :: 0 <= k < r && Issues(was, owner, order, items, hasFavorite, k) ==> works(k)
  {
    if r > 0 {
      NoFailures(was, owner, order, items, hasFavorite, works, r - 1);
    }
  }
}
