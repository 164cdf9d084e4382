// Which row an item is kept in, and when a row is left alone.
module ItemTerms {
  import opened ItemRows

  // What tells items apart for the matching: neither the amount, the refine level or other
  // such columns, nor card 1.
  datatype Identity = Identity(nameid: int, unique: int, card0: int, card2: int, card3: int)

  function IdentityOf(x: Item): Identity
    requires |x.cards| == 4
  {
    Identity(x.nameid, x.unique, x.cards[0], x.cards[2], x.cards[3])
  }

  // No two items of the list are to be taken for each other, and no two rows.
  ghost predicate AllDiffer(was: map<int, Row>, owner: int, order: seq<int>, items: seq<Item>)
    requires Saving(was, owner, order, items)
  {
    && (forall i, j :: 0 <= i < j < |items| && items[i].nameid != 0 && items[j].nameid != 0 ==>
          IdentityOf(items[i]) != IdentityOf(items[j]))
    && (forall r, s :: 0 <= r < s < |order| && order[r] in was && order[s] in was ==>
          IdentityOf(was[order[r]].item) != IdentityOf(was[order[s]].item))
  }

  ghost predicate IsLike(was: map<int, Row>, id: int, x: Item)
  {
    id in was && |x.cards| == |was[id].item.cards| == 4 && Alike(x, was[id].item)
  }

  // A marked item was matched with a row before.
  lemma {:induction false} MarkedByRow(was: map<int, Row>, owner: int, order: seq<int>, items: seq<Item>, r: nat,
                                       i: nat)
    requires Saving(was, owner, order, items) && r <= |order| && i < |items|
    requires MarksAfter(was, owner, order, items, r)[i]
    ensures exists s: nat :: s < r && IsLike(was, order[s], items[i])
    decreases r
  {
    if r > 0 {
      InResult(was, owner, order, items, r - 1);
      if Match(was, owner, order, items, r - 1) == i {
        assert IsLike(was, order[r - 1], items[i]);
      } else {
        MarkedByRow(was, owner, order, items, r - 1, i);
      }
    }
  }

  lemma AlikeIs(x: Item, y: Item)
    requires |x.cards| == |y.cards| == 4
    ensures Alike(x, y) <==> IdentityOf(x) == IdentityOf(y)
  {
  }

  // Then a row is matched with the item of the same identity, whatever has become of its
  // amount or card 1, if the item is still there.
  lemma MatchedByIdentity(was: map<int, Row>, owner: int, order: seq<int>, items: seq<Item>, r: nat, i: nat)
    requires Saving(was, owner, order, items) && AllDiffer(was, owner, order, items)
    requires r < |order| && i < |items| && items[i].nameid != 0
    ensures order[r] in was && |was[order[r]].item.cards| == 4
    ensures IdentityOf(items[i]) == IdentityOf(was[order[r]].item) <==> Match(was, owner, order, items, r) == i
  {
    hide Alike;
    InResult(was, owner, order, items, r);
    var row, k := was[order[r]].item, Match(was, owner, order, items, r);
    AlikeIs(items[i], row);
    if k < |items| {
      AlikeIs(items[k], row);
    }
    if IdentityOf(items[i]) == IdentityOf(row) && k != i {
      assert k > i;
      assert MarksAfter(was, owner, order, items, r)[i];
      MarkedByRow(was, owner, order, items, r, i);
      var s: nat :| s < r && IsLike(was, order[s], items[i]);
      AlikeIs(items[i], was[order[s]].item);
      assert false;
    }
  }

  // What a table keeps of an item: all columns, but the favorite mark in inventories only.
  lemma KeptColumns(x: Item, hasFavorite: bool)
    ensures Persisted(x, hasFavorite)
         == Item(x.nameid, x.unique, x.amount, x.equip, x.identify, x.refine, x.attribute, x.expire, x.bound, x.cards,
                 if hasFavorite then x.favorite else 0)
  {
  }

  // A row needs no statement if and only if it holds what the table keeps of its item already.
  lemma LeftAlone(was: map<int, Row>, owner: int, order: seq<int>, items: seq<Item>, hasFavorite: bool, r: nat)
    requires Saving(was, owner, order, items) && r < |order|
    requires !hasFavorite ==> forall id :: id in was ==> was[id].item.favorite == 0
    ensures order[r] in was
    ensures !Issues(was, owner, order, items, hasFavorite, r) <==>
      var i := Match(was, owner, order, items, r);
      i < |items| && was[order[r]].item == Persisted(items[i], hasFavorite)
  {
    InResult(was, owner, order, items, r);
    var i, row := Match(was, owner, order, items, r), was[order[r]].item;
    var id := order[r];
    assert id in was && row == was[id].item;
    if i < |items| {
      SameColumnsIs(items[i], row, hasFavorite);
    }
  }

  lemma SameColumnsIs(x: Item, row: Item, hasFavorite: bool)
    requires |x.cards| == |row.cards| == 4 && Alike(x, row) && (!hasFavorite ==> row.favorite == 0)
    ensures SameColumns(x, row, hasFavorite) <==> row == Persisted(x, hasFavorite)
  {
  }

  // A sword whose refine level and card 1 have changed keeps its row; an item that was not in
  // the table takes no row away.
  lemma KeepsRowExample(sword: Item, other: Item)
    requires |sword.cards| == |other.cards| == 4 && sword.nameid != 0 && other.nameid !in {0, sword.nameid}
    ensures var refined := sword.(refine := 10, cards := sword.cards[1 := 4001]);
      var was, items := map[5 := Row(1, sword)], [other, refined];
      Saving(was, 1, [5], items) && Match(was, 1, [5], items, 0) == 1
  {
    var refined := sword.(refine := 10, cards := sword.cards[1 := 4001]);
    var was, items := map[5 := Row(1, sword)], [other, refined];
    assert RowsOf(was, 1) == {5};
    assert IsResult(was, 1, [5]);
    MatchedByIdentity(was, 1, [5], items, 0, 1);
  }
}
