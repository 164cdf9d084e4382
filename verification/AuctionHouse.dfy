// The auction house in memory.
module AuctionHouse {
  import opened AuctionRules
  import opened Sets

  // The auctions among these in which c buys or sells.
  ghost function Matching(db: map<int, Auction>, ids: set<int>, c: int, buy: bool): set<int>
    requires ids <= db.Keys
  {
    set id | id in ids && (if buy then db[id].buyer else db[id].seller) == c
  }

  lemma MatchingOne(db: map<int, Auction>, ids: set<int>, id: int, c: int, buy: bool)
    requires ids <= db.Keys && id in db && id !in ids
    ensures |Matching(db, ids + {id}, c, buy)|
         == |Matching(db, ids, c, buy)| + if (if buy then db[id].buyer else db[id].seller) == c then 1 else 0
  {
    assert Matching(db, ids + {id}, c, buy)
        == Matching(db, ids, c, buy) + if (if buy then db[id].buyer else db[id].seller) == c then {id} else {};
  }

  class Manager {
    var db: map<int, Auction>
    // The ledger: the replies, the mails and the database, as far as they matter.
    ghost var log: Ledger

    ghost function View(): House
      reads this
    {
      House(db, log)
    }

    constructor ()
      ensures View() == Nothing
    {
      db, log := map[], Nothing.log;
    }

    // inter_auction_count
    method Count(c: int, buy: bool) returns (n: nat)
      ensures n == if buy then |BuyerOf(db, c)| else |SellerOf(db, c)|
    {
      n := 0;
      var ids := db.Keys;
      ghost var seen: set<int> := {};
      while |ids| > 0
        invariant ids <= db.Keys && seen == db.Keys - ids
        invariant n == |Matching(db, seen, c, buy)|
        decreases |ids|
      {
        HasMember(ids);
        var id :| id in ids;
        MatchingOne(db, seen, id, c, buy);
        if (buy && db[id].buyer == c) || (!buy && db[id].seller == c) {
          n := n + 1;
        }
        ids, seen := ids - {id}, seen + {id};
      }
      assert seen == db.Keys;
      assert Matching(db, seen, c, buy) == if buy then BuyerOf(db, c) else SellerOf(db, c);
    }

    method SendZeny(dest: int, zeny: int)
      modifies this`log
      ensures log == Send(old(log), dest, zeny)
    {
      log := Send(log, dest, zeny);
    }

    method SendItem(dest: int, id: int, item: Item)
      modifies this`log
      ensures log == SendGoods(old(log), dest, id, item)
    {
      log := SendGoods(log, dest, id, item);
    }

    // inter_auction_delete
    method Delete(id: int)
      modifies this`db
      ensures db == old(db) - {id}
    {
      db := db - {id};
    }

    // mapif_parse_auction_register; the database gives the id.
    method Register(a: Auction, sentId: int, newId: int) returns (r: Reply)
      modifies this
      ensures (View(), r) == RegisterStep(old(View()), a, sentId, newId)
    {
      var id := sentId;
      var n := Count(a.seller, false);
      if n < 5 {
        id := newId;
        if newId != 0 {
          db := db[newId := a];
          log := log.(lots := log.lots[newId := Lot(a.seller, a.item, a.price, a.buynow)]);
        }
      }
      r := Registered(id);
    }

    // mapif_parse_auction_bid
    method Bid(c: int, id: int, bid: int) returns (r: Reply)
      modifies this
      ensures (View(), r) == BidStep(old(View()), c, id, bid)
    {
      log := PayIn(log, c, bid);
      if id !in db || db[id].price >= bid || db[id].seller == c {
        log := PayBack(log, c, bid);
        return BidReply(bid, 0);
      }
      var n := Count(c, true);
      if n > 4 && bid < db[id].buynow && db[id].buyer != c {
        log := PayBack(log, c, bid);
        return BidReply(bid, 9);
      }
      if db[id].buyer > 0 {
        SendZeny(db[id].buyer, db[id].price);
      }
      var a := db[id].(buyer := c, price := bid);
      db := db[id := a];
      if bid >= a.buynow {
        log := PayBack(log, c, bid - a.buynow);
        SendItem(a.buyer, id, a.item);
        SendZeny(a.seller, a.buynow);
        log := Sold(log, id, a.seller, a.buyer, a.buynow);
        Delete(id);
        assert db == old(db) - {id};
        return BidReply(bid - a.buynow, 1);
      }
      r := BidReply(0, 1);
    }

    // mapif_parse_auction_close
    method Close(c: int, id: int) returns (r: Reply)
      modifies this
      ensures (View(), r) == CloseStep(old(View()), c, id)
    {
      if id !in db {
        return CloseReply(2);
      }
      var a := db[id];
      if a.seller != c {
        return CloseReply(1);
      }
      if a.buyer == 0 {
        return CloseReply(1);
      }
      SendZeny(a.seller, a.price);
      SendItem(a.buyer, id, a.item);
      log := Sold(log, id, a.seller, a.buyer, a.price);
      Delete(id);
      r := CloseReply(0);
    }

    // mapif_parse_auction_cancel
    method Cancel(c: int, id: int) returns (r: Reply)
      modifies this
      ensures (View(), r) == CancelStep(old(View()), c, id)
    {
      if id !in db {
        return CancelReply(1);
      }
      var a := db[id];
      if a.seller != c {
        return CancelReply(2);
      }
      if a.buyer > 0 {
        return CancelReply(3);
      }
      SendItem(a.seller, id, a.item);
      Delete(id);
      r := CancelReply(0);
    }

    // inter_auction_end_timer
    method EndTimer(id: int)
      modifies this
      ensures View() == TimeoutStep(old(View()), id).0
    {
      if id in db {
        var a := db[id];
        if a.buyer != 0 {
          SendItem(a.buyer, id, a.item);
          SendZeny(a.seller, a.price);
          log := Sold(log, id, a.seller, a.buyer, a.price);
        } else {
          SendItem(a.seller, id, a.item);
        }
        Delete(id);
      }
    }

    method Dispatch(e: Event) returns (r: Reply)
      modifies this
      ensures (View(), r) == Step(old(View()), e)
    {
      match e {
        case Register(a, sentId, newId) => r := Register(a, sentId, newId);
        case Bid(c, id, bid) => r := Bid(c, id, bid);
        case Close(c, id) => r := Close(c, id);
        case Cancel(c, id) => r := Cancel(c, id);
        case Timeout(id) =>
          EndTimer(id);
          r := Silent;
      }
    }

    // Over any run of proper events the books stay balanced.
    method Serve(es: seq<Event>)
      requires Sound(View()) && AllProper(View(), es)
      modifies this
      ensures Sound(View()) && View() == Run(old(View()), es)
    {
      var i := 0;
      assert es[0..] == es;
      while i < |es|
        invariant i <= |es| && Sound(View()) && AllProper(View(), es[i..])
        invariant Run(View(), es[i..]) == Run(old(View()), es)
      {
        assert es[i..][0] == es[i] && es[i..][1..] == es[i + 1..];
        StepIsSound(View(), es[i]);
        var r := Dispatch(es[i]);
        i := i + 1;
      }
    }
  }
}
