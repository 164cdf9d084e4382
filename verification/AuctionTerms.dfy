// What each request to the auction house comes to for those concerned.
module AuctionTerms {
  import opened AuctionRules
  import opened Settings

  // The zeny that has come back to x, with replies and by mail.
  function Returned(log: Ledger, x: int): int
  {
    Paid(log.paidBack, Just(x))
  }

  function Received(log: Ledger, x: int): int
  {
    Mailed(log.mails, Just(x))
  }

  lemma SendAdds(log: Ledger, dest: int, zeny: int, x: int)
    ensures Received(Send(log, dest, zeny), x) == Received(log, x) + if x == dest then zeny else 0
  {
    assert Send(log, dest, zeny).mails[..|log.mails|] == log.mails;
  }

  lemma GoodsAdd(log: Ledger, dest: int, id: int, item: Item, x: int)
    ensures Received(SendGoods(log, dest, id, item), x) == Received(log, x)
  {
    assert SendGoods(log, dest, id, item).mails[..|log.mails|] == log.mails;
  }

  lemma BackAdds(log: Ledger, c: int, zeny: int, x: int)
    ensures Returned(PayBack(log, c, zeny), x) == Returned(log, x) + if x == c then zeny else 0
  {
    assert PayBack(log, c, zeny).paidBack[..|log.paidBack|] == log.paidBack;
  }

  lemma InAdds(log: Ledger, c: int, zeny: int, who: Who)
    ensures Paid(PayIn(log, c, zeny).paidIn, who)
         == Paid(log.paidIn, who) + if who.Everyone? || who.char_ == c then zeny else 0
  {
    assert PayIn(log, c, zeny).paidIn[..|log.paidIn|] == log.paidIn;
  }

  // The live auctions that c sells, and those in which he leads.
  ghost function Sells(h: House, c: int): set<int>
  {
    set id | id in h.db && h.db[id].seller == c
  }

  ghost function Leads(h: House, c: int): set<int>
  {
    set id | id in h.db && h.db[id].buyer == c
  }

  // A sixth auction is refused with the id that was sent, and one that the database does not
  // take with 0. Any other is live from then on.
  lemma RegisterTerms(h: House, a: Auction, sentId: int, newId: int)
    ensures var (h', r) := Step(h, Register(a, sentId, newId));
      if |Sells(h, a.seller)| < 5 && newId != 0 then
        r == Registered(newId) && h'.db == h.db[newId := a] && h'.log.mails == h.log.mails
      else h' == h && r == Registered(if |Sells(h, a.seller)| < 5 then 0 else sentId)
  {
    assert SellerOf(h.db, a.seller) == Sells(h, a.seller);
  }

  // When a bid is taken: it is a higher one on another's live auction, and the bidder leads
  // there already, buys at once, or leads in fewer than five.
  ghost predicate Takes(h: House, c: int, id: int, bid: int)
  {
    && id in h.db && h.db[id].seller != c && bid > h.db[id].price
    && (h.db[id].buyer == c || bid >= h.db[id].buynow || |Leads(h, c)| < 5)
  }

  // The reply tells whether the bid was taken. If not, all of it comes back and nothing else
  // happens.
  lemma BidTerms(h: House, c: int, id: int, bid: int)
    ensures var (h', r) := Step(h, Bid(c, id, bid));
      r.BidReply? && (r.result == 1 <==> Takes(h, c, id, bid))
    ensures var (h', r) := Step(h, Bid(c, id, bid));
      !Takes(h, c, id, bid) ==>
        && r.zeny == bid && Returned(h'.log, c) == Returned(h.log, c) + bid
        && (r.result == 9 <==> id in h.db && h.db[id].seller != c && bid > h.db[id].price)
        && h'.db == h.db && h'.log.mails == h.log.mails && h'.log.sales == h.log.sales
  {
    assert BuyerOf(h.db, c) == Leads(h, c);
    BackAdds(PayIn(h.log, c, bid), c, bid, c);
  }

  // What the mails after a bid that was taken add: the previous buyer is repaid.
  lemma RepaidAdds(log: Ledger, a: Auction, x: int)
    ensures Received(Repaid(log, a), x) == Received(log, x) + if a.buyer > 0 && x == a.buyer then a.price else 0
  {
    SendAdds(log, a.buyer, a.price, x);
  }

  // A bid below the price to buy at once leads: nothing comes back, and whoever led before,
  // if anybody, is mailed what he bid.
  lemma LeadTerms(h: House, c: int, id: int, bid: int)
    requires Takes(h, c, id, bid) && bid < h.db[id].buynow
    ensures var (h', r) := Step(h, Bid(c, id, bid)); var a := h.db[id];
      && r == BidReply(0, 1)
      && h'.db == h.db[id := Auction(a.seller, c, a.item, bid, a.buynow)]
      && h'.log.paidBack == h.log.paidBack && h'.log.sales == h.log.sales
      && forall x :: Received(h'.log, x) == Received(h.log, x) + if a.buyer > 0 && x == a.buyer then a.price else 0
  {
    assert BuyerOf(h.db, c) == Leads(h, c);
    forall x {
      RepaidAdds(PayIn(h.log, c, bid), h.db[id], x);
    }
  }

  // Whoever bids enough to buy at once pays that price and no more, whatever he bids: the
  // rest comes back with the reply, the seller is mailed the price, and the auction is gone.
  lemma BuyTerms(h: House, c: int, id: int, bid: int)
    requires Sound(h) && Takes(h, c, id, bid) && bid >= h.db[id].buynow && c > 0
    ensures var (h', r) := Step(h, Bid(c, id, bid)); var a := h.db[id];
      && r == BidReply(bid - a.buynow, 1)
      && h'.db == h.db - {id}
      && Paid(h'.log.paidIn, Just(c)) == Paid(h.log.paidIn, Just(c)) + bid
      && Returned(h'.log, c) == Returned(h.log, c) + bid - a.buynow
      && Received(h'.log, a.seller) == Received(h.log, a.seller) + a.buynow
      && (a.buyer > 0 ==> Received(h'.log, a.buyer) == Received(h.log, a.buyer) + a.price)
      && (forall x :: x != a.seller && (x != a.buyer || x == 0) ==> Received(h'.log, x) == Received(h.log, x))
      && SaleOf(h'.log.sales, id) == Some(Sale(id, a.seller, c, a.buynow))
  {
    var a := h.db[id];
    var log := Repaid(PayIn(h.log, c, bid), a);
    var paid := PayBack(log, c, bid - a.buynow);
    InAdds(h.log, c, bid, Just(c));
    BackAdds(log, c, bid - a.buynow, c);
    forall x
      ensures Received(Deal(paid, id, a, c, a.buynow), x)
           == Received(h.log, x) + (if a.buyer > 0 && x == a.buyer then a.price else 0)
              + if x == a.seller then a.buynow else 0
    {
      RepaidAdds(PayIn(h.log, c, bid), a, x);
      GoodsAdd(paid, c, id, a.item, x);
      SendAdds(SendGoods(paid, c, id, a.item), a.seller, a.buynow, x);
    }
    SaleOne(h.log.sales, Sale(id, a.seller, c, a.buynow), id);
  }

  // An auction ends: whoever is to have the goods is mailed them, and the seller, if they
  // were sold, the last bid.
  ghost predicate Ends(h: House, h': House, id: int, sold: bool)
    requires id in h.db
  {
    var a := h.db[id];
    && h'.db == h.db - {id}
    && h'.log.paidIn == h.log.paidIn && h'.log.paidBack == h.log.paidBack
    && h'.log.sales == h.log.sales + (if sold then [Sale(id, a.seller, a.buyer, a.price)] else [])
    && (exists k :: 0 <= k < |h'.log.mails| &&
          h'.log.mails[k] == Mail(if sold then a.buyer else a.seller, 0, Some((id, a.item))))
    && forall x :: Received(h'.log, x) == Received(h.log, x) + if sold && x == a.seller then a.price else 0
  }

  lemma SoldEnds(h: House, h': House, id: int)
    requires id in h.db
    requires h'.db == h.db - {id}
    requires var a := h.db[id]; var paid := SendGoods(Send(h.log, a.seller, a.price), a.buyer, id, a.item);
      h'.log == Deal(h.log, id, a, a.buyer, a.price) || h'.log == Sold(paid, id, a.seller, a.buyer, a.price)
    ensures Ends(h, h', id, true)
  {
    var a := h.db[id];
    var n := |h.log.mails|;
    assert h'.log.mails[n] == Mail(a.buyer, 0, Some((id, a.item)))
        || h'.log.mails[n + 1] == Mail(a.buyer, 0, Some((id, a.item)));
    forall x
      ensures Received(h'.log, x) == Received(h.log, x) + if x == a.seller then a.price else 0
    {
      GoodsAdd(h.log, a.buyer, id, a.item, x);
      SendAdds(SendGoods(h.log, a.buyer, id, a.item), a.seller, a.price, x);
      SendAdds(h.log, a.seller, a.price, x);
      GoodsAdd(Send(h.log, a.seller, a.price), a.buyer, id, a.item, x);
    }
  }

  lemma UnsoldEnds(h: House, h': House, id: int)
    requires id in h.db && h' == House(h.db - {id}, SendGoods(h.log, h.db[id].seller, id, h.db[id].item))
    ensures Ends(h, h', id, false)
  {
    var a := h.db[id];
    assert h'.log.mails[|h.log.mails|] == Mail(a.seller, 0, Some((id, a.item)));
    forall x
      ensures Received(h'.log, x) == Received(h.log, x)
    {
      GoodsAdd(h.log, a.seller, id, a.item, x);
    }
  }

  // The seller, and nobody else, ends an auction that has a buyer.
  lemma CloseTerms(h: House, c: int, id: int)
    ensures var (h', r) := Step(h, Close(c, id));
      && r.CloseReply?
      && (r.result == 0 <==> id in h.db && h.db[id].seller == c && h.db[id].buyer != 0)
      && (r.result == 2 <==> id !in h.db)
      && (if r.result == 0 then Ends(h, h', id, true) else h' == h && r.result in {1, 2})
  {
    if id in h.db && h.db[id].seller == c && h.db[id].buyer != 0 {
      SoldEnds(h, CloseStep(h, c, id).0, id);
    }
  }

  // The seller, and nobody else, takes back an auction that has none.
  lemma CancelTerms(h: House, c: int, id: int)
    ensures var (h', r) := Step(h, Cancel(c, id));
      && r.CancelReply?
      && (r.result == 0 <==> id in h.db && h.db[id].seller == c && h.db[id].buyer <= 0)
      && (r.result == 1 <==> id !in h.db)
      && (r.result == 2 <==> id in h.db && h.db[id].seller != c)
      && (if r.result == 0 then Ends(h, h', id, false) else h' == h && r.result in {1, 2, 3})
  {
    if id in h.db && h.db[id].seller == c && h.db[id].buyer <= 0 {
      UnsoldEnds(h, CancelStep(h, c, id).0, id);
    }
  }

  lemma TimeoutTerms(h: House, id: int)
    ensures var h' := Step(h, Timeout(id)).0;
      if id in h.db then Ends(h, h', id, h.db[id].buyer != 0) else h' == h
  {
    if id in h.db {
      var h' := TimeoutStep(h, id).0;
      if h.db[id].buyer != 0 {
        SoldEnds(h, h', id);
      } else {
        UnsoldEnds(h, h', id);
      }
    }
  }

  // Opened at 100 zeny, to be had at once for 1000: who bids 1500 gets 500 back, and the
  // seller is mailed 1000.
  lemma BuyExample(item: Item)
    ensures var h := Step(Nothing, Register(Auction(7, 0, item, 100, 1000), 0, 1)).0;
      var (h', r) := Step(h, Bid(8, 1, 1500));
      && r == BidReply(500, 1) && h'.db == map[]
      && Paid(h'.log.paidIn, Everyone) == 1500 && Returned(h'.log, 8) == 500
      && Received(h'.log, 7) == 1000 && Received(h'.log, 8) == 0
      && SaleOf(h'.log.sales, 1) == Some(Sale(1, 7, 8, 1000))
  {
    var e := Register(Auction(7, 0, item, 100, 1000), 0, 1);
    var h := Step(Nothing, e).0;
    NothingIsSound();
    assert Sells(Nothing, 7) == {};
    RegisterTerms(Nothing, Auction(7, 0, item, 100, 1000), 0, 1);
    StepIsSound(Nothing, e);
    BuyTerms(h, 8, 1, 1500);
    InAdds(h.log, 8, 1500, Everyone);
  }
}
