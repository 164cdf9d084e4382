// The auction house as a state machine over its requests and timers, with a ledger of what
// goes in and out.
module AuctionRules {
  import opened Settings
  import opened Sets

  // The goods, as far as the auction house cares: it only passes them on.
  datatype Item = Item(nameid: int, refine: int, attribute: int, unique: int, cards: seq<int>)

  // A buyer of 0 is none.
  datatype Auction = Auction(seller: int, buyer: int, item: Item, price: int, buynow: int)

  // A mail with zeny, or with the goods of an auction.
  datatype Mail = Mail(dest: int, zeny: int, parcel: Option<(int, Item)>)

  datatype Payment = Payment(char_: int, zeny: int)

  // What an auction that ended with a buyer came to.
  datatype Sale = Sale(id: int, seller: int, buyer: int, price: int)

  // What an auction started with.
  datatype Lot = Lot(seller: int, item: Item, opening: int, buynow: int)

  // Zeny handed in with bids and returned in replies to bids, mails sent, auctions that
  // ended with a buyer, and every auction that there has been.
  datatype Ledger = Ledger(paidIn: seq<Payment>, paidBack: seq<Payment>, mails: seq<Mail>, sales: seq<Sale>,
                           lots: map<int, Lot>)

  datatype House = House(db: map<int, Auction>, log: Ledger)

  datatype Event =
    // The request carries an id of its own; the database gives the new auction its id, or 0
    // if it fails.
    | Register(auction: Auction, sentId: int, newId: int)
    | Bid(char_: int, id: int, bid: int)
    | Close(char_: int, id: int)
    | Cancel(char_: int, id: int)
    | Timeout(id: int)

  // The result codes of the replies, and the zeny that goes back with the reply to a bid.
  datatype Reply = Registered(id: int) | BidReply(zeny: int, result: int) | CloseReply(result: int)
    | CancelReply(result: int) | Silent

  const Nothing: House := House(map[], Ledger([], [], [], [], map[]))

  // ---------- The steps ----------

  function SellerOf(db: map<int, Auction>, c: int): set<int>
  {
    set id | id in db && db[id].seller == c
  }

  function BuyerOf(db: map<int, Auction>, c: int): set<int>
  {
    set id | id in db && db[id].buyer == c
  }

  function Send(log: Ledger, dest: int, zeny: int): Ledger
  {
    log.(mails := log.mails + [Mail(dest, zeny, None)])
  }

  function SendGoods(log: Ledger, dest: int, id: int, item: Item): Ledger
  {
    log.(mails := log.mails + [Mail(dest, 0, Some((id, item)))])
  }

  function PayIn(log: Ledger, c: int, zeny: int): Ledger
  {
    log.(paidIn := log.paidIn + [Payment(c, zeny)])
  }

  function PayBack(log: Ledger, c: int, zeny: int): Ledger
  {
    log.(paidBack := log.paidBack + [Payment(c, zeny)])
  }

  function Sold(log: Ledger, id: int, seller: int, buyer: int, price: int): Ledger
  {
    log.(sales := log.sales + [Sale(id, seller, buyer, price)])
  }

  function RegisterStep(h: House, a: Auction, sentId: int, newId: int): (House, Reply)
  {
    if |SellerOf(h.db, a.seller)| >= 5 then (h, Registered(sentId))
    else if newId == 0 then (h, Registered(0))
    else
      var lot := Lot(a.seller, a.item, a.price, a.buynow);
      (House(h.db[newId := a], h.log.(lots := h.log.lots[newId := lot])), Registered(newId))
  }

  // The bid is refused, and the zeny goes back.
  function Refuse(h: House, c: int, bid: int, result: int): (House, Reply)
  {
    (h.(log := PayBack(PayIn(h.log, c, bid), c, bid)), BidReply(bid, result))
  }

  // The previous buyer gets back what he has paid.
  function Repaid(log: Ledger, a: Auction): Ledger
  {
    if a.buyer > 0 then Send(log, a.buyer, a.price) else log
  }

  // The buyer gets the goods for this price and the seller the zeny.
  function Deal(log: Ledger, id: int, a: Auction, buyer: int, price: int): Ledger
  {
    Sold(Send(SendGoods(log, buyer, id, a.item), a.seller, price), id, a.seller, buyer, price)
  }

  // A bid that is taken: the bidder leads, or buys at once.
  function Take(h: House, c: int, id: int, bid: int): (House, Reply)
    requires id in h.db
  {
    var a := h.db[id];
    var log := Repaid(PayIn(h.log, c, bid), a);
    if bid >= a.buynow then
      (House(h.db - {id}, Deal(PayBack(log, c, bid - a.buynow), id, a, c, a.buynow)), BidReply(bid - a.buynow, 1))
    else (House(h.db[id := a.(buyer := c, price := bid)], log), BidReply(0, 1))
  }

  function BidStep(h: House, c: int, id: int, bid: int): (House, Reply)
  {
    if id !in h.db || h.db[id].price >= bid || h.db[id].seller == c then Refuse(h, c, bid, 0)
    else if |BuyerOf(h.db, c)| > 4 && bid < h.db[id].buynow && h.db[id].buyer != c then Refuse(h, c, bid, 9)
    else Take(h, c, id, bid)
  }

  function CloseStep(h: House, c: int, id: int): (House, Reply)
  {
    if id !in h.db then (h, CloseReply(2))
    else if h.db[id].seller != c || h.db[id].buyer == 0 then (h, CloseReply(1))
    else
      var a := h.db[id];
      var log := SendGoods(Send(h.log, a.seller, a.price), a.buyer, id, a.item);
      (House(h.db - {id}, Sold(log, id, a.seller, a.buyer, a.price)), CloseReply(0))
  }

  function CancelStep(h: House, c: int, id: int): (House, Reply)
  {
    if id !in h.db then (h, CancelReply(1))
    else if h.db[id].seller != c then (h, CancelReply(2))
    else if h.db[id].buyer > 0 then (h, CancelReply(3))
    else
      var a := h.db[id];
      (House(h.db - {id}, SendGoods(h.log, a.seller, id, a.item)), CancelReply(0))
  }

  function TimeoutStep(h: House, id: int): (House, Reply)
  {
    if id !in h.db then (h, Silent)
    else
      var a := h.db[id];
      var log := if a.buyer != 0 then Deal(h.log, id, a, a.buyer, a.price)
        else SendGoods(h.log, a.seller, id, a.item);
      (House(h.db - {id}, log), Silent)
  }

  function Step(h: House, e: Event): (House, Reply)
  {
    match e
    case Register(a, sentId, newId) => RegisterStep(h, a, sentId, newId)
    case Bid(c, id, bid) => BidStep(h, c, id, bid)
    case Close(c, id) => CloseStep(h, c, id)
    case Cancel(c, id) => CancelStep(h, c, id)
    case Timeout(id) => TimeoutStep(h, id)
  }

  // An auction is registered without a buyer, under an id that is new; ids are positive.
  ghost predicate Proper(h: House, e: Event)
  {
    match e
    case Register(a, _, newId) => a.seller > 0 && a.buyer == 0 && newId >= 0 && (newId != 0 ==> newId !in h.log.lots)
    case Bid(c, id, bid) => c > 0
    case _ => true
  }

  // ---------- Zeny ----------

  // Whose zeny is counted.
  datatype Who = Everyone | Just(char_: int)

  // The part of what c has that is counted.
  function Portion(who: Who, c: int, zeny: int): int
  {
    if who.Everyone? || who.char_ == c then zeny else 0
  }

  function Held(a: Auction, who: Who): int
  {
    if a.buyer != 0 then Portion(who, a.buyer, a.price) else 0
  }

  ghost function HeldFor(db: map<int, Auction>, ids: set<int>, who: Who): int
    requires ids <= db.Keys
    decreases |ids|
  {
    if |ids| == 0 then 0
    else
      var id := Any(ids);
      Held(db[id], who) + HeldFor(db, ids - {id}, who)
  }

  // The zeny in the house's keeping: the price of every live auction that has a buyer.
  ghost function Escrow(db: map<int, Auction>, who: Who): int
  {
    HeldFor(db, db.Keys, who)
  }

  function Paid(ps: seq<Payment>, who: Who): int
  {
    if ps == [] then 0
    else
      var p := ps[|ps| - 1];
      Paid(ps[..|ps| - 1], who) + Portion(who, p.char_, p.zeny)
  }

  function Mailed(mails: seq<Mail>, who: Who): int
  {
    if mails == [] then 0
    else
      var m := mails[|mails| - 1];
      Mailed(mails[..|mails| - 1], who) + Portion(who, m.dest, m.zeny)
  }

  // What sellers have earned with their auctions, and what buyers have spent on them.
  function Earned(sales: seq<Sale>, who: Who): int
  {
    if sales == [] then 0
    else
      var s := sales[|sales| - 1];
      Earned(sales[..|sales| - 1], who) + Portion(who, s.seller, s.price)
  }

  function Spent(sales: seq<Sale>, who: Who): int
  {
    if sales == [] then 0
    else
      var s := sales[|sales| - 1];
      Spent(sales[..|sales| - 1], who) + Portion(who, s.buyer, s.price)
  }

  // What the ledger says is still owed.
  function Owed(log: Ledger, who: Who): int
  {
    Paid(log.paidIn, who) + Earned(log.sales, who)
    - Paid(log.paidBack, who) - Mailed(log.mails, who) - Spent(log.sales, who)
  }

  // What is owed is what is held.
  ghost predicate BalancedFor(h: House, who: Who)
  {
    Owed(h.log, who) == Escrow(h.db, who)
  }

  // For everybody: the zeny he has handed in and earned has been returned or mailed to him
  // or spent on his purchases, or is held for his leading bids.
  ghost predicate Balanced(h: House)
  {
    forall who :: BalancedFor(h, who)
  }

  lemma {:induction false} EarnedIsSpent(sales: seq<Sale>)
    ensures Earned(sales, Everyone) == Spent(sales, Everyone)
  {
    if sales != [] {
      EarnedIsSpent(sales[..|sales| - 1]);
    }
  }

  // All in all, zeny handed in is returned, mailed, or in the house's keeping.
  lemma NothingIsLost(h: House)
    requires Balanced(h)
    ensures Paid(h.log.paidIn, Everyone)
         == Paid(h.log.paidBack, Everyone) + Mailed(h.log.mails, Everyone) + Escrow(h.db, Everyone)
  {
    assert BalancedFor(h, Everyone);
    EarnedIsSpent(h.log.sales);
  }

  lemma {:induction false} HeldWithout(db: map<int, Auction>, ids: set<int>, id: int, who: Who)
    requires ids <= db.Keys && id in ids
    ensures HeldFor(db, ids, who) == Held(db[id], who) + HeldFor(db, ids - {id}, who)
    decreases |ids|
  {
    var x := Any(ids);
    if x != id {
      HeldWithout(db, ids - {x}, id, who);
      HeldWithout(db, ids - {id}, x, who);
      assert ids - {x} - {id} == ids - {id} - {x};
    }
  }

  lemma {:induction false} HeldAgrees(db: map<int, Auction>, db': map<int, Auction>, ids: set<int>, who: Who)
    requires ids <= db.Keys && ids <= db'.Keys && forall id :: id in ids ==> db[id] == db'[id]
    ensures HeldFor(db, ids, who) == HeldFor(db', ids, who)
    decreases |ids|
  {
    if |ids| != 0 {
      var x := Any(ids);
      HeldAgrees(db, db', ids - {x}, who);
      HeldWithout(db', ids, x, who);
    }
  }

  lemma EscrowRemove(db: map<int, Auction>, id: int, who: Who)
    requires id in db
    ensures Escrow(db - {id}, who) == Escrow(db, who) - Held(db[id], who)
  {
    HeldWithout(db, db.Keys, id, who);
    assert (db - {id}).Keys == db.Keys - {id};
    HeldAgrees(db, db - {id}, db.Keys - {id}, who);
  }

  lemma EscrowPut(db: map<int, Auction>, id: int, a: Auction, who: Who)
    ensures Escrow(db[id := a], who) == Escrow(db - {id}, who) + Held(a, who)
  {
    var d := db[id := a];
    EscrowRemove(d, id, who);
    assert d - {id} == db - {id};
  }

  // What each entry does to what is owed.
  lemma OwedPayIn(log: Ledger, c: int, zeny: int, who: Who)
    ensures Owed(PayIn(log, c, zeny), who) == Owed(log, who) + Portion(who, c, zeny)
  {
    assert PayIn(log, c, zeny).paidIn[..|log.paidIn|] == log.paidIn;
  }

  lemma OwedPayBack(log: Ledger, c: int, zeny: int, who: Who)
    ensures Owed(PayBack(log, c, zeny), who) == Owed(log, who) - Portion(who, c, zeny)
  {
    assert PayBack(log, c, zeny).paidBack[..|log.paidBack|] == log.paidBack;
  }

  lemma OwedSend(log: Ledger, dest: int, zeny: int, who: Who)
    ensures Owed(Send(log, dest, zeny), who) == Owed(log, who) - Portion(who, dest, zeny)
  {
    assert Send(log, dest, zeny).mails[..|log.mails|] == log.mails;
  }

  lemma OwedSendGoods(log: Ledger, dest: int, id: int, item: Item, who: Who)
    ensures Owed(SendGoods(log, dest, id, item), who) == Owed(log, who)
  {
    assert SendGoods(log, dest, id, item).mails[..|log.mails|] == log.mails;
  }

  lemma OwedSold(log: Ledger, id: int, seller: int, buyer: int, price: int, who: Who)
    ensures Owed(Sold(log, id, seller, buyer, price), who)
         == Owed(log, who) + Portion(who, seller, price) - Portion(who, buyer, price)
  {
    assert Sold(log, id, seller, buyer, price).sales[..|log.sales|] == log.sales;
  }

  lemma OwedDeal(log: Ledger, id: int, a: Auction, buyer: int, price: int, who: Who)
    ensures Owed(Deal(log, id, a, buyer, price), who) == Owed(log, who) - Portion(who, buyer, price)
  {
    OwedSendGoods(log, buyer, id, a.item, who);
    OwedSend(SendGoods(log, buyer, id, a.item), a.seller, price, who);
    OwedSold(Send(SendGoods(log, buyer, id, a.item), a.seller, price), id, a.seller, buyer, price, who);
  }

  // What the previous buyer gets back was held for him.
  lemma OwedRepaid(log: Ledger, a: Auction, who: Who)
    requires a.buyer >= 0
    ensures Owed(Repaid(log, a), who) == Owed(log, who) - Held(a, who)
  {
    OwedSend(log, a.buyer, a.price, who);
  }

  // The buyer is nobody, or somebody who has bid above the opening price and below the
  // price to buy at once.
  ghost predicate Priced(h: House)
  {
    forall id :: id in h.db ==>
      && id in h.log.lots && h.db[id].seller > 0 && h.db[id].buynow == h.log.lots[id].buynow
      && if h.db[id].buyer == 0 then h.db[id].price == h.log.lots[id].opening
         else h.db[id].buyer > 0 && h.log.lots[id].opening < h.db[id].price < h.db[id].buynow
              && h.db[id].buyer != h.db[id].seller
  }

  lemma RegisterBalances(h: House, a: Auction, sentId: int, newId: int, who: Who)
    requires BalancedFor(h, who) && Proper(h, Register(a, sentId, newId)) && (newId != 0 ==> newId !in h.db)
    ensures BalancedFor(RegisterStep(h, a, sentId, newId).0, who)
  {
    EscrowPut(h.db, newId, a, who);
    assert newId != 0 ==> h.db - {newId} == h.db;
  }

  lemma RefuseBalances(h: House, c: int, bid: int, result: int, who: Who)
    requires BalancedFor(h, who)
    ensures BalancedFor(Refuse(h, c, bid, result).0, who)
  {
    OwedPayIn(h.log, c, bid, who);
    OwedPayBack(PayIn(h.log, c, bid), c, bid, who);
  }

  lemma LeadBalances(h: House, log: Ledger, c: int, id: int, bid: int, who: Who)
    requires id in h.db && c > 0 && Owed(log, who) == Escrow(h.db, who) + Portion(who, c, bid) - Held(h.db[id], who)
    ensures BalancedFor(House(h.db[id := h.db[id].(buyer := c, price := bid)], log), who)
  {
    EscrowRemove(h.db, id, who);
    EscrowPut(h.db, id, h.db[id].(buyer := c, price := bid), who);
  }

  lemma BuyBalances(h: House, log: Ledger, c: int, id: int, bid: int, who: Who)
    requires id in h.db && c > 0 && Owed(log, who) == Escrow(h.db, who) + Portion(who, c, bid) - Held(h.db[id], who)
    ensures var a := h.db[id];
      BalancedFor(House(h.db - {id}, Deal(PayBack(log, c, bid - a.buynow), id, a, c, a.buynow)), who)
  {
    var a := h.db[id];
    EscrowRemove(h.db, id, who);
    OwedPayBack(log, c, bid - a.buynow, who);
    OwedDeal(PayBack(log, c, bid - a.buynow), id, a, c, a.buynow, who);
  }

  lemma TakeBalances(h: House, c: int, id: int, bid: int, who: Who)
    requires BalancedFor(h, who) && c > 0 && id in h.db && h.db[id].buyer >= 0
    ensures BalancedFor(Take(h, c, id, bid).0, who)
  {
    var a := h.db[id];
    var log := Repaid(PayIn(h.log, c, bid), a);
    OwedPayIn(h.log, c, bid, who);
    OwedRepaid(PayIn(h.log, c, bid), a, who);
    LeadBalances(h, log, c, id, bid, who);
    BuyBalances(h, log, c, id, bid, who);
  }

  lemma BidBalances(h: House, c: int, id: int, bid: int, who: Who)
    requires BalancedFor(h, who) && Priced(h) && c > 0
    ensures BalancedFor(BidStep(h, c, id, bid).0, who)
  {
    hide BalancedFor, Refuse, Take, BuyerOf;
    RefuseBalances(h, c, bid, 0, who);
    RefuseBalances(h, c, bid, 9, who);
    if id in h.db {
      TakeBalances(h, c, id, bid, who);
    }
  }

  lemma CloseBalances(h: House, c: int, id: int, who: Who)
    requires BalancedFor(h, who)
    ensures BalancedFor(CloseStep(h, c, id).0, who)
  {
    hide Owed, Escrow;
    if id in h.db && h.db[id].seller == c && h.db[id].buyer != 0 {
      var a := h.db[id];
      var log := Send(h.log, a.seller, a.price);
      OwedSend(h.log, a.seller, a.price, who);
      OwedSendGoods(log, a.buyer, id, a.item, who);
      OwedSold(SendGoods(log, a.buyer, id, a.item), id, a.seller, a.buyer, a.price, who);
      EscrowRemove(h.db, id, who);
    }
  }

  lemma CancelBalances(h: House, c: int, id: int, who: Who)
    requires BalancedFor(h, who) && Priced(h)
    ensures BalancedFor(CancelStep(h, c, id).0, who)
  {
    hide Owed, Escrow;
    if id in h.db && h.db[id].seller == c && h.db[id].buyer <= 0 {
      OwedSendGoods(h.log, c, id, h.db[id].item, who);
      EscrowRemove(h.db, id, who);
    }
  }

  lemma TimeoutBalances(h: House, id: int, who: Who)
    requires BalancedFor(h, who)
    ensures BalancedFor(TimeoutStep(h, id).0, who)
  {
    hide Owed, Escrow;
    if id in h.db {
      var a := h.db[id];
      OwedDeal(h.log, id, a, a.buyer, a.price, who);
      OwedSendGoods(h.log, a.seller, id, a.item, who);
      EscrowRemove(h.db, id, who);
    }
  }

  // Sold by its seller to somebody else, at the price to buy at once, or else at a bid above
  // the opening price and below that.
  ghost predicate Fair(lots: map<int, Lot>, s: Sale)
  {
    && s.id in lots && s.seller == lots[s.id].seller && s.buyer > 0 && s.buyer != s.seller
    && (s.price == lots[s.id].buynow || lots[s.id].opening < s.price < lots[s.id].buynow)
  }

  ghost predicate FairlySold(log: Ledger)
  {
    forall s :: s in log.sales ==> Fair(log.lots, s)
  }

  lemma BidPrices(h: House, c: int, id: int, bid: int)
    requires Priced(h) && c > 0
    ensures Priced(BidStep(h, c, id, bid).0)
  {
    hide BuyerOf;
  }

  lemma StepPrices(h: House, e: Event)
    requires Priced(h) && Proper(h, e)
    ensures Priced(Step(h, e).0)
  {
    hide BidStep, SellerOf;
    if e.Bid? {
      BidPrices(h, e.char_, e.id, e.bid);
    }
  }

  lemma StepSells(h: House, e: Event)
    requires Priced(h) && GoodsKept(h) && FairlySold(h.log) && Proper(h, e)
    ensures FairlySold(Step(h, e).0.log)
  {
    var log := Step(h, e).0.log;
    forall id | id in h.db
      ensures id in h.log.lots && h.db[id].seller == h.log.lots[id].seller
    {
      assert GoodsAt(h, id);
    }
    forall s | s in log.sales
      ensures Fair(log.lots, s)
    {
      assert s in h.log.sales ==> Fair(h.log.lots, s);
    }
  }

  // If the price to buy at once is above the opening price, every sale is within the two.
  lemma SaleWithinPrices(h: House, s: Sale)
    requires Sound(h) && s in h.log.sales && h.log.lots[s.id].opening < h.log.lots[s.id].buynow
    ensures h.log.lots[s.id].opening < s.price <= h.log.lots[s.id].buynow
  {
    assert Fair(h.log.lots, s);
  }

  // ---------- Goods ----------

  function Parcels(mails: seq<Mail>, id: int): nat
  {
    if mails == [] then 0
    else
      var m := mails[|mails| - 1];
      Parcels(mails[..|mails| - 1], id) + if m.parcel.Some? && m.parcel.value.0 == id then 1 else 0
  }

  lemma ParcelsOne(mails: seq<Mail>, m: Mail, id: int)
    ensures Parcels(mails + [m], id) == Parcels(mails, id) + if m.parcel.Some? && m.parcel.value.0 == id then 1 else 0
  {
    assert (mails + [m])[..|mails|] == mails;
  }

  // How auction id was sold, if it was.
  function SaleOf(sales: seq<Sale>, id: int): Option<Sale>
  {
    if sales == [] then None
    else
      var s := sales[|sales| - 1];
      if s.id == id then Some(s) else SaleOf(sales[..|sales| - 1], id)
  }

  lemma SaleOne(sales: seq<Sale>, s: Sale, id: int)
    ensures SaleOf(sales + [s], id) == if s.id == id then Some(s) else SaleOf(sales, id)
  {
    assert (sales + [s])[..|sales|] == sales;
  }

  // Who is to have the goods of auction id when it is over: the buyer, or else the seller.
  function Owner(log: Ledger, id: int): int
    requires id in log.lots
  {
    if SaleOf(log.sales, id).Some? then SaleOf(log.sales, id).value.buyer else log.lots[id].seller
  }

  // The goods of auction id are where they should be: in the auction while it lives, and
  // then mailed exactly once.
  ghost predicate GoodsAt(h: House, id: int)
  {
    && (id in h.db ==> id in h.log.lots && h.db[id].item == h.log.lots[id].item
                       && h.db[id].seller == h.log.lots[id].seller && SaleOf(h.log.sales, id) == None)
    && (SaleOf(h.log.sales, id).Some? ==>
          id in h.log.lots && SaleOf(h.log.sales, id).value.seller == h.log.lots[id].seller)
    && Parcels(h.log.mails, id) == if id in h.log.lots && id !in h.db then 1 else 0
  }

  // The parcel is the goods of an auction that is over, sent to whom they belong.
  ghost predicate Delivered(h: House, m: Mail)
  {
    m.parcel.Some? ==> var (id, item) := m.parcel.value;
      id in h.log.lots && id !in h.db && item == h.log.lots[id].item && m.dest == Owner(h.log, id)
  }

  ghost predicate GoodsKept(h: House)
  {
    (forall id :: GoodsAt(h, id)) && forall m :: m in h.log.mails ==> Delivered(h, m)
  }

  // Mails of zeny and payments have no part in it.
  lemma OnlyZeny(h: House, log: Ledger)
    requires GoodsKept(h) && log.lots == h.log.lots && log.sales == h.log.sales
    requires log.mails == h.log.mails ||
      exists dest, zeny :: log.mails == h.log.mails + [Mail(dest, zeny, None)]
    ensures GoodsKept(House(h.db, log))
  {
    if log.mails != h.log.mails {
      var dest, zeny :| log.mails == h.log.mails + [Mail(dest, zeny, None)];
      forall id
        ensures GoodsAt(House(h.db, log), id)
      {
        assert GoodsAt(h, id);
        ParcelsOne(h.log.mails, Mail(dest, zeny, None), id);
      }
    } else {
      assert forall id :: GoodsAt(h, id) ==> GoodsAt(House(h.db, log), id);
    }
    assert forall m :: Delivered(h, m) ==> Delivered(House(h.db, log), m);
  }

  // Auction id is over: its goods are mailed, and a sale may be entered.
  function Over(h: House, dest: int, id: int, sold: seq<Sale>): House
    requires id in h.db
  {
    var log := SendGoods(h.log, dest, id, h.db[id].item);
    House(h.db - {id}, log.(sales := log.sales + sold))
  }

  // A sale by the seller to whom the goods go, or none if they go back to the seller.
  predicate IsSale(h: House, dest: int, id: int, sold: seq<Sale>)
    requires id in h.db
  {
    if sold == [] then dest == h.db[id].seller
    else |sold| == 1 && sold[0].id == id && sold[0].buyer == dest && sold[0].seller == h.db[id].seller
  }

  lemma OverSales(h: House, dest: int, id: int, sold: seq<Sale>, x: int)
    requires id in h.db && IsSale(h, dest, id, sold)
    ensures SaleOf(h.log.sales + sold, x) == if x == id && sold != [] then Some(sold[0]) else SaleOf(h.log.sales, x)
  {
    if sold == [] {
      assert h.log.sales + sold == h.log.sales;
    } else {
      assert sold == [sold[0]];
      SaleOne(h.log.sales, sold[0], x);
    }
  }

  lemma OverGoods(h: House, dest: int, id: int, sold: seq<Sale>, x: int)
    requires id in h.db && IsSale(h, dest, id, sold) && GoodsAt(h, x) && GoodsAt(h, id)
    ensures GoodsAt(Over(h, dest, id, sold), x)
  {
    OverSales(h, dest, id, sold, x);
    ParcelsOne(h.log.mails, Mail(dest, 0, Some((id, h.db[id].item))), x);
  }

  lemma OverDelivered(h: House, dest: int, id: int, sold: seq<Sale>, m: Mail)
    requires id in h.db && IsSale(h, dest, id, sold) && GoodsAt(h, id)
    requires Delivered(h, m) || m == Mail(dest, 0, Some((id, h.db[id].item)))
    ensures Delivered(Over(h, dest, id, sold), m)
  {
    if m.parcel.Some? {
      OverSales(h, dest, id, sold, m.parcel.value.0);
    }
  }

  lemma OverKeepsGoods(h: House, dest: int, id: int, sold: seq<Sale>)
    requires GoodsKept(h) && id in h.db && IsSale(h, dest, id, sold)
    ensures GoodsKept(Over(h, dest, id, sold))
  {
    var h' := Over(h, dest, id, sold);
    assert GoodsAt(h, id);
    forall x
      ensures GoodsAt(h', x)
    {
      assert GoodsAt(h, x);
      OverGoods(h, dest, id, sold, x);
    }
    forall m | m in h'.log.mails
      ensures Delivered(h', m)
    {
      assert m in h.log.mails ==> Delivered(h, m);
      OverDelivered(h, dest, id, sold, m);
    }
  }

  // The goods go back to the seller.
  lemma GoodsBack(h: House, id: int)
    requires GoodsKept(h) && id in h.db
    ensures GoodsKept(House(h.db - {id}, SendGoods(h.log, h.db[id].seller, id, h.db[id].item)))
  {
    OverKeepsGoods(h, h.db[id].seller, id, []);
    assert h.log.sales + [] == h.log.sales;
  }

  // They go to the buyer, and the sale is entered.
  lemma GoodsSold(h: House, id: int, buyer: int, price: int)
    requires GoodsKept(h) && id in h.db
    ensures var a := h.db[id];
      GoodsKept(House(h.db - {id}, Sold(SendGoods(h.log, buyer, id, a.item), id, a.seller, buyer, price)))
  {
    OverKeepsGoods(h, buyer, id, [Sale(id, h.db[id].seller, buyer, price)]);
  }

  // The order of the entries for a sale does not matter for the goods.
  lemma DealKeepsGoods(h: House, id: int, buyer: int, price: int)
    requires GoodsKept(h) && id in h.db
    ensures GoodsKept(House(h.db - {id}, Deal(h.log, id, h.db[id], buyer, price)))
  {
    var a := h.db[id];
    GoodsSold(h, id, buyer, price);
    var sold := House(h.db - {id}, Sold(SendGoods(h.log, buyer, id, a.item), id, a.seller, buyer, price));
    var log := Deal(h.log, id, a, buyer, price);
    assert log.mails == sold.log.mails + [Mail(a.seller, price, None)];
    OnlyZeny(sold, log);
  }

  lemma StepKeepsGoods(h: House, e: Event)
    requires GoodsKept(h) && Priced(h) && Proper(h, e)
    ensures GoodsKept(Step(h, e).0)
  {
    match e
    case Register(a, sentId, newId) => RegisterKeepsGoods(h, a, sentId, newId);
    case Bid(c, id, bid) => BidKeepsGoods(h, c, id, bid);
    case Close(c, id) => CloseKeepsGoods(h, c, id);
    case Cancel(c, id) =>
      if id in h.db {
        GoodsBack(h, id);
      }
    case Timeout(id) =>
      if id in h.db {
        GoodsBack(h, id);
        DealKeepsGoods(h, id, h.db[id].buyer, h.db[id].price);
      }
  }

  lemma CloseKeepsGoods(h: House, c: int, id: int)
    requires GoodsKept(h)
    ensures GoodsKept(CloseStep(h, c, id).0)
  {
    if id in h.db && h.db[id].seller == c && h.db[id].buyer != 0 {
      var a := h.db[id];
      var log := Send(h.log, a.seller, a.price);
      assert log.mails == h.log.mails + [Mail(a.seller, a.price, None)];
      OnlyZeny(h, log);
      GoodsSold(House(h.db, log), id, a.buyer, a.price);
    }
  }

  lemma RegisterKeepsGoods(h: House, a: Auction, sentId: int, newId: int)
    requires GoodsKept(h) && Proper(h, Register(a, sentId, newId))
    ensures GoodsKept(RegisterStep(h, a, sentId, newId).0)
  {
    var h' := RegisterStep(h, a, sentId, newId).0;
    forall id
      ensures GoodsAt(h', id)
    {
      assert GoodsAt(h, id);
    }
    assert forall m :: Delivered(h, m) ==> Delivered(h', m);
  }

  lemma OnlyBuyer(h: House, id: int, c: int, bid: int)
    requires GoodsKept(h) && id in h.db
    ensures GoodsKept(House(h.db[id := h.db[id].(buyer := c, price := bid)], h.log))
  {
    var h' := House(h.db[id := h.db[id].(buyer := c, price := bid)], h.log);
    forall x
      ensures GoodsAt(h', x)
    {
      assert GoodsAt(h, x);
    }
    assert forall m :: Delivered(h, m) ==> Delivered(h', m);
  }

  lemma RefuseKeepsGoods(h: House, c: int, bid: int, result: int)
    requires GoodsKept(h)
    ensures GoodsKept(Refuse(h, c, bid, result).0)
  {
    OnlyZeny(h, Refuse(h, c, bid, result).0.log);
  }

  lemma TakeKeepsGoods(h: House, c: int, id: int, bid: int)
    requires GoodsKept(h) && id in h.db
    ensures GoodsKept(Take(h, c, id, bid).0)
  {
    var a := h.db[id];
    var log := Repaid(PayIn(h.log, c, bid), a);
    assert log.mails == h.log.mails || log.mails == h.log.mails + [Mail(a.buyer, a.price, None)];
    OnlyZeny(h, log);
    OnlyBuyer(House(h.db, log), id, c, bid);
    OnlyZeny(House(h.db, log), PayBack(log, c, bid - a.buynow));
    DealKeepsGoods(House(h.db, PayBack(log, c, bid - a.buynow)), id, c, a.buynow);
  }

  lemma BidKeepsGoods(h: House, c: int, id: int, bid: int)
    requires GoodsKept(h)
    ensures GoodsKept(BidStep(h, c, id, bid).0)
  {
    hide GoodsKept, Refuse, Take, BuyerOf;
    RefuseKeepsGoods(h, c, bid, 0);
    RefuseKeepsGoods(h, c, bid, 9);
    if id in h.db {
      TakeKeepsGoods(h, c, id, bid);
    }
  }

  // ---------- Quotas ----------

  // Nobody sells in more than five live auctions or leads in more than five.
  ghost predicate WithinQuota(h: House)
  {
    forall c :: c > 0 ==> QuotaOf(h.db, c)
  }

  ghost predicate QuotaOf(db: map<int, Auction>, c: int)
  {
    |SellerOf(db, c)| <= 5 && |BuyerOf(db, c)| <= 5
  }

  lemma RemoveQuota(h: House, id: int, log: Ledger)
    requires WithinQuota(h)
    ensures WithinQuota(House(h.db - {id}, log))
  {
    forall c | c > 0
      ensures QuotaOf(h.db - {id}, c)
    {
      assert QuotaOf(h.db, c);
      SubsetIsSmaller(SellerOf(h.db - {id}, c), SellerOf(h.db, c));
      SubsetIsSmaller(BuyerOf(h.db - {id}, c), BuyerOf(h.db, c));
    }
  }

  lemma NewSeller(db: map<int, Auction>, id: int, a: Auction, c: int)
    requires id !in db && a.buyer == 0 && c > 0
    ensures |SellerOf(db[id := a], c)| == |SellerOf(db, c)| + if c == a.seller then 1 else 0
    ensures BuyerOf(db[id := a], c) == BuyerOf(db, c)
  {
    if c == a.seller {
      assert SellerOf(db[id := a], c) == SellerOf(db, c) + {id};
    } else {
      assert SellerOf(db[id := a], c) == SellerOf(db, c);
    }
  }

  lemma RegisterQuota(h: House, a: Auction, sentId: int, newId: int)
    requires WithinQuota(h) && Priced(h) && Proper(h, Register(a, sentId, newId)) && (newId != 0 ==> newId !in h.db)
    ensures WithinQuota(RegisterStep(h, a, sentId, newId).0)
  {
    if |SellerOf(h.db, a.seller)| < 5 && newId != 0 {
      var d := h.db[newId := a];
      forall c | c > 0
        ensures QuotaOf(d, c)
      {
        assert QuotaOf(h.db, c);
        NewSeller(h.db, newId, a, c);
      }
    }
  }

  lemma LeadQuota(h: House, c: int, id: int, bid: int)
    requires WithinQuota(h) && id in h.db && c > 0
    requires |BuyerOf(h.db, c)| <= 4 || h.db[id].buyer == c
    ensures WithinQuota(House(h.db[id := h.db[id].(buyer := c, price := bid)], h.log))
  {
    var d := h.db[id := h.db[id].(buyer := c, price := bid)];
    forall x | x > 0
      ensures QuotaOf(d, x)
    {
      assert QuotaOf(h.db, x);
      assert SellerOf(d, x) == SellerOf(h.db, x);
      if x == c {
        assert BuyerOf(d, x) == BuyerOf(h.db, x) + {id};
      } else {
        SubsetIsSmaller(BuyerOf(d, x), BuyerOf(h.db, x));
      }
    }
  }

  lemma StepKeepsQuota(h: House, e: Event)
    requires WithinQuota(h) && Priced(h) && GoodsKept(h) && Proper(h, e)
    ensures WithinQuota(Step(h, e).0)
  {
    match e
    case Register(a, sentId, newId) =>
      assert GoodsAt(h, newId);
      RegisterQuota(h, a, sentId, newId);
    case Bid(c, id, bid) =>
      var h' := BidStep(h, c, id, bid).0;
      RemoveQuota(h, id, h'.log);
      if id in h.db && (|BuyerOf(h.db, c)| <= 4 || h.db[id].buyer == c) {
        LeadQuota(h, c, id, bid);
      }
    case Close(c, id) => RemoveQuota(h, id, CloseStep(h, c, id).0.log);
    case Cancel(c, id) => RemoveQuota(h, id, CancelStep(h, c, id).0.log);
    case Timeout(id) => RemoveQuota(h, id, TimeoutStep(h, id).0.log);
  }

  // ---------- Whole runs ----------

  ghost predicate Sound(h: House)
  {
    Balanced(h) && Priced(h) && FairlySold(h.log) && GoodsKept(h) && WithinQuota(h)
  }

  lemma NothingIsSound()
    ensures Sound(Nothing)
  {
    assert forall id :: GoodsAt(Nothing, id);
    assert Nothing.db.Keys == {};
    assert forall who :: BalancedFor(Nothing, who);
    forall c | c > 0
      ensures QuotaOf(Nothing.db, c)
    {
      assert SellerOf(Nothing.db, c) == {} && BuyerOf(Nothing.db, c) == {};
    }
  }

  lemma StepIsSound(h: House, e: Event)
    requires Sound(h) && Proper(h, e)
    ensures Sound(Step(h, e).0)
  {
    StepPrices(h, e);
    StepSells(h, e);
    StepKeepsGoods(h, e);
    StepKeepsQuota(h, e);
    StepBalances(h, e);
  }

  lemma StepBalances(h: House, e: Event)
    requires Sound(h) && Proper(h, e)
    ensures Balanced(Step(h, e).0)
  {
    forall who
      ensures BalancedFor(Step(h, e).0, who)
    {
      assert BalancedFor(h, who);
      BalancesFor(h, e, who);
    }
  }

  lemma BalancesFor(h: House, e: Event, who: Who)
    requires BalancedFor(h, who) && Priced(h) && GoodsKept(h) && Proper(h, e)
    ensures BalancedFor(Step(h, e).0, who)
  {
    match e
    case Register(a, sentId, newId) =>
      assert GoodsAt(h, newId);
      RegisterBalances(h, a, sentId, newId, who);
    case Bid(c, id, bid) => BidBalances(h, c, id, bid, who);
    case Close(c, id) => CloseBalances(h, c, id, who);
    case Cancel(c, id) => CancelBalances(h, c, id, who);
    case Timeout(id) => TimeoutBalances(h, id, who);
  }

  function Run(h: House, es: seq<Event>): House
    decreases |es|
  {
    if es == [] then h else Run(Step(h, es[0]).0, es[1..])
  }

  ghost predicate AllProper(h: House, es: seq<Event>)
    decreases |es|
  {
    es != [] ==> Proper(h, es[0]) && AllProper(Step(h, es[0]).0, es[1..])
  }

  // From an empty house on, whatever happens, no zeny and no goods are lost or made up, and
  // the quotas hold.
  lemma {:induction false} RunIsSound(h: House, es: seq<Event>)
    requires Sound(h) && AllProper(h, es)
    ensures Sound(Run(h, es))
    decreases |es|
  {
    if es != [] {
      StepIsSound(h, es[0]);
      RunIsSound(Step(h, es[0]).0, es[1..]);
    }
  }
}
