/**
 The auction service (apps/auctionhouse/service/auction.go): bids, buyouts, cancellations and expiry. The database
 table is a map, mail is a ledger, published events are a log, and every outside call may fail.
 */
module AuctionHouse {
  import opened Words
  import opened AuctionEvents

  // ----- the arithmetic, with 32-bit wrap-around -----

  const TWO32: int := 0x1_0000_0000
  const TWO31: int := 0x8000_0000
  const NEUTRAL_HOUSE: nat := 7

  function CutPercent(house: uint8): nat {
    if house == NEUTRAL_HOUSE then 15 else 5
  }

  /** calculateAuctionCut. */
  function Cut(house: uint8, bid: uint32): uint32 {
    bid * CutPercent(house) % TWO32 / 100
  }

  /** calculateOutBid. */
  function OutBid(currentBid: uint32): uint32 {
    var step := currentBid * 5 % TWO32 / 100;
    if step == 0 then 1 else step
  }

  /** A conversion to int32. */
  function AsInt32(v: uint32): int {
    if v >= TWO31 then v - TWO32 else v
  }

  function Wrap(v: int): uint32 {
    v % TWO32
  }

  /** uint32(playerGUID). */
  function Low(guid: uint64): uint32 {
    guid % TWO32
  }

  /** The largest bid whose percentage does not overflow. */
  function ExactUpTo(percent: nat): nat
    requires percent > 0
  {
    0xFFFF_FFFF / percent
  }

  lemma CutNeverExceedsBid(house: uint8, bid: uint32)
    ensures Cut(house, bid) <= bid
  {
    if bid * CutPercent(house) >= TWO32 {
      assert bid > 42949672;
    }
  }

  /** The cut is the floored percentage exactly when the product fits 32 bits. */
  lemma CutIsExact(house: uint8, bid: uint32)
    ensures Cut(house, bid) == bid * CutPercent(house) / 100 <==> bid <= ExactUpTo(CutPercent(house))
    ensures ExactUpTo(15) == 286331153 && ExactUpTo(5) == 858993459
  {
    var product := bid * CutPercent(house);
    if product >= TWO32 {
      WrappingLosesMoney(product);
    }
  }

  lemma WrappingLosesMoney(product: nat)
    requires product >= TWO32
    ensures product % TWO32 / 100 < product / 100
  {
    assert product % TWO32 <= product - TWO32;
  }

  /** House 7 is neutral and takes 15 percent, any other takes 5, rounded down, while the product fits 32 bits. */
  lemma CutPerHouse(house: uint8, bid: uint32)
    ensures house == 7 && bid <= 286331153 ==> Cut(house, bid) == bid * 15 / 100
    ensures house != 7 && bid <= 858993459 ==> Cut(house, bid) == bid * 5 / 100
  {
  }

  /** An accepted raise is five percent or one, exactly while five times the bid fits 32 bits. */
  lemma OutBidIsFivePercent(bid: uint32)
    ensures OutBid(bid) >= 1
    ensures OutBid(bid) >= bid * 5 / 100 <==> bid <= ExactUpTo(5)
    ensures bid <= 858993459 ==> OutBid(bid) == if bid < 20 then 1 else bid * 5 / 100
  {
    if bid * 5 >= TWO32 {
      WrappingLosesMoney(bid * 5);
      assert bid * 5 / 100 > 1;
    }
  }

  // ----- state -----

  datatype MailKind = Outbid | Won | Successful | ExpiredUnsold | CancelledBidder | CancelledOwner

  /** A mail: money sent, item attached, and the deposit and cut its text reports. */
  datatype Mail = Mail(kind: MailKind, receiver: uint32, money: int, item: Option<Item>, deposit: uint32, cut: uint32)

  datatype House = House(cache: Cache, rows: Cache, nextID: uint32, mails: seq<Mail>, log: seq<Event>)

  /** Which outside calls of one operation fail; a write that failed may have taken effect before its reply was lost. */
  datatype Faults = Faults(write: bool, applied: bool, pay: bool, item: bool, refund: bool, publish: bool)
  {
    /** The statement reaches the table. */
    predicate Writes() { !write || applied }
  }

  const NO_FAULTS := Faults(false, false, false, false, false, false)

  function Send(h: House, lost: bool, m: Mail): House {
    if lost then h else h.(mails := h.mails + [m])
  }

  function Publish(h: House, lost: bool, e: Event): House {
    if lost then h else h.(log := h.log + [e])
  }

  function OutbidMail(a: Auction, oldBidder: uint32, oldBid: uint32): Mail {
    Mail(Outbid, oldBidder, AsInt32(oldBid), None, a.listing.deposit, 0)
  }

  function WonMail(a: Auction): Mail {
    Mail(Won, a.bidder, 0, Some(a.listing.item), 0, 0)
  }

  /** The seller's payment: bid and deposit less the cut, as an int32, never below zero. */
  function SuccessfulMail(a: Auction): Mail {
    var cut := Cut(a.listing.house, a.lastBid);
    var profit := AsInt32(Wrap(a.lastBid + a.listing.deposit - cut));
    Mail(Successful, a.listing.owner, if profit < 0 then 0 else profit, None, a.listing.deposit, cut)
  }

  function ExpiredMail(a: Auction): Mail {
    Mail(ExpiredUnsold, a.listing.owner, 0, Some(a.listing.item), a.listing.deposit, 0)
  }

  function CancelledBidderMail(a: Auction): Mail {
    Mail(CancelledBidder, a.bidder, AsInt32(a.lastBid), None, a.listing.deposit, 0)
  }

  function CancelledOwnerMail(a: Auction): Mail {
    Mail(CancelledOwner, a.listing.owner, 0, Some(a.listing.item), a.listing.deposit, 0)
  }

  // ----- operations -----

  /** SellItem. Inserting a row whose primary key exists fails like any other failing write. */
  function Sell(h: House, realm: uint32, seller: uint64, listing: Listing, f: Faults): (House, Option<Key>) {
    var key := Key(realm, h.nextID);
    var h1 := h.(nextID := Wrap(h.nextID + 1));
    var a := Auction(listing.(owner := Low(seller)), 0, 0);
    if key in h.rows then (h1, None)
    else if f.write then (if f.applied then h1.(rows := h.rows[key := a]) else h1, None)
    else
      (Publish(h1.(rows := h.rows[key := a], cache := h.cache[key := a]), f.publish, Created(key, a.listing)), Some(key))
  }

  datatype Refusal = NotFound | OwnAuction | BidTooLow | IncrementTooLow

  datatype BidReply =
    | Refused(reason: Refusal)
    | Placed(isBuyout: bool, deduct: uint32)
    | BidFailed(isBuyout: bool, deduct: uint32)

  /** The checks of PlaceBid, in order. */
  function Refuses(h: House, key: Key, bidder: uint32, price: uint32): Option<Refusal> {
    if key !in h.cache then Some(NotFound)
    else
      var a := h.cache[key];
      if a.listing.owner == bidder then Some(OwnAuction)
      else if price <= a.lastBid || price < a.listing.startBid then Some(BidTooLow)
      else if (price < a.listing.buyout || a.listing.buyout == 0) && price < Wrap(a.lastBid + OutBid(a.lastBid)) then
        Some(IncrementTooLow)
      else None
  }

  predicate Buys(a: Auction, price: uint32) {
    price >= a.listing.buyout && a.listing.buyout > 0
  }

  /** A plain bid: the cache changes first, then the table, then the outbid player is refunded. */
  function Raise(h: House, key: Key, bidder: uint32, price: uint32, f: Faults): (House, BidReply)
    requires key in h.cache
  {
    var a := h.cache[key];
    var deduct := if a.bidder != 0 && a.bidder == bidder then Wrap(price - a.lastBid) else price;
    var b := a.(bidder := bidder, lastBid := price);
    var rows := if key in h.rows && f.Writes() then h.rows[key := h.rows[key].(bidder := bidder, lastBid := price)] else h.rows;
    var h1 := h.(cache := h.cache[key := b], rows := rows);
    if f.write then (h1, BidFailed(false, deduct))
    else
      var h3 := if a.bidder != 0 && a.bidder != bidder then Send(h1, f.refund, OutbidMail(b, a.bidder, a.lastBid)) else h1;
      (Publish(h3, f.publish, BidPlaced(key, bidder, price, false)), Placed(false, deduct))
  }

  /** A buyout: mails first, then the delete, then the cache. */
  function Buy(h: House, key: Key, bidder: uint32, f: Faults): (House, BidReply)
    requires key in h.cache
  {
    var a := h.cache[key];
    var deduct := if bidder == a.bidder then Wrap(a.listing.buyout - a.lastBid) else a.listing.buyout;
    var sold := a.(bidder := bidder, lastBid := a.listing.buyout);
    if f.pay then (h, BidFailed(true, 0))
    else
      var h1 := Send(h, false, SuccessfulMail(sold));
      if f.item then (h1, BidFailed(true, 0))
      else
        var h2 := Send(h1, false, WonMail(sold));
        var h3 := if a.bidder != 0 then Send(h2, f.refund, OutbidMail(sold, a.bidder, a.lastBid)) else h2;
        if f.write then (if f.applied then h3.(rows := h.rows - {key}) else h3, BidFailed(true, 0))
        else
          var h4 := h3.(rows := h.rows - {key}, cache := h.cache - {key});
          (Publish(h4, f.publish, BidPlaced(key, bidder, sold.lastBid, true)), Placed(true, deduct))
  }

  function PlaceBid(h: House, key: Key, player: uint64, price: uint32, f: Faults): (House, BidReply) {
    var refusal := Refuses(h, key, Low(player), price);
    if refusal.Some? then (h, Refused(refusal.value))
    else if Buys(h.cache[key], price) then Buy(h, key, Low(player), f)
    else Raise(h, key, Low(player), price, f)
  }

  datatype CancelReply = CancelNotFound | NotOwner | Cancelled(cut: uint32, failed: bool)

  function Cancel(h: House, key: Key, player: uint64, f: Faults): (House, CancelReply) {
    if key !in h.cache then (h, CancelNotFound)
    else
      var a := h.cache[key];
      if a.listing.owner != Low(player) then (h, NotOwner)
      else
        var h1 := h.(cache := h.cache - {key});
        var h2 := if a.bidder != 0 then Send(h1, f.refund, CancelledBidderMail(a)) else h1;
        var h3 := Send(h2, f.item, CancelledOwnerMail(a));
        var cut := if a.bidder != 0 then Cut(a.listing.house, a.lastBid) else 0;
        var h4 := if f.Writes() then h3.(rows := h.rows - {key}) else h3;
        if f.write then (h4, Cancelled(cut, true)) else (Publish(h4, f.publish, Canceled(key)), Cancelled(cut, false))
  }

  /** One candidate of ProcessExpiredAuctions: whoever deletes the row settles the auction. */
  function ExpireOne(h: House, key: Key, f: Faults): House {
    var h1 := h.(cache := h.cache - {key});
    if key !in h.rows then h1
    // the row may be gone all the same, and then nobody settles
    else if f.write then if f.applied then h1.(rows := h.rows - {key}) else h1
    else
      var a := h.rows[key];
      var h2 := h1.(rows := h.rows - {key});
      var h3 := if a.bidder == 0 then Send(h2, f.item, ExpiredMail(a))
                else Send(Send(h2, f.pay, SuccessfulMail(a)), f.item, WonMail(a));
      Publish(h3, f.publish, Expired(key))
  }
}
