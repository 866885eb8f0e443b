/** Bids over every run of the auction service, whatever amounts are offered and whichever outside calls fail. */
module AuctionBids {
  import opened Words
  import opened AuctionEvents
  import opened AuctionHouse
  import opened AuctionBooks

  /** A standing bid stays below the buyout price, or there is none. */
  predicate Open(a: Auction) {
    a.listing.buyout > 0 ==> a.lastBid < a.listing.buyout
  }

  ghost predicate CacheOpen(h: House) {
    forall k :: k in h.cache ==> Open(h.cache[k])
  }

  ghost predicate RowsOpen(h: House) {
    forall k :: k in h.rows ==> Open(h.rows[k])
  }

  /** Ids are taken in order, and cache and table mean the same listing by the same key. */
  ghost predicate Linked(h: House) {
    && (forall k :: k in h.cache ==> k.id < h.nextID) && (forall k :: k in h.rows ==> k.id < h.nextID)
    && (forall k :: k in h.cache && k in h.rows ==> h.cache[k].listing == h.rows[k].listing)
  }

  // ----- the cache, over every run -----

  lemma BidKeepsCacheOpen(h: House, key: Key, player: uint64, price: uint32, f: Faults)
    requires CacheOpen(h)
    ensures CacheOpen(PlaceBid(h, key, player, price, f).0)
  {
  }

  lemma TryKeepsCacheOpen(b: Books, t: Attempt)
    requires CacheOpen(b.house)
    ensures CacheOpen(Try(b, t).house)
  {
    if t.op.BidOp? {
      BidKeepsCacheOpen(b.house, t.op.key, t.op.player, t.op.price, t.faults);
    }
  }

  lemma {:induction false} BidsStayBelowBuyout(b: Books, ts: seq<Attempt>)
    requires CacheOpen(b.house)
    ensures CacheOpen(TryAll(b, ts).house)
    decreases |ts|
  {
    if ts != [] {
      TryKeepsCacheOpen(b, ts[0]);
      BidsStayBelowBuyout(Try(b, ts[0]), ts[1..]);
    }
  }

  // ----- the table, until ids run out -----

  lemma SellKeepsLinked(h: House, realm: uint32, seller: uint64, listing: Listing, f: Faults)
    requires Linked(h) && h.nextID + 1 < TWO32
    ensures var h' := Sell(h, realm, seller, listing, f).0;
            && Linked(h') && h'.nextID == h.nextID + 1
            && (RowsOpen(h) ==> RowsOpen(h'))
  {
    WrapsNot(h.nextID + 1);
  }

  lemma RaiseKeepsLinked(h: House, key: Key, bidder: uint32, price: uint32, f: Faults)
    requires Linked(h) && key in h.cache && !Buys(h.cache[key], price)
    ensures var h' := Raise(h, key, bidder, price, f).0;
            Linked(h') && h'.nextID == h.nextID && (RowsOpen(h) ==> RowsOpen(h'))
  {
    assert key in h.rows ==> h.rows[key].listing == h.cache[key].listing;
  }

  lemma BuyKeepsLinked(h: House, key: Key, bidder: uint32, f: Faults)
    requires Linked(h) && key in h.cache
    ensures var h' := Buy(h, key, bidder, f).0;
            Linked(h') && h'.nextID == h.nextID && (RowsOpen(h) ==> RowsOpen(h'))
  {
  }

  lemma CancelKeepsLinked(h: House, key: Key, player: uint64, f: Faults)
    requires Linked(h)
    ensures var h' := Cancel(h, key, player, f).0;
            Linked(h') && h'.nextID == h.nextID && (RowsOpen(h) ==> RowsOpen(h'))
  {
  }

  lemma ExpireKeepsLinked(h: House, key: Key, f: Faults)
    requires Linked(h)
    ensures var h' := ExpireOne(h, key, f);
            Linked(h') && h'.nextID == h.nextID && (RowsOpen(h) ==> RowsOpen(h'))
  {
  }

  lemma TryKeepsLinked(b: Books, t: Attempt)
    requires Linked(b.house) && b.house.nextID + 1 < TWO32
    ensures Linked(Try(b, t).house) && b.house.nextID <= Try(b, t).house.nextID <= b.house.nextID + 1
    ensures RowsOpen(b.house) ==> RowsOpen(Try(b, t).house)
  {
    var h := b.house;
    match t.op
    case SellOp(realm, seller, listing) => SellKeepsLinked(h, realm, seller, listing, t.faults);
    case BidOp(key, player, price) =>
      if Refuses(h, key, Low(player), price).None? {
        if Buys(h.cache[key], price) {
          BuyKeepsLinked(h, key, Low(player), t.faults);
        } else {
          RaiseKeepsLinked(h, key, Low(player), price, t.faults);
        }
      }
    case CancelOp(key, player) => CancelKeepsLinked(h, key, player, t.faults);
    case ExpireOp(key) => ExpireKeepsLinked(h, key, t.faults);
  }

  /** The same for the table, as long as the 32-bit id counter has not come round. */
  lemma {:induction false} RowsStayBelowBuyout(b: Books, ts: seq<Attempt>)
    requires Linked(b.house) && RowsOpen(b.house) && b.house.nextID + |ts| < TWO32
    ensures Linked(TryAll(b, ts).house) && RowsOpen(TryAll(b, ts).house)
    decreases |ts|
  {
    if ts != [] {
      TryKeepsLinked(b, ts[0]);
      RowsStayBelowBuyout(Try(b, ts[0]), ts[1..]);
    }
  }

  // ----- deductions -----

  /** What an accepted bid costs: the price reached less the bidder's own standing bid. */
  function Cost(a: Auction, bidder: uint32, price: uint32): int {
    (if Buys(a, price) then a.listing.buyout else price)
    - if a.bidder == bidder && (a.bidder != 0 || Buys(a, price)) then a.lastBid else 0
  }

  lemma RaiseDeducts(h: House, key: Key, bidder: uint32, price: uint32, f: Faults)
    requires key in h.cache && !Buys(h.cache[key], price) && price > h.cache[key].lastBid
    ensures 0 < Raise(h, key, bidder, price, f).1.deduct == Cost(h.cache[key], bidder, price)
  {
    WrapsNot(price - h.cache[key].lastBid);
  }

  lemma BuyDeducts(h: House, key: Key, bidder: uint32, price: uint32, f: Faults)
    requires key in h.cache && Open(h.cache[key]) && Buys(h.cache[key], price)
    ensures Buy(h, key, bidder, f).1.Placed?
            ==> 0 < Buy(h, key, bidder, f).1.deduct == Cost(h.cache[key], bidder, price)
  {
    WrapsNot(h.cache[key].listing.buyout - h.cache[key].lastBid);
  }

  lemma WrapsNot(v: int)
    requires 0 <= v < TWO32
    ensures Wrap(v) == v
  {
  }

  lemma BidDeducts(h: House, key: Key, player: uint64, price: uint32, f: Faults)
    requires CacheOpen(h)
    ensures var reply := PlaceBid(h, key, player, price, f).1;
            reply.Placed? ==> key in h.cache && 0 < reply.deduct == Cost(h.cache[key], Low(player), price)
  {
    if Refuses(h, key, Low(player), price).None? {
      if Buys(h.cache[key], price) {
        BuyDeducts(h, key, Low(player), price, f);
      } else {
        RaiseDeducts(h, key, Low(player), price, f);
      }
    }
  }

  /** In every reachable state the deduction of an accepted bid is that cost: neither subtraction wraps. */
  lemma DeductionsNeverWrap(ts: seq<Attempt>, key: Key, player: uint64, price: uint32, f: Faults)
    ensures var h := TryAll(OPENING, ts).house;
            var reply := PlaceBid(h, key, player, price, f).1;
            reply.Placed? ==> key in h.cache && 0 < reply.deduct == Cost(h.cache[key], Low(player), price)
  {
    BidsStayBelowBuyout(OPENING, ts);
    BidDeducts(TryAll(OPENING, ts).house, key, player, price, f);
  }
}
