/** The service object: the operations of AuctionHouse as the source performs them, field by field. */
module AuctionService {
  import opened Words
  import opened AuctionEvents
  import opened AuctionHouse

  class AuctionService {
    var auctions: Cache
    var nextID: uint32
    /** The auctionhouse table. */
    var rows: Cache
    /** Mail sent and events published so far. */
    var mails: seq<Mail>
    var log: seq<Event>

    ghost function State(): House
      reads this
    {
      House(auctions, rows, nextID, mails, log)
    }

    constructor ()
      ensures State() == House(map[], map[], 0, [], [])
    {
      auctions, nextID, rows, mails, log := map[], 0, map[], [], [];
    }

    method SendMail(m: Mail, lost: bool) returns (ok: bool)
      modifies `mails
      ensures mails == (if lost then old(mails) else old(mails) + [m]) && ok == !lost
    {
      if !lost {
        mails := mails + [m];
      }
      ok := !lost;
    }

    method PublishEvent(e: Event, lost: bool)
      modifies `log
      ensures log == if lost then old(log) else old(log) + [e]
    {
      if !lost {
        log := log + [e];
      }
    }

    // The repository: a statement may fail, and may have reached the table when it does.

    method InsertAuction(key: Key, entry: Auction, f: Faults) returns (ok: bool)
      modifies `rows
      ensures ok == (!f.write && key !in old(rows))
      ensures rows == if f.Writes() && key !in old(rows) then old(rows)[key := entry] else old(rows)
    {
      ok := !f.write && key !in rows;
      if f.Writes() && key !in rows {
        rows := rows[key := entry];
      }
    }

    method UpdateBid(key: Key, bidder: uint32, price: uint32, f: Faults) returns (ok: bool)
      modifies `rows
      ensures ok == !f.write
      ensures rows == if f.Writes() && key in old(rows)
                      then old(rows)[key := old(rows)[key].(bidder := bidder, lastBid := price)] else old(rows)
    {
      if f.Writes() && key in rows {
        rows := rows[key := rows[key].(bidder := bidder, lastBid := price)];
      }
      ok := !f.write;
    }

    method DeleteAuction(key: Key, f: Faults) returns (ok: bool)
      modifies `rows
      ensures ok == !f.write && rows == if f.Writes() then old(rows) - {key} else old(rows)
    {
      if f.Writes() {
        rows := rows - {key};
      }
      ok := !f.write;
    }

    method SellItem(realm: uint32, seller: uint64, listing: Listing, f: Faults) returns (id: Option<Key>)
      modifies this
      ensures (State(), id) == Sell(old(State()), realm, seller, listing, f)
    {
      var key := Key(realm, nextID);
      nextID := Wrap(nextID + 1);
      var entry := Auction(listing.(owner := Low(seller)), 0, 0);
      var ok := InsertAuction(key, entry, f);
      if !ok {
        return None;
      }
      auctions := auctions[key := entry];
      PublishEvent(Created(key, entry.listing), f.publish);
      id := Some(key);
    }

    method PlaceBid(key: Key, player: uint64, price: uint32, f: Faults) returns (reply: BidReply)
      modifies this
      ensures (State(), reply) == AuctionHouse.PlaceBid(old(State()), key, player, price, f)
    {
      if key !in auctions {
        return Refused(NotFound);
      }
      var auction, bidder := auctions[key], Low(player);
      if auction.listing.owner == bidder {
        return Refused(OwnAuction);
      }
      if price <= auction.lastBid || price < auction.listing.startBid {
        return Refused(BidTooLow);
      }
      var outBid := OutBid(auction.lastBid);
      if (price < auction.listing.buyout || auction.listing.buyout == 0) && price < Wrap(auction.lastBid + outBid) {
        return Refused(IncrementTooLow);
      }
      if price >= auction.listing.buyout && auction.listing.buyout > 0 {
        reply := Buyout(key, bidder, f);
      } else {
        reply := NormalBid(key, bidder, price, f);
      }
    }

    method NormalBid(key: Key, bidder: uint32, price: uint32, f: Faults) returns (reply: BidReply)
      requires key in auctions
      modifies this
      ensures (State(), reply) == Raise(old(State()), key, bidder, price, f)
    {
      var oldBidder, oldBid := auctions[key].bidder, auctions[key].lastBid;
      var moneyToDeduct := if oldBidder != 0 && oldBidder == bidder then Wrap(price - oldBid) else price;
      var auction := auctions[key].(bidder := bidder, lastBid := price);
      auctions := auctions[key := auction];
      var ok := UpdateBid(key, bidder, price, f);
      if !ok {
        return BidFailed(false, moneyToDeduct);
      }
      if oldBidder != 0 && oldBidder != bidder {
        var _ := SendMail(OutbidMail(auction, oldBidder, oldBid), f.refund);
      }
      PublishEvent(BidPlaced(key, bidder, price, false), f.publish);
      reply := Placed(false, moneyToDeduct);
    }

    method Buyout(key: Key, bidder: uint32, f: Faults) returns (reply: BidReply)
      requires key in auctions
      modifies this
      ensures (State(), reply) == Buy(old(State()), key, bidder, f)
    {
      var auction := auctions[key];
      var moneyToDeduct :=
        if bidder == auction.bidder then Wrap(auction.listing.buyout - auction.lastBid) else auction.listing.buyout;
      var sold := auction.(bidder := bidder, lastBid := auction.listing.buyout);
      var ok := SendMail(SuccessfulMail(sold), f.pay);
      if !ok {
        return BidFailed(true, 0);
      }
      ok := SendMail(WonMail(sold), f.item);
      if !ok {
        return BidFailed(true, 0);
      }
      if auction.bidder != 0 {
        var _ := SendMail(OutbidMail(sold, auction.bidder, auction.lastBid), f.refund);
      }
      ok := DeleteAuction(key, f);
      if !ok {
        return BidFailed(true, 0);
      }
      auctions := auctions - {key};
      PublishEvent(BidPlaced(key, bidder, sold.lastBid, true), f.publish);
      reply := Placed(true, moneyToDeduct);
    }

    method CancelAuction(key: Key, player: uint64, f: Faults) returns (reply: CancelReply)
      modifies this
      ensures (State(), reply) == Cancel(old(State()), key, player, f)
    {
      if key !in auctions {
        return CancelNotFound;
      }
      var auction := auctions[key];
      if auction.listing.owner != Low(player) {
        return NotOwner;
      }
      auctions := auctions - {key};
      var cut: uint32 := 0;
      if auction.bidder != 0 {
        cut := Cut(auction.listing.house, auction.lastBid);
        var _ := SendMail(CancelledBidderMail(auction), f.refund);
      }
      var _ := SendMail(CancelledOwnerMail(auction), f.item);
      var ok := DeleteAuction(key, f);
      if !ok {
        return Cancelled(cut, true);
      }
      PublishEvent(Canceled(key), f.publish);
      reply := Cancelled(cut, false);
    }

    /** The body of the loop over candidates. */
    method ProcessCandidate(key: Key, f: Faults)
      modifies this
      ensures State() == ExpireOne(old(State()), key, f)
    {
      if key !in rows {
        auctions := auctions - {key};
        return;
      }
      var auction := rows[key];
      var ok := DeleteAuction(key, f);
      auctions := auctions - {key};
      if !ok {
        return;
      }
      if auction.bidder == 0 {
        var _ := SendMail(ExpiredMail(auction), f.item);
      } else {
        var _ := SendMail(SuccessfulMail(auction), f.pay);
        var _ := SendMail(WonMail(auction), f.item);
      }
      PublishEvent(Expired(key), f.publish);
    }

    /** The sweep of one realm: candidates are taken from the cache in any order, each once. */
    method ProcessExpiredAuctions(realm: uint32, now: uint32, faults: Key -> Faults) returns (ghost order: seq<Key>)
      modifies this
      ensures State() == ExpireAll(old(State()), order, faults)
      ensures Enumerates(order, Due(old(auctions), realm, now)) && Due(auctions, realm, now) == {}
      ensures forall k :: k in order <==> k in old(auctions) && k.realm == realm && old(auctions)[k].listing.time <= now
    {
      var candidates := set k | k in auctions && k.realm == realm && auctions[k].listing.time <= now;
      order := [];
      ghost var all, start := candidates, State();
      while candidates != {}
        invariant candidates <= all && Enumerates(order, all - candidates)
        invariant State() == ExpireAll(start, order, faults)
        invariant Due(auctions, realm, now) == candidates
        decreases |candidates|
      {
        var key :| key in candidates;
        EnumeratesMore(order, all - candidates, key);
        ExpireAllMore(start, order, key, faults);
        DueShrinks(State(), key, faults(key), realm, now);
        assert all - (candidates - {key}) == (all - candidates) + {key};
        candidates := candidates - {key};
        ProcessCandidate(key, faults(key));
        order := order + [key];
      }
    }
  }

  /** The sequence lists the elements of the set, each once. */
  ghost predicate Enumerates(order: seq<Key>, keys: set<Key>) {
    (forall k :: k in keys <==> k in order) && forall i, j :: 0 <= i < j < |order| ==> order[i] != order[j]
  }

  lemma EnumeratesMore(order: seq<Key>, keys: set<Key>, k: Key)
    requires Enumerates(order, keys) && k !in keys
    ensures Enumerates(order + [k], keys + {k})
  {
  }

  lemma DueShrinks(h: House, k: Key, f: Faults, realm: uint32, now: uint32)
    ensures Due(ExpireOne(h, k, f).cache, realm, now) == Due(h.cache, realm, now) - {k}
  {
  }

  /** The auctions of a realm whose time has come. */
  ghost function Due(c: Cache, realm: uint32, now: uint32): set<Key> {
    set k | k in c && k.realm == realm && c[k].listing.time <= now
  }

  ghost function ExpireAll(h: House, keys: seq<Key>, faults: Key -> Faults): House
    decreases keys
  {
    if keys == [] then h else ExpireAll(ExpireOne(h, keys[0], faults(keys[0])), keys[1..], faults)
  }

  lemma {:induction false} ExpireAllMore(h: House, keys: seq<Key>, k: Key, faults: Key -> Faults)
    ensures ExpireAll(h, keys + [k], faults) == ExpireOne(ExpireAll(h, keys, faults), k, faults(k))
    decreases keys
  {
    if keys == [] {
      assert keys + [k] == [k] && [k][1..] == [];
    } else {
      ExpireAllMore(ExpireOne(h, keys[0], faults(keys[0])), keys[1..], k, faults);
      assert (keys + [k])[1..] == keys[1..] + [k];
    }
  }
}
