/**
 Items and the event log when outside calls fail: which attempts lose or double an item, and which separate the
 writer's cache from what a replica makes of its log.
 */
module AuctionLosses {
  import opened Words
  import opened AuctionEvents
  import opened AuctionHouse
  import opened AuctionBooks
  import opened AuctionBids
  import opened AuctionEscrow

  // ----- items -----

  /** The auction and its item leave the cache here, whatever becomes of the row. */
  predicate Cancels(h: House, op: Op) {
    op.CancelOp? && op.key in h.cache && h.cache[op.key].listing.owner == Low(op.player)
  }

  predicate BuysNow(h: House, op: Op) {
    op.BidOp? && Refuses(h, op.key, Low(op.player), op.price).None? && Buys(h.cache[op.key], op.price)
  }

  predicate RaisesNow(h: House, op: Op) {
    op.BidOp? && Refuses(h, op.key, Low(op.player), op.price).None? && !Buys(h.cache[op.key], op.price)
  }

  predicate About(c: Cache, key: Key, guid: uint32) {
    key in c && c[key].listing.item.guid == guid
  }

  /** Items lost (positive) or doubled (negative) by an attempt. */
  function ItemDrift(h: House, t: Attempt, guid: uint32): int {
    var f := t.faults;
    if BuysNow(h, t.op) then -If(About(h.cache, t.op.key, guid) && !f.pay && !f.item && f.write, 1)
    else if Cancels(h, t.op) then If(About(h.cache, t.op.key, guid) && f.item, 1)
    else if t.op.ExpireOp? then
      If(About(h.cache, t.op.key, guid), 1) - If(About(h.rows, t.op.key, guid) && Settles(h, t.op.key, f) && !f.item, 1)
    else 0
  }

  lemma MailedItems(mails: seq<Mail>, sent: bool, m: Mail, guid: uint32)
    ensures SumMails(Mailed(mails, sent, m), Carries(guid)) ==
            SumMails(mails, Carries(guid)) + If(sent, Carries(guid)(m))
  {
    SumMore(mails, m, Carries(guid));
  }

  ghost function Offered(c: Cache, guid: uint32): int {
    Total(c, Weighs(guid))
  }

  lemma OfferedWithout(c: Cache, k: Key, guid: uint32)
    ensures Offered(c - {k}, guid) == Offered(c, guid) - If(About(c, k, guid), 1)
  {
    if k in c {
      TotalWithout(c, Weighs(guid), k);
    } else {
      assert c - {k} == c;
    }
  }

  lemma OfferedWith(c: Cache, k: Key, a: Auction, guid: uint32)
    ensures Offered(c[k := a], guid) ==
            Offered(c, guid) - If(About(c, k, guid), 1) + If(a.listing.item.guid == guid, 1)
  {
    TotalWith(c, Weighs(guid), k, a);
    OfferedWithout(c, k, guid);
  }

  lemma RaiseItems(h: House, key: Key, bidder: uint32, price: uint32, f: Faults, guid: uint32)
    requires key in h.cache
    ensures var h' := Raise(h, key, bidder, price, f).0;
            && Offered(h'.cache, guid) == Offered(h.cache, guid)
            && SumMails(h'.mails, Carries(guid)) == SumMails(h.mails, Carries(guid))
  {
    var a := h.cache[key];
    var b := a.(bidder := bidder, lastBid := price);
    OfferedWith(h.cache, key, b, guid);
    SumMore(h.mails, OutbidMail(b, a.bidder, a.lastBid), Carries(guid));
  }

  lemma BuyMailsWith(h: House, key: Key, bidder: uint32, f: Faults)
    requires key in h.cache
    ensures var h' := Buy(h, key, bidder, f).0;
            var a := h.cache[key];
            var sold := a.(bidder := bidder, lastBid := a.listing.buyout);
            && h'.mails ==
               Mailed(
                 Mailed(Mailed(h.mails, !f.pay, SuccessfulMail(sold)), !f.pay && !f.item, WonMail(sold)),
                 !f.pay && !f.item && a.bidder != 0 && !f.refund, OutbidMail(sold, a.bidder, a.lastBid))
            && h'.cache == if f.pay || f.item || f.write then h.cache else h.cache - {key}
  {
  }

  lemma BuyItems(h: House, key: Key, bidder: uint32, f: Faults, guid: uint32)
    requires key in h.cache
    ensures var h' := Buy(h, key, bidder, f).0;
            && Offered(h'.cache, guid) ==
               Offered(h.cache, guid) - If(About(h.cache, key, guid) && !f.pay && !f.item && !f.write, 1)
            && SumMails(h'.mails, Carries(guid)) ==
               SumMails(h.mails, Carries(guid)) + If(About(h.cache, key, guid) && !f.pay && !f.item, 1)
  {
    var a := h.cache[key];
    var sold := a.(bidder := bidder, lastBid := a.listing.buyout);
    BuyMailsWith(h, key, bidder, f);
    OfferedWithout(h.cache, key, guid);
    var m1 := Mailed(h.mails, !f.pay, SuccessfulMail(sold));
    var m2 := Mailed(m1, !f.pay && !f.item, WonMail(sold));
    MailedItems(h.mails, !f.pay, SuccessfulMail(sold), guid);
    MailedItems(m1, !f.pay && !f.item, WonMail(sold), guid);
    MailedItems(m2, !f.pay && !f.item && a.bidder != 0 && !f.refund, OutbidMail(sold, a.bidder, a.lastBid), guid);
  }

  lemma CancelItems(h: House, key: Key, player: uint64, f: Faults, guid: uint32)
    requires key in h.cache && h.cache[key].listing.owner == Low(player)
    ensures var h' := Cancel(h, key, player, f).0;
            && Offered(h'.cache, guid) == Offered(h.cache, guid) - If(About(h.cache, key, guid), 1)
            && SumMails(h'.mails, Carries(guid)) ==
               SumMails(h.mails, Carries(guid)) + If(About(h.cache, key, guid) && !f.item, 1)
  {
    var a := h.cache[key];
    CancelMailsWith(h, key, player, f);
    OfferedWithout(h.cache, key, guid);
    MailedItems(h.mails, a.bidder != 0 && !f.refund, CancelledBidderMail(a), guid);
    var some := Mailed(h.mails, a.bidder != 0 && !f.refund, CancelledBidderMail(a));
    MailedItems(some, !f.item, CancelledOwnerMail(a), guid);
  }

  lemma ExpireItems(h: House, key: Key, f: Faults, guid: uint32)
    ensures var h' := ExpireOne(h, key, f);
            && Offered(h'.cache, guid) == Offered(h.cache, guid) - If(About(h.cache, key, guid), 1)
            && SumMails(h'.mails, Carries(guid)) ==
               SumMails(h.mails, Carries(guid)) + If(About(h.rows, key, guid) && Settles(h, key, f) && !f.item, 1)
  {
    OfferedWithout(h.cache, key, guid);
    if Settles(h, key, f) {
      var a := h.rows[key];
      ExpireMailsWith(h, key, f);
      MailedItems(h.mails, !f.item, ExpiredMail(a), guid);
      MailedItems(h.mails, !f.pay, SuccessfulMail(a), guid);
      MailedItems(Mailed(h.mails, !f.pay, SuccessfulMail(a)), !f.item, WonMail(a), guid);
    }
  }

  lemma SellItems(b: Books, t: Attempt, guid: uint32)
    requires t.op.SellOp? && Linked(b.house)
    ensures Missing(Try(b, t), guid) == Missing(b, guid)
  {
    var h, key := b.house, Key(t.op.realm, b.house.nextID);
    OfferedWith(h.cache, key, Auction(t.op.listing.(owner := Low(t.op.seller)), 0, 0), guid);
  }

  /** The exact number of items an attempt loses or doubles, for every pattern of failures. */
  lemma ItemsDrift(b: Books, t: Attempt, guid: uint32)
    requires Linked(b.house)
    ensures Missing(Try(b, t), guid) == Missing(b, guid) + ItemDrift(b.house, t, guid)
  {
    var h, f := b.house, t.faults;
    match t.op
    case SellOp(_, _, _) => SellItems(b, t, guid);
    case BidOp(key, player, price) =>
      if BuysNow(h, t.op) {
        BuyItems(h, key, Low(player), f, guid);
      } else if RaisesNow(h, t.op) {
        RaiseItems(h, key, Low(player), price, f, guid);
      }
    case CancelOp(key, player) =>
      if Cancels(h, t.op) {
        CancelItems(h, key, player, f, guid);
      }
    case ExpireOp(key) => ExpireItems(h, key, f, guid);
  }

  ghost function TotalItemDrift(b: Books, ts: seq<Attempt>, guid: uint32): int
    decreases |ts|
  {
    if ts == [] then 0 else ItemDrift(b.house, ts[0], guid) + TotalItemDrift(Try(b, ts[0]), ts[1..], guid)
  }

  /** Over every run, with any failures: what is missing is what the attempts lost less what they doubled. */
  lemma {:induction false} ItemsUnderFailures(b: Books, ts: seq<Attempt>, guid: uint32)
    requires Linked(b.house) && b.house.nextID + |ts| < TWO32
    ensures Missing(TryAll(b, ts), guid) == Missing(b, guid) + TotalItemDrift(b, ts, guid)
    decreases |ts|
  {
    if ts != [] {
      ItemsDrift(b, ts[0], guid);
      TryKeepsLinked(b, ts[0]);
      ItemsUnderFailures(Try(b, ts[0]), ts[1..], guid);
    }
  }

  /** No item is lost or doubled: a buyout that ships deletes, returned items arrive, and a sweep settles what it drops. */
  predicate KeepsItem(h: House, t: Attempt) {
    var f := t.faults;
    if BuysNow(h, t.op) then f.pay || f.item || !f.write
    else if Cancels(h, t.op) then !f.item
    else if t.op.ExpireOp? then
      if t.op.key in h.cache then Settles(h, t.op.key, f) && !f.item else !Settles(h, t.op.key, f) || f.item
    else true
  }

  lemma KeepsItemIffNoDrift(h: House, t: Attempt)
    requires Linked(h)
    ensures KeepsItem(h, t) <==> forall guid :: ItemDrift(h, t, guid) == 0
  {
    if !KeepsItem(h, t) {
      var k := t.op.key;
      var guid := if k in h.cache then h.cache[k].listing.item.guid else h.rows[k].listing.item.guid;
      assert ItemDrift(h, t, guid) != 0;
    }
  }

  // ----- the log -----

  /** A replica that applied the whole log shows the writer's cache. */
  ghost predicate Followed(h: House) {
    Replay(map[], h.log) == h.cache
  }

  /** Every change the attempt makes to the cache is published. */
  predicate Announces(h: House, t: Attempt) {
    var f := t.faults;
    match t.op
    case SellOp(realm, _, _) => Key(realm, h.nextID) in h.rows || f.write || !f.publish
    case BidOp(_, _, _) =>
      if BuysNow(h, t.op) then f.pay || f.item || f.write || !f.publish
      else RaisesNow(h, t.op) ==> !f.write && !f.publish
    case CancelOp(_, _) => Cancels(h, t.op) ==> !f.write && !f.publish
    case ExpireOp(key) => key in h.cache ==> Settles(h, key, f) && !f.publish
  }

  lemma SellAnnounces(b: Books, t: Attempt)
    requires t.op.SellOp? && Linked(b.house) && Followed(b.house)
    ensures Followed(Try(b, t).house) <==> Announces(b.house, t)
  {
    var h := b.house;
    var key, a := Key(t.op.realm, h.nextID), Auction(t.op.listing.(owner := Low(t.op.seller)), 0, 0);
    assert key !in h.cache;
    ReplayMore(map[], h.log, Created(key, a.listing));
    assert key in h.cache[key := a];
  }

  lemma RaiseAnnounces(h: House, key: Key, bidder: uint32, price: uint32, f: Faults)
    requires key in h.cache && Followed(h) && price > h.cache[key].lastBid
    ensures Followed(Raise(h, key, bidder, price, f).0) <==> !f.write && !f.publish
  {
    var b := h.cache[key].(bidder := bidder, lastBid := price);
    ReplayMore(map[], h.log, BidPlaced(key, bidder, price, false));
    assert h.cache[key := b][key] != h.cache[key];
  }

  lemma BuyAnnounces(h: House, key: Key, bidder: uint32, f: Faults)
    requires key in h.cache && Followed(h)
    ensures Followed(Buy(h, key, bidder, f).0) <==> f.pay || f.item || f.write || !f.publish
  {
    ReplayMore(map[], h.log, BidPlaced(key, bidder, h.cache[key].listing.buyout, true));
    assert key !in h.cache - {key};
  }

  lemma CancelAnnounces(h: House, key: Key, player: uint64, f: Faults)
    requires key in h.cache && h.cache[key].listing.owner == Low(player) && Followed(h)
    ensures Followed(Cancel(h, key, player, f).0) <==> !f.write && !f.publish
  {
    ReplayMore(map[], h.log, Canceled(key));
    assert key !in h.cache - {key};
  }

  lemma ExpireAnnounces(h: House, key: Key, f: Faults)
    requires Followed(h)
    ensures Followed(ExpireOne(h, key, f)) <==> (key in h.cache ==> Settles(h, key, f) && !f.publish)
  {
    ReplayMore(map[], h.log, Expired(key));
    if key !in h.cache {
      assert h.cache - {key} == h.cache;
    } else {
      assert key !in h.cache - {key};
    }
  }

  /** From a cache the log leads to, an attempt keeps replicas in step if and only if it announces what it changed. */
  lemma FollowedIffAnnounced(b: Books, t: Attempt)
    requires Linked(b.house) && Followed(b.house)
    ensures Followed(Try(b, t).house) <==> Announces(b.house, t)
  {
    var h, f := b.house, t.faults;
    match t.op
    case SellOp(_, _, _) => SellAnnounces(b, t);
    case BidOp(key, player, price) =>
      if BuysNow(h, t.op) {
        BuyAnnounces(h, key, Low(player), f);
      } else if RaisesNow(h, t.op) {
        RaiseAnnounces(h, key, Low(player), price, f);
      }
    case CancelOp(key, player) =>
      if Cancels(h, t.op) {
        CancelAnnounces(h, key, player, f);
      }
    case ExpireOp(key) => ExpireAnnounces(h, key, f);
  }

  ghost predicate AllAnnounced(b: Books, ts: seq<Attempt>)
    decreases |ts|
  {
    ts != [] ==> Announces(b.house, ts[0]) && AllAnnounced(Try(b, ts[0]), ts[1..])
  }

  ghost predicate AlwaysFollowed(b: Books, ts: seq<Attempt>)
    decreases |ts|
  {
    Followed(b.house) && (ts != [] ==> AlwaysFollowed(Try(b, ts[0]), ts[1..]))
  }

  /** The log leads to the cache after every step of a run if and only if every attempt announced its change. */
  lemma {:induction false} FollowedThroughoutIffAnnounced(b: Books, ts: seq<Attempt>)
    requires Linked(b.house) && Followed(b.house) && b.house.nextID + |ts| < TWO32
    ensures AlwaysFollowed(b, ts) <==> AllAnnounced(b, ts)
    decreases |ts|
  {
    if ts != [] {
      FollowedIffAnnounced(b, ts[0]);
      TryKeepsLinked(b, ts[0]);
      if Announces(b.house, ts[0]) {
        FollowedThroughoutIffAnnounced(Try(b, ts[0]), ts[1..]);
      }
    }
  }

  // ----- the failing cases -----

  function Listed(item: Item): Books {
    Try(OPENING, Attempt(SellOp(1, 7, Listing(2, item, 7, 100, 0, 10, 0)), NO_FAULTS))
  }

  lemma ListedCache(item: Item)
    ensures Listed(item).house.cache == map[Key(1, 1) := Auction(Listing(2, item, 7, 100, 0, 10, 0), 0, 0)]
    ensures Listed(item).house.log == [Created(Key(1, 1), Listing(2, item, 7, 100, 0, 10, 0))]
    ensures Linked(Listed(item).house) && Missing(Listed(item), item.guid) == 0 && Followed(Listed(item).house)
  {
    var sell := Attempt(SellOp(1, 7, Listing(2, item, 7, 100, 0, 10, 0)), NO_FAULTS);
    SellItems(OPENING, sell, item.guid);
    SellAnnounces(OPENING, sell);
  }

  /** A buyout of a listed item whose delete fails ships an item that stays on offer. */
  lemma FailedDeleteDoublesItem(item: Item)
    ensures Missing(Try(Listed(item), Attempt(BidOp(Key(1, 1), 9, 100), NO_FAULTS.(write := true))), item.guid) == -1
  {
    ListedCache(item);
    ItemsDrift(Listed(item), Attempt(BidOp(Key(1, 1), 9, 100), NO_FAULTS.(write := true)), item.guid);
  }

  /** A bid whose write fails, or whose event is lost, is in the writer's cache alone. */
  lemma UnannouncedBidSeparates(item: Item)
    ensures !Followed(Try(Listed(item), Attempt(BidOp(Key(1, 1), 9, 50), NO_FAULTS.(write := true))).house)
    ensures !Followed(Try(Listed(item), Attempt(BidOp(Key(1, 1), 9, 50), NO_FAULTS.(publish := true))).house)
  {
    ListedCache(item);
    FollowedIffAnnounced(Listed(item), Attempt(BidOp(Key(1, 1), 9, 50), NO_FAULTS.(write := true)));
    FollowedIffAnnounced(Listed(item), Attempt(BidOp(Key(1, 1), 9, 50), NO_FAULTS.(publish := true)));
  }
}
