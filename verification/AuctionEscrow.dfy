/**
 The balance of the auction house when outside calls fail: by how much each operation is out, for every pattern of
 failures, and exactly when it is not.
 */
module AuctionEscrow {
  import opened Words
  import opened AuctionEvents
  import opened AuctionHouse
  import opened AuctionBooks
  import opened AuctionBids

  /** Cache and table may hold different auctions, and differ in the standing bid of those they share. */
  ghost predicate Loose(h: House) {
    && Linked(h)
    && (forall k :: k in h.cache ==> Sound(h.cache[k])) && (forall k :: k in h.rows ==> Sound(h.rows[k]))
  }

  /** Amounts fit the mails' int32, and the id counter has not come round. */
  ghost predicate FitsTry(h: House, op: Op) {
    Fits(h, op) && (op.SellOp? ==> h.nextID + 1 < TWO32)
  }

  // ----- how far an operation is out -----

  function If(c: bool, amount: int): int {
    if c then amount else 0
  }

  /** The standing bid that is held for somebody. */
  function Standing(a: Auction): int {
    If(a.bidder != 0, a.lastBid)
  }

  /** A lost refund leaves money over; an unwritten bid is held, and will be refunded, though nobody paid it. */
  function RaiseDrift(a: Auction, bidder: uint32, price: uint32, f: Faults): int {
    if f.write then Standing(a) - price
    else If(f.refund && a.bidder != bidder, Standing(a))
  }

  /** Mails go out before the delete: what they pay is out of pocket until the buyer pays and the auction goes. */
  function BuyDrift(a: Auction, bidder: uint32, f: Faults): int {
    if f.pay then 0
    else if f.item then -(a.listing.buyout + a.listing.deposit)
    else if f.write then -(a.listing.buyout + a.listing.deposit) - If(!f.refund, Standing(a))
    else If(f.refund, Standing(a)) - If(a.bidder == bidder, Standing(a))
  }

  function CancelDrift(a: Auction, f: Faults): int {
    If(f.refund, Standing(a)) + If(f.item, a.listing.deposit)
  }

  function HeldAt(c: Cache, k: Key): int {
    if k in c then HeldFor(c[k]) else 0
  }

  /** What the settlement of a row pays and keeps. */
  function SettledFor(a: Auction, f: Faults): int {
    if a.bidder == 0 then If(!f.item, a.listing.deposit) else If(!f.pay, a.lastBid + a.listing.deposit)
  }

  /** The cache lets go of what it held; the row, if its DELETE works, is paid out. */
  function ExpireDrift(h: House, k: Key, f: Faults): int {
    HeldAt(h.cache, k) - if f.write || k !in h.rows then 0 else SettledFor(h.rows[k], f)
  }

  function Drift(h: House, t: Attempt): int {
    match t.op
    case SellOp(_, _, _) => 0
    case BidOp(key, player, price) =>
      if Refuses(h, key, Low(player), price).Some? then 0
      else if Buys(h.cache[key], price) then BuyDrift(h.cache[key], Low(player), t.faults)
      else RaiseDrift(h.cache[key], Low(player), price, t.faults)
    case CancelOp(key, player) =>
      if key in h.cache && h.cache[key].listing.owner == Low(player) then CancelDrift(h.cache[key], t.faults) else 0
    case ExpireOp(key) => ExpireDrift(h, key, t.faults)
  }

  /** The operation is even, read off its guards: no amount is lost, kept back or paid twice. */
  predicate Even(h: House, t: Attempt) {
    var f := t.faults;
    match t.op
    case SellOp(_, _, _) => true
    case BidOp(key, player, price) =>
      if Refuses(h, key, Low(player), price).Some? then true
      else
        var a, bidder := h.cache[key], Low(player);
        if Buys(a, price) then f.pay || (!f.item && !f.write && (a.bidder != 0 ==> (f.refund <==> a.bidder == bidder)))
        else !f.write && !(f.refund && a.bidder != 0 && a.bidder != bidder)
    case CancelOp(key, player) =>
      key in h.cache && h.cache[key].listing.owner == Low(player) ==>
        !(f.refund && h.cache[key].bidder != 0) && !(f.item && h.cache[key].listing.deposit != 0)
    case ExpireOp(key) =>
      if f.write || key !in h.rows then
        // nothing is paid out: nothing may have been held
        key in h.cache ==> h.cache[key].bidder == 0 && h.cache[key].listing.deposit == 0
      else
        var row := h.rows[key];
        if key !in h.cache then if row.bidder == 0 then f.item || row.listing.deposit == 0 else f.pay
        else
          var a := h.cache[key];
          if row.bidder == 0 then a.bidder == 0 && (f.item ==> row.listing.deposit == 0)
          else if f.pay then a.bidder == 0 && row.listing.deposit == 0
          else a.bidder != 0 && a.lastBid == row.lastBid
  }

  lemma ExpireEvenIffNoDrift(h: House, key: Key, f: Faults)
    requires Loose(h)
    ensures Even(h, Attempt(ExpireOp(key), f)) <==> ExpireDrift(h, key, f) == 0
  {
    assert key in h.cache ==> Sound(h.cache[key]);
    assert key in h.rows ==> Sound(h.rows[key]);
  }

  lemma EvenIffNoDrift(h: House, t: Attempt)
    requires Loose(h)
    ensures Even(h, t) <==> Drift(h, t) == 0
  {
    if t.op.ExpireOp? {
      ExpireEvenIffNoDrift(h, t.op.key, t.faults);
    } else if !t.op.SellOp? && t.op.key in h.cache {
      assert Sound(h.cache[t.op.key]);
    }
  }

  // ----- the ledger -----

  ghost function Ledger(mails: seq<Mail>): int {
    SumMails(mails, PaidBy) + SumMails(mails, KeptBy)
  }

  lemma LedgerMore(mails: seq<Mail>, m: Mail)
    ensures Ledger(mails + [m]) == Ledger(mails) + PaidBy(m) + KeptBy(m)
  {
    SumMore(mails, m, PaidBy);
    SumMore(mails, m, KeptBy);
  }

  ghost function Held(c: Cache): int {
    Total(c, HeldFor)
  }

  lemma HeldWith(c: Cache, k: Key, a: Auction)
    ensures Held(c[k := a]) == Held(c) - HeldAt(c, k) + HeldFor(a)
  {
    TotalWith(c, HeldFor, k, a);
    HeldWithout(c, k);
  }

  lemma HeldWithout(c: Cache, k: Key)
    ensures Held(c - {k}) == Held(c) - HeldAt(c, k)
  {
    if k in c {
      TotalWithout(c, HeldFor, k);
    } else {
      assert c - {k} == c;
    }
  }

  // ----- one step -----

  lemma RefundIs(a: Auction, b: Auction)
    requires Sound(a)
    ensures PaidBy(OutbidMail(b, a.bidder, a.lastBid)) + KeptBy(OutbidMail(b, a.bidder, a.lastBid)) == a.lastBid
    ensures PaidBy(CancelledBidderMail(a)) + KeptBy(CancelledBidderMail(a)) == a.lastBid
  {
  }

  /** What a raise does to mails and held money, for each failure. */
  lemma RaiseEffect(h: House, key: Key, bidder: uint32, price: uint32, f: Faults)
    requires Loose(h) && key in h.cache && bidder != 0
    ensures var h' := Raise(h, key, bidder, price, f).0;
            var a := h.cache[key];
            && Held(h'.cache) == Held(h.cache) - Standing(a) + price
            && Ledger(h'.mails) == Ledger(h.mails) + If(!f.write && a.bidder != bidder && !f.refund, Standing(a))
  {
    var a := h.cache[key];
    var b := a.(bidder := bidder, lastBid := price);
    assert Sound(a);
    HeldWith(h.cache, key, b);
    RefundIs(a, b);
    LedgerMore(h.mails, OutbidMail(b, a.bidder, a.lastBid));
  }

  lemma RaiseDeduction(h: House, key: Key, bidder: uint32, price: uint32, f: Faults)
    requires Loose(h) && key in h.cache && bidder != 0 && price > h.cache[key].lastBid
    ensures var reply := Raise(h, key, bidder, price, f).1;
            && reply.Placed? == !f.write
            && reply.deduct == price - If(h.cache[key].bidder == bidder, Standing(h.cache[key]))
  {
    WrapsNot(price - h.cache[key].lastBid);
  }

  lemma BuyLedger(h: House, key: Key, bidder: uint32, f: Faults)
    requires Loose(h) && key in h.cache
    ensures var h' := Buy(h, key, bidder, f).0;
            var a := h.cache[key];
            Ledger(h'.mails) == Ledger(h.mails)
              + If(!f.pay, a.listing.buyout + a.listing.deposit) + If(!f.pay && !f.item && !f.refund, Standing(a))
  {
    var a := h.cache[key];
    var sold := a.(bidder := bidder, lastBid := a.listing.buyout);
    assert Sound(a);
    SuccessfulMailAdds(sold);
    RefundIs(a, sold);
    LedgerMore(h.mails, SuccessfulMail(sold));
    var h1 := Send(h, false, SuccessfulMail(sold));
    LedgerMore(h1.mails, WonMail(sold));
    var h2 := Send(h1, false, WonMail(sold));
    LedgerMore(h2.mails, OutbidMail(sold, a.bidder, a.lastBid));
  }

  lemma BuyRest(h: House, key: Key, bidder: uint32, f: Faults)
    requires Loose(h) && key in h.cache && h.cache[key].listing.buyout > 0 && bidder != 0
    ensures var (h', reply) := Buy(h, key, bidder, f);
            var a, done := h.cache[key], !f.pay && !f.item && !f.write;
            && h'.cache == (if done then h.cache - {key} else h.cache)
            && reply.Placed? == done
            && (done ==> reply.deduct == a.listing.buyout - If(a.bidder == bidder, Standing(a)))
  {
    assert Sound(h.cache[key]);
    WrapsNot(h.cache[key].listing.buyout - h.cache[key].lastBid);
  }

  lemma RaiseDrifts(b: Books, t: Attempt)
    requires Loose(b.house) && t.op.BidOp? && Low(t.op.player) != 0
    requires Refuses(b.house, t.op.key, Low(t.op.player), t.op.price).None? && !Buys(b.house.cache[t.op.key], t.op.price)
    ensures Balance(Try(b, t)) == Balance(b) + Drift(b.house, t)
  {
    RaiseEffect(b.house, t.op.key, Low(t.op.player), t.op.price, t.faults);
    RaiseDeduction(b.house, t.op.key, Low(t.op.player), t.op.price, t.faults);
  }

  lemma BuyDrifts(b: Books, t: Attempt)
    requires Loose(b.house) && t.op.BidOp? && Low(t.op.player) != 0
    requires Refuses(b.house, t.op.key, Low(t.op.player), t.op.price).None? && Buys(b.house.cache[t.op.key], t.op.price)
    ensures Balance(Try(b, t)) == Balance(b) + Drift(b.house, t)
  {
    BuyLedger(b.house, t.op.key, Low(t.op.player), t.faults);
    BuyRest(b.house, t.op.key, Low(t.op.player), t.faults);
    HeldWithout(b.house.cache, t.op.key);
  }

  function Mailed(mails: seq<Mail>, sent: bool, m: Mail): seq<Mail> {
    if sent then mails + [m] else mails
  }

  lemma MailedLedger(mails: seq<Mail>, sent: bool, m: Mail)
    ensures Ledger(Mailed(mails, sent, m)) == Ledger(mails) + If(sent, PaidBy(m) + KeptBy(m))
  {
    LedgerMore(mails, m);
  }

  lemma CancelMailsWith(h: House, key: Key, player: uint64, f: Faults)
    requires key in h.cache && h.cache[key].listing.owner == Low(player)
    ensures var h' := Cancel(h, key, player, f).0;
            var a := h.cache[key];
            && h'.cache == h.cache - {key}
            && h'.mails == Mailed(Mailed(h.mails, a.bidder != 0 && !f.refund, CancelledBidderMail(a)), !f.item,
                                  CancelledOwnerMail(a))
  {
  }

  lemma CancelLedger(h: House, key: Key, player: uint64, f: Faults)
    requires Loose(h) && key in h.cache && h.cache[key].listing.owner == Low(player)
    ensures var h' := Cancel(h, key, player, f).0;
            var a := h.cache[key];
            && h'.cache == h.cache - {key}
            && Ledger(h'.mails) == Ledger(h.mails) + If(!f.refund, Standing(a)) + If(!f.item, a.listing.deposit)
  {
    var a := h.cache[key];
    CancelMailsWith(h, key, player, f);
    RefundIs(a, a);
    var some := Mailed(h.mails, a.bidder != 0 && !f.refund, CancelledBidderMail(a));
    MailedLedger(h.mails, a.bidder != 0 && !f.refund, CancelledBidderMail(a));
    MailedLedger(some, !f.item, CancelledOwnerMail(a));
  }

  lemma CancelDrifts(b: Books, t: Attempt)
    requires Loose(b.house) && t.op.CancelOp?
    ensures Balance(Try(b, t)) == Balance(b) + Drift(b.house, t)
  {
    var h, key := b.house, t.op.key;
    if key in h.cache && h.cache[key].listing.owner == Low(t.op.player) {
      CancelLedger(h, key, t.op.player, t.faults);
      HeldWithout(h.cache, key);
    }
  }

  /** A sweep whose DELETE takes the row and says so. */
  predicate Settles(h: House, key: Key, f: Faults) {
    key in h.rows && !f.write
  }

  lemma ExpireMailsWith(h: House, key: Key, f: Faults)
    ensures ExpireOne(h, key, f).cache == h.cache - {key}
    ensures !Settles(h, key, f) ==> ExpireOne(h, key, f).mails == h.mails
    ensures Settles(h, key, f) ==>
              var a := h.rows[key];
              ExpireOne(h, key, f).mails ==
              if a.bidder == 0 then Mailed(h.mails, !f.item, ExpiredMail(a))
              else Mailed(Mailed(h.mails, !f.pay, SuccessfulMail(a)), !f.item, WonMail(a))
  {
  }

  lemma ExpireLedger(h: House, key: Key, f: Faults)
    requires Loose(h)
    ensures ExpireOne(h, key, f).cache == h.cache - {key}
    ensures Ledger(ExpireOne(h, key, f).mails) ==
            Ledger(h.mails) + if f.write || key !in h.rows then 0 else SettledFor(h.rows[key], f)
  {
    ExpireMailsWith(h, key, f);
    if Settles(h, key, f) {
      var a := h.rows[key];
      assert Sound(a);
      SuccessfulMailAdds(a);
      MailedLedger(h.mails, !f.item, ExpiredMail(a));
      MailedLedger(h.mails, !f.pay, SuccessfulMail(a));
      MailedLedger(Mailed(h.mails, !f.pay, SuccessfulMail(a)), !f.item, WonMail(a));
    }
  }

  lemma ExpireDrifts(b: Books, t: Attempt)
    requires Loose(b.house) && t.op.ExpireOp?
    ensures Balance(Try(b, t)) == Balance(b) + Drift(b.house, t)
  {
    ExpireLedger(b.house, t.op.key, t.faults);
    HeldWithout(b.house.cache, t.op.key);
  }

  lemma SellDrifts(b: Books, t: Attempt)
    requires Loose(b.house) && t.op.SellOp?
    ensures Balance(Try(b, t)) == Balance(b)
  {
    var h, key := b.house, Key(t.op.realm, b.house.nextID);
    if key !in h.rows {
      HeldWith(h.cache, key, Auction(t.op.listing.(owner := Low(t.op.seller)), 0, 0));
    }
  }

  /** The exact change of the balance, for every operation and every pattern of failures. */
  lemma StepDrifts(b: Books, t: Attempt)
    requires Loose(b.house) && FitsTry(b.house, t.op)
    ensures Balance(Try(b, t)) == Balance(b) + Drift(b.house, t)
    ensures Balance(Try(b, t)) == Balance(b) <==> Even(b.house, t)
  {
    EvenIffNoDrift(b.house, t);
    match t.op
    case SellOp(_, _, _) => SellDrifts(b, t);
    case BidOp(key, player, price) =>
      if Refuses(b.house, key, Low(player), price).None? {
        if Buys(b.house.cache[key], price) {
          BuyDrifts(b, t);
        } else {
          RaiseDrifts(b, t);
        }
      }
    case CancelOp(_, _) => CancelDrifts(b, t);
    case ExpireOp(_) => ExpireDrifts(b, t);
  }

  // ----- the looser invariant -----

  lemma RaiseStaysLoose(h: House, key: Key, bidder: uint32, price: uint32, f: Faults)
    requires Loose(h) && key in h.cache && bidder != 0 && price > 0 && !Buys(h.cache[key], price)
    requires price + h.cache[key].listing.deposit < TWO31
    ensures Loose(Raise(h, key, bidder, price, f).0)
  {
    RaiseKeepsLinked(h, key, bidder, price, f);
    var a := h.cache[key];
    assert Sound(a) && Sound(a.(bidder := bidder, lastBid := price));
    assert key in h.rows ==> Sound(h.rows[key].(bidder := bidder, lastBid := price));
  }

  lemma BuyStaysLoose(h: House, key: Key, bidder: uint32, f: Faults)
    requires Loose(h) && key in h.cache
    ensures Loose(Buy(h, key, bidder, f).0)
  {
    BuyKeepsLinked(h, key, bidder, f);
  }

  lemma CancelStaysLoose(h: House, key: Key, player: uint64, f: Faults)
    requires Loose(h)
    ensures Loose(Cancel(h, key, player, f).0)
  {
    CancelKeepsLinked(h, key, player, f);
  }

  lemma ExpireStaysLoose(h: House, key: Key, f: Faults)
    requires Loose(h)
    ensures Loose(ExpireOne(h, key, f))
  {
    ExpireKeepsLinked(h, key, f);
  }

  lemma SellStaysLoose(h: House, realm: uint32, seller: uint64, listing: Listing, f: Faults)
    requires Loose(h) && listing.buyout + listing.deposit < TWO31 && h.nextID + 1 < TWO32
    ensures Loose(Sell(h, realm, seller, listing, f).0)
  {
    SellKeepsLinked(h, realm, seller, listing, f);
    assert Sound(Auction(listing.(owner := Low(seller)), 0, 0));
  }

  lemma StepStaysLoose(b: Books, t: Attempt)
    requires Loose(b.house) && FitsTry(b.house, t.op)
    ensures Loose(Try(b, t).house)
  {
    var h := b.house;
    match t.op
    case SellOp(realm, seller, listing) => SellStaysLoose(h, realm, seller, listing, t.faults);
    case BidOp(key, player, price) =>
      if Refuses(h, key, Low(player), price).None? {
        if Buys(h.cache[key], price) {
          BuyStaysLoose(h, key, Low(player), t.faults);
        } else {
          RaiseStaysLoose(h, key, Low(player), price, t.faults);
        }
      }
    case CancelOp(key, player) => CancelStaysLoose(h, key, player, t.faults);
    case ExpireOp(key) => ExpireStaysLoose(h, key, t.faults);
  }

  // ----- whole runs -----

  ghost predicate AttemptsFit(b: Books, ts: seq<Attempt>)
    decreases |ts|
  {
    ts != [] ==> FitsTry(b.house, ts[0].op) && AttemptsFit(Try(b, ts[0]), ts[1..])
  }

  ghost function TotalDrift(b: Books, ts: seq<Attempt>): int
    decreases |ts|
  {
    if ts == [] then 0 else Drift(b.house, ts[0]) + TotalDrift(Try(b, ts[0]), ts[1..])
  }

  ghost predicate AllEven(b: Books, ts: seq<Attempt>)
    decreases |ts|
  {
    ts != [] ==> Even(b.house, ts[0]) && AllEven(Try(b, ts[0]), ts[1..])
  }

  lemma {:induction false} RunDrifts(b: Books, ts: seq<Attempt>)
    requires Loose(b.house) && AttemptsFit(b, ts)
    ensures Loose(TryAll(b, ts).house) && Balance(TryAll(b, ts)) == Balance(b) + TotalDrift(b, ts)
    decreases |ts|
  {
    if ts != [] {
      StepDrifts(b, ts[0]);
      StepStaysLoose(b, ts[0]);
      RunDrifts(Try(b, ts[0]), ts[1..]);
    }
  }

  /** From an empty house, with any failures: the balance is the sum of what each attempt was out by. */
  lemma MoneyUnderFailures(ts: seq<Attempt>)
    requires AttemptsFit(OPENING, ts)
    ensures Balance(TryAll(OPENING, ts)) == TotalDrift(OPENING, ts)
  {
    RunDrifts(OPENING, ts);
  }

  /** The balance is zero after every step of a run if and only if every attempt was even. */
  lemma {:induction false} BalancedThroughoutIffEven(b: Books, ts: seq<Attempt>)
    requires Loose(b.house) && AttemptsFit(b, ts) && Balance(b) == 0
    ensures AllEven(b, ts) <==> AlwaysBalanced(b, ts)
    decreases |ts|
  {
    if ts != [] {
      StepDrifts(b, ts[0]);
      StepStaysLoose(b, ts[0]);
      if Even(b.house, ts[0]) {
        BalancedThroughoutIffEven(Try(b, ts[0]), ts[1..]);
      }
    }
  }

  ghost predicate AlwaysBalanced(b: Books, ts: seq<Attempt>)
    decreases |ts|
  {
    Balance(b) == 0 && (ts != [] ==> AlwaysBalanced(Try(b, ts[0]), ts[1..]))
  }

  /** The failing case is reachable: a bid of 50 whose write fails is held, though nobody paid it. */
  lemma UnwrittenBidIsOwed(item: Item)
    ensures exists ts :: AttemptsFit(OPENING, ts) && Balance(TryAll(OPENING, ts)) == -50
  {
    var key, listing := Key(1, 1), Listing(2, item, 7, 100, 0, 10, 0);
    var sell := Attempt(SellOp(1, 7, listing), NO_FAULTS);
    var bid := Attempt(BidOp(key, 9, 50), NO_FAULTS.(write := true));
    var b1 := Try(OPENING, sell);
    assert b1.house.cache == map[key := Auction(listing, 0, 0)];
    var b2 := Try(b1, bid);
    var ts := [sell, bid];
    assert ts[1..] == [bid] && [bid][1..] == [];
    assert AttemptsFit(b2, []) && TotalDrift(b2, []) == 0;
    assert Drift(b1.house, bid) == -50;
    assert AttemptsFit(b1, [bid]) && TotalDrift(b1, [bid]) == -50;
    assert AttemptsFit(OPENING, ts) && TotalDrift(OPENING, ts) == -50;
    MoneyUnderFailures(ts);
  }
}
