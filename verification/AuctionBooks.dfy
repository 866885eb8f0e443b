/** What every failure-free run of the auction service keeps: money, items, and the replicas' view. */
module AuctionBooks {
  import opened Words
  import opened AuctionEvents
  import opened AuctionHouse

  // ----- sums over the cache and over the mails -----

  ghost function Total(c: Cache, weight: Auction -> int): int {
    if c == map[] then 0
    else
      var k :| k in c;
      weight(c[k]) + Total(c - {k}, weight)
  }

  lemma {:induction false} TotalWithout(c: Cache, weight: Auction -> int, k: Key)
    requires k in c
    ensures Total(c, weight) == weight(c[k]) + Total(c - {k}, weight)
    decreases |c|
  {
    var j :| j in c && Total(c, weight) == weight(c[j]) + Total(c - {j}, weight);
    if j != k {
      TotalWithout(c - {j}, weight, k);
      TotalWithout(c - {k}, weight, j);
      assert c - {j} - {k} == c - {k} - {j};
    }
  }

  lemma TotalWith(c: Cache, weight: Auction -> int, k: Key, a: Auction)
    ensures Total(c[k := a], weight) == weight(a) + Total(c - {k}, weight)
  {
    TotalWithout(c[k := a], weight, k);
    assert c[k := a] - {k} == c - {k};
  }

  ghost function SumMails(mails: seq<Mail>, weight: Mail -> int): int {
    if mails == [] then 0 else SumMails(mails[..|mails| - 1], weight) + weight(mails[|mails| - 1])
  }

  lemma SumMore(mails: seq<Mail>, m: Mail, weight: Mail -> int)
    ensures SumMails(mails + [m], weight) == SumMails(mails, weight) + weight(m)
  {
    assert (mails + [m])[..|mails|] == mails;
  }

  // ----- runs -----

  datatype Op =
    | SellOp(realm: uint32, seller: uint64, listing: Listing)
    | BidOp(key: Key, player: uint64, price: uint32)
    | CancelOp(key: Key, player: uint64)
    | ExpireOp(key: Key)

  /** The house and what its callers took from players on its word: deposits, bids and cancellation fees. */
  datatype Books = Books(house: House, taken: int, fees: int, listed: multiset<uint32>)

  /** One operation; callers take money only on a reply without error. */
  datatype Attempt = Attempt(op: Op, faults: Faults)

  function Try(b: Books, t: Attempt): Books {
    match t.op
    case SellOp(realm, seller, listing) =>
      var (h, key) := Sell(b.house, realm, seller, listing, t.faults);
      if key.None? then b.(house := h)
      else b.(house := h, taken := b.taken + listing.deposit, listed := b.listed + multiset{listing.item.guid})
    case BidOp(key, player, price) =>
      var (h, reply) := PlaceBid(b.house, key, player, price, t.faults);
      b.(house := h, taken := b.taken + if reply.Placed? then reply.deduct else 0)
    case CancelOp(key, player) =>
      var (h, reply) := Cancel(b.house, key, player, t.faults);
      var fee := if reply.Cancelled? && !reply.failed then reply.cut else 0;
      b.(house := h, taken := b.taken + fee, fees := b.fees + fee)
    case ExpireOp(key) => b.(house := ExpireOne(b.house, key, t.faults))
  }

  function TryAll(b: Books, ts: seq<Attempt>): Books
    decreases |ts|
  {
    if ts == [] then b else TryAll(Try(b, ts[0]), ts[1..])
  }

  /** Without failures. */
  function Exec(b: Books, op: Op): Books {
    Try(b, Attempt(op, NO_FAULTS))
  }

  // ----- what is conserved -----

  /** Money the house owes for a live auction: the standing bid, and the deposit. */
  function HeldFor(a: Auction): int {
    (if a.bidder != 0 then a.lastBid else 0) + a.listing.deposit
  }

  /** Money a mail hands out, and what it reports the house as keeping. */
  function PaidBy(m: Mail): int { m.money }

  function KeptBy(m: Mail): int {
    if m.kind == Successful then m.cut
    else if m.kind == ExpiredUnsold || m.kind == CancelledOwner then m.deposit
    else 0
  }

  /** Money in less money out, kept and held. */
  ghost function Balance(b: Books): int {
    b.taken - SumMails(b.house.mails, PaidBy) - SumMails(b.house.mails, KeptBy) - b.fees - Total(b.house.cache, HeldFor)
  }

  function Weighs(guid: uint32): Auction -> int {
    (a: Auction) => if a.listing.item.guid == guid then 1 else 0
  }

  function Carries(guid: uint32): Mail -> int {
    (m: Mail) => if m.item.Some? && m.item.value.guid == guid then 1 else 0
  }

  /** Items with this GUID that were listed and are now neither on offer nor in the mail. */
  ghost function Missing(b: Books, guid: uint32): int {
    b.listed[guid] - SumMails(b.house.mails, Carries(guid)) - Total(b.house.cache, Weighs(guid))
  }

  // ----- the invariant -----

  ghost predicate Sound(a: Auction) {
    && (a.bidder == 0 <==> a.lastBid == 0)
    && (a.listing.buyout > 0 ==> a.lastBid < a.listing.buyout)
    && a.lastBid + a.listing.deposit < TWO31 && a.listing.buyout + a.listing.deposit < TWO31
  }

  ghost predicate Inv(h: House) {
    h.cache == h.rows && forall k :: k in h.cache ==> Sound(h.cache[k])
  }

  /** The amounts and ids an operation brings fit the mails' int32 and are not the reserved bidder 0. */
  ghost predicate Fits(h: House, op: Op) {
    match op
    case SellOp(_, _, listing) => listing.buyout + listing.deposit < TWO31
    case BidOp(key, player, price) =>
      Low(player) != 0 && (key in h.cache ==> price + h.cache[key].listing.deposit < TWO31)
    case CancelOp(_, _) => true
    case ExpireOp(_) => true
  }

  /** The standing high bidder buys out. */
  predicate SelfBuyout(h: House, op: Op) {
    && op.BidOp? && Refuses(h, op.key, Low(op.player), op.price).None?
    && Buys(h.cache[op.key], op.price) && h.cache[op.key].bidder == Low(op.player)
  }

  /** The refund of the buyer's own old bid, which nothing pays for. */
  function Surplus(h: House, op: Op): nat {
    if SelfBuyout(h, op) then h.cache[op.key].lastBid else 0
  }

  // ----- one step -----

  lemma SuccessfulMailAdds(a: Auction)
    requires a.lastBid + a.listing.deposit < TWO31
    ensures PaidBy(SuccessfulMail(a)) + KeptBy(SuccessfulMail(a)) == a.lastBid + a.listing.deposit
  {
    CutNeverExceedsBid(a.listing.house, a.lastBid);
  }

  lemma SellStep(b: Books, op: Op)
    requires Inv(b.house) && op.SellOp? && Fits(b.house, op)
    ensures Inv(Exec(b, op).house) && Balance(Exec(b, op)) == Balance(b)
  {
    var h, key := b.house, Key(op.realm, b.house.nextID);
    if key !in h.rows {
      TotalWith(h.cache, HeldFor, key, Auction(op.listing.(owner := Low(op.seller)), 0, 0));
      assert h.cache - {key} == h.cache;
    }
  }

  /** A bid that is accepted without buying. */
  ghost predicate Raises(b: Books, op: Op) {
    && Inv(b.house) && op.BidOp? && Fits(b.house, op)
    && Refuses(b.house, op.key, Low(op.player), op.price).None? && !Buys(b.house.cache[op.key], op.price)
  }

  lemma RaiseShape(b: Books, op: Op)
    requires Raises(b, op)
    ensures var h, a, bidder := b.house, b.house.cache[op.key], Low(op.player);
            var a' := a.(bidder := bidder, lastBid := op.price);
            var refunds := a.bidder != 0 && a.bidder != bidder;
            Exec(b, op) == b.(
              house := h.(
                cache := h.cache[op.key := a'], rows := h.cache[op.key := a'],
                mails := if refunds then h.mails + [OutbidMail(a', a.bidder, a.lastBid)] else h.mails,
                log := h.log + [BidPlaced(op.key, bidder, op.price, false)]),
              taken := b.taken + op.price - if a.bidder == bidder then a.lastBid else 0)
  {
  }

  lemma RaiseKeepsInv(b: Books, op: Op)
    requires Raises(b, op)
    ensures Inv(Exec(b, op).house)
  {
    RaiseShape(b, op);
    var a := b.house.cache[op.key];
    assert Sound(a) && Sound(a.(bidder := Low(op.player), lastBid := op.price));
  }

  lemma RaiseKeepsBalance(b: Books, op: Op)
    requires Raises(b, op)
    ensures Balance(Exec(b, op)) == Balance(b)
  {
    var h, key, a := b.house, op.key, b.house.cache[op.key];
    var a' := a.(bidder := Low(op.player), lastBid := op.price);
    RaiseShape(b, op);
    TotalWith(h.cache, HeldFor, key, a');
    TotalWithout(h.cache, HeldFor, key);
    assert Sound(a);
    SumMore(h.mails, OutbidMail(a', a.bidder, a.lastBid), PaidBy);
    SumMore(h.mails, OutbidMail(a', a.bidder, a.lastBid), KeptBy);
  }

  /** A bid that is accepted and buys. */
  ghost predicate BuysOut(b: Books, op: Op) {
    && Inv(b.house) && op.BidOp? && Fits(b.house, op)
    && Refuses(b.house, op.key, Low(op.player), op.price).None? && Buys(b.house.cache[op.key], op.price)
  }

  function AfterBuyout(mails: seq<Mail>, a: Auction, bidder: uint32): seq<Mail> {
    var sold := a.(bidder := bidder, lastBid := a.listing.buyout);
    var both := mails + [SuccessfulMail(sold)] + [WonMail(sold)];
    if a.bidder != 0 then both + [OutbidMail(sold, a.bidder, a.lastBid)] else both
  }

  lemma BuyShape(b: Books, op: Op)
    requires BuysOut(b, op)
    ensures var h, a, bidder := b.house, b.house.cache[op.key], Low(op.player);
            Exec(b, op) == b.(
              house := h.(
                cache := h.cache - {op.key}, rows := h.cache - {op.key},
                mails := AfterBuyout(h.mails, a, bidder),
                log := h.log + [BidPlaced(op.key, bidder, a.listing.buyout, true)]),
              taken := b.taken + a.listing.buyout - if a.bidder == bidder then a.lastBid else 0)
  {
    assert Sound(b.house.cache[op.key]);
  }

  lemma BuyKeepsInv(b: Books, op: Op)
    requires BuysOut(b, op)
    ensures Inv(Exec(b, op).house)
  {
    BuyShape(b, op);
  }

  lemma BuyMails(mails: seq<Mail>, a: Auction, bidder: uint32)
    requires Sound(a)
    ensures var all := AfterBuyout(mails, a, bidder);
            SumMails(all, PaidBy) + SumMails(all, KeptBy) ==
            SumMails(mails, PaidBy) + SumMails(mails, KeptBy) + a.listing.buyout + a.listing.deposit + a.lastBid
  {
    var sold := a.(bidder := bidder, lastBid := a.listing.buyout);
    var m1, m2, m3 := SuccessfulMail(sold), WonMail(sold), OutbidMail(sold, a.bidder, a.lastBid);
    SuccessfulMailAdds(sold);
    SumMore(mails, m1, PaidBy);
    SumMore(mails, m1, KeptBy);
    SumMore(mails + [m1], m2, PaidBy);
    SumMore(mails + [m1], m2, KeptBy);
    if a.bidder != 0 {
      SumMore(mails + [m1] + [m2], m3, PaidBy);
      SumMore(mails + [m1] + [m2], m3, KeptBy);
    }
  }

  /** A buyout balances, except that a buyer who was already the high bidder is refunded a bid that was not paid again. */
  lemma BuyLosesSurplus(b: Books, op: Op)
    requires BuysOut(b, op)
    ensures Balance(Exec(b, op)) == Balance(b) - Surplus(b.house, op)
  {
    var h, key, a := b.house, op.key, b.house.cache[op.key];
    BuyShape(b, op);
    TotalWithout(h.cache, HeldFor, key);
    assert Sound(a);
    BuyMails(h.mails, a, Low(op.player));
  }

  function AfterCancel(mails: seq<Mail>, a: Auction): seq<Mail> {
    (if a.bidder != 0 then mails + [CancelledBidderMail(a)] else mails) + [CancelledOwnerMail(a)]
  }

  lemma CancelShape(b: Books, op: Op)
    requires Inv(b.house) && op.CancelOp? && op.key in b.house.cache
    requires b.house.cache[op.key].listing.owner == Low(op.player)
    ensures var h, a := b.house, b.house.cache[op.key];
            var fee := if a.bidder != 0 then Cut(a.listing.house, a.lastBid) else 0;
            Exec(b, op) == b.(
              house := h.(
                cache := h.cache - {op.key}, rows := h.cache - {op.key}, mails := AfterCancel(h.mails, a),
                log := h.log + [Canceled(op.key)]),
              taken := b.taken + fee, fees := b.fees + fee)
  {
  }

  lemma CancelMails(mails: seq<Mail>, a: Auction)
    requires Sound(a)
    ensures var all := AfterCancel(mails, a);
            SumMails(all, PaidBy) + SumMails(all, KeptBy) ==
            SumMails(mails, PaidBy) + SumMails(mails, KeptBy) + a.lastBid + a.listing.deposit
  {
    var some := if a.bidder != 0 then mails + [CancelledBidderMail(a)] else mails;
    SumMore(mails, CancelledBidderMail(a), PaidBy);
    SumMore(mails, CancelledBidderMail(a), KeptBy);
    SumMore(some, CancelledOwnerMail(a), PaidBy);
    SumMore(some, CancelledOwnerMail(a), KeptBy);
  }

  lemma CancelStep(b: Books, op: Op)
    requires Inv(b.house) && op.CancelOp?
    ensures Inv(Exec(b, op).house) && Balance(Exec(b, op)) == Balance(b)
  {
    var h, key := b.house, op.key;
    if key in h.cache && h.cache[key].listing.owner == Low(op.player) {
      assert Sound(h.cache[key]);
      CancelShape(b, op);
      TotalWithout(h.cache, HeldFor, key);
      CancelMails(h.mails, h.cache[key]);
    }
  }

  function AfterExpiry(mails: seq<Mail>, a: Auction): seq<Mail> {
    if a.bidder == 0 then mails + [ExpiredMail(a)] else mails + [SuccessfulMail(a)] + [WonMail(a)]
  }

  lemma ExpireShape(b: Books, op: Op)
    requires Inv(b.house) && op.ExpireOp? && op.key in b.house.cache
    ensures var h := b.house;
            Exec(b, op) == b.(house := h.(
              cache := h.cache - {op.key}, rows := h.cache - {op.key}, mails := AfterExpiry(h.mails, h.cache[op.key]),
              log := h.log + [Expired(op.key)]))
  {
  }

  lemma ExpiryMails(mails: seq<Mail>, a: Auction)
    requires Sound(a)
    ensures var all := AfterExpiry(mails, a);
            SumMails(all, PaidBy) + SumMails(all, KeptBy) ==
            SumMails(mails, PaidBy) + SumMails(mails, KeptBy) + a.lastBid + a.listing.deposit
  {
    if a.bidder == 0 {
      SumMore(mails, ExpiredMail(a), PaidBy);
      SumMore(mails, ExpiredMail(a), KeptBy);
    } else {
      SuccessfulMailAdds(a);
      SumMore(mails, SuccessfulMail(a), PaidBy);
      SumMore(mails, SuccessfulMail(a), KeptBy);
      SumMore(mails + [SuccessfulMail(a)], WonMail(a), PaidBy);
      SumMore(mails + [SuccessfulMail(a)], WonMail(a), KeptBy);
    }
  }

  lemma ExpireStep(b: Books, op: Op)
    requires Inv(b.house) && op.ExpireOp?
    ensures Inv(Exec(b, op).house) && Balance(Exec(b, op)) == Balance(b)
  {
    var h, key := b.house, op.key;
    if key in h.cache {
      assert Sound(h.cache[key]);
      ExpireShape(b, op);
      TotalWithout(h.cache, HeldFor, key);
      ExpiryMails(h.mails, h.cache[key]);
    } else {
      assert h.cache - {key} == h.cache;
    }
  }

  lemma StepConserves(b: Books, op: Op)
    requires Inv(b.house) && Fits(b.house, op)
    ensures Inv(Exec(b, op).house)
    ensures Balance(Exec(b, op)) == Balance(b) - Surplus(b.house, op)
  {
    match op
    case SellOp(_, _, _) => SellStep(b, op);
    case BidOp(key, player, price) =>
      if Refuses(b.house, key, Low(player), price).None? {
        if Buys(b.house.cache[key], price) {
          BuyKeepsInv(b, op);
          BuyLosesSurplus(b, op);
        } else {
          RaiseKeepsInv(b, op);
          RaiseKeepsBalance(b, op);
        }
      }
    case CancelOp(_, _) => CancelStep(b, op);
    case ExpireOp(_) => ExpireStep(b, op);
  }

  // ----- whole runs -----

  ghost function Run(b: Books, ops: seq<Op>): Books
    decreases ops
  {
    if ops == [] then b else Run(Exec(b, ops[0]), ops[1..])
  }

  ghost predicate AllFit(b: Books, ops: seq<Op>)
    decreases ops
  {
    ops != [] ==> Fits(b.house, ops[0]) && AllFit(Exec(b, ops[0]), ops[1..])
  }

  ghost function TotalSurplus(b: Books, ops: seq<Op>): nat
    decreases ops
  {
    if ops == [] then 0 else Surplus(b.house, ops[0]) + TotalSurplus(Exec(b, ops[0]), ops[1..])
  }

  /** Some operation of the run is a buyout by the standing high bidder. */
  ghost predicate HasSelfBuyout(b: Books, ops: seq<Op>)
    decreases ops
  {
    ops != [] && (SelfBuyout(b.house, ops[0]) || HasSelfBuyout(Exec(b, ops[0]), ops[1..]))
  }

  const OPENING := Books(House(map[], map[], 1, [], []), 0, 0, multiset{})

  lemma {:induction false} RunConserves(b: Books, ops: seq<Op>)
    requires Inv(b.house) && AllFit(b, ops)
    ensures Inv(Run(b, ops).house)
    ensures Balance(Run(b, ops)) == Balance(b) - TotalSurplus(b, ops)
    ensures TotalSurplus(b, ops) == 0 <==> !HasSelfBuyout(b, ops)
    decreases ops
  {
    if ops != [] {
      StepConserves(b, ops[0]);
      RunConserves(Exec(b, ops[0]), ops[1..]);
      if SelfBuyout(b.house, ops[0]) {
        assert Sound(b.house.cache[ops[0].key]);
      }
    }
  }

  /** From an empty house, money is conserved exactly by the runs in which no standing high bidder buys out. */
  lemma MoneyConserved(ops: seq<Op>)
    requires AllFit(OPENING, ops)
    ensures Balance(Run(OPENING, ops)) == 0 - TotalSurplus(OPENING, ops)
    ensures Balance(Run(OPENING, ops)) == 0 <==> !HasSelfBuyout(OPENING, ops)
  {
    RunConserves(OPENING, ops);
  }

  /** The failing case is reachable: list with buyout 100, bid 50, and let the same player buy. */
  lemma SelfBuyoutCreatesMoney(item: Item)
    ensures exists ops :: AllFit(OPENING, ops) && Balance(Run(OPENING, ops)) == -50
  {
    var key, listing := Key(1, 1), Listing(2, item, 7, 100, 0, 10, 0);
    var sell, bid, buy := SellOp(1, 7, listing), BidOp(key, 9, 50), BidOp(key, 9, 100);
    var b1 := Exec(OPENING, sell);
    assert b1.house.cache == map[key := Auction(listing, 0, 0)];
    var b2 := Exec(b1, bid);
    assert b2.house.cache == map[key := Auction(listing, 9, 50)];
    var ops := [sell, bid, buy];
    assert ops[1..] == [bid, buy] && [bid, buy][1..] == [buy] && [buy][1..] == [];
    assert AllFit(Exec(b2, buy), []) && TotalSurplus(Exec(b2, buy), []) == 0;
    assert AllFit(b2, [buy]) && TotalSurplus(b2, [buy]) == 50;
    assert AllFit(b1, [bid, buy]) && TotalSurplus(b1, [bid, buy]) == 50;
    assert AllFit(OPENING, ops) && TotalSurplus(OPENING, ops) == 50;
    MoneyConserved(ops);
  }

  /** Accepted bids rise, and by five percent while that percentage can be computed in 32 bits. */
  lemma AcceptedBidsRise(h: House, key: Key, bidder: uint32, price: uint32)
    requires Refuses(h, key, bidder, price).None?
    ensures price > h.cache[key].lastBid && price >= h.cache[key].listing.startBid && h.cache[key].listing.owner != bidder
    ensures var last := h.cache[key].lastBid;
            !Buys(h.cache[key], price) && last <= ExactUpTo(5) ==> price >= last + 1 && price >= last + last * 5 / 100
  {
    OutBidIsFivePercent(h.cache[key].lastBid);
  }

  // ----- items -----

  lemma ItemStep(b: Books, op: Op, guid: uint32)
    requires Inv(b.house) && Fits(b.house, op)
    ensures Missing(Exec(b, op), guid) == Missing(b, guid)
  {
    match op
    case SellOp(realm, seller, listing) =>
      var h, key := b.house, Key(realm, b.house.nextID);
      if key !in h.rows {
        TotalWith(h.cache, Weighs(guid), key, Auction(listing.(owner := Low(seller)), 0, 0));
        assert h.cache - {key} == h.cache;
      }
    case BidOp(key, player, price) =>
      if Refuses(b.house, key, Low(player), price).None? {
        if Buys(b.house.cache[key], price) {
          ItemOnBuyout(b, op, guid);
        } else {
          ItemOnRaise(b, op, guid);
        }
      }
    case CancelOp(key, player) =>
      if key in b.house.cache && b.house.cache[key].listing.owner == Low(player) {
        ItemOnCancel(b, op, guid);
      }
    case ExpireOp(key) =>
      if key in b.house.cache {
        ItemOnExpiry(b, op, guid);
      } else {
        assert b.house.cache - {key} == b.house.cache;
      }
  }

  lemma ItemOnRaise(b: Books, op: Op, guid: uint32)
    requires Raises(b, op)
    ensures Missing(Exec(b, op), guid) == Missing(b, guid)
  {
    var h, key, a := b.house, op.key, b.house.cache[op.key];
    var a' := a.(bidder := Low(op.player), lastBid := op.price);
    RaiseShape(b, op);
    TotalWith(h.cache, Weighs(guid), key, a');
    TotalWithout(h.cache, Weighs(guid), key);
    SumMore(h.mails, OutbidMail(a', a.bidder, a.lastBid), Carries(guid));
  }

  lemma ItemOnBuyout(b: Books, op: Op, guid: uint32)
    requires BuysOut(b, op)
    ensures Missing(Exec(b, op), guid) == Missing(b, guid)
  {
    var mails, a := b.house.mails, b.house.cache[op.key];
    var sold := a.(bidder := Low(op.player), lastBid := a.listing.buyout);
    BuyShape(b, op);
    TotalWithout(b.house.cache, Weighs(guid), op.key);
    var m1, m2 := SuccessfulMail(sold), WonMail(sold);
    SumMore(mails, m1, Carries(guid));
    SumMore(mails + [m1], m2, Carries(guid));
    SumMore(mails + [m1] + [m2], OutbidMail(sold, a.bidder, a.lastBid), Carries(guid));
  }

  lemma ItemOnCancel(b: Books, op: Op, guid: uint32)
    requires Inv(b.house) && op.CancelOp? && op.key in b.house.cache
    requires b.house.cache[op.key].listing.owner == Low(op.player)
    ensures Missing(Exec(b, op), guid) == Missing(b, guid)
  {
    var mails, a := b.house.mails, b.house.cache[op.key];
    CancelShape(b, op);
    TotalWithout(b.house.cache, Weighs(guid), op.key);
    SumMore(mails, CancelledBidderMail(a), Carries(guid));
    SumMore(if a.bidder != 0 then mails + [CancelledBidderMail(a)] else mails, CancelledOwnerMail(a), Carries(guid));
  }

  lemma ItemOnExpiry(b: Books, op: Op, guid: uint32)
    requires Inv(b.house) && op.ExpireOp? && op.key in b.house.cache
    ensures Missing(Exec(b, op), guid) == Missing(b, guid)
  {
    var mails, a := b.house.mails, b.house.cache[op.key];
    ExpireShape(b, op);
    TotalWithout(b.house.cache, Weighs(guid), op.key);
    SumMore(mails, ExpiredMail(a), Carries(guid));
    SumMore(mails, SuccessfulMail(a), Carries(guid));
    SumMore(mails + [SuccessfulMail(a)], WonMail(a), Carries(guid));
  }

  /** Every listed item is on offer or was mailed, once per listing, in every run - self-buyouts included. */
  lemma {:induction false} ItemsConserved(b: Books, ops: seq<Op>, guid: uint32)
    requires Inv(b.house) && AllFit(b, ops)
    ensures Missing(Run(b, ops), guid) == Missing(b, guid)
    decreases ops
  {
    if ops != [] {
      ItemStep(b, ops[0], guid);
      StepConserves(b, ops[0]);
      ItemsConserved(Exec(b, ops[0]), ops[1..], guid);
    }
  }

  // ----- replicas -----

  lemma {:induction false} ReplayMore(c: Cache, log: seq<Event>, e: Event)
    ensures Replay(c, log + [e]) == Handle(Replay(c, log), e)
    decreases log
  {
    if log == [] {
      assert log + [e] == [e] && [e][1..] == [];
    } else {
      ReplayMore(Handle(c, log[0]), log[1..], e);
      assert (log + [e])[1..] == log[1..] + [e];
    }
  }

  /** A replica that applied the log shows what the writer's cache shows, and no id was used twice. */
  ghost predicate Mirrored(h: House) {
    && Replay(map[], h.log) == h.cache && WellFormed(h.log)
    && (forall e :: e in h.log ==> e.key.id < h.nextID)
    && (forall k :: k in h.cache ==> k.id < h.nextID)
  }

  lemma {:induction false} OnlyOfNone(k: Key, log: seq<Event>)
    requires forall e :: e in log ==> e.key != k
    ensures Only(k, log) == []
  {
    if log != [] {
      assert log[0] in log && forall e :: e in log[1..] ==> e in log;
      OnlyOfNone(k, log[1..]);
    }
  }

  lemma {:induction false} OnlyMore(k: Key, log: seq<Event>, e: Event)
    ensures Only(k, log + [e]) == if e.key == k then Only(k, log) + [e] else Only(k, log)
  {
    OnlyAppend(k, log, [e]);
    assert [e][1..] == [];
  }

  /** An event about a live auction extends its life. */
  lemma LifeGoesOn(log: seq<Event>, e: Event)
    requires Life(log) && ReplayOne(None, log).Some? && !e.Created?
    ensures Life(log + [e])
  {
    assert log != [];
    LifeIsCreationAndTail(log);
    LifeKeepsListing(log);
    ReplayTail(Auction(log[0].listing, 0, 0), log[1..]);
    forall i | 0 <= i < |log| ensures !log[i].Terminal() {
      if i > 0 {
        assert log[1..][i - 1] == log[i];
      }
    }
  }

  lemma MirrorMore(h: House, e: Event, cache: Cache, nextID: uint32)
    requires Mirrored(h) && h.nextID <= nextID && e.key.id < nextID && cache == Handle(h.cache, e)
    requires if e.Created? then e.key.id == h.nextID else e.key in h.cache
    ensures Mirrored(h.(cache := cache, log := h.log + [e], nextID := nextID))
  {
    ReplayMore(map[], h.log, e);
    forall k ensures Life(Only(k, h.log + [e])) {
      OnlyMore(k, h.log, e);
      assert Life(Only(k, h.log));
      if e.key == k {
        if e.Created? {
          OnlyOfNone(k, h.log);
        } else {
          ReplayPerKey(map[], h.log, k);
          LifeGoesOn(Only(k, h.log), e);
        }
      }
    }
  }

  lemma MirrorSell(b: Books, op: Op)
    requires op.SellOp? && Inv(b.house) && Mirrored(b.house) && b.house.nextID + 1 < TWO32
    ensures Mirrored(Exec(b, op).house)
  {
    var h := b.house;
    var key, a := Key(op.realm, h.nextID), Auction(op.listing.(owner := Low(op.seller)), 0, 0);
    MirrorMore(h, Created(key, a.listing), h.cache[key := a], h.nextID + 1);
    assert Wrap(h.nextID + 1) == h.nextID + 1;
  }

  lemma MirrorBid(b: Books, op: Op)
    requires op.BidOp? && Inv(b.house) && Fits(b.house, op) && Mirrored(b.house)
    requires Refuses(b.house, op.key, Low(op.player), op.price).None?
    ensures Mirrored(Exec(b, op).house)
    ensures Exec(b, op).house.nextID == b.house.nextID
  {
    var h, a, bidder := b.house, b.house.cache[op.key], Low(op.player);
    if Buys(a, op.price) {
      BuyShape(b, op);
      MirrorMore(h, BidPlaced(op.key, bidder, a.listing.buyout, true), h.cache - {op.key}, h.nextID);
    } else {
      RaiseShape(b, op);
      var c := h.cache[op.key := a.(bidder := bidder, lastBid := op.price)];
      MirrorMore(h, BidPlaced(op.key, bidder, op.price, false), c, h.nextID);
    }
  }

  lemma MirrorRemoval(b: Books, op: Op)
    requires op.CancelOp? || op.ExpireOp?
    requires Inv(b.house) && Mirrored(b.house) && op.key in b.house.cache
    requires op.CancelOp? ==> b.house.cache[op.key].listing.owner == Low(op.player)
    ensures Mirrored(Exec(b, op).house)
    ensures Exec(b, op).house.nextID == b.house.nextID
  {
    var h := b.house;
    if op.CancelOp? {
      CancelShape(b, op);
      MirrorMore(h, Canceled(op.key), h.cache - {op.key}, h.nextID);
    } else {
      ExpireShape(b, op);
      MirrorMore(h, Expired(op.key), h.cache - {op.key}, h.nextID);
    }
  }

  lemma MirrorStep(b: Books, op: Op)
    requires Inv(b.house) && Fits(b.house, op) && Mirrored(b.house) && b.house.nextID + 1 < TWO32
    ensures Mirrored(Exec(b, op).house)
    ensures b.house.nextID <= Exec(b, op).house.nextID <= b.house.nextID + 1
  {
    match op
    case SellOp(_, _, _) => MirrorSell(b, op);
    case BidOp(key, player, price) =>
      if Refuses(b.house, key, Low(player), price).None? {
        MirrorBid(b, op);
      }
    case CancelOp(key, player) =>
      if key in b.house.cache && b.house.cache[key].listing.owner == Low(player) {
        MirrorRemoval(b, op);
      }
    case ExpireOp(key) =>
      if key in b.house.cache {
        MirrorRemoval(b, op);
      } else {
        assert b.house.cache - {key} == b.house.cache;
      }
  }

  lemma {:induction false} RunMirrored(b: Books, ops: seq<Op>)
    requires Inv(b.house) && AllFit(b, ops) && Mirrored(b.house) && b.house.nextID + |ops| < TWO32
    ensures Mirrored(Run(b, ops).house)
    decreases ops
  {
    if ops != [] {
      MirrorStep(b, ops[0]);
      StepConserves(b, ops[0]);
      RunMirrored(Exec(b, ops[0]), ops[1..]);
    }
  }

  /**
   The log a single writer publishes is well formed, and a replica that starts empty, has applied any prefix of it and
   is sent the log again from any earlier point holds exactly the writer's cache.
   */
  lemma ReplicasConverge(ops: seq<Op>, j: nat, i: nat)
    requires AllFit(OPENING, ops) && 1 + |ops| < TWO32
    requires j <= i <= |Run(OPENING, ops).house.log|
    ensures var h := Run(OPENING, ops).house;
            Replay(Replay(map[], h.log[..i]), h.log[j..]) == h.cache
  {
    var h := Run(OPENING, ops).house;
    assert Mirrored(OPENING.house);
    RunMirrored(OPENING, ops);
    RedeliveryConverges(h.log, j, i);
  }
}
