/** The auction house player by player: who is charged, who is paid, and who gets which item. */
module AuctionPlayers {
  import opened Words
  import opened AuctionEvents
  import opened AuctionHouse
  import opened AuctionBooks

  // ----- when a bid is accepted -----

  /** Each refusal and the acceptance, in the order of the checks; five percent is computed in 32 bits. */
  lemma RefusedExactlyWhen(h: House, key: Key, bidder: uint32, price: uint32)
    ensures Refuses(h, key, bidder, price) == Some(NotFound) <==> key !in h.cache
    ensures key in h.cache ==>
              var a := h.cache[key];
              var r := Refuses(h, key, bidder, price);
              var low := price <= a.lastBid || price < a.listing.startBid;
              var buys := a.listing.buyout > 0 && price >= a.listing.buyout;
              var step := (a.lastBid * 5) % 0x1_0000_0000 / 100;
              var next := (a.lastBid + if step == 0 then 1 else step) % 0x1_0000_0000;
              && (r == Some(OwnAuction) <==> a.listing.owner == bidder)
              && (r == Some(BidTooLow) <==> a.listing.owner != bidder && low)
              && (r == Some(IncrementTooLow) <==> a.listing.owner != bidder && !low && !buys && price < next)
              && (r == None <==> a.listing.owner != bidder && !low && (buys || price >= next))
              && (Buys(a, price) <==> buys)
  {
  }

  /** The replies to a listing and to a cancellation, for every outcome of the write. */
  lemma OtherReplies(h: House, realm: uint32, player: uint64, listing: Listing, key: Key, f: Faults)
    ensures Sell(h, realm, player, listing, f).1 ==
            if f.write || Key(realm, h.nextID) in h.rows then None else Some(Key(realm, h.nextID))
    ensures Sell(h, realm, player, listing, f).0.nextID == (h.nextID + 1) % 0x1_0000_0000
    ensures Cancel(h, key, player, f).1 ==
            if key !in h.cache then CancelNotFound
            else if h.cache[key].listing.owner != player % 0x1_0000_0000 then NotOwner
            else Cancelled(if h.cache[key].bidder == 0 then 0 else Cut(h.cache[key].listing.house, h.cache[key].lastBid), f.write)
  {
  }

  // ----- the mails of an operation, addressee by addressee -----

  /** A buyout pays the seller, ships to the buyer and refunds the bidder who was outbid. */
  lemma BuyoutDelivers(b: Books, op: Op)
    requires BuysOut(b, op)
    ensures var a, buyer := b.house.cache[op.key], Low(op.player);
            var price, deposit, cut := a.listing.buyout, a.listing.deposit, Cut(a.listing.house, a.listing.buyout);
            var sale := b.house.mails + [Mail(Successful, a.listing.owner, price + deposit - cut, None, deposit, cut)]
                        + [Mail(Won, buyer, 0, Some(a.listing.item), 0, 0)];
            Exec(b, op).house.mails ==
            if a.bidder != 0 then sale + [Mail(Outbid, a.bidder, a.lastBid, None, deposit, 0)] else sale
  {
    BuyShape(b, op);
    assert Sound(b.house.cache[op.key]);
    CutNeverExceedsBid(b.house.cache[op.key].listing.house, b.house.cache[op.key].listing.buyout);
  }

  /** A bid refunds the player it outbids, if there is another one. */
  lemma BidDelivers(b: Books, op: Op)
    requires Raises(b, op)
    ensures var a := b.house.cache[op.key];
            Exec(b, op).house.mails ==
            if a.bidder != 0 && a.bidder != Low(op.player)
            then b.house.mails + [Mail(Outbid, a.bidder, a.lastBid, None, a.listing.deposit, 0)] else b.house.mails
  {
    RaiseShape(b, op);
    assert Sound(b.house.cache[op.key]);
  }

  /** A cancellation refunds the bidder and returns the item to the seller. */
  lemma CancelDelivers(b: Books, op: Op)
    requires Inv(b.house) && op.CancelOp? && op.key in b.house.cache
    requires b.house.cache[op.key].listing.owner == Low(op.player)
    ensures var a := b.house.cache[op.key];
            var refunded := if a.bidder != 0
                            then b.house.mails + [Mail(CancelledBidder, a.bidder, a.lastBid, None, a.listing.deposit, 0)]
                            else b.house.mails;
            Exec(b, op).house.mails ==
            refunded + [Mail(CancelledOwner, a.listing.owner, 0, Some(a.listing.item), a.listing.deposit, 0)]
  {
    CancelShape(b, op);
    assert Sound(b.house.cache[op.key]);
  }

  /** An expiry with a bidder is a sale at the standing bid; without one the item returns to the seller. */
  lemma ExpiryDelivers(b: Books, op: Op)
    requires Inv(b.house) && op.ExpireOp? && op.key in b.house.cache
    ensures var a := b.house.cache[op.key];
            var deposit, cut := a.listing.deposit, Cut(a.listing.house, a.lastBid);
            Exec(b, op).house.mails ==
            if a.bidder == 0
            then b.house.mails + [Mail(ExpiredUnsold, a.listing.owner, 0, Some(a.listing.item), deposit, 0)]
            else b.house.mails + [Mail(Successful, a.listing.owner, a.lastBid + deposit - cut, None, deposit, cut)]
                 + [Mail(Won, a.bidder, 0, Some(a.listing.item), 0, 0)]
  {
    ExpireShape(b, op);
    assert Sound(b.house.cache[op.key]);
    CutNeverExceedsBid(b.house.cache[op.key].listing.house, b.house.cache[op.key].lastBid);
  }

  // ----- deals -----

  datatype Deal = NoDeal | Deal(seller: uint32, buyer: uint32, price: uint32, house: uint8)

  predicate Accepted(h: House, op: Op) {
    op.BidOp? && Refuses(h, op.key, Low(op.player), op.price).None?
  }

  predicate CancelsOwn(h: House, op: Op) {
    op.CancelOp? && op.key in h.cache && h.cache[op.key].listing.owner == Low(op.player)
  }

  /** An accepted buyout sells to its bidder, an expiry to the standing bidder. */
  function DealOf(h: House, op: Op): Deal {
    if Accepted(h, op) && Buys(h.cache[op.key], op.price) then
      var l := h.cache[op.key].listing; Deal(l.owner, Low(op.player), l.buyout, l.house)
    else if op.ExpireOp? && op.key in h.cache && h.cache[op.key].bidder != 0 then
      var a := h.cache[op.key]; Deal(a.listing.owner, a.bidder, a.lastBid, a.listing.house)
    else NoDeal
  }

  // ----- money, player by player -----

  function One(c: bool, amount: int): int {
    if c then amount else 0
  }

  /** What the player's caller takes on the service's word: deposits, bids, cancellation fees. */
  function Charged(h: House, op: Op, p: uint32): int {
    match op
    case SellOp(realm, seller, listing) =>
      One(Low(seller) == p && Sell(h, realm, seller, listing, NO_FAULTS).1.Some?, listing.deposit)
    case BidOp(key, player, price) =>
      var reply := PlaceBid(h, key, player, price, NO_FAULTS).1;
      if reply.Placed? && Low(player) == p then reply.deduct else 0
    case CancelOp(key, player) =>
      var reply := Cancel(h, key, player, NO_FAULTS).1;
      if reply.Cancelled? && Low(player) == p then reply.cut else 0
    case ExpireOp(_) => 0
  }

  /** What deals bring the player in as seller, less what they cost as buyer. */
  function Traded(h: House, op: Op, p: uint32): int {
    match DealOf(h, op)
    case NoDeal => 0
    case Deal(seller, buyer, price, _) => One(seller == p, price) - One(buyer == p, price)
  }

  /** What the house keeps of the player's money: the cut of a sale, the deposit of an unsold or cancelled auction, the
      fee of a cancelled one. */
  function Kept(h: House, op: Op, p: uint32): int {
    match DealOf(h, op)
    case Deal(seller, _, price, house) => One(seller == p, Cut(house, price))
    case NoDeal =>
      if CancelsOwn(h, op) || (op.ExpireOp? && op.key in h.cache) then
        var a := h.cache[op.key];
        One(a.listing.owner == p,
            a.listing.deposit + One(op.CancelOp? && a.bidder != 0, Cut(a.listing.house, a.lastBid)))
      else 0
  }

  /** The refund of the player's own bid in a buyout by the standing high bidder. */
  function Gift(h: House, op: Op, p: uint32): int {
    One(op.BidOp? && Low(op.player) == p, Surplus(h, op))
  }

  function PaidTo(p: uint32): Mail -> int {
    (m: Mail) => if m.receiver == p then m.money else 0
  }

  /** A live auction holds the standing bid for its bidder and the deposit for its seller. */
  function HeldOf(p: uint32): Auction -> int {
    (a: Auction) => One(a.bidder == p, a.lastBid) + One(a.listing.owner == p, a.listing.deposit)
  }

  /** What the player has been mailed and what is held for them. */
  ghost function Purse(h: House, p: uint32): int {
    SumMails(h.mails, PaidTo(p)) + Total(h.cache, HeldOf(p))
  }

  ghost function Due(h: House, op: Op, p: uint32): int {
    Charged(h, op, p) + Traded(h, op, p) - Kept(h, op, p) + Gift(h, op, p)
  }

  lemma SellPurse(b: Books, op: Op, p: uint32)
    requires Inv(b.house) && op.SellOp?
    ensures Purse(Exec(b, op).house, p) == Purse(b.house, p) + Due(b.house, op, p)
  {
    var h, key := b.house, Key(op.realm, b.house.nextID);
    if key !in h.rows {
      TotalWith(h.cache, HeldOf(p), key, Auction(op.listing.(owner := Low(op.seller)), 0, 0));
      assert h.cache - {key} == h.cache;
    }
  }

  lemma BidCharges(b: Books, op: Op, p: uint32)
    requires Raises(b, op)
    ensures var a := b.house.cache[op.key];
            Due(b.house, op, p) == One(Low(op.player) == p, op.price - One(a.bidder == p, a.lastBid))
  {
    assert Sound(b.house.cache[op.key]);
  }

  lemma BidPurse(b: Books, op: Op, p: uint32)
    requires Raises(b, op)
    ensures Purse(Exec(b, op).house, p) == Purse(b.house, p) + Due(b.house, op, p)
  {
    var h, a := b.house, b.house.cache[op.key];
    var a' := a.(bidder := Low(op.player), lastBid := op.price);
    RaiseShape(b, op);
    BidDelivers(b, op);
    BidCharges(b, op, p);
    TotalWith(h.cache, HeldOf(p), op.key, a');
    TotalWithout(h.cache, HeldOf(p), op.key);
    SumMore(h.mails, Mail(Outbid, a.bidder, a.lastBid, None, a.listing.deposit, 0), PaidTo(p));
    assert Sound(a);
  }

  lemma BuyoutCharges(b: Books, op: Op, p: uint32)
    requires BuysOut(b, op)
    ensures var a := b.house.cache[op.key];
            Due(b.house, op, p) ==
            One(a.listing.owner == p, a.listing.buyout - Cut(a.listing.house, a.listing.buyout))
  {
    assert Sound(b.house.cache[op.key]);
    BuyShape(b, op);
  }

  lemma SumThree(mails: seq<Mail>, m1: Mail, m2: Mail, m3: Mail, weight: Mail -> int)
    ensures SumMails(mails + [m1] + [m2], weight) == SumMails(mails, weight) + weight(m1) + weight(m2)
    ensures SumMails(mails + [m1] + [m2] + [m3], weight) ==
            SumMails(mails, weight) + weight(m1) + weight(m2) + weight(m3)
  {
    SumMore(mails, m1, weight);
    SumMore(mails + [m1], m2, weight);
    SumMore(mails + [m1] + [m2], m3, weight);
  }

  function OutbidOf(a: Auction): Mail {
    Mail(Outbid, a.bidder, a.lastBid, None, a.listing.deposit, 0)
  }

  lemma BuyoutSum(b: Books, op: Op, weight: Mail -> int)
    requires BuysOut(b, op)
    ensures var a := b.house.cache[op.key];
            var price, deposit, cut := a.listing.buyout, a.listing.deposit, Cut(a.listing.house, a.listing.buyout);
            SumMails(Exec(b, op).house.mails, weight) ==
            SumMails(b.house.mails, weight)
            + weight(Mail(Successful, a.listing.owner, price + deposit - cut, None, deposit, cut))
            + weight(Mail(Won, Low(op.player), 0, Some(a.listing.item), 0, 0)) + One(a.bidder != 0, weight(OutbidOf(a)))
  {
    var a := b.house.cache[op.key];
    var price, deposit, cut := a.listing.buyout, a.listing.deposit, Cut(a.listing.house, a.listing.buyout);
    BuyoutDelivers(b, op);
    SumThree(b.house.mails, Mail(Successful, a.listing.owner, price + deposit - cut, None, deposit, cut),
             Mail(Won, Low(op.player), 0, Some(a.listing.item), 0, 0), OutbidOf(a), weight);
  }

  lemma BuyoutPurse(b: Books, op: Op, p: uint32)
    requires BuysOut(b, op)
    ensures Purse(Exec(b, op).house, p) == Purse(b.house, p) + Due(b.house, op, p)
  {
    BuyShape(b, op);
    BuyoutSum(b, op, PaidTo(p));
    BuyoutCharges(b, op, p);
    TotalWithout(b.house.cache, HeldOf(p), op.key);
    assert Sound(b.house.cache[op.key]);
  }

  function RefundMail(a: Auction): Mail {
    Mail(CancelledBidder, a.bidder, a.lastBid, None, a.listing.deposit, 0)
  }

  function ReturnMail(a: Auction): Mail {
    Mail(CancelledOwner, a.listing.owner, 0, Some(a.listing.item), a.listing.deposit, 0)
  }

  lemma CancelSum(b: Books, op: Op, weight: Mail -> int)
    requires Inv(b.house) && CancelsOwn(b.house, op)
    ensures var a := b.house.cache[op.key];
            SumMails(Exec(b, op).house.mails, weight) ==
            SumMails(b.house.mails, weight) + One(a.bidder != 0, weight(RefundMail(a))) + weight(ReturnMail(a))
  {
    var mails, a := b.house.mails, b.house.cache[op.key];
    CancelDelivers(b, op);
    SumThree(mails, RefundMail(a), ReturnMail(a), ReturnMail(a), weight);
    SumMore(mails, ReturnMail(a), weight);
  }

  lemma CancelDue(b: Books, op: Op, p: uint32)
    requires Inv(b.house) && CancelsOwn(b.house, op)
    ensures var a := b.house.cache[op.key];
            Due(b.house, op, p) == -One(a.listing.owner == p, a.listing.deposit)
  {
  }

  lemma CancelPurse(b: Books, op: Op, p: uint32)
    requires Inv(b.house) && CancelsOwn(b.house, op)
    ensures Purse(Exec(b, op).house, p) == Purse(b.house, p) + Due(b.house, op, p)
  {
    CancelShape(b, op);
    CancelSum(b, op, PaidTo(p));
    CancelDue(b, op, p);
    TotalWithout(b.house.cache, HeldOf(p), op.key);
    assert Sound(b.house.cache[op.key]);
  }

  lemma ExpirySum(b: Books, op: Op, weight: Mail -> int)
    requires Inv(b.house) && op.ExpireOp? && op.key in b.house.cache
    ensures var a := b.house.cache[op.key];
            var deposit, cut := a.listing.deposit, Cut(a.listing.house, a.lastBid);
            SumMails(Exec(b, op).house.mails, weight) ==
            SumMails(b.house.mails, weight) +
            if a.bidder == 0 then weight(Mail(ExpiredUnsold, a.listing.owner, 0, Some(a.listing.item), deposit, 0))
            else weight(Mail(Successful, a.listing.owner, a.lastBid + deposit - cut, None, deposit, cut))
                 + weight(Mail(Won, a.bidder, 0, Some(a.listing.item), 0, 0))
  {
    var mails, a := b.house.mails, b.house.cache[op.key];
    var deposit, cut := a.listing.deposit, Cut(a.listing.house, a.lastBid);
    ExpiryDelivers(b, op);
    var m1 := Mail(Successful, a.listing.owner, a.lastBid + deposit - cut, None, deposit, cut);
    var m2 := Mail(Won, a.bidder, 0, Some(a.listing.item), 0, 0);
    SumThree(mails, m1, m2, m2, weight);
    SumMore(mails, Mail(ExpiredUnsold, a.listing.owner, 0, Some(a.listing.item), deposit, 0), weight);
  }

  lemma ExpiryDue(b: Books, op: Op, p: uint32)
    requires Inv(b.house) && op.ExpireOp? && op.key in b.house.cache
    ensures var a := b.house.cache[op.key];
            Due(b.house, op, p) ==
            if a.bidder == 0 then -One(a.listing.owner == p, a.listing.deposit)
            else One(a.listing.owner == p, a.lastBid - Cut(a.listing.house, a.lastBid)) - One(a.bidder == p, a.lastBid)
  {
  }

  lemma ExpiryPurse(b: Books, op: Op, p: uint32)
    requires Inv(b.house) && op.ExpireOp? && op.key in b.house.cache
    ensures Purse(Exec(b, op).house, p) == Purse(b.house, p) + Due(b.house, op, p)
  {
    ExpireShape(b, op);
    ExpirySum(b, op, PaidTo(p));
    ExpiryDue(b, op, p);
    TotalWithout(b.house.cache, HeldOf(p), op.key);
    assert Sound(b.house.cache[op.key]);
  }

  lemma StepPurse(b: Books, op: Op, p: uint32)
    requires Inv(b.house) && Fits(b.house, op)
    ensures Purse(Exec(b, op).house, p) == Purse(b.house, p) + Due(b.house, op, p)
  {
    match op
    case SellOp(_, _, _) => SellPurse(b, op, p);
    case BidOp(key, _, price) =>
      if Accepted(b.house, op) {
        if Buys(b.house.cache[key], price) {
          BuyoutPurse(b, op, p);
        } else {
          BidPurse(b, op, p);
        }
      }
    case CancelOp(_, _) =>
      if CancelsOwn(b.house, op) {
        CancelPurse(b, op, p);
      }
    case ExpireOp(key) =>
      if key in b.house.cache {
        ExpiryPurse(b, op, p);
      } else {
        assert b.house.cache - {key} == b.house.cache;
      }
  }

  ghost function DueAlong(b: Books, ops: seq<Op>, p: uint32): int
    decreases |ops|
  {
    if ops == [] then 0 else Due(b.house, ops[0], p) + DueAlong(Exec(b, ops[0]), ops[1..], p)
  }

  /**
   Over every failure-free run within int32, for every player: what they were charged and what their sales brought, less
   what their purchases cost and what the house kept of it, has been mailed to them or is held for them - and, for a
   buyout over one's own bid, that bid once more.
   */
  lemma {:induction false} PlayersGetTheirs(b: Books, ops: seq<Op>, p: uint32)
    requires Inv(b.house) && AllFit(b, ops)
    ensures Purse(Run(b, ops).house, p) == Purse(b.house, p) + DueAlong(b, ops, p)
    decreases |ops|
  {
    if ops != [] {
      StepPurse(b, ops[0], p);
      StepConserves(b, ops[0]);
      PlayersGetTheirs(Exec(b, ops[0]), ops[1..], p);
    }
  }

  // ----- items, player by player -----

  /** The player an operation sends an item to: the buyer of a deal, else the seller of an unsold or cancelled auction. */
  function Recipient(h: House, op: Op): Option<uint32> {
    match DealOf(h, op)
    case Deal(_, buyer, _, _) => Some(buyer)
    case NoDeal =>
      if CancelsOwn(h, op) || (op.ExpireOp? && op.key in h.cache) then Some(h.cache[op.key].listing.owner) else None
  }

  function Sends(h: House, op: Op, p: uint32, guid: uint32): int {
    One(Recipient(h, op) == Some(p) && !op.SellOp? && op.key in h.cache && h.cache[op.key].listing.item.guid == guid, 1)
  }

  function CarriedTo(p: uint32, guid: uint32): Mail -> int {
    (m: Mail) => if m.receiver == p && m.item.Some? && m.item.value.guid == guid then 1 else 0
  }

  ghost function Got(h: House, p: uint32, guid: uint32): int {
    SumMails(h.mails, CarriedTo(p, guid))
  }

  lemma BidSum(b: Books, op: Op, weight: Mail -> int)
    requires Raises(b, op)
    ensures var a := b.house.cache[op.key];
            SumMails(Exec(b, op).house.mails, weight) ==
            SumMails(b.house.mails, weight) + One(a.bidder != 0 && a.bidder != Low(op.player), weight(OutbidOf(a)))
  {
    BidDelivers(b, op);
    SumMore(b.house.mails, OutbidOf(b.house.cache[op.key]), weight);
  }

  lemma BidItems(b: Books, op: Op, p: uint32, guid: uint32)
    requires Raises(b, op)
    ensures Got(Exec(b, op).house, p, guid) == Got(b.house, p, guid) + Sends(b.house, op, p, guid)
  {
    BidSum(b, op, CarriedTo(p, guid));
  }

  lemma BuyoutItems(b: Books, op: Op, p: uint32, guid: uint32)
    requires BuysOut(b, op)
    ensures Got(Exec(b, op).house, p, guid) == Got(b.house, p, guid) + Sends(b.house, op, p, guid)
  {
    BuyoutSum(b, op, CarriedTo(p, guid));
  }

  lemma CancelItems(b: Books, op: Op, p: uint32, guid: uint32)
    requires Inv(b.house) && CancelsOwn(b.house, op)
    ensures Got(Exec(b, op).house, p, guid) == Got(b.house, p, guid) + Sends(b.house, op, p, guid)
  {
    CancelSum(b, op, CarriedTo(p, guid));
  }

  lemma ExpiryItems(b: Books, op: Op, p: uint32, guid: uint32)
    requires Inv(b.house) && op.ExpireOp? && op.key in b.house.cache
    ensures Got(Exec(b, op).house, p, guid) == Got(b.house, p, guid) + Sends(b.house, op, p, guid)
  {
    ExpirySum(b, op, CarriedTo(p, guid));
  }

  lemma StepItems(b: Books, op: Op, p: uint32, guid: uint32)
    requires Inv(b.house) && Fits(b.house, op)
    ensures Got(Exec(b, op).house, p, guid) == Got(b.house, p, guid) + Sends(b.house, op, p, guid)
  {
    match op
    case SellOp(_, _, _) =>
    case BidOp(key, _, price) =>
      if Accepted(b.house, op) {
        if Buys(b.house.cache[key], price) {
          BuyoutItems(b, op, p, guid);
        } else {
          BidItems(b, op, p, guid);
        }
      }
    case CancelOp(_, _) =>
      if CancelsOwn(b.house, op) {
        CancelItems(b, op, p, guid);
      }
    case ExpireOp(key) =>
      if key in b.house.cache {
        ExpiryItems(b, op, p, guid);
      }
  }

  ghost function SendsAlong(b: Books, ops: seq<Op>, p: uint32, guid: uint32): int
    decreases |ops|
  {
    if ops == [] then 0 else Sends(b.house, ops[0], p, guid) + SendsAlong(Exec(b, ops[0]), ops[1..], p, guid)
  }

  /** Over every such run a player is mailed an item exactly as often as they bought it or got it back. */
  lemma {:induction false} ItemsReachTheirOwners(b: Books, ops: seq<Op>, p: uint32, guid: uint32)
    requires Inv(b.house) && AllFit(b, ops)
    ensures Got(Run(b, ops).house, p, guid) == Got(b.house, p, guid) + SendsAlong(b, ops, p, guid)
    decreases |ops|
  {
    if ops != [] {
      StepItems(b, ops[0], p, guid);
      StepConserves(b, ops[0]);
      ItemsReachTheirOwners(Exec(b, ops[0]), ops[1..], p, guid);
    }
  }

  // ----- the standing bid -----

  /** What the replies have said about an auction so far: its last accepted bidder and bid, and none for a new listing. */
  function Told(b: Books, op: Op, key: Key, last: (uint32, uint32)): (uint32, uint32) {
    match op
    case SellOp(realm, seller, listing) =>
      if Sell(b.house, realm, seller, listing, NO_FAULTS).1 == Some(key) then (0, 0) else last
    case BidOp(k, player, price) =>
      if k == key && PlaceBid(b.house, k, player, price, NO_FAULTS).1.Placed? then (Low(player), price) else last
    case CancelOp(_, _) => last
    case ExpireOp(_) => last
  }

  ghost function ToldAlong(b: Books, ops: seq<Op>, key: Key, last: (uint32, uint32)): (uint32, uint32)
    decreases |ops|
  {
    if ops == [] then last else ToldAlong(Exec(b, ops[0]), ops[1..], key, Told(b, ops[0], key, last))
  }

  lemma StepTold(b: Books, op: Op, key: Key, last: (uint32, uint32))
    requires Inv(b.house) && Fits(b.house, op)
    requires key in b.house.cache ==> last == (b.house.cache[key].bidder, b.house.cache[key].lastBid)
    ensures var h := Exec(b, op).house;
            key in h.cache ==> Told(b, op, key, last) == (h.cache[key].bidder, h.cache[key].lastBid)
  {
    if Accepted(b.house, op) {
      if Buys(b.house.cache[op.key], op.price) {
        BuyShape(b, op);
      } else {
        RaiseShape(b, op);
      }
    }
  }

  /** Over every such run the standing bid of a live auction is the last one that was accepted, and its player's. */
  lemma {:induction false} StandingBidIsTheLastAccepted(b: Books, ops: seq<Op>, key: Key, last: (uint32, uint32))
    requires Inv(b.house) && AllFit(b, ops)
    requires key in b.house.cache ==> last == (b.house.cache[key].bidder, b.house.cache[key].lastBid)
    ensures var h := Run(b, ops).house;
            key in h.cache ==> ToldAlong(b, ops, key, last) == (h.cache[key].bidder, h.cache[key].lastBid)
    decreases |ops|
  {
    if ops != [] {
      StepTold(b, ops[0], key, last);
      StepConserves(b, ops[0]);
      StandingBidIsTheLastAccepted(Exec(b, ops[0]), ops[1..], key, Told(b, ops[0], key, last));
    }
  }
}
