/**
 The replicated auction cache (apps/auctionhouse/service/auction_events.go): every instance applies the events the
 others publish.
 */
module AuctionEvents {
  import opened Words

  /** The nested maps realm -> auction -> entry, flattened. */
  datatype Key = Key(realm: uint32, id: uint32)

  /** The columns joined from the item tables; they travel unchanged. */
  datatype Item = Item(
    guid: uint32, entry: uint32, count: uint32, charges: int, randomProperty: int, suffixFactor: uint32,
    enchantments: string, flags: uint32)

  datatype Listing = Listing(
    house: uint8, item: Item, owner: uint32, buyout: uint32, time: uint32, startBid: uint32, deposit: uint32)

  /** AuctionEntry: a listing and its standing bid; bidder 0 means none. */
  datatype Auction = Auction(listing: Listing, bidder: uint32, lastBid: uint32)

  type Cache = map<Key, Auction>

  datatype Event =
    | Created(key: Key, listing: Listing)
    | BidPlaced(key: Key, bidder: uint32, lastBid: uint32, isBuyout: bool)
    | Canceled(key: Key)
    | Expired(key: Key)
  {
    predicate Terminal() {
      Canceled? || Expired? || (BidPlaced? && isBuyout)
    }
  }

  /** The four handlers. */
  function Handle(c: Cache, e: Event): Cache {
    match e
    case Created(key, listing) => if key in c then c else c[key := Auction(listing, 0, 0)]
    case BidPlaced(key, bidder, lastBid, isBuyout) =>
      if key !in c then c
      else if isBuyout then c - {key}
      else c[key := c[key].(bidder := bidder, lastBid := lastBid)]
    case Canceled(key) => c - {key}
    case Expired(key) => c - {key}
  }

  function Replay(c: Cache, log: seq<Event>): Cache
    decreases log
  {
    if log == [] then c else Replay(Handle(c, log[0]), log[1..])
  }

  /** The handlers as the source runs them, on a map it updates in place. */
  class Replica {
    var auctions: Cache

    constructor ()
      ensures auctions == map[]
    {
      auctions := map[];
    }

    method HandleAuctionCreated(key: Key, listing: Listing)
      modifies this
      ensures auctions == Handle(old(auctions), Created(key, listing))
      ensures key in old(auctions) ==> auctions == old(auctions)
      ensures key !in old(auctions) ==> auctions == old(auctions)[key := Auction(listing, 0, 0)]
    {
      if key in auctions {
        return;
      }
      auctions := auctions[key := Auction(listing, 0, 0)];
    }

    method HandleBidPlaced(key: Key, bidder: uint32, lastBid: uint32, isBuyout: bool)
      modifies this
      ensures auctions == Handle(old(auctions), BidPlaced(key, bidder, lastBid, isBuyout))
      ensures key in auctions <==> key in old(auctions) && !isBuyout
      ensures key in auctions ==> auctions[key] == Auction(old(auctions)[key].listing, bidder, lastBid)
    {
      if key !in auctions {
        return;
      }
      auctions := auctions[key := auctions[key].(bidder := bidder, lastBid := lastBid)];
      if isBuyout {
        auctions := auctions - {key};
      }
    }

    method HandleAuctionCanceled(key: Key)
      modifies this
      ensures auctions == Handle(old(auctions), Canceled(key))
    {
      auctions := auctions - {key};
    }

    method HandleAuctionExpired(key: Key)
      modifies this
      ensures auctions == Handle(old(auctions), Expired(key))
    {
      auctions := auctions - {key};
    }
  }

  // ----- one key at a time -----

  function At(c: Cache, k: Key): Option<Auction> {
    if k in c then Some(c[k]) else None
  }

  /** What an event does to the entry of its own key. */
  function HandleOne(a: Option<Auction>, e: Event): Option<Auction> {
    match e
    case Created(_, listing) => if a.Some? then a else Some(Auction(listing, 0, 0))
    case BidPlaced(_, bidder, lastBid, isBuyout) =>
      if a.None? || isBuyout then None else Some(a.value.(bidder := bidder, lastBid := lastBid))
    case Canceled(_) => None
    case Expired(_) => None
  }

  function ReplayOne(a: Option<Auction>, log: seq<Event>): Option<Auction>
    decreases log
  {
    if log == [] then a else ReplayOne(HandleOne(a, log[0]), log[1..])
  }

  /** The events of one key, in order. */
  function Only(k: Key, log: seq<Event>): seq<Event> {
    if log == [] then [] else (if log[0].key == k then [log[0]] else []) + Only(k, log[1..])
  }

  lemma {:induction false} ReplayPerKey(c: Cache, log: seq<Event>, k: Key)
    ensures At(Replay(c, log), k) == ReplayOne(At(c, k), Only(k, log))
    decreases log
  {
    if log != [] {
      ReplayPerKey(Handle(c, log[0]), log[1..], k);
      if log[0].key == k {
        assert Only(k, log)[1..] == Only(k, log[1..]);
      } else {
        assert Only(k, log) == Only(k, log[1..]);
      }
    }
  }

  lemma SameEverywhere(c: Cache, d: Cache)
    requires forall k :: At(c, k) == At(d, k)
    ensures c == d
  {
    forall k ensures k in c <==> k in d {
      assert At(c, k) == At(d, k);
    }
    forall k | k in c ensures c[k] == d[k] {
      assert At(c, k) == At(d, k);
    }
  }

  lemma {:induction false} OnlyAppend(k: Key, a: seq<Event>, b: seq<Event>)
    ensures Only(k, a + b) == Only(k, a) + Only(k, b)
  {
    if a == [] {
      assert a + b == b;
    } else {
      OnlyAppend(k, a[1..], b);
      assert (a + b)[1..] == a[1..] + b;
    }
  }

  lemma {:induction false} ReplayOneAppend(x: Option<Auction>, a: seq<Event>, b: seq<Event>)
    ensures ReplayOne(x, a + b) == ReplayOne(ReplayOne(x, a), b)
    decreases a
  {
    if a == [] {
      assert a + b == b;
    } else {
      ReplayOneAppend(HandleOne(x, a[0]), a[1..], b);
      assert (a + b)[1..] == a[1..] + b;
    }
  }

  // ----- well-formed logs -----

  /** The life of one auction: created once, then plain bids, then at most one terminal event, last. */
  predicate Life(log: seq<Event>) {
    forall i :: 0 <= i < |log| ==> (log[i].Created? <==> i == 0) && (log[i].Terminal() ==> i == |log| - 1)
  }

  ghost predicate WellFormed(log: seq<Event>) {
    forall k :: Life(Only(k, log))
  }

  /** After its creation an auction's entry is decided by the last of the events that follow. */
  function Last(a: Option<Auction>, log: seq<Event>): Option<Auction> {
    if log == [] then a else HandleOne(a, log[|log| - 1])
  }

  /** No creation, and terminal events only at the end. */
  predicate Tail(log: seq<Event>) {
    forall i :: 0 <= i < |log| ==> !log[i].Created? && (log[i].Terminal() ==> i == |log| - 1)
  }

  lemma {:induction false} ReplayTail(a: Auction, log: seq<Event>)
    requires Tail(log)
    ensures ReplayOne(Some(a), log) == Last(Some(a), log)
    ensures ReplayOne(Some(a), log).Some? ==> ReplayOne(Some(a), log).value.listing == a.listing
    ensures (exists e :: e in log && e.Terminal()) <==> ReplayOne(Some(a), log).None?
    decreases log
  {
    if log != [] {
      var e, rest := log[0], log[1..];
      if e.Terminal() {
        assert |log| == 1;
      } else {
        var b := HandleOne(Some(a), e).value;
        assert Tail(rest);
        ReplayTail(b, rest);
        if rest != [] {
          assert rest[|rest| - 1] == log[|log| - 1];
        }
        assert forall x :: x in log <==> x == e || x in rest;
      }
    }
  }

  lemma {:induction false} ReplayTailOfNone(log: seq<Event>)
    requires Tail(log)
    ensures ReplayOne(None, log) == None
    decreases log
  {
    if log != [] {
      ReplayTailOfNone(log[1..]);
    }
  }

  /** Once anything follows, two entries of the same listing end alike. */
  lemma SameListingSameEnd(a: Auction, b: Auction, log: seq<Event>)
    requires Tail(log) && log != [] && a.listing == b.listing
    ensures ReplayOne(Some(a), log) == ReplayOne(Some(b), log)
  {
    ReplayTail(a, log);
    ReplayTail(b, log);
  }

  /** A life is a creation and a tail. */
  lemma LifeIsCreationAndTail(log: seq<Event>)
    requires Life(log) && log != []
    ensures log[0].Created? && Tail(log[1..])
  {
  }

  lemma {:induction false} LifeKeepsListing(log: seq<Event>)
    requires Life(log) && log != []
    ensures ReplayOne(None, log) == ReplayOne(Some(Auction(log[0].listing, 0, 0)), log[1..])
    ensures ReplayOne(None, log).Some? ==> ReplayOne(None, log).value.listing == log[0].listing
  {
    LifeIsCreationAndTail(log);
    ReplayTail(Auction(log[0].listing, 0, 0), log[1..]);
  }

  lemma LifePrefix(a: seq<Event>, b: seq<Event>)
    requires Life(a + b)
    ensures Life(a) && (a != [] ==> Tail(b))
  {
    forall i | 0 <= i < |a| ensures (a[i].Created? <==> i == 0) && (a[i].Terminal() ==> i == |a| - 1) {
      assert (a + b)[i] == a[i];
    }
    forall i | 0 <= i < |b| && a != [] ensures !b[i].Created? && (b[i].Terminal() ==> i == |b| - 1) {
      assert (a + b)[|a| + i] == b[i];
    }
  }

  /** A terminal event is the last of its key. */
  lemma NothingAfterTheEnd(a: seq<Event>, b: seq<Event>)
    requires Life(a + b) && a != [] && ReplayOne(None, a) == None
    ensures b == []
  {
    LifePrefix(a, b);
    LifeIsCreationAndTail(a);
    ReplayTail(Auction(a[0].listing, 0, 0), a[1..]);
    LifeKeepsListing(a);
    var e :| e in a[1..] && e.Terminal();
    var i :| 0 <= i < |a| - 1 && a[1..][i] == e;
    assert (a + b)[i + 1] == e;
  }

  /** Events done, events done that come again, events still to come: the second delivery changes nothing. */
  lemma RedeliveryOfOneLife(done: seq<Event>, again: seq<Event>, more: seq<Event>)
    requires Life(done + again + more)
    ensures ReplayOne(ReplayOne(None, done + again), again + more) == ReplayOne(None, done + again + more)
  {
    var seen, rest := done + again, again + more;
    assert seen + more == done + again + more == done + rest;
    LifePrefix(seen, more);
    LifePrefix(done, rest);
    ReplayOneAppend(None, seen, more);
    if seen == [] {
      assert rest == more;
    } else {
      var x := ReplayOne(None, seen);
      LifeKeepsListing(seen);
      if x == None {
        NothingAfterTheEnd(seen, more);
        assert rest == again && seen + more == seen;
        if done == [] {
          assert again == seen;
        } else {
          ReplayTailOfNone(rest);
        }
      } else if done == [] {
        assert again == seen && rest == seen + more;
        LifeIsCreationAndTail(rest);
        LifeKeepsListing(rest);
        if rest[1..] != [] {
          SameListingSameEnd(x.value, Auction(rest[0].listing, 0, 0), rest[1..]);
        } else {
          assert seen == rest;
        }
      } else {
        ReplayOneAppend(None, done, rest);
        LifeKeepsListing(done);
        ReplayOneAppend(None, done, again);
        if rest == [] {
          assert seen == done;
        } else if ReplayOne(None, done) == None {
          NothingAfterTheEnd(done, rest);
          assert false;
        } else {
          SameListingSameEnd(x.value, ReplayOne(None, done).value, rest);
        }
      }
    }
  }

  lemma RedeliveryAt(done: seq<Event>, again: seq<Event>, more: seq<Event>, k: Key)
    requires Life(Only(k, done + again + more))
    ensures At(Replay(Replay(map[], done + again), again + more), k) == At(Replay(map[], done + again + more), k)
  {
    OnlyAppend(k, done, again);
    OnlyAppend(k, again, more);
    OnlyAppend(k, done + again, more);
    ReplayPerKey(map[], done + again, k);
    ReplayPerKey(Replay(map[], done + again), again + more, k);
    ReplayPerKey(map[], done + again + more, k);
    RedeliveryOfOneLife(Only(k, done), Only(k, again), Only(k, more));
  }

  lemma RedeliveryOfParts(done: seq<Event>, again: seq<Event>, more: seq<Event>)
    requires WellFormed(done + again + more)
    ensures Replay(Replay(map[], done + again), again + more) == Replay(map[], done + again + more)
  {
    var c, d := Replay(Replay(map[], done + again), again + more), Replay(map[], done + again + more);
    forall k ensures At(c, k) == At(d, k) {
      assert Life(Only(k, done + again + more));
      RedeliveryAt(done, again, more, k);
    }
    SameEverywhere(c, d);
  }

  /**
   At-least-once delivery converges: an instance that has applied the first i events of a well-formed log and is then
   sent everything from event j <= i on (j = 0 is a full replay) ends with the cache of one that saw each event once.
   */
  lemma RedeliveryConverges(log: seq<Event>, j: nat, i: nat)
    requires WellFormed(log) && j <= i <= |log|
    ensures Replay(Replay(map[], log[..i]), log[j..]) == Replay(map[], log)
  {
    ThreeParts(log, j, i);
    RedeliveryOfParts(log[..j], log[j..i], log[i..]);
  }

  lemma ThreeParts<T>(log: seq<T>, j: nat, i: nat)
    requires j <= i <= |log|
    ensures log[..i] == log[..j] + log[j..i] && log[j..] == log[j..i] + log[i..]
    ensures log == log[..j] + log[j..i] + log[i..]
  {
  }
}
