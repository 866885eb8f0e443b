/**
 The updates barrier and its two consumers as objects (apps/gateway/service/characters-updates-barrier.go,
 apps/charserver/repo/online-characters_inmem.go, apps/charserver/service/friends-cache.go).
 */
module UpdatesBarrier {
  import opened Words
  import opened UpdatePipeline

  /** The batch size send aims at; its counter lets two more in. */
  function BatchSize(n: nat): nat {
    if n < 1000 then n else 1000
  }

  /** Every batch is full but the last of a complete send, which holds the rest. */
  ghost predicate Cut(n: nat, batches: seq<seq<Update>>, done: bool) {
    forall k :: 0 <= k < |batches| ==>
      && 0 < |batches[k]| <= BatchSize(n) + 2
      && (k + 1 < |batches| || !done ==> |batches[k]| == BatchSize(n) + 2)
  }

  ghost predicate Keyed(upds: map<Guid, Update>) {
    forall g :: g in upds ==> upds[g].id == g
  }

  /** What send has taken out of the map so far, in order: the entries of the keys not left. */
  ghost predicate Taken(upds: map<Guid, Update>, left: set<Guid>, order: seq<Update>) {
    && left <= upds.Keys
    && Distinct(order)
    && (forall i :: 0 <= i < |order| ==> order[i].id in upds && order[i].id !in left && order[i] == upds[order[i].id])
    && (forall g :: g in upds && g !in left ==> Mentions(order, g))
    && |order| + |left| == |upds|
  }

  lemma TakeNext(upds: map<Guid, Update>, left: set<Guid>, order: seq<Update>, g: Guid)
    requires Keyed(upds) && Taken(upds, left, order) && g in left
    ensures Taken(upds, left - {g}, order + [upds[g]])
  {
    var order' := order + [upds[g]];
    forall h | h in upds && h !in left - {g} ensures Mentions(order', h) {
      if h == g {
        assert order'[|order|].id == g;
      } else {
        var i :| 0 <= i < |order| && order[i].id == h;
        assert order'[i].id == h;
      }
    }
  }

  /** The entries in the order a walk over the map happens to take. */
  method Walk(upds: map<Guid, Update>) returns (order: seq<Update>)
    requires Keyed(upds)
    ensures Sends(upds, order, true) && |order| == |upds|
  {
    order := [];
    var left := upds.Keys;
    while left != {}
      invariant Taken(upds, left, order)
      decreases |left|
    {
      var g :| g in left;
      TakeNext(upds, left, order, g);
      left, order := left - {g}, order + [upds[g]];
    }
  }

  /** The loop of send along a walk: what is published is a prefix of the walk, cut into batches. */
  method SendInOrder(order: seq<Update>, fails: Option<nat>) returns (batches: seq<seq<Update>>, done: bool)
    ensures Concat(batches) <= order && (done ==> Concat(batches) == order)
    ensures Cut(|order|, batches, done)
    ensures fails.None? ==> done
    ensures !done ==> fails == Some(|batches|)
  {
    var size := BatchSize(|order|);
    batches := [];
    var buffer: seq<Update> := [];
    var i := 0;
    for k := 0 to |order|
      invariant Concat(batches) + buffer == order[..k]
      invariant forall j :: 0 <= j < |batches| ==> |batches[j]| == size + 2
      invariant |buffer| == i <= size + 1
    {
      TakeEntry(Concat(batches), buffer, order, k);
      buffer := buffer + [order[k]];
      if i > size {
        if fails == Some(|batches|) {
          PrefixOf(Concat(batches), buffer, order, k + 1);
          return batches, false;
        }
        Publish(batches, buffer);
        batches := batches + [buffer];
        buffer := [];
        i := 0;
      } else {
        i := i + 1;
      }
    }
    PrefixOf(Concat(batches), buffer, order, |order|);
    if |buffer| > 0 {
      if fails == Some(|batches|) { return batches, false; }
      Publish(batches, buffer);
      batches := batches + [buffer];
    }
    return batches, true;
  }

  lemma TakeEntry(sent: seq<Update>, buffer: seq<Update>, order: seq<Update>, k: nat)
    requires k < |order| && sent + buffer == order[..k]
    ensures sent + (buffer + [order[k]]) == order[..k + 1]
  {
    assert sent + (buffer + [order[k]]) == order[..k] + [order[k]];
  }

  lemma PrefixOf(sent: seq<Update>, buffer: seq<Update>, order: seq<Update>, k: nat)
    requires k <= |order| && sent + buffer == order[..k]
    ensures sent <= order && (k == |order| ==> sent + buffer == order)
    ensures k == |order| && buffer == [] ==> sent == order
  {
    assert forall i :: 0 <= i < |sent| ==> sent[i] == order[..k][i];
  }

  lemma Publish(batches: seq<seq<Update>>, buffer: seq<Update>)
    ensures Concat(batches + [buffer]) == Concat(batches) + buffer
    ensures Concat(batches + [buffer]) + [] == Concat(batches) + buffer
  {
    assert (batches + [buffer])[..|batches|] == batches;
  }

  lemma PrefixSends(upds: map<Guid, Update>, sent: seq<Update>, order: seq<Update>)
    requires Sends(upds, order, true) && sent <= order
    ensures Sends(upds, sent, false)
  {
    assert forall i :: 0 <= i < |sent| ==> order[i] == sent[i];
  }

  /**
   send; publish number fails.value is refused, or none. The map is walked in any order. On success every entry is in
   exactly one batch.
   */
  method Send(upds: map<Guid, Update>, fails: Option<nat>) returns (batches: seq<seq<Update>>, done: bool)
    requires Keyed(upds)
    ensures Sends(upds, Concat(batches), done)
    ensures Cut(|upds|, batches, done)
    ensures done ==> |Concat(batches)| == |upds|
    ensures fails.None? ==> done
    ensures !done ==> fails == Some(|batches|)
  {
    var order := Walk(upds);
    batches, done := SendInOrder(order, fails);
    PrefixSends(upds, Concat(batches), order);
  }

  /** Below a thousand entries everything goes out in one batch. */
  lemma SmallSendsAreWhole(upds: map<Guid, Update>, batches: seq<seq<Update>>)
    requires |upds| < 1000 && Cut(|upds|, batches, true) && |Concat(batches)| == |upds|
    ensures |batches| == if |upds| == 0 then 0 else 1
  {
    if |batches| > 0 {
      var rest := batches[..|batches| - 1];
      assert |Concat(batches)| == |Concat(rest)| + |batches[|batches| - 1]|;
      if |batches| > 1 {
        NonemptyBatch(rest);
      }
    }
  }

  lemma NonemptyBatch(batches: seq<seq<Update>>)
    requires batches != []
    ensures |Concat(batches)| >= |batches[|batches| - 1]|
  {
  }

  lemma {:induction false} FullBatches(n: nat, batches: seq<seq<Update>>)
    requires n >= 1000 && forall k :: 0 <= k < |batches| ==> |batches[k]| == BatchSize(n) + 2
    ensures |Concat(batches)| == 1002 * |batches|
  {
    if batches != [] { FullBatches(n, batches[..|batches| - 1]); }
  }

  /** From a thousand on, all batches but the last hold 1002 entries, and n entries take n / 1002 of them, rounded up. */
  lemma LargeSendsAreFull(n: nat, batches: seq<seq<Update>>)
    requires n >= 1000 && Cut(n, batches, true) && |Concat(batches)| == n
    ensures forall k :: 0 <= k < |batches| - 1 ==> |batches[k]| == 1002
    ensures |batches| > 0 && |batches[|batches| - 1]| == n - 1002 * (|batches| - 1) && 0 < |batches[|batches| - 1]| <= 1002
  {
    assert batches != [];
    FullBatches(n, batches[..|batches| - 1]);
  }

  /** The buffer that Run owns; Receive and Tick are the two branches of its select. */
  class Barrier {
    var buffer: map<Guid, Update>

    ghost predicate Valid()
      reads this
    {
      Keyed(buffer)
    }

    constructor ()
      ensures Valid() && buffer == map[]
    {
      buffer := map[];
    }

    method Receive(u: Update)
      requires Valid()
      modifies this
      ensures Valid() && buffer == Buffered(old(buffer), u)
    {
      var merged := u;
      if u.id in buffer { merged := Merge(buffer[u.id], u); }
      buffer := buffer[merged.id := merged];
    }

    method Tick(fails: Option<nat>) returns (batches: seq<seq<Update>>, done: bool)
      requires Valid()
      modifies this
      ensures Valid() && buffer == if done then map[] else old(buffer)
      ensures Sends(old(buffer), Concat(batches), done) && Cut(|old(buffer)|, batches, done)
      ensures fails.None? ==> done
    {
      batches, done := Send(buffer, fails);
      if done { buffer := map[]; }
    }
  }

  class OnlineCharacters {
    var guidStorage: map<Guid, Character>

    method HandleCharactersUpdates(updates: seq<Update>)
      modifies this
      ensures guidStorage == Deliver(ApplyToCharacter, old(guidStorage), updates)
    {
      for i := 0 to |updates|
        invariant Deliver(ApplyToCharacter, guidStorage, updates[i..])
                  == Deliver(ApplyToCharacter, old(guidStorage), updates)
      {
        var u := updates[i];
        assert updates[i..][1..] == updates[i + 1..];
        if u.id in guidStorage {
          var c := guidStorage[u.id];
          if u.zone.Some? { c := c.(zone := u.zone.value); }
          if u.lvl.Some? { c := c.(level := u.lvl.value); }
          if u.mapId.Some? { c := c.(mapId := u.mapId.value); }
          guidStorage := guidStorage[u.id := c];
        }
      }
    }
  }

  class FriendsCache {
    var onlineInfoByGUID: map<Guid, Friend>

    method HandleCharactersUpdates(updates: seq<Update>)
      modifies this
      ensures onlineInfoByGUID == Deliver(ApplyToFriend, old(onlineInfoByGUID), updates)
    {
      for i := 0 to |updates|
        invariant Deliver(ApplyToFriend, onlineInfoByGUID, updates[i..])
                  == Deliver(ApplyToFriend, old(onlineInfoByGUID), updates)
      {
        var u := updates[i];
        assert updates[i..][1..] == updates[i + 1..];
        if u.id in onlineInfoByGUID {
          var f := onlineInfoByGUID[u.id];
          if u.lvl.Some? { f := f.(level := u.lvl.value); }
          if u.zone.Some? {
            f := f.(area := u.zone.value);
          } else if u.area.Some? {
            f := f.(area := u.area.value);
          }
          onlineInfoByGUID := onlineInfoByGUID[u.id := f];
        }
      }
    }
  }
}
