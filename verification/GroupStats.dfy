/**
 Stats of group members (apps/gateway/session/groups.go): the gateway merges changed fields into a cache, forwards them
 to the client, and answers the client's requests from the cache. The client keeps a view of every member; a FULL
 packet resets the fields it does not carry.
 */
module GroupStats {
  import opened Words
  import opened PacketCodec

  type MemberId = uint64

  /** GroupMemberStatsUpdate without the member's GUID, in wire order. */
  datatype Stats = Stats(
    curHP: Option<uint32>, maxHP: Option<uint32>, powerType: Option<uint8>, curPower: Option<uint32>,
    maxPower: Option<uint32>, level: Option<uint8>, zone: Option<uint32>)

  const NOTHING := Stats(None, None, None, None, None, None, None)

  const FIELDS: nat := 7

  type Slots = seq<Option<int>>

  function AsSlots(s: Stats): (r: Slots)
    ensures |r| == FIELDS
  {
    [s.curHP, s.maxHP, s.powerType, s.curPower, s.maxPower, s.level, s.zone]
  }

  /** storeGroupMemberStats. */
  function Merge(a: Stats, b: Stats): Stats {
    Stats(
      Later(a.curHP, b.curHP), Later(a.maxHP, b.maxHP), Later(a.powerType, b.powerType),
      Later(a.curPower, b.curPower), Later(a.maxPower, b.maxPower), Later(a.level, b.level), Later(a.zone, b.zone))
  }

  predicate Complete(s: Stats) {
    && s.curHP.Some? && s.maxHP.Some? && s.powerType.Some? && s.curPower.Some? && s.maxPower.Some? && s.level.Some?
    && s.zone.Some?
  }

  // ----- the packet -----

  /** Bytes of a field on the wire: power, level and zone are narrowed to 16 bits. */
  function Width(i: nat): nat {
    if i < 2 then 4 else if i == 2 then 1 else 2
  }

  function Narrow(i: nat, v: int): (r: nat)
    ensures r < Pow256(Width(i))
  {
    v % Pow256(Width(i))
  }

  /** The fields from number i on, as a mask whose lowest bit is field i. */
  function Mask(slots: Slots, i: nat): nat
    requires i <= |slots|
    decreases |slots| - i
  {
    if i == |slots| then 0 else (if slots[i].Some? then 1 else 0) + 2 * Mask(slots, i + 1)
  }

  function Wire(i: nat, o: Option<int>): seq<byte> {
    if o.Some? then ToLE(Width(i), Narrow(i, o.value)) else []
  }

  function Payload(slots: Slots, i: nat): seq<byte>
    requires i <= |slots|
    decreases |slots| - i
  {
    if i == |slots| then [] else Wire(i, slots[i]) + Payload(slots, i + 1)
  }

  const ONLINE: nat := 1

  /** writePartyMemberStats; bit 0 of the mask is the status, which is always sent. */
  function Written(g: MemberId, s: Stats): seq<byte> {
    PackGuid(g) + (ToLE(4, 1 + 2 * Mask(AsSlots(s), 0)) + (ToLE(2, ONLINE) + Payload(AsSlots(s), 0)))
  }

  /** A packet to the client; a full one starts with a byte of its own. */
  datatype Packet = Incremental(data: seq<byte>) | Full(data: seq<byte>)

  function IncrementalPacket(g: MemberId, s: Stats): Packet {
    Incremental(Written(g, s))
  }

  function FullPacket(g: MemberId, s: Stats): Packet {
    Full([0] + Written(g, s))
  }

  // ----- the client -----

  /** What the mask announces, one word per set bit. */
  function ReadSlots(mask: nat, i: nat, st: Stream): (Slots, Stream)
    requires i <= FIELDS
    decreases FIELDS - i
  {
    if i == FIELDS then ([], st)
    else
      var (o, rest) := if mask % 2 == 1 then var (v, rest) := Word(Width(i), st); (Some(v), rest) else (None, st);
      var (os, end) := ReadSlots(mask / 2, i + 1, rest);
      ([o] + os, end)
  }

  /** A member as the client shows it: seven numbers, zero where nothing is known. */
  type Shown = seq<int>

  const BLANK: Shown := [0, 0, 0, 0, 0, 0, 0]

  function Update(old_: Shown, slots: Slots, full: bool): Shown
    requires |old_| == |slots|
  {
    seq(|slots|, i requires 0 <= i < |slots| =>
      if slots[i].Some? then slots[i].value else if full then 0 else old_[i])
  }

  type View = map<MemberId, Shown>

  ghost predicate Sized(view: View) {
    forall g :: g in view ==> |view[g]| == FIELDS
  }

  function Decode(p: Packet): Option<(MemberId, Slots)> {
    var (g, s1) := PackedGuid(Some(if p.Full? && p.data != [] then p.data[1..] else p.data));
    var (mask, s2) := Word(4, s1);
    var (_, s3) := Word(2, s2);
    var (slots, end) := ReadSlots(mask / 2, 0, s3);
    if end == Some([]) && |slots| == FIELDS then Some((g, slots)) else None
  }

  /** The client drops a packet it cannot read to its very end. */
  function Receive(view: View, p: Packet): View
    requires Sized(view)
  {
    match Decode(p)
    case None => view
    case Some((g, slots)) =>
      var was := if g in view then view[g] else BLANK;
      if |slots| == |was| then view[g := Update(was, slots, p.Full?)] else view
  }

  // ----- mask and payload match -----

  function Narrowed(slots: Slots, i: nat): Slots
    requires i <= |slots|
    decreases |slots| - i
  {
    if i == |slots| then []
    else [if slots[i].Some? then Some(Narrow(i, slots[i].value)) else None] + Narrowed(slots, i + 1)
  }

  lemma {:induction false} NarrowedAt(slots: Slots, i: nat, k: nat)
    requires i <= k < |slots|
    ensures |Narrowed(slots, i)| == |slots| - i
    ensures Narrowed(slots, i)[k - i] == if slots[k].Some? then Some(Narrow(k, slots[k].value)) else None
    decreases k - i
  {
    if i == k {
      NarrowedLength(slots, i);
    } else {
      NarrowedAt(slots, i + 1, k);
    }
  }

  lemma {:induction false} NarrowedLength(slots: Slots, i: nat)
    requires i <= |slots|
    ensures |Narrowed(slots, i)| == |slots| - i
    decreases |slots| - i
  {
    if i < |slots| { NarrowedLength(slots, i + 1); }
  }

  lemma MaskStep(slots: Slots, i: nat)
    requires i < |slots|
    ensures Mask(slots, i) / 2 == Mask(slots, i + 1)
    ensures Mask(slots, i) % 2 == 1 <==> slots[i].Some?
  {
    var rest := Mask(slots, i + 1);
    assert (0 + 2 * rest) / 2 == rest && (1 + 2 * rest) / 2 == rest;
  }

  lemma {:induction false} SlotsRoundTrip(slots: Slots, i: nat)
    requires |slots| == FIELDS && i <= FIELDS
    ensures ReadSlots(Mask(slots, i), i, Some(Payload(slots, i))) == (Narrowed(slots, i), Some([]))
    decreases FIELDS - i
  {
    if i < FIELDS {
      SlotsRoundTrip(slots, i + 1);
      MaskStep(slots, i);
      if slots[i].Some? {
        WordRoundTrip(Width(i), Narrow(i, slots[i].value), Payload(slots, i + 1));
      } else {
        assert Payload(slots, i) == Payload(slots, i + 1);
      }
    }
  }

  lemma {:induction false} MaskFits(slots: Slots, i: nat)
    requires i <= |slots|
    ensures Mask(slots, i) < Pow2(|slots| - i)
    decreases |slots| - i
  {
    if i < |slots| { MaskFits(slots, i + 1); }
  }

  lemma MaskInWord(slots: Slots)
    requires |slots| == FIELDS
    ensures 1 + 2 * Mask(slots, 0) < Pow256(4) && (1 + 2 * Mask(slots, 0)) / 2 == Mask(slots, 0)
    ensures ONLINE < Pow256(2)
  {
    MaskFits(slots, 0);
    assert Pow2(7) == 128;
    WordSizes();
    HalfOfOdd(Mask(slots, 0));
  }

  lemma HalfOfOdd(m: nat)
    ensures (1 + 2 * m) / 2 == m
  {
  }

  lemma DecodeIs(p: Packet, bytes: seq<byte>, g: MemberId, s1: Stream, mask: nat, s2: Stream, w: nat, s3: Stream, slots: Slots)
    requires bytes == if p.Full? && p.data != [] then p.data[1..] else p.data
    requires PackedGuid(Some(bytes)) == (g, s1) && Word(4, s1) == (mask, s2) && Word(2, s2) == (w, s3)
    requires ReadSlots(mask / 2, 0, s3) == (slots, Some([])) && |slots| == FIELDS
    ensures Decode(p) == Some((g, slots))
  {
  }

  lemma WrittenDecodes(p: Packet, g: MemberId, s: Stats)
    requires Written(g, s) == if p.Full? && p.data != [] then p.data[1..] else p.data
    ensures Decode(p) == Some((g, Narrowed(AsSlots(s), 0)))
  {
    var slots := AsSlots(s);
    var payload := Payload(slots, 0);
    var mask := 1 + 2 * Mask(slots, 0);
    var t1 := ToLE(2, ONLINE) + payload;
    var t2 := ToLE(4, mask) + t1;
    MaskInWord(slots);
    PackedGuidRoundTrip(g, t2);
    WordRoundTrip(4, mask, t1);
    WordRoundTrip(2, ONLINE, payload);
    SlotsRoundTrip(slots, 0);
    NarrowedLength(slots, 0);
    DecodeIs(p, Written(g, s), g, Some(t2), mask, Some(t1), ONLINE, Some(payload), Narrowed(slots, 0));
  }

  /** The client reads from a packet exactly the fields written, narrowed, and nothing is left over. */
  lemma PacketRoundTrip(g: MemberId, s: Stats)
    ensures Decode(IncrementalPacket(g, s)) == Some((g, Narrowed(AsSlots(s), 0)))
    ensures Decode(FullPacket(g, s)) == Some((g, Narrowed(AsSlots(s), 0)))
  {
    WrittenDecodes(IncrementalPacket(g, s), g, s);
    assert ([0] + Written(g, s))[1..] == Written(g, s);
    WrittenDecodes(FullPacket(g, s), g, s);
  }

  // ----- runs -----

  type Cache = map<MemberId, Stats>

  datatype State = State(cache: Cache, view: View)

  /**
   Changed: a GroupMembersUpdated event brings one member's changes. Requested: the client asks; online says whether
   the group service knows the member as online. Elsewhere: another server answers about a member that is not cached.
   Offline, Cleared: the member goes offline; the group is left or disbanded, or the character logs out.
   */
  datatype Op =
    | Changed(g: MemberId, stats: Stats)
    | Requested(g: MemberId, online: bool)
    | Elsewhere(g: MemberId, shown: Shown)
    | Offline(g: MemberId)
    | Cleared

  function Stored(cache: Cache, g: MemberId, s: Stats): Cache {
    cache[g := Merge(if g in cache then cache[g] else NOTHING, s)]
  }

  /** The answer to a request, if the gateway gives one. */
  function Answer(cache: Cache, g: MemberId, online: bool): Option<Packet> {
    if g in cache then Some(if Complete(cache[g]) then FullPacket(g, cache[g]) else IncrementalPacket(g, cache[g]))
    else if online then Some(IncrementalPacket(g, NOTHING))
    else None
  }

  predicate Possible(s: State, op: Op) {
    op.Elsewhere? ==> op.g !in s.cache && |op.shown| == FIELDS
  }

  /** own is the session's character, whose updates are skipped. */
  function Apply(own: MemberId, s: State, op: Op): State
    requires Sized(s.view)
  {
    match op
    case Changed(g, stats) =>
      if g == own then s else State(Stored(s.cache, g, stats), Receive(s.view, IncrementalPacket(g, stats)))
    case Requested(g, online) =>
      var answer := Answer(s.cache, g, online);
      if answer.Some? then s.(view := Receive(s.view, answer.value)) else s
    case Elsewhere(g, shown) => s.(view := s.view[g := shown])
    case Offline(g) => s.(cache := s.cache - {g})
    case Cleared => s.(cache := map[])
  }

  /** The client shows every cached field, narrowed. */
  ghost predicate Shows(shown: Shown, s: Stats) {
    |shown| == FIELDS
    && forall i :: 0 <= i < FIELDS && AsSlots(s)[i].Some? ==> shown[i] == Narrow(i, AsSlots(s)[i].value)
  }

  ghost predicate Agrees(s: State) {
    Sized(s.view) && forall g :: g in s.cache ==> g in s.view && Shows(s.view[g], s.cache[g])
  }

  /** An incremental packet changes exactly the fields it carries; a full one sets the others to zero. */
  lemma ReceiveEffect(view: View, g: MemberId, s: Stats, full: bool)
    requires Sized(view)
    ensures var p := if full then FullPacket(g, s) else IncrementalPacket(g, s);
            var was := if g in view then view[g] else BLANK;
            && g in Receive(view, p) && Receive(view, p) == view[g := Receive(view, p)[g]]
            && |Receive(view, p)[g]| == FIELDS
            && forall i :: 0 <= i < FIELDS ==>
                 Receive(view, p)[g][i] ==
                 if AsSlots(s)[i].Some? then Narrow(i, AsSlots(s)[i].value) else if full then 0 else was[i]
  {
    var was := if g in view then view[g] else BLANK;
    Received(view, g, s, full, was);
    forall i | 0 <= i < FIELDS
      ensures Narrowed(AsSlots(s), 0)[i] ==
              if AsSlots(s)[i].Some? then Some(Narrow(i, AsSlots(s)[i].value)) else None
    {
      NarrowedAt(AsSlots(s), 0, i);
    }
  }

  lemma ReceivedPacket(view: View, p: Packet, g: MemberId, slots: Slots, was: Shown)
    requires Sized(view) && was == (if g in view then view[g] else BLANK) && Decode(p) == Some((g, slots))
    requires |slots| == FIELDS
    ensures |was| == FIELDS && Receive(view, p) == view[g := Update(was, slots, p.Full?)]
  {
  }

  lemma Received(view: View, g: MemberId, s: Stats, full: bool, was: Shown)
    requires Sized(view) && was == if g in view then view[g] else BLANK
    ensures |was| == FIELDS == |Narrowed(AsSlots(s), 0)|
    ensures Receive(view, if full then FullPacket(g, s) else IncrementalPacket(g, s))
            == view[g := Update(was, Narrowed(AsSlots(s), 0), full)]
  {
    PacketRoundTrip(g, s);
    NarrowedLength(AsSlots(s), 0);
    ReceivedPacket(view, if full then FullPacket(g, s) else IncrementalPacket(g, s), g, Narrowed(AsSlots(s), 0), was);
  }

  lemma MergeSlots(a: Stats, b: Stats, i: nat)
    requires i < FIELDS
    ensures AsSlots(Merge(a, b))[i] == if AsSlots(b)[i].Some? then AsSlots(b)[i] else AsSlots(a)[i]
  {
  }

  lemma CompleteSlots(s: Stats)
    ensures Complete(s) <==> forall i :: 0 <= i < FIELDS ==> AsSlots(s)[i].Some?
  {
    var slots := AsSlots(s);
    if forall i :: 0 <= i < FIELDS ==> slots[i].Some? {
      assert slots[0].Some? && slots[1].Some? && slots[2].Some? && slots[3].Some? && slots[4].Some? && slots[5].Some?
        && slots[6].Some?;
    }
  }

  lemma ShowsMerged(was: Shown, shown: Shown, base: Stats, upd: Stats)
    requires |shown| == FIELDS == |was| && (base == NOTHING || Shows(was, base))
    requires forall i :: 0 <= i < FIELDS ==>
               shown[i] == if AsSlots(upd)[i].Some? then Narrow(i, AsSlots(upd)[i].value) else was[i]
    ensures Shows(shown, Merge(base, upd))
  {
    forall i | 0 <= i < FIELDS && AsSlots(Merge(base, upd))[i].Some?
      ensures shown[i] == Narrow(i, AsSlots(Merge(base, upd))[i].value)
    {
      MergeSlots(base, upd, i);
    }
  }

  lemma ChangedKeepsAgreement(own: MemberId, s: State, op: Op)
    requires Agrees(s) && op.Changed?
    ensures Agrees(Apply(own, s, op))
  {
    if op.g != own {
      ReceiveEffect(s.view, op.g, op.stats, false);
      var base := if op.g in s.cache then s.cache[op.g] else NOTHING;
      var was := if op.g in s.view then s.view[op.g] else BLANK;
      ShowsMerged(was, Receive(s.view, IncrementalPacket(op.g, op.stats))[op.g], base, op.stats);
    }
  }

  lemma RequestedKeepsAgreement(own: MemberId, s: State, op: Op)
    requires Agrees(s) && op.Requested?
    ensures Agrees(Apply(own, s, op))
  {
    var g := op.g;
    if g in s.cache {
      CompleteSlots(s.cache[g]);
      ReceiveEffect(s.view, g, s.cache[g], Complete(s.cache[g]));
    } else if op.online {
      ReceiveEffect(s.view, g, NOTHING, false);
    }
  }

  lemma StepKeepsAgreement(own: MemberId, s: State, op: Op)
    requires Agrees(s) && Possible(s, op)
    ensures Agrees(Apply(own, s, op))
  {
    match op
    case Changed(_, _) => ChangedKeepsAgreement(own, s, op);
    case Requested(_, _) => RequestedKeepsAgreement(own, s, op);
    case Elsewhere(_, _) =>
    case Offline(_) =>
    case Cleared =>
  }

  /** Asking changes nothing: an answer shows a member the client knows as the client shows it already. */
  lemma RequestsChangeNothing(own: MemberId, s: State, op: Op)
    requires Agrees(s) && op.Requested? && op.g in s.view
    ensures Apply(own, s, op) == s
    ensures Answer(s.cache, op.g, op.online).None? <==> op.g !in s.cache && !op.online
  {
    if op.g in s.cache {
      CompleteSlots(s.cache[op.g]);
      FullAnswerErasesTheRest(s.view, op.g, s.cache[op.g]);
    } else {
      FullAnswerErasesTheRest(s.view, op.g, NOTHING);
    }
  }

  /** Each operation is possible in the state the earlier ones lead to, and end is where they lead. */
  ghost predicate Reaches(own: MemberId, s: State, ops: seq<Op>, end: State)
    decreases |ops|
  {
    if ops == [] then s == end
    else Sized(s.view) && Possible(s, ops[0]) && Reaches(own, Apply(own, s, ops[0]), ops[1..], end)
  }

  /** Over every run the client shows what the cache holds. */
  lemma {:induction false} ClientShowsTheCache(own: MemberId, s: State, ops: seq<Op>, end: State)
    requires Agrees(s) && Reaches(own, s, ops, end)
    ensures Agrees(end)
    decreases |ops|
  {
    if ops != [] {
      StepKeepsAgreement(own, s, ops[0]);
      ClientShowsTheCache(own, Apply(own, s, ops[0]), ops[1..], end);
    }
  }

  /**
   Why a full answer waits for completeness: sent from the cache, it leaves a member as the client knew it, the cached
   fields aside, if and only if every field the cache lacks was already blank.
   */
  lemma FullAnswerErasesTheRest(view: View, g: MemberId, s: Stats)
    requires Sized(view) && g in view && Shows(view[g], s)
    ensures Receive(view, FullPacket(g, s)) == view
            <==> forall i :: 0 <= i < FIELDS && AsSlots(s)[i].None? ==> view[g][i] == 0
    ensures Receive(view, IncrementalPacket(g, s)) == view
  {
    ReceiveEffect(view, g, s, true);
    ReceiveEffect(view, g, s, false);
    var full, inc := Receive(view, FullPacket(g, s))[g], Receive(view, IncrementalPacket(g, s))[g];
    assert inc == view[g];
    assert full == view[g] <==> forall i :: 0 <= i < FIELDS ==> full[i] == view[g][i];
    SetSame(view, g, full);
    SetSame(view, g, inc);
  }

  lemma SetSame(view: View, g: MemberId, x: Shown)
    requires g in view
    ensures view[g := x] == view <==> x == view[g]
  {
    assert view[g := x][g] == x;
  }
}
