/**
 The session's side of group stats (apps/gateway/session/groups.go): the cache it keeps and the packets it sends.
 */
module GroupSession {
  import opened Words
  import opened PacketCodec
  import opened GroupStats

  type Change = (MemberId, Stats)

  /** The events' effect on the cache. */
  function StoreAll(own: MemberId, cache: Cache, changes: seq<Change>): Cache
    decreases |changes|
  {
    if changes == [] then cache
    else
      var (g, s) := changes[0];
      StoreAll(own, if g == own then cache else Stored(cache, g, s), changes[1..])
  }

  /** The packets that forward the changes. */
  function Forwarded(own: MemberId, changes: seq<Change>): seq<Packet> {
    if changes == [] then []
    else
      var (g, s) := changes[0];
      (if g == own then [] else [IncrementalPacket(g, s)]) + Forwarded(own, changes[1..])
  }

  function ReceiveAll(view: View, ps: seq<Packet>): (r: View)
    requires Sized(view)
    ensures Sized(r)
    decreases |ps|
  {
    if ps == [] then view else ReceiveAll(Receive(view, ps[0]), ps[1..])
  }

  function Ops(changes: seq<Change>): seq<Op> {
    if changes == [] then [] else [Changed(changes[0].0, changes[0].1)] + Ops(changes[1..])
  }

  /** A whole event is a run of single changes, so the client still shows the cache after it. */
  lemma {:induction false} EventIsARun(own: MemberId, cache: Cache, view: View, changes: seq<Change>)
    requires Sized(view)
    ensures Reaches(own, State(cache, view), Ops(changes),
                    State(StoreAll(own, cache, changes), ReceiveAll(view, Forwarded(own, changes))))
    decreases |changes|
  {
    if changes != [] {
      var (g, s) := changes[0];
      assert Ops(changes)[1..] == Ops(changes[1..]);
      if g == own {
        EventIsARun(own, cache, view, changes[1..]);
        assert Forwarded(own, changes) == Forwarded(own, changes[1..]);
      } else {
        var view' := Receive(view, IncrementalPacket(g, s));
        EventIsARun(own, Stored(cache, g, s), view', changes[1..]);
        assert Forwarded(own, changes)[1..] == Forwarded(own, changes[1..]);
      }
    }
  }

  /** The last word on a field of a member among the changes, skipping the character's own. */
  function LastChange<T>(own: MemberId, changes: seq<Change>, g: MemberId, field: Stats -> Option<T>): Option<T>
    decreases |changes|
  {
    if changes == [] || g == own then None
    else
      var (h, s) := changes[|changes| - 1];
      if h == g && field(s).Some? then field(s) else LastChange(own, changes[..|changes| - 1], g, field)
  }

  lemma {:induction false} StoreAllSnoc(own: MemberId, cache: Cache, changes: seq<Change>, c: Change)
    ensures StoreAll(own, cache, changes + [c]) ==
            if c.0 == own then StoreAll(own, cache, changes) else Stored(StoreAll(own, cache, changes), c.0, c.1)
    decreases |changes|
  {
    if changes == [] {
      assert changes + [c] == [c] && [c][1..] == [];
    } else {
      var (g, s) := changes[0];
      assert (changes + [c])[1..] == changes[1..] + [c];
      StoreAllSnoc(own, if g == own then cache else Stored(cache, g, s), changes[1..], c);
    }
  }

  /** An event caches exactly the members it tells of, without the character itself. */
  lemma {:induction false} EventCachesMembers(own: MemberId, cache: Cache, changes: seq<Change>, g: MemberId)
    ensures g in StoreAll(own, cache, changes) <==> g in cache || (g != own && exists c :: c in changes && c.0 == g)
    decreases |changes|
  {
    if changes != [] {
      var before, c := changes[..|changes| - 1], changes[|changes| - 1];
      assert changes == before + [c];
      StoreAllSnoc(own, cache, before, c);
      EventCachesMembers(own, cache, before, g);
    }
  }

  /** Over an event each cached field is the last one sent for that member, or what it was. */
  lemma {:induction false} CacheHoldsLastChange(own: MemberId, cache: Cache, changes: seq<Change>, g: MemberId)
    requires g in cache
    ensures g in StoreAll(own, cache, changes)
    ensures var s := StoreAll(own, cache, changes)[g];
            && s.curHP == Later(cache[g].curHP, LastChange(own, changes, g, (x: Stats) => x.curHP))
            && s.maxHP == Later(cache[g].maxHP, LastChange(own, changes, g, (x: Stats) => x.maxHP))
            && s.powerType == Later(cache[g].powerType, LastChange(own, changes, g, (x: Stats) => x.powerType))
            && s.curPower == Later(cache[g].curPower, LastChange(own, changes, g, (x: Stats) => x.curPower))
            && s.maxPower == Later(cache[g].maxPower, LastChange(own, changes, g, (x: Stats) => x.maxPower))
            && s.level == Later(cache[g].level, LastChange(own, changes, g, (x: Stats) => x.level))
            && s.zone == Later(cache[g].zone, LastChange(own, changes, g, (x: Stats) => x.zone))
    decreases |changes|
  {
    if changes != [] {
      var before, c := changes[..|changes| - 1], changes[|changes| - 1];
      assert changes == before + [c];
      StoreAllSnoc(own, cache, before, c);
      CacheHoldsLastChange(own, cache, before, g);
    }
  }

  function Flag(o: Option<int>, bit: nat): nat {
    if o.Some? then bit else 0
  }

  /** Each field owns its own bit of the mask. */
  lemma SevenFlags(slots: Slots)
    requires |slots| == FIELDS
    ensures 1 + 2 * Mask(slots, 0) ==
            1 + Flag(slots[0], 0x2) + Flag(slots[1], 0x4) + Flag(slots[2], 0x8) + Flag(slots[3], 0x10)
            + Flag(slots[4], 0x20) + Flag(slots[5], 0x40) + Flag(slots[6], 0x80)
  {
    assert Mask(slots, 6) == Flag(slots[6], 1);
    assert Mask(slots, 5) == Flag(slots[5], 1) + 2 * Mask(slots, 6);
    assert Mask(slots, 4) == Flag(slots[4], 1) + 2 * Mask(slots, 5);
    assert Mask(slots, 3) == Flag(slots[3], 1) + 2 * Mask(slots, 4);
    assert Mask(slots, 2) == Flag(slots[2], 1) + 2 * Mask(slots, 3);
    assert Mask(slots, 1) == Flag(slots[1], 1) + 2 * Mask(slots, 2);
  }

  /** The bytes of a field, if it is there: its low n bytes, lowest first. */
  function Present(n: nat, range: nat, o: Option<int>): seq<byte>
    requires range > 0
  {
    if o.Some? then ToLE(n, o.value % range) else []
  }

  lemma SevenParts(slots: Slots)
    requires |slots| == FIELDS
    ensures Payload(slots, 0) ==
            Wire(0, slots[0]) + (Wire(1, slots[1]) + (Wire(2, slots[2]) + (Wire(3, slots[3]) + (Wire(4, slots[4])
            + (Wire(5, slots[5]) + (Wire(6, slots[6]) + []))))))
  {
    assert Payload(slots, 7) == [];
    assert Payload(slots, 6) == Wire(6, slots[6]) + Payload(slots, 7);
    assert Payload(slots, 5) == Wire(5, slots[5]) + Payload(slots, 6);
    assert Payload(slots, 4) == Wire(4, slots[4]) + Payload(slots, 5);
    assert Payload(slots, 3) == Wire(3, slots[3]) + Payload(slots, 4);
    assert Payload(slots, 2) == Wire(2, slots[2]) + Payload(slots, 3);
    assert Payload(slots, 1) == Wire(1, slots[1]) + Payload(slots, 2);
  }

  lemma WireIs(i: nat, o: Option<int>)
    ensures i < 2 ==> Wire(i, o) == Present(4, 0x1_0000_0000, o)
    ensures i == 2 ==> Wire(i, o) == Present(1, 0x100, o)
    ensures i > 2 ==> Wire(i, o) == Present(2, 0x1_0000, o)
  {
    WordSizes();
  }

  /** The parts in wire order, with their widths. */
  lemma PayloadLayout(s: Stats)
    ensures Payload(AsSlots(s), 0) == FieldBytes(s)
  {
    SevenParts(AsSlots(s));
    WireIs(0, s.curHP);
    WireIs(1, s.maxHP);
    WireIs(2, s.powerType);
    WireIs(3, s.curPower);
    WireIs(4, s.maxPower);
    WireIs(5, s.level);
    WireIs(6, s.zone);
  }

  function FieldBytes(s: Stats): seq<byte> {
    Present(4, 0x1_0000_0000, s.curHP) + (Present(4, 0x1_0000_0000, s.maxHP)
    + (Present(1, 0x100, s.powerType) + (Present(2, 0x1_0000, s.curPower) + (Present(2, 0x1_0000, s.maxPower)
    + (Present(2, 0x1_0000, s.level) + (Present(2, 0x1_0000, s.zone) + []))))))
  }

  function MaskBits(s: Stats): nat {
    1 + Flag(s.curHP, 0x2) + Flag(s.maxHP, 0x4) + Flag(s.powerType, 0x8) + Flag(s.curPower, 0x10)
    + Flag(s.maxPower, 0x20) + Flag(s.level, 0x40) + Flag(s.zone, 0x80)
  }

  lemma StatusBytes()
    ensures ToLE(2, ONLINE) == [1, 0]
  {
    assert ToLE(2, 1) == [1] + ToLE(1, 0) && ToLE(1, 0) == [0] + ToLE(0, 0);
  }

  /** The packet byte for byte: GUID, mask with one bit per field, online status 1, and the fields that are there. */
  lemma PacketLayout(g: MemberId, s: Stats, status: seq<byte>, mask: nat, fields: seq<byte>)
    requires status == [1, 0] && mask == MaskBits(s) && fields == FieldBytes(s)
    ensures Written(g, s) == PackGuid(g) + (ToLE(4, mask) + (status + fields))
  {
    StatusBytes();
    MaskLayout(s);
    PayloadLayout(s);
  }

  lemma MaskLayout(s: Stats)
    ensures 1 + 2 * Mask(AsSlots(s), 0) == MaskBits(s)
  {
    SevenFlags(AsSlots(s));
  }

  /** The mask as the source puts it together; |= on a bit that is still clear adds it. */
  method BuildMask(s: Stats) returns (mask: nat)
    ensures mask == 1 + 2 * Mask(AsSlots(s), 0)
  {
    mask := 0x1;
    if s.curHP.Some? { mask := mask + 0x2; }
    if s.maxHP.Some? { mask := mask + 0x4; }
    if s.powerType.Some? { mask := mask + 0x8; }
    if s.curPower.Some? { mask := mask + 0x10; }
    if s.maxPower.Some? { mask := mask + 0x20; }
    if s.level.Some? { mask := mask + 0x40; }
    if s.zone.Some? { mask := mask + 0x80; }
    SevenFlags(AsSlots(s));
  }

  /** The fields before number i have been written: what is missing of all is the payload from i on. */
  ghost predicate WrittenUpTo(payload: seq<byte>, slots: Slots, i: nat, all: seq<byte>) {
    i <= |slots| && payload + Payload(slots, i) == all
  }

  method WriteField(w: Writer, ghost slots: Slots, i: nat, o: Option<int>, ghost all: seq<byte>)
    requires WrittenUpTo(w.payload, slots, i, all) && i < |slots| && slots[i] == o
    modifies w
    ensures WrittenUpTo(w.payload, slots, i + 1, all)
  {
    if o.Some? {
      w.Uint(Width(i), Narrow(i, o.value));
      assert w.payload == old(w.payload) + Wire(i, o);
    } else {
      assert Payload(slots, i) == Payload(slots, i + 1);
    }
  }

  method WriteFields(w: Writer, s: Stats)
    modifies w
    ensures w.payload == old(w.payload) + Payload(AsSlots(s), 0)
  {
    ghost var slots := AsSlots(s);
    ghost var all := w.payload + Payload(slots, 0);
    WriteField(w, slots, 0, s.curHP, all);
    WriteField(w, slots, 1, s.maxHP, all);
    WriteField(w, slots, 2, s.powerType, all);
    WriteField(w, slots, 3, s.curPower, all);
    WriteField(w, slots, 4, s.maxPower, all);
    WriteField(w, slots, 5, s.level, all);
    WriteField(w, slots, 6, s.zone, all);
    AllWritten(w.payload, slots, all);
  }

  lemma AllWritten(payload: seq<byte>, slots: Slots, all: seq<byte>)
    requires WrittenUpTo(payload, slots, |slots|, all)
    ensures payload == all
  {
  }

  method WritePartyMemberStats(w: Writer, g: MemberId, s: Stats)
    modifies w
    ensures w.payload == old(w.payload) + Written(g, s)
  {
    var mask := BuildMask(s);
    WriteParts(w, g, 4, mask, 2, ONLINE, s);
  }

  method WriteParts(w: Writer, g: MemberId, n: nat, mask: nat, m: nat, status: nat, s: Stats)
    modifies w
    ensures w.payload == old(w.payload) + (PackGuid(g) + (ToLE(n, mask) + (ToLE(m, status) + Payload(AsSlots(s), 0))))
  {
    w.GUID(g);
    w.Uint(n, mask);
    w.Uint(m, status);
    WriteFields(w, s);
    Regroup(old(w.payload), PackGuid(g), ToLE(n, mask), ToLE(m, status), Payload(AsSlots(s), 0));
  }

  lemma Regroup(a: seq<byte>, b: seq<byte>, c: seq<byte>, d: seq<byte>, e: seq<byte>)
    ensures a + b + c + d + e == a + (b + (c + (d + e)))
  {
    assert a + b + c + d + e == a + b + c + (d + e);
    assert a + b + c + (d + e) == a + b + (c + (d + e));
  }

  method BuildPacket(g: MemberId, s: Stats) returns (p: Packet)
    ensures p == IncrementalPacket(g, s)
  {
    var w := new Writer();
    WritePartyMemberStats(w, g, s);
    p := Incremental(w.payload);
  }

  method BuildFullPacket(g: MemberId, s: Stats) returns (p: Packet)
    ensures p == FullPacket(g, s)
  {
    var w := new Writer();
    w.Uint(1, 0);
    assert ToLE(1, 0) == [0];
    WritePartyMemberStats(w, g, s);
    p := Full(w.payload);
  }

  class Session {
    const own: MemberId
    var groupMemberStats: Cache
    // the packets handed to the client's socket
    var sent: seq<Packet>

    method StoreGroupMemberStats(g: MemberId, upd: Stats)
      modifies `groupMemberStats
      ensures groupMemberStats == Stored(old(groupMemberStats), g, upd)
    {
      var merged := if g in groupMemberStats then groupMemberStats[g] else NOTHING;
      if upd.level.Some? { merged := merged.(level := upd.level); }
      if upd.zone.Some? { merged := merged.(zone := upd.zone); }
      if upd.curHP.Some? { merged := merged.(curHP := upd.curHP); }
      if upd.maxHP.Some? { merged := merged.(maxHP := upd.maxHP); }
      if upd.powerType.Some? { merged := merged.(powerType := upd.powerType); }
      if upd.curPower.Some? { merged := merged.(curPower := upd.curPower); }
      if upd.maxPower.Some? { merged := merged.(maxPower := upd.maxPower); }
      groupMemberStats := groupMemberStats[g := merged];
    }

    method HandleEventGroupMembersUpdated(changes: seq<Change>)
      modifies this
      ensures groupMemberStats == StoreAll(own, old(groupMemberStats), changes)
      ensures sent == old(sent) + Forwarded(own, changes)
    {
      for i := 0 to |changes|
        invariant StoreAll(own, groupMemberStats, changes[i..]) == StoreAll(own, old(groupMemberStats), changes)
        invariant sent + Forwarded(own, changes[i..]) == old(sent) + Forwarded(own, changes)
      {
        var (g, s) := changes[i];
        assert changes[i..][1..] == changes[i + 1..];
        if g != own {
          StoreGroupMemberStats(g, s);
          var p := BuildPacket(g, s);
          Append(sent, p, Forwarded(own, changes[i + 1..]));
          sent := sent + [p];
        } else {
          assert Forwarded(own, changes[i..]) == Forwarded(own, changes[i + 1..]);
        }
      }
    }

    /** Handles a request, or says that it must go to the game server. */
    method HandleRequestPartyMemberStats(g: MemberId, online: bool) returns (passedOn: bool)
      modifies `sent
      ensures passedOn <==> g !in groupMemberStats && !online
      ensures passedOn <==> Answer(groupMemberStats, g, online).None?
      ensures sent == old(sent) + if passedOn then [] else [Answer(groupMemberStats, g, online).value]
    {
      var p;
      if g !in groupMemberStats {
        if !online { return true; }
        p := BuildPacket(g, NOTHING);
      } else if Complete(groupMemberStats[g]) {
        p := BuildFullPacket(g, groupMemberStats[g]);
      } else {
        p := BuildPacket(g, groupMemberStats[g]);
      }
      sent := sent + [p];
      return false;
    }
  }

  lemma Append(sent: seq<Packet>, p: Packet, rest: seq<Packet>)
    ensures sent + ([p] + rest) == (sent + [p]) + rest
  {
  }
}
