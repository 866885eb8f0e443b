/**
 What a packet says about a character, field by field, from the bytes on the wire: the meaning of the tracking in
 StatsTracking without its own functions.
 */
module StatsFromPackets {
  import opened Words
  import opened PacketCodec
  import opened UpdateObject
  import opened UpdateGrammar
  import opened UpdatePipeline
  import opened StatsTracking

  /** The value word that the last block to send field idx of the object sends, found at the rank of its bit. */
  function LastWord(blocks: seq<Block>, guid: uint64, idx: nat): Option<uint32>
    decreases |blocks|
  {
    if blocks == [] then None
    else
      var b := blocks[|blocks| - 1];
      if SentBy(b, guid, idx) then
        var fs := b.SentFor(guid).value;
        if Rank(fs.masks, idx) < |fs.words| then Some(fs.words[Rank(fs.masks, idx)]) else None
      else LastWord(blocks[..|blocks| - 1], guid, idx)
  }

  lemma {:induction false} EffectsSnoc(blocks: seq<Block>, b: Block, guid: uint64, upd: UnitStats)
    requires AllWellFormed(blocks) && b.WellFormed() && AllWellFormed(blocks + [b])
    ensures Effects(blocks + [b], guid, upd) == Effect(b, guid, Effects(blocks, guid, upd))
    decreases |blocks|
  {
    if blocks == [] {
      assert blocks + [b] == [b] && [b][1..] == [];
    } else {
      assert (blocks + [b])[1..] == blocks[1..] + [b];
      assert forall x :: x in blocks[1..] ==> x in blocks;
      EffectsSnoc(blocks[1..], b, guid, Effect(blocks[0], guid, upd));
    }
  }

  /** A tracked field of a parsed message is its last word, or stays as it was. */
  lemma {:induction false} FieldIsLastWord(blocks: seq<Block>, guid: uint64, upd: UnitStats, idx: nat)
    requires AllWellFormed(blocks) && Tracked(idx)
    ensures var w := LastWord(blocks, guid, idx);
            UpdateGrammar.Field(Effects(blocks, guid, upd), idx) == if w.Some? then Some(Meaning(idx, w.value)) else UpdateGrammar.Field(upd, idx)
    decreases |blocks|
  {
    if blocks != [] {
      var before, b := blocks[..|blocks| - 1], blocks[|blocks| - 1];
      assert blocks == before + [b] && b in blocks && forall x :: x in before ==> x in blocks;
      EffectsSnoc(before, b, guid, upd);
      FieldIsLastWord(before, guid, upd, idx);
      if b.SentFor(guid).Some? {
        FieldAtRank(b.SentFor(guid).value, Effects(before, guid, upd), idx);
      }
    }
  }

  function OrElse(w: Option<uint32>, x: uint32): uint32 {
    if w.Some? then w.value else x
  }

  lemma MessageSays(g: Guid, c: Hero, blocks: seq<Block>, tail: seq<byte>)
    requires AllWellFormed(blocks) && |blocks| < 0x1_0000_0000
    ensures After(g, c, Objects(PutMessage(blocks, tail))) == Observe(c, Effects(blocks, g, NO_STATS))
  {
    MessageRoundTrip(blocks, g, tail);
  }

  /** Hit points are words 0x18 and 0x20, the level is word 0x36 unless zero, the power type the top byte of word 0x17. */
  lemma HealthFromPacket(g: Guid, c: Hero, blocks: seq<Block>, tail: seq<byte>)
    requires AllWellFormed(blocks) && |blocks| < 0x1_0000_0000
    ensures var c' := After(g, c, Objects(PutMessage(blocks, tail)));
            var level, bytes0 := LastWord(blocks, g, 0x36), LastWord(blocks, g, 0x17);
            && c'.curHP == OrElse(LastWord(blocks, g, 0x18), c.curHP)
            && c'.maxHP == OrElse(LastWord(blocks, g, 0x20), c.maxHP)
            && c'.powerType == (if bytes0.Some? then bytes0.value / 0x100_0000 else c.powerType)
            && c'.level == (if level.Some? && level.value != 0 then level.value % 256 else c.level)
            && c'.mapId == c.mapId && c'.zone == c.zone
  {
    MessageSays(g, c, blocks, tail);
    FieldIsLastWord(blocks, g, NO_STATS, 0x18);
    FieldIsLastWord(blocks, g, NO_STATS, 0x20);
    FieldIsLastWord(blocks, g, NO_STATS, 0x17);
    FieldIsLastWord(blocks, g, NO_STATS, 0x36);
  }

  function At(ps: map<nat, uint32>, t: nat): Option<uint32> {
    if t in ps then Some(ps[t]) else None
  }

  lemma PowerWords(blocks: seq<Block>, g: Guid, t: nat)
    requires AllWellFormed(blocks) && t < 7
    ensures At(Effects(blocks, g, NO_STATS).powers, t) == LastWord(blocks, g, 0x19 + t)
    ensures At(Effects(blocks, g, NO_STATS).maxPowers, t) == LastWord(blocks, g, 0x21 + t)
  {
    FieldIsLastWord(blocks, g, NO_STATS, 0x19 + t);
    FieldIsLastWord(blocks, g, NO_STATS, 0x21 + t);
  }

  lemma ObservedPower(c: Hero, s: UnitStats, cur: Option<uint32>, max: Option<uint32>)
    requires var t := Observe(c, s).powerType; t < 7 && At(s.powers, t) == cur && At(s.maxPowers, t) == max
    ensures Observe(c, s).curPower == OrElse(cur, c.curPower) && Observe(c, s).maxPower == OrElse(max, c.maxPower)
  {
  }

  /** Power and its maximum are words 0x19 + t and 0x21 + t, where t is the power type after the packet, if below 7. */
  lemma PowerFromPacket(g: Guid, c: Hero, blocks: seq<Block>, tail: seq<byte>)
    requires AllWellFormed(blocks) && |blocks| < 0x1_0000_0000
    ensures var c' := After(g, c, Objects(PutMessage(blocks, tail)));
            var t := c'.powerType;
            && c'.curPower == (if t < 7 then OrElse(LastWord(blocks, g, 0x19 + t), c.curPower) else c.curPower)
            && c'.maxPower == (if t < 7 then OrElse(LastWord(blocks, g, 0x21 + t), c.maxPower) else c.maxPower)
  {
    MessageSays(g, c, blocks, tail);
    var s := Effects(blocks, g, NO_STATS);
    var t := Observe(c, s).powerType;
    if t < 7 {
      PowerWords(blocks, g, t);
      ObservedPower(c, s, LastWord(blocks, g, 0x19 + t), LastWord(blocks, g, 0x21 + t));
    }
  }

  /** A payload that does not parse changes nothing and sends nothing. */
  lemma UnparsedPacket(g: Guid, c: Hero, data: seq<byte>)
    requires !Parse(data, g).1.Finished?
    ensures After(g, c, Objects(data)) == c && Emitted(g, c, Objects(data)) == []
  {
  }

  /** World states: map, zone and area are the first three words; an update goes out for map and zone if they changed. */
  lemma PlacesFromPacket(g: Guid, c: Hero, m: uint32, z: uint32, a: uint32, tail: seq<byte>)
    ensures var p := WorldStates(ToLE(4, m) + (ToLE(4, z) + (ToLE(4, a) + tail)));
            && After(g, c, p) == c.(mapId := m, zone := z)
            && Emitted(g, c, p) ==
               (if m != c.mapId then [Blank(g).(mapId := Some(m))] else [])
               + (if z != c.zone then [Blank(g).(area := Some(a), zone := Some(z))] else [])
  {
    U32RoundTrip(m, ToLE(4, z) + (ToLE(4, a) + tail));
    U32RoundTrip(z, ToLE(4, a) + tail);
    U32RoundTrip(a, tail);
  }

  /** A level-up: the low byte of the first word. */
  lemma LevelFromPacket(g: Guid, c: Hero, level: uint32, tail: seq<byte>)
    ensures var p := LevelUp(ToLE(4, level) + tail);
            && After(g, c, p) == c.(level := level % 256)
            && Emitted(g, c, p) == if level % 256 != c.level then [Blank(g).(lvl := Some(level % 256))] else []
  {
    U32RoundTrip(level, tail);
  }

  /** A snapshot carries the level, hit points once a maximum is known, and power once its type is known. */
  lemma SnapshotCarries(g: Guid, c: Hero)
    ensures Emitted(g, c, Snapshot) ==
            [Update(g, Some(c.level), None, None, None,
                    if c.maxHP != 0 then Some(c.curHP) else None, if c.maxHP != 0 then Some(c.maxHP) else None,
                    if c.powerType != 255 then Some(c.powerType) else None,
                    if c.powerType != 255 then Some(c.curPower) else None,
                    if c.powerType != 255 then Some(c.maxPower) else None)]
    ensures After(g, c, Snapshot) == c
  {
  }
}
