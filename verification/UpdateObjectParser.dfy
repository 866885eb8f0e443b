/**
 The parser as the source runs it: loops over one shared reader. Each method is proved against its function on
 streams, and the ghost counter `work` bounds the loop iterations it spends by the bytes it consumes.
 */
module UpdateObjectParser {
  import opened Words
  import opened PacketCodec
  import opened UpdateObject

  /** At most one iteration more than bytes consumed, and that one only in the call that hits the end of the data. */
  twostate predicate Frugal(r: Reader)
    reads r
  {
    r.work - old(r.work) <= r.pos - old(r.pos) + if old(r.err).None? && r.err.Some? then 1 else 0
  }

  twostate predicate Sticky(r: Reader)
    reads r
  {
    && old(r.pos) <= r.pos <= |r.data|
    && (old(r.err).Some? ==> r.pos == old(r.pos) && r.err == old(r.err) && r.work == old(r.work))
  }

  method SkipMaskedValues(r: Reader, maskBlocks: nat)
    requires r.Valid()
    modifies r`pos, r`err, r`work
    ensures r.Valid() && Sticky(r) && Frugal(r)
    ensures var (masks, st) := ReadMasks(maskBlocks, old(r.Left()));
            r.Left() == SkipBytes(CountBits(masks) * 4, st)
  {
    var valuesCount, i := 0, 0;
    ghost var st0 := r.Left();
    while i < maskBlocks && r.err.None?
      invariant 0 <= i <= maskBlocks && r.Valid() && Sticky(r) && Frugal(r) && valuesCount >= 0
      invariant var (rest, st) := ReadMasks(maskBlocks - i, r.Left());
                var (masks, st') := ReadMasks(maskBlocks, st0);
                st == st' && CountBits(masks) == valuesCount + CountBits(rest)
    {
      r.work := r.work + 1;
      var m := r.Uint(4);
      ReadMasksStep(maskBlocks - i, old(r.Left()));
      valuesCount := valuesCount + OnesCount(m);
      i := i + 1;
    }
    NoMasksAfterFailure(maskBlocks - i);
    r.Skip(valuesCount * 4);
  }

  lemma ReadMasksStep(n: nat, st: Stream)
    requires n > 0
    ensures var (m, rest) := U32(st);
            ReadMasks(n, st) == ([m] + ReadMasks(n - 1, rest).0, ReadMasks(n - 1, rest).1)
  {
  }

  lemma {:induction false} NoMasksAfterFailure(n: nat)
    ensures ReadMasks(n, None).1 == None
  {
    if n > 0 {
      NoMasksAfterFailure(n - 1);
    }
  }

  method DecodeBits(r: Reader, base: nat, mask: uint32, upd: UnitStats) returns (out: UnitStats)
    requires r.Valid()
    modifies r`pos, r`err, r`work
    ensures r.Valid() && Sticky(r) && Frugal(r)
    ensures (out, r.Left()) == DecodeMask(base, mask, upd, old(r.Left()))
  {
    out := upd;
    var m: nat := mask;
    ghost var want := DecodeMask(base, mask, upd, r.Left());
    while m != 0 && r.err.None?
      invariant r.Valid() && Sticky(r) && Frugal(r)
      invariant DecodeMask(base, m, out, r.Left()) == want
      decreases m
    {
      r.work := r.work + 1;
      AndAtMost(m, m - 1);
      var idx := base + TrailingZeros(m);
      m := And(m, m - 1);
      if Tracked(idx) {
        var v := r.Uint(4);
        WordSizes();
        out := SetField(out, idx, v);
      } else {
        r.Skip(4);
      }
    }
  }

  method ParseValuesBlock(r: Reader, isTarget: bool, upd: UnitStats) returns (out: UnitStats)
    requires r.Valid()
    modifies r`pos, r`err, r`work
    ensures r.Valid() && Sticky(r) && Frugal(r)
    ensures (out, r.Left()) == ParseValues(isTarget, upd, old(r.Left()))
  {
    WordSizes();
    var maskBlocks := r.Uint(1);
    if !isTarget {
      SkipMaskedValues(r, maskBlocks);
      return upd;
    }
    var masks := ReadMaskWords(r, maskBlocks);
    out := DecodeMaskBlocks(r, masks, upd);
  }

  method ReadMaskWords(r: Reader, maskBlocks: nat) returns (masks: seq<uint32>)
    requires r.Valid()
    modifies r`pos, r`err, r`work
    ensures r.Valid() && Sticky(r) && Frugal(r)
    ensures (masks, r.Left()) == ReadMasks(maskBlocks, old(r.Left()))
    ensures r.err.None? && old(r.err).None? ==> r.work + 3 * maskBlocks <= old(r.work) + r.pos - old(r.pos)
  {
    masks := seq(maskBlocks, i => 0);
    var i := 0;
    ghost var want := ReadMasks(maskBlocks, r.Left());
    assert want.0[0..] == want.0;
    while i < maskBlocks && r.err.None?
      invariant 0 <= i <= maskBlocks == |masks| && r.Valid() && Sticky(r) && Frugal(r)
      invariant forall k :: i <= k < maskBlocks ==> masks[k] == 0
      invariant ReadMasks(maskBlocks - i, r.Left()) == (want.0[i..], want.1) && masks[..i] == want.0[..i]
      invariant r.err.None? ==> r.work + 3 * i <= old(r.work) + r.pos - old(r.pos)
    {
      r.work := r.work + 1;
      WordSizes();
      ReadMasksStep(maskBlocks - i, r.Left());
      var m := r.Uint(4);
      masks := masks[i := m];
      assert want.0[i..][1..] == want.0[i + 1..];
      i := i + 1;
    }
    if i < maskBlocks {
      ZerosAfterFailure(maskBlocks - i);
      forall k | i <= k < maskBlocks ensures want.0[k] == 0 {
        assert want.0[i..][k - i] == want.0[k];
      }
    }
    forall k | 0 <= k < i ensures masks[k] == want.0[k] {
      assert masks[..i][k] == masks[k] && want.0[..i][k] == want.0[k];
    }
    assert masks == want.0;
  }

  lemma {:induction false} ZerosAfterFailure(n: nat)
    ensures ReadMasks(n, None).1 == None && forall k :: 0 <= k < n ==> ReadMasks(n, None).0[k] == 0
  {
    if n > 0 {
      ZerosAfterFailure(n - 1);
    }
  }

  /** The body of the loop over mask words. */
  method DecodeOneBlock(r: Reader, block: nat, m: uint32, upd: UnitStats) returns (out: UnitStats)
    requires r.Valid()
    modifies r`pos, r`err, r`work
    ensures r.Valid() && Sticky(r) && Frugal(r)
    ensures (out, r.Left()) == DecodeBlock(block, m, upd, old(r.Left()))
  {
    if block > MAX_STATS_BLOCK {
      r.Skip(OnesCount(m) * 4);
      return upd;
    }
    out := DecodeBits(r, block * 32, m, upd);
  }

  method DecodeMaskBlocks(r: Reader, masks: seq<uint32>, upd: UnitStats) returns (out: UnitStats)
    requires r.Valid()
    modifies r`pos, r`err, r`work
    ensures r.Valid() && Sticky(r)
    ensures (out, r.Left()) == DecodeBlocks(0, masks, upd, old(r.Left()))
    ensures r.work - old(r.work) <= |masks| + r.pos - old(r.pos) +
              if old(r.err).None? && r.err.Some? then 1 else 0
  {
    out := upd;
    var block := 0;
    ghost var want := DecodeBlocks(0, masks, upd, r.Left());
    assert masks[0..] == masks;
    while block < |masks| && r.err.None?
      invariant 0 <= block <= |masks| && r.Valid() && Sticky(r)
      invariant DecodeBlocks(block, masks[block..], out, r.Left()) == want
      invariant r.work - old(r.work) <= block + r.pos - old(r.pos) +
                  if old(r.err).None? && r.err.Some? then 1 else 0
    {
      r.work := r.work + 1;
      assert masks[block..][1..] == masks[block + 1..];
      out := DecodeOneBlock(r, block, masks[block], out);
      block := block + 1;
    }
  }

  // ----- movement -----

  method SkipSplineData(r: Reader)
    requires r.Valid()
    modifies r`pos, r`err
    ensures r.Valid() && Sticky(r) && r.Left() == SkipSpline(old(r.Left()))
  {
    WordSizes();
    var flags := r.Uint(4);
    if Has(flags, SPLINE_FINAL_ANGLE) {
      r.Skip(4);
    } else if Has(flags, SPLINE_FINAL_TARGET) {
      r.Skip(8);
    } else if Has(flags, SPLINE_FINAL_POINT) {
      r.Skip(3 * 4);
    } else {
      SkipNothing(r.Left());
    }
    r.Skip(7 * 4);
    var nodes := r.Uint(4);
    r.Skip(nodes * 3 * 4);
    r.Skip(1 + 3 * 4);
  }

  method SkipTransportPart(r: Reader, flags: uint32, flags2: uint16)
    requires r.Valid()
    modifies r`pos, r`err
    ensures r.Valid() && Sticky(r) && r.Left() == SkipTransport(flags, flags2, old(r.Left()))
  {
    if Has(flags, MOVE_ON_TRANSPORT) {
      var _ := r.ReadGUID();
      r.Skip(4 * 4 + 4 + 1);
      if Has(flags2, MOVE2_INTERPOLATED) {
        r.Skip(4);
      }
    }
  }

  method SkipFlightPart(r: Reader, flags: uint32, flags2: uint16)
    requires r.Valid()
    modifies r`pos, r`err
    ensures r.Valid() && Sticky(r) && r.Left() == SkipFlight(flags, flags2, old(r.Left()))
  {
    if Has(flags, MOVE_SWIMMING_OR_FLYING) || Has(flags2, MOVE2_ALWAYS_ALLOW_PITCHING) {
      r.Skip(4);
    }
    r.Skip(4);
    if Has(flags, MOVE_FALLING) {
      r.Skip(4 * 4);
    }
    if Has(flags, MOVE_SPLINE_ELEVATION) {
      r.Skip(4);
    }
    r.Skip(9 * 4);
  }

  method SkipLivingPart(r: Reader)
    requires r.Valid()
    modifies r`pos, r`err
    ensures r.Valid() && Sticky(r) && r.Left() == SkipLiving(old(r.Left()))
  {
    WordSizes();
    var flags := r.Uint(4);
    var flags2 := r.Uint(2);
    r.Skip(4 + 4 * 4);
    SkipTransportPart(r, flags, flags2);
    SkipFlightPart(r, flags, flags2);
    if Has(flags, MOVE_SPLINE_ENABLED) {
      SkipSplineData(r);
    }
  }

  method SkipLabelParts(r: Reader, flags: uint16)
    requires r.Valid()
    modifies r`pos, r`err
    ensures r.Valid() && Sticky(r) && r.Left() == SkipLabels(flags, old(r.Left()))
  {
    if Has(flags, FLAG_UNKNOWN) {
      r.Skip(4);
    }
    if Has(flags, FLAG_LOW_GUID) {
      r.Skip(4);
    }
    if Has(flags, FLAG_HAS_TARGET) {
      var _ := r.ReadGUID();
    }
  }

  method SkipRideParts(r: Reader, flags: uint16)
    requires r.Valid()
    modifies r`pos, r`err
    ensures r.Valid() && Sticky(r) && r.Left() == SkipRide(flags, old(r.Left()))
  {
    if Has(flags, FLAG_TRANSPORT) {
      r.Skip(4);
    }
    if Has(flags, FLAG_VEHICLE) {
      r.Skip(4 + 4);
    }
    if Has(flags, FLAG_ROTATION) {
      r.Skip(8);
    }
  }

  method SkipMovementBlock(r: Reader)
    requires r.Valid()
    modifies r`pos, r`err
    ensures r.Valid() && Sticky(r) && r.Left() == SkipMovement(old(r.Left()))
  {
    WordSizes();
    var flags := r.Uint(2);
    if Has(flags, FLAG_LIVING) {
      SkipLivingPart(r);
    } else if Has(flags, FLAG_POSITION) {
      var _ := r.ReadGUID();
      r.Skip(8 * 4);
    } else if Has(flags, FLAG_STATIONARY) {
      r.Skip(4 * 4);
    }
    SkipLabelParts(r, flags);
    SkipRideParts(r, flags);
  }

  // ----- the whole message -----

  method SkipGuidList(r: Reader, count: nat)
    requires r.Valid()
    modifies r`pos, r`err, r`work
    ensures r.Valid() && Sticky(r) && Frugal(r) && r.Left() == SkipGuids(count, old(r.Left()))
  {
    var j := 0;
    ghost var want := SkipGuids(count, r.Left());
    while j < count && r.err.None?
      invariant 0 <= j <= count && r.Valid() && Sticky(r) && Frugal(r)
      invariant SkipGuids(count - j, r.Left()) == want
    {
      r.work := r.work + 1;
      var _ := r.ReadGUID();
      j := j + 1;
    }
  }

  method ParseOneBlock(r: Reader, updateType: nat, guid: uint64, upd: UnitStats) returns (out: UnitStats)
    requires r.Valid() && updateType <= TYPE_NEAR
    modifies r`pos, r`err, r`work
    ensures r.Valid() && Sticky(r) && Frugal(r)
    ensures (out, r.Left()) == ParseBlock(updateType, guid, upd, old(r.Left()))
  {
    out := upd;
    WordSizes();
    if updateType == TYPE_VALUES {
      var g := r.ReadGUID();
      out := ParseValuesBlock(r, g == guid, upd);
    } else if updateType == TYPE_MOVEMENT {
      var _ := r.ReadGUID();
      SkipMovementBlock(r);
    } else if updateType == TYPE_CREATE || updateType == TYPE_CREATE2 {
      var g := r.ReadGUID();
      var _ := r.Uint(1);
      SkipMovementBlock(r);
      out := ParseValuesBlock(r, g == guid, upd);
    } else {
      var count := r.Uint(4);
      SkipGuidList(r, count);
    }
  }

  /**
   ParseUpdateObjectStatsForGUID. Whatever block, field or GUID counts the payload claims, all loops together run at
   most as many iterations as the payload has bytes.
   */
  method ParseUpdateObjectStatsForGUID(data: seq<byte>, guid: uint64)
    returns (upd: UnitStats, outcome: Outcome, ghost iterations: nat)
    ensures (upd, outcome) == Parse(data, guid)
    ensures iterations <= |data|
  {
    var r := new Reader(data);
    upd := NO_STATS;
    WordSizes();
    var blockCount := r.Uint(4);
    ghost var want := ParseBlocks(blockCount, 0, guid, upd, r.Left());
    var i := 0;
    while i < blockCount
      invariant 0 <= i <= blockCount && r.Valid() && r.data == data
      invariant ParseBlocks(blockCount, i, guid, upd, r.Left()) == want
      invariant r.work <= r.pos - (if r.err.None? then 4 else 3) || (blockCount == 0 && r.work == 0)
    {
      r.work := r.work + 1;
      if r.err.Some? {
        return upd, Truncated, r.work;
      }
      var updateType := r.Uint(1);
      if updateType > TYPE_NEAR {
        return upd, UnknownType(updateType, i), r.work;
      }
      upd := ParseOneBlock(r, updateType, guid, upd);
      i := i + 1;
    }
    iterations := r.work;
    outcome := if r.err.Some? then Truncated else Finished(r.data[r.pos..]);
  }
}
