/**
 The SMSG_UPDATE_OBJECT parser (apps/gateway/packet/update-object.go) as functions of the stream, and the wire
 grammar it is meant to read.
 */
module UpdateObject {
  import opened Words
  import opened PacketCodec

  const FIELD_BYTES0: nat := 0x17
  const FIELD_HEALTH: nat := 0x18
  const FIELD_POWER1: nat := 0x19
  const FIELD_MAX_HEALTH: nat := 0x20
  const FIELD_MAX_POWER1: nat := 0x21
  const FIELD_LEVEL: nat := 0x36
  const POWERS: nat := 7
  const MAX_STATS_BLOCK: nat := FIELD_LEVEL / 32

  const TYPE_VALUES: nat := 0
  const TYPE_MOVEMENT: nat := 1
  const TYPE_CREATE: nat := 2
  const TYPE_CREATE2: nat := 3
  const TYPE_OUT_OF_RANGE: nat := 4
  const TYPE_NEAR: nat := 5

  const FLAG_TRANSPORT: nat := 0x0002
  const FLAG_HAS_TARGET: nat := 0x0004
  const FLAG_UNKNOWN: nat := 0x0008
  const FLAG_LOW_GUID: nat := 0x0010
  const FLAG_LIVING: nat := 0x0020
  const FLAG_STATIONARY: nat := 0x0040
  const FLAG_VEHICLE: nat := 0x0080
  const FLAG_POSITION: nat := 0x0100
  const FLAG_ROTATION: nat := 0x0200

  const MOVE_ON_TRANSPORT: nat := 0x0000_0200
  const MOVE_FALLING: nat := 0x0000_1000
  const MOVE_SWIMMING_OR_FLYING: nat := 0x0220_0000
  const MOVE_SPLINE_ELEVATION: nat := 0x0400_0000
  const MOVE_SPLINE_ENABLED: nat := 0x0800_0000
  const MOVE2_ALWAYS_ALLOW_PITCHING: nat := 0x0020
  const MOVE2_INTERPOLATED: nat := 0x0400

  const SPLINE_FINAL_POINT: nat := 0x0000_8000
  const SPLINE_FINAL_TARGET: nat := 0x0001_0000
  const SPLINE_FINAL_ANGLE: nat := 0x0002_0000

  /** UnitStatsUpdate: a nil pointer is None, and an array of pointers is a partial map. */
  datatype UnitStats = UnitStats(
    level: Option<uint32>, curHP: Option<uint32>, maxHP: Option<uint32>, powerType: Option<uint8>,
    powers: map<nat, uint32>, maxPowers: map<nat, uint32>)

  const NO_STATS := UnitStats(None, None, None, None, map[], map[])

  /** The switch of the bit loop reads a word for these indices and skips one for the others. */
  predicate Tracked(idx: nat) {
    || idx == FIELD_BYTES0 || idx == FIELD_HEALTH || idx == FIELD_MAX_HEALTH || idx == FIELD_LEVEL
    || FIELD_POWER1 <= idx < FIELD_POWER1 + POWERS
    || FIELD_MAX_POWER1 <= idx < FIELD_MAX_POWER1 + POWERS
  }

  /** The effect of one value word; indices that are not tracked change nothing. */
  function SetField(upd: UnitStats, idx: nat, v: uint32): UnitStats {
    if idx == FIELD_BYTES0 then upd.(powerType := Some(v / 0x100_0000))
    else if idx == FIELD_HEALTH then upd.(curHP := Some(v))
    else if idx == FIELD_MAX_HEALTH then upd.(maxHP := Some(v))
    else if idx == FIELD_LEVEL then upd.(level := Some(v))
    else if FIELD_POWER1 <= idx < FIELD_POWER1 + POWERS then upd.(powers := upd.powers[idx - FIELD_POWER1 := v])
    else if FIELD_MAX_POWER1 <= idx < FIELD_MAX_POWER1 + POWERS then
      upd.(maxPowers := upd.maxPowers[idx - FIELD_MAX_POWER1 := v])
    else upd
  }

  // ----- the parser on streams -----

  /** The bit loop of one mask of the decoding path, lowest bit first. */
  function DecodeMask(base: nat, m: nat, upd: UnitStats, st: Stream): (UnitStats, Stream)
    decreases m
  {
    if m == 0 || st.None? then (upd, st)
    else
      AndAtMost(m, m - 1);
      var (v, rest) := U32(st);
      DecodeMask(base, And(m, m - 1), SetField(upd, base + TrailingZeros(m), v), rest)
  }

  /** One mask word of the decoding path; words of untracked blocks are skipped at once. */
  function DecodeBlock(block: nat, m: uint32, upd: UnitStats, st: Stream): (UnitStats, Stream) {
    if block > MAX_STATS_BLOCK then (upd, SkipBytes(OnesCount(m) * 4, st))
    else DecodeMask(block * 32, m, upd, st)
  }

  function DecodeBlocks(block: nat, masks: seq<uint32>, upd: UnitStats, st: Stream): (UnitStats, Stream)
    decreases masks
  {
    if masks == [] || st.None? then (upd, st)
    else
      var (upd', st') := DecodeBlock(block, masks[0], upd, st);
      DecodeBlocks(block + 1, masks[1..], upd', st')
  }

  /** The mask words; masks that could not be read stay zero. */
  function ReadMasks(n: nat, st: Stream): (r: (seq<uint32>, Stream))
    ensures |r.0| == n
  {
    if n == 0 then ([], st)
    else
      var (m, rest) := U32(st);
      var (ms, end) := ReadMasks(n - 1, rest);
      ([m] + ms, end)
  }

  function CountBits(masks: seq<uint32>): nat {
    if masks == [] then 0 else OnesCount(masks[0]) + CountBits(masks[1..])
  }

  /** parseValuesBlock with isTarget false. */
  function SkipValues(st: Stream): Stream {
    var (n, s1) := U8(st);
    var (masks, s2) := ReadMasks(n, s1);
    SkipBytes(CountBits(masks) * 4, s2)
  }

  /** parseValuesBlock with isTarget true. */
  function DecodeValues(upd: UnitStats, st: Stream): (UnitStats, Stream) {
    var (n, s1) := U8(st);
    var (masks, s2) := ReadMasks(n, s1);
    DecodeBlocks(0, masks, upd, s2)
  }

  function ParseValues(isTarget: bool, upd: UnitStats, st: Stream): (UnitStats, Stream) {
    if isTarget then DecodeValues(upd, st) else (upd, SkipValues(st))
  }

  function SkipIf(present: bool, n: nat, st: Stream): Stream {
    if present then SkipBytes(n, st) else st
  }

  function SkipGuidIf(present: bool, st: Stream): Stream {
    if present then PackedGuid(st).1 else st
  }

  function SkipSpline(st: Stream): Stream {
    var (flags, s1) := U32(st);
    var s2 := SkipBytes(FacingSize(flags), s1);
    var (nodes, s3) := U32(SkipBytes(7 * 4, s2));
    SkipBytes(1 + 3 * 4, SkipBytes(nodes * 3 * 4, s3))
  }

  function FacingSize(flags: uint32): nat {
    if Has(flags, SPLINE_FINAL_ANGLE) then 4
    else if Has(flags, SPLINE_FINAL_TARGET) then 8
    else if Has(flags, SPLINE_FINAL_POINT) then 12
    else 0
  }

  predicate Pitches(flags: uint32, flags2: uint16) {
    Has(flags, MOVE_SWIMMING_OR_FLYING) || Has(flags2, MOVE2_ALWAYS_ALLOW_PITCHING)
  }

  function SkipTransport(flags: uint32, flags2: uint16, st: Stream): Stream {
    var transport := Has(flags, MOVE_ON_TRANSPORT);
    var s1 := SkipIf(transport, 4 * 4 + 4 + 1, SkipGuidIf(transport, st));
    SkipIf(transport && Has(flags2, MOVE2_INTERPOLATED), 4, s1)
  }

  function SkipFlight(flags: uint32, flags2: uint16, st: Stream): Stream {
    var s1 := SkipBytes(4, SkipIf(Pitches(flags, flags2), 4, st));
    var s2 := SkipIf(Has(flags, MOVE_FALLING), 4 * 4, s1);
    SkipBytes(9 * 4, SkipIf(Has(flags, MOVE_SPLINE_ELEVATION), 4, s2))
  }

  function SkipLiving(st: Stream): Stream {
    var (flags, s1) := U32(st);
    var (flags2, s2) := U16(s1);
    var s3 := SkipTransport(flags, flags2, SkipBytes(4 + 4 * 4, s2));
    var s4 := SkipFlight(flags, flags2, s3);
    if Has(flags, MOVE_SPLINE_ENABLED) then SkipSpline(s4) else s4
  }

  function SkipPlace(flags: uint16, st: Stream): Stream {
    if Has(flags, FLAG_LIVING) then SkipLiving(st)
    else if Has(flags, FLAG_POSITION) then SkipBytes(8 * 4, PackedGuid(st).1)
    else SkipIf(Has(flags, FLAG_STATIONARY), 4 * 4, st)
  }

  function SkipLabels(flags: uint16, st: Stream): Stream {
    var s1 := SkipIf(Has(flags, FLAG_LOW_GUID), 4, SkipIf(Has(flags, FLAG_UNKNOWN), 4, st));
    SkipGuidIf(Has(flags, FLAG_HAS_TARGET), s1)
  }

  function SkipRide(flags: uint16, st: Stream): Stream {
    var s1 := SkipIf(Has(flags, FLAG_VEHICLE), 4 + 4, SkipIf(Has(flags, FLAG_TRANSPORT), 4, st));
    SkipIf(Has(flags, FLAG_ROTATION), 8, s1)
  }

  function SkipMovement(st: Stream): Stream {
    var (flags, s1) := U16(st);
    SkipRide(flags, SkipLabels(flags, SkipPlace(flags, s1)))
  }

  function SkipGuids(n: nat, st: Stream): Stream {
    if n == 0 || st.None? then st else SkipGuids(n - 1, PackedGuid(st).1)
  }

  datatype Outcome = Finished(left: seq<byte>) | Truncated | UnknownType(updateType: nat, block: nat)

  /** One block after its type byte; no block has another type. */
  function ParseBlock(updateType: nat, guid: uint64, upd: UnitStats, st: Stream): (UnitStats, Stream)
    requires updateType <= TYPE_NEAR
  {
    if updateType == TYPE_VALUES then
      var (g, s1) := PackedGuid(st);
      ParseValues(g == guid, upd, s1)
    else if updateType == TYPE_MOVEMENT then
      (upd, SkipMovement(PackedGuid(st).1))
    else if updateType <= TYPE_CREATE2 then
      var (g, s1) := PackedGuid(st);
      ParseValues(g == guid, upd, SkipMovement(U8(s1).1))
    else
      var (n, s1) := U32(st);
      (upd, SkipGuids(n, s1))
  }

  function ParseBlocks(n: nat, i: nat, guid: uint64, upd: UnitStats, st: Stream): (UnitStats, Outcome)
    requires i <= n
    decreases n - i
  {
    if st.None? then (upd, Truncated)
    else if i == n then (upd, Finished(st.value))
    else
      var (t, s1) := U8(st);
      if t > TYPE_NEAR then (upd, UnknownType(t, i))
      else
        var (upd', s2) := ParseBlock(t, guid, upd, s1);
        ParseBlocks(n, i + 1, guid, upd', s2)
  }

  /** ParseUpdateObjectStatsForGUID. */
  function Parse(data: seq<byte>, guid: uint64): (UnitStats, Outcome) {
    var (n, st) := U32(Some(data));
    ParseBlocks(n, 0, guid, NO_STATS, st)
  }

  // ----- skipping refines decoding, on every input -----

  lemma SkipTwice(a: nat, b: nat, st: Stream)
    ensures SkipBytes(b, SkipBytes(a, st)) == SkipBytes(a + b, st)
  {
    if st.Some? && a + b <= |st.value| {
      assert st.value[a..][b..] == st.value[a + b..];
    }
  }

  lemma SkipSum(a: nat, b: nat, c: nat, st: Stream)
    requires c == a + b
    ensures SkipBytes(c * 4, st) == SkipBytes(b * 4, SkipBytes(a * 4, st))
  {
    SkipTwice(a * 4, b * 4, st);
  }

  lemma {:induction false} MaskSkipRefinesDecode(base: nat, m: nat, upd: UnitStats, st: Stream)
    ensures DecodeMask(base, m, upd, st).1 == SkipBytes(OnesCount(m) * 4, st)
    decreases m
  {
    if m == 0 {
      if st.Some? {
        assert st.value[0..] == st.value;
      }
    } else if st.Some? {
      ClearLowest(m);
      var (v, rest) := U32(st);
      MaskSkipRefinesDecode(base, And(m, m - 1), SetField(upd, base + TrailingZeros(m), v), rest);
      SkipSum(1, OnesCount(m) - 1, OnesCount(m), st);
    }
  }

  lemma BlockSkipRefinesDecode(block: nat, m: uint32, upd: UnitStats, st: Stream)
    ensures DecodeBlock(block, m, upd, st).1 == SkipBytes(OnesCount(m) * 4, st)
  {
    MaskSkipRefinesDecode(block * 32, m, upd, st);
  }

  lemma SkipAllBits(masks: seq<uint32>, st: Stream)
    requires masks != []
    ensures SkipBytes(CountBits(masks) * 4, st) ==
            SkipBytes(CountBits(masks[1..]) * 4, SkipBytes(OnesCount(masks[0]) * 4, st))
  {
    SkipSum(OnesCount(masks[0]), CountBits(masks[1..]), CountBits(masks), st);
  }

  lemma {:induction false} BlocksSkipRefinesDecode(block: nat, masks: seq<uint32>, upd: UnitStats, st: Stream)
    ensures DecodeBlocks(block, masks, upd, st).1 == SkipBytes(CountBits(masks) * 4, st)
    decreases masks
  {
    if st.Some? {
      if masks == [] {
        assert st.value[0..] == st.value;
      } else {
        SkipAllBits(masks, st);
        BlockSkipRefinesDecode(block, masks[0], upd, st);
        var (upd', st') := DecodeBlock(block, masks[0], upd, st);
        BlocksSkipRefinesDecode(block + 1, masks[1..], upd', st');
      }
    }
  }

  /** On any bytes the skipping and the decoding path fail together or stop at the same byte. */
  lemma SkipRefinesDecode(upd: UnitStats, st: Stream)
    ensures SkipValues(st) == DecodeValues(upd, st).1
  {
    var (n, s1) := U8(st);
    var (masks, s2) := ReadMasks(n, s1);
    BlocksSkipRefinesDecode(0, masks, upd, s2);
  }
}
