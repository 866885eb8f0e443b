/**
 The wire grammar of update objects and what a message means, independently of the parser: which words are sent is
 said by the set bits of the masks, and the word of a field is found by the rank of its bit. Every encoder puts its
 bytes in front of the given tail.
 */
module UpdateGrammar {
  import opened Words
  import opened PacketCodec
  import opened UpdateObject

  // ----- field sets -----

  datatype FieldSet = FieldSet(masks: seq<uint32>, words: seq<uint32>) {
    predicate WellFormed() {
      |masks| < 256 && |words| == CountBits(masks)
    }
  }

  function PutWords(ws: seq<uint32>, tail: seq<byte>): seq<byte> {
    if ws == [] then tail else ToLE(4, ws[0]) + PutWords(ws[1..], tail)
  }

  function PutValues(fs: FieldSet, tail: seq<byte>): seq<byte>
    requires fs.WellFormed()
  {
    [|fs.masks|] + PutWords(fs.masks, PutWords(fs.words, tail))
  }

  /** The set bits of m, ascending, numbered from base. */
  function Indices(base: nat, m: nat): seq<nat>
    decreases m
  {
    if m == 0 then [] else (if m % 2 == 1 then [base] else []) + Indices(base + 1, m / 2)
  }

  function AllIndices(block: nat, masks: seq<uint32>): seq<nat>
    decreases masks
  {
    if masks == [] then [] else Indices(block * 32, masks[0]) + AllIndices(block + 1, masks[1..])
  }

  /** The words taken one by one for the given indices. */
  function SetFields(upd: UnitStats, indices: seq<nat>, words: seq<uint32>): UnitStats
    requires |indices| == |words|
    decreases indices
  {
    if indices == [] then upd else SetFields(SetField(upd, indices[0], words[0]), indices[1..], words[1..])
  }

  // ----- the bit loop visits exactly the set bits, ascending -----

  lemma {:induction false} IndicesOfEven(base: nat, k: nat)
    ensures Indices(base, 2 * k) == Indices(base + 1, k)
  {
    assert (2 * k) / 2 == k && (2 * k) % 2 == 0;
  }

  lemma {:induction false} CountIndices(base: nat, m: nat)
    ensures |Indices(base, m)| == OnesCount(m)
    decreases m
  {
    if m != 0 {
      CountIndices(base + 1, m / 2);
    }
  }

  lemma {:induction false} LowestFirst(base: nat, m: nat)
    requires m != 0
    ensures Indices(base, m) == [base + TrailingZeros(m)] + Indices(base, And(m, m - 1))
    decreases m
  {
    var k := m / 2;
    if m % 2 == 1 {
      ClearLowestOfOdd(k);
      IndicesOfEven(base, k);
    } else {
      LowestFirst(base + 1, k);
      ClearLowestOfEven(k);
      IndicesOfEven(base, k);
      IndicesOfEven(base, And(k, k - 1));
      assert m == 2 * k;
    }
  }

  /** One word for every index, in order. */
  function ReadEach(indices: seq<nat>, upd: UnitStats, st: Stream): (UnitStats, Stream)
    decreases indices
  {
    if indices == [] || st.None? then (upd, st)
    else
      var (v, rest) := U32(st);
      ReadEach(indices[1..], SetField(upd, indices[0], v), rest)
  }

  lemma ReadEachCons(i: nat, rest: seq<nat>, upd: UnitStats, st: Stream)
    requires st.Some?
    ensures ReadEach([i] + rest, upd, st) == ReadEach(rest, SetField(upd, i, U32(st).0), U32(st).1)
  {
    assert ([i] + rest)[1..] == rest;
  }

  lemma DecodeMaskStep(base: nat, m: nat, upd: UnitStats, st: Stream)
    requires m != 0 && st.Some?
    ensures And(m, m - 1) < m
    ensures DecodeMask(base, m, upd, st) ==
            DecodeMask(base, And(m, m - 1), SetField(upd, base + TrailingZeros(m), U32(st).0), U32(st).1)
  {
    AndAtMost(m, m - 1);
  }

  lemma NothingToRead(base: nat, m: nat, upd: UnitStats, st: Stream)
    requires m == 0 || st.None?
    ensures DecodeMask(base, m, upd, st) == (upd, st) == ReadEach(Indices(base, m), upd, st)
  {
  }

  /** On any bytes, the bit loop reads one word for every set bit of the mask, lowest first. */
  lemma {:induction false} BitLoopVisitsSetBits(base: nat, m: nat, upd: UnitStats, st: Stream)
    ensures DecodeMask(base, m, upd, st) == ReadEach(Indices(base, m), upd, st)
    decreases m
  {
    if m == 0 || st.None? {
      NothingToRead(base, m, upd, st);
    } else {
      var i, m' := base + TrailingZeros(m), And(m, m - 1);
      DecodeMaskStep(base, m, upd, st);
      BitLoopVisitsSetBits(base, m', SetField(upd, i, U32(st).0), U32(st).1);
      ReadEachCons(i, Indices(base, m'), upd, st);
      LowestFirst(base, m);
    }
  }

  lemma {:induction false} ReadEachIsSetFields(
    indices: seq<nat>, upd: UnitStats, words: seq<uint32>, more: seq<uint32>, tail: seq<byte>)
    requires |indices| == |words|
    ensures ReadEach(indices, upd, Some(PutWords(words + more, tail))) ==
            (SetFields(upd, indices, words), Some(PutWords(more, tail)))
    decreases indices
  {
    if indices == [] {
      assert words + more == more;
    } else {
      var rest := words[1..] + more;
      assert (words + more)[1..] == rest;
      WordSizes();
      WordRoundTrip(4, words[0], PutWords(rest, tail));
      ReadEachIsSetFields(indices[1..], SetField(upd, indices[0], words[0]), words[1..], more, tail);
    }
  }

  lemma SetFieldsCons(upd: UnitStats, i: nat, rest: seq<nat>, words: seq<uint32>)
    requires |rest| + 1 == |words|
    ensures SetFields(upd, [i] + rest, words) == SetFields(SetField(upd, i, words[0]), rest, words[1..])
  {
    assert ([i] + rest)[1..] == rest;
  }

  // ----- whole field sets -----

  lemma {:induction false} SetFieldsAppend(
    upd: UnitStats, a: seq<nat>, b: seq<nat>, wordsA: seq<uint32>, wordsB: seq<uint32>)
    requires |a| == |wordsA| && |b| == |wordsB|
    ensures SetFields(upd, a + b, wordsA + wordsB) == SetFields(SetFields(upd, a, wordsA), b, wordsB)
    decreases a
  {
    if a == [] {
      assert a + b == b && wordsA + wordsB == wordsB;
    } else {
      SetFieldsAppend(SetField(upd, a[0], wordsA[0]), a[1..], b, wordsA[1..], wordsB);
      assert (a + b)[1..] == a[1..] + b;
      assert (wordsA + wordsB)[1..] == wordsA[1..] + wordsB;
    }
  }

  /** Beyond the last tracked block no word matters. */
  lemma {:induction false} UntrackedFieldsChangeNothing(upd: UnitStats, indices: seq<nat>, words: seq<uint32>)
    requires |indices| == |words|
    requires forall i :: i in indices ==> i >= (MAX_STATS_BLOCK + 1) * 32
    ensures SetFields(upd, indices, words) == upd
    decreases indices
  {
    if indices != [] {
      assert indices[0] in indices && forall i :: i in indices[1..] ==> i in indices;
      UntrackedFieldsChangeNothing(upd, indices[1..], words[1..]);
    }
  }

  lemma {:induction false} IndicesFrom(base: nat, m: nat)
    ensures forall i :: i in Indices(base, m) ==> i >= base
    decreases m
  {
    if m != 0 {
      IndicesFrom(base + 1, m / 2);
    }
  }

  lemma {:induction false} SkipWords(a: seq<uint32>, b: seq<uint32>, tail: seq<byte>)
    ensures SkipBytes(|a| * 4, Some(PutWords(a + b, tail))) == Some(PutWords(b, tail))
  {
    if a == [] {
      assert a + b == b;
      SkipNothing(Some(PutWords(b, tail)));
    } else {
      SkipWords(a[1..], b, tail);
      assert (a + b)[1..] == a[1..] + b;
      SkipOver(ToLE(4, a[0]), PutWords(a[1..] + b, tail));
      SkipTwice(4, (|a| - 1) * 4, Some(PutWords(a + b, tail)));
    }
  }

  /** One mask word of either kind, tracked or skipped. */
  lemma DecodeBlockIsSetFields(
    block: nat, m: uint32, upd: UnitStats, words: seq<uint32>, more: seq<uint32>, tail: seq<byte>)
    requires OnesCount(m) == |words| == |Indices(block * 32, m)|
    ensures DecodeBlock(block, m, upd, Some(PutWords(words + more, tail))) ==
            (SetFields(upd, Indices(block * 32, m), words), Some(PutWords(more, tail)))
  {
    if block > MAX_STATS_BLOCK {
      IndicesFrom(block * 32, m);
      UntrackedFieldsChangeNothing(upd, Indices(block * 32, m), words);
      SkipWords(words, more, tail);
    } else {
      BitLoopVisitsSetBits(block * 32, m, upd, Some(PutWords(words + more, tail)));
      ReadEachIsSetFields(Indices(block * 32, m), upd, words, more, tail);
    }
  }

  lemma {:induction false} DecodeBlocksIsSetFields(
    block: nat, masks: seq<uint32>, upd: UnitStats, words: seq<uint32>, tail: seq<byte>)
    requires CountBits(masks) == |words|
    ensures |AllIndices(block, masks)| == |words|
    ensures DecodeBlocks(block, masks, upd, Some(PutWords(words, tail))) ==
            (SetFields(upd, AllIndices(block, masks), words), Some(tail))
    decreases masks
  {
    if masks != [] {
      var m, n := masks[0], OnesCount(masks[0]);
      var here := Indices(block * 32, m);
      CountIndices(block * 32, m);
      assert words == words[..n] + words[n..];
      DecodeBlockIsSetFields(block, m, upd, words[..n], words[n..], tail);
      DecodeBlocksIsSetFields(block + 1, masks[1..], SetFields(upd, here, words[..n]), words[n..], tail);
      SetFieldsAppend(upd, here, AllIndices(block + 1, masks[1..]), words[..n], words[n..]);
    }
  }

  lemma {:induction false} ReadMasksRoundTrip(masks: seq<uint32>, tail: seq<byte>)
    ensures ReadMasks(|masks|, Some(PutWords(masks, tail))) == (masks, Some(tail))
  {
    if masks != [] {
      WordSizes();
      WordRoundTrip(4, masks[0], PutWords(masks[1..], tail));
      ReadMasksRoundTrip(masks[1..], tail);
      assert masks == [masks[0]] + masks[1..];
    }
  }

  lemma ByteRoundTrip(b: byte, tail: seq<byte>)
    ensures U8(Some([b] + tail)) == (b, Some(tail))
  {
    WordSizes();
    WordRoundTrip(1, b, tail);
    assert ToLE(1, b) == [b] + ToLE(0, b / 256);
  }

  lemma CountAllIndices(fs: FieldSet)
    requires fs.WellFormed()
    ensures |AllIndices(0, fs.masks)| == |fs.words|
  {
    DecodeBlocksIsSetFields(0, fs.masks, NO_STATS, fs.words, []);
  }

  lemma ValuesRoundTrip(fs: FieldSet, isTarget: bool, upd: UnitStats, tail: seq<byte>)
    requires fs.WellFormed()
    ensures |AllIndices(0, fs.masks)| == |fs.words|
    ensures ParseValues(isTarget, upd, Some(PutValues(fs, tail))) ==
            (if isTarget then SetFields(upd, AllIndices(0, fs.masks), fs.words) else upd, Some(tail))
  {
    var st := Some(PutValues(fs, tail));
    ByteRoundTrip(|fs.masks|, PutWords(fs.masks, PutWords(fs.words, tail)));
    ReadMasksRoundTrip(fs.masks, PutWords(fs.words, tail));
    DecodeBlocksIsSetFields(0, fs.masks, upd, fs.words, tail);
    SkipRefinesDecode(upd, st);
  }

  // ----- a field is the word at the rank of its bit -----

  /** What the update says about a tracked field. */
  function Field(upd: UnitStats, idx: nat): Option<int>
    requires Tracked(idx)
  {
    if idx == FIELD_BYTES0 then upd.powerType
    else if idx == FIELD_HEALTH then upd.curHP
    else if idx == FIELD_MAX_HEALTH then upd.maxHP
    else if idx == FIELD_LEVEL then upd.level
    else if idx < FIELD_MAX_HEALTH then
      if idx - FIELD_POWER1 in upd.powers then Some(upd.powers[idx - FIELD_POWER1]) else None
    else
      if idx - FIELD_MAX_POWER1 in upd.maxPowers then Some(upd.maxPowers[idx - FIELD_MAX_POWER1]) else None
  }

  /** The power type is the top byte of its word; the other fields are whole words. */
  function Meaning(idx: nat, word: uint32): nat {
    if idx == FIELD_BYTES0 then word / 0x100_0000 else word
  }

  /** The number of set bits of m below bit b. */
  function Below(m: nat, b: nat): nat {
    if b == 0 then 0 else m % 2 + Below(m / 2, b - 1)
  }

  predicate Sent(masks: seq<uint32>, idx: nat) {
    idx / 32 < |masks| && Bit(masks[idx / 32], idx % 32)
  }

  /** The number of set bits before bit idx in the whole mask. */
  function Rank(masks: seq<uint32>, idx: nat): nat
    requires idx / 32 < |masks|
  {
    CountBits(masks[..idx / 32]) + Below(masks[idx / 32], idx % 32)
  }

  lemma SetFieldSets(upd: UnitStats, i: nat, v: uint32, idx: nat)
    requires Tracked(idx)
    ensures Field(SetField(upd, i, v), idx) == if i == idx then Some(Meaning(idx, v)) else Field(upd, idx)
  {
  }

  lemma {:induction false} HighBitsAreClear(m: nat, n: nat, b: nat)
    requires m < Pow2(n) && b >= n
    ensures !Bit(m, b)
  {
    if n == 0 {
      ZeroHasNoBits(b);
    } else {
      HighBitsAreClear(m / 2, n - 1, b - 1);
    }
  }

  /** What the set bits of m make of the field, whose bit is b. */
  ghost predicate MaskFieldIs(m: nat, b: int, idx: nat, words: seq<uint32>, upd: UnitStats, r: UnitStats)
    requires Tracked(idx)
  {
    if b >= 0 && Bit(m, b)
    then Below(m, b) < |words| && Field(r, idx) == Some(Meaning(idx, words[Below(m, b)]))
    else Field(r, idx) == Field(upd, idx)
  }

  lemma MaskFieldStep(m: nat, b: int, idx: nat, words: seq<uint32>, upd: UnitStats, upd': UnitStats, r: UnitStats)
    requires Tracked(idx)
    requires MaskFieldIs(m / 2, b - 1, idx, words[if m % 2 == 1 && |words| > 0 then 1 else 0..], upd', r)
    requires m % 2 == 1 ==> |words| > 0
    requires Field(upd', idx) ==
             if m % 2 == 1 && b == 0 then Some(Meaning(idx, words[0])) else Field(upd, idx)
    ensures MaskFieldIs(m, b, idx, words, upd, r)
  {
    if b > 0 {
      assert Bit(m, b) == Bit(m / 2, b - 1) && Below(m, b) == m % 2 + Below(m / 2, b - 1);
    }
  }

  lemma {:induction false} MaskFieldAtRank(base: nat, m: nat, upd: UnitStats, words: seq<uint32>, idx: nat)
    requires Tracked(idx) && |Indices(base, m)| == |words|
    ensures MaskFieldIs(m, idx - base, idx, words, upd, SetFields(upd, Indices(base, m), words))
    decreases m
  {
    if m == 0 {
      if idx >= base {
        ZeroHasNoBits(idx - base);
      }
    } else {
      var rest, upd', words' := Indices(base + 1, m / 2), upd, words;
      if m % 2 == 1 {
        upd', words' := SetField(upd, base, words[0]), words[1..];
        SetFieldSets(upd, base, words[0], idx);
        SetFieldsCons(upd, base, rest, words);
      } else {
        assert Indices(base, m) == rest && words[0..] == words;
      }
      MaskFieldAtRank(base + 1, m / 2, upd', words', idx);
      MaskFieldStep(m, idx - base, idx, words, upd, upd', SetFields(upd', rest, words'));
    }
  }

  lemma {:induction false} Pow2Sum(a: nat, b: nat)
    ensures Pow2(a + b) == Pow2(a) * Pow2(b)
  {
    if a > 0 {
      Pow2Sum(a - 1, b);
    }
  }

  lemma Pow2Of32()
    ensures Pow2(32) == 0x1_0000_0000
  {
    assert Pow2(8) == 0x100;
    Pow2Sum(8, 8);
    Pow2Sum(16, 16);
  }

  /** A mask word of another block does not touch the field. */
  lemma OtherMaskChangesNothing(block: nat, m: uint32, upd: UnitStats, words: seq<uint32>, idx: nat)
    requires Tracked(idx) && |Indices(block * 32, m)| == |words| && idx / 32 != block
    ensures Field(SetFields(upd, Indices(block * 32, m), words), idx) == Field(upd, idx)
  {
    MaskFieldAtRank(block * 32, m, upd, words, idx);
    if idx >= block * 32 {
      Pow2Of32();
      HighBitsAreClear(m, 32, idx - block * 32);
    }
  }

  /** What the masks, of which the i-th holds bit idx, make of the field. */
  ghost predicate FieldIs(masks: seq<uint32>, i: int, idx: nat, words: seq<uint32>, upd: UnitStats, r: UnitStats)
    requires Tracked(idx)
  {
    if 0 <= i < |masks| && Bit(masks[i], idx % 32)
    then
      var rank := CountBits(masks[..i]) + Below(masks[i], idx % 32);
      rank < |words| && Field(r, idx) == Some(Meaning(idx, words[rank]))
    else Field(r, idx) == Field(upd, idx)
  }

  lemma FieldIsInTail(
    masks: seq<uint32>, i: int, idx: nat, words: seq<uint32>, upd: UnitStats, upd': UnitStats, r: UnitStats)
    requires Tracked(idx) && masks != [] && i != 0 && OnesCount(masks[0]) <= |words|
    requires FieldIs(masks[1..], i - 1, idx, words[OnesCount(masks[0])..], upd', r) && Field(upd', idx) == Field(upd, idx)
    ensures FieldIs(masks, i, idx, words, upd, r)
  {
    if 0 < i < |masks| {
      assert masks[..i][0] == masks[0] && masks[..i][1..] == masks[1..][..i - 1];
      assert masks[1..][i - 1] == masks[i];
    }
  }

  lemma {:induction false} BlocksFieldAtRank(
    block: nat, masks: seq<uint32>, upd: UnitStats, words: seq<uint32>, idx: nat)
    requires Tracked(idx) && |AllIndices(block, masks)| == |words|
    ensures FieldIs(masks, idx / 32 - block, idx, words, upd, SetFields(upd, AllIndices(block, masks), words))
    decreases masks
  {
    if masks != [] {
      var m, rest, here := masks[0], AllIndices(block + 1, masks[1..]), Indices(block * 32, masks[0]);
      var n, i := |here|, idx / 32 - block;
      var mine, others := words[..n], words[n..];
      assert words == mine + others;
      var upd' := SetFields(upd, here, mine);
      SetFieldsAppend(upd, here, rest, mine, others);
      CountIndices(block * 32, m);
      BlocksFieldAtRank(block + 1, masks[1..], upd', others, idx);
      if i == 0 {
        MaskFieldAtRank(block * 32, m, upd, mine, idx);
        assert idx - block * 32 == idx % 32 && masks[..0] == [];
      } else {
        OtherMaskChangesNothing(block, m, upd, mine, idx);
        FieldIsInTail(masks, i, idx, words, upd, upd', SetFields(upd', rest, others));
      }
    }
  }

  /** A tracked field is taken from the word at the rank of its bit, and is left alone when its bit is clear. */
  lemma FieldAtRank(fs: FieldSet, upd: UnitStats, idx: nat)
    requires fs.WellFormed() && Tracked(idx)
    ensures |AllIndices(0, fs.masks)| == |fs.words|
    ensures var r := SetFields(upd, AllIndices(0, fs.masks), fs.words);
            if Sent(fs.masks, idx)
            then Rank(fs.masks, idx) < |fs.words| &&
                 Field(r, idx) == Some(Meaning(idx, fs.words[Rank(fs.masks, idx)]))
            else Field(r, idx) == Field(upd, idx)
  {
    CountAllIndices(fs);
    BlocksFieldAtRank(0, fs.masks, upd, fs.words, idx);
  }

  // ----- movement blocks: each part is present when its flag is set; flags are given by bit number -----

  function Opt(present: bool, part: seq<byte>, tail: seq<byte>): seq<byte> {
    if present then part + tail else tail
  }

  function OptGuid(present: bool, guid: uint64, tail: seq<byte>): seq<byte> {
    if present then PackGuid(guid) + tail else tail
  }

  datatype Spline = Spline(flags: uint32, facing: seq<byte>, timing: seq<byte>, nodes: uint32, path: seq<byte>, end: seq<byte>)
  {
    /** An angle, else a target, else a point; the first flag set decides. */
    predicate Faces() {
      && (Bit(flags, 17) ==> |facing| == 4)
      && (!Bit(flags, 17) && Bit(flags, 16) ==> |facing| == 8)
      && (!Bit(flags, 17) && !Bit(flags, 16) ==>
            |facing| == if Bit(flags, 15) then 12 else 0)
    }

    predicate WellFormed() {
      Faces() && |timing| == 28 && |path| == nodes * 12 && |end| == 13
    }

    function Put(tail: seq<byte>): seq<byte> {
      ToLE(4, flags) + (facing + (timing + (ToLE(4, nodes) + (path + (end + tail)))))
    }
  }

  datatype Living = Living(
    flags: uint32, flags2: uint16, position: seq<byte>, vessel: uint64, seat: seq<byte>, time2: seq<byte>,
    pitch: seq<byte>, fallTime: seq<byte>, jump: seq<byte>, elevation: seq<byte>, speeds: seq<byte>, spline: Spline)
  {
    predicate WellFormed() {
      && |position| == 20 && |seat| == 21 && |time2| == 4 && |pitch| == 4 && |fallTime| == 4
      && |jump| == 16 && |elevation| == 4 && |speeds| == 36 && spline.WellFormed()
    }

    function Put(tail: seq<byte>): seq<byte> {
      ToLE(4, flags) + (ToLE(2, flags2) + (position + PutTransport(PutFlight(tail))))
    }

    function PutTransport(tail: seq<byte>): seq<byte> {
      var transport := Bit(flags, 9);
      OptGuid(transport, vessel, Opt(transport, seat, Opt(transport && Bit(flags2, 10), time2, tail)))
    }

    /** Swimmers and flyers have a pitch, and so has whoever may always pitch. */
    predicate Tilts() {
      Bit(flags2, 5) || Bit(flags, 21) || Bit(flags, 25)
    }

    function PutFlight(tail: seq<byte>): seq<byte> {
      Opt(Tilts(), pitch, fallTime + Opt(Bit(flags, 12), jump,
        Opt(Bit(flags, 26), elevation, speeds + PutSpline(tail))))
    }

    function PutSpline(tail: seq<byte>): seq<byte> {
      if Bit(flags, 27) then spline.Put(tail) else tail
    }
  }

  datatype Movement = Movement(
    flags: uint16, living: Living, carrier: uint64, position: seq<byte>, stationary: seq<byte>,
    unknown: seq<byte>, lowGuid: seq<byte>, target: uint64, transportTime: seq<byte>, vehicle: seq<byte>,
    rotation: seq<byte>)
  {
    predicate WellFormed() {
      && living.WellFormed() && |position| == 32 && |stationary| == 16 && |unknown| == 4 && |lowGuid| == 4
      && |transportTime| == 4 && |vehicle| == 8 && |rotation| == 8
    }

    function Put(tail: seq<byte>): seq<byte> {
      ToLE(2, flags) + PutPlace(PutLabels(PutRide(tail)))
    }

    function PutPlace(tail: seq<byte>): seq<byte> {
      if Bit(flags, 5) then living.Put(tail)
      else if Bit(flags, 8) then PackGuid(carrier) + (position + tail)
      else Opt(Bit(flags, 6), stationary, tail)
    }

    function PutLabels(tail: seq<byte>): seq<byte> {
      Opt(Bit(flags, 3), unknown, Opt(Bit(flags, 4), lowGuid,
        OptGuid(Bit(flags, 2), target, tail)))
    }

    function PutRide(tail: seq<byte>): seq<byte> {
      Opt(Bit(flags, 1), transportTime, Opt(Bit(flags, 7), vehicle,
        Opt(Bit(flags, 9), rotation, tail)))
    }
  }

  // ----- the parser's flag constants, as bit numbers -----

  lemma SplineBits(f: nat)
    ensures Has(f, SPLINE_FINAL_POINT) <==> Bit(f, 15)
    ensures Has(f, SPLINE_FINAL_TARGET) <==> Bit(f, 16)
    ensures Has(f, SPLINE_FINAL_ANGLE) <==> Bit(f, 17)
  {
    assert Pow2(15) == SPLINE_FINAL_POINT && Pow2(16) == SPLINE_FINAL_TARGET && Pow2(17) == SPLINE_FINAL_ANGLE;
    HasBit(f, 15);
    HasBit(f, 16);
    HasBit(f, 17);
  }

  lemma MoveBits(f: nat)
    ensures Has(f, MOVE_ON_TRANSPORT) <==> Bit(f, 9)
    ensures Has(f, MOVE_FALLING) <==> Bit(f, 12)
    ensures Has(f, MOVE_SWIMMING_OR_FLYING) <==> Bit(f, 21) || Bit(f, 25)
    ensures Has(f, MOVE_SPLINE_ELEVATION) <==> Bit(f, 26)
    ensures Has(f, MOVE_SPLINE_ENABLED) <==> Bit(f, 27)
  {
    assert Pow2(9) == MOVE_ON_TRANSPORT && Pow2(12) == MOVE_FALLING;
    assert Pow2(21) + Pow2(25) == MOVE_SWIMMING_OR_FLYING;
    assert Pow2(26) == MOVE_SPLINE_ELEVATION && Pow2(27) == MOVE_SPLINE_ENABLED;
    HasBit(f, 9);
    HasBit(f, 12);
    HasEitherBit(f, 21, 25);
    HasBit(f, 26);
    HasBit(f, 27);
  }

  lemma Move2Bits(f: nat)
    ensures Has(f, MOVE2_ALWAYS_ALLOW_PITCHING) <==> Bit(f, 5)
    ensures Has(f, MOVE2_INTERPOLATED) <==> Bit(f, 10)
  {
    assert Pow2(5) == MOVE2_ALWAYS_ALLOW_PITCHING && Pow2(10) == MOVE2_INTERPOLATED;
    HasBit(f, 5);
    HasBit(f, 10);
  }

  lemma UpdateBits(f: nat)
    ensures Has(f, FLAG_TRANSPORT) <==> Bit(f, 1)
    ensures Has(f, FLAG_HAS_TARGET) <==> Bit(f, 2)
    ensures Has(f, FLAG_UNKNOWN) <==> Bit(f, 3)
    ensures Has(f, FLAG_LOW_GUID) <==> Bit(f, 4)
    ensures Has(f, FLAG_LIVING) <==> Bit(f, 5)
    ensures Has(f, FLAG_STATIONARY) <==> Bit(f, 6)
    ensures Has(f, FLAG_VEHICLE) <==> Bit(f, 7)
    ensures Has(f, FLAG_POSITION) <==> Bit(f, 8)
    ensures Has(f, FLAG_ROTATION) <==> Bit(f, 9)
  {
    assert Pow2(1) == FLAG_TRANSPORT && Pow2(2) == FLAG_HAS_TARGET && Pow2(3) == FLAG_UNKNOWN;
    assert Pow2(4) == FLAG_LOW_GUID && Pow2(5) == FLAG_LIVING && Pow2(6) == FLAG_STATIONARY;
    assert Pow2(7) == FLAG_VEHICLE && Pow2(8) == FLAG_POSITION && Pow2(9) == FLAG_ROTATION;
    HasBit(f, 1);
    HasBit(f, 2);
    HasBit(f, 3);
    HasBit(f, 4);
    HasBit(f, 5);
    HasBit(f, 6);
    HasBit(f, 7);
    HasBit(f, 8);
    HasBit(f, 9);
  }

  lemma SkipOpt(present: bool, part: seq<byte>, tail: seq<byte>)
    ensures SkipIf(present, |part|, Some(Opt(present, part, tail))) == Some(tail)
  {
    if present {
      SkipOver(part, tail);
    }
  }

  lemma SkipOptGuid(present: bool, guid: uint64, tail: seq<byte>)
    ensures SkipGuidIf(present, Some(OptGuid(present, guid, tail))) == Some(tail)
  {
    if present {
      PackedGuidRoundTrip(guid, tail);
    }
  }

  lemma U32RoundTrip(v: uint32, tail: seq<byte>)
    ensures U32(Some(ToLE(4, v) + tail)) == (v, Some(tail))
  {
    WordSizes();
    WordRoundTrip(4, v, tail);
  }

  lemma U16RoundTrip(v: uint16, tail: seq<byte>)
    ensures U16(Some(ToLE(2, v) + tail)) == (v, Some(tail))
  {
    WordSizes();
    WordRoundTrip(2, v, tail);
  }

  lemma SkipsSpline(s: Spline, tail: seq<byte>)
    requires s.WellFormed()
    ensures SkipSpline(Some(s.Put(tail))) == Some(tail)
  {
    SplineBits(s.flags);
    var t1 := s.end + tail;
    var t2 := s.path + t1;
    var t3 := ToLE(4, s.nodes) + t2;
    var t4 := s.timing + t3;
    U32RoundTrip(s.flags, s.facing + t4);
    SkipOver(s.facing, t4);
    SkipOver(s.timing, t3);
    U32RoundTrip(s.nodes, t2);
    SkipOver(s.path, t1);
    SkipOver(s.end, tail);
  }

  lemma SkipsTransport(l: Living, tail: seq<byte>)
    requires l.WellFormed()
    ensures SkipTransport(l.flags, l.flags2, Some(l.PutTransport(tail))) == Some(tail)
  {
    MoveBits(l.flags);
    Move2Bits(l.flags2);
    var transport := Bit(l.flags, 9);
    var t1 := Opt(transport && Bit(l.flags2, 10), l.time2, tail);
    SkipOptGuid(transport, l.vessel, Opt(transport, l.seat, t1));
    SkipOpt(transport, l.seat, t1);
    SkipOpt(transport && Bit(l.flags2, 10), l.time2, tail);
  }

  lemma SkipsFlight(l: Living, tail: seq<byte>)
    requires l.WellFormed()
    ensures SkipFlight(l.flags, l.flags2, Some(l.PutFlight(tail))) == Some(l.PutSpline(tail))
  {
    MoveBits(l.flags);
    Move2Bits(l.flags2);
    var t1 := l.speeds + l.PutSpline(tail);
    var t2 := Opt(Bit(l.flags, 26), l.elevation, t1);
    var t3 := Opt(Bit(l.flags, 12), l.jump, t2);
    SkipOpt(l.Tilts(), l.pitch, l.fallTime + t3);
    SkipOver(l.fallTime, t3);
    SkipOpt(Bit(l.flags, 12), l.jump, t2);
    SkipOpt(Bit(l.flags, 26), l.elevation, t1);
    SkipOver(l.speeds, l.PutSpline(tail));
  }

  lemma SkipsLiving(l: Living, tail: seq<byte>)
    requires l.WellFormed()
    ensures SkipLiving(Some(l.Put(tail))) == Some(tail)
  {
    MoveBits(l.flags);
    var t1 := l.PutFlight(tail);
    var t2 := l.position + l.PutTransport(t1);
    U32RoundTrip(l.flags, ToLE(2, l.flags2) + t2);
    U16RoundTrip(l.flags2, t2);
    SkipOver(l.position, l.PutTransport(t1));
    SkipsTransport(l, t1);
    SkipsFlight(l, tail);
    SkipsSpline(l.spline, tail);
  }

  lemma SkipsPlace(m: Movement, tail: seq<byte>)
    requires m.WellFormed()
    ensures SkipPlace(m.flags, Some(m.PutPlace(tail))) == Some(tail)
  {
    UpdateBits(m.flags);
    SkipsLiving(m.living, tail);
    PackedGuidRoundTrip(m.carrier, m.position + tail);
    SkipOver(m.position, tail);
    SkipOpt(Bit(m.flags, 6), m.stationary, tail);
  }

  lemma SkipsLabels(m: Movement, tail: seq<byte>)
    requires m.WellFormed()
    ensures SkipLabels(m.flags, Some(m.PutLabels(tail))) == Some(tail)
  {
    UpdateBits(m.flags);
    var t1 := OptGuid(Bit(m.flags, 2), m.target, tail);
    SkipOpt(Bit(m.flags, 3), m.unknown, Opt(Bit(m.flags, 4), m.lowGuid, t1));
    SkipOpt(Bit(m.flags, 4), m.lowGuid, t1);
    SkipOptGuid(Bit(m.flags, 2), m.target, tail);
  }

  lemma SkipsRide(m: Movement, tail: seq<byte>)
    requires m.WellFormed()
    ensures SkipRide(m.flags, Some(m.PutRide(tail))) == Some(tail)
  {
    UpdateBits(m.flags);
    var t1 := Opt(Bit(m.flags, 9), m.rotation, tail);
    SkipOpt(Bit(m.flags, 1), m.transportTime, Opt(Bit(m.flags, 7), m.vehicle, t1));
    SkipOpt(Bit(m.flags, 7), m.vehicle, t1);
    SkipOpt(Bit(m.flags, 9), m.rotation, tail);
  }

  /** Whatever the flags, skipping a movement block stops exactly behind it. */
  lemma SkipsMovement(m: Movement, tail: seq<byte>)
    requires m.WellFormed()
    ensures SkipMovement(Some(m.Put(tail))) == Some(tail)
  {
    var t1 := m.PutRide(tail);
    var t2 := m.PutLabels(t1);
    U16RoundTrip(m.flags, m.PutPlace(t2));
    SkipsPlace(m, t2);
    SkipsLabels(m, t1);
    SkipsRide(m, tail);
  }

  // ----- messages -----

  datatype Block =
    | Values(guid: uint64, fields: FieldSet)
    | Moved(guid: uint64, movement: Movement)
    | Created(second: bool, guid: uint64, objectType: uint8, movement: Movement, fields: FieldSet)
    | Gone(near: bool, guids: seq<uint64>)
  {
    predicate WellFormed() {
      match this
      case Values(_, fs) => fs.WellFormed()
      case Moved(_, m) => m.WellFormed()
      case Created(_, _, _, m, fs) => m.WellFormed() && fs.WellFormed()
      case Gone(_, guids) => |guids| < 0x1_0000_0000
    }

    function TypeByte(): byte {
      match this
      case Values(_, _) => 0
      case Moved(_, _) => 1
      case Created(second, _, _, _, _) => if second then 3 else 2
      case Gone(near, _) => if near then 5 else 4
    }

    function PutBody(tail: seq<byte>): seq<byte>
      requires WellFormed()
    {
      match this
      case Values(g, fs) => PackGuid(g) + PutValues(fs, tail)
      case Moved(g, m) => PackGuid(g) + m.Put(tail)
      case Created(_, g, t, m, fs) => PackGuid(g) + ([t] + m.Put(PutValues(fs, tail)))
      case Gone(_, guids) => ToLE(4, |guids|) + PutGuids(guids, tail)
    }

    /** The field set this block sends for the given object, if any. */
    function SentFor(g: uint64): Option<FieldSet> {
      match this
      case Values(h, fs) => if h == g then Some(fs) else None
      case Created(_, h, _, _, fs) => if h == g then Some(fs) else None
      case _ => None
    }
  }

  function PutGuids(guids: seq<uint64>, tail: seq<byte>): seq<byte> {
    if guids == [] then tail else PackGuid(guids[0]) + PutGuids(guids[1..], tail)
  }

  predicate AllWellFormed(blocks: seq<Block>) {
    forall b :: b in blocks ==> b.WellFormed()
  }

  function PutBlocks(blocks: seq<Block>, tail: seq<byte>): seq<byte>
    requires AllWellFormed(blocks)
  {
    if blocks == [] then tail else [blocks[0].TypeByte()] + blocks[0].PutBody(PutBlocks(blocks[1..], tail))
  }

  function PutMessage(blocks: seq<Block>, tail: seq<byte>): seq<byte>
    requires AllWellFormed(blocks)
  {
    ToLE(4, |blocks|) + PutBlocks(blocks, tail)
  }

  /** What one block says about the object. */
  function Effect(b: Block, guid: uint64, upd: UnitStats): UnitStats
    requires b.WellFormed()
  {
    match b.SentFor(guid)
    case None => upd
    case Some(fs) => CountAllIndices(fs); SetFields(upd, AllIndices(0, fs.masks), fs.words)
  }

  /** What the whole message says: the blocks in order, later words overwriting earlier ones. */
  function Effects(blocks: seq<Block>, guid: uint64, upd: UnitStats): UnitStats
    requires AllWellFormed(blocks)
    decreases blocks
  {
    if blocks == [] then upd else Effects(blocks[1..], guid, Effect(blocks[0], guid, upd))
  }

  lemma {:induction false} SkipsGuids(guids: seq<uint64>, tail: seq<byte>)
    ensures SkipGuids(|guids|, Some(PutGuids(guids, tail))) == Some(tail)
  {
    if guids != [] {
      PackedGuidRoundTrip(guids[0], PutGuids(guids[1..], tail));
      SkipsGuids(guids[1..], tail);
    }
  }

  lemma BlockRoundTrip(b: Block, guid: uint64, upd: UnitStats, tail: seq<byte>)
    requires b.WellFormed()
    ensures ParseBlock(b.TypeByte(), guid, upd, Some(b.PutBody(tail))) == (Effect(b, guid, upd), Some(tail))
  {
    match b
    case Values(g, fs) =>
      PackedGuidRoundTrip(g, PutValues(fs, tail));
      ValuesRoundTrip(fs, g == guid, upd, tail);
    case Moved(g, m) =>
      PackedGuidRoundTrip(g, m.Put(tail));
      SkipsMovement(m, tail);
    case Created(_, g, t, m, fs) =>
      PackedGuidRoundTrip(g, [t] + m.Put(PutValues(fs, tail)));
      ByteRoundTrip(t, m.Put(PutValues(fs, tail)));
      SkipsMovement(m, PutValues(fs, tail));
      ValuesRoundTrip(fs, g == guid, upd, tail);
    case Gone(_, guids) =>
      U32RoundTrip(|guids|, PutGuids(guids, tail));
      SkipsGuids(guids, tail);
  }

  lemma OneBlock(n: nat, i: nat, b: Block, guid: uint64, upd: UnitStats, rest: seq<byte>)
    requires b.WellFormed() && i < n
    ensures ParseBlocks(n, i, guid, upd, Some([b.TypeByte()] + b.PutBody(rest))) ==
            ParseBlocks(n, i + 1, guid, Effect(b, guid, upd), Some(rest))
  {
    ByteRoundTrip(b.TypeByte(), b.PutBody(rest));
    BlockRoundTrip(b, guid, upd, rest);
  }

  lemma {:induction false} BlocksRoundTrip(
    n: nat, i: nat, blocks: seq<Block>, guid: uint64, upd: UnitStats, tail: seq<byte>)
    requires AllWellFormed(blocks) && i + |blocks| == n
    ensures ParseBlocks(n, i, guid, upd, Some(PutBlocks(blocks, tail))) ==
            (Effects(blocks, guid, upd), Finished(tail))
    decreases blocks
  {
    if blocks != [] {
      OneBlock(n, i, blocks[0], guid, upd, PutBlocks(blocks[1..], tail));
      BlocksRoundTrip(n, i + 1, blocks[1..], guid, Effect(blocks[0], guid, upd), tail);
    }
  }

  /** The parser reads every well-formed message, stops exactly behind it and returns what the message says. */
  lemma MessageRoundTrip(blocks: seq<Block>, guid: uint64, tail: seq<byte>)
    requires AllWellFormed(blocks) && |blocks| < 0x1_0000_0000
    ensures Parse(PutMessage(blocks, tail), guid) == (Effects(blocks, guid, NO_STATS), Finished(tail))
  {
    U32RoundTrip(|blocks|, PutBlocks(blocks, tail));
    BlocksRoundTrip(|blocks|, 0, blocks, guid, NO_STATS, tail);
  }

  lemma UnknownTypeStops(n: nat, i: nat, t: byte, guid: uint64, upd: UnitStats, tail: seq<byte>)
    requires i < n && t > 5
    ensures ParseBlocks(n, i, guid, upd, Some([t] + tail)) == (upd, UnknownType(t, i))
  {
    ByteRoundTrip(t, tail);
  }

  /** After any well-formed blocks, a type byte above 5 is reported with the number of its block, and the rest is not read. */
  lemma {:induction false} UnknownTypeIsReported(
    n: nat, i: nat, k: nat, blocks: seq<Block>, t: byte, guid: uint64, upd: UnitStats, tail: seq<byte>)
    requires AllWellFormed(blocks) && i + |blocks| == k < n && t > 5
    ensures ParseBlocks(n, i, guid, upd, Some(PutBlocks(blocks, [t] + tail))) ==
            (Effects(blocks, guid, upd), UnknownType(t, k))
    decreases blocks
  {
    var rest := [t] + tail;
    if blocks == [] {
      UnknownTypeStops(n, i, t, guid, upd, tail);
    } else {
      OneBlock(n, i, blocks[0], guid, upd, PutBlocks(blocks[1..], rest));
      UnknownTypeIsReported(n, i + 1, k, blocks[1..], t, guid, Effect(blocks[0], guid, upd), tail);
    }
  }

  lemma EmptyStreamFails(n: nat, i: nat, guid: uint64, upd: UnitStats)
    requires i < n
    ensures ParseBlocks(n, i, guid, upd, Some([])).1 == Truncated
  {
    assert U8(Some([])) == (0, None);
    assert ParseBlock(0, guid, upd, None).1 == None by {
      FailuresStick(1, []);
    }
  }

  /** A message that claims more blocks than it holds is truncated; what came before counts in the partial result. */
  lemma {:induction false} MissingBlocksAreReported(
    n: nat, i: nat, blocks: seq<Block>, guid: uint64, upd: UnitStats)
    requires AllWellFormed(blocks) && i + |blocks| < n
    ensures ParseBlocks(n, i, guid, upd, Some(PutBlocks(blocks, []))).1 == Truncated
    decreases blocks
  {
    if blocks == [] {
      EmptyStreamFails(n, i, guid, upd);
    } else {
      OneBlock(n, i, blocks[0], guid, upd, PutBlocks(blocks[1..], []));
      MissingBlocksAreReported(n, i + 1, blocks[1..], guid, Effect(blocks[0], guid, upd));
    }
  }

  /** Whether some block sends the field for the object. */
  predicate SentBy(b: Block, guid: uint64, idx: nat) {
    b.SentFor(guid).Some? && Sent(b.SentFor(guid).value.masks, idx)
  }

  /** blocks[k] is the last block that sends the field. */
  ghost predicate LastSender(blocks: seq<Block>, k: nat, guid: uint64, idx: nat) {
    && k < |blocks| && SentBy(blocks[k], guid, idx)
    && forall j :: k < j < |blocks| ==> !SentBy(blocks[j], guid, idx)
  }

  lemma {:induction false} UnsentFieldIsKept(blocks: seq<Block>, guid: uint64, upd: UnitStats, idx: nat)
    requires AllWellFormed(blocks) && Tracked(idx)
    requires forall b :: b in blocks ==> !SentBy(b, guid, idx)
    ensures Field(Effects(blocks, guid, upd), idx) == Field(upd, idx)
    decreases blocks
  {
    if blocks != [] {
      var b, rest := blocks[0], blocks[1..];
      assert b in blocks && forall c :: c in rest ==> c in blocks;
      if b.SentFor(guid).Some? {
        FieldAtRank(b.SentFor(guid).value, upd, idx);
      }
      UnsentFieldIsKept(rest, guid, Effect(b, guid, upd), idx);
    }
  }

  /** Last write wins: a field of the result is the word of the last block that sends it, at the rank of its bit. */
  lemma {:induction false} LastWriteWins(blocks: seq<Block>, k: nat, guid: uint64, upd: UnitStats, idx: nat)
    requires AllWellFormed(blocks) && Tracked(idx) && LastSender(blocks, k, guid, idx)
    ensures var fs := blocks[k].SentFor(guid).value;
            Rank(fs.masks, idx) < |fs.words| &&
            Field(Effects(blocks, guid, upd), idx) == Some(Meaning(idx, fs.words[Rank(fs.masks, idx)]))
    decreases blocks
  {
    var b, rest := blocks[0], blocks[1..];
    assert forall j :: 0 <= j < |rest| ==> rest[j] == blocks[j + 1];
    assert b in blocks;
    if k == 0 {
      FieldAtRank(b.SentFor(guid).value, upd, idx);
      forall c | c in rest ensures !SentBy(c, guid, idx) {
        var j :| 0 <= j < |rest| && rest[j] == c;
        assert blocks[j + 1] == c;
      }
      UnsentFieldIsKept(rest, guid, Effect(b, guid, upd), idx);
    } else {
      LastWriteWins(rest, k - 1, guid, Effect(b, guid, upd), idx);
    }
  }
}
