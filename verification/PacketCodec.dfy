/**
 The packet reader and writer of the gateway (apps/gateway/packet/reader.go, writer.go).

 A reader is abstracted by what it still has to read: `Some(rest)`, or `None` once any read has failed.
 The sticky error of the source is the rule that every operation maps `None` to `None`.
 */
module PacketCodec {
  import opened Words

  type Stream = Option<seq<byte>>

  // ----- reading, as functions of the stream -----

  /** Uint8, Uint16, Uint32 and Uint64: n bytes, least significant first; 0 on failure. */
  function Word(n: nat, st: Stream): (r: (nat, Stream))
    ensures r.0 < Pow256(n)
  {
    if st.Some? && n <= |st.value| then (FromLE(st.value[..n]), Some(st.value[n..])) else (0, None)
  }

  function U8(st: Stream): (uint8, Stream) { WordSizes(); Word(1, st) }
  function U16(st: Stream): (uint16, Stream) { WordSizes(); Word(2, st) }
  function U32(st: Stream): (uint32, Stream) { WordSizes(); Word(4, st) }

  function SkipBytes(n: nat, st: Stream): Stream {
    if st.Some? && n <= |st.value| then Some(st.value[n..]) else None
  }

  /** The n bytes that mark announces, lowest first, a zero for each clear bit; and what follows them. */
  function Unpack(n: nat, mark: nat, s: seq<byte>): (r: Option<(seq<byte>, seq<byte>)>)
    ensures r.Some? ==> |r.value.0| == n && |r.value.1| <= |s|
  {
    if n == 0 then Some(([], s))
    else if mark % 2 == 1 && s == [] then None
    else
      var (low, rest) := if mark % 2 == 1 then (s[0], s[1..]) else (0, s);
      match Unpack(n - 1, mark / 2, rest)
      case None => None
      case Some((high, end)) => Some(([low] + high, end))
  }

  /** ReadGUID: a mark byte, then one byte for every set bit of the mark; 0 on failure. */
  function PackedGuid(st: Stream): (r: (uint64, Stream)) {
    WordSizes();
    if st.None? || st.value == [] then (0, None)
    else
      match Unpack(8, st.value[0], st.value[1..])
      case None => (0, None)
      case Some((bytes, rest)) => (FromLE(bytes), Some(rest))
  }

  /** The bytes before the first NUL; all of them when there is none. */
  function UntilNul(s: seq<byte>): (t: seq<byte>)
    ensures |t| <= |s| && t == s[..|t|] && 0 !in t
    ensures |t| < |s| ==> s[|t|] == 0
  {
    if s == [] || s[0] == 0 then [] else [s[0]] + UntilNul(s[1..])
  }

  /** String: reading past the last byte ends the string without an error. */
  function Text(st: Stream): (seq<byte>, Stream) {
    if st.None? then ([], None)
    else
      var t := UntilNul(st.value);
      (t, Some(if |t| < |st.value| then st.value[|t| + 1..] else []))
  }

  // ----- writing -----

  /** The mark byte of a packed GUID: bit i says that byte i is not zero. */
  function Marks(bytes: seq<byte>): nat {
    if bytes == [] then 0 else (if bytes[0] != 0 then 1 else 0) + 2 * Marks(bytes[1..])
  }

  function NonZero(bytes: seq<byte>): (s: seq<byte>)
    ensures |s| <= |bytes|
  {
    if bytes == [] then [] else (if bytes[0] != 0 then [bytes[0]] else []) + NonZero(bytes[1..])
  }

  lemma {:induction false} MarksFit(bytes: seq<byte>)
    ensures Marks(bytes) < Pow2(|bytes|)
  {
    if bytes != [] {
      MarksFit(bytes[1..]);
    }
  }

  function PackGuid(g: uint64): (s: seq<byte>)
    ensures 1 <= |s| <= 9
  {
    MarksFit(ToLE(8, g));
    assert Pow2(8) == 256;
    [Marks(ToLE(8, g))] + NonZero(ToLE(8, g))
  }

  // ----- the packed GUID round trip -----

  lemma {:induction false} UnpackUndoesPack(bytes: seq<byte>, tail: seq<byte>)
    ensures Unpack(|bytes|, Marks(bytes), NonZero(bytes) + tail) == Some((bytes, tail))
  {
    var s := NonZero(bytes) + tail;
    if bytes == [] {
      assert s == tail;
    } else {
      var rest := NonZero(bytes[1..]) + tail;
      UnpackUndoesPack(bytes[1..], tail);
      assert Marks(bytes) / 2 == Marks(bytes[1..]);
      if bytes[0] != 0 {
        assert s[1..] == rest;
      } else {
        assert s == rest;
      }
      assert bytes == [bytes[0]] + bytes[1..];
    }
  }

  lemma PackedGuidRoundTrip(g: uint64, tail: seq<byte>)
    ensures PackedGuid(Some(PackGuid(g) + tail)) == (g, Some(tail))
  {
    var bytes := ToLE(8, g);
    assert FromLE(bytes) == g by {
      WordSizes();
      LERoundTrip(8, g);
    }
    UnpackUndoesPack(bytes, tail);
    assert (PackGuid(g) + tail)[1..] == NonZero(bytes) + tail;
  }

  /** Bit i of the mark says whether byte i of the GUID is sent. */
  lemma {:induction false} MarkBits(bytes: seq<byte>, i: nat)
    requires i < |bytes|
    ensures Bit(Marks(bytes), i) <==> bytes[i] != 0
  {
    assert Marks(bytes) / 2 == Marks(bytes[1..]);
    if i > 0 {
      MarkBits(bytes[1..], i - 1);
    }
  }

  /** The mark announces as many bytes as there are nonzero ones. */
  lemma {:induction false} MarksCountBytes(bytes: seq<byte>)
    ensures OnesCount(Marks(bytes)) == |NonZero(bytes)|
  {
    if bytes != [] {
      MarksCountBytes(bytes[1..]);
      if bytes[0] != 0 {
        OnesCountOfOdd(Marks(bytes[1..]));
      } else {
        OnesCountOfEven(Marks(bytes[1..]));
      }
    }
  }

  lemma {:induction false} UnpackTakesEveryNonZero(n: nat, mark: nat, s: seq<byte>)
    requires Unpack(n, mark, s).Some?
    ensures var (bytes, rest) := Unpack(n, mark, s).value; |s| - |rest| >= |NonZero(bytes)|
  {
    if n > 0 {
      var rest := if mark % 2 == 1 then s[1..] else s;
      UnpackTakesEveryNonZero(n - 1, mark / 2, rest);
      var bytes := Unpack(n, mark, s).value.0;
      assert bytes[1..] == Unpack(n - 1, mark / 2, rest).value.0;
    }
  }

  /** No input that ReadGUID maps to g is shorter than the packed form of g. */
  lemma PackedGuidIsShortest(s: seq<byte>)
    requires PackedGuid(Some(s)).1.Some?
    ensures var (g, left) := PackedGuid(Some(s)); |s| - |left.value| >= |PackGuid(g)|
  {
    UnpackTakesEveryNonZero(8, s[0], s[1..]);
    ToLEOfFromLE(Unpack(8, s[0], s[1..]).value.0);
  }

  // ----- lists of typed fields -----

  datatype Kind = Unsigned(width: nat) | Signed(width: nat) | CString | Guid

  datatype Field =
    | FUnsigned(width: nat, word: nat)
    | FSigned(width: nat, number: int)
    | FString(text: seq<byte>)
    | FGuid(guid: uint64)
  {
    function KindOf(): Kind {
      match this
      case FUnsigned(w, _) => Unsigned(w)
      case FSigned(w, _) => Signed(w)
      case FString(_) => CString
      case FGuid(_) => Guid
    }

    /** The value fits its width, and strings hold no NUL. */
    predicate Fits() {
      match this
      case FUnsigned(w, v) => v < Pow256(w)
      case FSigned(w, v) => w > 0 && -(Pow256(w) / 2) <= v < Pow256(w) / 2
      case FString(t) => 0 !in t
      case FGuid(_) => true
    }

    function Encode(): seq<byte>
      requires Fits()
    {
      match this
      case FUnsigned(w, v) => ToLE(w, v)
      case FSigned(w, v) => ToLE(w, if v < 0 then v + Pow256(w) else v)
      case FString(t) => t + [0]
      case FGuid(g) => PackGuid(g)
    }
  }

  /** Two's complement: the signed number an n-byte word stands for. */
  function AsSigned(n: nat, v: nat): int {
    if v >= Pow256(n) / 2 then v - Pow256(n) else v
  }

  function ReadField(kind: Kind, st: Stream): (Field, Stream) {
    match kind
    case Unsigned(w) => var (v, rest) := Word(w, st); (FUnsigned(w, v), rest)
    case Signed(w) => var (v, rest) := Word(w, st); (FSigned(w, if rest.None? then 0 else AsSigned(w, v)), rest)
    case CString => var (t, rest) := Text(st); (FString(t), rest)
    case Guid => var (g, rest) := PackedGuid(st); (FGuid(g), rest)
  }

  function ReadFields(kinds: seq<Kind>, st: Stream): (seq<Field>, Stream) {
    if kinds == [] then ([], st)
    else
      var (field, rest) := ReadField(kinds[0], st);
      var (fields, end) := ReadFields(kinds[1..], rest);
      ([field] + fields, end)
  }

  function Kinds(fields: seq<Field>): seq<Kind> {
    if fields == [] then [] else [fields[0].KindOf()] + Kinds(fields[1..])
  }

  predicate AllFit(fields: seq<Field>) {
    forall f :: f in fields ==> f.Fits()
  }

  function EncodeFields(fields: seq<Field>): seq<byte>
    requires AllFit(fields)
  {
    if fields == [] then [] else fields[0].Encode() + EncodeFields(fields[1..])
  }

  lemma WordRoundTrip(n: nat, v: nat, tail: seq<byte>)
    requires v < Pow256(n)
    ensures Word(n, Some(ToLE(n, v) + tail)) == (v, Some(tail))
  {
    LERoundTrip(n, v);
    assert (ToLE(n, v) + tail)[..n] == ToLE(n, v);
    assert (ToLE(n, v) + tail)[n..] == tail;
  }

  lemma SkipNothing(st: Stream)
    ensures SkipBytes(0, st) == st
  {
    if st.Some? {
      assert st.value[0..] == st.value;
    }
  }

  lemma SkipOver(s: seq<byte>, tail: seq<byte>)
    ensures SkipBytes(|s|, Some(s + tail)) == Some(tail)
  {
    assert (s + tail)[|s|..] == tail;
  }

  lemma {:induction false} UntilNulIs(s: seq<byte>, t: seq<byte>)
    requires t <= s && 0 !in t && (|t| < |s| ==> s[|t|] == 0)
    ensures UntilNul(s) == t
  {
    if t != [] {
      UntilNulIs(s[1..], t[1..]);
    }
  }

  lemma FieldRoundTrip(f: Field, tail: seq<byte>)
    requires f.Fits()
    ensures ReadField(f.KindOf(), Some(f.Encode() + tail)) == (f, Some(tail))
  {
    match f
    case FUnsigned(w, v) => WordRoundTrip(w, v, tail);
    case FSigned(w, v) =>
      assert Pow256(w) == 256 * Pow256(w - 1);
      WordRoundTrip(w, if v < 0 then v + Pow256(w) else v, tail);
    case FString(t) =>
      UntilNulIs(t + [0] + tail, t);
      assert t + [0] + tail == (t + [0]) + tail;
      assert (t + [0] + tail)[|t| + 1..] == tail;
    case FGuid(g) => PackedGuidRoundTrip(g, tail);
  }

  lemma ReadFieldsCons(f: Field, kinds: seq<Kind>, fields: seq<Field>, here: seq<byte>, rest: seq<byte>, tail: seq<byte>)
    requires ReadField(f.KindOf(), Some(here + rest)) == (f, Some(rest))
    requires ReadFields(kinds, Some(rest)) == (fields, Some(tail))
    ensures ReadFields([f.KindOf()] + kinds, Some(here + rest)) == ([f] + fields, Some(tail))
  {
    assert ([f.KindOf()] + kinds)[1..] == kinds;
  }

  lemma EncodeFieldsCons(fields: seq<Field>, tail: seq<byte>)
    requires AllFit(fields) && fields != []
    ensures EncodeFields(fields) + tail == fields[0].Encode() + (EncodeFields(fields[1..]) + tail)
  {
  }

  /** Reading back, in order, what was written returns the same values and leaves exactly the tail. */
  lemma {:induction false} FieldsRoundTrip(fields: seq<Field>, tail: seq<byte>)
    requires AllFit(fields)
    ensures ReadFields(Kinds(fields), Some(EncodeFields(fields) + tail)) == (fields, Some(tail))
  {
    if fields == [] {
      assert EncodeFields(fields) + tail == tail;
    } else {
      var f, fs := fields[0], fields[1..];
      var here, rest, kinds := f.Encode(), EncodeFields(fs) + tail, Kinds(fs);
      FieldsRoundTrip(fs, tail);
      FieldRoundTrip(f, rest);
      ReadFieldsCons(f, kinds, fs, here, rest, tail);
      EncodeFieldsCons(fields, tail);
      assert fields == [f] + fs;
    }
  }

  /** A read past the end fails with zero, and so does every read after it; a string just ends with the input. */
  lemma FailuresStick(n: nat, s: seq<byte>)
    ensures n > |s| ==> Word(n, Some(s)) == (0, None) && SkipBytes(n, Some(s)) == None
    ensures Word(n, None) == (0, None) && SkipBytes(n, None) == None && PackedGuid(None) == (0, None)
    ensures Text(None) == ([], None) && PackedGuid(Some([])) == (0, None)
    ensures 0 !in s ==> Text(Some(s)) == (s, Some([]))
  {
    if 0 !in s {
      UntilNulIs(s, s);
    }
  }

  /** A packed GUID that announces more bytes than there are fails with zero. */
  lemma {:induction false} TruncatedGuidFails(n: nat, mark: nat, s: seq<byte>)
    requires mark < Pow2(n)
    ensures Unpack(n, mark, s).None? <==> |s| < OnesCount(mark)
    decreases n
  {
    if n > 0 {
      var rest := if mark % 2 == 1 && s != [] then s[1..] else s;
      TruncatedGuidFails(n - 1, mark / 2, rest);
      if mark == 0 {
        assert OnesCount(mark / 2) == 0;
      }
    }
  }

  // ----- the reader object -----

  datatype ReadError = EOF | UnexpectedEOF

  class Reader {
    const data: seq<byte>
    var pos: nat
    var err: Option<ReadError>
    /** Loop iterations spent by the code that drives this reader. */
    ghost var work: nat

    ghost predicate Valid()
      reads this
    {
      pos <= |data|
    }

    ghost function Left(): Stream
      requires Valid()
      reads this
    {
      if err.Some? then None else Some(data[pos..])
    }

    constructor (data: seq<byte>)
      ensures Valid() && this.data == data && pos == 0 && err == None && work == 0
      ensures Left() == Some(data)
    {
      this.data, pos, err, work := data, 0, None, 0;
    }

    /** Uint8 .. Uint64. A short read consumes what is left before it fails. */
    method Uint(n: nat) returns (v: nat)
      requires Valid() && n > 0
      modifies `pos, `err
      ensures Valid() && (v, Left()) == Word(n, old(Left()))
      ensures old(pos) <= pos && (old(err).Some? ==> pos == old(pos) && err == old(err))
      ensures old(err).None? && err.None? ==> pos == old(pos) + n
    {
      if err.Some? {
        return 0;
      }
      if |data| - pos < n {
        err := Some(if pos == |data| then EOF else UnexpectedEOF);
        pos := |data|;
        return 0;
      }
      v := FromLE(data[pos..pos + n]);
      assert data[pos..][..n] == data[pos..pos + n];
      assert data[pos..][n..] == data[pos + n..];
      pos := pos + n;
    }

    method Skip(n: nat)
      requires Valid()
      modifies `pos, `err
      ensures Valid() && Left() == SkipBytes(n, old(Left()))
      ensures old(pos) <= pos && (old(err).Some? ==> pos == old(pos) && err == old(err))
    {
      if err.Some? {
        return;
      }
      if |data| - pos < n {
        err := Some(UnexpectedEOF);
        return;
      }
      assert data[pos..][n..] == data[pos + n..];
      pos := pos + n;
    }

    method ReadGUID() returns (guid: uint64)
      requires Valid()
      modifies `pos, `err
      ensures Valid() && (guid, Left()) == PackedGuid(old(Left()))
      ensures old(pos) <= pos && (old(err).Some? ==> pos == old(pos) && err == old(err))
      ensures old(err).None? && err.None? ==> pos > old(pos)
    {
      if err.Some? {
        return 0;
      }
      if pos == |data| {
        err := Some(EOF);
        return 0;
      }
      var mark := data[pos];
      pos := pos + 1;
      assert data[pos - 1..][1..] == data[pos..];
      WordSizes();
      var bytes := ServeMarks(mark);
      guid := if err.Some? then 0 else FromLE(bytes);
    }

    /** The loop of ReadGUID; byte i of the source's guid is bytes[i] here. */
    method ServeMarks(mark: uint8) returns (bytes: seq<byte>)
      requires Valid() && err == None
      modifies `pos, `err
      ensures Valid() && old(pos) <= pos
      ensures match Unpack(8, mark, old(data[pos..]))
              case None => err.Some?
              case Some((want, rest)) => bytes == want && err == None && data[pos..] == rest
    {
      ghost var all := data[pos..];
      var i, m := 0, mark;
      bytes := [];
      UnpackStart(8, mark, all);
      while i < 8
        invariant 0 <= i == |bytes| <= 8 && old(pos) <= pos <= |data| && err == None && m >= 0
        invariant UnpackAgrees(8, mark, all, bytes, m, data[pos..])
      {
        var b := 0;
        ghost var left := data[pos..];
        if m % 2 == 1 { // mark & (1 << i)
          if pos == |data| {
            err := Some(EOF);
            return;
          }
          b := data[pos];
          pos := pos + 1;
          assert left[1..] == data[pos..];
        }
        UnpackStep(8, mark, all, bytes, m, left);
        bytes := bytes + [b];
        m := m / 2;
        i := i + 1;
      }
    }

    method String() returns (t: seq<byte>)
      requires Valid()
      modifies `pos
      ensures Valid() && (t, Left()) == Text(old(Left()))
      ensures old(pos) <= pos && (old(err).Some? ==> pos == old(pos))
    {
      t := [];
      if err.Some? {
        return;
      }
      while pos < |data|
        invariant old(pos) <= pos <= |data|
        invariant t == data[old(pos)..pos] && 0 !in t
        decreases |data| - pos
      {
        var d := data[pos];
        pos := pos + 1;
        if d == 0 {
          break;
        }
        t := t + [d];
      }
      ghost var s := old(data[pos..]);
      assert if |t| < |s| then s[|t| + 1..] == data[pos..] else data[pos..] == [];
      UntilNulIs(s, t);
    }
  }

  // The state of ReadGUID's loop: done holds the bytes read so far, m the marks still to serve, and finishing from
  // here gives what unpacking from the start gives.
  ghost predicate UnpackAgrees(n: nat, mark: nat, all: seq<byte>, done: seq<byte>, m: nat, left: seq<byte>)
    requires |done| <= n
  {
    Unpack(n, mark, all) ==
      match Unpack(n - |done|, m, left)
      case None => None
      case Some((high, rest)) => Some((done + high, rest))
  }

  lemma UnpackStart(n: nat, mark: nat, all: seq<byte>)
    ensures UnpackAgrees(n, mark, all, [], mark, all)
  {
    if Unpack(n, mark, all).Some? {
      var bytes := Unpack(n, mark, all).value.0;
      assert [] + bytes == bytes;
    }
  }

  lemma UnpackStep(n: nat, mark: nat, all: seq<byte>, done: seq<byte>, m: nat, left: seq<byte>)
    requires |done| < n && UnpackAgrees(n, mark, all, done, m, left)
    requires m % 2 == 0 || left != []
    ensures m % 2 == 0 ==> UnpackAgrees(n, mark, all, done + [0], m / 2, left)
    ensures m % 2 == 1 ==> UnpackAgrees(n, mark, all, done + [left[0]], m / 2, left[1..])
  {
    var (low, rest) := if m % 2 == 1 then (left[0], left[1..]) else (0, left);
    var next := Unpack(n - |done| - 1, m / 2, rest);
    if next.Some? {
      assert done + ([low] + next.value.0) == (done + [low]) + next.value.0;
    }
  }

  // ----- the writer object -----

  class Writer {
    var payload: seq<byte>

    constructor ()
      ensures payload == []
    {
      payload := [];
    }

    /** Uint8 .. Uint64; an int of the same width passes its two's complement word. */
    method Uint(n: nat, v: nat)
      modifies this
      ensures payload == old(payload) + ToLE(n, v)
    {
      payload := payload + ToLE(n, v);
    }

    method String(t: seq<byte>)
      modifies this
      ensures payload == old(payload) + (t + [0])
    {
      payload := payload + (t + [0]);
    }

    method GUID(guid: uint64)
      modifies this
      ensures payload == old(payload) + PackGuid(guid)
    {
      var g: nat, i := guid, 0;
      var mark: nat, packed: seq<byte> := 0, [];
      WordSizes();
      PackStart(8, guid);
      while g != 0
        invariant 0 <= i <= 8 && g < Pow256(8 - i)
        invariant i == 8 ==> g == 0
        invariant payload == old(payload)
        invariant PackAgrees(8, guid, i, g, mark, packed)
        decreases g
      {
        PackStep(8, guid, i, g, mark, packed);
        if g % 256 != 0 {
          mark := mark + Pow2(i); // the source's |=: bit i is still clear
          packed := packed + [g % 256];
        }
        g := g / 256;
        i := i + 1;
      }
      PackEnd(8, guid, i, mark, packed);
      MarksFit(ToLE(8, guid));
      assert Pow2(8) == 256;
      payload := payload + ([mark] + packed);
    }
  }

  // The state of the GUID loop after i rounds: g holds the bytes still to pack.
  ghost predicate PackAgrees(n: nat, guid: nat, i: nat, g: nat, mark: nat, packed: seq<byte>)
    requires i <= n
  {
    && Marks(ToLE(n, guid)) == mark + Pow2(i) * Marks(ToLE(n - i, g))
    && NonZero(ToLE(n, guid)) == packed + NonZero(ToLE(n - i, g))
  }

  lemma PackStart(n: nat, guid: nat)
    ensures PackAgrees(n, guid, 0, guid, 0, [])
  {
    var s := NonZero(ToLE(n, guid));
    assert [] + s == s;
  }

  lemma PackEnd(n: nat, guid: nat, i: nat, mark: nat, packed: seq<byte>)
    requires i <= n && PackAgrees(n, guid, i, 0, mark, packed)
    ensures Marks(ToLE(n, guid)) == mark && NonZero(ToLE(n, guid)) == packed
  {
    ZeroPacksToNothing(n - i);
  }

  lemma PackStep(n: nat, guid: nat, i: nat, g: nat, mark: nat, packed: seq<byte>)
    requires i < n && g < Pow256(n - i) && PackAgrees(n, guid, i, g, mark, packed)
    ensures g / 256 < Pow256(n - i - 1)
    ensures g % 256 == 0 ==> PackAgrees(n, guid, i + 1, g / 256, mark, packed)
    ensures g % 256 != 0 ==> PackAgrees(n, guid, i + 1, g / 256, mark + Pow2(i), packed + [g % 256])
  {
    var high := ToLE(n - i - 1, g / 256);
    assert ToLE(n - i, g)[1..] == high;
    ShiftFactor(Pow2(i), Marks(high));
    var rest := NonZero(high);
    assert packed + ([g % 256] + rest) == (packed + [g % 256]) + rest;
    assert packed + ([] + rest) == packed + rest;
  }

  lemma ShiftFactor(p: nat, x: nat)
    ensures p * (2 * x) == (2 * p) * x
    ensures p * (1 + 2 * x) == p + (2 * p) * x
  {
  }

  lemma {:induction false} ZeroPacksToNothing(n: nat)
    ensures Marks(ToLE(n, 0)) == 0 && NonZero(ToLE(n, 0)) == []
  {
    if n > 0 {
      ZeroPacksToNothing(n - 1);
      assert ToLE(n, 0)[1..] == ToLE(n - 1, 0);
    }
  }
}
