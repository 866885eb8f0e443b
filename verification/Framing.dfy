/**
 Packet framing over a byte stream that arrives in arbitrary pieces (apps/gateway/sockets/packets-reader.go).

 A frame is a header - a big-endian size that counts the opcode, then a little-endian opcode - and a payload. Once
 encryption is on, headers (only) are XORed with a running keystream.
 */
module Framing {
  import opened Words

  const MAX_PACKET_SIZE: nat := 1024 * 1024

  // ----- the cipher: an abstract keystream -----

  /** Bitwise exclusive or of the n low bits. */
  function XorBits(n: nat, a: nat, b: nat): (x: nat)
    ensures x < Pow2(n)
  {
    if n == 0 then 0 else (if a % 2 != b % 2 then 1 else 0) + 2 * XorBits(n - 1, a / 2, b / 2)
  }

  function Xor(a: byte, b: byte): byte {
    assert Pow2(8) == 256;
    XorBits(8, a, b)
  }

  /** A cipher is its infinite keystream and the number of bytes already used. */
  datatype Cipher = Off | On(keystream: nat -> byte, used: nat)

  /** XORing with the keystream decrypts a header and encrypts one. */
  function Crypt(c: Cipher, header: seq<byte>): (out: seq<byte>)
    ensures |out| == |header|
  {
    match c
    case Off => header
    case On(keystream, used) => seq(|header|, i requires 0 <= i < |header| => Xor(header[i], keystream(used + i)))
  }

  function Advance(c: Cipher, n: nat): Cipher {
    match c
    case Off => Off
    case On(keystream, used) => On(keystream, used + n)
  }

  lemma {:induction false} XorBitsTwice(n: nat, a: nat, b: nat)
    requires a < Pow2(n)
    ensures XorBits(n, XorBits(n, a, b), b) == a
  {
    if n > 0 {
      XorBitsTwice(n - 1, a / 2, b / 2);
      var x, y := XorBits(n, a, b), XorBits(n - 1, a / 2, b / 2);
      assert x / 2 == y;
    }
  }

  /** Bit i of the exclusive or is set when bit i of exactly one operand is. */
  lemma {:induction false} XorOfBits(n: nat, a: nat, b: nat, i: nat)
    requires i < n
    ensures Bit(XorBits(n, a, b), i) <==> Bit(a, i) != Bit(b, i)
    decreases n
  {
    var y := XorBits(n - 1, a / 2, b / 2);
    assert XorBits(n, a, b) / 2 == y;
    if i > 0 {
      XorOfBits(n - 1, a / 2, b / 2, i - 1);
    }
  }

  lemma XorTwice(a: byte, b: byte)
    ensures Xor(Xor(a, b), b) == a
  {
    assert Pow2(8) == 256;
    XorBitsTwice(8, a, b);
  }

  lemma CryptTwice(c: Cipher, header: seq<byte>)
    ensures Crypt(c, Crypt(c, header)) == header
  {
    if c.On? {
      forall i | 0 <= i < |header| ensures Crypt(c, Crypt(c, header))[i] == header[i] {
        XorTwice(header[i], c.keystream(c.used + i));
      }
    }
  }

  // ----- splitting a stream into frames -----

  datatype HeaderInfo = HeaderInfo(size: nat, opcode: nat)

  datatype Frame = Frame(opcode: nat, payload: seq<byte>)

  datatype Step = Packet(frame: Frame, rest: seq<byte>) | TooLarge(rest: seq<byte>) | Incomplete

  /** How the k-th header of a connection is read. */
  type Headers = (nat, seq<byte>) -> HeaderInfo

  /** The first frame of a stream whose next header is the k-th: the specification of the incremental reader. */
  function Split(h: nat, read: Headers, k: nat, stream: seq<byte>): Step {
    if |stream| < h then Incomplete
    else
      var info := read(k, stream[..h]);
      if info.size > MAX_PACKET_SIZE then TooLarge(stream[h..])
      else if |stream| < h + info.size then Incomplete
      else Packet(Frame(info.opcode, stream[h..h + info.size]), stream[h + info.size..])
  }

  /** Every frame of a stream up to the first one that is incomplete or too large. */
  function SplitAll(h: nat, read: Headers, k: nat, stream: seq<byte>): seq<Frame>
    requires h > 0
    decreases |stream|
  {
    match Split(h, read, k, stream)
    case Packet(frame, rest) => [frame] + SplitAll(h, read, k + 1, rest)
    case TooLarge(_) => []
    case Incomplete => []
  }

  /** What is left of a stream behind its frames. */
  function SplitTail(h: nat, read: Headers, k: nat, stream: seq<byte>): seq<byte>
    requires h > 0
    decreases |stream|
  {
    match Split(h, read, k, stream)
    case Packet(_, rest) => SplitTail(h, read, k + 1, rest)
    case TooLarge(_) => stream
    case Incomplete => stream
  }

  /** Where the j-th frame from here starts. */
  function Offset(h: nat, read: Headers, k: nat, stream: seq<byte>, j: nat): nat
    decreases j
  {
    var first := Split(h, read, k, stream);
    if j == 0 || !first.Packet? then 0
    else |stream| - |first.rest| + Offset(h, read, k + 1, first.rest, j - 1)
  }

  /** The stream starts with frame f when its header is read as the k-th. */
  ghost predicate StartsWith(h: nat, read: Headers, k: nat, stream: seq<byte>, f: Frame) {
    var first := Split(h, read, k, stream);
    first.Packet? && first.frame == f
  }

  /** The j-th frame is read with the j-th header's share of the keystream, at the place the frames before it end. */
  lemma {:induction false} JthFrame(h: nat, read: Headers, k: nat, stream: seq<byte>, j: nat)
    requires h > 0 && j < |SplitAll(h, read, k, stream)|
    ensures Offset(h, read, k, stream, j) <= |stream|
    ensures StartsWith(h, read, k + j, stream[Offset(h, read, k, stream, j)..], SplitAll(h, read, k, stream)[j])
    decreases j
  {
    if j == 0 {
      assert stream[0..] == stream;
    } else {
      var first := Split(h, read, k, stream);
      var cut, off := |stream| - |first.rest|, Offset(h, read, k + 1, first.rest, j - 1);
      JthFrame(h, read, k + 1, first.rest, j - 1);
      assert first.rest[off..] == stream[cut + off..];
    }
  }

  // ----- the sender's side, and the round trip -----

  type Encoder = (nat, Frame) -> seq<byte>

  /** packet.Opcode is 16 bits wide, so the reader keeps the low half of a four-byte opcode. */
  function AsOpcode(v: nat): nat { v % 0x1_0000 }

  /** A frame as the reader hands it out. */
  function Arriving(f: Frame): Frame { f.(opcode := AsOpcode(f.opcode)) }

  function Arrived(frames: seq<Frame>): seq<Frame> {
    seq(|frames|, i requires 0 <= i < |frames| => Arriving(frames[i]))
  }

  lemma ArrivedCons(frames: seq<Frame>)
    requires frames != []
    ensures Arrived(frames) == [Arriving(frames[0])] + Arrived(frames[1..])
  {
  }

  /** Frames arrive as they were sent exactly when every opcode fits 16 bits. */
  lemma ArrivedUnchanged(frames: seq<Frame>)
    ensures Arrived(frames) == frames <==> forall f :: f in frames ==> f.opcode < 0x1_0000
  {
    if Arrived(frames) == frames {
      forall f | f in frames ensures f.opcode < 0x1_0000 {
        var i :| 0 <= i < |frames| && frames[i] == f;
        assert Arrived(frames)[i] == Arriving(f);
      }
    }
  }

  /** Reading a header gives back what was written, for these frames written from the k-th header on. */
  ghost predicate Undoes(h: nat, read: Headers, write: Encoder, k: nat, frames: seq<Frame>)
    decreases frames
  {
    frames != [] ==>
      var f := frames[0];
      && |write(k, f)| == h && read(k, write(k, f)) == HeaderInfo(|f.payload|, AsOpcode(f.opcode))
      && |f.payload| <= MAX_PACKET_SIZE
      && Undoes(h, read, write, k + 1, frames[1..])
  }

  function Join(write: Encoder, k: nat, frames: seq<Frame>): seq<byte>
    decreases frames
  {
    if frames == [] then [] else write(k, frames[0]) + (frames[0].payload + Join(write, k + 1, frames[1..]))
  }

  lemma SplitParts(h: nat, read: Headers, k: nat, header: seq<byte>, f: Frame, tail: seq<byte>)
    requires |header| == h && |f.payload| <= MAX_PACKET_SIZE
    requires read(k, header) == HeaderInfo(|f.payload|, AsOpcode(f.opcode))
    ensures Split(h, read, k, header + (f.payload + tail)) == Packet(Arriving(f), tail)
  {
    var n, stream := |f.payload|, header + (f.payload + tail);
    assert stream[..h] == header;
    assert stream[h..h + n] == f.payload;
    assert stream[h + n..] == tail;
  }

  lemma {:induction false} SplitAllUndoesJoin(h: nat, read: Headers, write: Encoder, k: nat, frames: seq<Frame>)
    requires h > 0 && Undoes(h, read, write, k, frames)
    ensures SplitAll(h, read, k, Join(write, k, frames)) == Arrived(frames)
    decreases frames
  {
    if frames != [] {
      var f, rest := frames[0], frames[1..];
      SplitParts(h, read, k, write(k, f), f, Join(write, k + 1, rest));
      SplitAllUndoesJoin(h, read, write, k + 1, rest);
      ArrivedCons(frames);
    }
  }

  // ----- the headers of this protocol -----

  /** Clients send four-byte opcodes, world servers two-byte ones. */
  type OpcodeSize = n: nat | n == 2 || n == 4 witness 2

  /** The big-endian size field less the opcode, wrapping as the 32-bit subtraction of the source does. */
  function PayloadSize(opcodeSize: OpcodeSize, hi: byte, lo: byte): nat {
    var declared: int := hi * 256 + lo;
    if declared < opcodeSize then declared - opcodeSize + 0x1_0000_0000 else declared - opcodeSize
  }

  function ReadPlain(opcodeSize: OpcodeSize, plain: seq<byte>): HeaderInfo {
    if |plain| != 2 + opcodeSize then HeaderInfo(0, 0)
    else HeaderInfo(PayloadSize(opcodeSize, plain[0], plain[1]), AsOpcode(FromLE(plain[2..])))
  }

  function ReadHeader(opcodeSize: OpcodeSize, c: Cipher, header: seq<byte>): HeaderInfo {
    ReadPlain(opcodeSize, Crypt(c, header))
  }

  /** The k-th header meets the k-th slice of the keystream. */
  function HeadersOf(opcodeSize: OpcodeSize, c: Cipher): Headers {
    (k: nat, header) => ReadHeader(opcodeSize, Advance(c, k * (2 + opcodeSize)), header)
  }

  /** The k-th header of a connection is read with its own slice of the keystream, which starts where the (k-1)-th ended. */
  lemma KthHeaderMeetsKthSlice(
      opcodeSize: OpcodeSize, keystream: nat -> byte, used: nat, k: nat, header: seq<byte>, plain: seq<byte>)
    requires |plain| == |header|
    requires forall i :: 0 <= i < |header| ==> plain[i] == Xor(header[i], keystream(used + k * (2 + opcodeSize) + i))
    ensures HeadersOf(opcodeSize, On(keystream, used))(k, header) == ReadPlain(opcodeSize, plain)
    ensures HeadersOf(opcodeSize, Off)(k, header) == ReadPlain(opcodeSize, header)
  {
    Slice(keystream, used, k * (2 + opcodeSize), header, plain);
  }

  lemma Slice(keystream: nat -> byte, used: nat, n: nat, header: seq<byte>, plain: seq<byte>)
    requires |plain| == |header|
    requires forall i :: 0 <= i < |header| ==> plain[i] == Xor(header[i], keystream(used + n + i))
    ensures Crypt(Advance(On(keystream, used), n), header) == plain
  {
  }

  /** Two big-endian bytes of size, which counts the opcode; then the opcode, low byte first. */
  lemma HeaderBytes(a: byte, b: byte, c: byte, d: byte, e: byte, f: byte)
    ensures 256 * a + b >= 2 ==> ReadPlain(2, [a, b, c, d]) == HeaderInfo(256 * a + b - 2, c + 256 * d)
    ensures 256 * a + b >= 4 ==> ReadPlain(4, [a, b, c, d, e, f]) == HeaderInfo(256 * a + b - 4, c + 256 * d)
  {
    assert [a, b, c, d][2..] == [c, d] && [c, d][1..] == [d] && [d][1..] == [];
    assert FromLE([d]) == d && FromLE([c, d]) == c + 256 * d;
    assert [a, b, c, d, e, f][2..] == [c, d, e, f] && [c, d, e, f][1..] == [d, e, f] && [d, e, f][1..] == [e, f];
    var high := FromLE([e, f]);
    assert FromLE([d, e, f]) == d + 256 * high;
    assert FromLE([c, d, e, f]) == c + 256 * d + 0x1_0000 * high;
    LowWord(c + 256 * d, high);
  }

  lemma LowWord(low: nat, high: nat)
    requires low < 0x1_0000
    ensures (low + 0x1_0000 * high) % 0x1_0000 == low && low % 0x1_0000 == low
  {
  }

  /** The only packets refused as too large are those whose declared size does not even cover the opcode. */
  lemma TooLargeIffTooSmall(opcodeSize: OpcodeSize, hi: byte, lo: byte)
    ensures PayloadSize(opcodeSize, hi, lo) > 1024 * 1024 <==> 256 * hi + lo < opcodeSize
  {
  }

  function PlainHeader(opcodeSize: OpcodeSize, f: Frame): (plain: seq<byte>)
    ensures |plain| == 2 + opcodeSize
  {
    var n := |f.payload| + opcodeSize;
    [n / 256 % 256, n % 256] + ToLE(opcodeSize, f.opcode)
  }

  function WriteHeader(opcodeSize: OpcodeSize, c: Cipher, f: Frame): seq<byte> {
    Crypt(c, PlainHeader(opcodeSize, f))
  }

  function HeaderEncoder(opcodeSize: OpcodeSize, c: Cipher): Encoder {
    (k: nat, f) => WriteHeader(opcodeSize, Advance(c, k * (2 + opcodeSize)), f)
  }

  ghost predicate Sendable(opcodeSize: OpcodeSize, f: Frame) {
    |f.payload| + opcodeSize < 0x1_0000 && f.opcode < Pow256(opcodeSize)
  }

  lemma SizeRoundTrip(opcodeSize: OpcodeSize, n: nat)
    requires opcodeSize <= n < 0x1_0000
    ensures PayloadSize(opcodeSize, n / 256 % 256, n % 256) == n - opcodeSize
  {
  }

  lemma PlainRoundTrip(opcodeSize: OpcodeSize, f: Frame)
    requires Sendable(opcodeSize, f)
    ensures ReadPlain(opcodeSize, PlainHeader(opcodeSize, f)) == HeaderInfo(|f.payload|, AsOpcode(f.opcode))
  {
    var plain := PlainHeader(opcodeSize, f);
    SizeRoundTrip(opcodeSize, |f.payload| + opcodeSize);
    LERoundTrip(opcodeSize, f.opcode);
    assert plain[2..] == ToLE(opcodeSize, f.opcode);
  }

  /** A header gives back its size, and its opcode exactly when that fits 16 bits. */
  lemma HeaderRoundTrip(opcodeSize: OpcodeSize, c: Cipher, f: Frame)
    requires Sendable(opcodeSize, f)
    ensures |WriteHeader(opcodeSize, c, f)| == 2 + opcodeSize
    ensures ReadHeader(opcodeSize, c, WriteHeader(opcodeSize, c, f)) == HeaderInfo(|f.payload|, AsOpcode(f.opcode))
    ensures ReadHeader(opcodeSize, c, WriteHeader(opcodeSize, c, f)).opcode == f.opcode <==> f.opcode < 0x1_0000
  {
    CryptTwice(c, PlainHeader(opcodeSize, f));
    PlainRoundTrip(opcodeSize, f);
  }

  lemma {:induction false} HeadersUndoEncoder(opcodeSize: OpcodeSize, c: Cipher, k: nat, frames: seq<Frame>)
    requires forall f :: f in frames ==> Sendable(opcodeSize, f)
    ensures Undoes(2 + opcodeSize, HeadersOf(opcodeSize, c), HeaderEncoder(opcodeSize, c), k, frames)
    decreases frames
  {
    if frames != [] {
      assert frames[0] in frames && forall f :: f in frames[1..] ==> f in frames;
      KthHeader(opcodeSize, c, k, frames[0]);
      HeadersUndoEncoder(opcodeSize, c, k + 1, frames[1..]);
      UndoesCons(2 + opcodeSize, HeadersOf(opcodeSize, c), HeaderEncoder(opcodeSize, c), k, frames);
    }
  }

  lemma KthHeader(opcodeSize: OpcodeSize, c: Cipher, k: nat, f: Frame)
    requires Sendable(opcodeSize, f)
    ensures |HeaderEncoder(opcodeSize, c)(k, f)| == 2 + opcodeSize && |f.payload| <= MAX_PACKET_SIZE
    ensures HeadersOf(opcodeSize, c)(k, HeaderEncoder(opcodeSize, c)(k, f)) == HeaderInfo(|f.payload|, AsOpcode(f.opcode))
  {
    HeaderRoundTrip(opcodeSize, Advance(c, k * (2 + opcodeSize)), f);
  }

  lemma UndoesCons(h: nat, read: Headers, write: Encoder, k: nat, frames: seq<Frame>)
    requires frames != [] && Undoes(h, read, write, k + 1, frames[1..])
    requires |write(k, frames[0])| == h && |frames[0].payload| <= MAX_PACKET_SIZE
    requires read(k, write(k, frames[0])) == HeaderInfo(|frames[0].payload|, AsOpcode(frames[0].opcode))
    ensures Undoes(h, read, write, k, frames)
  {
  }

  /**
   Splitting what was sent gives back the frames, whatever the payloads and keystream, with the opcodes narrowed; they
   are the frames sent if and only if every opcode fits 16 bits.
   */
  lemma FramesRoundTrip(opcodeSize: OpcodeSize, c: Cipher, frames: seq<Frame>)
    requires forall f :: f in frames ==> Sendable(opcodeSize, f)
    ensures var read := SplitAll(2 + opcodeSize, HeadersOf(opcodeSize, c), 0, Join(HeaderEncoder(opcodeSize, c), 0, frames));
            read == Arrived(frames) && (read == frames <==> forall f :: f in frames ==> f.opcode < 0x1_0000)
  {
    HeadersUndoEncoder(opcodeSize, c, 0, frames);
    SplitAllUndoesJoin(2 + opcodeSize, HeadersOf(opcodeSize, c), HeaderEncoder(opcodeSize, c), 0, frames);
    ArrivedUnchanged(frames);
  }

  /** The failing case: a client header for opcode 0x10000 and no payload reads as opcode 0. */
  lemma WideOpcodeIsLost()
    ensures PlainHeader(4, Frame(0x1_0000, [])) == [0, 4, 0, 0, 1, 0]
    ensures ReadPlain(4, [0, 4, 0, 0, 1, 0]) == HeaderInfo(0, 0)
  {
    assert ToLE(4, 0x1_0000) == [0] + ToLE(3, 0x100) && ToLE(3, 0x100) == [0] + ToLE(2, 1) && ToLE(2, 1) == [1] + ToLE(1, 0);
    PlainRoundTrip(4, Frame(0x1_0000, [])) by {
      WordSizes();
    }
  }
}
