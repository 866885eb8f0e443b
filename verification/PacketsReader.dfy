/** The incremental packet reader: a loop over partial reads that keeps its place in buffers. */
module PacketsReader {
  import opened Words
  import opened Framing

  function Flatten(pieces: seq<seq<byte>>): seq<byte> {
    if pieces == [] then [] else pieces[0] + Flatten(pieces[1..])
  }

  /** The connection: bytes arrive in pieces of any size, a read returns at most one piece, and then the stream ends. */
  class Source {
    var pieces: seq<seq<byte>>

    constructor (pieces: seq<seq<byte>>)
      ensures this.pieces == pieces
    {
      this.pieces := pieces;
    }

    ghost function Rest(): seq<byte>
      reads this
    {
      Flatten(pieces)
    }

    ghost function Fuel(): nat
      reads this
    {
      |pieces| + |Flatten(pieces)|
    }

    /** Read into buf from the given place; ok is false at the end of the stream. */
    method Read(buf: array<byte>, from: nat) returns (n: nat, ok: bool)
      requires from < buf.Length
      modifies this, buf
      ensures from + n <= buf.Length
      ensures ok ==> old(Rest()) == buf[from..from + n] + Rest() && Fuel() < old(Fuel())
      ensures !ok ==> n == 0 && old(Rest()) == [] && pieces == old(pieces)
      ensures buf[..from] == old(buf[..from]) && buf[from + n..] == old(buf[from + n..])
    {
      if pieces == [] {
        return 0, false;
      }
      var piece := pieces[0];
      n := if |piece| <= buf.Length - from then |piece| else buf.Length - from;
      ghost var was := buf[..];
      var i := 0;
      while i < n
        invariant 0 <= i <= n && pieces == old(pieces)
        invariant buf[from..from + i] == piece[..i]
        invariant forall j :: 0 <= j < from || from + n <= j < buf.Length ==> buf[j] == was[j]
      {
        buf[from + i] := piece[i];
        i := i + 1;
      }
      ok := true;
      TakeFromFront(pieces, n);
      assert n == |piece| ==> piece[n..] + Flatten(pieces[1..]) == Flatten(pieces[1..]);
      pieces := if n == |piece| then pieces[1..] else [piece[n..]] + pieces[1..];
    }

    /** After a failed read the connection recovers, and these bytes arrive. */
    method Recover(more: seq<seq<byte>>)
      modifies this
      ensures pieces == more && Rest() == Flatten(more)
    {
      pieces := more;
    }
  }

  lemma FlattenCons(piece: seq<byte>, rest: seq<seq<byte>>)
    ensures Flatten([piece] + rest) == piece + Flatten(rest)
  {
    assert ([piece] + rest)[1..] == rest;
  }

  lemma TakeFromFront(pieces: seq<seq<byte>>, n: nat)
    requires pieces != [] && n <= |pieces[0]|
    ensures Flatten(pieces) == pieces[0][..n] + (pieces[0][n..] + Flatten(pieces[1..]))
    ensures Flatten([pieces[0][n..]] + pieces[1..]) == pieces[0][n..] + Flatten(pieces[1..])
  {
    FlattenCons(pieces[0][n..], pieces[1..]);
  }

  lemma Append(a: seq<byte>, b: seq<byte>, c: seq<byte>)
    ensures a + (b + c) == (a + b) + c
  {
  }

  lemma FirstHeader(opcodeSize: OpcodeSize, c: Cipher, header: seq<byte>)
    ensures HeadersOf(opcodeSize, c)(0, header) == ReadHeader(opcodeSize, c, header)
  {
    assert Advance(c, 0 * (2 + opcodeSize)) == c;
  }

  /** The keystream position of a connection is the number of headers read, times their size. */
  lemma HeadersShift(opcodeSize: OpcodeSize, c: Cipher, k: nat, header: seq<byte>)
    ensures HeadersOf(opcodeSize, Advance(c, k * (2 + opcodeSize)))(0, header) == HeadersOf(opcodeSize, c)(k, header)
  {
    FirstHeader(opcodeSize, Advance(c, k * (2 + opcodeSize)), header);
  }

  datatype ReadError = EndOfStream | PacketTooLarge

  /** The payload is shared with the reader's buffer, as in the source. */
  datatype Received = Received(size: nat, opcode: nat, data: array<byte>)

  class PacketsReader {
    const source: Source
    const opcodeSize: OpcodeSize
    var cipher: Cipher
    const header: array<byte>
    var hWritePos: nat
    var payload: array<byte>
    var pWritePos: nat
    var err: Option<ReadError>
    var packet: Option<Received>

    ghost predicate Valid()
      reads this
    {
      && header.Length == 2 + opcodeSize && hWritePos <= header.Length
    }

    /** Between packets. */
    ghost predicate Ready()
      reads this
    {
      Valid() && hWritePos == 0 && pWritePos == 0
    }

    constructor (source: Source, opcodeSize: OpcodeSize)
      ensures Ready() && this.source == source && this.opcodeSize == opcodeSize
      ensures cipher == Off && packet == None && err == None && fresh(header) && fresh(payload)
    {
      this.source, this.opcodeSize := source, opcodeSize;
      this.header := new byte[2 + opcodeSize](_ => 0);
      this.payload := new byte[0];
      cipher, hWritePos, pWritePos, err, packet := Off, 0, 0, None, None;
    }

    method EnableEncryption(c: Cipher)
      modifies `cipher
      ensures cipher == c
    {
      cipher := c;
    }

    /** encryption.Decrypt(headerBuffer), in place; the cipher moves on. */
    method DecryptHeader()
      requires Valid()
      modifies header, `cipher
      ensures header[..] == Crypt(old(cipher), old(header[..]))
      ensures cipher == Advance(old(cipher), header.Length)
      ensures old(cipher).On? ==>
                && (forall i :: 0 <= i < header.Length ==>
                      header[i] == Xor(old(header[i]), old(cipher).keystream(old(cipher).used + i)))
                && cipher == On(old(cipher).keystream, old(cipher).used + header.Length)
      ensures old(cipher).Off? ==> cipher == Off && header[..] == old(header[..])
    {
      match cipher {
        case Off =>
        case On(keystream, used) =>
          ghost var was := header[..];
          var i := 0;
          while i < header.Length
            invariant 0 <= i <= header.Length
            invariant forall j :: 0 <= j < i ==> header[j] == Xor(was[j], keystream(used + j))
            invariant forall j :: i <= j < header.Length ==> header[j] == was[j]
          {
            header[i] := Xor(header[i], keystream(used + i));
            i := i + 1;
          }
          cipher := On(keystream, used + header.Length);
      }
    }

    /** The part of Next that runs when the last header byte has arrived. */
    method ParseHeader() returns (info: HeaderInfo)
      requires Valid()
      modifies header, `cipher
      ensures info == ReadHeader(opcodeSize, old(cipher), old(header[..]))
      ensures cipher == Advance(old(cipher), header.Length)
    {
      DecryptHeader();
      info := ReadPlain(opcodeSize, header[..]);
    }

    /** The bytes of the next packet that are here already, and those still to come. */
    ghost function Ahead(): seq<byte>
      requires hWritePos <= header.Length
      reads this, source, header
    {
      header[..hWritePos] + source.Rest()
    }

    /** What a call of Next that starts before the end of a header must do, whatever pieces the bytes arrive in. */
    ghost function Wanted(): Step
      requires hWritePos <= header.Length
      reads this, source, header
    {
      Split(2 + opcodeSize, HeadersOf(opcodeSize, cipher), 0, Ahead())
    }

    /** The iterations of the loop in Next that read into one of the buffers, until it is full or a read fails. */
    method Fill(buf: array<byte>, from: nat) returns (n: nat, ok: bool)
      requires from <= buf.Length
      modifies source, buf
      ensures ok ==> n == buf.Length && old(buf[..from]) + old(source.Rest()) == buf[..] + source.Rest()
      ensures !ok ==> n < buf.Length && buf[..n] == old(buf[..from]) + old(source.Rest())
      ensures !ok ==> source.Rest() == []
    {
      ghost var stream := buf[..from] + source.Rest();
      n := from;
      while n < buf.Length
        invariant n <= buf.Length && stream == buf[..n] + source.Rest()
        decreases source.Fuel()
      {
        ghost var had := buf[..n];
        var got, readOk := source.Read(buf, n);
        if !readOk {
          assert buf[..n] == had && had + [] == had;
          return n, false;
        }
        GrowPrefix(buf[..], had, n, got, source.Rest());
        n := n + got;
      }
      ok := true;
      assert buf[..buf.Length] == buf[..];
    }

    /** The packet whose header has been read: a fresh buffer each time, so no earlier payload is touched. */
    method ReceivePayload(info: HeaderInfo) returns (ok: bool)
      requires Valid() && pWritePos == 0
      modifies `payload, `hWritePos, `pWritePos, `err, `packet, source
      ensures Valid() && ok == (|old(source.Rest())| >= info.size) && fresh(payload)
      ensures ok ==>
        && Ready() && packet.Some? && fresh(packet.value.data) && err == old(err)
        && packet.value.size == info.size && packet.value.opcode == info.opcode
        && packet.value.data[..] == old(source.Rest())[..info.size] && source.Rest() == old(source.Rest())[info.size..]
      ensures !ok ==>
        && err == Some(EndOfStream) && source.Rest() == [] && packet == old(packet) && hWritePos == old(hWritePos)
        && payload.Length == info.size && pWritePos < payload.Length && payload[..pWritePos] == old(source.Rest())
    {
      ghost var stream := source.Rest();
      payload := new byte[info.size];
      assert payload[..0] + stream == stream;
      pWritePos, ok := Fill(payload, 0);
      if !ok {
        err := Some(EndOfStream);
        return;
      }
      assert stream[..info.size] == payload[..] && stream[info.size..] == source.Rest();
      hWritePos, pWritePos := 0, 0;
      packet := Some(Received(info.size, info.opcode, payload));
    }

    /** The state in which a failing read leaves a call that had got these bytes of its packet. */
    ghost predicate Interrupted(c: Cipher, stream: seq<byte>)
      reads this, header, payload
    {
      && Valid()
      && if |stream| < header.Length then
           hWritePos == |stream| && header[..hWritePos] == stream && pWritePos == 0 && cipher == c
         else
           && hWritePos == header.Length && cipher == Advance(c, header.Length)
           && payload.Length == HeadersOf(opcodeSize, c)(0, stream[..header.Length]).size
           && pWritePos == |stream| - header.Length < payload.Length && payload[..pWritePos] == stream[header.Length..]
    }

    /**
     One packet, in a call that starts between packets or within a header. The source runs the two phases in one loop
     that goes back to reading after every partial read.
     */
    method Next() returns (ok: bool)
      requires Valid() && hWritePos < header.Length && pWritePos == 0
      modifies this, source, header
      ensures Valid()
      ensures match old(Wanted())
              case Packet(frame, rest) =>
                && ok && Ready() && source.Rest() == rest && err == old(err)
                && packet.Some? && fresh(packet.value.data) && packet.value.data[..] == frame.payload
                && packet.value.opcode == frame.opcode && packet.value.size == |frame.payload|
                && cipher == Advance(old(cipher), 2 + opcodeSize)
              case TooLarge(rest) =>
                && !ok && err == Some(PacketTooLarge) && source.Rest() == rest && packet == old(packet)
                && cipher == Advance(old(cipher), 2 + opcodeSize)
              case Incomplete =>
                && !ok && err == Some(EndOfStream) && source.Rest() == [] && packet == old(packet)
                && Interrupted(old(cipher), old(Ahead())) && (payload == old(payload) || fresh(payload))
                && (|old(Ahead())| >= header.Length ==> fresh(payload))
    {
      ghost var stream := Ahead();
      hWritePos, ok := Fill(header, hWritePos);
      if ok {
        ok := FinishPacket(stream);
      } else {
        err := Some(EndOfStream);
      }
    }

    /** The rest of Next, once the header is complete. */
    method FinishPacket(ghost stream: seq<byte>) returns (ok: bool)
      requires Valid() && hWritePos == header.Length && pWritePos == 0 && stream == header[..] + source.Rest()
      modifies this, source, header
      ensures Valid()
      ensures match Split(2 + opcodeSize, HeadersOf(opcodeSize, old(cipher)), 0, stream)
              case Packet(frame, rest) =>
                && ok && Ready() && source.Rest() == rest && err == old(err)
                && packet.Some? && fresh(packet.value.data) && packet.value.data[..] == frame.payload
                && packet.value.opcode == frame.opcode && packet.value.size == |frame.payload|
                && cipher == Advance(old(cipher), 2 + opcodeSize)
              case TooLarge(rest) =>
                && !ok && err == Some(PacketTooLarge) && source.Rest() == rest && packet == old(packet)
                && cipher == Advance(old(cipher), 2 + opcodeSize)
              case Incomplete =>
                && !ok && err == Some(EndOfStream) && source.Rest() == [] && packet == old(packet)
                && Interrupted(old(cipher), stream) && fresh(payload)
    {
      SplitAtHeader(header.Length, HeadersOf(opcodeSize, cipher), header[..], source.Rest());
      FirstHeader(opcodeSize, cipher, header[..]);
      HeadAndRest(header[..], source.Rest());
      var info := ParseHeader();
      if info.size > MAX_PACKET_SIZE {
        err := Some(PacketTooLarge);
        return false;
      }
      ok := ReceivePayload(info);
    }

    /**
     Next, in a call that starts after a header: one that follows a read error within a payload, or an oversized
     packet. The opcode and size parsed by the earlier call are lost; the buffer is the one that is there.
     */
    method NextWithinPayload() returns (ok: bool)
      requires Valid() && hWritePos == header.Length && pWritePos <= payload.Length
      modifies this, source, payload
      ensures Valid() && payload == old(payload)
      ensures var t := old(payload[..pWritePos]) + old(source.Rest());
              && ok == (|t| >= payload.Length)
              && (ok ==> && Ready() && packet == Some(Received(0, 0, payload))
                         && payload[..] == t[..payload.Length] && source.Rest() == t[payload.Length..])
              && (!ok ==> && err == Some(EndOfStream) && source.Rest() == [] && packet == old(packet)
                          && hWritePos == header.Length && pWritePos == |t| && payload[..pWritePos] == t)
    {
      ghost var t := payload[..pWritePos] + source.Rest();
      pWritePos, ok := Fill(payload, pWritePos);
      if !ok {
        err := Some(EndOfStream);
        return;
      }
      assert t[..payload.Length] == payload[..] && t[payload.Length..] == source.Rest();
      hWritePos, pWritePos := 0, 0;
      packet := Some(Received(0, 0, payload));
    }
  }

  lemma HeadAndRest(header: seq<byte>, rest: seq<byte>)
    ensures (header + rest)[..|header|] == header && (header + rest)[|header|..] == rest
  {
  }

  /** What a read appends to the part of a buffer that is filled. */
  lemma GrowPrefix(buf: seq<byte>, had: seq<byte>, n: nat, got: nat, rest: seq<byte>)
    requires n + got <= |buf| && buf[..n] == had
    ensures had + (buf[n..n + got] + rest) == buf[..n + got] + rest
  {
    assert buf[..n + got] == had + buf[n..n + got];
    Append(had, buf[n..n + got], rest);
  }

  lemma SplitAtHeader(h: nat, read: Headers, header: seq<byte>, rest: seq<byte>)
    requires |header| == h
    ensures var info := read(0, header);
            Split(h, read, 0, header + rest) ==
            if info.size > MAX_PACKET_SIZE then TooLarge(rest)
            else if |rest| < info.size then Incomplete
            else Packet(Frame(info.opcode, rest[..info.size]), rest[info.size..])
  {
    var stream, size := header + rest, read(0, header).size;
    assert stream[..h] == header && stream[h..] == rest;
    if size <= |rest| {
      assert stream[h..h + size] == rest[..size] && stream[h + size..] == rest[size..];
    }
  }

  /** The packet handed out still holds this frame. */
  ghost predicate Holds(p: Received, f: Frame)
    reads p.data
  {
    p.opcode == f.opcode && p.size == |f.payload| && p.data[..] == f.payload
  }

  /** Reading the frame behind the k that are done. */
  lemma SplitAllStep(h: nat, read: Headers, all: seq<Frame>, k: nat, stream: seq<byte>)
    requires h > 0 && k <= |all| && all[k..] == SplitAll(h, read, k, stream)
    ensures match Split(h, read, k, stream)
            case Packet(frame, rest) => k < |all| && all[k] == frame && all[k + 1..] == SplitAll(h, read, k + 1, rest)
            case TooLarge(_) => k == |all|
            case Incomplete => k == |all|
  {
    var step := Split(h, read, k, stream);
    if step.Packet? {
      var tail := SplitAll(h, read, k + 1, step.rest);
      assert all[k..] == [step.frame] + tail;
      assert all[k + 1..] == all[k..][1..];
    }
  }

  /** The state of the callers' loop after k packets: the cipher has met k headers, and the stream holds the rest. */
  ghost predicate Reached(r: PacketsReader, c: Cipher, all: seq<Frame>, k: nat)
    reads r, r.source
  {
    && r.Ready() && k <= |all| && r.cipher == Advance(c, k * (2 + r.opcodeSize))
    && all[k..] == SplitAll(2 + r.opcodeSize, HeadersOf(r.opcodeSize, c), k, r.source.Rest())
  }

  /** The frames of the connection from here on. */
  ghost function Frames(r: PacketsReader): seq<Frame>
    reads r, r.source
  {
    SplitAll(2 + r.opcodeSize, HeadersOf(r.opcodeSize, r.cipher), 0, r.source.Rest())
  }

  /** What will be left when no further packet can be read. */
  ghost function Tail(r: PacketsReader, c: Cipher, k: nat): seq<byte>
    reads r, r.source
  {
    SplitTail(2 + r.opcodeSize, HeadersOf(r.opcodeSize, c), k, r.source.Rest())
  }

  /** The headers met in a stream of n frames that leaves this tail: one more if the tail holds a whole header. */
  ghost function HeadersIn(r: PacketsReader, n: nat, tail: seq<byte>): nat {
    if |tail| >= 2 + r.opcodeSize then n + 1 else n
  }

  ghost function KeyBytes(r: PacketsReader, n: nat, tail: seq<byte>): nat {
    HeadersIn(r, n, tail) * (2 + r.opcodeSize)
  }

  /** The callers' loop has got k packets of all, and will leave this tail. */
  ghost predicate OnTheWay(r: PacketsReader, c: Cipher, all: seq<Frame>, tail: seq<byte>, k: nat)
    reads r, r.source
  {
    Reached(r, c, all, k) && Tail(r, c, k) == tail
  }

  method ReadOne(r: PacketsReader, ghost c: Cipher, ghost all: seq<Frame>, ghost tail: seq<byte>, ghost k: nat)
    returns (more: bool, p: Option<Received>)
    requires OnTheWay(r, c, all, tail, k)
    modifies r, r.source, r.header
    ensures more ==> OnTheWay(r, c, all, tail, k + 1) && k < |all| && p.Some? && Holds(p.value, all[k])
    ensures more ==> fresh(p.value.data) && |r.source.Rest()| < |old(r.source.Rest())|
    ensures !more ==> k == |all| && r.cipher == Advance(c, KeyBytes(r, k, tail))
  {
    ghost var h := 2 + r.opcodeSize;
    SplitShift(r.opcodeSize, c, k, r.source.Rest());
    SplitAllStep(h, HeadersOf(r.opcodeSize, c), all, k, r.source.Rest());
    AdvanceTwice(c, k, h);
    assert r.Ahead() == r.source.Rest();
    more := r.Next();
    p := r.packet;
  }

  /** The packets collected so far, each in a buffer of its own that the reader does not touch again. */
  ghost predicate Collected(packets: seq<Received>, all: seq<Frame>)
    reads set p | p in packets :: p.data
  {
    |packets| <= |all| && forall i :: 0 <= i < |packets| ==> Holds(packets[i], all[i])
  }

  lemma CollectedMore(packets: seq<Received>, p: Received, all: seq<Frame>)
    requires Collected(packets, all) && |packets| < |all| && Holds(p, all[|packets|])
    ensures Collected(packets + [p], all)
  {
  }

  method ReadRest(r: PacketsReader, ghost c: Cipher, ghost all: seq<Frame>, ghost tail: seq<byte>)
    returns (packets: seq<Received>)
    requires OnTheWay(r, c, all, tail, 0)
    modifies r, r.source, r.header
    ensures |packets| == |all| && Collected(packets, all)
    ensures r.cipher == Advance(c, KeyBytes(r, |all|, tail))
  {
    packets := [];
    while true
      invariant OnTheWay(r, c, all, tail, |packets|) && Collected(packets, all)
      invariant forall p :: p in packets ==> fresh(p.data)
      decreases |r.source.Rest()|
    {
      var more, p := ReadOne(r, c, all, tail, |packets|);
      if !more {
        return;
      }
      assert Collected(packets, all);
      CollectedMore(packets, p.value, all);
      packets := packets + [p.value];
    }
  }

  /**
   The callers' loop. The packets are the frames of the stream however it was cut into pieces, and the payloads
   handed out earlier still hold their frames at the end.
   */
  method ReadAll(r: PacketsReader) returns (packets: seq<Received>, ghost headers: nat)
    requires r.Ready()
    modifies r, r.source, r.header
    ensures |packets| == |old(Frames(r))| && forall i :: 0 <= i < |packets| ==> Holds(packets[i], old(Frames(r))[i])
    // the cipher has met one header for each packet, and one more if a header of an unfinished packet was read
    ensures headers == HeadersIn(r, |packets|, old(Tail(r, r.cipher, 0)))
    ensures match old(r.cipher)
            case Off => r.cipher == Off
            case On(keystream, used) => r.cipher == On(keystream, used + headers * (2 + r.opcodeSize))
  {
    ghost var c := r.cipher;
    ghost var all := Frames(r);
    assert Advance(c, 0 * (2 + r.opcodeSize)) == c && all[0..] == all;
    headers := HeadersIn(r, |all|, Tail(r, c, 0));
    packets := ReadRest(r, c, all, Tail(r, c, 0));
  }

  lemma AdvanceTwice(c: Cipher, k: nat, h: nat)
    ensures Advance(Advance(c, k * h), h) == Advance(c, (k + 1) * h)
  {
    assert (k + 1) * h == k * h + h;
  }

  lemma SplitShift(opcodeSize: OpcodeSize, c: Cipher, k: nat, stream: seq<byte>)
    ensures Split(2 + opcodeSize, HeadersOf(opcodeSize, Advance(c, k * (2 + opcodeSize))), 0, stream) ==
            Split(2 + opcodeSize, HeadersOf(opcodeSize, c), k, stream)
  {
    if |stream| >= 2 + opcodeSize {
      HeadersShift(opcodeSize, c, k, stream[..2 + opcodeSize]);
    }
  }

  // ----- a read error in the middle of a packet -----

  lemma SplitLater(h: nat, read: Headers, stream: seq<byte>, more: seq<byte>)
    requires h <= |stream| && Split(h, read, 0, stream).Incomplete?
    ensures var size := read(0, stream[..h]).size;
            var t := stream[h..] + more;
            Split(h, read, 0, stream + more) ==
            if |t| < size then Incomplete else Packet(Frame(read(0, stream[..h]).opcode, t[..size]), t[size..])
  {
    SplitAtHeader(h, read, stream[..h], stream[h..] + more);
    assert stream + more == stream[..h] + (stream[h..] + more);
  }

  /**
   A call of Next that fails for lack of bytes, and another one once more have come. The frame that was cut in two
   arrives with its payload intact either way, and with its opcode and size if and only if the first call had not yet
   got the whole header.
   */
  method ReadAcrossError(r: PacketsReader, more: seq<seq<byte>>) returns (ok: bool, p: Option<Received>)
    requires r.Ready() && r.Wanted().Incomplete?
    modifies r, r.source, r.header
    ensures var stream, h := old(r.source.Rest()), 2 + r.opcodeSize;
            match Split(h, HeadersOf(r.opcodeSize, old(r.cipher)), 0, stream + Flatten(more))
            case Packet(frame, rest) =>
              && ok && p.Some? && p.value.data[..] == frame.payload && r.source.Rest() == rest
              && (Holds(p.value, frame) <==> |stream| < h)
            case TooLarge(_) => !ok
            case Incomplete => !ok
  {
    ghost var c, stream := r.cipher, r.source.Rest();
    assert r.Ahead() == stream;
    ok := r.Next();
    r.source.Recover(more);
    if r.hWritePos < r.header.Length {
      ok := r.Next();
    } else {
      SplitLater(2 + r.opcodeSize, HeadersOf(r.opcodeSize, c), stream, Flatten(more));
      ok := r.NextWithinPayload();
    }
    p := r.packet;
  }
}
