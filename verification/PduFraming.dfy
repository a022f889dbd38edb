/** Kinetic PDUs on the wire: a packed header (version prefix, two 32-bit lengths in network
    byte order), the protobuf bytes and the value bytes. `KineticRequest_PackMessage` prints
    them; `sink_cb` and `unpack_header` parse a stream of them chunk by chunk
    (src/lib/kinetic_request.c, src/lib/kinetic_bus.c, src/lib/kinetic_nbo.c). */
module PduFraming {
  import opened Wrappers

  type Byte = b: int | 0 <= b < 256

  const PDU_HEADER_LEN: nat := 9
  const PDU_PROTO_MAX_LEN: nat := 1024 * 1024
  const VERSION_PREFIX: Byte := 70  // 'F'
  const U32: nat := 0x1_0000_0000
  const U64: nat := 0x1_0000_0000_0000_0000

  // ---------------------------------------------------------------------------
  // Byte order

  datatype Endian = Little | Big

  function BigEndian(v: nat, n: nat): (b: seq<Byte>)
    ensures |b| == n
  {
    if n == 0 then [] else BigEndian(v / 256, n - 1) + [v % 256]
  }

  function FromBigEndian(b: seq<Byte>): nat {
    if b == [] then 0 else FromBigEndian(b[..|b| - 1]) * 256 + b[|b| - 1]
  }

  function Reverse(b: seq<Byte>): (r: seq<Byte>)
    ensures |r| == |b| && forall i | 0 <= i < |b| :: r[i] == b[|b| - 1 - i]
  {
    if b == [] then [] else Reverse(b[1..]) + [b[0]]
  }

  lemma ReverseTwice(b: seq<Byte>)
    ensures Reverse(Reverse(b)) == b
  {
  }

  function Pow256(n: nat): (r: nat)
    ensures r >= 1
  {
    if n == 0 then 1 else 256 * Pow256(n - 1)
  }

  lemma {:induction false} DecodeEncode(v: nat, n: nat)
    requires v < Pow256(n)
    ensures FromBigEndian(BigEndian(v, n)) == v
  {
    if n > 0 {
      DecodeEncode(v / 256, n - 1);
      assert BigEndian(v, n)[..n - 1] == BigEndian(v / 256, n - 1);
    }
  }

  lemma {:induction false} EncodeDecode(b: seq<Byte>)
    ensures FromBigEndian(b) < Pow256(|b|) && BigEndian(FromBigEndian(b), |b|) == b
  {
    if b != [] {
      EncodeDecode(b[..|b| - 1]);
      assert b[..|b| - 1] + [b[|b| - 1]] == b;
    }
  }

  /** The n bytes of an integer as they lie in the host's memory, and an integer read back. */
  function InMemory(v: nat, n: nat, host: Endian): (b: seq<Byte>)
    ensures |b| == n
  {
    if host.Big? then BigEndian(v, n) else Reverse(BigEndian(v, n))
  }

  function Load(b: seq<Byte>, host: Endian): nat {
    FromBigEndian(if host.Big? then b else Reverse(b))
  }

  lemma LoadStored(b: seq<Byte>, host: Endian)
    ensures Load(b, host) < Pow256(|b|) && InMemory(Load(b, host), |b|, host) == b
  {
    EncodeDecode(b);
    EncodeDecode(Reverse(b));
    ReverseTwice(b);
  }

  /** KineticNBO_SwapByteOrder: despite its name, the value of the bytes in network order,
      kept to 64 bits. */
  method SwapByteOrder(bytes: seq<Byte>) returns (swapped: nat)
    ensures swapped == FromBigEndian(bytes) % U64
  {
    swapped := 0;
    var i := 0;
    while i < |bytes|
      invariant 0 <= i <= |bytes| && swapped == FromBigEndian(bytes[..i]) % U64
    {
      ghost var all := FromBigEndian(bytes[..i]);
      assert bytes[..i + 1][..i] == bytes[..i];
      ShiftIn(all, bytes[i]);
      swapped := (swapped * 256) % U64 + bytes[i];
      i := i + 1;
    }
    assert bytes[..i] == bytes;
  }

  lemma ModOf(k: nat, t: nat)
    requires t < U64
    ensures (U64 * k + t) % U64 == t
  {
  }

  lemma ShiftIn(x: nat, b: Byte)
    ensures (x % U64 * 256) % U64 + b == (x * 256 + b) % U64
  {
    var q, r := x / U64, x % U64;
    var q', r' := r * 256 / U64, (r * 256) % U64;
    assert x == U64 * q + r && r * 256 == U64 * q' + r';
    assert r' == 256 * (r - U64 / 256 * q');
    assert r' + b < U64;
    assert x * 256 + b == U64 * (256 * q + q') + (r' + b);
    ModOf(256 * q + q', r' + b);
  }

  /** Taking an integer's memory for network order and storing the result again writes the
      integer in network order, on a host of either kind. */
  lemma NetworkOrder(v: nat, host: Endian)
    requires v < Pow256(4)
    ensures var w := FromBigEndian(InMemory(v, 4, host)); w < Pow256(4) && InMemory(w, 4, host) == BigEndian(v, 4)
  {
    EncodeDecode(InMemory(v, 4, host));
    ReverseTwice(BigEndian(v, 4));
    DecodeEncode(v, 4);
  }

  lemma Pow256Of4()
    ensures Pow256(4) == U32
  {
    assert Pow256(1) == 256 && Pow256(2) == 0x1_0000 && Pow256(3) == 0x100_0000;
  }

  method FromHostU32(valueHost: nat, host: Endian) returns (nbo: nat)
    requires valueHost < U32
    ensures nbo < U32 && InMemory(nbo, 4, host) == BigEndian(valueHost, 4)
  {
    hide BigEndian, FromBigEndian, Pow256, InMemory;
    Pow256Of4();
    NetworkOrder(valueHost, host);
    nbo := SwapByteOrder(InMemory(valueHost, 4, host));
    nbo := nbo % U32;
  }

  method ToHostU32(valueNBO: nat, host: Endian) returns (v: nat)
    requires valueNBO < U32
    ensures v < U32 && v == FromBigEndian(InMemory(valueNBO, 4, host))
  {
    hide BigEndian, FromBigEndian, Pow256, InMemory;
    Pow256Of4();
    EncodeDecode(InMemory(valueNBO, 4, host));
    v := SwapByteOrder(InMemory(valueNBO, 4, host));
    v := v % U32;
  }

  // ---------------------------------------------------------------------------
  // Printing

  function Packed(proto: seq<Byte>, value: seq<Byte>): seq<Byte> {
    [VERSION_PREFIX] + BigEndian(|proto|, 4) + BigEndian(|value|, 4) + proto + value
  }

  /** memcpy(&msg[offset], bytes, |bytes|) */
  method CopyInto(msg: array<Byte>, offset: nat, bytes: seq<Byte>)
    requires offset + |bytes| <= msg.Length
    modifies msg
    ensures msg[..offset] == old(msg[..offset])
    ensures msg[..offset + |bytes|] == old(msg[..offset]) + bytes
  {
    var i := 0;
    while i < |bytes|
      invariant 0 <= i <= |bytes| && msg[..offset] == old(msg[..offset])
      invariant msg[offset..offset + i] == bytes[..i]
    {
      msg[offset + i] := bytes[i];
      i := i + 1;
    }
    assert msg[..offset + |bytes|] == msg[..offset] + msg[offset..offset + |bytes|];
  }

  /** KineticRequest_PackMessage writes the same bytes on every host. */
  method PackMessage(proto: seq<Byte>, value: seq<Byte>, host: Endian) returns (msg: array<Byte>)
    requires |proto| < U32 && |value| < U32
    ensures fresh(msg) && msg[..] == Packed(proto, value)
  {
    var nboProtoLength := FromHostU32(|proto|, host);
    var nboValueLength := FromHostU32(|value|, host);
    msg := new Byte[PDU_HEADER_LEN + |proto| + |value|];
    var offset := 0;
    msg[offset] := VERSION_PREFIX;
    offset := offset + 1;
    assert msg[..offset] == [VERSION_PREFIX];
    CopyInto(msg, offset, InMemory(nboProtoLength, 4, host));
    offset := offset + 4;
    CopyInto(msg, offset, InMemory(nboValueLength, 4, host));
    offset := offset + 4;
    CopyInto(msg, offset, proto);
    offset := offset + |proto|;
    if |value| > 0 {
      CopyInto(msg, offset, value);
      offset := offset + |value|;
    }
    assert offset == msg.Length && msg[..offset] == msg[..];
  }

  // ---------------------------------------------------------------------------
  // Parsing

  datatype Header = Header(versionPrefix: Byte, protobufLength: nat, valueLength: nat)

  const NO_HEADER := Header(0, 0, 0)

  datatype UnpackStatus = Undefined | Success | InvalidHeader

  datatype SocketState = Uninit | AwaitingHeader | AwaitingBody

  /** socket_info; `acc` is the filled part of its buffer. */
  datatype Parser = Parser(state: SocketState, acc: seq<Byte>, header: Header, status: UnpackStatus)

  /** What unpack_cb is handed: a whole PDU split into protobuf and value, or an error. */
  datatype Unpacked = Good(header: Header, proto: seq<Byte>, value: seq<Byte>) | Bad(status: UnpackStatus)

  const FRESH := Parser(Uninit, [], NO_HEADER, Undefined)
  const PRIMED := Parser(AwaitingHeader, [], NO_HEADER, Undefined)

  function BodyLength(h: Header): nat { h.protobufLength + h.valueLength }

  /** unpack_header: the version prefix is passed on unchecked. */
  function DecodeHeader(b: seq<Byte>): (h: Option<Header>)
    requires |b| == PDU_HEADER_LEN
    ensures h.Some? ==> h.value.protobufLength <= PDU_PROTO_MAX_LEN && h.value.valueLength <= PDU_PROTO_MAX_LEN
  {
    var p, v := FromBigEndian(b[1..5]), FromBigEndian(b[5..9]);
    if p <= PDU_PROTO_MAX_LEN && v <= PDU_PROTO_MAX_LEN then Some(Header(b[0], p, v)) else None
  }

  /** The `next_read` last returned: what the listener may read at most. */
  function NextRead(p: Parser): int {
    match p.state
    case Uninit => 0
    case AwaitingHeader => PDU_HEADER_LEN - |p.acc|
    case AwaitingBody => BodyLength(p.header) - |p.acc|
  }

  /** Neither the filled part nor the next read can leave the buffer. */
  predicate Fits(p: Parser) {
    && (p.state.AwaitingHeader? ==> |p.acc| < PDU_HEADER_LEN)
    && (p.state.AwaitingBody? ==>
          && p.header.protobufLength <= PDU_PROTO_MAX_LEN && p.header.valueLength <= PDU_PROTO_MAX_LEN
          && p.status == Success && |p.acc| <= BodyLength(p.header) && (|p.acc| > 0 ==> |p.acc| < BodyLength(p.header)))
    && (p.state.Uninit? ==> p == FRESH)
    && |p.acc| + NextRead(p) <= 2 * PDU_PROTO_MAX_LEN
  }

  datatype Sunk = Sunk(parser: Parser, emitted: seq<Unpacked>)

  function Message(h: Header, status: UnpackStatus, buf: seq<Byte>): Unpacked
    requires status == Success ==> BodyLength(h) <= |buf|
  {
    if status != Success then Bad(status)
    else Good(h, buf[..h.protobufLength], buf[h.protobufLength..BodyLength(h)])
  }

  /** sink_cb on a chunk no larger than the last next_read. */
  function Sink(p: Parser, chunk: seq<Byte>): (r: Sunk)
    requires Fits(p) && |chunk| <= NextRead(p)
    ensures Fits(r.parser)
  {
    var acc := p.acc + chunk;
    match p.state
    case Uninit => Sunk(PRIMED, [])
    case AwaitingHeader =>
      if |acc| == PDU_HEADER_LEN then
        match DecodeHeader(acc)
        case Some(h) => Sunk(Parser(AwaitingBody, [], h, Success), [])
        case None => Sunk(Parser(AwaitingHeader, [], p.header, InvalidHeader), [Message(p.header, InvalidHeader, [])])
      else Sunk(p.(acc := acc), [])
    case AwaitingBody =>
      if |acc| == BodyLength(p.header) then
        Sunk(p.(state := AwaitingHeader, acc := []), [Message(p.header, p.status, acc)])
      else Sunk(p.(acc := acc), [])
  }

  // ---------------------------------------------------------------------------
  // The reference: a parser that sees the whole stream at once

  /** The messages a stream yields, and whether it leaves the reader asking for zero bytes. */
  datatype Parsed = Parsed(frames: seq<Unpacked>, stalled: bool)

  function Prepend(before: seq<Unpacked>, p: Parsed): Parsed { Parsed(before + p.frames, p.stalled) }

  function Parse(s: seq<Byte>): Parsed
    decreases |s|, 1
  {
    if |s| < PDU_HEADER_LEN then Parsed([], false)
    else match DecodeHeader(s[..PDU_HEADER_LEN])
      case Some(h) => ParseBody(h, s[PDU_HEADER_LEN..])
      case None => Prepend([Bad(InvalidHeader)], Parse(s[PDU_HEADER_LEN..]))
  }

  /** A header that announces no body leaves the reader waiting for zero bytes, forever. */
  function ParseBody(h: Header, s: seq<Byte>): Parsed
    decreases |s|, 2
  {
    var p, n := h.protobufLength, BodyLength(h);
    if n == 0 then Parsed([], true)
    else if |s| < n then Parsed([], false)
    else Prepend([Good(h, s[..p], s[p..n])], Parse(s[n..]))
  }

  /** What a parser in the middle of a PDU still makes of the rest of the stream. */
  function Rest(p: Parser, s: seq<Byte>): Parsed {
    if p.state.AwaitingBody? then ParseBody(p.header, p.acc + s) else Parse(p.acc + s)
  }

  /** One chunk, however short, takes the parser exactly as far as the whole-stream parser. */
  lemma SinkIsRest(p: Parser, chunk: seq<Byte>, more: seq<Byte>)
    requires Fits(p) && 1 <= |chunk| <= NextRead(p)
    ensures var r := Sink(p, chunk); Rest(p, chunk + more) == Prepend(r.emitted, Rest(r.parser, more))
  {
    hide DecodeHeader;
    var acc := p.acc + chunk;
    assert p.acc + (chunk + more) == acc + more;
    if p.state.AwaitingHeader? && |acc| == PDU_HEADER_LEN {
      assert (acc + more)[..PDU_HEADER_LEN] == acc && (acc + more)[PDU_HEADER_LEN..] == more == [] + more;
    } else if p.state.AwaitingBody? && |acc| == BodyLength(p.header) {
      var k, n := p.header.protobufLength, BodyLength(p.header);
      assert (acc + more)[..k] == acc[..k] && (acc + more)[k..n] == acc[k..n] && (acc + more)[n..] == more == [] + more;
    }
  }

  // ---------------------------------------------------------------------------
  // Round trip

  datatype Pdu = Pdu(proto: seq<Byte>, value: seq<Byte>)

  function Stream(pdus: seq<Pdu>): seq<Byte> {
    if pdus == [] then [] else Packed(pdus[0].proto, pdus[0].value) + Stream(pdus[1..])
  }

  function Received(pdu: Pdu): Unpacked {
    Good(Header(VERSION_PREFIX, |pdu.proto|, |pdu.value|), pdu.proto, pdu.value)
  }

  function AllReceived(pdus: seq<Pdu>): seq<Unpacked> {
    if pdus == [] then [] else [Received(pdus[0])] + AllReceived(pdus[1..])
  }

  /** What the sender can check: both parts within 1 MiB, and not both empty. */
  predicate Sendable(pdu: Pdu) {
    |pdu.proto| <= PDU_PROTO_MAX_LEN && |pdu.value| <= PDU_PROTO_MAX_LEN && |pdu.proto| + |pdu.value| > 0
  }

  lemma HeaderRoundTrip(proto: seq<Byte>, value: seq<Byte>, more: seq<Byte>)
    requires |proto| < U32 && |value| < U32
    ensures var s := Packed(proto, value) + more;
            && |s| >= PDU_HEADER_LEN && s[PDU_HEADER_LEN..] == proto + value + more
            && DecodeHeader(s[..PDU_HEADER_LEN]) ==
                 (if |proto| <= PDU_PROTO_MAX_LEN && |value| <= PDU_PROTO_MAX_LEN
                  then Some(Header(VERSION_PREFIX, |proto|, |value|)) else None)
  {
    var s := Packed(proto, value) + more;
    Pow256Of4();
    DecodeEncode(|proto|, 4);
    DecodeEncode(|value|, 4);
    hide BigEndian, FromBigEndian, Pow256;
    var a, b := BigEndian(|proto|, 4), BigEndian(|value|, 4);
    assert s == [VERSION_PREFIX] + a + b + (proto + value + more);
    assert s[..PDU_HEADER_LEN][1..5] == a;
    assert s[..PDU_HEADER_LEN][5..9] == b;
  }

  /** The first PDU of a stream: parsed whole if it is sendable; otherwise the first thing
      that comes out, if anything does, is an error. */
  lemma FirstFrame(pdu: Pdu, more: seq<Byte>)
    requires |pdu.proto| < U32 && |pdu.value| < U32
    ensures var out := Parse(Packed(pdu.proto, pdu.value) + more);
            if Sendable(pdu) then out == Prepend([Received(pdu)], Parse(more))
            else out.frames == [] || out.frames[0] == Bad(InvalidHeader)
  {
    HeaderRoundTrip(pdu.proto, pdu.value, more);
    var body, p, n := pdu.proto + pdu.value + more, |pdu.proto|, |pdu.proto| + |pdu.value|;
    assert body[..p] == pdu.proto && body[p..n] == pdu.value && body[n..] == more;
  }

  /** A PDU without a body stalls the reader: whatever is sent before it still comes out, and
      nothing that is sent after it ever does. */
  lemma {:induction false} EmptyPduStalls(pdus: seq<Pdu>, more: seq<Byte>)
    requires forall i | 0 <= i < |pdus| :: Sendable(pdus[i])
    ensures Parse(Stream(pdus) + (Packed([], []) + more)) == Parsed(AllReceived(pdus), true)
  {
    var rest := Packed([], []) + more;
    if pdus == [] {
      HeaderRoundTrip([], [], more);
      assert [] + rest == rest;
    } else {
      EmptyPduStalls(pdus[1..], more);
      FirstFrame(pdus[0], Stream(pdus[1..]) + rest);
      hide Parse;
      assert Stream(pdus) + rest == Packed(pdus[0].proto, pdus[0].value) + (Stream(pdus[1..]) + rest);
    }
  }

  /** Printing then parsing gives back the same PDUs in order, exactly if each of them is
      sendable. */
  lemma {:induction false} RoundTripIff(pdus: seq<Pdu>)
    requires forall i | 0 <= i < |pdus| :: |pdus[i].proto| < U32 && |pdus[i].value| < U32
    ensures Parse(Stream(pdus)).frames == AllReceived(pdus) <==> forall i | 0 <= i < |pdus| :: Sendable(pdus[i])
    ensures (forall i | 0 <= i < |pdus| :: Sendable(pdus[i])) ==> !Parse(Stream(pdus)).stalled
  {
    if pdus != [] {
      FirstFrame(pdus[0], Stream(pdus[1..]));
      RoundTripIff(pdus[1..]);
      hide Parse, Sendable;
      if Sendable(pdus[0]) {
        assert forall i | 1 <= i < |pdus| :: pdus[i] == pdus[1..][i - 1];
        var out, all := Parse(Stream(pdus)).frames, AllReceived(pdus);
        assert out[1..] == Parse(Stream(pdus[1..])).frames && all[1..] == AllReceived(pdus[1..]);
      }
    }
  }

  // ---------------------------------------------------------------------------
  // One listener, many sockets, one read buffer

  /** connection_info and socket_info of one socket; history: everything read from it and
      everything unpacked from it. */
  datatype Conn = Conn(parser: Parser, toRead: int, received: seq<Byte>, unpacked: seq<Unpacked>)

  datatype Reader = Reader(bufSize: nat, conns: map<int, Conn>)

  datatype Event = AddSocket(fd: int) | ReadSome(fd: int, chunk: seq<Byte>) | RemoveSocket(fd: int)

  /** ListenerTask_GrowReadBuf, when the allocation succeeds. */
  function GrowReadBuf(bufSize: nat, nsize: nat): nat {
    if nsize < bufSize then bufSize else nsize
  }

  /** add_socket primes the parser with an empty read; a read returns between 1 and
      to_read_size bytes; anything else changes nothing. */
  function Handle(r: Reader, e: Event): Reader
    requires ReaderOk(r)
  {
    match e
    case AddSocket(fd) =>
      if fd in r.conns then r
      else
        var sunk := Sink(FRESH, []);
        var next := NextRead(sunk.parser);
        Reader(GrowReadBuf(r.bufSize, next), r.conns[fd := Conn(sunk.parser, next, [], sunk.emitted)])
    case ReadSome(fd, chunk) =>
      if fd !in r.conns || !(1 <= |chunk| <= r.conns[fd].toRead) then r
      else
        var c := r.conns[fd];
        var sunk := Sink(c.parser, chunk);
        var next := NextRead(sunk.parser);
        Reader(if next > r.bufSize then GrowReadBuf(r.bufSize, next) else r.bufSize,
               r.conns[fd := Conn(sunk.parser, next, c.received + chunk, c.unpacked + sunk.emitted)])
    case RemoveSocket(fd) => r.(conns := r.conns - {fd})
  }

  predicate ConnFits(c: Conn, bufSize: nat) {
    Fits(c.parser) && !c.parser.state.Uninit? && c.toRead == NextRead(c.parser) && 0 <= c.toRead <= bufSize
  }

  predicate ReaderOk(r: Reader) {
    r.bufSize <= 2 * PDU_PROTO_MAX_LEN && forall fd | fd in r.conns :: ConnFits(r.conns[fd], r.bufSize)
  }

  /** What has been unpacked is what the whole-stream parser makes of the bytes so far. */
  ghost predicate Faithful(c: Conn) {
    forall more :: Parse(c.received + more) == Prepend(c.unpacked, Rest(c.parser, more))
  }

  ghost predicate AllFaithful(r: Reader) {
    forall fd | fd in r.conns :: Faithful(r.conns[fd])
  }

  lemma ReadFaithful(c: Conn, chunk: seq<Byte>)
    requires Faithful(c) && Fits(c.parser) && 1 <= |chunk| <= NextRead(c.parser)
    ensures var sunk := Sink(c.parser, chunk);
            Faithful(Conn(sunk.parser, NextRead(sunk.parser), c.received + chunk, c.unpacked + sunk.emitted))
  {
    var sunk := Sink(c.parser, chunk);
    var d := Conn(sunk.parser, NextRead(sunk.parser), c.received + chunk, c.unpacked + sunk.emitted);
    hide Sink, Rest, Parse;
    forall more ensures Parse(d.received + more) == Prepend(d.unpacked, Rest(d.parser, more)) {
      assert d.received + more == c.received + (chunk + more);
      SinkIsRest(c.parser, chunk, more);
      assert c.unpacked + (sunk.emitted + Rest(d.parser, more).frames) == d.unpacked + Rest(d.parser, more).frames;
    }
  }

  lemma PrimedFaithful()
    ensures Faithful(Conn(PRIMED, PDU_HEADER_LEN, [], []))
  {
    hide Parse;
    forall more: seq<Byte> ensures Parse([] + more) == Prepend([], Rest(PRIMED, more)) {
      assert [] + more == more;
    }
  }

  /** Every event keeps the buffer large enough and every socket faithful to its own stream. */
  lemma {:induction false} HandleKeeps(r: Reader, e: Event)
    requires ReaderOk(r) && AllFaithful(r)
    ensures ReaderOk(Handle(r, e)) && AllFaithful(Handle(r, e))
    ensures Handle(r, e).bufSize >= r.bufSize
  {
    hide Faithful, Fits;
    match e
    case AddSocket(fd) => PrimedFaithful();
    case ReadSome(fd, chunk) =>
      if fd in r.conns && 1 <= |chunk| <= r.conns[fd].toRead { ReadFaithful(r.conns[fd], chunk); }
    case RemoveSocket(_) =>
  }

  /** The listener starts without sockets and without a read buffer. */
  ghost function Exec(events: seq<Event>): (r: Reader)
    ensures ReaderOk(r) && AllFaithful(r)
  {
    if events == [] then Reader(0, map[])
    else
      var before, e := Exec(events[..|events| - 1]), events[|events| - 1];
      assert ReaderOk(Handle(before, e)) && AllFaithful(Handle(before, e)) by { HandleKeeps(before, e); }
      Handle(before, e)
  }

  /** A read of any size up to the one asked for goes to its own socket's parser, all of it, and
      leaves every other socket alone. */
  lemma ReadIsReceived(r: Reader, fd: int, chunk: seq<Byte>)
    requires ReaderOk(r) && fd in r.conns && 1 <= |chunk| <= r.conns[fd].toRead
    ensures var t := Handle(r, ReadSome(fd, chunk));
            && t.conns.Keys == r.conns.Keys && t.conns[fd].received == r.conns[fd].received + chunk
            && t.conns[fd].parser == Sink(r.conns[fd].parser, chunk).parser
            && forall f | f in r.conns && f != fd :: t.conns[f] == r.conns[f]
  {
  }

  /** The socket was added, and not removed since. */
  predicate Tracked(events: seq<Event>, fd: int) {
    events != [] &&
    (var before := events[..|events| - 1];
     match events[|events| - 1]
     case AddSocket(f) => f == fd || Tracked(before, fd)
     case RemoveSocket(f) => f != fd && Tracked(before, fd)
     case ReadSome(_, _) => Tracked(before, fd))
  }

  /** Everything read from the socket since it was added. */
  ghost function Reads(events: seq<Event>, fd: int): seq<Byte> {
    if events == [] then []
    else
      var before := events[..|events| - 1];
      match events[|events| - 1]
      case AddSocket(f) => if f == fd && !Tracked(before, fd) then [] else Reads(before, fd)
      case RemoveSocket(f) => if f == fd then [] else Reads(before, fd)
      case ReadSome(f, chunk) =>
        var r := Exec(before);
        if f == fd && fd in r.conns && 1 <= |chunk| <= r.conns[fd].toRead then Reads(before, fd) + chunk
        else Reads(before, fd)
  }

  /** In every run: the listener reads from exactly the sockets that were added and not removed, and
      what it has received from each is every byte read from it, in order. */
  lemma {:induction false} ReceivedIsWhatWasRead(events: seq<Event>, fd: int)
    ensures fd in Exec(events).conns <==> Tracked(events, fd)
    ensures fd in Exec(events).conns ==> Exec(events).conns[fd].received == Reads(events, fd)
  {
    hide Sink, ReaderOk, AllFaithful, NextRead, GrowReadBuf;
    if events != [] {
      var before, e := events[..|events| - 1], events[|events| - 1];
      ReceivedIsWhatWasRead(before, fd);
      assert Exec(events) == Handle(Exec(before), e);
    }
  }

  lemma RestOfNothing(p: Parser)
    requires Fits(p) && !p.state.Uninit?
    ensures Rest(p, []) == Parsed([], NextRead(p) == 0)
    ensures NextRead(p) == 0 ==> forall more :: Rest(p, more) == Parsed([], true)
  {
    assert p.acc + [] == p.acc;
  }

  /** In every run over any interleaving of sockets and any chunking: each socket has unpacked
      exactly what the whole-stream parser yields for its own bytes; it asks for no bytes
      exactly if that stream has stalled; and neither its own buffer nor the shared read
      buffer can be overrun by the read it asks for. */
  lemma {:induction false} EverySocketParsesItsOwnStream(events: seq<Event>, fd: int)
    requires fd in Exec(events).conns
    ensures var r := Exec(events); var c := r.conns[fd];
            && Parse(c.received) == Parsed(c.unpacked, c.toRead == 0)
            && |c.parser.acc| + c.toRead <= 2 * PDU_PROTO_MAX_LEN && 0 <= c.toRead <= r.bufSize
  {
    var c := Exec(events).conns[fd];
    hide Exec, Parse;
    assert Faithful(c) && ConnFits(c, Exec(events).bufSize);
    assert c.received + [] == c.received && c.unpacked + [] == c.unpacked;
    RestOfNothing(c.parser);
  }

  /** A peer that sends sendable PDUs: at every moment of every run the messages so far are the
      first ones sent, the reader still asks for bytes, and once all bytes are in, so are all
      messages. */
  lemma {:induction false} PeerIsUnderstood(events: seq<Event>, fd: int, pdus: seq<Pdu>)
    requires fd in Exec(events).conns && Exec(events).conns[fd].received <= Stream(pdus)
    requires forall i | 0 <= i < |pdus| :: Sendable(pdus[i])
    ensures var c := Exec(events).conns[fd];
            && c.unpacked <= AllReceived(pdus) && c.toRead >= 1
            && (c.received == Stream(pdus) ==> c.unpacked == AllReceived(pdus))
  {
    var c := Exec(events).conns[fd];
    EverySocketParsesItsOwnStream(events, fd);
    assert Faithful(c) && ConnFits(c, Exec(events).bufSize);
    hide Exec, Parse, Stream, AllReceived;
    var more := Stream(pdus)[|c.received|..];
    assert c.received + more == Stream(pdus);
    RestOfNothing(c.parser);
    RoundTripIff(pdus);
  }

  // ---------------------------------------------------------------------------
  // The parser in place

  /** unpack_header: reads the raw lengths as host integers and converts them. */
  method UnpackHeader(b: seq<Byte>, host: Endian) returns (h: Option<Header>)
    ensures |b| != PDU_HEADER_LEN ==> h.None?
    ensures |b| == PDU_HEADER_LEN ==> h == DecodeHeader(b)
  {
    if |b| != PDU_HEADER_LEN { return None; }
    hide BigEndian, FromBigEndian, Pow256, InMemory, Load;
    Pow256Of4();
    LoadStored(b[1..5], host);
    LoadStored(b[5..9], host);
    var protobufLength := ToHostU32(Load(b[1..5], host), host);
    var valueLength := ToHostU32(Load(b[5..9], host), host);
    if protobufLength <= PDU_PROTO_MAX_LEN && valueLength <= PDU_PROTO_MAX_LEN {
      h := Some(Header(b[0], protobufLength, valueLength));
    } else {
      h := None;
    }
  }

  /** socket_info. */
  class SocketInfo {
    var state: SocketState
    var header: Header
    var unpackStatus: UnpackStatus
    var accumulated: nat
    const buf: array<Byte>

    ghost predicate InBounds()
      reads this
    {
      buf.Length == 2 * PDU_PROTO_MAX_LEN && accumulated <= buf.Length
    }

    ghost function View(): (p: Parser)
      requires InBounds()
      reads this, buf
      ensures |p.acc| == accumulated
    {
      Parser(state, buf[..accumulated], header, unpackStatus)
    }

    ghost predicate Valid()
      reads this, buf
    {
      InBounds() && Fits(View())
    }

    /** The zeroed allocation made when a session connects. */
    constructor ()
      ensures Valid() && fresh(buf) && View() == FRESH
    {
      state, header, unpackStatus, accumulated := Uninit, NO_HEADER, Undefined, 0;
      buf := new Byte[2 * PDU_PROTO_MAX_LEN];
    }

    method ResetTransfer() returns (nextRead: nat)
      requires InBounds()
      modifies this
      ensures Valid() && View() == PRIMED && nextRead == PDU_HEADER_LEN
    {
      state, accumulated, unpackStatus, header := AwaitingHeader, 0, Undefined, NO_HEADER;
      nextRead := PDU_HEADER_LEN;
    }

    /** The message a full_msg_buffer stands for, read from the buffer after the fact. */
    ghost function Delivered(): Unpacked
      requires InBounds() && (unpackStatus == Success ==> BodyLength(header) <= buf.Length)
      reads this, buf
    {
      Message(header, unpackStatus, buf[..])
    }

    /** memcpy to the end of the filled part. */
    method Append(chunk: seq<Byte>)
      requires InBounds() && accumulated + |chunk| <= buf.Length
      modifies this`accumulated, buf
      ensures InBounds() && accumulated == old(accumulated) + |chunk|
      ensures buf[..accumulated] == old(buf[..accumulated]) + chunk
    {
      CopyInto(buf, accumulated, chunk);
      accumulated := accumulated + |chunk|;
    }

    /** sink_cb: it never writes outside the buffer, it moves the parser as described, it asks
        for what is missing, and what it leaves in the buffer is the message. */
    method SinkCb(chunk: seq<Byte>, host: Endian) returns (nextRead: nat, full: bool)
      requires Valid() && |chunk| <= NextRead(View())
      modifies this, buf
      ensures Valid() && View() == Sink(old(View()), chunk).parser && nextRead == NextRead(View())
      ensures full <==> Sink(old(View()), chunk).emitted != []
      ensures full && unpackStatus == Success ==> BodyLength(header) <= buf.Length
      ensures full ==> Sink(old(View()), chunk).emitted == [Delivered()]
    {
      hide FromBigEndian, DecodeHeader;
      ghost var p := View();
      full := false;
      match state
      case Uninit =>
        nextRead := ResetTransfer();
      case AwaitingHeader =>
        Append(chunk);
        nextRead := PDU_HEADER_LEN - accumulated;
        if nextRead == 0 {
          var h := UnpackHeader(buf[..PDU_HEADER_LEN], host);
          accumulated := 0;
          if h.Some? {
            header, unpackStatus, state := h.value, Success, AwaitingBody;
            nextRead := header.protobufLength + header.valueLength;
          } else {
            unpackStatus, state := InvalidHeader, AwaitingHeader;
            nextRead, full := PDU_HEADER_LEN, true;
          }
        }
      case AwaitingBody =>
        Append(chunk);
        nextRead := header.protobufLength + header.valueLength - accumulated;
        if nextRead == 0 {
          ghost var acc, k, n := p.acc + chunk, header.protobufLength, BodyLength(header);
          assert acc == buf[..n] && acc[..k] == buf[..][..k] && acc[k..n] == buf[..][k..n];
          state, accumulated := AwaitingHeader, 0;
          nextRead, full := PDU_HEADER_LEN, true;
        }
    }

    /** unpack_cb, up to the protobuf library. */
    method UnpackCb() returns (u: Unpacked)
      requires InBounds() && (unpackStatus == Success ==> BodyLength(header) <= buf.Length)
      ensures u == Delivered()
    {
      if unpackStatus != Success { return Bad(unpackStatus); }
      var n := header.protobufLength;
      u := Good(header, buf[..n], buf[n..n + header.valueLength]);
      assert buf[..][..n] == buf[..n] && buf[..][n..n + header.valueLength] == buf[n..n + header.valueLength];
    }
  }
}
