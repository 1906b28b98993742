/**
 * The framing of the gateway link (src/edge/gwlink.ts:61-129): every frame is a four-byte
 * little-endian length, a type byte and a payload; datagrams travel with the address they
 * came from.
 */
module Frames {
  import opened Wrappers
  import opened Octets
  import opened Streams

  const MAX_FRAME := 65536

  datatype Message = Message(kind: Byte, payload: Bytes)

  function Le32(n: nat): (r: Bytes)
    ensures |r| == 4
  {
    Le(n, 4)
  }

  function FromLe32(b: Bytes): nat
    requires |b| == 4
  {
    FromLe(b)
  }

  lemma Le32ReadsBack(n: nat)
    requires n < 0x1_0000_0000
    ensures FromLe32(Le32(n)) == n
  {
    SpanOf();
    LeReadsBack(n, 4);
  }

  /** The bytes of a frame. */
  function Wired(m: Message): Bytes { Le32(|m.payload| + 1) + [m.kind] + m.payload }

  predicate Fits(m: Message) { |m.payload| + 1 <= MAX_FRAME }

  /** frame: refuses a type that is not a byte and a payload over the limit. */
  function Encode(kind: int, payload: Bytes): (r: Option<Bytes>)
    ensures r.Some? <==> 0 <= kind <= 255 && |payload| < 65_536
    ensures r.Some? ==> Fits(Message(kind, payload)) && r.value == Wired(Message(kind, payload))
  {
    if kind < 0 || kind > 255 || |payload| + 1 > MAX_FRAME then None else Some(Wired(Message(kind, payload)))
  }

  // ---- reading one byte at a time ------------------------------------------------------------

  /** What a reader holds: up to four length bytes, or part of a body of known length. */
  datatype Held = Header(got: Bytes) | Body(length: nat, got: Bytes)

  const START := Header([])

  predicate GoodLength(n: nat) { 1 <= n <= MAX_FRAME }

  /** Four length bytes that no frame has. */
  predicate Bad(h: Held) { h.Header? && |h.got| == 4 }

  predicate Sound(h: Held) {
    match h
    case Header(got) => |got| < 4 || (|got| == 4 && !GoodLength(FromLe32(got)))
    case Body(length, got) => GoodLength(length) && |got| < length
  }

  /** After the fourth length byte: wait for the body, or stop for good. */
  function Opened(four: Bytes): Held
    requires |four| == 4
  {
    if GoodLength(FromLe32(four)) then Body(FromLe32(four), []) else Header(four)
  }

  function MessageOf(body: Bytes): Message
    requires |body| > 0
  {
    Message(body[0], body[1..])
  }

  function FeedByte(h: Held, b: Byte): Scanned<Held, Message> {
    match h
    case Header(got) =>
      if |got| >= 4 then Scanned(h, [])
      else if |got| == 3 then Scanned(Opened(got + [b]), [])
      else Scanned(Header(got + [b]), [])
    case Body(length, got) =>
      if |got| + 1 == length then Scanned(START, [MessageOf(got + [b])])
      else Scanned(Body(length, got + [b]), [])
  }

  function Feed(h: Held, bytes: Bytes): Scanned<Held, Message> { Scan(FeedByte, h, bytes) }

  /** A bad length is never left: nothing more is read. */
  lemma {:induction false} BadStays(h: Held, bytes: Bytes)
    requires Bad(h)
    ensures Feed(h, bytes) == Scanned(h, [])
  {
    if bytes != [] { BadStays(h, bytes[..|bytes| - 1]); }
  }

  lemma {:induction false} FeedPartHeader(got: Bytes, part: Bytes)
    requires |got| + |part| <= 4 && |got| < 4
    ensures Feed(Header(got), part) ==
      Scanned(if |got| + |part| == 4 then Opened(got + part) else Header(got + part), [])
  {
    if part == [] {
      assert got + part == got;
    } else {
      FeedPartHeader(got, part[..|part| - 1]);
      assert got + part[..|part| - 1] + [part[|part| - 1]] == got + part;
    }
  }

  lemma {:induction false} FeedPartBody(length: nat, got: Bytes, part: Bytes)
    requires |got| < length && |got| + |part| <= length
    ensures |got| + |part| < length ==> Feed(Body(length, got), part) == Scanned(Body(length, got + part), [])
    ensures |got| + |part| == length ==> Feed(Body(length, got), part) == Scanned(START, [MessageOf(got + part)])
  {
    if part == [] {
      assert got + part == got;
    } else {
      FeedPartBody(length, got, part[..|part| - 1]);
      assert got + part[..|part| - 1] + [part[|part| - 1]] == got + part;
    }
  }

  // ---- any chunking ------------------------------------------------------------------------------

  function PushAll(h: Held, chunks: seq<Bytes>): Scanned<Held, Message> { ScanAll(FeedByte, h, chunks) }

  /** A push throws when it is given bytes and ends on a bad length. */
  predicate Throws(h: Held, chunk: Bytes) { chunk != [] && Bad(Feed(h, chunk).state) }

  /** However the stream is cut, the frames and the state left are those of the whole. */
  lemma ChunkingIsInvisible(h: Held, chunks: seq<Bytes>)
    ensures PushAll(h, chunks) == Feed(h, Flat(chunks))
  {
    ScanChunks(FeedByte, h, chunks);
  }

  /** The pushes that throw are exactly the non-empty ones that reach or follow the bad length. */
  lemma ThrowsAtTheSameByte(h: Held, chunks: seq<Bytes>, i: nat)
    requires i < |chunks|
    ensures Throws(PushAll(h, chunks[..i]).state, chunks[i]) <==>
      chunks[i] != [] && Bad(Feed(h, Flat(chunks[..i + 1])).state)
  {
    ScanChunks(FeedByte, h, chunks[..i + 1]);
    assert chunks[..i + 1][..i] == chunks[..i];
  }

  // ---- the reader inverts the writer -------------------------------------------------------------------

  function Wire(ms: seq<Message>): Bytes { Written(Wired, ms) }

  lemma ReadsHeadAndBody(head: Bytes, body: Bytes)
    requires |head| == 4 && FromLe32(head) == |body| && GoodLength(|body|)
    ensures Feed(START, head + body) == Scanned(START, [MessageOf(body)])
  {
    FeedPartHeader([], head);
    FeedPartBody(|body|, [], body);
    ScanSplit(FeedByte, START, head, body);
    assert [] + head == head && [] + body == body;
  }

  /**
   * A frame that is sent arrives as one message with nothing held back; only those that no reader
   * would take are refused.
   */
  lemma SentIsRead(kind: int, payload: Bytes)
    ensures var r := Encode(kind, payload);
      if r.Some? then IsByte(kind) && Feed(START, r.value) == Scanned(START, [Message(kind, payload)])
      else !IsByte(kind) || !GoodLength(|payload| + 1)
  {
    if Encode(kind, payload).Some? { ReadsOne(Message(kind, payload)); }
  }

  predicate IsByte(v: int) { 0 <= v <= 255 }

  lemma ReadsOne(m: Message)
    requires Fits(m)
    ensures Feed(START, Wired(m)) == Scanned(START, [m])
  {
    var head, body := Le32(|m.payload| + 1), [m.kind] + m.payload;
    Le32ReadsBack(|m.payload| + 1);
    ReadsHeadAndBody(head, body);
    assert head + body == Wired(m) && body[1..] == m.payload;
  }

  /** Written frames come back: each once, in order, with nothing left over. */
  lemma ReaderInvertsWriter(ms: seq<Message>)
    requires forall i :: 0 <= i < |ms| ==> Fits(ms[i])
    ensures Feed(START, Wire(ms)) == Scanned(START, ms)
  {
    forall i | 0 <= i < |ms| ensures Scan(FeedByte, START, Wired(ms[i])) == Scanned(START, [ms[i]]) { ReadsOne(ms[i]); }
    ReadsAllBack(FeedByte, START, Wired, ms);
  }

  /** The bytes a reader has taken in and not passed on. */
  function Pending(h: Held): Bytes {
    match h
    case Header(got) => got
    case Body(length, got) => Le32(length) + got
  }

  lemma HeaderPassesOn(got: Bytes, b: Byte)
    requires |got| < 4
    ensures var r := FeedByte(Header(got), b); Sound(r.state) && r.out == [] && Pending(r.state) == got + [b]
  {
    if |got| == 3 { LeInverts(got + [b]); }
  }

  lemma WiredBody(body: Bytes)
    requires |body| > 0
    ensures Wired(MessageOf(body)) == Le32(|body|) + body
  {
    assert [body[0]] + body[1..] == body;
  }

  lemma PassedOnOne(h: Held, b: Byte)
    requires Sound(h) && !Bad(h)
    ensures Sound(FeedByte(h, b).state)
    ensures Wire(FeedByte(h, b).out) + Pending(FeedByte(h, b).state) == Pending(h) + [b]
  {
    match h
    case Header(got) =>
      HeaderPassesOn(got, b);
    case Body(length, got) =>
      var all := got + [b];
      assert Le32(length) + got + [b] == Le32(length) + all;
      if |all| == length {
        WiredBody(all);
        WrittenOne(Wired, MessageOf(all));
      }
  }

  /**
   * The other direction, for any bytes: until a bad length is met, the frames passed on,
   * written out again, and the bytes held are exactly the bytes received.
   */
  lemma NothingLost(h: Held, bytes: Bytes)
    requires Sound(h) && (bytes == [] || !Bad(Feed(h, bytes[..|bytes| - 1]).state))
    ensures Sound(Feed(h, bytes).state)
    ensures Wire(Feed(h, bytes).out) + Pending(Feed(h, bytes).state) == Pending(h) + bytes
  {
    forall g: Held, b: Byte | Sound(g) && !Bad(g)
      ensures Sound(FeedByte(g, b).state) &&
        Wire(FeedByte(g, b).out) + Pending(FeedByte(g, b).state) == Pending(g) + [b]
    {
      PassedOnOne(g, b);
    }
    ScanConserves(FeedByte, Sound, Bad, Pending, Wired, h, bytes);
  }

  // ---- the addresses of datagrams ---------------------------------------------------------------------------

  /** A node address as character codes, and whether it reads as an IP address. */
  type Text = seq<int>

  predicate Ascii(t: Text) { forall i :: 0 <= i < |t| ==> 0 <= t[i] < 128 }

  ghost predicate OnlyAscii(isIp: Text -> bool) { forall t :: isIp(t) ==> Ascii(t) }

  datatype Datagram = Datagram(addr: Text, port: int, data: Bytes)

  /** addressed: the length byte holds the length modulo 256. */
  function Addressed(isIp: Text -> bool, d: Datagram): (r: Option<Bytes>)
    ensures r.Some? ==> isIp(d.addr) && 1 <= d.port <= 65535
  {
    if !isIp(d.addr) || d.port < 1 || d.port > 65535 then None
    else Some([|d.addr| % 256] + AsBytes(d.addr) + [d.port % 256, d.port / 256] + d.data)
  }

  function AsBytes(t: Text): (r: Bytes)
    ensures |r| == |t|
  {
    seq(|t|, i requires 0 <= i < |t| => t[i] % 256)
  }

  predicate Below128(b: Bytes) { forall i :: 0 <= i < |b| ==> b[i] <= 127 }

  function ParseAddressed(isIp: Text -> bool, p: Bytes): (r: Option<Datagram>) {
    if p == [] || |p| < 1 + p[0] as int + 2 then None
    else
      var n := p[0] as int;
      var raw := p[1..1 + n];
      if !Below128(raw) then None
      else
        var addr: Text := raw;
        var port := p[1 + n] as int + 256 * p[2 + n] as int;
        if !isIp(addr) || port == 0 then None else Some(Datagram(addr, port, p[3 + n..]))
  }

  /** parseAddressed undoes addressed exactly for addresses whose length fits one byte. */
  lemma AddressRoundTrip(isIp: Text -> bool, d: Datagram)
    requires OnlyAscii(isIp) && Addressed(isIp, d).Some?
    ensures ParseAddressed(isIp, Addressed(isIp, d).value) == Some(d) <==> |d.addr| <= 255
  {
    var p, n := Addressed(isIp, d).value, |d.addr|;
    if n <= 255 {
      assert p[1..1 + n] == AsBytes(d.addr);
      assert Ascii(d.addr);
      assert AsBytes(d.addr) == d.addr;
      assert p[1 + n] == d.port % 256 && p[2 + n] == d.port / 256;
      assert p[3 + n..] == d.data;
    }
  }

  /** Whatever the syntax of addresses, one of more than 255 characters that is written is not read back. */
  lemma LongAddressIsLost(isIp: Text -> bool, d: Datagram)
    requires OnlyAscii(isIp) && Addressed(isIp, d).Some? && |d.addr| > 255
    ensures ParseAddressed(isIp, Addressed(isIp, d).value) != Some(d)
  {
    AddressRoundTrip(isIp, d);
  }

  /** An IPv6 address with a zone: "fe80::1%" and 248 letters. */
  function ZoneAddress(): (r: Text)
    ensures |r| == 256 && r[7] == 37
  {
    [102, 101, 56, 48, 58, 58, 49, 37] + seq(248, i => 97)
  }

  /** Such an address is one: its length byte is zero. */
  lemma ZoneIsLost(isIp: Text -> bool, port: int, data: Bytes)
    requires OnlyAscii(isIp) && isIp(ZoneAddress()) && 1 <= port <= 65535
    ensures var d := Datagram(ZoneAddress(), port, data);
      Addressed(isIp, d).Some? && Addressed(isIp, d).value[0] == 0 &&
        ParseAddressed(isIp, Addressed(isIp, d).value) != Some(d)
  {
    LongAddressIsLost(isIp, Datagram(ZoneAddress(), port, data));
  }

  /** What parses is exactly what addressed writes for it. */
  lemma ParsedIsAddressed(isIp: Text -> bool, p: Bytes)
    requires ParseAddressed(isIp, p).Some?
    ensures Addressed(isIp, ParseAddressed(isIp, p).value) == Some(p)
  {
    var d, n := ParseAddressed(isIp, p).value, p[0] as int;
    assert AsBytes(d.addr) == p[1..1 + n];
    assert p == [n] + p[1..1 + n] + [p[1 + n], p[2 + n]] + p[3 + n..];
  }
}
