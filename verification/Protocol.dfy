/**
 * The node wire format (src/edge/protocol.ts): signed datagrams holding quantised REPORT and RAW
 * payloads. Numbers are exact; the HMAC is a function parameter giving eight bytes.
 */
module Protocol {
  import opened Wrappers
  import opened Octets
  import opened Streams

  const HEADER_SIZE := 22
  const TAG_SIZE := 8
  const GRID_SIZE := 768
  const MAX_DETECTIONS := 24
  const TYPE_REPORT: Byte := 1
  const TYPE_RAW: Byte := 2
  const TYPE_STATUS: Byte := 3
  const TYPE_OTA_STATUS: Byte := 4

  type Key = int
  type Hmac = (Key, Bytes) -> Bytes

  ghost predicate EightBytes(tag: Hmac) { forall k, d :: |tag(k, d)| == TAG_SIZE }

  lemma TagLength(tag: Hmac, k: Key, d: Bytes)
    requires EightBytes(tag)
    ensures |tag(k, d)| == TAG_SIZE
  {
  }

  // ---- numbers on the wire -------------------------------------------------------------------

  function Round(v: real): int { (v + 0.5).Floor }

  function U8(v: real): Byte { if Round(v) < 0 then 0 else if Round(v) > 255 then 255 else Round(v) }

  function U16(v: real): (r: nat)
    ensures r < 65536
  {
    if Round(v) < 0 then 0 else if Round(v) > 65535 then 65535 else Round(v)
  }

  /** writeInt16LE refuses what does not fit. */
  predicate FitsInt16(v: int) { -32768 <= v <= 32767 }

  function Int16(v: int): (r: Bytes)
    requires FitsInt16(v)
    ensures |r| == 2
  {
    Le(if v < 0 then v + 65536 else v, 2)
  }

  function FromInt16(b: Bytes): int { if FromLe(b) >= 32768 then FromLe(b) - 65536 else FromLe(b) }

  lemma Int16ReadsBack(v: int)
    requires FitsInt16(v)
    ensures FromInt16(Int16(v)) == v
  {
    SpanOf();
    LeReadsBack(if v < 0 then v + 65536 else v, 2);
  }

  lemma Int16Inverts(b: Bytes)
    requires |b| == 2
    ensures FitsInt16(FromInt16(b)) && Int16(FromInt16(b)) == b
  {
    SpanOf();
    LeInverts(b);
  }

  function Wrap32(n: int): nat { n % 0x1_0000_0000 }

  lemma Glue(b: Bytes, i: nat, j: nat)
    requires i <= j <= |b|
    ensures b[..i] + b[i..j] == b[..j]
  {
  }

  lemma Cut(a: Bytes, b: Bytes, c: Bytes)
    ensures var s := a + b + c;
      s[..|s| - |c|] == a + b && s[|s| - |c|..] == c && s[|a|..|s| - |c|] == b
  {
  }

  // ---- the envelope -----------------------------------------------------------------------------

  datatype Header = Header(kind: Byte, uid: Bytes, boot: int, seqNo: int, uptimeMs: int)

  predicate Buildable(h: Header) { |h.uid| == 6 && 0 <= h.boot < 65536 }

  function HeaderBytes(h: Header, length: nat): (r: Bytes)
    requires Buildable(h)
    ensures |r| == HEADER_SIZE
  {
    [84, 77, 1, h.kind] + h.uid + Le(h.boot, 2) + Le(Wrap32(h.seqNo), 4) + Le(Wrap32(h.uptimeMs), 4) + Le(length, 2)
  }

  const NO_TAG: Bytes := [0, 0, 0, 0, 0, 0, 0, 0]

  function Sealed(tag: Hmac, body: Bytes, key: Option<Key>): Bytes {
    body + (if key.Some? then tag(key.value, body) else NO_TAG)
  }

  function Datagram(tag: Hmac, h: Header, payload: Bytes, key: Option<Key>): Bytes
    requires Buildable(h)
  {
    Sealed(tag, HeaderBytes(h, |payload|) + payload, key)
  }

  datatype Verify = Verify(keys: seq<Key>, allowUnsigned: bool)

  datatype Envelope = Envelope(header: Header, signed: bool, payload: Bytes)

  predicate Tagged(got: Bytes) { exists i :: 0 <= i < |got| && got[i] != 0 }

  predicate SomeKey(tag: Hmac, keys: seq<Key>, body: Bytes, got: Bytes) {
    exists i :: 0 <= i < |keys| && tag(keys[i], body) == got
  }

  function HeaderOf(buf: Bytes): Header
    requires |buf| >= HEADER_SIZE
  {
    Header(buf[3], buf[4..10], FromLe(buf[10..12]), FromLe(buf[12..16]), FromLe(buf[16..20]))
  }

  /** The plaintext part of parsePacket, up to the payload. */
  function Open(tag: Hmac, verify: Verify, buf: Bytes): Result<Envelope> {
    if |buf| < HEADER_SIZE + TAG_SIZE then Err("short datagram")
    else if buf[0] != 84 || buf[1] != 77 then Err("bad magic")
    else if buf[2] != 1 then Err("unsupported version")
    else if |buf| != HEADER_SIZE + FromLe(buf[20..22]) + TAG_SIZE then Err("length mismatch")
    else
      var n := |buf| - TAG_SIZE;
      var body, got := buf[..n], buf[n..];
      if Tagged(got) && !SomeKey(tag, verify.keys, body, got) then Err("bad signature")
      else if !Tagged(got) && !verify.allowUnsigned then Err("unsigned")
      else Ok(Envelope(HeaderOf(buf), Tagged(got), buf[HEADER_SIZE..n]))
  }

  predicate Admits(tag: Hmac, verify: Verify, body: Bytes, got: Bytes) {
    if Tagged(got) then SomeKey(tag, verify.keys, body, got) else verify.allowUnsigned
  }

  lemma HeaderLayout(magic: Bytes, uid: Bytes, boot: Bytes, seqNo: Bytes, uptime: Bytes, length: Bytes, rest: Bytes)
    requires |magic| == 4 && |uid| == 6 && |boot| == 2 && |seqNo| == 4 && |uptime| == 4 && |length| == 2
    ensures var b := magic + uid + boot + seqNo + uptime + length + rest;
      b[..4] == magic && b[4..10] == uid && b[10..12] == boot && b[12..16] == seqNo && b[16..20] == uptime &&
        b[20..22] == length &&
      b[0] == magic[0] && b[1] == magic[1] && b[2] == magic[2] && b[3] == magic[3]
  {
  }

  lemma HeaderReadsBack(h: Header, length: nat)
    requires Buildable(h) && length < 65536
    ensures var b := HeaderBytes(h, length);
      HeaderOf(b) == h.(seqNo := Wrap32(h.seqNo), uptimeMs := Wrap32(h.uptimeMs)) &&
      FromLe(b[20..22]) == length && b[0] == 84 && b[1] == 77 && b[2] == 1
  {
    SpanOf();
    LeReadsBack(h.boot, 2);
    LeReadsBack(Wrap32(h.seqNo), 4);
    LeReadsBack(Wrap32(h.uptimeMs), 4);
    LeReadsBack(length, 2);
    HeaderLayout([84, 77, 1, h.kind], h.uid, Le(h.boot, 2), Le(Wrap32(h.seqNo), 4), Le(Wrap32(h.uptimeMs), 4),
      Le(length, 2), []);
    assert HeaderBytes(h, length) + [] == HeaderBytes(h, length);
  }

  lemma OpensParts(tag: Hmac, verify: Verify, head: Bytes, payload: Bytes, got: Bytes)
    requires |head| == HEADER_SIZE && |got| == TAG_SIZE && FromLe(head[20..22]) == |payload|
    requires head[0] == 84 && head[1] == 77 && head[2] == 1
    ensures var r := Open(tag, verify, head + payload + got);
      if Admits(tag, verify, head + payload, got) then r == Ok(Envelope(HeaderOf(head), Tagged(got), payload))
        else r.Err?
  {
    var buf := head + payload + got;
    Cut(head, payload, got);
    assert buf[20..22] == head[20..22];
    assert HeaderOf(buf) == HeaderOf(head) by {
      assert buf[4..10] == head[4..10] && buf[10..12] == head[10..12] && buf[12..16] == head[12..16] &&
        buf[16..20] == head[16..20];
    }
  }

  /** A built datagram opens to what was put in exactly when its tag is one the server admits. */
  lemma OpensBuilt(tag: Hmac, verify: Verify, h: Header, payload: Bytes, key: Option<Key>)
    requires EightBytes(tag) && Buildable(h) && |payload| < 65536
    ensures var body := HeaderBytes(h, |payload|) + payload;
      var got := if key.Some? then tag(key.value, body) else NO_TAG;
      var r := Open(tag, verify, Datagram(tag, h, payload, key));
      if Admits(tag, verify, body, got)
      then r == Ok(Envelope(h.(seqNo := Wrap32(h.seqNo), uptimeMs := Wrap32(h.uptimeMs)), Tagged(got), payload))
      else r.Err?
  {
    var head := HeaderBytes(h, |payload|);
    HeaderReadsBack(h, |payload|);
    var body: Bytes := head + payload;
    var got: Bytes := if key.Some? then tag(key.value, body) else NO_TAG;
    assert |got| == TAG_SIZE by {
      if key.Some? { TagLength(tag, key.value, body); }
    }
    OpensParts(tag, verify, head, payload, got);
  }

  lemma HeaderInverts(buf: Bytes)
    requires |buf| >= HEADER_SIZE && buf[0] == 84 && buf[1] == 77 && buf[2] == 1
    ensures Buildable(HeaderOf(buf)) && HeaderBytes(HeaderOf(buf), FromLe(buf[20..22])) == buf[..HEADER_SIZE]
  {
    HalfInverts(buf[10..12]);
    WordInverts(buf[12..16]);
    WordInverts(buf[16..20]);
    HalfInverts(buf[20..22]);
    assert [84, 77, 1, buf[3]] == buf[..4];
    Glue(buf, 4, 10);
    Glue(buf, 10, 12);
    Glue(buf, 12, 16);
    Glue(buf, 16, 20);
    Glue(buf, 20, 22);
  }

  lemma AllZero(got: Bytes)
    requires |got| == TAG_SIZE && !Tagged(got)
    ensures got == NO_TAG
  {
    forall i | 0 <= i < |got| ensures got[i] == NO_TAG[i] { assert got[i] == 0; }
  }

  /** With one accepted key, whatever opens is the datagram built from what it opens to. */
  lemma BuildsOpened(tag: Hmac, key: Key, allowUnsigned: bool, buf: Bytes, e: Envelope)
    requires Open(tag, Verify([key], allowUnsigned), buf) == Ok(e)
    ensures Buildable(e.header) && Datagram(tag, e.header, e.payload, if e.signed then Some(key) else None) == buf
  {
    var n := |buf| - TAG_SIZE;
    HeaderInverts(buf);
    assert |e.payload| == FromLe(buf[20..22]);
    assert buf[..HEADER_SIZE] + e.payload == buf[..n];
    if !e.signed { AllZero(buf[n..]); }
    assert buf[..n] + buf[n..] == buf;
  }

  // ---- reports ---------------------------------------------------------------------------------------

  datatype Detection = Detection(x: real, y: real, area: real, contrast: real, peak: real, heat: real)

  datatype Report = Report(frame: int, ta: real, sceneMin: real, sceneMax: real, bgMean: real, flags: Byte,
    detections: seq<Detection>)

  function DetectionBytes(d: Detection): (r: Bytes)
    ensures |r| == 7
  {
    [U8(d.x * 8.0), U8(d.y * 8.0), U8(d.area), U8(d.contrast / 0.05), U8(d.peak / 0.25)] + Le(U16(d.heat * 10.0), 2)
  }

  function DetectionOf(b: Bytes): Detection
    requires |b| == 7
  {
    Detection(b[0] as real / 8.0, b[1] as real / 8.0, b[2] as real,
              b[3] as real * 0.05, b[4] as real * 0.25, FromLe(b[5..7]) as real / 10.0)
  }

  /** REPORT_TRUNCATED, or-ed in. */
  function Truncated(flags: Byte): Byte { if flags / 4 % 2 == 0 then flags + 4 else flags }

  function Centi(v: real): int { Round(v * 100.0) }

  predicate Writable(r: Report) {
    FitsInt16(Centi(r.ta)) && FitsInt16(Centi(r.sceneMin)) && FitsInt16(Centi(r.sceneMax)) && FitsInt16(Centi(r.bgMean))
  }

  function Sent(ds: seq<Detection>): seq<Detection> { if |ds| > MAX_DETECTIONS then ds[..MAX_DETECTIONS] else ds }

  function Temperatures(r: Report): Bytes
    requires Writable(r)
  {
    Le(Wrap32(r.frame), 4) + Int16(Centi(r.ta)) + Int16(Centi(r.sceneMin)) + Int16(Centi(r.sceneMax)) +
      Int16(Centi(r.bgMean))
  }

  function ReportBytes(r: Report): Bytes
    requires Writable(r)
  {
    Temperatures(r) + [if |r.detections| > MAX_DETECTIONS then Truncated(r.flags) else r.flags, |Sent(r.detections)|] +
    Written(DetectionBytes, Sent(r.detections))
  }

  function ParseReport(p: Bytes): Result<Report> {
    if |p| < 14 then Err("short report")
    else
      var count := p[13] as int;
      if count > MAX_DETECTIONS || |p| != 14 + 7 * count then Err("report length")
      else
        Ok(Report(FromLe(p[0..4]), FromInt16(p[4..6]) as real / 100.0, FromInt16(p[6..8]) as real / 100.0,
                  FromInt16(p[8..10]) as real / 100.0, FromInt16(p[10..12]) as real / 100.0, p[12],
                  seq(count, i requires 0 <= i < count => DetectionOf(Seven(p[14..], i)))))
  }

  lemma WholeRounds(n: int)
    ensures Round(n as real) == n
  {
  }

  lemma DetectionRebuilds(b: Bytes)
    requires |b| == 7
    ensures DetectionBytes(DetectionOf(b)) == b
  {
    var d := DetectionOf(b);
    assert d.x * 8.0 == b[0] as real && d.y * 8.0 == b[1] as real && d.contrast / 0.05 == b[3] as real &&
      d.peak / 0.25 == b[4] as real;
    HalfInverts(b[5..7]);
    assert d.heat * 10.0 == FromLe(b[5..7]) as real;
    WholeRounds(b[0]);
    WholeRounds(b[1]);
    WholeRounds(b[2]);
    WholeRounds(b[3]);
    WholeRounds(b[4]);
    WholeRounds(FromLe(b[5..7]));
    assert b == [b[0], b[1], b[2], b[3], b[4]] + b[5..7];
  }

  /** The i-th group of seven bytes. */
  function Seven(b: Bytes, i: nat): Bytes
    requires 7 * i + 7 <= |b|
  {
    b[7 * i..7 * i + 7]
  }

  lemma SevenOfPrefix(b: Bytes, n: nat, i: nat)
    requires i < n && 7 * n <= |b|
    ensures Seven(b[..7 * n], i) == Seven(b, i)
  {
  }

  /** Seven bytes per detection, in order. */
  lemma {:induction false} DetectionsRebuild(ds: seq<Detection>, b: Bytes)
    requires |b| == 7 * |ds| && forall i :: 0 <= i < |ds| ==> ds[i] == DetectionOf(Seven(b, i))
    ensures Written(DetectionBytes, ds) == b
  {
    if ds != [] {
      var n := |ds| - 1;
      forall i | 0 <= i < n ensures ds[..n][i] == DetectionOf(Seven(b[..7 * n], i)) { SevenOfPrefix(b, n, i); }
      DetectionsRebuild(ds[..n], b[..7 * n]);
      DetectionRebuilds(Seven(b, n));
      Glue(b, 7 * n, 7 * n + 7);
    }
  }

  lemma CentiRebuilds(b: Bytes)
    requires |b| == 2
    ensures var v := FromInt16(b) as real / 100.0; FitsInt16(Centi(v)) && Int16(Centi(v)) == b
  {
    Int16Inverts(b);
    assert FromInt16(b) as real / 100.0 * 100.0 == FromInt16(b) as real;
    WholeRounds(FromInt16(b));
  }

  lemma TemperaturesRebuild(p: Bytes)
    requires ParseReport(p).Ok?
    ensures Writable(ParseReport(p).value) && Temperatures(ParseReport(p).value) == p[..12]
  {
    WordInverts(p[0..4]);
    CentiRebuilds(p[4..6]);
    CentiRebuilds(p[6..8]);
    CentiRebuilds(p[8..10]);
    CentiRebuilds(p[10..12]);
    assert p[0..4] == p[..4];
    Glue(p, 4, 6);
    Glue(p, 6, 8);
    Glue(p, 8, 10);
    Glue(p, 10, 12);
  }

  /** Rebuilding a parsed REPORT payload gives the same bytes. */
  lemma ReportRebuilds(p: Bytes)
    requires ParseReport(p).Ok?
    ensures Writable(ParseReport(p).value) && ReportBytes(ParseReport(p).value) == p
  {
    var r := ParseReport(p).value;
    TemperaturesRebuild(p);
    DetectionsRebuild(r.detections, p[14..]);
    assert [p[12], p[13]] == p[12..14];
    Glue(p, 12, 14);
    assert p[..14] + p[14..] == p;
  }

  /** The whole datagram too, under the one key that signed it. */
  lemma ReportDatagramRebuilds(tag: Hmac, key: Key, allowUnsigned: bool, buf: Bytes, e: Envelope)
    requires Open(tag, Verify([key], allowUnsigned), buf) == Ok(e) && ParseReport(e.payload).Ok?
    ensures var r := ParseReport(e.payload).value;
      Buildable(e.header) && Writable(r) &&
        Datagram(tag, e.header, ReportBytes(r), if e.signed then Some(key) else None) == buf
  {
    BuildsOpened(tag, key, allowUnsigned, buf, e);
    ReportRebuilds(e.payload);
  }
}
