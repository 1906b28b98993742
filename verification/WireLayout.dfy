/**
 * The wire format byte by byte (src/edge/protocol.ts:90-260): where each number stands, in which
 * unit, and how much of a measurement the units lose.
 */
module WireLayout {
  import opened Wrappers
  import Frames
  import opened Octets
  import opened Packets
  import opened Streams
  import opened Protocol
  import opened RawFrames

  // ---- numbers ------------------------------------------------------------------------------------

  function Half(b: Bytes, i: nat): int
    requires i + 2 <= |b|
  {
    b[i] as int + 256 * b[i + 1] as int
  }

  function Word(b: Bytes, i: nat): int
    requires i + 4 <= |b|
  {
    b[i] as int + 256 * b[i + 1] as int + 65_536 * b[i + 2] as int + 16_777_216 * b[i + 3] as int
  }

  /** Two's complement in sixteen bits. */
  function Signed(b: Bytes, i: nat): int
    requires i + 2 <= |b|
  {
    if b[i + 1] as int >= 128 then Half(b, i) - 65_536 else Half(b, i)
  }

  lemma HalfIs(b: Bytes, i: nat)
    requires i + 2 <= |b|
    ensures FromLe(b[i..i + 2]) == Half(b, i) && FromInt16(b[i..i + 2]) == Signed(b, i)
  {
    var s := b[i..i + 2];
    assert s[1..][1..] == [] && FromLe(s[1..]) == s[1] as int + 256 * FromLe(s[1..][1..]);
  }

  lemma WordIs(b: Bytes, i: nat)
    requires i + 4 <= |b|
    ensures FromLe(b[i..i + 4]) == Word(b, i)
  {
    var s := b[i..i + 4];
    assert s[1..] == b[i + 1..i + 4] && s[1..][1..] == b[i + 2..i + 4];
    HalfIs(b, i + 2);
    assert FromLe(s) == s[0] as int + 256 * FromLe(s[1..]);
    assert FromLe(s[1..]) == s[1] as int + 256 * FromLe(s[1..][1..]);
  }

  // ---- the envelope ----------------------------------------------------------------------------------

  /** A datagram as its bytes have to be: the letters TM, version one, and the length it says. */
  predicate Framed(buf: Bytes) {
    |buf| >= 30 && buf[0] as int == 'T' as int && buf[1] as int == 'M' as int && buf[2] == 1 &&
    |buf| == 22 + Half(buf, 20) + 8
  }

  /** Its last eight bytes: all zero where that is allowed, or the tag of the rest under an accepted key. */
  ghost predicate Vouched(tag: Hmac, verify: Verify, buf: Bytes)
    requires |buf| >= 8
  {
    var n := |buf| - 8;
    if buf[n..] == [0, 0, 0, 0, 0, 0, 0, 0] then verify.allowUnsigned
    else exists i :: 0 <= i < |verify.keys| && tag(verify.keys[i], buf[..n]) == buf[n..]
  }

  lemma TaggedIff(got: Bytes)
    requires |got| == 8
    ensures Tagged(got) <==> got != [0, 0, 0, 0, 0, 0, 0, 0]
  {
    if !Tagged(got) { AllZero(got); }
  }

  /** What opens is exactly what is framed and vouched for. */
  lemma OpensIff(tag: Hmac, verify: Verify, buf: Bytes)
    ensures Open(tag, verify, buf).Ok? <==> Framed(buf) && Vouched(tag, verify, buf)
  {
    if |buf| >= 30 {
      HalfIs(buf, 20);
      TaggedIff(buf[|buf| - 8..]);
    }
  }

  /** And where its header stands. */
  lemma OpenedIs(tag: Hmac, verify: Verify, buf: Bytes)
    requires Open(tag, verify, buf).Ok?
    ensures var e := Open(tag, verify, buf).value;
      e.header == Header(buf[3], buf[4..10], Half(buf, 10), Word(buf, 12), Word(buf, 16)) &&
      e.payload == buf[22..|buf| - 8] && (e.signed <==> buf[|buf| - 8..] != [0, 0, 0, 0, 0, 0, 0, 0])
  {
    HalfIs(buf, 10);
    WordIs(buf, 12);
    WordIs(buf, 16);
    TaggedIff(buf[|buf| - 8..]);
  }

  /** A frame of the gateway link: four length bytes, least significant first, the type, the payload. */
  lemma FrameIs(m: Frames.Message)
    requires Frames.Fits(m)
    ensures var w, n := Frames.Wired(m), |m.payload| + 1;
      |w| == n + 4 && Word(w, 0) == n && w[0] as int == n % 256 && w[1] as int == n / 256 % 256 &&
      w[4] == m.kind && w[5..] == m.payload
  {
    var w := Frames.Wired(m);
    assert w[0..4] == Frames.Le32(|m.payload| + 1);
    Frames.Le32ReadsBack(|m.payload| + 1);
    WordIs(w, 0);
  }

  // ---- payloads ----------------------------------------------------------------------------------------

  lemma ReportIff(p: Bytes)
    ensures ParseReport(p).Ok? <==> |p| >= 14 && p[13] as int <= 24 && |p| == 14 + 7 * p[13] as int
  {
  }

  /** A REPORT payload: a frame number, four temperatures in hundredths, flags, a count. */
  lemma ReportIs(p: Bytes)
    requires ParseReport(p).Ok?
    ensures var r := ParseReport(p).value;
      r.frame == Word(p, 0) && r.ta == Signed(p, 4) as real / 100.0 && r.sceneMin == Signed(p, 6) as real / 100.0 &&
      r.sceneMax == Signed(p, 8) as real / 100.0 && r.bgMean == Signed(p, 10) as real / 100.0 && r.flags == p[12] &&
      |r.detections| == p[13] as int
  {
    WordIs(p, 0);
    HalfIs(p, 4);
    HalfIs(p, 6);
    HalfIs(p, 8);
    HalfIs(p, 10);
  }

  /** Seven bytes a person: eighths of a pixel, pixels, twentieths and quarters of a degree, tenths of heat. */
  lemma DetectionIs(p: Bytes, i: nat)
    requires ParseReport(p).Ok? && i < |ParseReport(p).value.detections|
    ensures 14 + 7 * i + 7 <= |p|
    ensures var at := 14 + 7 * i;
      ParseReport(p).value.detections[i] ==
        Detection(p[at] as real / 8.0, p[at + 1] as real / 8.0, p[at + 2] as real, p[at + 3] as real * 0.05,
                  p[at + 4] as real * 0.25, Half(p, at + 5) as real / 10.0)
  {
    var at := 14 + 7 * i;
    var b := Seven(p[14..], i);
    assert b == p[at..at + 7];
    assert b[5..7] == p[at + 5..at + 7];
    HalfIs(p, at + 5);
  }

  /** A RAW payload: a frame number, the base in hundredths, the step in ten-thousandths, the pixels. */
  lemma RawIs(p: Bytes)
    ensures ParseRaw(p).Ok? <==> |p| == 8 + 768
    ensures ParseRaw(p).Ok? ==>
      ParseRaw(p).value == Raw(Word(p, 0), Signed(p, 4) as real / 100.0, Half(p, 6) as real / 10_000.0, p[8..])
  {
    if |p| == 776 {
      WordIs(p, 0);
      HalfIs(p, 4);
      HalfIs(p, 6);
    }
  }

  /** Which payload is which: the type byte decides, and only four types are taken. */
  lemma KindIs(tag: Hmac, verify: Verify, buf: Bytes)
    requires ParsePacket(tag, verify, buf).Ok?
    ensures |buf| >= 30
    ensures match ParsePacket(tag, verify, buf).value
      case ReportPacket(_, _, report) => buf[3] == 1 && ParseReport(buf[22..|buf| - 8]) == Ok(report)
      case RawPacket(_, _, raw) => buf[3] == 2 && ParseRaw(buf[22..|buf| - 8]) == Ok(raw)
      case OtherPacket(e) => (buf[3] == 3 || buf[3] == 4) && e.payload == buf[22..|buf| - 8]
  {
    OpenedIs(tag, verify, buf);
  }

  // ---- what the units lose ----------------------------------------------------------------------------------

  lemma ByteError(v: real)
    ensures 0.0 <= v <= 255.0 ==> -0.5 <= U8(v) as real - v <= 0.5
    ensures v < 0.0 ==> U8(v) == 0
    ensures v > 255.0 ==> U8(v) == 255
  {
  }

  lemma HalfError(v: real)
    ensures 0.0 <= v <= 65_535.0 ==> -0.5 <= U16(v) as real - v <= 0.5
  {
  }

  predicate Close(a: real, b: real, most: real) { -most <= a - b <= most }

  /** A person within the ranges of the format is read back to within half a unit in every field. */
  lemma DetectionSurvives(d: Detection)
    requires 0.0 <= d.x * 8.0 <= 255.0 && 0.0 <= d.y * 8.0 <= 255.0 && 0.0 <= d.area <= 255.0
    requires 0.0 <= d.contrast / 0.05 <= 255.0 && 0.0 <= d.peak / 0.25 <= 255.0 && 0.0 <= d.heat * 10.0 <= 65_535.0
    ensures var q := Protocol.DetectionOf(DetectionBytes(d));
      Close(q.x, d.x, 0.0625) && Close(q.y, d.y, 0.0625) && Close(q.area, d.area, 0.5) &&
      Close(q.contrast, d.contrast, 0.025) && Close(q.peak, d.peak, 0.125) && Close(q.heat, d.heat, 0.05)
  {
    ByteError(d.x * 8.0);
    ByteError(d.y * 8.0);
    ByteError(d.area);
    ByteError(d.contrast / 0.05);
    ByteError(d.peak / 0.25);
    HalfError(d.heat * 10.0);
    var b := DetectionBytes(d);
    SpanOf();
    LeReadsBack(U16(d.heat * 10.0), 2);
    assert b[5..7] == Le(U16(d.heat * 10.0), 2);
  }
}
