/** Whole packets: the parser and the builders, in the loops of src/edge/protocol.ts:173-240,356-416. */
module Packets {
  import opened Wrappers
  import opened Octets
  import opened Streams
  import opened Protocol
  import opened RawFrames

  datatype Packet =
    | ReportPacket(header: Header, signed: bool, report: Report)
    | RawPacket(header: Header, signed: bool, raw: Raw)
    | OtherPacket(envelope: Envelope)

  /** parsePacket on plaintext; STATUS and OTA_STATUS payloads stay as bytes. */
  function ParsePacket(tag: Hmac, verify: Verify, buf: Bytes): Result<Packet> {
    match Open(tag, verify, buf)
    case Err(reason) => Err(reason)
    case Ok(e) =>
      if e.header.kind == TYPE_REPORT then
        match ParseReport(e.payload)
        case Err(reason) => Err(reason)
        case Ok(report) => Ok(ReportPacket(e.header, e.signed, report))
      else if e.header.kind == TYPE_RAW then
        match ParseRaw(e.payload)
        case Err(reason) => Err(reason)
        case Ok(raw) => Ok(RawPacket(e.header, e.signed, raw))
      else if e.header.kind == TYPE_STATUS || e.header.kind == TYPE_OTA_STATUS then Ok(OtherPacket(e))
      else Err("unexpected packet type")
  }

  /** A RAW frame built under an accepted key parses to its quantised temperatures. */
  lemma RawSurvives(tag: Hmac, verify: Verify, h: Header, frame: int, temps: seq<real>, key: Key)
    requires EightBytes(tag) && Buildable(h) && h.kind == TYPE_RAW && RawBytes(frame, temps).Some?
    requires key in verify.keys
    requires Tagged(tag(key, HeaderBytes(h, 8 + GRID_SIZE) + RawBytes(frame, temps).value))
    ensures |RawBytes(frame, temps).value| == 8 + GRID_SIZE
    ensures ParsePacket(tag, verify, Datagram(tag, h, RawBytes(frame, temps).value, Some(key))) ==
      Ok(RawPacket(h.(seqNo := Wrap32(h.seqNo), uptimeMs := Wrap32(h.uptimeMs)), true, RawOf(frame, temps)))
  {
    var payload := RawBytes(frame, temps).value;
    RawReadsBack(frame, temps);
    var i :| 0 <= i < |verify.keys| && verify.keys[i] == key;
    var body := HeaderBytes(h, |payload|) + payload;
    assert SomeKey(tag, verify.keys, body, tag(key, body));
    OpensBuilt(tag, verify, h, payload, Some(key));
  }

  /** A report that parses can be rebuilt, header and tag included, from what it parsed to. */
  lemma ParsedReportRebuilds(tag: Hmac, key: Key, allowUnsigned: bool, buf: Bytes, header: Header, signed: bool,
      report: Report)
    requires ParsePacket(tag, Verify([key], allowUnsigned), buf) == Ok(ReportPacket(header, signed, report))
    ensures Buildable(header) && Writable(report)
    ensures Datagram(tag, header, ReportBytes(report), if signed then Some(key) else None) == buf
  {
    var e := OpenedReport(tag, Verify([key], allowUnsigned), buf, header, signed, report);
    ReportDatagramRebuilds(tag, key, allowUnsigned, buf, e);
  }

  lemma OpenedReport(tag: Hmac, verify: Verify, buf: Bytes, header: Header, signed: bool, report: Report)
    returns (e: Envelope)
    requires ParsePacket(tag, verify, buf) == Ok(ReportPacket(header, signed, report))
    ensures Open(tag, verify, buf) == Ok(e) && ParseReport(e.payload) == Ok(report) && e.header == header &&
      e.signed == signed
  {
    e := Open(tag, verify, buf).value;
  }

  /** The detections of a report, one by one. */
  method ParseDetections(p: Bytes) returns (detections: seq<Detection>)
    requires ParseReport(p).Ok?
    ensures detections == ParseReport(p).value.detections
  {
    detections := [];
    for i := 0 to p[13] as int
      invariant detections == ParseReport(p).value.detections[..i]
    {
      detections := detections + [DetectionOf(p[14 + 7 * i..14 + 7 * i + 7])];
      assert p[14..][7 * i..7 * i + 7] == p[14 + 7 * i..14 + 7 * i + 7];
    }
  }

  /** The lowest and the highest of the temperatures. */
  method Extremes(temps: seq<real>) returns (lo: real, hi: real)
    requires temps != []
    ensures lo == Least(temps) && hi == Greatest(temps)
    ensures lo in temps && hi in temps && forall i :: 0 <= i < |temps| ==> lo <= temps[i] <= hi
  {
    lo, hi := temps[0], temps[0];
    for i := 1 to |temps|
      invariant lo == Least(temps[..i]) && hi == Greatest(temps[..i])
      invariant lo in temps && hi in temps && forall k :: 0 <= k < i ==> lo <= temps[k] <= hi
    {
      assert temps[..i + 1][..i] == temps[..i];
      if temps[i] < lo { lo := temps[i]; }
      if temps[i] > hi { hi := temps[i]; }
    }
    assert temps[..|temps|] == temps;
  }

  method WritePixels(temps: seq<real>, lo: real, hi: real) returns (pixels: Bytes)
    requires temps != [] && lo == Least(temps) && hi == Greatest(temps)
    ensures pixels == Pixels(temps)
  {
    pixels := [];
    for i := 0 to GRID_SIZE
      invariant pixels == Pixels(temps)[..i]
    {
      pixels := pixels + [Pixel(if i < |temps| then temps[i] else lo, Base(lo), Step(lo, hi))];
    }
  }

  class Identity {
    const uid: Bytes
    const boot: int
    const key: Option<Key>
    var seqNo: int

    constructor (uid: Bytes, boot: int, key: Option<Key>, seqNo: int)
      ensures this.uid == uid && this.boot == boot && this.key == key && this.seqNo == seqNo
    {
      this.uid, this.boot, this.key, this.seqNo := uid, boot, key, seqNo;
    }

    /** The header of the next packet; its number is used up even when the build fails. */
    method NextHeader(kind: Byte, uptimeMs: int) returns (h: Header)
      modifies this`seqNo
      ensures h == Header(kind, uid, boot, old(seqNo), uptimeMs) && seqNo == old(seqNo) + 1
    {
      h := Header(kind, uid, boot, seqNo, uptimeMs);
      seqNo := seqNo + 1;
    }

    method BuildReport(tag: Hmac, uptimeMs: int, r: Report) returns (buf: Option<Bytes>)
      modifies this`seqNo
      ensures seqNo == old(seqNo) + 1
      ensures var h := Header(TYPE_REPORT, uid, boot, old(seqNo), uptimeMs);
        buf == if Buildable(h) && Writable(r) then Some(Datagram(tag, h, ReportBytes(r), key)) else None
    {
      var h := NextHeader(TYPE_REPORT, uptimeMs);
      if !Buildable(h) || !Writable(r) { return None; }
      var dets := Sent(r.detections);
      var written: Bytes := [];
      for i := 0 to |dets|
        invariant written == Written(DetectionBytes, dets[..i])
      {
        assert dets[..i + 1][..i] == dets[..i];
        written := written + DetectionBytes(dets[i]);
      }
      assert dets[..|dets|] == dets;
      var flags := if |r.detections| > MAX_DETECTIONS then Truncated(r.flags) else r.flags;
      var payload := Temperatures(r) + [flags, |dets|] + written;
      assert payload == ReportBytes(r);
      return Some(Datagram(tag, h, payload, key));
    }

    method BuildRaw(tag: Hmac, uptimeMs: int, frame: int, temps: seq<real>) returns (buf: Option<Bytes>)
      modifies this`seqNo
      ensures seqNo == old(seqNo) + 1
      ensures var h := Header(TYPE_RAW, uid, boot, old(seqNo), uptimeMs);
        buf == if Buildable(h) && RawBytes(frame, temps).Some?
               then Some(Datagram(tag, h, RawBytes(frame, temps).value, key)) else None
    {
      var h := NextHeader(TYPE_RAW, uptimeMs);
      if temps == [] { return None; }
      var lo, hi := Extremes(temps);
      if !Buildable(h) || !FitsInt16(LowCenti(lo)) { return None; }
      var pixels := WritePixels(temps, lo, hi);
      var payload := Le(Wrap32(frame), 4) + Int16(LowCenti(lo)) + Le(StepQ(lo, hi), 2) + pixels;
      return Some(Datagram(tag, h, payload, key));
    }
  }
}
