/**
 * RAW frames (src/edge/protocol.ts:230-240,401-416; src/edge/edgedetect.ts:184-188): 768
 * temperatures in one byte each.
 */
module RawFrames {
  import opened Wrappers
  import opened Octets
  import opened Protocol

  datatype Raw = Raw(frame: int, tMin: real, step: real, pixels: Bytes)

  function Least(s: seq<real>): real
    requires s != []
  {
    if |s| == 1 then s[0] else if s[|s| - 1] < Least(s[..|s| - 1]) then s[|s| - 1] else Least(s[..|s| - 1])
  }

  function Greatest(s: seq<real>): real
    requires s != []
  {
    if |s| == 1 then s[0] else if s[|s| - 1] > Greatest(s[..|s| - 1]) then s[|s| - 1] else Greatest(s[..|s| - 1])
  }

  lemma {:induction false} Bounds(s: seq<real>, i: nat)
    requires i < |s|
    ensures Least(s) <= s[i] <= Greatest(s)
  {
    if i < |s| - 1 { Bounds(s[..|s| - 1], i); }
  }

  function Times(a: real, b: real): real { a * b }

  function Ceil(v: real): int { -((-v).Floor) }

  /** The lowest temperature, rounded down to hundredths. */
  function LowCenti(lo: real): int { (lo * 100.0).Floor }

  function Base(lo: real): real { LowCenti(lo) as real / 100.0 }

  /** The width one step would need, in ten-thousandths. */
  function Wanted(lo: real, hi: real): real { (hi - Base(lo)) / 255.0 * 10000.0 }

  function StepQ(lo: real, hi: real): (q: nat)
    ensures 1 <= q <= 65535
  {
    var n := Ceil(Wanted(lo, hi));
    if n < 1 then 1 else if n > 65535 then 65535 else n
  }

  function Step(lo: real, hi: real): (s: real)
    ensures s > 0.0
  {
    StepQ(lo, hi) as real / 10000.0
  }

  /** How many steps a temperature is above the base. */
  function StepsUp(t: real, base: real, step: real): (v: real)
    requires step > 0.0
    ensures Times(v, step) == t - base
  {
    (t - base) / step
  }

  function Pixel(t: real, base: real, step: real): Byte
    requires step > 0.0
  {
    U8(StepsUp(t, base, step))
  }

  /** A frame short of pixels is filled with its lowest temperature. */
  function Temp(temps: seq<real>, i: nat): real
    requires temps != []
  {
    if i < |temps| then temps[i] else Least(temps)
  }

  function Pixels(temps: seq<real>): (r: Bytes)
    requires temps != []
    ensures |r| == GRID_SIZE
  {
    var lo, hi := Least(temps), Greatest(temps);
    seq(GRID_SIZE, i requires 0 <= i < GRID_SIZE => Pixel(Temp(temps, i), Base(lo), Step(lo, hi)))
  }

  /** The payload buildRaw writes; a frame without pixels or outside the wire's range is refused. */
  function RawBytes(frame: int, temps: seq<real>): (r: Option<Bytes>)
    ensures r.Some? <==> temps != [] && FitsInt16(LowCenti(Least(temps)))
  {
    if temps == [] || !FitsInt16(LowCenti(Least(temps))) then None
    else Some(Le(Wrap32(frame), 4) + Int16(LowCenti(Least(temps))) + Le(StepQ(Least(temps), Greatest(temps)), 2) +
      Pixels(temps))
  }

  function ParseRaw(p: Bytes): Result<Raw> {
    if |p| != 8 + GRID_SIZE then Err("raw length")
    else Ok(Raw(FromLe(p[0..4]), FromInt16(p[4..6]) as real / 100.0, FromLe(p[6..8]) as real / 10000.0, p[8..]))
  }

  /** rawTemps, one pixel. */
  function Decoded(r: Raw, i: nat): real
    requires i < |r.pixels|
  {
    r.tMin + Times(r.pixels[i] as real, r.step)
  }

  lemma FieldsOf(a: Bytes, b: Bytes, c: Bytes, d: Bytes)
    requires |a| == 4 && |b| == 2 && |c| == 2
    ensures var p := a + b + c + d; p[0..4] == a && p[4..6] == b && p[6..8] == c && p[8..] == d
  {
  }

  /** What a RAW frame says: the base and the step exactly, and the pixels as written. */
  function RawOf(frame: int, temps: seq<real>): Raw
    requires temps != []
  {
    var lo, hi := Least(temps), Greatest(temps);
    Raw(Wrap32(frame), Base(lo), Step(lo, hi), Pixels(temps))
  }

  lemma RawReadsBack(frame: int, temps: seq<real>)
    requires RawBytes(frame, temps).Some?
    ensures ParseRaw(RawBytes(frame, temps).value) == Ok(RawOf(frame, temps))
  {
    var lo, hi := Least(temps), Greatest(temps);
    SpanOf();
    LeReadsBack(Wrap32(frame), 4);
    Int16ReadsBack(LowCenti(lo));
    LeReadsBack(StepQ(lo, hi), 2);
    FieldsOf(Le(Wrap32(frame), 4), Int16(LowCenti(lo)), Le(StepQ(lo, hi), 2), Pixels(temps));
  }

  // ---- how far off a pixel can be ------------------------------------------------------------------

  lemma Scaled(x: real, y: real, s: real)
    requires s > 0.0
    ensures x <= y <==> Times(x, s) <= Times(y, s)
  {
    if x <= y { assert (y - x) * s >= 0.0; } else { assert (x - y) * s > 0.0; }
  }

  lemma HalfMore(v: real, s: real)
    ensures Times(v - 0.5, s) == Times(v, s) - s / 2.0 && Times(v + 0.5, s) == Times(v, s) + s / 2.0
  {
  }

  lemma ByteNear(v: real)
    requires v >= 0.0
    ensures v - 0.5 <= U8(v) as real <= v + 0.5 <==> v <= 255.5
    ensures v <= 255.0 ==> 0 <= Round(v) <= 255
  {
  }

  lemma AboveBase(lo: real, t: real)
    requires t >= lo
    ensures t - Base(lo) >= 0.0
  {
  }

  /** Nobody is cut off as long as the step does not have to be capped. */
  lemma StepCovers(lo: real, hi: real)
    requires Wanted(lo, hi) <= 65535.0
    ensures hi - Base(lo) <= 255.0 * Step(lo, hi)
  {
    assert StepQ(lo, hi) as real >= Wanted(lo, hi);
  }

  /** The i-th temperature of what is read differs from the one written by at most half a step. */
  predicate HalfStep(raw: Raw, temps: seq<real>, i: nat)
    requires temps != [] && i < |raw.pixels|
  {
    -(raw.step / 2.0) <= Decoded(raw, i) - Temp(temps, i) <= raw.step / 2.0
  }

  /** Each pixel of the frame is the rounded and clamped number of steps up from its base. */
  predicate WrittenFrom(raw: Raw, temps: seq<real>, i: nat)
    requires temps != [] && i < |raw.pixels|
  {
    raw.step > 0.0 && raw.tMin <= Temp(temps, i) && raw.pixels[i] == Pixel(Temp(temps, i), raw.tMin, raw.step)
  }

  lemma RawIsWritten(temps: seq<real>, frame: int, i: nat)
    requires temps != [] && i < GRID_SIZE
    ensures WrittenFrom(RawOf(frame, temps), temps, i)
  {
    if i < |temps| { Bounds(temps, i); }
    AboveBase(Least(temps), Temp(temps, i));
  }

  lemma WrittenError(raw: Raw, temps: seq<real>, i: nat)
    requires temps != [] && i < |raw.pixels| && WrittenFrom(raw, temps, i)
    ensures HalfStep(raw, temps, i) <==> Temp(temps, i) - raw.tMin <= 255.5 * raw.step
    ensures Temp(temps, i) - raw.tMin <= 255.0 * raw.step ==>
      0 <= Round(StepsUp(Temp(temps, i), raw.tMin, raw.step)) <= 255
  {
    var v := StepsUp(Temp(temps, i), raw.tMin, raw.step);
    InDegrees(v, raw.pixels[i] as real, raw.tMin, Temp(temps, i), raw.step);
    ByteNear(v);
  }

  /** Distances in steps and in degrees. */
  lemma InDegrees(v: real, b: real, tMin: real, t: real, s: real)
    requires s > 0.0 && Times(v, s) == t - tMin
    ensures v - 0.5 <= b <= v + 0.5 <==> -(s / 2.0) <= tMin + Times(b, s) - t <= s / 2.0
    ensures v <= 255.5 <==> t - tMin <= 255.5 * s
    ensures v <= 255.0 <==> t - tMin <= 255.0 * s
    ensures 0.0 <= v <==> tMin <= t
  {
    HalfMore(v, s);
    Scaled(v - 0.5, b, s);
    Scaled(b, v + 0.5, s);
    Scaled(0.0, v, s);
    Scaled(v, 255.0, s);
    Scaled(v, 255.5, s);
  }

  /** Pixel by pixel: within half a step exactly up to 255.5 steps above the base. */
  lemma PixelError(temps: seq<real>, frame: int, i: nat)
    requires temps != [] && i < GRID_SIZE
    ensures var raw := RawOf(frame, temps);
      HalfStep(raw, temps, i) <==> Temp(temps, i) - raw.tMin <= 255.5 * raw.step
  {
    RawIsWritten(temps, frame, i);
    WrittenError(RawOf(frame, temps), temps, i);
  }

  lemma TempAtMost(temps: seq<real>, i: nat)
    requires temps != []
    ensures Temp(temps, i) <= Greatest(temps)
  {
    Bounds(temps, if i < |temps| then i else 0);
  }

  lemma InReach(temps: seq<real>, frame: int, i: nat)
    requires temps != [] && Wanted(Least(temps), Greatest(temps)) <= 65535.0
    ensures Temp(temps, i) - RawOf(frame, temps).tMin <= 255.0 * RawOf(frame, temps).step
  {
    TempAtMost(temps, i);
    StepCovers(Least(temps), Greatest(temps));
  }

  /**
   * Within the wire's ranges every temperature decodes to within half a step, and no byte is
   * clamped.
   */
  lemma AllWithinHalfStep(temps: seq<real>, frame: int, i: nat)
    requires RawBytes(frame, temps).Some? && Wanted(Least(temps), Greatest(temps)) <= 65535.0 && i < GRID_SIZE
    ensures ParseRaw(RawBytes(frame, temps).value) == Ok(RawOf(frame, temps))
    ensures var raw := RawOf(frame, temps);
      HalfStep(raw, temps, i) && 0 <= Round(StepsUp(Temp(temps, i), raw.tMin, raw.step)) <= 255
  {
    RawReadsBack(frame, temps);
    RawIsWritten(temps, frame, i);
    InReach(temps, frame, i);
    FarEnough(RawOf(frame, temps), temps, i);
  }

  lemma FarEnough(raw: Raw, temps: seq<real>, i: nat)
    requires temps != [] && i < |raw.pixels| && WrittenFrom(raw, temps, i)
    requires Temp(temps, i) - raw.tMin <= 255.0 * raw.step
    ensures HalfStep(raw, temps, i) && 0 <= Round(StepsUp(Temp(temps, i), raw.tMin, raw.step)) <= 255
  {
    WrittenError(raw, temps, i);
  }
}
