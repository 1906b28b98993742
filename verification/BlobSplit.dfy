/**
 * Splitting one component into people (src/edge/edgedetect.ts): local maxima of the smoothed
 * difference, the strongest of those too close together, and every pixel to its nearest peak.
 */
module BlobSplit {
  import opened UnionFind
  import opened BlobMerge
  import opened Segmentation

  datatype Params = Params(minPeak: real, minArea: int, maxArea: int, splitSep: real)

  datatype Detection = Detection(x: real, y: real, area: int, contrast: real, heat: real)

  /** What has been gathered for one peak; `w` is the heat, x and y are weighted by it. */
  datatype Acc = Acc(w: real, x: real, y: real, area: int, peakD: real)

  function Positive(v: real): real { if v > 0.0 then v else 0.0 }

  // ---- peaks ---------------------------------------------------------------------------

  /** j outranks i: warmer, or as warm and earlier in raster order. */
  predicate Outranks(smooth: seq<real>, j: nat, i: nat)
    requires |smooth| == GRID && i < GRID && j < GRID
  {
    smooth[j] > smooth[i] || (smooth[j] == smooth[i] && j < i)
  }

  ghost predicate IsPeak(smooth: seq<real>, i: nat)
    requires |smooth| == GRID && i < GRID
  {
    forall j: nat :: j < GRID && Near(i, j) ==> !Outranks(smooth, j, i)
  }

  /** No two peaks are neighbours, even on a flat top. */
  lemma PeaksApart(smooth: seq<real>, i: nat, j: nat)
    requires |smooth| == GRID && i < GRID && j < GRID && IsPeak(smooth, i) && IsPeak(smooth, j)
    ensures !Near(i, j)
  {
    assert Near(i, j) ==> Near(j, i);
  }

  method CheckPeak(smooth: seq<real>, i: nat) returns (isMax: bool)
    requires |smooth| == GRID && i < GRID
    ensures isMax <==> IsPeak(smooth, i)
  {
    var x, y := i % W, i / W;
    for dy := -1 to 2
      invariant forall j: nat :: j < GRID && Near(i, j) && Row(j) - y < dy ==> !Outranks(smooth, j, i)
    {
      for dx := -1 to 2
        invariant forall j: nat :: j < GRID && Near(i, j) ==> Row(j) - y < dy ==> !Outranks(smooth, j, i)
        invariant forall j: nat :: j < GRID && Near(i, j) ==> Row(j) - y == dy && Col(j) - x < dx ==>
          !Outranks(smooth, j, i)
      {
        if dx == 0 && dy == 0 { continue; }
        var nx, ny := x + dx, y + dy;
        if nx < 0 || nx >= W || ny < 0 || ny >= H { continue; }
        var j := ny * W + nx;
        if Outranks(smooth, j, i) {
          assert Near(i, j);
          return false;
        }
      }
    }
    return true;
  }

  /** The members that are peaks, in order, at most MAX_PEAKS of them. */
  ghost predicate RawPeaks(members: seq<nat>, smooth: seq<real>, peaks: seq<nat>)
    requires |smooth| == GRID
  {
    |peaks| <= MAX_PEAKS &&
    (forall k :: 0 <= k < |peaks| ==> peaks[k] < GRID && peaks[k] in members && IsPeak(smooth, peaks[k])) &&
    (forall a, b :: 0 <= a < b < |peaks| ==> peaks[a] != peaks[b]) &&
    (|peaks| < MAX_PEAKS ==> forall i: nat :: i < GRID && i in members && IsPeak(smooth, i) ==> i in peaks)
  }

  /** All the members that are peaks, in order. */
  ghost function PeaksOf(members: seq<nat>, smooth: seq<real>): seq<nat>
    requires |smooth| == GRID && forall k :: 0 <= k < |members| ==> members[k] < GRID
  {
    if members == [] then []
    else
      var i := members[|members| - 1];
      PeaksOf(members[..|members| - 1], smooth) + (if IsPeak(smooth, i) then [i] else [])
  }

  function AtMost<T>(s: seq<T>, n: nat): seq<T> { if |s| > n then s[..n] else s }

  method FindPeaks(members: seq<nat>, smooth: seq<real>) returns (peaks: seq<nat>)
    requires |smooth| == GRID && Segmentation.Distinct(members)
    ensures RawPeaks(members, smooth, peaks) && peaks == AtMost(PeaksOf(members, smooth), MAX_PEAKS)
    ensures forall a, b :: 0 <= a < |peaks| && 0 <= b < |peaks| ==> !Near(peaks[a], peaks[b])
  {
    peaks := [];
    for m := 0 to |members|
      invariant |peaks| <= MAX_PEAKS && peaks == AtMost(PeaksOf(members[..m], smooth), MAX_PEAKS)
      invariant forall k :: 0 <= k < |peaks| ==> peaks[k] < GRID && peaks[k] in members[..m] && IsPeak(smooth, peaks[k])
      invariant forall a, b :: 0 <= a < b < |peaks| ==> peaks[a] != peaks[b]
      invariant |peaks| < MAX_PEAKS ==> forall k :: 0 <= k < m && IsPeak(smooth, members[k]) ==> members[k] in peaks
    {
      assert members[..m + 1][..m] == members[..m];
      var isMax := CheckPeak(smooth, members[m]);
      if isMax && |peaks| < MAX_PEAKS { peaks := peaks + [members[m]]; }
    }
    assert members[..|members|] == members;
    forall a, b | 0 <= a < |peaks| && 0 <= b < |peaks| ensures !Near(peaks[a], peaks[b]) {
      PeaksApart(smooth, peaks[a], peaks[b]);
    }
  }

  // ---- strongest first ---------------------------------------------------------------------

  ghost predicate Falling(smooth: seq<real>, ps: seq<nat>)
    requires |smooth| == GRID
  {
    (forall k :: 0 <= k < |ps| ==> ps[k] < GRID) && forall a, b :: 0 <= a < b < |ps| ==> smooth[ps[a]] >= smooth[ps[b]]
  }

  /** Insert behind every peak at least as strong, as a stable sort does. */
  function Place(smooth: seq<real>, ps: seq<nat>, p: nat): (r: seq<nat>)
    requires |smooth| == GRID && Falling(smooth, ps) && p < GRID
    ensures Falling(smooth, r)
    ensures forall q :: q in r <==> q in ps || q == p
    ensures forall k :: 0 <= k < |r| ==> r[k] == p || r[k] in ps
  {
    if ps == [] || smooth[p] > smooth[ps[0]] then [p] + ps
    else
      assert ps == [ps[0]] + ps[1..];
      [ps[0]] + Place(smooth, ps[1..], p)
  }

  function ByStrength(smooth: seq<real>, ps: seq<nat>): (r: seq<nat>)
    requires |smooth| == GRID && forall k :: 0 <= k < |ps| ==> ps[k] < GRID
    ensures Falling(smooth, r) && forall q :: q in r <==> q in ps
  {
    if ps == [] then []
    else
      assert ps == ps[..|ps| - 1] + [ps[|ps| - 1]];
      Place(smooth, ByStrength(smooth, ps[..|ps| - 1]), ps[|ps| - 1])
  }

  function Gap2(a: nat, b: nat): int {
    (Col(a) - Col(b)) * (Col(a) - Col(b)) + (Row(a) - Row(b)) * (Row(a) - Row(b))
  }

  predicate TooClose(a: nat, b: nat, sep: real) { Gap2(a, b) as real < sep * sep }

  /** Which pairs of peaks count as one person. */
  type Close = Link

  function Closer(sep: real): Close { (a: nat, b: nat) => TooClose(a, b, sep) }

  lemma CloserSymmetric(sep: real)
    ensures Symmetric(Closer(sep))
  {
    forall a: nat, b: nat ensures Closer(sep)(a, b) == Closer(sep)(b, a) {
      var dx, dy := Col(a) - Col(b), Row(a) - Row(b);
      assert dx * dx == (-dx) * (-dx) && dy * dy == (-dy) * (-dy);
    }
  }

  /** Peaks that stay apart, and a stronger neighbour for each one given up. */
  ghost predicate Thinned(smooth: seq<real>, peaks: seq<nat>, kept: seq<nat>, close: Close)
    requires |smooth| == GRID && forall k :: 0 <= k < |peaks| ==> peaks[k] < GRID
  {
    (forall k :: 0 <= k < |kept| ==> kept[k] < GRID && kept[k] in peaks) &&
    (forall a, b :: 0 <= a < b < |kept| ==> !close(kept[a], kept[b])) &&
    forall p :: 0 <= p < |peaks| ==> peaks[p] in kept || Covered(smooth, kept, peaks[p], close)
  }

  ghost predicate Covered(smooth: seq<real>, kept: seq<nat>, p: nat, close: Close)
    requires |smooth| == GRID && p < GRID
  {
    exists b :: 0 <= b < |kept| && kept[b] < GRID && close(p, kept[b]) && smooth[kept[b]] >= smooth[p]
  }

  ghost predicate SomeClose(kept: seq<nat>, p: nat, close: Close) {
    exists b :: 0 <= b < |kept| && close(p, kept[b])
  }

  method AnyClose(kept: seq<nat>, p: nat, close: Close) returns (near: bool)
    ensures near <==> SomeClose(kept, p, close)
  {
    for k := 0 to |kept|
      invariant forall b :: 0 <= b < k ==> !close(p, kept[b])
    {
      if close(p, kept[k]) { return true; }
    }
    return false;
  }

  lemma CoveredStays(smooth: seq<real>, kept: seq<nat>, more: nat, p: nat, close: Close)
    requires |smooth| == GRID && p < GRID && Covered(smooth, kept, p, close)
    ensures Covered(smooth, kept + [more], p, close)
  {
    var b :| 0 <= b < |kept| && kept[b] < GRID && close(p, kept[b]) && smooth[kept[b]] >= smooth[p];
    assert (kept + [more])[b] == kept[b];
  }

  /** The next strongest peak is given up: something kept is close to it and no weaker. */
  lemma ThinDrop(smooth: seq<real>, done: seq<nat>, p: nat, kept: seq<nat>, close: Close)
    requires |smooth| == GRID && Falling(smooth, done + [p]) && Falling(smooth, done)
    requires Thinned(smooth, done, kept, close) && SomeClose(kept, p, close)
    ensures Thinned(smooth, done + [p], kept, close)
  {
    var peaks := done + [p];
    assert peaks[|done|] == p;
    assert forall q :: q in done ==> q in peaks;
    var b :| 0 <= b < |kept| && close(p, kept[b]);
    assert kept[b] in done;
    var m :| 0 <= m < |done| && done[m] == kept[b];
    assert peaks[m] == kept[b];
    assert Covered(smooth, kept, p, close);
    forall k | 0 <= k < |peaks| ensures peaks[k] in kept || Covered(smooth, kept, peaks[k], close) {
      if k < |done| { assert done[k] == peaks[k]; }
    }
  }

  /** The next strongest peak is kept: nothing kept is close to it. */
  lemma ThinKeep(smooth: seq<real>, done: seq<nat>, p: nat, kept: seq<nat>, close: Close)
    requires |smooth| == GRID && Symmetric(close) && Falling(smooth, done + [p]) && Falling(smooth, done)
    requires Thinned(smooth, done, kept, close) && !SomeClose(kept, p, close)
    ensures Thinned(smooth, done + [p], kept + [p], close)
  {
    var peaks, next := done + [p], kept + [p];
    assert peaks[|done|] == p && next[|kept|] == p;
    assert forall q :: q in done ==> q in peaks;
    forall k | 0 <= k < |peaks| ensures peaks[k] in next || Covered(smooth, next, peaks[k], close) {
      if k < |done| {
        assert done[k] == peaks[k];
        if peaks[k] !in kept { CoveredStays(smooth, kept, p, peaks[k], close); }
      }
    }
    forall a, b | 0 <= a < b < |next| ensures !close(next[a], next[b]) {
      if b == |kept| { assert close(next[a], p) == close(p, next[a]); }
    }
  }

  /** One by one, a peak is kept unless one already kept is close. */
  ghost function ThinOf(sorted: seq<nat>, close: Close): seq<nat> {
    if sorted == [] then []
    else
      var before, p := ThinOf(sorted[..|sorted| - 1], close), sorted[|sorted| - 1];
      if SomeClose(before, p, close) then before else before + [p]
  }

  lemma ThinNext(smooth: seq<real>, done: seq<nat>, p: nat, close: Close)
    requires |smooth| == GRID && Symmetric(close) && Falling(smooth, done + [p]) && Falling(smooth, done)
    requires Thinned(smooth, done, ThinOf(done, close), close)
    ensures Thinned(smooth, done + [p], ThinOf(done + [p], close), close)
  {
    assert (done + [p])[..|done|] == done;
    var kept := ThinOf(done, close);
    if SomeClose(kept, p, close) {
      ThinDrop(smooth, done, p, kept, close);
    } else {
      ThinKeep(smooth, done, p, kept, close);
    }
  }

  lemma FallingInit(smooth: seq<real>, ps: seq<nat>)
    requires |smooth| == GRID && Falling(smooth, ps) && ps != []
    ensures Falling(smooth, ps[..|ps| - 1])
  {
  }

  lemma {:induction false} ThinLeavesOne(sorted: seq<nat>, close: Close)
    requires sorted != []
    ensures ThinOf(sorted, close) != []
  {
    if |sorted| > 1 {
      ThinLeavesOne(sorted[..|sorted| - 1], close);
    } else {
      assert ThinOf(sorted[..0], close) == [];
    }
  }

  /** What stays is apart, and whatever goes has something as strong close by. */
  lemma {:induction false} ThinOfThins(smooth: seq<real>, sorted: seq<nat>, close: Close)
    requires |smooth| == GRID && Falling(smooth, sorted) && Symmetric(close)
    ensures Thinned(smooth, sorted, ThinOf(sorted, close), close)
  {
    if sorted != [] {
      var init, p := sorted[..|sorted| - 1], sorted[|sorted| - 1];
      FallingInit(smooth, sorted);
      ThinOfThins(smooth, init, close);
      assert sorted == init + [p];
      ThinNext(smooth, init, p, close);
    }
  }

  /** A peak closer than splitSep to a stronger one is the same person. */
  method Thin(sorted: seq<nat>, close: Close) returns (kept: seq<nat>)
    ensures kept == ThinOf(sorted, close)
  {
    kept := [];
    for i := 0 to |sorted|
      invariant kept == ThinOf(sorted[..i], close)
    {
      assert sorted[..i + 1][..i] == sorted[..i];
      var near := AnyClose(kept, sorted[i], close);
      if !near { kept := kept + [sorted[i]]; }
    }
    assert sorted[..|sorted|] == sorted;
  }

  // ---- every pixel to its nearest peak ---------------------------------------------------------

  ghost predicate NearestIn(peaks: seq<nat>, i: nat, best: nat) {
    best < |peaks| &&
    forall k :: 0 <= k < |peaks| ==>
      Gap2(i, peaks[best]) <= Gap2(i, peaks[k]) && (k < best ==> Gap2(i, peaks[best]) < Gap2(i, peaks[k]))
  }

  method Nearest(peaks: seq<nat>, i: nat) returns (best: nat)
    requires peaks != []
    ensures NearestIn(peaks, i, best)
  {
    best := 0;
    for k := 1 to |peaks|
      invariant NearestIn(peaks[..k], i, best)
    {
      if Gap2(i, peaks[k]) < Gap2(i, peaks[best]) { best := k; }
    }
    assert peaks[..|peaks|] == peaks;
  }

  function AreaSum(acc: seq<Acc>): int { if acc == [] then 0 else AreaSum(acc[..|acc| - 1]) + acc[|acc| - 1].area }

  function HeatSum(acc: seq<Acc>): real { if acc == [] then 0.0 else HeatSum(acc[..|acc| - 1]) + acc[|acc| - 1].w }

  function PixelHeat(members: seq<nat>, diff: seq<real>): real
    requires |diff| == GRID && forall k :: 0 <= k < |members| ==> members[k] < GRID
  {
    if members == [] then 0.0
    else PixelHeat(members[..|members| - 1], diff) + Positive(diff[members[|members| - 1]])
  }

  lemma {:induction false} SumsUpdate(acc: seq<Acc>, k: nat, a: Acc)
    requires k < |acc|
    ensures AreaSum(acc[k := a]) == AreaSum(acc) - acc[k].area + a.area
    ensures HeatSum(acc[k := a]) == HeatSum(acc) - acc[k].w + a.w
  {
    var n := |acc| - 1;
    if k < n {
      SumsUpdate(acc[..n], k, a);
      assert acc[k := a][..n] == acc[..n][k := a];
    } else {
      assert acc[k := a][..n] == acc[..n];
    }
  }

  /** The weighted position of an accumulator stays within the frame's pixel centres. */
  ghost predicate Centred(a: Acc) {
    a.w >= 0.0 && a.area >= 0 && Between(0.5, 31.5, a.w, a.x) && Between(0.5, 23.5, a.w, a.y)
  }

  function Gathered(a: Acc, i: nat, d: real): Acc {
    var w := Positive(d);
    Acc(a.w + w, a.x + (Col(i) as real + 0.5) * w, a.y + (Row(i) as real + 0.5) * w, a.area + 1,
        if d > a.peakD then d else a.peakD)
  }

  const NOTHING := Acc(0.0, 0.0, 0.0, 0, 0.0)

  /** What the members assigned to peak k come to. */
  function Collected(members: seq<nat>, diff: seq<real>, to: seq<nat>, k: nat): Acc
    requires |diff| == GRID && |to| == |members| && forall m :: 0 <= m < |members| ==> members[m] < GRID
  {
    if members == [] then NOTHING
    else
      var n := |members| - 1;
      var before := Collected(members[..n], diff, to[..n], k);
      if to[n] == k then Gathered(before, members[n], diff[members[n]]) else before
  }

  lemma GatherCentred(a: Acc, i: nat, d: real)
    requires Centred(a) && i < GRID
    ensures Centred(Gathered(a, i, d))
  {
    AddWeighted(0.5, 31.5, a.w, a.x, Col(i) as real + 0.5, Positive(d));
    AddWeighted(0.5, 23.5, a.w, a.y, Row(i) as real + 0.5, Positive(d));
  }

  lemma {:induction false} EmptySums(n: nat)
    ensures AreaSum(seq(n, _ => NOTHING)) == 0
    ensures HeatSum(seq(n, _ => NOTHING)) == 0.0
  {
    if n > 0 {
      EmptySums(n - 1);
      assert seq(n, _ => NOTHING)[..n - 1] == seq(n - 1, _ => NOTHING);
    }
  }

  /** Give every member to its nearest peak; no pixel and no heat is lost or counted twice. */
  method Gather(members: seq<nat>, diff: seq<real>, peaks: seq<nat>) returns (acc: seq<Acc>, ghost to: seq<nat>)
    requires |diff| == GRID && peaks != [] && forall k :: 0 <= k < |members| ==> members[k] < GRID
    ensures |acc| == |peaks| && |to| == |members|
    ensures forall k :: 0 <= k < |members| ==> NearestIn(peaks, members[k], to[k])
    ensures forall k :: 0 <= k < |acc| ==> acc[k] == Collected(members, diff, to, k)
    ensures AreaSum(acc) == |members| && HeatSum(acc) == PixelHeat(members, diff)
    ensures forall k :: 0 <= k < |acc| ==> Centred(acc[k])
  {
    acc := seq(|peaks|, _ => NOTHING);
    EmptySums(|peaks|);
    to := [];
    for m := 0 to |members|
      invariant |acc| == |peaks| && |to| == m
      invariant forall k :: 0 <= k < m ==> NearestIn(peaks, members[k], to[k])
      invariant forall k :: 0 <= k < |acc| ==> acc[k] == Collected(members[..m], diff, to, k)
      invariant AreaSum(acc) == m && HeatSum(acc) == PixelHeat(members[..m], diff)
      invariant forall k :: 0 <= k < |acc| ==> Centred(acc[k])
    {
      var i := members[m];
      var best := Nearest(peaks, i);
      GatherCentred(acc[best], i, diff[i]);
      SumsUpdate(acc, best, Gathered(acc[best], i, diff[i]));
      assert members[..m + 1][..m] == members[..m];
      acc := acc[best := Gathered(acc[best], i, diff[i])];
      assert (to + [best])[..m] == to;
      to := to + [best];
    }
    assert members[..|members|] == members;
  }

  predicate Kept(a: Acc, p: Params) {
    p.minArea <= a.area <= p.maxArea && a.peakD >= p.minPeak && a.w > 0.0
  }

  function DetectionOf(a: Acc): Detection
    requires a.w > 0.0
  {
    Detection(a.x / a.w, a.y / a.w, a.area, a.peakD, a.w)
  }

  /** One detection for every accumulator the limits let through, in order. */
  function DetectionsOf(acc: seq<Acc>, p: Params): (r: seq<Detection>)
    ensures |r| <= |acc|
  {
    if acc == [] then []
    else
      var a := acc[|acc| - 1];
      DetectionsOf(acc[..|acc| - 1], p) + (if Kept(a, p) then [DetectionOf(a)] else [])
  }

  predicate ValidDetection(f: Detection, p: Params) {
    0.5 <= f.x <= 31.5 && 0.5 <= f.y <= 23.5 && p.minArea <= f.area <= p.maxArea && f.contrast >= p.minPeak &&
      f.heat > 0.0
  }

  lemma {:induction false} DetectionsValid(acc: seq<Acc>, p: Params)
    requires forall k :: 0 <= k < |acc| ==> Centred(acc[k])
    ensures forall k :: 0 <= k < |DetectionsOf(acc, p)| ==> ValidDetection(DetectionsOf(acc, p)[k], p)
  {
    if acc != [] {
      var a := acc[|acc| - 1];
      DetectionsValid(acc[..|acc| - 1], p);
      if Kept(a, p) {
        Quotient(0.5, 31.5, a.x, a.w);
        Quotient(0.5, 23.5, a.y, a.w);
      }
    }
  }

  /** How a component was split: its peaks, the ones kept, each member's peak, and what each gathered. */
  datatype Split = Split(raw: seq<nat>, peaks: seq<nat>, to: seq<nat>, acc: seq<Acc>)

  ghost predicate SplitOf(members: seq<nat>, diff: seq<real>, smooth: seq<real>, p: Params, s: Split) {
    |diff| == |smooth| == GRID && (forall k :: 0 <= k < |members| ==> members[k] < GRID) &&
    s.raw == AtMost(PeaksOf(members, smooth), MAX_PEAKS) && (forall k :: 0 <= k < |s.raw| ==> s.raw[k] < GRID) &&
    s.peaks == ThinOf(ByStrength(smooth, s.raw), Closer(p.splitSep)) &&
    |s.acc| == |s.peaks| &&
    (s.peaks != [] ==>
      |s.to| == |members| && (forall k :: 0 <= k < |members| ==> NearestIn(s.peaks, members[k], s.to[k])) &&
      forall k :: 0 <= k < |s.acc| ==> s.acc[k] == Collected(members, diff, s.to, k))
  }

  /** The peaks of a component that stay. */
  method KeepPeaks(members: seq<nat>, smooth: seq<real>, p: Params) returns (kept: seq<nat>, ghost raw: seq<nat>)
    requires |smooth| == GRID && Segmentation.Distinct(members)
    ensures RawPeaks(members, smooth, raw) && raw == AtMost(PeaksOf(members, smooth), MAX_PEAKS)
    ensures forall k :: 0 <= k < |raw| ==> raw[k] < GRID
    ensures kept == ThinOf(ByStrength(smooth, raw), Closer(p.splitSep))
    ensures Thinned(smooth, raw, kept, Closer(p.splitSep)) && (kept == [] <==> raw == [])
  {
    var candidates := FindPeaks(members, smooth);
    raw := candidates;
    var sorted := ByStrength(smooth, candidates);
    if candidates != [] { assert candidates[0] in sorted; }
    if sorted != [] { assert sorted[0] in candidates; }
    kept := Thin(sorted, Closer(p.splitSep));
    CloserSymmetric(p.splitSep);
    ThinOfThins(smooth, sorted, Closer(p.splitSep));
    if sorted != [] { ThinLeavesOne(sorted, Closer(p.splitSep)); }
    SameMembers(smooth, sorted, candidates, kept, Closer(p.splitSep));
  }

  /** The detections the limits let through. */
  method Report(acc: seq<Acc>, p: Params) returns (found: seq<Detection>)
    requires forall k :: 0 <= k < |acc| ==> Centred(acc[k])
    ensures found == DetectionsOf(acc, p) && forall k :: 0 <= k < |found| ==> ValidDetection(found[k], p)
  {
    found := [];
    for k := 0 to |acc|
      invariant found == DetectionsOf(acc[..k], p)
    {
      assert acc[..k + 1][..k] == acc[..k];
      if Kept(acc[k], p) { found := found + [DetectionOf(acc[k])]; }
    }
    assert acc[..|acc|] == acc;
    DetectionsValid(acc, p);
  }

  /** splitComponent: the detections of one component. */
  method SplitComponent(members: seq<nat>, diff: seq<real>, smooth: seq<real>, p: Params)
    returns (found: seq<Detection>, ghost s: Split)
    requires |diff| == |smooth| == GRID && Segmentation.Distinct(members)
    ensures SplitOf(members, diff, smooth, p, s) && found == DetectionsOf(s.acc, p)
    ensures RawPeaks(members, smooth, s.raw) && Thinned(smooth, s.raw, s.peaks, Closer(p.splitSep))
    ensures s.peaks == [] <==> s.raw == []
    ensures s.peaks != [] ==> AreaSum(s.acc) == |members| && HeatSum(s.acc) == PixelHeat(members, diff)
    ensures forall k :: 0 <= k < |found| ==> ValidDetection(found[k], p)
  {
    found := [];
    var kept;
    ghost var raw;
    kept, raw := KeepPeaks(members, smooth, p);
    s := Split(raw, kept, [], []);
    if kept == [] { return; }
    var acc;
    ghost var to;
    acc, to := Gather(members, diff, kept);
    s := Split(raw, kept, to, acc);
    found := Report(acc, p);
  }

  lemma SameMembers(smooth: seq<real>, sorted: seq<nat>, peaks: seq<nat>, kept: seq<nat>, close: Close)
    requires |smooth| == GRID && Falling(smooth, sorted) && (forall k :: 0 <= k < |peaks| ==> peaks[k] < GRID)
    requires (forall q :: q in sorted <==> q in peaks) && Thinned(smooth, sorted, kept, close)
    ensures Thinned(smooth, peaks, kept, close)
  {
    forall p | 0 <= p < |peaks| ensures peaks[p] in kept || Covered(smooth, kept, peaks[p], close) {
      assert peaks[p] in sorted;
      var k :| 0 <= k < |sorted| && sorted[k] == peaks[p];
    }
  }
}
