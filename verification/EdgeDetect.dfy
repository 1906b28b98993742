/**
 * One frame through the edge's detector (src/edge/edgedetect.ts): threshold, smooth, flood,
 * split. The noise estimate behind the threshold is a parameter.
 */
module EdgeDetect {
  import opened BlobMerge
  import opened Segmentation
  import opened BlobSplit

  // ---- smoothing -----------------------------------------------------------------------

  /** The 1-2-1 kernel along one axis. */
  function Kernel(v: int): real { if v == 0 then 2.0 else 1.0 }

  predicate InFrame(x: int, y: int) { 0 <= x < W && 0 <= y < H }

  /** The weight of neighbour (dy, dx) of pixel (x, y): none outside the frame. */
  function WeightAt(x: int, y: int, dy: int, dx: int): real {
    if InFrame(x + dx, y + dy) then Kernel(dx) * Kernel(dy) else 0.0
  }

  function ValueAt(d: seq<real>, x: int, y: int, dy: int, dx: int): real
    requires |d| == GRID
  {
    if InFrame(x + dx, y + dy) then Positive(d[(y + dy) * W + x + dx]) * WeightAt(x, y, dy, dx) else 0.0
  }

  /** Sums over the first n columns of one row around (x, y), and over the first m rows. */
  function RowWeights(x: int, y: int, dy: int, n: nat): real {
    if n == 0 then 0.0 else RowWeights(x, y, dy, n - 1) + WeightAt(x, y, dy, n - 2)
  }

  function RowValues(d: seq<real>, x: int, y: int, dy: int, n: nat): real
    requires |d| == GRID
  {
    if n == 0 then 0.0 else RowValues(d, x, y, dy, n - 1) + ValueAt(d, x, y, dy, n - 2)
  }

  function Weights(x: int, y: int, m: nat): real {
    if m == 0 then 0.0 else Weights(x, y, m - 1) + RowWeights(x, y, m - 2, 3)
  }

  function Values(d: seq<real>, x: int, y: int, m: nat): real
    requires |d| == GRID
  {
    if m == 0 then 0.0 else Values(d, x, y, m - 1) + RowValues(d, x, y, m - 2, 3)
  }

  /** The weighted mean of what is positive among the pixel and its neighbours. */
  ghost predicate Smoothed(d: seq<real>, out: seq<real>, i: nat)
    requires |d| == GRID && |out| == GRID && i < GRID
  {
    Weights(Col(i), Row(i), 3) > 0.0 && out[i] == Values(d, Col(i), Row(i), 3) / Weights(Col(i), Row(i), 3)
  }

  lemma {:induction false} RowWeightsPositive(x: int, y: int, dy: int, n: nat)
    ensures RowWeights(x, y, dy, n) >= 0.0
    ensures InFrame(x, y) && dy == 0 && n >= 2 ==> RowWeights(x, y, dy, n) > 0.0
  {
    if n > 0 { RowWeightsPositive(x, y, dy, n - 1); }
  }

  lemma {:induction false} WeightsPositive(x: int, y: int, m: nat)
    requires InFrame(x, y)
    ensures Weights(x, y, m) >= 0.0 && (m >= 2 ==> Weights(x, y, m) > 0.0)
  {
    if m > 0 {
      WeightsPositive(x, y, m - 1);
      RowWeightsPositive(x, y, m - 2, 3);
    }
  }

  method SmoothPositive(d: seq<real>) returns (out: seq<real>)
    requires |d| == GRID
    ensures |out| == GRID && forall i: nat :: i < GRID ==> Smoothed(d, out, i)
  {
    var a := new real[GRID](i => 0.0);
    for y := 0 to H
      invariant forall i: nat :: i < y * W ==> Smoothed(d, a[..], i)
    {
      for x := 0 to W
        invariant forall i: nat :: i < y * W + x ==> Smoothed(d, a[..], i)
      {
        var v := SmoothOne(d, x, y);
        ghost var was := a[..];
        a[y * W + x] := v;
        forall i: nat | i < y * W + x ensures Smoothed(d, a[..], i) { assert Smoothed(d, was, i); }
        assert Col(y * W + x) == x && Row(y * W + x) == y;
      }
    }
    out := a[..];
  }

  /** The inner loop: what one row of neighbours adds. */
  method AddRow(d: seq<real>, x: int, y: int, dy: int, before: real, weight: real) returns (sum: real, wsum: real)
    requires |d| == GRID
    ensures sum == before + RowValues(d, x, y, dy, 3) && wsum == weight + RowWeights(x, y, dy, 3)
  {
    sum, wsum := before, weight;
    for dx := -1 to 2
      invariant sum == before + RowValues(d, x, y, dy, dx + 1) && wsum == weight + RowWeights(x, y, dy, dx + 1)
    {
      var nx, ny := x + dx, y + dy;
      if nx < 0 || nx >= W || ny < 0 || ny >= H { continue; }
      var w := Kernel(dx) * Kernel(dy);
      sum := sum + Positive(d[ny * W + nx]) * w;
      wsum := wsum + w;
    }
  }

  method SmoothOne(d: seq<real>, x: int, y: int) returns (v: real)
    requires |d| == GRID && InFrame(x, y)
    ensures Weights(x, y, 3) > 0.0 && v == Values(d, x, y, 3) / Weights(x, y, 3)
  {
    var sum, wsum := 0.0, 0.0;
    for dy := -1 to 2
      invariant sum == Values(d, x, y, dy + 1) && wsum == Weights(x, y, dy + 1)
    {
      sum, wsum := AddRow(d, x, y, dy, sum, wsum);
    }
    WeightsPositive(x, y, 3);
    v := sum / wsum;
  }

  ghost predicate AroundBetween(d: seq<real>, x: int, y: int, lo: real, hi: real)
    requires |d| == GRID
  {
    forall v: int, u: int :: -1 <= v - y <= 1 && -1 <= u - x <= 1 && InFrame(u, v) ==>
      lo <= Positive(d[v * W + u]) <= hi
  }

  lemma {:induction false} RowBetween(d: seq<real>, x: int, y: int, dy: int, n: nat, lo: real, hi: real)
    requires |d| == GRID && -1 <= dy <= 1 && n <= 3 && AroundBetween(d, x, y, lo, hi)
    ensures Between(lo, hi, RowWeights(x, y, dy, n), RowValues(d, x, y, dy, n))
  {
    if n > 0 {
      RowBetween(d, x, y, dy, n - 1, lo, hi);
      var dx := n - 2;
      if InFrame(x + dx, y + dy) {
        AddWeighted(lo, hi, RowWeights(x, y, dy, n - 1), RowValues(d, x, y, dy, n - 1),
                    Positive(d[(y + dy) * W + x + dx]), WeightAt(x, y, dy, dx));
      }
    }
  }

  lemma AddBetween(lo: real, hi: real, m: real, s: real, m': real, s': real)
    requires Between(lo, hi, m, s) && Between(lo, hi, m', s')
    ensures Between(lo, hi, m + m', s + s')
  {}

  lemma {:induction false} ValuesBetween(d: seq<real>, x: int, y: int, m: nat, lo: real, hi: real)
    requires |d| == GRID && m <= 3 && AroundBetween(d, x, y, lo, hi)
    ensures Between(lo, hi, Weights(x, y, m), Values(d, x, y, m))
  {
    if m > 0 {
      ValuesBetween(d, x, y, m - 1, lo, hi);
      RowBetween(d, x, y, m - 2, 3, lo, hi);
      AddBetween(lo, hi, Weights(x, y, m - 1), Values(d, x, y, m - 1), RowWeights(x, y, m - 2, 3),
        RowValues(d, x, y, m - 2, 3));
    }
  }

  /** Smoothing never goes beyond what it smooths, also at the edges of the frame. */
  lemma SmoothBetween(d: seq<real>, out: seq<real>, i: nat, lo: real, hi: real)
    requires |d| == GRID && |out| == GRID && i < GRID && Smoothed(d, out, i)
    requires forall j: nat :: j < GRID && (j == i || Near(i, j)) ==> lo <= Positive(d[j]) <= hi
    ensures lo <= out[i] <= hi
  {
    var x, y := Col(i), Row(i);
    forall v: int, u: int | -1 <= v - y <= 1 && -1 <= u - x <= 1 && InFrame(u, v)
      ensures lo <= Positive(d[v * W + u]) <= hi
    {
      var j := v * W + u;
      assert Col(j) == u && Row(j) == v;
      assert j == i || Near(i, j);
    }
    ValuesBetween(d, x, y, 3, lo, hi);
    Quotient(lo, hi, Values(d, x, y, 3), Weights(x, y, 3));
  }

  // ---- the frame ------------------------------------------------------------------------

  function CountTrue(fg: seq<bool>): nat {
    if fg == [] then 0 else CountTrue(fg[..|fg| - 1]) + (if fg[|fg| - 1] then 1 else 0)
  }

  method Threshold(diff: seq<real>, threshold: real) returns (fg: seq<bool>, cells: nat)
    requires |diff| == GRID
    ensures |fg| == GRID && cells == CountTrue(fg) && forall i :: 0 <= i < GRID ==> (fg[i] <==> diff[i] > threshold)
  {
    fg, cells := [], 0;
    for i := 0 to GRID
      invariant |fg| == i && cells == CountTrue(fg) && forall k :: 0 <= k < i ==> (fg[k] <==> diff[k] > threshold)
    {
      ghost var was := fg;
      fg := fg + [diff[i] > threshold];
      assert fg[..i] == was;
      if diff[i] > threshold { cells := cells + 1; }
    }
  }

  /** The detections of all components, in turn. */
  function AllFound(splits: seq<Split>, p: Params): seq<Detection> {
    if splits == [] then [] else AllFound(splits[..|splits| - 1], p) + DetectionsOf(splits[|splits| - 1].acc, p)
  }

  ghost predicate SplitsOf(comps: seq<seq<nat>>, diff: seq<real>, smooth: seq<real>, p: Params, splits: seq<Split>) {
    |splits| == |comps| && forall c :: 0 <= c < |comps| ==> SplitOf(comps[c], diff, smooth, p, splits[c])
  }

  /** The foreground split into components, and each component into people. */
  datatype Parts = Parts(smooth: seq<real>, comps: seq<seq<nat>>, owner: seq<int>, splits: seq<Split>)

  ghost predicate PartsOf(diff: seq<real>, fg: seq<bool>, p: Params, s: Parts) {
    |diff| == |fg| == |s.smooth| == GRID && (forall i: nat :: i < GRID ==> Smoothed(diff, s.smooth, i)) &&
    Labelled(fg, s.comps, s.owner) && (forall i :: 0 <= i < GRID ==> (s.owner[i] >= 0 <==> fg[i])) &&
    SplitsOf(s.comps, diff, s.smooth, p, s.splits)
  }

  ghost predicate AllValid(detections: seq<Detection>, p: Params) {
    forall k :: 0 <= k < |detections| ==> ValidDetection(detections[k], p)
  }

  lemma OneMoreSplit(comps: seq<seq<nat>>, diff: seq<real>, smooth: seq<real>, p: Params, splits: seq<Split>,
      split: Split)
    requires |splits| < |comps| && SplitsOf(comps[..|splits|], diff, smooth, p, splits)
    requires SplitOf(comps[|splits|], diff, smooth, p, split)
    ensures SplitsOf(comps[..|splits| + 1], diff, smooth, p, splits + [split])
    ensures AllFound(splits + [split], p) == AllFound(splits, p) + DetectionsOf(split.acc, p)
  {
    var n, more := |splits|, splits + [split];
    forall c | 0 <= c <= n ensures SplitOf(comps[..n + 1][c], diff, smooth, p, more[c]) {
      if c < n { assert SplitOf(comps[..n][c], diff, smooth, p, splits[c]); }
    }
    assert more[..n] == splits;
  }

  lemma ValidJoin(a: seq<Detection>, b: seq<Detection>, p: Params)
    requires AllValid(a, p) && AllValid(b, p)
    ensures AllValid(a + b, p)
  {
  }

  /** Split the components, one after the other. */
  method SplitAll(comps: seq<seq<nat>>, diff: seq<real>, smooth: seq<real>, p: Params)
    returns (detections: seq<Detection>, ghost splits: seq<Split>)
    requires |diff| == |smooth| == GRID && forall c :: 0 <= c < |comps| ==> Segmentation.Distinct(comps[c])
    ensures SplitsOf(comps, diff, smooth, p, splits) && detections == AllFound(splits, p)
    ensures AllValid(detections, p)
  {
    detections, splits := [], [];
    for c := 0 to |comps|
      invariant |splits| == c && SplitsOf(comps[..c], diff, smooth, p, splits) && detections == AllFound(splits, p)
      invariant AllValid(detections, p)
    {
      ghost var split;
      var found;
      found, split := SplitComponent(comps[c], diff, smooth, p);
      OneMoreSplit(comps, diff, smooth, p, splits, split);
      ValidJoin(detections, found, p);
      splits := splits + [split];
      detections := detections + found;
    }
    assert comps[..|comps|] == comps;
  }

  /**
   * segment: nothing when more than the given share of the frame is foreground; otherwise the
   * detections of every component, at most MAX_DETECTIONS and flagged when more were found.
   */
  method Segment(diff: seq<real>, threshold: real, p: Params)
    returns (detections: seq<Detection>, globalShift: bool, truncated: bool, ghost s: Parts)
    requires |diff| == GRID
    ensures globalShift <==>
      CountTrue(seq(GRID, i requires 0 <= i < GRID => diff[i] > threshold)) as real >
      GLOBAL_SHIFT_FRACTION * GRID as real
    ensures globalShift ==> detections == [] && !truncated
    ensures !globalShift ==> PartsOf(diff, seq(GRID, i requires 0 <= i < GRID => diff[i] > threshold), p, s)
    ensures !globalShift ==>
      detections == AtMost(AllFound(s.splits, p), MAX_DETECTIONS) &&
        (truncated <==> |AllFound(s.splits, p)| > MAX_DETECTIONS)
    ensures AllValid(detections, p)
  {
    detections, truncated, s := [], false, Parts([], [], [], []);
    var fg, cells := Threshold(diff, threshold);
    assert fg == seq(GRID, i requires 0 <= i < GRID => diff[i] > threshold);
    globalShift := cells as real > GLOBAL_SHIFT_FRACTION * GRID as real;
    if globalShift { return; }
    var smooth := SmoothPositive(diff);
    var parts;
    ghost var owner;
    parts, owner := Components(fg);
    ghost var splits;
    detections, splits := SplitAll(parts, diff, smooth, p);
    s := Parts(smooth, parts, owner, splits);
    if |detections| > MAX_DETECTIONS {
      detections, truncated := detections[..MAX_DETECTIONS], true;
    }
  }
}
