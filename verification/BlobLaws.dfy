/**
 * What one blob comes to, pixel by pixel (src/edge/edgedetect.ts:75-185): the smoothing of its
 * neighbourhood, the distance between pixels, and what each reported person is made of.
 */
module BlobLaws {
  import opened BlobMerge
  import opened Segmentation
  import opened BlobSplit
  import opened EdgeDetect

  // ---- distance and smoothing ------------------------------------------------------------------------

  /** Distances are between columns and between rows alike: neighbours are the pixels one step away. */
  lemma NearIsClose(i: nat, j: nat)
    requires i < GRID && j < GRID
    ensures Near(i, j) <==> 1 <= Gap2(i, j) <= 2
    ensures Gap2(i, j) == 0 <==> i == j
  {
    var dx, dy := Col(i) - Col(j), Row(i) - Row(j);
    SquareGrows(dx);
    SquareGrows(dy);
    assert i == Row(i) * W + Col(i) && j == Row(j) * W + Col(j);
  }

  lemma SquareGrows(v: int)
    ensures v * v >= 0 && (v * v == 0 <==> v == 0) && (v * v <= 1 <==> -1 <= v <= 1) && (v * v < 4 <==> -1 <= v <= 1)
  {
    if v >= 2 { assert v * v >= 2 * v; }
    if v <= -2 { assert v * v >= -2 * v; }
  }

  lemma ThreeColumns(d: seq<real>, x: int, y: int, dy: int)
    requires |d| == GRID
    ensures RowWeights(x, y, dy, 3) == WeightAt(x, y, dy, -1) + WeightAt(x, y, dy, 0) + WeightAt(x, y, dy, 1)
    ensures RowValues(d, x, y, dy, 3) == ValueAt(d, x, y, dy, -1) + ValueAt(d, x, y, dy, 0) + ValueAt(d, x, y, dy, 1)
  {
    assert RowWeights(x, y, dy, 1) == RowWeights(x, y, dy, 0) + WeightAt(x, y, dy, -1);
    assert RowWeights(x, y, dy, 2) == RowWeights(x, y, dy, 1) + WeightAt(x, y, dy, 0);
    assert RowValues(d, x, y, dy, 1) == RowValues(d, x, y, dy, 0) + ValueAt(d, x, y, dy, -1);
    assert RowValues(d, x, y, dy, 2) == RowValues(d, x, y, dy, 1) + ValueAt(d, x, y, dy, 0);
  }

  lemma ThreeRows(d: seq<real>, x: int, y: int)
    requires |d| == GRID
    ensures Weights(x, y, 3) == RowWeights(x, y, -1, 3) + RowWeights(x, y, 0, 3) + RowWeights(x, y, 1, 3)
    ensures Values(d, x, y, 3) == RowValues(d, x, y, -1, 3) + RowValues(d, x, y, 0, 3) + RowValues(d, x, y, 1, 3)
  {
    assert Weights(x, y, 1) == Weights(x, y, 0) + RowWeights(x, y, -1, 3);
    assert Weights(x, y, 2) == Weights(x, y, 1) + RowWeights(x, y, 0, 3);
    assert Values(d, x, y, 1) == Values(d, x, y, 0) + RowValues(d, x, y, -1, 3);
    assert Values(d, x, y, 2) == Values(d, x, y, 1) + RowValues(d, x, y, 0, 3);
  }

  /** Away from the edges: the 1-2-1 kernel both ways, sixteen in all, over what is positive. */
  lemma SmoothInside(d: seq<real>, out: seq<real>, i: nat)
    requires |d| == GRID && |out| == GRID && i < GRID && Smoothed(d, out, i)
    requires 1 <= i % 32 <= 30 && 1 <= i / 32 <= 22
    ensures out[i] * 16.0 ==
      4.0 * Positive(d[i]) +
      2.0 * (Positive(d[i - 1]) + Positive(d[i + 1]) + Positive(d[i - 32]) + Positive(d[i + 32])) +
      Positive(d[i - 33]) + Positive(d[i - 31]) + Positive(d[i + 31]) + Positive(d[i + 33])
  {
    var x, y := Col(i), Row(i);
    assert i == y * W + x;
    RowInside(d, x, y, -1);
    RowInside(d, x, y, 0);
    RowInside(d, x, y, 1);
    ThreeRows(d, x, y);
  }

  lemma RowInside(d: seq<real>, x: int, y: int, dy: int)
    requires |d| == GRID && 1 <= x <= 30 && 1 <= y <= 22 && -1 <= dy <= 1
    ensures var j := (y + dy) * W + x;
      var k := if dy == 0 then 2.0 else 1.0;
      RowWeights(x, y, dy, 3) == 4.0 * k &&
      RowValues(d, x, y, dy, 3) == k * (Positive(d[j - 1]) + 2.0 * Positive(d[j]) + Positive(d[j + 1]))
  {
    ThreeColumns(d, x, y, dy);
  }

  /** In the corner only the four pixels that are there count, nine in all. */
  lemma SmoothCorner(d: seq<real>, out: seq<real>)
    requires |d| == GRID && |out| == GRID && Smoothed(d, out, 0)
    ensures out[0] * 9.0 ==
      4.0 * Positive(d[0]) + 2.0 * (Positive(d[1]) + Positive(d[32])) + Positive(d[33])
  {
    assert Col(0) == 0 && Row(0) == 0;
    ThreeColumns(d, 0, 0, -1);
    ThreeColumns(d, 0, 0, 0);
    ThreeColumns(d, 0, 0, 1);
    ThreeRows(d, 0, 0);
  }

  /** A frame that is nowhere negative loses nothing to the cut-off, and cold counts as none at all. */
  lemma PositiveIs(v: real)
    ensures v >= 0.0 ==> Positive(v) == v
    ensures v <= 0.0 ==> Positive(v) == 0.0
  {
  }

  // ---- what a person is made of ------------------------------------------------------------------------

  /** Which members went to peak k. */
  function Share(to: seq<nat>, k: nat): set<nat> { set m: nat | m < |to| && to[m] == k }

  lemma ShareSnoc(to: seq<nat>, k: nat)
    requires to != []
    ensures var n := |to| - 1; Share(to, k) == if to[n] == k then Share(to[..n], k) + {n} else Share(to[..n], k)
  {
  }

  /** As many pixels as went to the peak, and the highest difference among them. */
  lemma {:induction false} CollectedIs(members: seq<nat>, diff: seq<real>, to: seq<nat>, k: nat)
    requires |diff| == GRID && |to| == |members| && forall m :: 0 <= m < |members| ==> members[m] < GRID
    ensures var a := Collected(members, diff, to, k);
      a.area == |Share(to, k)| && a.peakD >= 0.0 &&
      (forall m <- Share(to, k) :: diff[members[m]] <= a.peakD) &&
      (a.peakD == 0.0 || exists m :: m in Share(to, k) && diff[members[m]] == a.peakD)
  {
    if members == [] {
      assert Share(to, k) == {};
    } else {
      var n := |members| - 1;
      ShareSnoc(to, k);
      CollectedIs(members[..n], diff, to[..n], k);
      var a, before := Collected(members, diff, to, k), Collected(members[..n], diff, to[..n], k);
      forall m | m in Share(to, k) ensures diff[members[m]] <= a.peakD {
        if m < n { assert m in Share(to[..n], k); }
      }
      if before.peakD != 0.0 {
        var m :| m in Share(to[..n], k) && diff[members[..n][m]] == before.peakD;
        assert m in Share(to, k);
      }
      if to[n] == k { assert n in Share(to, k); }
    }
  }

  /** The columns and the rows of the pixels that went to peak k lie between these bounds. */
  ghost predicate Box(members: seq<nat>, to: seq<nat>, k: nat, left: int, right: int, top: int, bottom: int)
    requires |to| == |members|
  {
    forall m :: 0 <= m < |to| && to[m] == k ==>
      left <= members[m] % 32 <= right && top <= members[m] / 32 <= bottom
  }

  lemma {:induction false} CollectedInside(
      members: seq<nat>, diff: seq<real>, to: seq<nat>, k: nat, left: int, right: int, top: int, bottom: int)
    requires |diff| == GRID && |to| == |members| && forall m :: 0 <= m < |members| ==> members[m] < GRID
    requires Box(members, to, k, left, right, top, bottom)
    ensures var a := Collected(members, diff, to, k);
      a.w >= 0.0 && Between(left as real + 0.5, right as real + 0.5, a.w, a.x) &&
      Between(top as real + 0.5, bottom as real + 0.5, a.w, a.y)
  {
    if members != [] {
      var n := |members| - 1;
      CollectedInside(members[..n], diff, to[..n], k, left, right, top, bottom);
      if to[n] == k {
        var before, i := Collected(members[..n], diff, to[..n], k), members[n];
        assert Box(members, to, k, left, right, top, bottom) && to[n] == k;
        GatherColumn(before, i, diff[i], left as real + 0.5, right as real + 0.5);
        GatherRow(before, i, diff[i], top as real + 0.5, bottom as real + 0.5);
      }
    }
  }

  lemma GatherColumn(a: Acc, i: nat, d: real, left: real, right: real)
    requires a.w >= 0.0 && Between(left, right, a.w, a.x) && left <= (i % 32) as real + 0.5 <= right
    ensures var g := Gathered(a, i, d); g.w >= 0.0 && Between(left, right, g.w, g.x)
  {
    AddWeighted(left, right, a.w, a.x, (i % 32) as real + 0.5, Positive(d));
  }

  lemma GatherRow(a: Acc, i: nat, d: real, top: real, bottom: real)
    requires a.w >= 0.0 && Between(top, bottom, a.w, a.y) && top <= (i / 32) as real + 0.5 <= bottom
    ensures var g := Gathered(a, i, d); Between(top, bottom, g.w, g.y)
  {
    AddWeighted(top, bottom, a.w, a.y, (i / 32) as real + 0.5, Positive(d));
  }

  /** The person is reported inside the box of its own pixels, columns across and rows down. */
  lemma DetectionInside(
      members: seq<nat>, diff: seq<real>, to: seq<nat>, k: nat, left: int, right: int, top: int, bottom: int)
    requires |diff| == GRID && |to| == |members| && forall m :: 0 <= m < |members| ==> members[m] < GRID
    requires Box(members, to, k, left, right, top, bottom) && Collected(members, diff, to, k).w > 0.0
    ensures var f := DetectionOf(Collected(members, diff, to, k));
      left as real + 0.5 <= f.x <= right as real + 0.5 && top as real + 0.5 <= f.y <= bottom as real + 0.5
  {
    CollectedInside(members, diff, to, k, left, right, top, bottom);
    var a := Collected(members, diff, to, k);
    Quotient(left as real + 0.5, right as real + 0.5, a.x, a.w);
    Quotient(top as real + 0.5, bottom as real + 0.5, a.y, a.w);
  }

  // ---- which people are reported ---------------------------------------------------------------------------

  /** The accumulators within the limits, among the first n. */
  function Within(acc: seq<Acc>, p: Params, n: nat): set<nat> {
    set k: nat | k < n && k < |acc| && p.minArea <= acc[k].area <= p.maxArea && p.minPeak <= acc[k].peakD &&
      acc[k].w > 0.0
  }

  /** Every one of them is reported, with its centre, and they stay in order; nothing else is. */
  lemma {:induction false} DetectionAt(acc: seq<Acc>, p: Params, k: nat)
    requires k in Within(acc, p, |acc|)
    ensures |DetectionsOf(acc, p)| == |Within(acc, p, |acc|)| && |Within(acc, p, k)| < |DetectionsOf(acc, p)|
    ensures var a := acc[k];
      DetectionsOf(acc, p)[|Within(acc, p, k)|] == Detection(a.x / a.w, a.y / a.w, a.area, a.peakD, a.w)
  {
    var n := |acc| - 1;
    DetectionCount(acc, p);
    DetectionCount(acc[..n], p);
    if k < n {
      assert k in Within(acc[..n], p, n);
      DetectionAt(acc[..n], p, k);
      assert Within(acc[..n], p, k) == Within(acc, p, k);
    } else {
      assert Within(acc[..n], p, n) == Within(acc, p, n);
    }
  }

  lemma {:induction false} DetectionCount(acc: seq<Acc>, p: Params)
    ensures |DetectionsOf(acc, p)| == |Within(acc, p, |acc|)|
  {
    if acc == [] {
      assert Within(acc, p, 0) == {};
    } else {
      var n := |acc| - 1;
      DetectionCount(acc[..n], p);
      assert Within(acc, p, |acc|) ==
        if Kept(acc[n], p) then Within(acc[..n], p, n) + {n} else Within(acc[..n], p, n);
    }
  }

  // ---- how much of the frame ---------------------------------------------------------------------------------

  /** The pixels that are foreground. */
  function Marked(fg: seq<bool>): set<nat> { set i: nat | i < |fg| && fg[i] }

  lemma {:induction false} CountIs(fg: seq<bool>)
    ensures CountTrue(fg) == |Marked(fg)|
  {
    if fg == [] {
      assert Marked(fg) == {};
    } else {
      var n := |fg| - 1;
      CountIs(fg[..n]);
      assert Marked(fg) == if fg[n] then Marked(fg[..n]) + {n} else Marked(fg[..n]);
    }
  }

  /** A frame counts as shifted when more than two fifths of its pixels are above the threshold. */
  lemma ShiftIs(diff: seq<real>, threshold: real)
    requires |diff| == GRID
    ensures var count := CountTrue(seq(GRID, i requires 0 <= i < GRID => diff[i] > threshold));
      count == |set i: nat | i < 768 && diff[i] > threshold| &&
      (count as real > GLOBAL_SHIFT_FRACTION * GRID as real <==> 5 * count > 2 * 768)
  {
    var fg := seq(GRID, i requires 0 <= i < GRID => diff[i] > threshold);
    CountIs(fg);
    assert Marked(fg) == set i: nat | i < 768 && diff[i] > threshold;
  }
}
