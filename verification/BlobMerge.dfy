/**
 * mergeClose (src/edge/occupancy.ts): single-linkage clustering of one node's blobs with a
 * union-find that compresses paths, then one blob per cluster.
 */
module BlobMerge {
  import opened UnionFind

  datatype Blob = Blob(
    x: real, y: real, area: real, contrast: real, peak: real, heat: real,
    floorX: real, floorY: real, norm: real)

  const FRAGMENT_RATIO := 0.4
  const MIN_WEIGHT := 0.000001

  function Min(a: real, b: real): real { if a < b then a else b }

  function Max(a: real, b: real): real { if a > b then a else b }

  /** Close on the floor, and the smaller a fragment of the larger; hypot compared squared. */
  predicate Fragment(a: Blob, b: Blob, mergeCm: real) {
    var dx, dy := a.floorX - b.floorX, a.floorY - b.floorY;
    mergeCm > 0.0 && dx * dx + dy * dy < mergeCm * mergeCm &&
    Max(a.norm, b.norm) > 0.0 && Min(a.norm, b.norm) / Max(a.norm, b.norm) < FRAGMENT_RATIO
  }

  lemma FragmentSymmetric(a: Blob, b: Blob, mergeCm: real)
    ensures Fragment(a, b, mergeCm) == Fragment(b, a, mergeCm)
  {
    var dx, dy := a.floorX - b.floorX, a.floorY - b.floorY;
    assert dx * dx == (b.floorX - a.floorX) * (b.floorX - a.floorX);
    assert dy * dy == (b.floorY - a.floorY) * (b.floorY - a.floorY);
    assert Max(a.norm, b.norm) == Max(b.norm, a.norm) && Min(a.norm, b.norm) == Min(b.norm, a.norm);
  }

  /** Without the quotient: closer than the limit, and less than two fifths of the other's heat. */
  lemma FragmentIff(a: Blob, b: Blob, m: real)
    ensures Fragment(a, b, m) <==>
      m > 0.0 &&
      (a.floorX - b.floorX) * (a.floorX - b.floorX) + (a.floorY - b.floorY) * (a.floorY - b.floorY) < m * m &&
      ((a.norm > 0.0 && b.norm <= a.norm && 5.0 * b.norm < 2.0 * a.norm) ||
       (b.norm > 0.0 && a.norm <= b.norm && 5.0 * a.norm < 2.0 * b.norm))
  {
    var lo, hi := Min(a.norm, b.norm), Max(a.norm, b.norm);
    if hi > 0.0 { RatioBelow(lo, hi); }
  }

  lemma RatioBelow(lo: real, hi: real)
    requires hi > 0.0
    ensures lo / hi < FRAGMENT_RATIO <==> 5.0 * lo < 2.0 * hi
  {
    var q := lo / hi;
    assert lo == q * hi;
    if q < FRAGMENT_RATIO {
      assert (FRAGMENT_RATIO - q) * hi > 0.0;
    } else {
      assert (q - FRAGMENT_RATIO) * hi >= 0.0;
    }
  }

  /** Which of the blobs are fragments of one person, by index. */
  function Fragments(blobs: seq<Blob>, m: real): Link {
    (i: nat, j: nat) => i < |blobs| && j < |blobs| && Fragment(blobs[i], blobs[j], m)
  }

  lemma FragmentsSymmetric(blobs: seq<Blob>, m: real)
    ensures Symmetric(Fragments(blobs, m))
  {
    forall i: nat, j: nat ensures Fragments(blobs, m)(i, j) == Fragments(blobs, m)(j, i) {
      if i < |blobs| && j < |blobs| { FragmentSymmetric(blobs[i], blobs[j], m); }
    }
  }

  // ---- one blob per cluster ---------------------------------------------------------------

  /** The blobs of cluster `g`, in input order, when blob i belongs to cluster owner[i]. */
  function Members(owner: seq<nat>, g: nat): seq<nat> {
    if owner == [] then []
    else Members(owner[..|owner| - 1], g) + (if owner[|owner| - 1] == g then [|owner| - 1] else [])
  }

  lemma {:induction false} MembersAre(owner: seq<nat>, g: nat)
    ensures forall k :: 0 <= k < |Members(owner, g)| ==>
      Members(owner, g)[k] < |owner| && owner[Members(owner, g)[k]] == g
    ensures forall i :: 0 <= i < |owner| && owner[i] == g ==> i in Members(owner, g)
    ensures forall a, b :: 0 <= a < b < |Members(owner, g)| ==> Members(owner, g)[a] < Members(owner, g)[b]
  {
    if owner != [] { MembersAre(owner[..|owner| - 1], g); }
  }

  function Pick(blobs: seq<Blob>, members: seq<nat>): seq<Blob>
    requires forall k :: 0 <= k < |members| ==> members[k] < |blobs|
  {
    seq(|members|, k requires 0 <= k < |members| => blobs[members[k]])
  }

  function Sum(blobs: seq<Blob>, f: Blob -> real): real {
    if blobs == [] then 0.0 else Sum(blobs[..|blobs| - 1], f) + f(blobs[|blobs| - 1])
  }

  /** The first member of the largest area. */
  function Largest(blobs: seq<Blob>): Blob
    requires |blobs| > 0
  {
    if |blobs| == 1 then blobs[0]
    else
      var a, b := Largest(blobs[..|blobs| - 1]), blobs[|blobs| - 1];
      if b.area > a.area then b else a
  }

  function MaxOf(blobs: seq<Blob>, f: Blob -> real): real
    requires |blobs| > 0
  {
    if |blobs| == 1 then f(blobs[0]) else Max(MaxOf(blobs[..|blobs| - 1], f), f(blobs[|blobs| - 1]))
  }

  const Area := (b: Blob) => b.area
  const Heat := (b: Blob) => b.heat
  const Norm := (b: Blob) => b.norm
  const Mass := (b: Blob) => Max(b.norm, MIN_WEIGHT)
  const MassX := (b: Blob) => b.floorX * Max(b.norm, MIN_WEIGHT)
  const MassY := (b: Blob) => b.floorY * Max(b.norm, MIN_WEIGHT)

  lemma {:induction false} MassPositive(blobs: seq<Blob>)
    ensures |blobs| > 0 ==> Sum(blobs, Mass) > 0.0
    ensures Sum(blobs, Mass) >= 0.0
  {
    if blobs != [] { MassPositive(blobs[..|blobs| - 1]); }
  }

  function Merged(blobs: seq<Blob>): Blob
    requires |blobs| > 0
  {
    if |blobs| == 1 then blobs[0]
    else
      MassPositive(blobs);
      Largest(blobs).(
        floorX := Sum(blobs, MassX) / Sum(blobs, Mass), floorY := Sum(blobs, MassY) / Sum(blobs, Mass),
        area := Sum(blobs, Area), heat := Sum(blobs, Heat), norm := Sum(blobs, Norm),
        contrast := MaxOf(blobs, (b: Blob) => b.contrast), peak := MaxOf(blobs, (b: Blob) => b.peak))
  }

  lemma {:induction false} LargestIs(blobs: seq<Blob>) returns (k: nat)
    requires |blobs| > 0
    ensures k < |blobs| && Largest(blobs) == blobs[k]
    ensures forall i :: 0 <= i < |blobs| ==> blobs[i].area <= blobs[k].area
    ensures forall i :: 0 <= i < k ==> blobs[i].area < blobs[k].area
  {
    var n := |blobs| - 1;
    if n == 0 {
      k := 0;
    } else {
      k := LargestIs(blobs[..n]);
      if blobs[n].area > blobs[k].area { k := n; }
    }
  }

  lemma {:induction false} MaxOfIs(blobs: seq<Blob>, f: Blob -> real)
    requires |blobs| > 0
    ensures forall i :: 0 <= i < |blobs| ==> f(blobs[i]) <= MaxOf(blobs, f)
    ensures exists i :: 0 <= i < |blobs| && f(blobs[i]) == MaxOf(blobs, f)
  {
    var n := |blobs| - 1;
    assert f(blobs[n]) <= MaxOf(blobs, f);
    if n > 0 {
      MaxOfIs(blobs[..n], f);
      var i :| 0 <= i < n && f(blobs[..n][i]) == MaxOf(blobs[..n], f);
      assert blobs[i] == blobs[..n][i];
    }
  }

  lemma {:induction false} SumSame(blobs: seq<Blob>, f: Blob -> real, g: Blob -> real)
    requires forall b :: f(b) == g(b)
    ensures Sum(blobs, f) == Sum(blobs, g)
  {
    if blobs != [] { SumSame(blobs[..|blobs| - 1], f, g); }
  }

  /** The most of one quantity any of the blobs has. */
  ghost predicate IsMost(blobs: seq<Blob>, f: Blob -> real, m: real) {
    (forall i :: 0 <= i < |blobs| ==> f(blobs[i]) <= m) && exists i :: 0 <= i < |blobs| && f(blobs[i]) == m
  }

  /** The weighted mean of one quantity, each blob weighing its normalised heat, or a millionth if that is less. */
  ghost predicate IsMean(blobs: seq<Blob>, f: Blob -> real, m: real) {
    var mass := (b: Blob) => if b.norm > 0.000001 then b.norm else 0.000001;
    Sum(blobs, mass) > 0.0 && m == Sum(blobs, (b: Blob) => f(b) * mass(b)) / Sum(blobs, mass)
  }

  /** One blob for several: the first of the largest area, with the totals, the maxima and the mean position. */
  ghost predicate IsMerger(blobs: seq<Blob>, m: Blob) {
    (exists k :: 0 <= k < |blobs| && m.x == blobs[k].x && m.y == blobs[k].y &&
       (forall i :: 0 <= i < |blobs| ==> blobs[i].area <= blobs[k].area) &&
       forall i :: 0 <= i < k ==> blobs[i].area < blobs[k].area) &&
    m.area == Sum(blobs, (b: Blob) => b.area) && m.heat == Sum(blobs, (b: Blob) => b.heat) &&
    m.norm == Sum(blobs, (b: Blob) => b.norm) &&
    IsMost(blobs, (b: Blob) => b.contrast, m.contrast) && IsMost(blobs, (b: Blob) => b.peak, m.peak) &&
    IsMean(blobs, (b: Blob) => b.floorX, m.floorX) && IsMean(blobs, (b: Blob) => b.floorY, m.floorY)
  }

  lemma MergedIs(blobs: seq<Blob>)
    requires |blobs| > 0
    ensures |blobs| == 1 ==> Merged(blobs) == blobs[0]
    ensures |blobs| > 1 ==> IsMerger(blobs, Merged(blobs))
  {
    if |blobs| > 1 {
      var m := Merged(blobs);
      var k := LargestIs(blobs);
      MaxOfIs(blobs, (b: Blob) => b.contrast);
      MaxOfIs(blobs, (b: Blob) => b.peak);
      MassPositive(blobs);
      assert m.x == blobs[k].x && m.y == blobs[k].y;
      SumsAre(blobs);
    }
  }

  lemma SumsAre(blobs: seq<Blob>)
    requires |blobs| > 0
    ensures Sum(blobs, Area) == Sum(blobs, (b: Blob) => b.area)
    ensures Sum(blobs, Heat) == Sum(blobs, (b: Blob) => b.heat)
    ensures Sum(blobs, Norm) == Sum(blobs, (b: Blob) => b.norm)
    ensures Sum(blobs, Mass) > 0.0
    ensures IsMean(blobs, (b: Blob) => b.floorX, Sum(blobs, MassX) / Sum(blobs, Mass))
    ensures IsMean(blobs, (b: Blob) => b.floorY, Sum(blobs, MassY) / Sum(blobs, Mass))
  {
    MassPositive(blobs);
    var mass := (b: Blob) => if b.norm > 0.000001 then b.norm else 0.000001;
    SumSame(blobs, Area, (b: Blob) => b.area);
    SumSame(blobs, Heat, (b: Blob) => b.heat);
    SumSame(blobs, Norm, (b: Blob) => b.norm);
    SumSame(blobs, Mass, mass);
    var x, y := (b: Blob) => b.floorX, (b: Blob) => b.floorY;
    SumSame(blobs, MassX, (b: Blob) => x(b) * mass(b));
    SumSame(blobs, MassY, (b: Blob) => y(b) * mass(b));
  }

  ghost predicate Between(lo: real, hi: real, mass: real, sum: real) { lo * mass <= sum <= hi * mass }

  /** One more weighted value between the bounds keeps the weighted sum between them. */
  lemma AddWeighted(lo: real, hi: real, mass: real, sum: real, x: real, w: real)
    requires Between(lo, hi, mass, sum) && lo <= x <= hi && w >= 0.0
    ensures Between(lo, hi, mass + w, sum + x * w)
  {
    assert lo * (mass + w) == lo * mass + lo * w && hi * (mass + w) == hi * mass + hi * w;
    assert lo * w <= x * w <= hi * w;
  }

  function Product(x: real, w: real): real { x * w }

  lemma SumSnoc(blobs: seq<Blob>, f: Blob -> real)
    requires |blobs| > 0
    ensures Sum(blobs, f) == Sum(blobs[..|blobs| - 1], f) + f(blobs[|blobs| - 1])
  {}

  /** A sum of values weighted by mass, all between the bounds. */
  lemma {:induction false} WeightedBetween(blobs: seq<Blob>, mass: Blob -> real, at: Blob -> real, f: Blob -> real,
      lo: real, hi: real)
    requires forall k :: 0 <= k < |blobs| ==>
      f(blobs[k]) == Product(at(blobs[k]), mass(blobs[k])) && mass(blobs[k]) >= 0.0
    requires forall k :: 0 <= k < |blobs| ==> lo <= at(blobs[k]) <= hi
    ensures Between(lo, hi, Sum(blobs, mass), Sum(blobs, f))
  {
    if |blobs| > 0 {
      var n := |blobs| - 1;
      WeightedBetween(blobs[..n], mass, at, f, lo, hi);
      var m, s, x, w := Sum(blobs[..n], mass), Sum(blobs[..n], f), at(blobs[n]), mass(blobs[n]);
      AddWeighted(lo, hi, m, s, x, w);
      assert Between(lo, hi, m + w, s + Product(x, w));
      assert Sum(blobs, mass) == m + w && Sum(blobs, f) == s + Product(x, w) by {
        SumSnoc(blobs, mass);
        SumSnoc(blobs, f);
      }
    }
  }

  lemma Quotient(lo: real, hi: real, s: real, w: real)
    requires w > 0.0 && Between(lo, hi, w, s)
    ensures lo <= s / w <= hi
  {
    assert s / w - lo == (s - lo * w) / w;
    assert hi - s / w == (hi * w - s) / w;
  }

  lemma WeightedX(blobs: seq<Blob>, lo: real, hi: real)
    requires |blobs| > 0 && forall k :: 0 <= k < |blobs| ==> lo <= blobs[k].floorX <= hi
    ensures Sum(blobs, Mass) > 0.0 && lo <= Sum(blobs, MassX) / Sum(blobs, Mass) <= hi
  {
    MassPositive(blobs);
    WeightedBetween(blobs, Mass, (b: Blob) => b.floorX, MassX, lo, hi);
    Quotient(lo, hi, Sum(blobs, MassX), Sum(blobs, Mass));
  }

  lemma WeightedY(blobs: seq<Blob>, lo: real, hi: real)
    requires |blobs| > 0 && forall k :: 0 <= k < |blobs| ==> lo <= blobs[k].floorY <= hi
    ensures Sum(blobs, Mass) > 0.0 && lo <= Sum(blobs, MassY) / Sum(blobs, Mass) <= hi
  {
    MassPositive(blobs);
    WeightedBetween(blobs, Mass, (b: Blob) => b.floorY, MassY, lo, hi);
    Quotient(lo, hi, Sum(blobs, MassY), Sum(blobs, Mass));
  }

  /** The merged position lies within the members' bounding box. */
  lemma MergedInside(blobs: seq<Blob>, left: real, right: real, low: real, high: real)
    requires |blobs| > 0
    requires forall k :: 0 <= k < |blobs| ==> left <= blobs[k].floorX <= right && low <= blobs[k].floorY <= high
    ensures left <= Merged(blobs).floorX <= right && low <= Merged(blobs).floorY <= high
  {
    WeightedX(blobs, left, right);
    WeightedY(blobs, low, high);
  }

  // ---- conservation ------------------------------------------------------------------------

  /** The sum over the members of one cluster. */
  function MemberSum(blobs: seq<Blob>, owner: seq<nat>, c: nat, f: Blob -> real): real
    requires |owner| <= |blobs|
  {
    if owner == [] then 0.0
    else
      var i := |owner| - 1;
      MemberSum(blobs, owner[..i], c, f) + (if owner[i] == c then f(blobs[i]) else 0.0)
  }

  /** The sum over clusters 0..count of the sums over their members. */
  function ClusterSum(blobs: seq<Blob>, owner: seq<nat>, count: nat, f: Blob -> real): real
    requires |owner| <= |blobs|
  {
    if count == 0 then 0.0 else ClusterSum(blobs, owner, count - 1, f) + MemberSum(blobs, owner, count - 1, f)
  }

  lemma SumAppend(blobs: seq<Blob>, x: Blob, f: Blob -> real)
    ensures Sum(blobs + [x], f) == Sum(blobs, f) + f(x)
  {
    assert (blobs + [x])[..|blobs|] == blobs;
  }

  /** Which is the sum of what the cluster merges. */
  lemma {:induction false} MemberSumIs(blobs: seq<Blob>, owner: seq<nat>, c: nat, f: Blob -> real)
    requires |owner| <= |blobs| && forall k :: 0 <= k < |Members(owner, c)| ==> Members(owner, c)[k] < |blobs|
    ensures MemberSum(blobs, owner, c, f) == Sum(Pick(blobs, Members(owner, c)), f)
  {
    if owner == [] {
      assert Pick(blobs, Members(owner, c)) == [];
    } else {
      var i := |owner| - 1;
      MembersAre(owner[..i], c);
      MemberSumIs(blobs, owner[..i], c, f);
      if owner[i] == c {
        PickSnoc(blobs, Members(owner[..i], c), i, f);
      } else {
        assert Members(owner, c) == Members(owner[..i], c);
      }
    }
  }

  lemma PickSnoc(blobs: seq<Blob>, members: seq<nat>, i: nat, f: Blob -> real)
    requires i < |blobs| && forall k :: 0 <= k < |members| ==> members[k] < |blobs|
    ensures Sum(Pick(blobs, members + [i]), f) == Sum(Pick(blobs, members), f) + f(blobs[i])
  {
    assert Pick(blobs, members + [i]) == Pick(blobs, members) + [blobs[i]];
    SumAppend(Pick(blobs, members), blobs[i], f);
  }

  /** One more blob adds its value to the sum of its own cluster only. */
  lemma MemberStep(blobs: seq<Blob>, owner: seq<nat>, g: nat, c: nat, f: Blob -> real)
    requires |owner| < |blobs|
    ensures MemberSum(blobs, owner + [g], c, f) == MemberSum(blobs, owner, c, f) +
      (if g == c then f(blobs[|owner|]) else 0.0)
  {
    assert (owner + [g])[..|owner|] == owner;
  }

  lemma ClusterSumIs(blobs: seq<Blob>, owner: seq<nat>, c: nat, f: Blob -> real)
    requires |owner| <= |blobs|
    ensures ClusterSum(blobs, owner, c + 1, f) == ClusterSum(blobs, owner, c, f) + MemberSum(blobs, owner, c, f)
  {}

  lemma {:induction false} ClusterSumSnoc(blobs: seq<Blob>, owner: seq<nat>, g: nat, count: nat, f: Blob -> real)
    requires |owner| < |blobs|
    ensures ClusterSum(blobs, owner + [g], count, f)
         == ClusterSum(blobs, owner, count, f) + (if g < count then f(blobs[|owner|]) else 0.0)
  {
    if count > 0 {
      var more, c := owner + [g], count - 1;
      ClusterSumSnoc(blobs, owner, g, c, f);
      MemberStep(blobs, owner, g, c, f);
      ClusterSumIs(blobs, more, c, f);
      ClusterSumIs(blobs, owner, c, f);
    }
  }

  /** Every blob is counted in exactly one cluster. */
  lemma {:induction false} NothingLost(blobs: seq<Blob>, owner: seq<nat>, count: nat, f: Blob -> real)
    requires |owner| <= |blobs| && forall i :: 0 <= i < |owner| ==> owner[i] < count
    ensures ClusterSum(blobs, owner, count, f) == Sum(blobs[..|owner|], f)
  {
    if owner == [] {
      EmptyClusters(blobs, count, f);
    } else {
      var rest := owner[..|owner| - 1];
      NothingLost(blobs, rest, count, f);
      ClusterSumSnoc(blobs, rest, owner[|owner| - 1], count, f);
      assert rest + [owner[|owner| - 1]] == owner;
      assert blobs[..|owner|][..|rest|] == blobs[..|rest|];
    }
  }

  lemma {:induction false} EmptyClusters(blobs: seq<Blob>, count: nat, f: Blob -> real)
    ensures ClusterSum(blobs, [], count, f) == 0.0
  {
    if count > 0 { EmptyClusters(blobs, count - 1, f); }
  }

  /** The blobs put out are the merged clusters, one for each cluster. */
  ghost predicate OutputOf(blobs: seq<Blob>, owner: seq<nat>, out: seq<Blob>) {
    |owner| == |blobs| &&
    (forall i :: 0 <= i < |owner| ==> owner[i] < |out|) &&
    forall g :: 0 <= g < |out| ==>
      |Members(owner, g)| > 0 && (forall k :: 0 <= k < |Members(owner, g)| ==> Members(owner, g)[k] < |blobs|) &&
      out[g] == Merged(Pick(blobs, Members(owner, g)))
  }

  /** Each blob put out is its one member, or the merger of several. */
  ghost predicate Mergers(blobs: seq<Blob>, owner: seq<nat>, out: seq<Blob>)
    requires OutputOf(blobs, owner, out)
  {
    forall g :: 0 <= g < |out| ==>
      var members := Pick(blobs, Members(owner, g));
      if |members| == 1 then out[g] == members[0] else IsMerger(members, out[g])
  }

  lemma OutputMergers(blobs: seq<Blob>, owner: seq<nat>, out: seq<Blob>)
    requires OutputOf(blobs, owner, out)
    ensures Mergers(blobs, owner, out)
  {
    forall g | 0 <= g < |out|
      ensures var members := Pick(blobs, Members(owner, g));
        if |members| == 1 then out[g] == members[0] else IsMerger(members, out[g])
    {
      MergedIs(Pick(blobs, Members(owner, g)));
    }
  }

  ghost predicate Additive(f: Blob -> real) {
    forall bs: seq<Blob> :: |bs| > 0 ==> f(Merged(bs)) == Sum(bs, f)
  }

  lemma HeatAdds()
    ensures Additive(Heat) && Additive(Area) && Additive(Norm)
  {
    forall bs: seq<Blob> | |bs| > 0
      ensures Heat(Merged(bs)) == Sum(bs, Heat) && Area(Merged(bs)) == Sum(bs, Area) &&
        Norm(Merged(bs)) == Sum(bs, Norm)
    {
      if |bs| == 1 { assert bs[..0] == []; }
    }
  }

  lemma OutputOne(blobs: seq<Blob>, owner: seq<nat>, out: seq<Blob>, g: nat, f: Blob -> real)
    requires OutputOf(blobs, owner, out) && Additive(f) && g < |out|
    ensures f(out[g]) == MemberSum(blobs, owner, g, f)
  {
    MemberSumIs(blobs, owner, g, f);
    assert |Pick(blobs, Members(owner, g))| > 0;
  }

  /** Each output value is the sum over its cluster. */
  ghost predicate SumsClusters(blobs: seq<Blob>, owner: seq<nat>, out: seq<Blob>, f: Blob -> real) {
    |owner| <= |blobs| && forall g: nat :: g < |out| ==> f(out[g]) == MemberSum(blobs, owner, g, f)
  }

  lemma OutputStep(blobs: seq<Blob>, owner: seq<nat>, before: seq<Blob>, x: Blob, f: Blob -> real)
    requires |owner| <= |blobs| && Sum(before, f) == ClusterSum(blobs, owner, |before|, f)
    requires f(x) == MemberSum(blobs, owner, |before|, f)
    ensures Sum(before + [x], f) == ClusterSum(blobs, owner, |before| + 1, f)
  {
    SumAppend(before, x, f);
  }

  lemma {:induction false} OutputSum(blobs: seq<Blob>, owner: seq<nat>, out: seq<Blob>, f: Blob -> real)
    requires SumsClusters(blobs, owner, out, f)
    ensures Sum(out, f) == ClusterSum(blobs, owner, |out|, f)
  {
    if out != [] {
      var n := |out| - 1;
      var init, last := out[..n], out[n];
      assert f(last) == MemberSum(blobs, owner, n, f);
      assert SumsClusters(blobs, owner, init, f) by {
        forall g: nat | g < n ensures f(init[g]) == MemberSum(blobs, owner, g, f) { assert init[g] == out[g]; }
      }
      OutputSum(blobs, owner, init, f);
      OutputStep(blobs, owner, init, last, f);
      assert out == init + [last];
    }
  }

  lemma Conserved(blobs: seq<Blob>, owner: seq<nat>, out: seq<Blob>, f: Blob -> real)
    requires OutputOf(blobs, owner, out) && Additive(f)
    ensures Sum(out, f) == Sum(blobs, f)
  {
    forall g: nat | g < |out| ensures f(out[g]) == MemberSum(blobs, owner, g, f) { OutputOne(blobs, owner, out, g, f); }
    OutputSum(blobs, owner, out, f);
    NothingLost(blobs, owner, |out|, f);
    assert blobs[..|owner|] == blobs;
  }

  /** Merging conserves total heat, area and normalised heat. */
  lemma MergingConserves(blobs: seq<Blob>, owner: seq<nat>, out: seq<Blob>)
    requires OutputOf(blobs, owner, out)
    ensures Sum(out, Heat) == Sum(blobs, Heat)
    ensures Sum(out, Area) == Sum(blobs, Area)
    ensures Sum(out, Norm) == Sum(blobs, Norm)
  {
    HeatAdds();
    Conserved(blobs, owner, out, Heat);
    Conserved(blobs, owner, out, Area);
    Conserved(blobs, owner, out, Norm);
  }

  /** Group blobs by root, clusters in the order their first blob appears. */
  method GroupByRoot(roots: seq<nat>) returns (lists: seq<seq<nat>>, ghost owner: seq<nat>)
    ensures |owner| == |roots|
    ensures forall i :: 0 <= i < |owner| ==> owner[i] < |lists|
    ensures forall a, b :: 0 <= a < |roots| && 0 <= b < |roots| ==> (owner[a] == owner[b] <==> roots[a] == roots[b])
    ensures forall g :: 0 <= g < |lists| ==> lists[g] == Members(owner, g) && lists[g] != []
  {
    var at: map<nat, nat> := map[];
    lists, owner := [], [];
    for i := 0 to |roots|
      invariant |owner| == i
      invariant forall k :: 0 <= k < i ==> roots[k] in at && owner[k] == at[roots[k]]
      invariant forall r :: r in at ==> at[r] < |lists|
      invariant forall r, s :: r in at && s in at && at[r] == at[s] ==> r == s
      invariant forall g :: 0 <= g < |lists| ==> lists[g] == Members(owner, g) && lists[g] != []
    {
      ghost var was := owner;
      if roots[i] in at {
        var g := at[roots[i]];
        lists, owner := lists[g := lists[g] + [i]], owner + [g];
      } else {
        NoMembers(owner, |lists|);
        at, owner := at[roots[i] := |lists|], owner + [|lists|];
        lists := lists + [[i]];
      }
      assert owner[..i] == was;
    }
  }

  lemma {:induction false} NoMembers(owner: seq<nat>, g: nat)
    requires forall i :: 0 <= i < |owner| ==> owner[i] != g
    ensures Members(owner, g) == []
  {
    if owner != [] { NoMembers(owner[..|owner| - 1], g); }
  }

  /**
   * Two blobs end up in one output blob exactly when a chain of close fragments connects them;
   * each output blob is the merger of its members, and nothing is lost.
   */
  method MergeClose(blobs: seq<Blob>, m: real) returns (out: seq<Blob>, ghost owner: seq<nat>)
    ensures OutputOf(blobs, owner, out) && Mergers(blobs, owner, out)
    ensures forall a, b :: 0 <= a < |blobs| && 0 <= b < |blobs| ==>
      (owner[a] == owner[b] <==> Connected(|blobs|, Fragments(blobs, m), a, b))
    ensures Sum(out, Heat) == Sum(blobs, Heat)
    ensures Sum(out, Area) == Sum(blobs, Area)
    ensures Sum(out, Norm) == Sum(blobs, Norm)
  {
    FragmentsSymmetric(blobs, m);
    var roots := Cluster(|blobs|, Fragments(blobs, m));
    var lists;
    lists, owner := GroupByRoot(roots);
    out := [];
    for g := 0 to |lists|
      invariant |out| == g
      invariant forall k :: 0 <= k < g ==>
        (forall x :: 0 <= x < |Members(owner, k)| ==> Members(owner, k)[x] < |blobs|) &&
        |Members(owner, k)| > 0 && out[k] == Merged(Pick(blobs, Members(owner, k)))
    {
      MembersAre(owner, g);
      out := out + [Merged(Pick(blobs, lists[g]))];
    }
    MergingConserves(blobs, owner, out);
    OutputMergers(blobs, owner, out);
  }
}
