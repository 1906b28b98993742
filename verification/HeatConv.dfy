/**
 * The convolution of src/algo/heatmodel.ts: weight by weight, over row and column ranges worked
 * out in advance, so that the inner loop tests nothing. It equals the plain zero-padded,
 * strided sum.
 */
module HeatConv {
  datatype Tensor = Tensor(c: nat, h: nat, w: nat, d: seq<real>)

  datatype Conv = Conv(cin: nat, cout: nat, k: nat, stride: nat, relu: bool, w: seq<real>, b: seq<real>)

  predicate ValidTensor(x: Tensor) { x.h > 0 && x.w > 0 && |x.d| == x.c * x.h * x.w }

  predicate ValidConv(l: Conv) {
    l.cin > 0 && l.cout > 0 && (l.k == 1 || l.k == 3) && (l.stride == 1 || l.stride == 2) &&
    |l.w| == l.cout * l.cin * l.k * l.k && |l.b| == l.cout
  }

  function Pad(l: Conv): int { (l.k as int - 1) / 2 }

  /** Rows (or columns) of the output for `n` of the input. */
  function OutSize(n: nat, l: Conv): (r: nat)
    requires n > 0 && (l.k == 1 || l.k == 3) && (l.stride == 1 || l.stride == 2)
    ensures r > 0
  {
    (n + 2 * Pad(l) - l.k) / l.stride + 1
  }

  // ---- row-major indices ---------------------------------------------------------------

  /** Where channel c, row y, column x lies in planes of h rows and w columns. */
  function At(h: nat, w: nat, c: nat, y: nat, x: nat): nat { (c * h + y) * w + x }

  /** A smaller leading digit makes a smaller number. */
  lemma LessDigits(w: nat, a: nat, x: nat, b: nat)
    requires a < b && x < w
    ensures a * w + x < b * w
  {
    assert b * w == a * w + (b - a) * w;
    assert (b - a) * w >= w by { assert (b - a) * w == w + (b - a - 1) * w; }
  }

  lemma AtBound(n: nat, h: nat, w: nat, c: nat, y: nat, x: nat)
    requires c < n && y < h && x < w
    ensures At(h, w, c, y, x) < n * h * w
  {
    LessDigits(h, c, y, n);
    LessDigits(w, c * h + y, x, n * h);
  }

  /** Two-digit numbers in base w are equal only digit by digit. */
  lemma Digits(w: nat, a: nat, x: nat, b: nat, y: nat)
    requires x < w && y < w && a * w + x == b * w + y
    ensures a == b && x == y
  {
    if a < b { LessDigits(w, a, x, b); }
    if b < a { LessDigits(w, b, y, a); }
  }

  lemma AtInjective(h: nat, w: nat, c: nat, y: nat, x: nat, c': nat, y': nat, x': nat)
    requires y < h && x < w && y' < h && x' < w && At(h, w, c, y, x) == At(h, w, c', y', x')
    ensures c == c' && y == y' && x == x'
  {
    Digits(w, c * h + y, x, c' * h + y', x');
    Digits(h, c, y, c', y');
  }

  /** Every place in the planes is the place of some channel, row and column. */
  lemma AtCovers(n: nat, h: nat, w: nat, i: nat) returns (c: nat, y: nat, x: nat)
    requires h > 0 && w > 0 && i < n * h * w
    ensures c < n && y < h && x < w && At(h, w, c, y, x) == i
  {
    var r;
    r, x := DivMod(w, i);
    c, y := DivMod(h, r);
    NotLess(h, c, n, y, w, x);
  }

  lemma DivMod(w: nat, i: nat) returns (q: nat, r: nat)
    requires w > 0
    ensures q * w + r == i && r < w
  {
    q, r := i / w, i % w;
  }

  lemma MulLe(a: nat, b: nat, w: nat)
    requires a <= b
    ensures a * w <= b * w
  {}

  lemma TooFar(h: nat, c: nat, n: nat, y: nat, w: nat, x: nat)
    requires c >= n
    ensures (c * h + y) * w + x >= n * h * w
  {
    MulLe(n, c, h);
    MulLe(n * h, c * h + y, w);
  }

  lemma NotLess(h: nat, c: nat, n: nat, y: nat, w: nat, x: nat)
    requires (c * h + y) * w + x < n * h * w
    ensures c < n
  {
    if c >= n { TooFar(h, c, n, y, w, x); }
  }

  // ---- the plain sum ----------------------------------------------------------------------

  /** The input with zeros around it. */
  function Padded(x: Tensor, c: nat, y: int, xx: int): real
    requires ValidTensor(x) && c < x.c
  {
    if 0 <= y < x.h && 0 <= xx < x.w then AtBound(x.c, x.h, x.w, c, y, xx); x.d[At(x.h, x.w, c, y, xx)] else 0.0
  }

  function WeightAt(l: Conv, o: nat, c: nat, ky: nat, kx: nat): nat { ((o * l.cin + c) * l.k + ky) * l.k + kx }

  lemma WeightInRange(l: Conv, o: nat, c: nat, ky: nat, kx: nat)
    requires ValidConv(l) && o < l.cout && c < l.cin && ky < l.k && kx < l.k
    ensures WeightAt(l, o, c, ky, kx) < |l.w|
  {
    LessDigits(l.cin, o, c, l.cout);
    AtBound(l.cout * l.cin, l.k, l.k, o * l.cin + c, ky, kx);
  }

  function Weight(l: Conv, o: nat, c: nat, ky: nat, kx: nat): real
    requires ValidConv(l) && o < l.cout && c < l.cin && ky < l.k && kx < l.k
  {
    WeightInRange(l, o, c, ky, kx);
    l.w[WeightAt(l, o, c, ky, kx)]
  }

  predicate Fits(x: Tensor, l: Conv) { ValidTensor(x) && ValidConv(l) && x.c == l.cin }

  /** What tap (c, ky, kx) adds to output (o, y, xx). */
  function Tap(x: Tensor, l: Conv, o: nat, c: nat, ky: nat, kx: nat, y: nat, xx: nat): real
    requires Fits(x, l) && o < l.cout && c < l.cin && ky < l.k && kx < l.k
  {
    Weight(l, o, c, ky, kx) * Padded(x, c, y * l.stride + ky - Pad(l), xx * l.stride + kx - Pad(l))
  }

  function RowSum(x: Tensor, l: Conv, o: nat, c: nat, ky: nat, n: nat, y: nat, xx: nat): real
    requires Fits(x, l) && o < l.cout && c < l.cin && ky < l.k && n <= l.k
  {
    if n == 0 then 0.0 else RowSum(x, l, o, c, ky, n - 1, y, xx) + Tap(x, l, o, c, ky, n - 1, y, xx)
  }

  function KernelSum(x: Tensor, l: Conv, o: nat, c: nat, n: nat, y: nat, xx: nat): real
    requires Fits(x, l) && o < l.cout && c < l.cin && n <= l.k
  {
    if n == 0 then 0.0 else KernelSum(x, l, o, c, n - 1, y, xx) + RowSum(x, l, o, c, n - 1, l.k, y, xx)
  }

  function ChannelSum(x: Tensor, l: Conv, o: nat, n: nat, y: nat, xx: nat): real
    requires Fits(x, l) && o < l.cout && n <= l.cin
  {
    if n == 0 then 0.0 else ChannelSum(x, l, o, n - 1, y, xx) + KernelSum(x, l, o, n - 1, l.k, y, xx)
  }

  function Relu(on: bool, v: real): real { if on && v < 0.0 then 0.0 else v }

  /** The definition of the layer: bias plus every tap over the padded input. */
  function ConvAt(x: Tensor, l: Conv, o: nat, y: nat, xx: nat): real
    requires Fits(x, l) && o < l.cout
  {
    Relu(l.relu, l.b[o] + ChannelSum(x, l, o, l.cin, y, xx))
  }

  /** `r` is the convolution of `x`. */
  ghost predicate ConvOf(x: Tensor, l: Conv, r: Tensor)
    requires Fits(x, l)
  {
    r.c == l.cout && r.h == OutSize(x.h, l) && r.w == OutSize(x.w, l) && ValidTensor(r) &&
    forall o: nat, y: nat, xx: nat :: o < r.c && y < r.h && xx < r.w ==>
      Padded(r, o, y, xx) == ConvAt(x, l, o, y, xx)
  }

  // ---- the ranges ---------------------------------------------------------------------------

  /** JavaScript's Math.ceil of a quotient. */
  function CeilDiv(a: int, s: nat): int
    requires s > 0
  {
    (a + s - 1) / s
  }

  function First(l: Conv, kk: nat): int
    requires l.stride > 0
  {
    var v := CeilDiv(Pad(l) - kk, l.stride);
    if v > 0 then v else 0
  }

  function Last(l: Conv, kk: nat, size: nat, outSize: nat): int
    requires l.stride > 0
  {
    var v := (size - 1 + Pad(l) - kk) / l.stride;
    if v < outSize - 1 then v else outSize - 1
  }

  /** The precomputed ranges are exactly the outputs whose tap falls inside the frame. */
  lemma RangeIsInFrame(l: Conv, kk: nat, size: nat, v: int)
    requires ValidConv(l) && kk < l.k && size > 0
    ensures First(l, kk) <= v <= Last(l, kk, size, OutSize(size, l)) <==>
            0 <= v < OutSize(size, l) && 0 <= v * l.stride + kk - Pad(l) < size
  {
    if l.stride == 1 {} else {}
  }

  // ---- the fast form ---------------------------------------------------------------------------

  /** The running value of one output while taps before (c, ky, kx) have been added. */
  ghost function Acc(x: Tensor, l: Conv, o: nat, c: nat, ky: nat, kx: nat, y: nat, xx: nat): real
    requires Fits(x, l) && o < l.cout && c <= l.cin && ky <= l.k && kx <= l.k
    requires c == l.cin ==> ky == 0 && kx == 0
    requires ky == l.k ==> kx == 0
  {
    l.b[o] + ChannelSum(x, l, o, c, y, xx) +
    (if c < l.cin then KernelSum(x, l, o, c, ky, y, xx) else 0.0) +
    (if c < l.cin && ky < l.k then RowSum(x, l, o, c, ky, kx, y, xx) else 0.0)
  }

  /** Output plane `o` holds the running values. */
  ghost predicate PlaneIs(out: seq<real>, x: Tensor, l: Conv, o: nat, c: nat, ky: nat, kx: nat)
    requires Fits(x, l) && o < l.cout && c <= l.cin && ky <= l.k && kx <= l.k
    requires (c == l.cin ==> ky == 0 && kx == 0) && (ky == l.k ==> kx == 0)
  {
    var ho, wo := OutSize(x.h, l), OutSize(x.w, l);
    |out| == l.cout * ho * wo &&
    forall y: nat, xx: nat :: y < ho && xx < wo ==>
      At(ho, wo, o, y, xx) < |out| && out[At(ho, wo, o, y, xx)] == Acc(x, l, o, c, ky, kx, y, xx)
  }

  /** All other planes are as they were. */
  ghost predicate OthersKept(was: seq<real>, now: seq<real>, n: nat, h: nat, w: nat, o: nat) {
    |was| == |now| == n * h * w &&
    forall p: nat, y: nat, xx: nat :: p < n && p != o && y < h && xx < w ==>
      At(h, w, p, y, xx) < |was| && now[At(h, w, p, y, xx)] == was[At(h, w, p, y, xx)]
  }

  /** Where a tap of output row y starts reading, and where that row is written. */
  function InBase(x: Tensor, l: Conv, c: nat, ky: nat, kx: nat, y: nat): int {
    c * x.h * x.w + (y * l.stride + ky - Pad(l)) * x.w + kx - Pad(l)
  }

  function OutBase(ho: nat, wo: nat, o: nat, y: nat): nat { o * (ho * wo) + y * wo }

  lemma InputIndex(x: Tensor, c: nat, r: int, col: int)
    requires ValidTensor(x) && c < x.c && 0 <= r < x.h && 0 <= col < x.w
    ensures 0 <= c * x.h * x.w + r * x.w + col < |x.d|
    ensures x.d[c * x.h * x.w + r * x.w + col] == Padded(x, c, r, col)
  {
    AtBound(x.c, x.h, x.w, c, r, col);
    assert (c * x.h + r) * x.w == c * x.h * x.w + r * x.w;
  }

  lemma TapInFrame(x: Tensor, l: Conv, o: nat, c: nat, ky: nat, kx: nat, y: nat, xx: nat)
    requires Fits(x, l) && o < l.cout && c < l.cin && ky < l.k && kx < l.k
    requires 0 <= y * l.stride + ky - Pad(l) < x.h && 0 <= xx * l.stride + kx - Pad(l) < x.w
    ensures 0 <= InBase(x, l, c, ky, kx, y) + xx * l.stride < |x.d|
    ensures Tap(x, l, o, c, ky, kx, y, xx) == Weight(l, o, c, ky, kx) * x.d[InBase(x, l, c, ky, kx, y) + xx * l.stride]
  {
    var r, col := y * l.stride + ky - Pad(l), xx * l.stride + kx - Pad(l);
    InputIndex(x, c, r, col);
    assert InBase(x, l, c, ky, kx, y) + xx * l.stride == c * x.h * x.w + r * x.w + col;
  }

  lemma OutputIndex(n: nat, h: nat, w: nat, o: nat, y: nat, xx: nat)
    requires o < n && y < h && xx < w
    ensures OutBase(h, w, o, y) + xx == At(h, w, o, y, xx) < n * h * w
  {
    AtBound(n, h, w, o, y, xx);
    assert (o * h + y) * w == o * (h * w) + y * w by { assert (o * h) * w == o * (h * w); }
  }

  /** Rows y0..y of a tap have been added to plane o, and nothing else. */
  ghost predicate Added(was: seq<real>, now: seq<real>, x: Tensor, l: Conv, o: nat, c: nat, ky: nat, kx: nat, y0: int,
      y: int)
    requires Fits(x, l) && o < l.cout && c < l.cin && ky < l.k && kx < l.k
  {
    var ho, wo := OutSize(x.h, l), OutSize(x.w, l);
    |was| == |now| == l.cout * ho * wo &&
    forall p: nat, v: nat, u: nat :: p < l.cout && v < ho && u < wo ==>
      At(ho, wo, p, v, u) < |was| &&
      now[At(ho, wo, p, v, u)] == was[At(ho, wo, p, v, u)] +
        (if p == o && y0 <= v < y then Tap(x, l, o, c, ky, kx, v, u) else 0.0)
  }

  lemma NoneAdded(was: seq<real>, x: Tensor, l: Conv, o: nat, c: nat, ky: nat, kx: nat, y0: int)
    requires Fits(x, l) && o < l.cout && c < l.cin && ky < l.k && kx < l.k
    requires |was| == l.cout * OutSize(x.h, l) * OutSize(x.w, l)
    ensures Added(was, was, x, l, o, c, ky, kx, y0, y0)
  {
    var ho, wo := OutSize(x.h, l), OutSize(x.w, l);
    forall p: nat, v: nat, u: nat | p < l.cout && v < ho && u < wo
      ensures At(ho, wo, p, v, u) < |was| { AtBound(l.cout, ho, wo, p, v, u); }
  }

  /** One tap into one output plane: plain multiply-adds over rows, no bounds checks. */
  method AddTap(out: array<real>, x: Tensor, l: Conv, o: nat, c: nat, ky: nat, kx: nat)
    requires Fits(x, l) && o < l.cout && c < l.cin && ky < l.k && kx < l.k
    requires out.Length == l.cout * OutSize(x.h, l) * OutSize(x.w, l)
    modifies out
    ensures Added(old(out[..]), out[..], x, l, o, c, ky, kx, 0, OutSize(x.h, l))
  {
    var ho, wo := OutSize(x.h, l), OutSize(x.w, l);
    var y0, y1 := First(l, ky), Last(l, ky, x.h, ho);
    var x0, x1 := First(l, kx), Last(l, kx, x.w, wo);
    WeightInRange(l, o, c, ky, kx);
    var wv := l.w[WeightAt(l, o, c, ky, kx)];
    ghost var was := out[..];
    NoneAdded(was, x, l, o, c, ky, kx, y0);
    var y := y0;
    while y <= y1
      invariant y0 <= y && (y0 <= y1 ==> y <= y1 + 1) && (y0 > y1 ==> y == y0)
      invariant Added(was, out[..], x, l, o, c, ky, kx, y0, y)
    {
      RangeIsInFrame(l, ky, x.h, y);
      RowInside(x, l, o, c, ky, kx, y);
      ghost var before := out[..];
      AddRow(out, x.d, OutBase(ho, wo, o, y), InBase(x, l, c, ky, kx, y), l.stride, x0, x1, wv,
        TapsOf(x, l, o, c, ky, kx, y));
      NextRow(was, before, out[..], x, l, o, c, ky, kx, y0, y);
      y := y + 1;
    }
    AllRows(was, out[..], x, l, o, c, ky, kx, y);
  }

  /** What one tap adds to each column of output row y. */
  ghost function TapsOf(x: Tensor, l: Conv, o: nat, c: nat, ky: nat, kx: nat, y: nat): seq<real>
    requires Fits(x, l) && o < l.cout && c < l.cin && ky < l.k && kx < l.k
  {
    seq(OutSize(x.w, l), u requires 0 <= u < OutSize(x.w, l) => Tap(x, l, o, c, ky, kx, y, u))
  }

  /** One place of the output, before and after row y. */
  lemma NextRowAt(was: seq<real>, before: seq<real>, now: seq<real>, x: Tensor, l: Conv, o: nat, c: nat, ky: nat,
      kx: nat, y0: int, y: nat,
                  p: nat, v: nat, u: nat)
    requires Fits(x, l) && o < l.cout && c < l.cin && ky < l.k && kx < l.k
    requires Added(was, before, x, l, o, c, ky, kx, y0, y) && y0 <= y < OutSize(x.h, l)
    requires RowWritten(before, now, OutBase(OutSize(x.h, l), OutSize(x.w, l), o, y),
                        First(l, kx), Last(l, kx, x.w, OutSize(x.w, l)), TapsOf(x, l, o, c, ky, kx, y))
    requires p < l.cout && v < OutSize(x.h, l) && u < OutSize(x.w, l)
    ensures var at := At(OutSize(x.h, l), OutSize(x.w, l), p, v, u);
      at < |was| == |now| && now[at] == was[at] +
        (if p == o && y0 <= v < y + 1 then Tap(x, l, o, c, ky, kx, v, u) else 0.0)
  {
    var ho, wo := OutSize(x.h, l), OutSize(x.w, l);
    assert before[At(ho, wo, p, v, u)] == was[At(ho, wo, p, v, u)] +
      (if p == o && y0 <= v < y then Tap(x, l, o, c, ky, kx, v, u) else 0.0);
    InRow(l.cout, ho, wo, o, y, p, v, u);
    if p == o && v == y && !(First(l, kx) <= u <= Last(l, kx, x.w, wo)) { TapOutside(x, l, o, c, ky, kx, y, u); }
  }

  lemma NextRow(was: seq<real>, before: seq<real>, now: seq<real>, x: Tensor, l: Conv, o: nat, c: nat, ky: nat, kx: nat,
      y0: int, y: nat)
    requires Fits(x, l) && o < l.cout && c < l.cin && ky < l.k && kx < l.k
    requires Added(was, before, x, l, o, c, ky, kx, y0, y) && y0 <= y < OutSize(x.h, l)
    requires RowWritten(before, now, OutBase(OutSize(x.h, l), OutSize(x.w, l), o, y),
                        First(l, kx), Last(l, kx, x.w, OutSize(x.w, l)), TapsOf(x, l, o, c, ky, kx, y))
    ensures Added(was, now, x, l, o, c, ky, kx, y0, y + 1)
  {
    var ho, wo := OutSize(x.h, l), OutSize(x.w, l);
    forall p: nat, v: nat, u: nat | p < l.cout && v < ho && u < wo
      ensures At(ho, wo, p, v, u) < |was|
      ensures now[At(ho, wo, p, v, u)] == was[At(ho, wo, p, v, u)] +
        (if p == o && y0 <= v < y + 1 then Tap(x, l, o, c, ky, kx, v, u) else 0.0)
    {
      NextRowAt(was, before, now, x, l, o, c, ky, kx, y0, y, p, v, u);
    }
  }

  /** Column u of the output has its tap inside the frame. */
  predicate TapInside(x: Tensor, l: Conv, kx: nat, u: int)
    requires ValidConv(l)
  {
    0 <= u && 0 <= u * l.stride + kx - Pad(l) < x.w
  }

  /** There, reading and writing stay inside the tensors, and what is read is the tap. */
  lemma ColumnInside(x: Tensor, l: Conv, o: nat, c: nat, ky: nat, kx: nat, y: nat, u: int, ho: nat)
    requires Fits(x, l) && o < l.cout && c < l.cin && ky < l.k && kx < l.k
    requires y < ho && 0 <= y * l.stride + ky - Pad(l) < x.h && TapInside(x, l, kx, u) && u < OutSize(x.w, l)
    ensures ColumnReady(l.cout * ho * OutSize(x.w, l), x.d, OutBase(ho, OutSize(x.w, l), o, y),
      InBase(x, l, c, ky, kx, y), l.stride, u,
                        Weight(l, o, c, ky, kx), TapsOf(x, l, o, c, ky, kx, y))
  {
    TapInFrame(x, l, o, c, ky, kx, y, u);
    OutputIndex(l.cout, ho, OutSize(x.w, l), o, y, u);
  }

  lemma RowExtends(size: nat, xd: seq<real>, outRow: int, inRow: int, s: nat, x0: int, x1: int, wv: real,
      add: seq<real>)
    requires RowReady(size, xd, outRow, inRow, s, x0, x1 - 1, wv, add) &&
      ColumnReady(size, xd, outRow, inRow, s, x1, wv, add)
    ensures RowReady(size, xd, outRow, inRow, s, x0, x1, wv, add)
  {
  }

  /** So a whole row of such columns can be added without a check. */
  lemma {:induction false} ColumnsInside(x: Tensor, l: Conv, o: nat, c: nat, ky: nat, kx: nat, y: nat, x0: nat, x1: int,
      ho: nat)
    requires Fits(x, l) && o < l.cout && c < l.cin && ky < l.k && kx < l.k
    requires y < ho && 0 <= y * l.stride + ky - Pad(l) < x.h && x1 < OutSize(x.w, l)
    requires forall u :: x0 <= u <= x1 ==> TapInside(x, l, kx, u)
    ensures RowReady(l.cout * ho * OutSize(x.w, l), x.d, OutBase(ho, OutSize(x.w, l), o, y), InBase(x, l, c, ky, kx, y),
      l.stride, x0, x1,
                     Weight(l, o, c, ky, kx), TapsOf(x, l, o, c, ky, kx, y))
    decreases x1 - x0 + 1
  {
    if x0 <= x1 {
      ColumnsInside(x, l, o, c, ky, kx, y, x0, x1 - 1, ho);
      ColumnInside(x, l, o, c, ky, kx, y, x1, ho);
      RowExtends(l.cout * ho * OutSize(x.w, l), x.d, OutBase(ho, OutSize(x.w, l), o, y), InBase(x, l, c, ky, kx, y),
        l.stride, x0, x1,
                 Weight(l, o, c, ky, kx), TapsOf(x, l, o, c, ky, kx, y));
    }
  }

  lemma RowInside(x: Tensor, l: Conv, o: nat, c: nat, ky: nat, kx: nat, y: nat)
    requires Fits(x, l) && o < l.cout && c < l.cin && ky < l.k && kx < l.k
    requires y < OutSize(x.h, l) && 0 <= y * l.stride + ky - Pad(l) < x.h
    ensures RowReady(l.cout * OutSize(x.h, l) * OutSize(x.w, l), x.d, OutBase(OutSize(x.h, l), OutSize(x.w, l), o, y),
                     InBase(x, l, c, ky, kx, y), l.stride, First(l, kx), Last(l, kx, x.w, OutSize(x.w, l)),
                     Weight(l, o, c, ky, kx), TapsOf(x, l, o, c, ky, kx, y))
  {
    var x0, x1 := First(l, kx), Last(l, kx, x.w, OutSize(x.w, l));
    forall u | x0 <= u <= x1 ensures TapInside(x, l, kx, u) { RangeIsInFrame(l, kx, x.w, u); }
    ColumnsInside(x, l, o, c, ky, kx, y, x0, x1, OutSize(x.h, l));
  }

  /** Rows outside the range would add nothing, so the range was enough. */
  lemma AllRows(was: seq<real>, now: seq<real>, x: Tensor, l: Conv, o: nat, c: nat, ky: nat, kx: nat, y: int)
    requires Fits(x, l) && o < l.cout && c < l.cin && ky < l.k && kx < l.k
    requires var y0, y1 := First(l, ky), Last(l, ky, x.h, OutSize(x.h, l));
      Added(was, now, x, l, o, c, ky, kx, y0, y) && y > y1 && y0 <= y && (y0 <= y1 ==> y == y1 + 1) &&
        (y0 > y1 ==> y == y0)
    ensures Added(was, now, x, l, o, c, ky, kx, 0, OutSize(x.h, l))
  {
    var ho, wo := OutSize(x.h, l), OutSize(x.w, l);
    forall v: nat, u: nat | v < ho && u < wo && !(First(l, ky) <= v < y) ensures Tap(x, l, o, c, ky, kx, v, u) == 0.0 {
      RangeIsInFrame(l, ky, x.h, v);
    }
  }

  /** The innermost loop; `add` names what it adds, column by column. */
  method AddRow(out: array<real>, xd: seq<real>, outRow: int, inRow: int, s: nat, x0: int, x1: int, wv: real,
      ghost add: seq<real>)
    requires RowReady(out.Length, xd, outRow, inRow, s, x0, x1, wv, add)
    modifies out
    ensures RowWritten(old(out[..]), out[..], outRow, x0, x1, add)
  {
    var xx := x0;
    while xx <= x1
      invariant x0 <= xx
      invariant forall i :: 0 <= i < out.Length && x0 <= i - outRow < xx && i - outRow <= x1 ==>
        out[i] == old(out[i]) + add[i - outRow]
      invariant forall i :: 0 <= i < out.Length && !(x0 <= i - outRow < xx && i - outRow <= x1) ==>
        out[i] == old(out[i])
    {
      assert ColumnReady(out.Length, xd, outRow, inRow, s, xx, wv, add);
      out[outRow + xx] := out[outRow + xx] + wv * xd[inRow + xx * s];
      xx := xx + 1;
    }
  }

  ghost predicate ColumnReady(size: nat, xd: seq<real>, outRow: int, inRow: int, s: nat, u: int, wv: real,
      add: seq<real>)
  {
    0 <= u < |add| && 0 <= outRow + u < size && 0 <= inRow + u * s < |xd| && add[u] == wv * xd[inRow + u * s]
  }

  /** Every index the row touches is inside its tensor, and the products are the ones meant. */
  ghost predicate RowReady(size: nat, xd: seq<real>, outRow: int, inRow: int, s: nat, x0: int, x1: int, wv: real,
      add: seq<real>)
  {
    0 <= x0 && x1 < |add| && forall u :: x0 <= u <= x1 ==> ColumnReady(size, xd, outRow, inRow, s, u, wv, add)
  }

  ghost predicate RowWritten(was: seq<real>, now: seq<real>, outRow: int, x0: int, x1: int, add: seq<real>) {
    |was| == |now| && 0 <= x0 && x1 < |add| &&
    (forall i :: 0 <= i < |was| && x0 <= i - outRow <= x1 ==> now[i] == was[i] + add[i - outRow]) &&
    (forall i :: 0 <= i < |was| && !(x0 <= i - outRow <= x1) ==> now[i] == was[i])
  }

  /** A place lies in the row being written exactly when its three coordinates say so. */
  lemma InRow(n: nat, h: nat, w: nat, o: nat, y: nat, p: nat, v: nat, u: nat)
    requires o < n && y < h && p < n && v < h && u < w
    ensures At(h, w, p, v, u) < n * h * w
    ensures 0 <= At(h, w, p, v, u) - OutBase(h, w, o, y) < w <==> p == o && v == y
    ensures p == o && v == y ==> At(h, w, p, v, u) - OutBase(h, w, o, y) == u
  {
    AtBound(n, h, w, p, v, u);
    OutputIndex(n, h, w, o, y, u);
    var t := At(h, w, p, v, u) - OutBase(h, w, o, y);
    if 0 <= t < w {
      OutputIndex(n, h, w, o, y, t);
      AtInjective(h, w, p, v, u, o, y, t);
    }
  }

  /** A tap outside the frame reads padding. */
  lemma TapOutside(x: Tensor, l: Conv, o: nat, c: nat, ky: nat, kx: nat, y: nat, u: nat)
    requires Fits(x, l) && o < l.cout && c < l.cin && ky < l.k && kx < l.k && u < OutSize(x.w, l)
    requires !(First(l, kx) <= u <= Last(l, kx, x.w, OutSize(x.w, l)))
    ensures Tap(x, l, o, c, ky, kx, y, u) == 0.0
  {
    RangeIsInFrame(l, kx, x.w, u);
  }

  // ---- the whole layer -------------------------------------------------------------------------

  lemma OthersKeptTrans(a: seq<real>, b: seq<real>, c: seq<real>, n: nat, h: nat, w: nat, o: nat)
    requires OthersKept(a, b, n, h, w, o) && OthersKept(b, c, n, h, w, o)
    ensures OthersKept(a, c, n, h, w, o)
  {}

  /** A tap moves its plane one tap on and leaves the other planes alone. */
  lemma TapStep(was: seq<real>, now: seq<real>, x: Tensor, l: Conv, o: nat, c: nat, ky: nat, kx: nat)
    requires Fits(x, l) && o < l.cout && c < l.cin && ky < l.k && kx < l.k
    requires PlaneIs(was, x, l, o, c, ky, kx) && Added(was, now, x, l, o, c, ky, kx, 0, OutSize(x.h, l))
    ensures PlaneIs(now, x, l, o, c, ky, kx + 1)
    ensures OthersKept(was, now, l.cout, OutSize(x.h, l), OutSize(x.w, l), o)
  {
    var ho, wo := OutSize(x.h, l), OutSize(x.w, l);
    forall y: nat, xx: nat | y < ho && xx < wo
      ensures Acc(x, l, o, c, ky, kx + 1, y, xx) == Acc(x, l, o, c, ky, kx, y, xx) + Tap(x, l, o, c, ky, kx, y, xx) {}
  }

  /** A zero weight adds nothing, so skipping it is the same. */
  lemma ZeroStep(out: seq<real>, x: Tensor, l: Conv, o: nat, c: nat, ky: nat, kx: nat)
    requires Fits(x, l) && o < l.cout && c < l.cin && ky < l.k && kx < l.k
    requires PlaneIs(out, x, l, o, c, ky, kx) && Weight(l, o, c, ky, kx) == 0.0
    ensures PlaneIs(out, x, l, o, c, ky, kx + 1)
  {
    var ho, wo := OutSize(x.h, l), OutSize(x.w, l);
    forall y: nat, xx: nat | y < ho && xx < wo
      ensures Acc(x, l, o, c, ky, kx + 1, y, xx) == Acc(x, l, o, c, ky, kx, y, xx) {}
  }

  /** The end of a kernel row, and of a kernel. */
  lemma RowEnd(out: seq<real>, x: Tensor, l: Conv, o: nat, c: nat, ky: nat)
    requires Fits(x, l) && o < l.cout && c < l.cin && ky < l.k && PlaneIs(out, x, l, o, c, ky, l.k)
    ensures PlaneIs(out, x, l, o, c, ky + 1, 0)
  {
    forall y: nat, xx: nat | y < OutSize(x.h, l) && xx < OutSize(x.w, l)
      ensures Acc(x, l, o, c, ky + 1, 0, y, xx) == Acc(x, l, o, c, ky, l.k, y, xx) {}
  }

  lemma KernelEnd(out: seq<real>, x: Tensor, l: Conv, o: nat, c: nat)
    requires Fits(x, l) && o < l.cout && c < l.cin && PlaneIs(out, x, l, o, c, l.k, 0)
    ensures PlaneIs(out, x, l, o, c + 1, 0, 0)
  {
    forall y: nat, xx: nat | y < OutSize(x.h, l) && xx < OutSize(x.w, l)
      ensures Acc(x, l, o, c + 1, 0, 0, y, xx) == Acc(x, l, o, c, l.k, 0, y, xx) {}
  }

  /** Add one row of the kernel. */
  method AddKernelRow(out: array<real>, x: Tensor, l: Conv, o: nat, c: nat, ky: nat)
    requires Fits(x, l) && o < l.cout && c < l.cin && ky < l.k && PlaneIs(out[..], x, l, o, c, ky, 0)
    modifies out
    ensures PlaneIs(out[..], x, l, o, c, ky + 1, 0)
    ensures OthersKept(old(out[..]), out[..], l.cout, OutSize(x.h, l), OutSize(x.w, l), o)
  {
    ghost var ho, wo := OutSize(x.h, l), OutSize(x.w, l);
    ghost var was := out[..];
    SelfKept(was, l.cout, ho, wo, o);
    for kx := 0 to l.k
      invariant PlaneIs(out[..], x, l, o, c, ky, kx) && OthersKept(was, out[..], l.cout, ho, wo, o)
    {
      WeightInRange(l, o, c, ky, kx);
      if l.w[WeightAt(l, o, c, ky, kx)] == 0.0 {
        ZeroStep(out[..], x, l, o, c, ky, kx);
      } else {
        ghost var before := out[..];
        AddTap(out, x, l, o, c, ky, kx);
        TapStep(before, out[..], x, l, o, c, ky, kx);
        OthersKeptTrans(was, before, out[..], l.cout, ho, wo, o);
      }
    }
    RowEnd(out[..], x, l, o, c, ky);
  }

  /** Add all the taps of one input channel to one output plane. */
  method AddChannel(out: array<real>, x: Tensor, l: Conv, o: nat, c: nat)
    requires Fits(x, l) && o < l.cout && c < l.cin && PlaneIs(out[..], x, l, o, c, 0, 0)
    modifies out
    ensures PlaneIs(out[..], x, l, o, c + 1, 0, 0)
    ensures OthersKept(old(out[..]), out[..], l.cout, OutSize(x.h, l), OutSize(x.w, l), o)
  {
    ghost var ho, wo := OutSize(x.h, l), OutSize(x.w, l);
    ghost var was := out[..];
    SelfKept(was, l.cout, ho, wo, o);
    for ky := 0 to l.k
      invariant PlaneIs(out[..], x, l, o, c, ky, 0) && OthersKept(was, out[..], l.cout, ho, wo, o)
    {
      ghost var before := out[..];
      AddKernelRow(out, x, l, o, c, ky);
      OthersKeptTrans(was, before, out[..], l.cout, ho, wo, o);
    }
    KernelEnd(out[..], x, l, o, c);
  }

  lemma SelfKept(a: seq<real>, n: nat, h: nat, w: nat, o: nat)
    requires |a| == n * h * w
    ensures OthersKept(a, a, n, h, w, o)
  {
    forall p: nat, y: nat, xx: nat | p < n && y < h && xx < w
      ensures At(h, w, p, y, xx) < |a|
    {
      AtBound(n, h, w, p, y, xx);
    }
  }

  lemma Regrouped(h: nat, w: nat, p: nat, y: nat, xx: nat)
    ensures At(h, w, p, y, xx) == p * (h * w) + (y * w + xx)
  {
    assert (p * h) * w == p * (h * w);
  }

  lemma PlaneFits(n: nat, size: nat, o: nat)
    requires o < n
    ensures o * size + size <= n * size
  {
    MulLe(o + 1, n, size);
  }

  /** Where a place lies against the stretch of plane o, by the planes' numbers. */
  lemma PlaneOf(size: nat, p: nat, rest: nat, o: nat)
    requires rest < size
    ensures o * size <= p * size + rest < o * size + size <==> p == o
  {
    if p < o { LessDigits(size, p, rest, o); }
    if o < p { MulLe(o + 1, p, size); }
  }

  /** Plane o is the stretch from o*h*w to (o+1)*h*w. */
  lemma PlaneStretch(n: nat, h: nat, w: nat, o: nat, p: nat, y: nat, xx: nat)
    requires o < n && p < n && y < h && xx < w
    ensures At(h, w, p, y, xx) < n * h * w && o * (h * w) + h * w <= n * h * w
    ensures o * (h * w) <= At(h, w, p, y, xx) < o * (h * w) + h * w <==> p == o
  {
    AtBound(n, h, w, p, y, xx);
    LessDigits(w, y, xx, h);
    Regrouped(h, w, p, y, xx);
    Regrouped(h, w, n, 0, 0);
    PlaneFits(n, h * w, o);
    PlaneOf(h * w, p, y * w + xx, o);
  }

  /** Start a plane at its bias. */
  method FillBias(out: array<real>, x: Tensor, l: Conv, o: nat)
    requires Fits(x, l) && o < l.cout && out.Length == l.cout * OutSize(x.h, l) * OutSize(x.w, l)
    modifies out
    ensures PlaneIs(out[..], x, l, o, 0, 0, 0)
    ensures OthersKept(old(out[..]), out[..], l.cout, OutSize(x.h, l), OutSize(x.w, l), o)
  {
    var ho, wo := OutSize(x.h, l), OutSize(x.w, l);
    var plane := ho * wo;
    PlaneStretch(l.cout, ho, wo, o, o, 0, 0);
    ghost var was := out[..];
    forall i | o * plane <= i < o * plane + plane { out[i] := l.b[o]; }
    forall p: nat, y: nat, xx: nat | p < l.cout && y < ho && xx < wo
      ensures At(ho, wo, p, y, xx) < out.Length
      ensures out[At(ho, wo, p, y, xx)] == if p == o then l.b[o] else was[At(ho, wo, p, y, xx)]
    {
      PlaneStretch(l.cout, ho, wo, o, p, y, xx);
    }
  }

  /** Output planes 0..o hold bias plus all taps. */
  ghost predicate PlanesDone(out: seq<real>, x: Tensor, l: Conv, o: nat)
    requires Fits(x, l) && o <= l.cout
  {
    |out| == l.cout * OutSize(x.h, l) * OutSize(x.w, l) &&
    forall p: nat :: p < o ==> PlaneIs(out, x, l, p, l.cin, 0, 0)
  }

  lemma PlanesKept(was: seq<real>, now: seq<real>, x: Tensor, l: Conv, o: nat)
    requires Fits(x, l) && o < l.cout && PlanesDone(was, x, l, o)
    requires OthersKept(was, now, l.cout, OutSize(x.h, l), OutSize(x.w, l), o)
    ensures PlanesDone(now, x, l, o)
  {
    forall p: nat | p < o ensures PlaneIs(now, x, l, p, l.cin, 0, 0) {
      assert PlaneIs(was, x, l, p, l.cin, 0, 0);
    }
  }

  method ClampAll(out: array<real>)
    modifies out
    ensures forall k :: 0 <= k < out.Length ==> out[k] == Relu(true, old(out[k]))
  {
    for i := 0 to out.Length
      invariant forall k :: 0 <= k < i ==> out[k] == Relu(true, old(out[k]))
      invariant forall k :: i <= k < out.Length ==> out[k] == old(out[k])
    {
      if out[i] < 0.0 { out[i] := 0.0; }
    }
  }

  /** One output plane: its bias, then every channel's taps. */
  method FillPlane(out: array<real>, x: Tensor, l: Conv, o: nat)
    requires Fits(x, l) && o < l.cout && out.Length == l.cout * OutSize(x.h, l) * OutSize(x.w, l)
    modifies out
    ensures PlaneIs(out[..], x, l, o, l.cin, 0, 0)
    ensures OthersKept(old(out[..]), out[..], l.cout, OutSize(x.h, l), OutSize(x.w, l), o)
  {
    ghost var ho, wo := OutSize(x.h, l), OutSize(x.w, l);
    ghost var was := out[..];
    FillBias(out, x, l, o);
    for c := 0 to l.cin
      invariant PlaneIs(out[..], x, l, o, c, 0, 0) && OthersKept(was, out[..], l.cout, ho, wo, o)
    {
      ghost var before := out[..];
      AddChannel(out, x, l, o, c);
      OthersKeptTrans(was, before, out[..], l.cout, ho, wo, o);
    }
  }

  /** One convolution layer; the result is the plain padded, strided sum for every output. */
  method Convolve(x: Tensor, l: Conv) returns (r: Tensor)
    requires Fits(x, l)
    ensures ConvOf(x, l, r)
  {
    var ho, wo := OutSize(x.h, l), OutSize(x.w, l);
    var out := new real[l.cout * ho * wo](i => 0.0);
    for o := 0 to l.cout
      invariant PlanesDone(out[..], x, l, o)
    {
      ghost var was := out[..];
      FillPlane(out, x, l, o);
      PlanesKept(was, out[..], x, l, o);
    }
    ghost var sums := out[..];
    if l.relu { ClampAll(out); }
    r := Tensor(l.cout, ho, wo, out[..]);
    Finished(x, l, r, sums);
  }

  lemma Finished(x: Tensor, l: Conv, r: Tensor, sums: seq<real>)
    requires Fits(x, l) && PlanesDone(sums, x, l, l.cout)
    requires r.c == l.cout && r.h == OutSize(x.h, l) && r.w == OutSize(x.w, l) && |r.d| == |sums|
    requires forall k :: 0 <= k < |sums| ==> r.d[k] == Relu(l.relu, sums[k])
    ensures ConvOf(x, l, r)
  {
    forall o: nat, y: nat, xx: nat | o < r.c && y < r.h && xx < r.w
      ensures Padded(r, o, y, xx) == ConvAt(x, l, o, y, xx)
    {
      assert PlaneIs(sums, x, l, o, l.cin, 0, 0);
      assert sums[At(r.h, r.w, o, y, xx)] == Acc(x, l, o, l.cin, 0, 0, y, xx);
    }
  }
}
