/**
 * What one convolution layer of src/algo/heatmodel.ts means, index by index: it is linear in its
 * weights, and a single weight copies one shifted, strided plane of the input, scaled.
 */
module HeatLaws {
  import opened HeatConv

  /** As many outputs as there are places where the whole window lies in the padded input. */
  lemma OutSizeIs(n: nat, l: Conv, v: nat)
    requires n > 0 && (l.k == 1 || l.k == 3) && (l.stride == 1 || l.stride == 2)
    ensures v < OutSize(n, l) <==> v * l.stride + l.k <= n + (if l.k == 3 then 2 else 0)
  {
    if l.stride == 1 {} else {}
  }

  // ---- one weight ------------------------------------------------------------------------------------

  /** The input at an offset that may lie outside it. */
  function Input(x: Tensor, c: nat, row: int, col: int): real
    requires ValidTensor(x) && c < x.c
  {
    if row < 0 || row >= x.h || col < 0 || col >= x.w then 0.0
    else
      InputIndex(x, c, row, col);
      x.d[c * x.h * x.w + row * x.w + col]
  }

  /** Of the weights of output o, all are zero but the one of channel c, kernel row ky, column kx. */
  ghost predicate OnlyTap(l: Conv, o: nat, c: nat, ky: nat, kx: nat)
    requires ValidConv(l) && o < l.cout
  {
    c < l.cin && ky < l.k && kx < l.k &&
    forall p: nat, v: nat, u: nat {:trigger WeightAt(l, o, p, v, u)} ::
      p < l.cin && v < l.k && u < l.k && (p, v, u) != (c, ky, kx) ==> Weight(l, o, p, v, u) == 0.0
  }

  lemma {:induction false} RowOfOne(x: Tensor, l: Conv, o: nat, c: nat, ky: nat, n: nat, y: nat, xx: nat, at: nat)
    requires Fits(x, l) && o < l.cout && c < l.cin && ky < l.k && n <= l.k
    requires forall u: nat :: u < n && u != at ==> Weight(l, o, c, ky, u) == 0.0
    ensures RowSum(x, l, o, c, ky, n, y, xx) == if at < n then Tap(x, l, o, c, ky, at, y, xx) else 0.0
  {
    if n > 0 { RowOfOne(x, l, o, c, ky, n - 1, y, xx, at); }
  }

  /** Only kernel row `at` has a weight, and there only column kx. */
  lemma {:induction false} KernelOfOne(x: Tensor, l: Conv, o: nat, c: nat, n: nat, y: nat, xx: nat, at: nat, kx: nat)
    requires Fits(x, l) && o < l.cout && c < l.cin && n <= l.k && kx < l.k
    requires forall v: nat, u: nat :: v < n && u < l.k && (v != at || u != kx) ==> Weight(l, o, c, v, u) == 0.0
    ensures KernelSum(x, l, o, c, n, y, xx) == if at < n then Tap(x, l, o, c, at, kx, y, xx) else 0.0
  {
    if n > 0 {
      KernelOfOne(x, l, o, c, n - 1, y, xx, at, kx);
      RowOfOne(x, l, o, c, n - 1, l.k, y, xx, if n - 1 == at then kx else l.k);
    }
  }

  lemma {:induction false} ChannelsOfOne(x: Tensor, l: Conv, o: nat, n: nat, y: nat, xx: nat, at: nat, ky: nat, kx: nat)
    requires Fits(x, l) && o < l.cout && n <= l.cin && ky < l.k && kx < l.k
    requires forall p: nat, v: nat, u: nat :: p < n && v < l.k && u < l.k && (p, v, u) != (at, ky, kx) ==>
      Weight(l, o, p, v, u) == 0.0
    ensures ChannelSum(x, l, o, n, y, xx) == if at < n then Tap(x, l, o, at, ky, kx, y, xx) else 0.0
  {
    if n > 0 {
      ChannelsOfOne(x, l, o, n - 1, y, xx, at, ky, kx);
      var p, row := n - 1, if n - 1 == at then ky else l.k;
      forall v: nat, u: nat | v < l.k && u < l.k && (v != row || u != kx) ensures Weight(l, o, p, v, u) == 0.0 {
        assert (p, v, u) != (at, ky, kx);
      }
      KernelOfOne(x, l, o, p, l.k, y, xx, row, kx);
    }
  }

  /** Where a weight stands: output by output, channel by channel, then row by row. */
  function Place(l: Conv, o: nat, c: nat, ky: nat, kx: nat): nat {
    o * l.cin * l.k * l.k + c * l.k * l.k + ky * l.k + kx
  }

  lemma WeightPlace(l: Conv, o: nat, c: nat, ky: nat, kx: nat)
    ensures WeightAt(l, o, c, ky, kx) == Place(l, o, c, ky, kx)
  {
    assert (o * l.cin + c) * l.k * l.k == o * l.cin * l.k * l.k + c * l.k * l.k;
    assert ((o * l.cin + c) * l.k + ky) * l.k == (o * l.cin + c) * l.k * l.k + ky * l.k;
  }

  /** How far the kernel reaches on either side of its middle. */
  function Half(l: Conv): int { if l.k == 3 then 1 else 0 }

  lemma TapIs(x: Tensor, l: Conv, o: nat, c: nat, ky: nat, kx: nat, y: nat, xx: nat)
    requires Fits(x, l) && o < l.cout && c < l.cin && ky < l.k && kx < l.k
    ensures Place(l, o, c, ky, kx) < |l.w|
    ensures Tap(x, l, o, c, ky, kx, y, xx) ==
      l.w[Place(l, o, c, ky, kx)] * Input(x, c, y * l.stride + ky - Half(l), xx * l.stride + kx - Half(l))
  {
    WeightPlace(l, o, c, ky, kx);
    WeightInRange(l, o, c, ky, kx);
    assert Half(l) == Pad(l);
    InputIs(x, c, y * l.stride + ky - Half(l), xx * l.stride + kx - Half(l));
  }

  /**
   * A layer with one weight for an output plane copies one plane of its input: moved by the weight's
   * place in the kernel, thinned by the stride, scaled by the weight, over the bias.
   */
  lemma OneWeightShifts(x: Tensor, l: Conv, o: nat, c: nat, ky: nat, kx: nat, y: nat, xx: nat)
    requires Fits(x, l) && o < l.cout && OnlyTap(l, o, c, ky, kx)
    ensures Place(l, o, c, ky, kx) < |l.w|
    ensures var v := l.b[o] +
        l.w[Place(l, o, c, ky, kx)] * Input(x, c, y * l.stride + ky - Half(l), xx * l.stride + kx - Half(l));
      ConvAt(x, l, o, y, xx) == if l.relu && v < 0.0 then 0.0 else v
  {
    ChannelsOfOne(x, l, o, l.cin, y, xx, c, ky, kx);
    TapIs(x, l, o, c, ky, kx, y, xx);
  }

  lemma InputIs(x: Tensor, c: nat, row: int, col: int)
    requires ValidTensor(x) && c < x.c
    ensures Padded(x, c, row, col) == Input(x, c, row, col)
  {
    if 0 <= row < x.h && 0 <= col < x.w { InputIndex(x, c, row, col); }
  }

  /** An entry of the result, in its place. */
  lemma EntryIs(x: Tensor, l: Conv, r: Tensor, o: nat, y: nat, xx: nat)
    requires Fits(x, l) && ConvOf(x, l, r) && o < r.c && y < r.h && xx < r.w
    ensures 0 <= o * r.h * r.w + y * r.w + xx < |r.d| && r.d[o * r.h * r.w + y * r.w + xx] == ConvAt(x, l, o, y, xx)
  {
    InputIndex(r, o, y, xx);
  }

  // ---- many weights ----------------------------------------------------------------------------------

  /** The weights of `l` are those of `a` and `b` together; the shapes agree. */
  predicate Together(l: Conv, a: Conv, b: Conv) {
    ValidConv(l) && ValidConv(a) && ValidConv(b) && l.cin == a.cin == b.cin && l.cout == a.cout == b.cout &&
    l.k == a.k == b.k && l.stride == a.stride == b.stride &&
    forall i :: 0 <= i < |l.w| ==> l.w[i] == a.w[i] + b.w[i]
  }

  lemma TapAdds(x: Tensor, l: Conv, a: Conv, b: Conv, o: nat, c: nat, ky: nat, kx: nat, y: nat, xx: nat)
    requires Fits(x, l) && Together(l, a, b) && o < l.cout && c < l.cin && ky < l.k && kx < l.k
    ensures Tap(x, l, o, c, ky, kx, y, xx) == Tap(x, a, o, c, ky, kx, y, xx) + Tap(x, b, o, c, ky, kx, y, xx)
  {
    WeightInRange(l, o, c, ky, kx);
    assert Weight(l, o, c, ky, kx) == Weight(a, o, c, ky, kx) + Weight(b, o, c, ky, kx);
    var p := Padded(x, c, y * l.stride + ky - Pad(l), xx * l.stride + kx - Pad(l));
    assert (Weight(a, o, c, ky, kx) + Weight(b, o, c, ky, kx)) * p ==
      Weight(a, o, c, ky, kx) * p + Weight(b, o, c, ky, kx) * p;
  }

  lemma {:induction false} RowAdds(x: Tensor, l: Conv, a: Conv, b: Conv, o: nat, c: nat, ky: nat, n: nat, y: nat,
      xx: nat)
    requires Fits(x, l) && Together(l, a, b) && o < l.cout && c < l.cin && ky < l.k && n <= l.k
    ensures RowSum(x, l, o, c, ky, n, y, xx) == RowSum(x, a, o, c, ky, n, y, xx) + RowSum(x, b, o, c, ky, n, y, xx)
  {
    if n > 0 {
      RowAdds(x, l, a, b, o, c, ky, n - 1, y, xx);
      TapAdds(x, l, a, b, o, c, ky, n - 1, y, xx);
    }
  }

  lemma {:induction false} KernelAdds(x: Tensor, l: Conv, a: Conv, b: Conv, o: nat, c: nat, n: nat, y: nat, xx: nat)
    requires Fits(x, l) && Together(l, a, b) && o < l.cout && c < l.cin && n <= l.k
    ensures KernelSum(x, l, o, c, n, y, xx) == KernelSum(x, a, o, c, n, y, xx) + KernelSum(x, b, o, c, n, y, xx)
  {
    if n > 0 {
      KernelAdds(x, l, a, b, o, c, n - 1, y, xx);
      RowAdds(x, l, a, b, o, c, n - 1, l.k, y, xx);
    }
  }

  /** The sum before the bias is linear: weights may be added layer by layer. */
  lemma {:induction false} WeightsAdd(x: Tensor, l: Conv, a: Conv, b: Conv, o: nat, n: nat, y: nat, xx: nat)
    requires Fits(x, l) && Together(l, a, b) && o < l.cout && n <= l.cin
    ensures ChannelSum(x, l, o, n, y, xx) == ChannelSum(x, a, o, n, y, xx) + ChannelSum(x, b, o, n, y, xx)
  {
    if n > 0 {
      WeightsAdd(x, l, a, b, o, n - 1, y, xx);
      KernelAdds(x, l, a, b, o, n - 1, l.k, y, xx);
    }
  }
}
