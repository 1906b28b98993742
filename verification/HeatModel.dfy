/**
 * The model checker and the forward pass of src/algo/heatmodel.ts. A model the checker accepts
 * is run without any index leaving its tensor, and every tensor is what its layer defines.
 */
module HeatModel {
  import opened Wrappers
  import opened HeatConv

  datatype Layer =
    | ConvLayer(input: string, output: string, conv: Conv)
    | Up2(input: string, output: string)
    | Add(left: string, right: string, output: string)
    | UnknownOp(output: string)

  datatype Model = Model(
    version: int, kind: string, features: string, id: string, threshold: real, input: seq<int>,
    heatmap: string, offset: string, stride: int, layers: seq<Layer>)

  datatype Shape = Shape(c: nat, h: nat, w: nat)

  type Shapes = map<string, Shape>

  predicate LowerHex(c: char) { '0' <= c <= '9' || 'a' <= c <= 'f' }

  /** Everything the checker asks for before it walks the layers. */
  predicate Header(m: Model) {
    m.version == 2 && m.kind == "cnn-heatmap" && m.features == "heatfeatures-v1" &&
    8 <= |m.id| <= 64 && (forall i :: 0 <= i < |m.id| ==> LowerHex(m.id[i])) &&
    0.0 < m.threshold < 1.0 && m.input == [3, 24, 32] && m.stride == 2 && 0 < |m.layers| <= 64
  }

  /**
   * The shape a layer produces from the shapes before it, if it can be run at all. The sizes
   * are never zero, so asking for that in a convolution refuses nothing.
   */
  function ShapeAfter(l: Layer, shapes: Shapes): Option<Shape> {
    if l.output in shapes then None
    else
      match l
      case ConvLayer(input, _, conv) =>
        if input in shapes && conv.cin == shapes[input].c && 1 <= conv.cout <= 256 &&
           (conv.k == 1 || conv.k == 3) && (conv.stride == 1 || conv.stride == 2) &&
           |conv.w| == conv.cout * conv.cin * conv.k * conv.k && |conv.b| == conv.cout &&
           shapes[input].h > 0 && shapes[input].w > 0
        then Some(Shape(conv.cout, OutSize(shapes[input].h, conv), OutSize(shapes[input].w, conv)))
        else None
      case Up2(input, _) =>
        if input in shapes then Some(Shape(shapes[input].c, 2 * shapes[input].h, 2 * shapes[input].w)) else None
      case Add(left, right, _) =>
        if left in shapes && right in shapes && shapes[left] == shapes[right] then Some(shapes[left]) else None
      case UnknownOp(_) => None
  }

  const INPUT_SHAPES: Shapes := map["x" := Shape(3, 24, 32)]

  /** The shapes after the first n layers; None once a layer is refused. */
  function ShapesAfter(layers: seq<Layer>, n: nat): Option<Shapes>
    requires n <= |layers|
  {
    if n == 0 then Some(INPUT_SHAPES)
    else
      var before := ShapesAfter(layers, n - 1);
      if before.None? then None
      else
        var s := ShapeAfter(layers[n - 1], before.value);
        if s.None? then None else Some(before.value[layers[n - 1].output := s.value])
  }

  /** Every layer can be run, and the two outputs come out in their shapes. */
  predicate GivesOutputs(m: Model) {
    var shapes := ShapesAfter(m.layers, |m.layers|);
    shapes.Some? && m.heatmap in shapes.value && m.offset in shapes.value &&
    shapes.value[m.heatmap] == Shape(1, 12, 16) && shapes.value[m.offset] == Shape(2, 12, 16)
  }

  predicate Accepted(m: Model) { Header(m) && GivesOutputs(m) }

  lemma {:induction false} RefusedStays(layers: seq<Layer>, i: nat, n: nat)
    requires i <= n <= |layers| && ShapesAfter(layers, i).None?
    ensures ShapesAfter(layers, n).None?
  {
    if i < n { RefusedStays(layers, i, n - 1); }
  }

  /** isHeatModel. */
  method IsHeatModel(m: Model) returns (ok: bool)
    ensures ok <==> Accepted(m)
    ensures ok <==>
      GivesOutputs(m) && m.version == 2 && m.kind == "cnn-heatmap" && m.features == "heatfeatures-v1" &&
        8 <= |m.id| <= 64 &&
      (forall i :: 0 <= i < |m.id| ==> '0' <= m.id[i] <= '9' || 'a' <= m.id[i] <= 'f') &&
      0.0 < m.threshold < 1.0 && m.input == [3, 24, 32] && m.stride == 2 && 1 <= |m.layers| <= 64
  {
    if !Header(m) { return false; }
    var shapes := INPUT_SHAPES;
    for i := 0 to |m.layers|
      invariant ShapesAfter(m.layers, i) == Some(shapes)
    {
      var s := ShapeAfter(m.layers[i], shapes);
      if s.None? {
        RefusedStays(m.layers, i + 1, |m.layers|);
        return false;
      }
      shapes := shapes[m.layers[i].output := s.value];
    }
    return m.heatmap in shapes && m.offset in shapes &&
           shapes[m.heatmap] == Shape(1, 12, 16) && shapes[m.offset] == Shape(2, 12, 16);
  }

  // ---- what a layer means --------------------------------------------------------------

  type Env = map<string, Tensor>

  /** `r` repeats every pixel of `x` as a 2x2 square. */
  ghost predicate UpOf(x: Tensor, r: Tensor)
    requires ValidTensor(x)
  {
    r.c == x.c && r.h == 2 * x.h && r.w == 2 * x.w && ValidTensor(r) &&
    forall c: nat, y: nat, xx: nat :: c < r.c && y < r.h && xx < r.w ==>
      Padded(r, c, y, xx) == Padded(x, c, y / 2, xx / 2)
  }

  ghost predicate SumOf(a: Tensor, b: Tensor, r: Tensor) {
    r.c == a.c == b.c && r.h == a.h == b.h && r.w == a.w == b.w && |r.d| == |a.d| == |b.d| &&
    forall i :: 0 <= i < |r.d| ==> r.d[i] == a.d[i] + b.d[i]
  }

  ghost predicate LayerOf(l: Layer, env: Env, r: Tensor) {
    match l
    case ConvLayer(input, _, conv) => input in env && Fits(env[input], conv) && ConvOf(env[input], conv, r)
    case Up2(input, _) => input in env && ValidTensor(env[input]) && UpOf(env[input], r)
    case Add(left, right, _) => left in env && right in env && SumOf(env[left], env[right], r)
    case UnknownOp(_) => false
  }

  ghost predicate Extends(l: Layer, before: Env, env: Env) {
    l.output in env && l.output !in before && LayerOf(l, before, env[l.output]) &&
      env == before[l.output := env[l.output]]
  }

  /** The tensors the first n layers define, starting from the input. */
  ghost predicate Evaluates(layers: seq<Layer>, input: Tensor, n: nat, env: Env)
    decreases n
  {
    n <= |layers| &&
    if n == 0 then env == map["x" := input]
    else
      var l := layers[n - 1];
      l.output in env &&
      exists before: Env :: (Evaluates(layers, input, n - 1, before) && Extends(l, before, env))
  }

  ghost predicate ShapedAs(env: Env, shapes: Shapes) {
    env.Keys == shapes.Keys &&
    forall n <- env ::
      ValidTensor(env[n]) && env[n].c > 0 && env[n].c == shapes[n].c && env[n].h == shapes[n].h &&
      env[n].w == shapes[n].w
  }

  // ---- the forward pass --------------------------------------------------------------------

  method Upsample(x: Tensor) returns (r: Tensor)
    requires ValidTensor(x)
    ensures UpOf(x, r)
  {
    var h, w := 2 * x.h, 2 * x.w;
    var d := new real[x.c * h * w](i => 0.0);
    for c := 0 to x.c
      invariant forall p: nat, v: nat, u: nat :: p < c && v < h && u < w ==>
        At(h, w, p, v, u) < d.Length && d[At(h, w, p, v, u)] == Padded(x, p, v / 2, u / 2)
    {
      UpPlane(x, d, c);
    }
    r := Tensor(x.c, h, w, d[..]);
  }

  method UpPlane(x: Tensor, d: array<real>, c: nat)
    requires ValidTensor(x) && c < x.c && d.Length == x.c * (2 * x.h) * (2 * x.w)
    modifies d
    ensures forall v: nat, u: nat :: v < 2 * x.h && u < 2 * x.w ==>
      At(2 * x.h, 2 * x.w, c, v, u) < d.Length && d[At(2 * x.h, 2 * x.w, c, v, u)] == Padded(x, c, v / 2, u / 2)
    ensures OthersKept(old(d[..]), d[..], x.c, 2 * x.h, 2 * x.w, c)
  {
    var h, w := 2 * x.h, 2 * x.w;
    ghost var was := d[..];
    SelfKept(was, x.c, h, w, c);
    for y := 0 to h
      invariant OthersKept(was, d[..], x.c, h, w, c)
      invariant forall v: nat, u: nat :: v < y && u < w ==>
        At(h, w, c, v, u) < d.Length && d[At(h, w, c, v, u)] == Padded(x, c, v / 2, u / 2)
    {
      for xx := 0 to w
        invariant OthersKept(was, d[..], x.c, h, w, c)
        invariant forall v: nat, u: nat :: v < h && u < w && (v < y || (v == y && u < xx)) ==>
          At(h, w, c, v, u) < d.Length && d[At(h, w, c, v, u)] == Padded(x, c, v / 2, u / 2)
      {
        AtBound(x.c, h, w, c, y, xx);
        AtBound(x.c, x.h, x.w, c, y / 2, xx / 2);
        ghost var before := d[..];
        d[(c * h + y) * w + xx] := x.d[(c * x.h + y / 2) * x.w + xx / 2];
        Written(before, d[..], x.c, h, w, c, y, xx);
      }
    }
  }

  /** Writing one place changes no other. */
  lemma Written(was: seq<real>, now: seq<real>, n: nat, h: nat, w: nat, c: nat, y: nat, xx: nat)
    requires c < n && y < h && xx < w && |was| == |now| == n * h * w && At(h, w, c, y, xx) < |was|
    requires now == was[At(h, w, c, y, xx) := now[At(h, w, c, y, xx)]]
    ensures forall p: nat, v: nat, u: nat :: p < n && v < h && u < w && !(p == c && v == y && u == xx) ==>
      At(h, w, p, v, u) < |was| && now[At(h, w, p, v, u)] == was[At(h, w, p, v, u)]
  {
    forall p: nat, v: nat, u: nat | p < n && v < h && u < w && !(p == c && v == y && u == xx)
      ensures At(h, w, p, v, u) < |was| && now[At(h, w, p, v, u)] == was[At(h, w, p, v, u)]
    {
      AtBound(n, h, w, p, v, u);
      if At(h, w, p, v, u) == At(h, w, c, y, xx) { AtInjective(h, w, p, v, u, c, y, xx); }
    }
  }

  method AddTensors(a: Tensor, b: Tensor) returns (r: Tensor)
    requires a.c == b.c && a.h == b.h && a.w == b.w && |a.d| == |b.d|
    ensures SumOf(a, b, r)
  {
    var d := new real[|a.d|](i => 0.0);
    for i := 0 to |a.d|
      invariant forall k :: 0 <= k < i ==> d[k] == a.d[k] + b.d[k]
    {
      d[i] := a.d[i] + b.d[i];
    }
    r := a.(d := d[..]);
  }

  method RunLayer(l: Layer, env: Env, ghost shapes: Shapes) returns (r: Tensor)
    requires ShapedAs(env, shapes) && ShapeAfter(l, shapes).Some?
    ensures LayerOf(l, env, r) && ValidTensor(r) && r.c > 0
    ensures Shape(r.c, r.h, r.w) == ShapeAfter(l, shapes).value
  {
    match l
    case ConvLayer(input, _, conv) =>
      assert input in shapes;
      r := Convolve(env[input], conv);
    case Up2(input, _) =>
      assert input in shapes;
      r := Upsample(env[input]);
    case Add(left, right, _) =>
      assert left in shapes && right in shapes;
      r := AddTensors(env[left], env[right]);
  }

  /** The first i layers have been run, and their tensors have the shapes the checker worked out. */
  ghost predicate RunTo(layers: seq<Layer>, input: Tensor, i: nat, t: Env, shapes: Shapes) {
    i <= |layers| && ShapesAfter(layers, i) == Some(shapes) && ShapedAs(t, shapes) && Evaluates(layers, input, i, t)
  }

  /** The shapes with that of one more tensor. */
  function Grown(shapes: Shapes, l: Layer, out: Tensor): Shapes { shapes[l.output := Shape(out.c, out.h, out.w)] }

  lemma NextLayer(layers: seq<Layer>, input: Tensor, i: nat, t: Env, shapes: Shapes, out: Tensor)
    requires i < |layers| && RunTo(layers, input, i, t, shapes) && LayerOf(layers[i], t, out) && ValidTensor(out) &&
      out.c > 0
    requires ShapeAfter(layers[i], shapes) == Some(Shape(out.c, out.h, out.w))
    ensures RunTo(layers, input, i + 1, t[layers[i].output := out], Grown(shapes, layers[i], out))
  {
    var next := t[layers[i].output := out];
    assert Extends(layers[i], t, next);
  }

  /** The walk over the layers refuses none of them. */
  predicate Walkable(layers: seq<Layer>) { ShapesAfter(layers, |layers|).Some? }

  lemma EveryLayerFits(layers: seq<Layer>, i: nat, shapes: Shapes)
    requires Walkable(layers) && i < |layers| && ShapesAfter(layers, i) == Some(shapes)
    ensures ShapeAfter(layers[i], shapes).Some?
  {
    if ShapesAfter(layers, i + 1).None? { RefusedStays(layers, i + 1, |layers|); }
  }

  /** After the last layer both outputs are there, in their shapes. */
  lemma OutputsReady(m: Model, input: Tensor, t: Env, shapes: Shapes)
    requires Accepted(m) && RunTo(m.layers, input, |m.layers|, t, shapes)
    ensures m.heatmap in t && |t[m.heatmap].d| == 12 * 16
    ensures m.offset in t && |t[m.offset].d| == 2 * 12 * 16
  {
  }

  lemma InputReady(layers: seq<Layer>, input: Tensor)
    requires ValidTensor(input) && Shape(input.c, input.h, input.w) == Shape(3, 24, 32)
    ensures RunTo(layers, input, 0, map["x" := input], INPUT_SHAPES)
  {
  }

  /** The loop over the layers. */
  method RunAll(layers: seq<Layer>, input: Tensor) returns (t: Env, ghost shapes: Shapes)
    requires Walkable(layers) && ValidTensor(input) && Shape(input.c, input.h, input.w) == Shape(3, 24, 32)
    ensures RunTo(layers, input, |layers|, t, shapes)
  {
    t, shapes := map["x" := input], INPUT_SHAPES;
    InputReady(layers, input);
    for i := 0 to |layers|
      invariant RunTo(layers, input, i, t, shapes)
    {
      EveryLayerFits(layers, i, shapes);
      var out := RunLayer(layers[i], t, shapes);
      NextLayer(layers, input, i, t, shapes, out);
      t, shapes := t[layers[i].output := out], Grown(shapes, layers[i], out);
    }
  }

  /**
   * heatForward for an accepted model: a wrong input size is an error, anything else yields a
   * 1 x 12 x 16 heatmap and 2 x 12 x 16 offsets, which are the tensors the layers define.
   */
  method HeatForward(m: Model, features: seq<real>) returns (r: Result<(seq<real>, seq<real>)>, ghost env: Env)
    requires Accepted(m)
    ensures r.Ok? <==> |features| == 3 * 24 * 32
    ensures r.Ok? ==> |r.value.0| == 12 * 16 && |r.value.1| == 2 * 12 * 16
    ensures r.Ok? ==> Evaluates(m.layers, Tensor(3, 24, 32, features), |m.layers|, env)
    ensures r.Ok? ==> m.heatmap in env && m.offset in env && r.value == (env[m.heatmap].d, env[m.offset].d)
  {
    env := map[];
    if |features| != 3 * 24 * 32 { return Err("heat model input must be 3 x 24 x 32"), env; }
    var input := Tensor(3, 24, 32, features);
    var t;
    ghost var shapes;
    t, shapes := RunAll(m.layers, input);
    OutputsReady(m, input, t, shapes);
    env := t;
    return Ok((t[m.heatmap].d, t[m.offset].d)), env;
  }

  // ---- accepted is runnable ----------------------------------------------------------------------

  /** Row-major places read back as their channel, row and column. */
  lemma AtDigits(h: nat, w: nat, c: nat, y: nat, x: nat)
    requires y < h && x < w
    ensures var i := At(h, w, c, y, x); i % w == x && i / w % h == y && i / w / h == c
  {
    var i := At(h, w, c, y, x);
    assert i == (i / w) * w + i % w;
    Digits(w, i / w, i % w, c * h + y, x);
    assert i / w == (i / w / h) * h + i / w % h;
    Digits(h, i / w / h, i / w % h, c, y);
  }

  type Entries = (nat, nat, nat) -> real

  /** The channel, row and column a place stands for. */
  function Coordinates(h: nat, w: nat, i: nat): (nat, nat, nat)
    requires h > 0 && w > 0
  {
    (i / w / h, i / w % h, i % w)
  }

  function Table(c: nat, h: nat, w: nat, entry: Entries): (r: Tensor)
    requires h > 0 && w > 0
    ensures ValidTensor(r) && r.c == c && r.h == h && r.w == w
  {
    var n := c * h * w;
    Tensor(c, h, w, seq(n, i requires 0 <= i < n => var (p, y, x) := Coordinates(h, w, i); entry(p, y, x)))
  }

  lemma TableAt(c: nat, h: nat, w: nat, entry: Entries, p: nat, y: nat, x: nat)
    requires h > 0 && w > 0 && p < c && y < h && x < w
    ensures Padded(Table(c, h, w, entry), p, y, x) == entry(p, y, x)
  {
    AtBound(c, h, w, p, y, x);
    AtDigits(h, w, p, y, x);
    var i := At(h, w, p, y, x);
    assert Coordinates(h, w, i) == (p, y, x);
  }

  /** Any table of entries is a tensor. */
  lemma Tabulated(c: nat, h: nat, w: nat, entry: Entries) returns (r: Tensor)
    requires h > 0 && w > 0
    ensures ValidTensor(r) && r.c == c && r.h == h && r.w == w
    ensures forall p: nat, y: nat, x: nat :: p < c && y < h && x < w ==> Padded(r, p, y, x) == entry(p, y, x)
  {
    r := Table(c, h, w, entry);
    forall p: nat, y: nat, x: nat | p < c && y < h && x < w ensures Padded(r, p, y, x) == entry(p, y, x) {
      TableAt(c, h, w, entry, p, y, x);
    }
  }

  /** A layer the checker takes has a result. */
  lemma LayerRuns(l: Layer, env: Env, shapes: Shapes) returns (r: Tensor)
    requires ShapedAs(env, shapes) && ShapeAfter(l, shapes).Some?
    ensures LayerOf(l, env, r) && ValidTensor(r) && r.c > 0 && Shape(r.c, r.h, r.w) == ShapeAfter(l, shapes).value
  {
    match l
    case ConvLayer(input, _, conv) =>
      assert input in shapes;
      var x := env[input];
      r := Tabulated(conv.cout, OutSize(x.h, conv), OutSize(x.w, conv),
                     (o: nat, y: nat, u: nat) =>
                       if Fits(x, conv) && o < conv.cout then ConvAt(x, conv, o, y, u) else 0.0);
    case Up2(input, _) =>
      assert input in shapes;
      var x := env[input];
      r := Tabulated(x.c, 2 * x.h, 2 * x.w, (p: nat, y: nat, u: nat) =>
                       if ValidTensor(x) && p < x.c then Padded(x, p, y / 2, u / 2) else 0.0);
    case Add(left, right, _) =>
      assert left in shapes && right in shapes;
      var a, b := env[left], env[right];
      r := a.(d := seq(|a.d|, i requires 0 <= i < |a.d| => a.d[i] + b.d[i]));
  }

  lemma WalkableRuns(layers: seq<Layer>, input: Tensor) returns (t: Env, shapes: Shapes)
    requires Walkable(layers) && ValidTensor(input) && Shape(input.c, input.h, input.w) == Shape(3, 24, 32)
    ensures RunTo(layers, input, |layers|, t, shapes)
  {
    InputReady(layers, input);
    t, shapes := map["x" := input], INPUT_SHAPES;
    for i := 0 to |layers|
      invariant RunTo(layers, input, i, t, shapes)
    {
      EveryLayerFits(layers, i, shapes);
      var out := LayerRuns(layers[i], t, shapes);
      NextLayer(layers, input, i, t, shapes, out);
      t, shapes := t[layers[i].output := out], Grown(shapes, layers[i], out);
    }
  }

  /** The one limit that running a layer does not need. */
  predicate Narrow(l: Layer) { l.ConvLayer? ==> l.conv.cout <= 256 }

  lemma LayerIsShaped(l: Layer, before: Env, env: Env, shapes: Shapes)
    requires Extends(l, before, env) && ShapedAs(before, shapes) && Narrow(l)
    ensures ShapeAfter(l, shapes).Some? && ShapedAs(env, shapes[l.output := ShapeAfter(l, shapes).value])
  {
  }

  lemma {:induction false} RunIsShaped(layers: seq<Layer>, input: Tensor, n: nat, env: Env)
    requires Evaluates(layers, input, n, env) && forall i :: 0 <= i < n ==> Narrow(layers[i])
    requires ValidTensor(input) && Shape(input.c, input.h, input.w) == Shape(3, 24, 32)
    ensures ShapesAfter(layers, n).Some? && ShapedAs(env, ShapesAfter(layers, n).value)
    decreases n
  {
    if n > 0 {
      var l := layers[n - 1];
      var before: Env :| Evaluates(layers, input, n - 1, before) && Extends(l, before, env);
      RunIsShaped(layers, input, n - 1, before);
      LayerIsShaped(l, before, env, ShapesAfter(layers, n - 1).value);
    }
  }

  predicate HasShape(env: Env, name: string, s: Shape) {
    name in env && Shape(env[name].c, env[name].h, env[name].w) == s
  }

  /** The layers can be run on the input, and give the two outputs their shapes. */
  ghost predicate Runs(m: Model, input: Tensor, env: Env) {
    Evaluates(m.layers, input, |m.layers|, env) && HasShape(env, m.heatmap, Shape(1, 12, 16)) &&
      HasShape(env, m.offset, Shape(2, 12, 16))
  }

  /**
   * What the checker accepts is, among the models with a proper header and no convolution over 256
   * channels, exactly what can be run, on any one input or on all of them.
   */
  lemma AcceptedIffRuns(m: Model, input: Tensor)
    requires ValidTensor(input) && Shape(input.c, input.h, input.w) == Shape(3, 24, 32)
    ensures Accepted(m) <==> Header(m) && (forall i :: 0 <= i < |m.layers| ==> Narrow(m.layers[i])) && exists env ::
      Runs(m, input, env)
  {
    if Accepted(m) {
      var env, shapes := WalkableRuns(m.layers, input);
      OutputsReady(m, input, env, shapes);
      assert Runs(m, input, env);
      AcceptedIsNarrow(m, |m.layers|);
    } else if Header(m) && (forall i :: 0 <= i < |m.layers| ==> Narrow(m.layers[i])) {
      if env :| Runs(m, input, env) { RunIsShaped(m.layers, input, |m.layers|, env); }
    }
  }

  lemma {:induction false} AcceptedIsNarrow(m: Model, n: nat)
    requires n <= |m.layers| && ShapesAfter(m.layers, n).Some?
    ensures forall i :: 0 <= i < n ==> Narrow(m.layers[i])
  {
    if n > 0 { AcceptedIsNarrow(m, n - 1); }
  }

  // ---- the result is determined ----------------------------------------------------------------

  /** Two tensors of one shape with the same entry at every coordinate are the same tensor. */
  lemma SameEntries(a: Tensor, b: Tensor)
    requires ValidTensor(a) && ValidTensor(b) && a.c == b.c && a.h == b.h && a.w == b.w
    requires forall c: nat, y: nat, x: nat :: c < a.c && y < a.h && x < a.w ==> Padded(a, c, y, x) == Padded(b, c, y, x)
    ensures a == b
  {
    forall i | 0 <= i < |a.d| ensures a.d[i] == b.d[i] {
      var c, y, x := AtCovers(a.c, a.h, a.w, i);
      assert Padded(a, c, y, x) == Padded(b, c, y, x);
    }
  }

  lemma LayerDetermined(l: Layer, env: Env, a: Tensor, b: Tensor)
    requires LayerOf(l, env, a) && LayerOf(l, env, b)
    ensures a == b
  {
    match l
    case ConvLayer(input, _, conv) =>
      forall c: nat, y: nat, x: nat | c < a.c && y < a.h && x < a.w ensures Padded(a, c, y, x) == Padded(b, c, y, x) {
        assert Padded(a, c, y, x) == ConvAt(env[input], conv, c, y, x);
        assert Padded(b, c, y, x) == ConvAt(env[input], conv, c, y, x);
      }
      SameEntries(a, b);
    case Up2(input, _) =>
      forall c: nat, y: nat, x: nat | c < a.c && y < a.h && x < a.w ensures Padded(a, c, y, x) == Padded(b, c, y, x) {
        assert Padded(a, c, y, x) == Padded(env[input], c, y / 2, x / 2);
        assert Padded(b, c, y, x) == Padded(env[input], c, y / 2, x / 2);
      }
      SameEntries(a, b);
    case Add(_, _, _) =>
      assert a.d == b.d;
  }

  /** The layers and the input leave no choice: the forward pass is a function of them. */
  lemma {:induction false} EvaluationDetermined(layers: seq<Layer>, input: Tensor, n: nat, a: Env, b: Env)
    requires Evaluates(layers, input, n, a) && Evaluates(layers, input, n, b)
    ensures a == b
    decreases n
  {
    if n > 0 {
      var l := layers[n - 1];
      var p: Env :| Evaluates(layers, input, n - 1, p) && Extends(l, p, a);
      var q: Env :| Evaluates(layers, input, n - 1, q) && Extends(l, q, b);
      EvaluationDetermined(layers, input, n - 1, p, q);
      LayerDetermined(l, p, a[l.output], b[l.output]);
    }
  }
}
