/** The rewritten output head of src/visp/arch/birefnet.cpp: a 1x1 convolution of a channel concat computed
    part by part, and moved before a resize. Sums are exact. */
module SplitHead {
  import opened Arith
  import opened Sums
  import opened Tensors

  // ---------------------------------------------------------------------------------------
  // A 1x1 convolution as the program computes it
  // ---------------------------------------------------------------------------------------

  /** Row n of a matrix. */
  function MatrixRow(x: Tensor, n: int): Terms
    requires x.Valid()
  {
    k => x.At(k, n, 0, 0)
  }

  function Multiply(a: real, b: real): real {
    a * b
  }

  /** The products of row o of the weights with a column of values. */
  function ProductTerms(a: Tensor, o: int, values: Terms): Terms
    requires a.Valid()
  {
    k => Multiply(a.At(k, o, 0, 0), values(k))
  }

  function InnerProducts(a: Tensor, x: Tensor): Elements
    requires a.Valid() && x.Valid()
  {
    (o, n, _, _) => Sum(ProductTerms(a, o, MatrixRow(x, n)), a.ne.n0)
  }

  /** `ggml_mul_mat(a, x)` of two matrices: the inner product of every row of x with every row of a. */
  function MulMat(a: Tensor, x: Tensor): (y: Tensor)
    requires a.Valid() && x.Valid()
    ensures y.Valid() && y.ne == Shape(a.ne.n1, x.ne.n1, 1, 1)
  {
    Build(Shape(a.ne.n1, x.ne.n1, 1, 1), InnerProducts(a, x))
  }

  function SliceOf(w2: Tensor, off: nat): Elements
    requires w2.Valid()
  {
    (k, o, _, _) => w2.At(off + k, o, 0, 0)
  }

  /** `ggml_cont(ggml_view_2d(w2, c, oc, ..., off))`: input channels off to off + c of all outputs. */
  function Slice(w2: Tensor, off: nat, c: pos): (s: Tensor)
    requires w2.Valid()
    ensures s.Valid() && s.ne == Shape(c, w2.ne.n1, 1, 1)
  {
    Build(Shape(c, w2.ne.n1, 1, 1), SliceOf(w2, off))
  }

  function Flat(s: Shape): Shape {
    Shape(s.n0, Times(s.n1, Times(s.n2, s.n3)), 1, 1)
  }

  lemma FlatSize(s: Shape)
    ensures Flat(s).Size() == s.Size()
  {
  }

  /** The lambda `conv1x1` of the output head: channels innermost, one matrix product, channels back. */
  function Conv1x1(x: Tensor, ws: Tensor): (y: Tensor)
    requires x.Valid() && ws.Valid()
    ensures y.Valid() && y.ne == Shape(x.ne.n0, x.ne.n1, ws.ne.n1, x.ne.n3)
  {
    var xc := ToCwhn(x);
    FlatSize(xc.ne);
    var y := MulMat(ws, Reshape(xc, Flat(xc.ne)));
    var unflat := Shape(ws.ne.n1, x.ne.n0, x.ne.n1, x.ne.n3);
    FlatSize(unflat);
    ToWhcn(Reshape(y, unflat))
  }

  /** The values of all channels at one place. */
  function ChannelsAt(x: Tensor, w: int, h: int, b: int): Terms
    requires x.Valid()
  {
    c => x.At(w, h, c, b)
  }

  lemma PlaceBound(nw: pos, nh: pos, nb: pos, w: int, h: int, b: int)
    requires 0 <= w < nw && 0 <= h < nh && 0 <= b < nb
    ensures 0 <= (b * nh + h) * nw + w < Times(nw, Times(nh, nb))
  {
    FlatBound(h, b, nh, nb);
    FlatBound(w, b * nh + h, nw, Times(nh, nb));
  }

  /** One row of the flattened input holds the channels at one place. */
  lemma {:induction false} PlaceTerms(x: Tensor, ws: Tensor, w: int, h: int, o: int, b: int)
    requires x.Valid() && ws.Valid() && ws.ne.n0 == x.ne.n2 && x.ne.Has(w, h, 0, b)
    ensures Flat(ToCwhn(x).ne).Size() == ToCwhn(x).ne.Size()
    ensures var flat := Reshape(ToCwhn(x), Flat(ToCwhn(x).ne));
            Sum(ProductTerms(ws, o, MatrixRow(flat, (b * x.ne.n1 + h) * x.ne.n0 + w)), ws.ne.n0)
            == Sum(ProductTerms(ws, o, ChannelsAt(x, w, h, b)), ws.ne.n0)
  {
    hide Sum, Multiply;
    var xc := ToCwhn(x);
    FlatSize(xc.ne);
    var flat, n := Reshape(xc, Flat(xc.ne)), (b * x.ne.n1 + h) * x.ne.n0 + w;
    PlaceBound(x.ne.n0, x.ne.n1, x.ne.n3, w, h, b);
    var f, g := ProductTerms(ws, o, MatrixRow(flat, n)), ProductTerms(ws, o, ChannelsAt(x, w, h, b));
    forall c: int | 0 <= c < ws.ne.n0
      ensures f(c) == g(c)
    {
      BuildAt(xc.ne, CwhnOf(x), c, w, h, b);
    }
    SumEqual(f, g, ws.ne.n0);
  }

  /** What it computes: at every place, the weighted sum of the input channels. */
  lemma {:induction false} Conv1x1At(x: Tensor, ws: Tensor, w: int, h: int, o: int, b: int)
    requires x.Valid() && ws.Valid() && ws.ne.n0 == x.ne.n2 && Conv1x1(x, ws).ne.Has(w, h, o, b)
    ensures Conv1x1(x, ws).At(w, h, o, b) == Sum(ProductTerms(ws, o, ChannelsAt(x, w, h, b)), ws.ne.n0)
  {
    var flat := Reshape(ToCwhn(x), Flat(ToCwhn(x).ne));
    var y := MulMat(ws, flat);
    var n := (b * x.ne.n1 + h) * x.ne.n0 + w;
    PlaceBound(x.ne.n0, x.ne.n1, x.ne.n3, w, h, b);
    BuildAt(y.ne, InnerProducts(ws, flat), o, n, 0, 0);
    BuildAt(Conv1x1(x, ws).ne, WhcnOf(Reshape(y, Shape(ws.ne.n1, x.ne.n0, x.ne.n1, x.ne.n3))), w, h, o, b);
    hide ToCwhn, Sum, ProductTerms, Multiply;
    assert Conv1x1(x, ws).At(w, h, o, b) == y.At(o, n, 0, 0);
    PlaceTerms(x, ws, w, h, o, b);
  }

  // ---------------------------------------------------------------------------------------
  // Part by part
  // ---------------------------------------------------------------------------------------

  /** The same places, whatever the channels. */
  predicate SamePlaces(x: Tensor, y: Tensor) {
    x.ne.n0 == y.ne.n0 && x.ne.n1 == y.ne.n1 && x.ne.n3 == y.ne.n3
  }

  function ConcatOf(x: Tensor, y: Tensor): Elements
    requires x.Valid() && y.Valid()
  {
    (w, h, c, b) => if c < x.ne.n2 then x.At(w, h, c, b) else y.At(w, h, c - x.ne.n2, b)
  }

  /** `ggml_concat(x, y, 2)`. */
  function Concat(x: Tensor, y: Tensor): (z: Tensor)
    requires x.Valid() && y.Valid() && SamePlaces(x, y)
    ensures z.Valid() && z.ne == x.ne.(n2 := x.ne.n2 + y.ne.n2)
  {
    Build(x.ne.(n2 := x.ne.n2 + y.ne.n2), ConcatOf(x, y))
  }

  predicate Parts(parts: seq<Tensor>) {
    |parts| > 0 && forall i :: 0 <= i < |parts| ==> parts[i].Valid() && SamePlaces(parts[i], parts[0])
  }

  /** The concat that the program never builds. */
  function ConcatAll(parts: seq<Tensor>): (z: Tensor)
    requires Parts(parts)
    ensures z.Valid() && SamePlaces(z, parts[0])
  {
    if |parts| == 1 then parts[0]
    else
      var k := |parts| - 1;
      Concat(ConcatAll(parts[..k]), parts[k])
  }

  function SumOf(x: Tensor, y: Tensor): Elements
    requires x.Valid() && y.Valid()
  {
    (w, h, c, b) => x.At(w, h, c, b) + y.At(w, h, c, b)
  }

  /** `ggml_add`. */
  function AddTensors(x: Tensor, y: Tensor): (z: Tensor)
    requires x.Valid() && y.Valid()
    ensures z.Valid() && z.ne == x.ne
  {
    Build(x.ne, SumOf(x, y))
  }

  function Biased(x: Tensor, bias: int -> real): Elements
    requires x.Valid()
  {
    (w, h, o, b) => x.At(w, h, o, b) + bias(o)
  }

  /** A bias per output channel. */
  function AddBias(x: Tensor, bias: int -> real): (z: Tensor)
    requires x.Valid()
    ensures z.Valid() && z.ne == x.ne
  {
    Build(x.ne, Biased(x, bias))
  }

  /** Every element of an output channel is raised by that channel's bias, and nothing moves. */
  lemma AddBiasAt(x: Tensor, bias: int -> real, w: int, h: int, o: int, b: int)
    requires x.Valid() && x.ne.Has(w, h, o, b)
    ensures AddBias(x, bias).At(w, h, o, b) == x.At(w, h, o, b) + bias(o)
  {
    BuildAt(x.ne, Biased(x, bias), w, h, o, b);
  }

  /** The weights of the first c input channels. */
  function First(w2: Tensor, c: pos): (s: Tensor)
    requires w2.Valid()
    ensures s.Valid() && s.ne == Shape(c, w2.ne.n1, 1, 1)
  {
    Slice(w2, 0, c)
  }

  lemma {:induction false} SliceAt(w2: Tensor, off: nat, c: pos, k: int, o: int)
    requires w2.Valid() && 0 <= k < c && 0 <= o < w2.ne.n1
    ensures Slice(w2, off, c).At(k, o, 0, 0) == w2.At(off + k, o, 0, 0)
  {
    BuildAt(Slice(w2, off, c).ne, SliceOf(w2, off), k, o, 0, 0);
  }

  lemma {:induction false} WholeSlice(w2: Tensor)
    requires w2.Valid() && w2.ne.n2 == 1 && w2.ne.n3 == 1
    ensures First(w2, w2.ne.n0) == w2
  {
    forall k, o, i, j | w2.ne.Has(k, o, i, j)
      ensures First(w2, w2.ne.n0).At(k, o, i, j) == w2.At(k, o, i, j)
    {
      SliceAt(w2, 0, w2.ne.n0, k, o);
    }
    SameElements(First(w2, w2.ne.n0), w2);
  }

  lemma {:induction false} LeftTerm(w2: Tensor, x: Tensor, p: Tensor, w: int, h: int, o: int, b: int, c: int)
    requires w2.Valid() && x.Valid() && p.Valid() && SamePlaces(x, p)
    requires 0 <= o < w2.ne.n1 && x.ne.Has(w, h, c, b)
    ensures var cx, cp := x.ne.n2, p.ne.n2;
            ProductTerms(First(w2, cx + cp), o, ChannelsAt(Concat(x, p), w, h, b))(c)
            == ProductTerms(First(w2, cx), o, ChannelsAt(x, w, h, b))(c)
  {
    BuildAt(Concat(x, p).ne, ConcatOf(x, p), w, h, c, b);
    SliceAt(w2, 0, x.ne.n2 + p.ne.n2, c, o);
    SliceAt(w2, 0, x.ne.n2, c, o);
    hide Slice, Concat, Multiply;
  }

  lemma {:induction false} RightTerm(w2: Tensor, x: Tensor, p: Tensor, w: int, h: int, o: int, b: int, c: int)
    requires w2.Valid() && x.Valid() && p.Valid() && SamePlaces(x, p)
    requires 0 <= o < w2.ne.n1 && p.ne.Has(w, h, c, b)
    ensures var cx, cp := x.ne.n2, p.ne.n2;
            ProductTerms(First(w2, cx + cp), o, ChannelsAt(Concat(x, p), w, h, b))(cx + c)
            == ProductTerms(Slice(w2, cx, cp), o, ChannelsAt(p, w, h, b))(c)
  {
    BuildAt(Concat(x, p).ne, ConcatOf(x, p), w, h, x.ne.n2 + c, b);
    SliceAt(w2, 0, x.ne.n2 + p.ne.n2, x.ne.n2 + c, o);
    SliceAt(w2, x.ne.n2, p.ne.n2, c, o);
    hide Slice, Concat, Multiply;
  }

  lemma {:induction false} TermsSplit(w2: Tensor, x: Tensor, p: Tensor, w: int, h: int, o: int, b: int)
    requires w2.Valid() && x.Valid() && p.Valid() && SamePlaces(x, p)
    requires 0 <= o < w2.ne.n1 && x.ne.Has(w, h, 0, b)
    ensures var cx, cp := x.ne.n2, p.ne.n2;
            Sum(ProductTerms(First(w2, cx + cp), o, ChannelsAt(Concat(x, p), w, h, b)), cx + cp)
            == Sum(ProductTerms(First(w2, cx), o, ChannelsAt(x, w, h, b)), cx)
               + Sum(ProductTerms(Slice(w2, cx, cp), o, ChannelsAt(p, w, h, b)), cp)
  {
    var cx, cp := x.ne.n2, p.ne.n2;
    var both := ProductTerms(First(w2, cx + cp), o, ChannelsAt(Concat(x, p), w, h, b));
    var left := ProductTerms(First(w2, cx), o, ChannelsAt(x, w, h, b));
    var right := ProductTerms(Slice(w2, cx, cp), o, ChannelsAt(p, w, h, b));
    hide Sum, ProductTerms, ChannelsAt, First, Slice, Concat;
    forall c: int | 0 <= c < cx
      ensures both(c) == left(c)
    {
      LeftTerm(w2, x, p, w, h, o, b, c);
    }
    forall c: int | 0 <= c < cp
      ensures Shift(both, cx)(c) == right(c)
    {
      RightTerm(w2, x, p, w, h, o, b, c);
    }
    SumSplits(both, cx, cp);
    SumEqual(both, left, cx);
    SumEqual(Shift(both, cx), right, cp);
  }

  /** One more part: the convolution of the longer concat is the sum of two convolutions. */
  lemma {:induction false} OneMorePart(w2: Tensor, x: Tensor, p: Tensor)
    requires w2.Valid() && x.Valid() && p.Valid() && SamePlaces(x, p)
    ensures Conv1x1(Concat(x, p), First(w2, x.ne.n2 + p.ne.n2))
            == AddTensors(Conv1x1(x, First(w2, x.ne.n2)), Conv1x1(p, Slice(w2, x.ne.n2, p.ne.n2)))
  {
    var whole := Conv1x1(Concat(x, p), First(w2, x.ne.n2 + p.ne.n2));
    var left, right := Conv1x1(x, First(w2, x.ne.n2)), Conv1x1(p, Slice(w2, x.ne.n2, p.ne.n2));
    forall w, h, o, b | whole.ne.Has(w, h, o, b)
      ensures whole.At(w, h, o, b) == AddTensors(left, right).At(w, h, o, b)
    {
      BuildAt(left.ne, SumOf(left, right), w, h, o, b);
      Conv1x1At(Concat(x, p), First(w2, x.ne.n2 + p.ne.n2), w, h, o, b);
      Conv1x1At(x, First(w2, x.ne.n2), w, h, o, b);
      Conv1x1At(p, Slice(w2, x.ne.n2, p.ne.n2), w, h, o, b);
      TermsSplit(w2, x, p, w, h, o, b);
    }
    SameElements(whole, AddTensors(left, right));
  }

  /** `conv_1x1_split_sum`: what the plain convolution of the concat gives, whatever the number of parts. */
  method ConvSplitSum(w2: Tensor, parts: seq<Tensor>, bias: int -> real) returns (acc: Tensor)
    requires w2.Valid() && w2.ne.n2 == 1 && w2.ne.n3 == 1
    requires Parts(parts) && ConcatAll(parts).ne.n2 == w2.ne.n0
    ensures acc == AddBias(Conv1x1(ConcatAll(parts), w2), bias)
  {
    hide Conv1x1, Concat, Slice, AddTensors, AddBias;
    acc := Conv1x1(parts[0], Slice(w2, 0, parts[0].ne.n2));
    var off := parts[0].ne.n2;
    assert parts[..1] == [parts[0]];
    for i := 1 to |parts|
      invariant Parts(parts[..i]) && off == ConcatAll(parts[..i]).ne.n2
      invariant acc == Conv1x1(ConcatAll(parts[..i]), First(w2, off))
    {
      var p := parts[i];
      assert parts[..i + 1][..i] == parts[..i];
      var ws := Slice(w2, off, p.ne.n2);
      OneMorePart(w2, ConcatAll(parts[..i]), p);
      acc := AddTensors(acc, Conv1x1(p, ws));
      off := off + p.ne.n2;
    }
    assert parts[..|parts|] == parts;
    WholeSlice(w2);
    acc := AddBias(acc, bias);
  }

  // ---------------------------------------------------------------------------------------
  // Before the resize
  // ---------------------------------------------------------------------------------------

  /** What an output place of a resize takes from the input. */
  datatype Tap = Tap(weight: real, x: int, y: int)

  /** Any resize that is linear in space and treats channels alike. */
  datatype Resize = Resize(w: pos, h: pos, taps: (int, int) -> seq<Tap>)

  ghost predicate Reads(r: Resize, s: Shape) {
    forall i, j, t :: 0 <= t < |r.taps(i, j)| ==>
      0 <= r.taps(i, j)[t].x < s.n0 && 0 <= r.taps(i, j)[t].y < s.n1
  }

  function TapWeights(taps: seq<Tap>): Terms {
    t => if 0 <= t < |taps| then taps[t].weight else 0.0
  }

  function TapChannels(taps: seq<Tap>, x: Tensor, b: int, t: int): Terms
    requires x.Valid()
  {
    if 0 <= t < |taps| then ChannelsAt(x, taps[t].x, taps[t].y, b) else Constant(0.0)
  }

  /** For each tap the values of all channels where it reads. */
  function TapValues(taps: seq<Tap>, x: Tensor, b: int): int -> Terms
    requires x.Valid()
  {
    t => TapChannels(taps, x, b, t)
  }

  function Mixed(coef: Terms, values: int -> Terms, c: int): Terms {
    t => Multiply(coef(t), values(t)(c))
  }

  function Mixture(taps: seq<Tap>, x: Tensor, c: int, b: int): real
    requires x.Valid()
  {
    Sum(Mixed(TapWeights(taps), TapValues(taps, x, b), c), |taps|)
  }

  /** Each tap adds its weight times the element it reads. */
  lemma {:induction false} MixtureGrows(taps: seq<Tap>, tap: Tap, x: Tensor, c: int, b: int)
    requires x.Valid() && 0 <= tap.x < x.ne.n0 && 0 <= tap.y < x.ne.n1 && 0 <= c < x.ne.n2 && 0 <= b < x.ne.n3
    ensures Mixture([], x, c, b) == 0.0
    ensures Mixture(taps + [tap], x, c, b) == Mixture(taps, x, c, b) + tap.weight * x.At(tap.x, tap.y, c, b)
  {
    var longer, n := taps + [tap], |taps|;
    var f := Mixed(TapWeights(longer), TapValues(longer, x, b), c);
    var g := Mixed(TapWeights(taps), TapValues(taps, x, b), c);
    SumEqual(f, g, n);
    assert Sum(f, n + 1) == Sum(f, n) + f(n);
    assert f(n) == Multiply(tap.weight, x.At(tap.x, tap.y, c, b));
  }

  function Interpolated(r: Resize, x: Tensor): Elements
    requires x.Valid()
  {
    (i, j, c, b) => Mixture(r.taps(i, j), x, c, b)
  }

  function Interpolate(r: Resize, x: Tensor): (y: Tensor)
    requires x.Valid()
    ensures y.Valid() && y.ne == x.ne.(n0 := r.w, n1 := r.h)
  {
    Build(x.ne.(n0 := r.w, n1 := r.h), Interpolated(r, x))
  }

  /** Over the channels: the weight times the mixture of m taps. */
  function MixThenWeigh(a: Terms, coef: Terms, values: int -> Terms, m: nat): Terms {
    c => Multiply(a(c), Sum(Mixed(coef, values, c), m))
  }

  function Weighed(a: Terms, values: Terms): Terms {
    c => Multiply(a(c), values(c))
  }

  /** Over the taps: the coefficient times the weighted sum of the channels. */
  function WeighThenMix(a: Terms, coef: Terms, values: int -> Terms, n: nat): Terms {
    t => Multiply(coef(t), Sum(Weighed(a, values(t)), n))
  }

  lemma MultiplyIs(a: real, b: real)
    ensures Multiply(a, b) == a * b && Multiply(a, 0.0) == 0.0
  {
  }

  lemma OneMoreTap(a: real, s: real, k: real, v: real)
    ensures Multiply(a, s + Multiply(k, v)) == Multiply(a, s) + k * Multiply(a, v)
  {
  }

  lemma {:induction false} AddTap(a: Terms, coef: Terms, values: int -> Terms, n: nat, m: nat)
    ensures Sum(MixThenWeigh(a, coef, values, m + 1), n)
            == Sum(MixThenWeigh(a, coef, values, m), n) + WeighThenMix(a, coef, values, n)(m)
  {
    hide Multiply;
    var before, last := MixThenWeigh(a, coef, values, m), Scale(coef(m), Weighed(a, values(m)));
    forall c | 0 <= c < n
      ensures MixThenWeigh(a, coef, values, m + 1)(c) == Plus(before, last)(c)
    {
      assert Sum(Mixed(coef, values, c), m + 1) == Sum(Mixed(coef, values, c), m) + Mixed(coef, values, c)(m);
      OneMoreTap(a(c), Sum(Mixed(coef, values, c), m), coef(m), values(m)(c));
    }
    hide Sum;
    SumEqual(MixThenWeigh(a, coef, values, m + 1), Plus(before, last), n);
    SumAdds(before, last, n);
    SumScales(coef(m), Weighed(a, values(m)), n);
    MultiplyIs(coef(m), Sum(Weighed(a, values(m)), n));
  }

  /** The two sums may be exchanged. */
  lemma {:induction false} Exchange(a: Terms, coef: Terms, values: int -> Terms, n: nat, m: nat)
    ensures Sum(MixThenWeigh(a, coef, values, m), n) == Sum(WeighThenMix(a, coef, values, n), m)
  {
    if m == 0 {
      forall c | 0 <= c < n
        ensures MixThenWeigh(a, coef, values, 0)(c) == Constant(0.0)(c)
      {
        assert Sum(Mixed(coef, values, c), 0) == 0.0;
        MultiplyIs(a(c), 0.0);
      }
      SumEqual(MixThenWeigh(a, coef, values, 0), Constant(0.0), n);
      SumOfConstant(0.0, n);
    } else {
      Exchange(a, coef, values, n, m - 1);
      AddTap(a, coef, values, n, m - 1);
    }
  }

  /** The weights of output channel o. */
  function WeightRow(ws: Tensor, o: int): Terms
    requires ws.Valid()
  {
    c => ws.At(c, o, 0, 0)
  }

  lemma {:induction false} TapsOfProducts(
      x: Tensor, ws: Tensor, taps: seq<Tap>, o: int, b: int, t: int)
    requires x.Valid() && ws.Valid() && ws.ne.n0 == x.ne.n2 && 0 <= t < |taps| && 0 <= o < ws.ne.n1 && 0 <= b < x.ne.n3
    requires 0 <= taps[t].x < x.ne.n0 && 0 <= taps[t].y < x.ne.n1
    ensures Mixed(TapWeights(taps), TapValues(taps, Conv1x1(x, ws), b), o)(t)
            == WeighThenMix(WeightRow(ws, o), TapWeights(taps), TapValues(taps, x, b), ws.ne.n0)(t)
  {
    Conv1x1At(x, ws, taps[t].x, taps[t].y, o, b);
    hide Conv1x1, Sum, Multiply;
    SumEqual(ProductTerms(ws, o, ChannelsAt(x, taps[t].x, taps[t].y, b)),
             Weighed(WeightRow(ws, o), TapValues(taps, x, b)(t)), ws.ne.n0);
  }

  lemma {:induction false} ResizedChannels(
      r: Resize, x: Tensor, ws: Tensor, i: int, j: int, o: int, b: int)
    requires x.Valid() && ws.Valid() && ws.ne.n0 == x.ne.n2
    requires 0 <= i < r.w && 0 <= j < r.h && 0 <= o < ws.ne.n1 && 0 <= b < x.ne.n3
    ensures var taps := r.taps(i, j);
            Sum(ProductTerms(ws, o, ChannelsAt(Interpolate(r, x), i, j, b)), ws.ne.n0)
            == Sum(MixThenWeigh(WeightRow(ws, o), TapWeights(taps), TapValues(taps, x, b), |taps|), ws.ne.n0)
  {
    hide Sum, Multiply;
    var taps := r.taps(i, j);
    var f := ProductTerms(ws, o, ChannelsAt(Interpolate(r, x), i, j, b));
    var g := MixThenWeigh(WeightRow(ws, o), TapWeights(taps), TapValues(taps, x, b), |taps|);
    forall c | 0 <= c < ws.ne.n0
      ensures f(c) == g(c)
    {
      BuildAt(Interpolate(r, x).ne, Interpolated(r, x), i, j, c, b);
    }
    SumEqual(f, g, ws.ne.n0);
  }

  /** At every place of the result, convolving after the resize and before it give the same. */
  lemma {:induction false} ConvCommutesAt(
      r: Resize, x: Tensor, ws: Tensor, i: int, j: int, o: int, b: int)
    requires x.Valid() && ws.Valid() && ws.ne.n0 == x.ne.n2 && Reads(r, x.ne)
    requires 0 <= i < r.w && 0 <= j < r.h && 0 <= o < ws.ne.n1 && 0 <= b < x.ne.n3
    ensures Conv1x1(Interpolate(r, x), ws).At(i, j, o, b) == Interpolate(r, Conv1x1(x, ws)).At(i, j, o, b)
  {
    hide Conv1x1, Sum, Multiply;
    var taps, n := r.taps(i, j), ws.ne.n0;
    var a, coef, values := WeightRow(ws, o), TapWeights(taps), TapValues(taps, x, b);
    Conv1x1At(Interpolate(r, x), ws, i, j, o, b);
    ResizedChannels(r, x, ws, i, j, o, b);
    Exchange(a, coef, values, n, |taps|);
    BuildAt(Interpolate(r, Conv1x1(x, ws)).ne, Interpolated(r, Conv1x1(x, ws)), i, j, o, b);
    var mixed := Mixed(coef, TapValues(taps, Conv1x1(x, ws), b), o);
    forall t | 0 <= t < |taps|
      ensures mixed(t) == WeighThenMix(a, coef, values, n)(t)
    {
      TapsOfProducts(x, ws, taps, o, b, t);
    }
    SumEqual(mixed, WeighThenMix(a, coef, values, n), |taps|);
  }

  /** A 1x1 convolution commutes with every resize that is linear in space. */
  lemma {:induction false} ConvCommutesWithResize(r: Resize, x: Tensor, ws: Tensor)
    requires x.Valid() && ws.Valid() && ws.ne.n0 == x.ne.n2 && Reads(r, x.ne)
    ensures Conv1x1(Interpolate(r, x), ws) == Interpolate(r, Conv1x1(x, ws))
  {
    hide Conv1x1;
    var left, right := Conv1x1(Interpolate(r, x), ws), Interpolate(r, Conv1x1(x, ws));
    forall i, j, o, b | left.ne.Has(i, j, o, b)
      ensures left.At(i, j, o, b) == right.At(i, j, o, b)
    {
      ConvCommutesAt(r, x, ws, i, j, o, b);
    }
    SameElements(left, right);
  }

  /** The fused head of `decode` gives what upscaling, concatenating, convolving and adding the bias give:
      the coarse part is convolved before it is upscaled, and the concat is never built. */
  lemma {:induction false} FusedHeadIsPlainHead(r: Resize, coarse: Tensor, fine: Tensor, w2: Tensor, bias: int -> real)
    requires coarse.Valid() && fine.Valid() && w2.Valid() && w2.ne.n2 == 1 && w2.ne.n3 == 1
    requires Reads(r, coarse.ne) && fine.ne.n0 == r.w && fine.ne.n1 == r.h && fine.ne.n3 == coarse.ne.n3
    requires w2.ne.n0 == coarse.ne.n2 + fine.ne.n2
    ensures AddBias(AddTensors(Interpolate(r, Conv1x1(coarse, Slice(w2, 0, coarse.ne.n2))),
                               Conv1x1(fine, Slice(w2, coarse.ne.n2, fine.ne.n2))), bias)
            == AddBias(Conv1x1(Concat(Interpolate(r, coarse), fine), w2), bias)
  {
    hide Conv1x1, Interpolate, Concat, AddTensors, AddBias, Slice;
    OneMorePart(w2, Interpolate(r, coarse), fine);
    WholeSlice(w2);
    ConvCommutesWithResize(r, coarse, Slice(w2, 0, coarse.ne.n2));
  }
}
