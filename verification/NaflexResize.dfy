/** `resize_bilinear_u8` of src/siglip2/preproc.cpp in exact arithmetic: the antialias filter along the
    columns, then along the rows, of an image whose channels are interleaved. */
module NaflexResize {
  import opened AaFilter
  import opened Arith
  import opened Images
  import opened NaflexSize
  import opened Sums

  newtype u8 = x: int | 0 <= x < 256

  /** The taps of a filter on a line of n samples, the ends repeated. */
  function Tapped(f: Triangle, samples: Terms, n: int): Terms
    requires f.radius >= 1.0
  {
    t => Weights(f)(t) * samples(Clamp(f.First() + t, 0, n - 1))
  }

  function Blend(f: Triangle, samples: Terms, n: int): real
    requires f.radius >= 1.0
  {
    if f.Taps() < 0 then 0.0 else Sum(Tapped(f, samples, n), f.Taps())
  }

  /** A filtered value lies between the smallest and the largest sample. */
  lemma {:induction false} BlendWithin(f: Triangle, samples: Terms, n: int, lo: real, hi: real)
    requires f.radius >= 1.0 && 1 <= n && forall k :: 0 <= k < n ==> lo <= samples(k) <= hi
    ensures lo <= Blend(f, samples, n) <= hi
  {
    hide Sum;
    WeightsAreConvex(f);
    var w, g, m := Weights(f), Tapped(f, samples, n), f.Taps();
    forall t | 0 <= t < m
      ensures Scale(lo, w)(t) <= g(t) <= Scale(hi, w)(t)
    {
      var v := samples(Clamp(f.First() + t, 0, n - 1));
      ProductMonotone(lo, v, w(t));
      ProductMonotone(v, hi, w(t));
    }
    SumMonotone(Scale(lo, w), g, m);
    SumMonotone(g, Scale(hi, w), m);
    SumScales(lo, w, m);
    SumScales(hi, w, m);
  }

  lemma SameSizeTriangle(n: int, i: int)
    requires 1 <= n
    ensures TriangleFor(n, n, i) == Triangle(i as real, 1.0)
  {
  }

  lemma UnitHeights(f: Triangle, i: int)
    requires f == Triangle(i as real, 1.0)
    ensures f.Height(i - 1) == 0.0 && f.Height(i) == 1.0 && f.Height(i + 1) == 0.0
  {
  }

  lemma {:induction false} UnitTriangle(f: Triangle, i: int)
    requires f == Triangle(i as real, 1.0)
    ensures f.First() == i - 1 && f.Taps() == 3
    ensures Weights(f)(0) == 0.0 && Weights(f)(1) == 1.0 && Weights(f)(2) == 0.0
  {
    assert f.First() == i - 1 && f.Last() == i + 1;
    var h := Heights(f);
    UnitHeights(f, i);
    assert h(0) == 0.0 && h(1) == 1.0 && h(2) == 0.0;
    assert Sum(h, 1) == Sum(h, 0) + h(0);
    assert Sum(h, 2) == Sum(h, 1) + h(1);
    assert Sum(h, 3) == Sum(h, 2) + h(2);
    assert Total(f) == 1.0;
  }

  lemma {:induction false} BlendUnit(f: Triangle, samples: Terms, n: int, i: int)
    requires f == Triangle(i as real, 1.0) && 0 <= i < n
    ensures Blend(f, samples, n) == samples(i)
  {
    UnitTriangle(f, i);
    var g := Tapped(f, samples, n);
    hide Weights;
    assert g(0) == 0.0 && g(2) == 0.0 && g(1) == samples(i);
    assert Sum(g, 1) == Sum(g, 0) + g(0);
    assert Sum(g, 2) == Sum(g, 1) + g(1);
    assert Sum(g, 3) == Sum(g, 2) + g(2);
  }

  /** Without a change of size the filter picks the sample itself. */
  lemma {:induction false} BlendSameSize(n: int, i: int, samples: Terms)
    requires 0 <= i < n
    ensures Blend(TriangleFor(n, n, i), samples, n) == samples(i)
  {
    SameSizeTriangle(n, i);
    hide TriangleFor;
    BlendUnit(TriangleFor(n, n, i), samples, n, i);
  }

  /** Output sample i, seen as a point of the source: pixel centres lie at halves. */
  predicate LiesAt(src: int, dst: int, i: int, c: real) {
    (2.0 * c + 1.0) * dst as real == (2 * i + 1) as real * src as real
  }

  /** The filter of output sample i is centred on that point and reaches one sample of the coarser of the two
      images to either side. */
  lemma TriangleLies(src: int, dst: int, i: int)
    requires 1 <= src && 1 <= dst
    ensures var f := TriangleFor(src, dst, i);
            LiesAt(src, dst, i, f.center) && f.radius * dst as real == Max(src, dst) as real
  {
    var s, d, x := src as real, dst as real, i as real;
    var q := s / d;
    assert q * d == s;
    assert (x + 0.5) * q * d == (x + 0.5) * s;
    assert q < 1.0 <==> s < d;
  }

  lemma EnlargingTriangle(src: int, dst: int, i: int, c: real)
    requires 1 <= src <= dst && LiesAt(src, dst, i, c)
    ensures TriangleFor(src, dst, i) == Triangle(c, 1.0)
  {
    var s, d, x := src as real, dst as real, i as real;
    var q := s / d;
    assert q * d == s;
    assert q <= 1.0;
    assert (x + 0.5) * q * d == (x + 0.5) * s;
    assert ((x + 0.5) * q - (c + 0.5)) * d == 0.0;
  }

  lemma {:induction false} TwoTaps(f: Triangle, k: int, a: real)
    requires f == Triangle(k as real + a, 1.0) && 0.0 < a < 1.0
    ensures f.First() == k && f.Taps() == 2 && Weights(f)(0) == 1.0 - a && Weights(f)(1) == a
  {
    assert f.First() == k && f.Last() == k + 1;
    var h := Heights(f);
    assert f.Height(k) == 1.0 - a && f.Height(k + 1) == a;
    assert h(0) == 1.0 - a && h(1) == a;
    assert Sum(h, 1) == Sum(h, 0) + h(0);
    assert Sum(h, 2) == Sum(h, 1) + h(1);
    assert Total(f) == 1.0;
  }

  lemma {:induction false} BlendTwo(f: Triangle, samples: Terms, n: int, k: int, a: real)
    requires f == Triangle(k as real + a, 1.0) && 0.0 < a < 1.0
    ensures Blend(f, samples, n) == (1.0 - a) * samples(Clamp(k, 0, n - 1)) + a * samples(Clamp(k + 1, 0, n - 1))
  {
    TwoTaps(f, k, a);
    var g := Tapped(f, samples, n);
    hide Weights;
    assert g(0) == (1.0 - a) * samples(Clamp(k, 0, n - 1)) && g(1) == a * samples(Clamp(k + 1, 0, n - 1));
    assert Sum(g, 1) == Sum(g, 0) + g(0);
    assert Sum(g, 2) == Sum(g, 1) + g(1);
  }

  lemma PositiveFactor(x: real, d: real, y: real, s: real)
    requires d > 0.0 && y > 0.0 && s > 0.0 && x * d == y * s
    ensures x > 0.0
  {
    assert y * s > 0.0;
  }

  lemma LiesInside(src: int, dst: int, i: int, c: real)
    requires 1 <= src && 0 <= i < dst && LiesAt(src, dst, i, c)
    ensures -0.5 < c < src as real - 0.5
  {
    var n, d, s := (2 * i + 1) as real, dst as real, src as real;
    var t := 2.0 * c + 1.0;
    assert t * d == n * s;
    assert (2.0 * s - t) * d == 2.0 * s * d - t * d;
    assert (2.0 * d - n) * s == 2.0 * s * d - n * s;
    PositiveFactor(t, d, n, s);
    PositiveFactor(2.0 * s - t, d, 2.0 * d - n, s);
  }

  /** Where the filter does not shrink it interpolates linearly between the two samples around that point. */
  lemma {:induction false} BlendInterpolates(src: int, dst: int, i: int, c: real, samples: Terms)
    requires 1 <= src <= dst && 0 <= i < dst && LiesAt(src, dst, i, c)
    ensures var k, a := c.Floor, c - c.Floor as real;
            Blend(TriangleFor(src, dst, i), samples, src) ==
              (1.0 - a) * samples(Clamp(k, 0, src - 1)) + a * samples(Clamp(k + 1, 0, src - 1))
  {
    hide TriangleFor, Blend, LiesAt;
    LiesInside(src, dst, i, c);
    EnlargingTriangle(src, dst, i, c);
    var k, a := c.Floor, c - c.Floor as real;
    if a > 0.0 {
      BlendTwo(TriangleFor(src, dst, i), samples, src, k, a);
    } else {
      BlendUnit(TriangleFor(src, dst, i), samples, src, k);
    }
  }

  // ---------------------------------------------------------------------------------------
  // The two passes
  // ---------------------------------------------------------------------------------------

  /** The sizes of a resize. Rows of `ch` interleaved channels. */
  datatype Sizes = Sizes(sw: int, sh: int, dw: int, dh: int, ch: int) {
    predicate Valid() {
      1 <= sw && 1 <= sh && 1 <= dw && 1 <= dh && 1 <= ch <= 8
    }

    /** Samples in a row of the source, and of the result. */
    function SourceRow(): int {
      sw * ch
    }

    function TargetRow(): int {
      dw * ch
    }
  }

  function Reals(src: seq<u8>): (r: seq<real>)
    ensures |r| == |src|
  {
    seq(|src|, i requires 0 <= i < |src| => src[i] as real)
  }

  predicate IsSource(src: seq<u8>, z: Sizes) {
    z.Valid() && IsImage(Reals(src), z.SourceRow(), z.sh)
  }

  function Source(src: seq<u8>, z: Sizes): Field
    requires IsSource(src, z)
  {
    Clamped(Reals(src), z.SourceRow(), z.sh)
  }

  /** After the first pass: every column filtered. */
  function Tall(f: Field, z: Sizes): Field
    requires z.Valid()
  {
    (j, y) => Blend(TriangleFor(z.sh, z.dh, y), Column(f, j), z.sh)
  }

  /** One channel of a row. */
  function ChannelRow(f: Field, z: Sizes, c: int, y: int): Terms {
    x => f(x * z.ch + c, y)
  }

  /** After the second pass: every row of each channel filtered. */
  function Wide(f: Field, z: Sizes): Field
    requires z.Valid()
  {
    (j, y) => Blend(TriangleFor(z.sw, z.dw, j / z.ch), ChannelRow(f, z, j % z.ch, y), z.sw)
  }

  /** `lrintf`: to the nearest whole number, to the even one halfway between two. */
  function RoundEven(v: real): int {
    var n := (v + 0.5).Floor;
    if n as real == v + 0.5 && n % 2 != 0 then n - 1 else n
  }

  /** Nearest, and even halfway; and no other number is. */
  lemma RoundsToNearest(v: real, n: int)
    ensures RoundEven(v) == n <==>
      n as real - 0.5 <= v <= n as real + 0.5 && (v == n as real - 0.5 || v == n as real + 0.5 ==> n % 2 == 0)
  {
  }

  function ToByte(v: real): u8 {
    Clamp(RoundEven(v), 0, 255) as u8
  }

  function ByteAt(f: Field, row: int, k: int): u8 {
    if row == 0 then 0 else ToByte(f(k % row, k / row))
  }

  /** The resized image. */
  function Resized(src: seq<u8>, z: Sizes): (r: seq<u8>)
    requires IsSource(src, z)
    ensures |r| == z.TargetRow() * z.dh
  {
    FlatBound(0, 0, z.dw, z.ch);
    FlatBound(0, 0, z.TargetRow(), z.dh);
    var f := Wide(Tall(Source(src, z), z), z);
    seq(z.TargetRow() * z.dh, k => ByteAt(f, z.TargetRow(), k))
  }

  // ---------------------------------------------------------------------------------------
  // What resizing keeps
  // ---------------------------------------------------------------------------------------

  lemma RoundWithin(v: real, lo: u8, hi: u8)
    requires lo as real <= v <= hi as real
    ensures lo <= ToByte(v) <= hi
  {
  }

  lemma {:induction false} TallWithin(src: seq<u8>, z: Sizes, lo: real, hi: real, x: int, c: int, y: int)
    requires IsSource(src, z) && forall i :: 0 <= i < |src| ==> lo <= src[i] as real <= hi
    ensures lo <= Tall(Source(src, z), z)(x * z.ch + c, y) <= hi
  {
    var j := x * z.ch + c;
    forall k | 0 <= k < z.sh
      ensures lo <= Column(Source(src, z), j)(k) <= hi
    {
      PixelRepeats(Reals(src), z.SourceRow(), z.sh, j, k);
      PixelInside(Reals(src), z.SourceRow(), z.sh, Clamp(j, 0, z.SourceRow() - 1), k);
    }
    BlendWithin(TriangleFor(z.sh, z.dh, y), Column(Source(src, z), j), z.sh, lo, hi);
  }

  lemma {:induction false} ChannelWithin(src: seq<u8>, z: Sizes, lo: u8, hi: u8, c: int, y: int)
    requires IsSource(src, z) && forall i :: 0 <= i < |src| ==> lo <= src[i] <= hi
    ensures forall x :: lo as real <= ChannelRow(Tall(Source(src, z), z), z, c, y)(x) <= hi as real
  {
    hide Tall, Source;
    forall x
      ensures lo as real <= ChannelRow(Tall(Source(src, z), z), z, c, y)(x) <= hi as real
    {
      TallWithin(src, z, lo as real, hi as real, x, c, y);
    }
  }

  /** No sample of the result leaves the range of the source: in particular a plain image stays plain. */
  lemma {:induction false} ResizeKeepsRange(src: seq<u8>, z: Sizes, lo: u8, hi: u8, k: int)
    requires IsSource(src, z) && forall i :: 0 <= i < |src| ==> lo <= src[i] <= hi
    requires 0 <= k < |Resized(src, z)|
    ensures lo <= Resized(src, z)[k] <= hi
  {
    hide Blend, Tall, Source, ToByte, ChannelRow;
    var row := z.TargetRow();
    FlatBound(0, 0, z.dw, z.ch);
    var j, y := k % row, k / row;
    var tall := Tall(Source(src, z), z);
    ChannelWithin(src, z, lo, hi, j % z.ch, y);
    BlendWithin(TriangleFor(z.sw, z.dw, j / z.ch), ChannelRow(tall, z, j % z.ch, y), z.sw, lo as real, hi as real);
    RoundWithin(Wide(tall, z)(j, y), lo, hi);
  }

  lemma WholeStays(v: u8)
    ensures ToByte(v as real) == v
  {
  }

  lemma {:induction false} SameSample(src: seq<u8>, z: Sizes, k: int)
    requires IsSource(src, z) && z.dw == z.sw && z.dh == z.sh && 0 <= k < |src|
    ensures k < |Resized(src, z)| && Resized(src, z)[k] == src[k]
  {
    hide Blend, TriangleFor;
    var row := z.TargetRow();
    FlatSplit(k, row, z.dh);
    var j, y := k % row, k / row;
    FlatSplit(j, z.ch, z.dw);
    var tall := Tall(Source(src, z), z);
    BlendSameSize(z.sw, j / z.ch, ChannelRow(tall, z, j % z.ch, y));
    BlendSameSize(z.sh, y, Column(Source(src, z), j));
    PixelInside(Reals(src), row, z.sh, j, y);
    assert Wide(tall, z)(j, y) == src[k] as real;
    WholeStays(src[k]);
  }

  /** Resizing to the same size changes nothing. */
  lemma {:induction false} ResizeSameSize(src: seq<u8>, z: Sizes)
    requires IsSource(src, z) && z.dw == z.sw && z.dh == z.sh
    ensures Resized(src, z) == src
  {
    forall k | 0 <= k < |src|
      ensures Resized(src, z)[k] == src[k]
    {
      SameSample(src, z, k);
    }
  }
}
