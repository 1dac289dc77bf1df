/** The loops of `resize_bilinear_u8` in src/siglip2/preproc.cpp. */
module NaflexResizeLoops {
  import opened AaFilter
  import opened Arith
  import opened Images
  import opened NaflexResize
  import opened Sums

  // ---------------------------------------------------------------------------------------
  // Filter tables
  // ---------------------------------------------------------------------------------------

  /** `AAFilter1D` once it is built. */
  datatype Filter = Filter(maxTaps: int, first: seq<int>, taps: seq<int>, weights: seq<real>)

  ghost predicate IsFilter(f: Filter, src: int, dst: int) {
    && 1 <= src && 1 <= dst && f.maxTaps == MaxTaps(src, dst) && |f.first| == |f.taps| == dst
    && TapsBuilt(f.first, f.taps, src, dst, dst)
    && IsImage(f.weights, f.maxTaps, dst) && f.weights == Draw(WeightTable(src, dst), f.maxTaps, dst)
  }

  method Build(src: int, dst: int) returns (f: Filter)
    requires 1 <= src && 1 <= dst
    ensures IsFilter(f, src, dst)
  {
    var maxTaps, first, taps, weights := BuildAaFilter(src, dst);
    f := Filter(maxTaps, first[..], taps[..], weights[..]);
  }

  lemma FilterRow(f: Filter, src: int, dst: int, i: int)
    requires IsFilter(f, src, dst) && 0 <= i < dst
    ensures TriangleFor(src, dst, i).radius >= 1.0
    ensures f.first[i] == TriangleFor(src, dst, i).First() && f.taps[i] == TriangleFor(src, dst, i).Taps()
    ensures 1 <= f.taps[i] < f.maxTaps
  {
  }

  /** The weight of tap t of output sample i. */
  function TapWeight(f: Filter, i: int, t: int): real {
    var k := i * f.maxTaps + t;
    if 0 <= k < |f.weights| then f.weights[k] else 0.0
  }

  lemma {:induction false} FilterTap(f: Filter, src: int, dst: int, i: int, t: int)
    requires IsFilter(f, src, dst) && 0 <= i < dst && 0 <= t < f.taps[i]
    ensures TriangleFor(src, dst, i).radius >= 1.0
    ensures TapWeight(f, i, t) == Weights(TriangleFor(src, dst, i))(t)
  {
    hide TriangleFor, Weights, MaxTaps;
    FilterRow(f, src, dst, i);
    PixelInside(f.weights, f.maxTaps, dst, t, i);
    DrawAt(WeightTable(src, dst), f.maxTaps, dst, t, i);
  }

  function Weighted(w: real, v: real): real {
    w * v
  }

  // ---------------------------------------------------------------------------------------
  // Accumulating the channels of one pixel
  // ---------------------------------------------------------------------------------------

  /** The terms that each channel of a pixel adds up. */
  type PixelTerms = int -> Terms

  /** Channels below c hold the sum of t + 1 terms, the others of t. */
  ghost predicate Summed(s: seq<real>, base: int, ch: int, g: PixelTerms, t: nat, c: int) {
    forall k :: 0 <= base <= k < base + ch <= |s| ==> s[k] == Sum(g(k - base), if k - base < c then t + 1 else t)
  }

  lemma SummedStep(s: seq<real>, r: seq<real>, base: int, ch: int, g: PixelTerms, t: nat, c: int)
    requires 0 <= base && base + ch <= |s| && 0 <= c < ch && Summed(s, base, ch, g, t, c)
    requires r == s[base + c := s[base + c] + g(c)(t)]
    ensures Summed(r, base, ch, g, t, c + 1)
  {
  }

  lemma SummedNext(s: seq<real>, base: int, ch: int, g: PixelTerms, t: nat)
    requires Summed(s, base, ch, g, t, ch)
    ensures Summed(s, base, ch, g, t + 1, 0)
  {
  }

  ghost predicate SameOutside(s: seq<real>, r: seq<real>, base: int, ch: int) {
    |s| == |r| && forall k :: 0 <= k < |s| && !(base <= k < base + ch) ==> r[k] == s[k]
  }

  // ---------------------------------------------------------------------------------------
  // First pass
  // ---------------------------------------------------------------------------------------

  function DownTerms(src: seq<u8>, z: Sizes, x: int, y: int): PixelTerms
    requires IsSource(src, z)
  {
    c => Tapped(TriangleFor(z.sh, z.dh, y), Column(Source(src, z), x * z.ch + c), z.sh)
  }

  /** Where pixel (x, y) starts in an image of rows of w pixels. */
  lemma PixelStart(z: Sizes, w: int, h: int, x: int, y: int)
    requires z.Valid() && 1 <= w && 0 <= x < w && 0 <= y < h
    ensures (y * w + x) * z.ch == y * (w * z.ch) + x * z.ch
    ensures 0 <= x * z.ch && x * z.ch + z.ch <= w * z.ch
    ensures 0 <= (y * w + x) * z.ch && (y * w + x) * z.ch + z.ch <= (w * z.ch) * h
  {
    FlatBound(z.ch - 1, x, z.ch, w);
    MulMono(0, x, z.ch);
    FlatBound(x * z.ch + z.ch - 1, y, w * z.ch, h);
    MulMono(0, y, w * z.ch);
  }

  function SourceAt(z: Sizes, x: int, y: int): int {
    (y * z.sw + x) * z.ch
  }

  /** Sample c of pixel x of row y of the source. */
  lemma {:induction false} SourceSample(src: seq<u8>, z: Sizes, x: int, c: int, y: int)
    requires IsSource(src, z) && 0 <= x < z.sw && 0 <= c < z.ch && 0 <= y < z.sh
    ensures 0 <= SourceAt(z, x, y) + c < |src|
    ensures Column(Source(src, z), x * z.ch + c)(y) == src[SourceAt(z, x, y) + c] as real
  {
    PixelStart(z, z.sw, z.sh, x, y);
    PixelInside(Reals(src), z.SourceRow(), z.sh, x * z.ch + c, y);
  }

  lemma TermOf(f: Triangle, samples: Terms, n: int, t: int, w: real, k0: int, v: real)
    requires f.radius >= 1.0 && w == Weights(f)(t) && k0 == f.First() && v == samples(Clamp(k0 + t, 0, n - 1))
    ensures Tapped(f, samples, n)(t) == Weighted(w, v)
  {
  }

  lemma ClampInside(k: int, n: int)
    requires 1 <= n
    ensures 0 <= Clamp(k, 0, n - 1) < n
  {
  }

  lemma DownTermIs(src: seq<u8>, z: Sizes, x: int, y: int, c: int, t: int, w: real, k0: int, v: real)
    requires IsSource(src, z) && TriangleFor(z.sh, z.dh, y).radius >= 1.0
    requires w == Weights(TriangleFor(z.sh, z.dh, y))(t) && k0 == TriangleFor(z.sh, z.dh, y).First()
    requires v == Column(Source(src, z), x * z.ch + c)(Clamp(k0 + t, 0, z.sh - 1))
    ensures DownTerms(src, z, x, y)(c)(t) == Weighted(w, v)
  {
    assert 1 <= z.sh && 1 <= z.dh;
    hide Weights, TriangleFor, Source, IsSource, Tapped, Column;
    TermOf(TriangleFor(z.sh, z.dh, y), Column(Source(src, z), x * z.ch + c), z.sh, t, w, k0, v);
  }

  /** What tap t adds to channel c. */
  lemma {:induction false} DownTerm(src: seq<u8>, z: Sizes, fy: Filter, x: int, y: int, c: int, t: int)
    requires IsSource(src, z) && IsFilter(fy, z.sh, z.dh) && 0 <= x < z.sw && 0 <= y < z.dh
    requires 0 <= c < z.ch && 0 <= t < fy.taps[y]
    ensures var at := SourceAt(z, x, Clamp(fy.first[y] + t, 0, z.sh - 1)) + c;
            && 0 <= at < |src|
            && DownTerms(src, z, x, y)(c)(t) == Weighted(TapWeight(fy, y, t), src[at] as real)
  {
    assert 1 <= z.sh && y < |fy.first|;
    ClampInside(fy.first[y] + t, z.sh);
    hide *;
    var sy := Clamp(fy.first[y] + t, 0, z.sh - 1);
    FilterRow(fy, z.sh, z.dh, y);
    FilterTap(fy, z.sh, z.dh, y, t);
    SourceSample(src, z, x, c, sy);
    DownTermIs(src, z, x, y, c, t, TapWeight(fy, y, t), fy.first[y], src[SourceAt(z, x, sy) + c] as real);
  }

  lemma DownTermAt(src: seq<u8>, z: Sizes, fy: Filter, x: int, y: int, t: int)
    requires IsSource(src, z) && IsFilter(fy, z.sh, z.dh) && 0 <= x < z.sw && 0 <= y < z.dh && 0 <= t < fy.taps[y]
    ensures z.ch >= 1 && y < |fy.first|
  {
  }

  lemma NothingOutside(s: seq<real>, base: int, ch: int)
    ensures SameOutside(s, s, base, ch)
  {
  }

  lemma StillOutside(before: seq<real>, s: seq<real>, r: seq<real>, base: int, ch: int, c: int)
    requires SameOutside(before, s, base, ch) && 0 <= c < ch && 0 <= base + c < |s| && |r| == |s|
    requires r == s[base + c := r[base + c]]
    ensures SameOutside(before, r, base, ch)
  {
  }

  /** Tap t of one pixel of the intermediate image, for all channels. */
  method AddTapDown(src: seq<u8>, tmp: array<real>, z: Sizes, fy: Filter, x: int, y: int, t: int, base: int)
    requires IsSource(src, z) && IsFilter(fy, z.sh, z.dh) && 0 <= x < z.sw && 0 <= y < z.dh && 0 <= t < fy.taps[y]
    requires 0 <= base && base + z.ch <= tmp.Length
    requires Summed(tmp[..], base, z.ch, DownTerms(src, z, x, y), t, 0)
    modifies tmp
    ensures Summed(tmp[..], base, z.ch, DownTerms(src, z, x, y), t + 1, 0)
    ensures SameOutside(old(tmp[..]), tmp[..], base, z.ch)
  {
    hide IsSource, IsFilter, DownTerms, Summed, SameOutside, Weighted, TapWeight;
    ghost var g, before := DownTerms(src, z, x, y), tmp[..];
    DownTermAt(src, z, fy, x, y, t);
    var sy := Clamp(fy.first[y] + t, 0, z.sh - 1);
    var w := TapWeight(fy, y, t);
    var sp := SourceAt(z, x, sy);
    NothingOutside(before, base, z.ch);
    for c := 0 to z.ch
      invariant Summed(tmp[..], base, z.ch, g, t, c) && SameOutside(before, tmp[..], base, z.ch)
    {
      DownTerm(src, z, fy, x, y, c, t);
      ghost var s := tmp[..];
      tmp[base + c] := tmp[base + c] + Weighted(w, src[sp + c] as real);
      SummedStep(s, tmp[..], base, z.ch, g, t, c);
      StillOutside(before, s, tmp[..], base, z.ch, c);
    }
    SummedNext(tmp[..], base, z.ch, g, t);
  }

  method Clear(tmp: array<real>, base: int, ch: int)
    requires 0 <= base && base + ch <= tmp.Length && 0 <= ch
    modifies tmp
    ensures forall k :: base <= k < base + ch ==> tmp[..][k] == 0.0
    ensures SameOutside(old(tmp[..]), tmp[..], base, ch)
  {
    for c := 0 to ch
      invariant forall k :: base <= k < base + c ==> tmp[k] == 0.0
      invariant forall k :: 0 <= k < tmp.Length && !(base <= k < base + ch) ==> tmp[k] == old(tmp[k])
    {
      tmp[base + c] := 0.0;
    }
  }

  lemma SummedNothing(before: seq<real>, s: seq<real>, base: int, ch: int, g: PixelTerms)
    requires 0 <= base && base + ch <= |s| && forall k :: base <= k < base + ch ==> s[k] == 0.0
    ensures Summed(s, base, ch, g, 0, 0)
  {
  }

  lemma OutsideTwice(a: seq<real>, b: seq<real>, c: seq<real>, base: int, ch: int)
    requires SameOutside(a, b, base, ch) && SameOutside(b, c, base, ch)
    ensures SameOutside(a, c, base, ch)
  {
  }

  /** All channels of one pixel of the intermediate image. */
  method BlendDown(src: seq<u8>, tmp: array<real>, z: Sizes, fy: Filter, x: int, y: int)
    requires IsSource(src, z) && IsFilter(fy, z.sh, z.dh) && 0 <= x < z.sw && 0 <= y < z.dh
    requires tmp.Length == z.SourceRow() * z.dh
    modifies tmp
    ensures var base := SourceAt(z, x, y);
            && 0 <= base && base + z.ch <= tmp.Length
            && SameOutside(old(tmp[..]), tmp[..], base, z.ch)
            && 0 <= fy.taps[y] && Summed(tmp[..], base, z.ch, DownTerms(src, z, x, y), fy.taps[y], 0)
  {
    PixelStart(z, z.sw, z.dh, x, y);
    FilterRow(fy, z.sh, z.dh, y);
    var n, base := fy.taps[y], SourceAt(z, x, y);
    ghost var g, before := DownTerms(src, z, x, y), tmp[..];
    hide *;
    Clear(tmp, base, z.ch);
    SummedNothing(before, tmp[..], base, z.ch, g);
    for t := 0 to n
      invariant Summed(tmp[..], base, z.ch, g, t, 0) && SameOutside(before, tmp[..], base, z.ch)
    {
      ghost var s := tmp[..];
      AddTapDown(src, tmp, z, fy, x, y, t, base);
      OutsideTwice(before, s, tmp[..], base, z.ch);
    }
  }

  /** Sample c of pixel (x, y) of the intermediate image, in rows and columns. */
  lemma {:induction false} IndexDown(z: Sizes, x: int, y: int, c: int)
    requires z.Valid() && 0 <= x < z.sw && 0 <= y < z.dh && 0 <= c < z.ch
    ensures z.SourceRow() > 0
    ensures var k := SourceAt(z, x, y) + c; k % z.SourceRow() == x * z.ch + c && k / z.SourceRow() == y
  {
    PixelStart(z, z.sw, z.dh, x, y);
    FlatIndex(x * z.ch + c, y, z.SourceRow());
  }

  lemma TallIs(src: seq<u8>, z: Sizes, x: int, y: int, c: int, n: nat)
    requires IsSource(src, z) && TriangleFor(z.sh, z.dh, y).radius >= 1.0 && n == TriangleFor(z.sh, z.dh, y).Taps()
    ensures Tall(Source(src, z), z)(x * z.ch + c, y) == Sum(DownTerms(src, z, x, y)(c), n)
  {
    hide TriangleFor, Tapped, Sum, Source;
    var f, samples := TriangleFor(z.sh, z.dh, y), Column(Source(src, z), x * z.ch + c);
    assert Tall(Source(src, z), z)(x * z.ch + c, y) == Blend(f, samples, z.sh);
    assert DownTerms(src, z, x, y)(c) == Tapped(f, samples, z.sh);
    assert Blend(f, samples, z.sh) == Sum(Tapped(f, samples, z.sh), n);
  }

  /** The value of channel c of a finished pixel. */
  lemma {:induction false} SampleDown(src: seq<u8>, z: Sizes, x: int, y: int, c: int, n: nat)
    requires IsSource(src, z) && 0 <= x < z.sw && 0 <= y < z.dh && 0 <= c < z.ch
    requires n == TriangleFor(z.sh, z.dh, y).Taps()
    ensures z.SourceRow() > 0
    ensures var k := SourceAt(z, x, y) + c;
            Tall(Source(src, z), z)(k % z.SourceRow(), k / z.SourceRow()) == Sum(DownTerms(src, z, x, y)(c), n)
  {
    IndexDown(z, x, y, c);
    RowFits(z.sh, z.dh, y);
    TallIs(src, z, x, y, c, n);
    hide TriangleFor, Tall, DownTerms, Source, SourceAt;
  }

  /** A finished pixel extends the finished part of the intermediate image. */
  lemma {:induction false} PixelDown(s: seq<real>, r: seq<real>, src: seq<u8>, z: Sizes, x: int, y: int, n: nat)
    requires IsSource(src, z) && 0 <= x < z.sw && 0 <= y < z.dh && |s| == z.SourceRow() * z.dh
    requires n == TriangleFor(z.sh, z.dh, y).Taps()
    requires 0 <= SourceAt(z, x, y) && SourceAt(z, x, y) + z.ch <= |s|
    requires SameOutside(s, r, SourceAt(z, x, y), z.ch)
    requires Summed(r, SourceAt(z, x, y), z.ch, DownTerms(src, z, x, y), n, 0)
    requires z.SourceRow() >= 1 && Filled(s, Tall(Source(src, z), z), z.SourceRow(), SourceAt(z, x, y))
    ensures Filled(r, Tall(Source(src, z), z), z.SourceRow(), SourceAt(z, x, y) + z.ch)
  {
    var row, base, f := z.SourceRow(), SourceAt(z, x, y), Tall(Source(src, z), z);
    hide IsSource, TriangleFor, SourceAt, Tall, Source, DownTerms, Sum;
    forall i | 0 <= i < |r| && i < base + z.ch
      ensures r[i] == f(i % row, i / row)
    {
      if i >= base {
        SampleDown(src, z, x, y, i - base, n);
      }
    }
  }

  lemma NothingFilledYet(s: seq<real>, f: Field, row: int)
    requires 1 <= row
    ensures Filled(s, f, row, 0 * row)
  {
  }

  lemma RowStarts(z: Sizes, w: int, y: int)
    requires w == z.sw
    ensures SourceAt(z, 0, y) == y * z.SourceRow() && SourceAt(z, w, y) == (y + 1) * z.SourceRow()
  {
  }

  lemma NextPixel(z: Sizes, x: int, y: int)
    ensures SourceAt(z, x, y) + z.ch == SourceAt(z, x + 1, y)
  {
  }

  /** The first pass. */
  method FirstPass(src: seq<u8>, z: Sizes, fy: Filter) returns (tmp: array<real>)
    requires IsSource(src, z) && IsFilter(fy, z.sh, z.dh)
    ensures fresh(tmp) && z.SourceRow() >= 1 && IsImage(tmp[..], z.SourceRow(), z.dh)
    ensures tmp[..] == Draw(Tall(Source(src, z), z), z.SourceRow(), z.dh)
  {
    var row := z.SourceRow();
    FlatBound(0, 0, z.sw, z.ch);
    FlatBound(0, 0, row, z.dh);
    hide IsFilter, IsSource, DownTerms, Tall, Filled, Source, TriangleFor, Draw;
    ghost var goal := Tall(Source(src, z), z);
    tmp := new real[row * z.dh];
    NothingFilledYet(tmp[..], goal, row);
    for y := 0 to z.dh
      invariant Filled(tmp[..], goal, row, y * row)
    {
      FilterRow(fy, z.sh, z.dh, y);
      RowStarts(z, z.sw, y);
      for x := 0 to z.sw
        invariant Filled(tmp[..], goal, row, SourceAt(z, x, y))
      {
        ghost var s := tmp[..];
        BlendDown(src, tmp, z, fy, x, y);
        PixelDown(s, tmp[..], src, z, x, y, fy.taps[y]);
        NextPixel(z, x, y);
      }
    }
    assert row * z.dh == z.dh * row;
    FilledIsDrawn(tmp[..], goal, row, z.dh);
  }

  // ---------------------------------------------------------------------------------------
  // Second pass
  // ---------------------------------------------------------------------------------------

  function AcrossTerms(tall: Field, z: Sizes, x: int, y: int): PixelTerms
    requires z.Valid()
  {
    c => Tapped(TriangleFor(z.sw, z.dw, x), ChannelRow(tall, z, c, y), z.sw)
  }

  /** The first pass's result as the second one reads it. */
  ghost predicate IsTall(tmp: seq<real>, tall: Field, z: Sizes) {
    z.Valid() && z.SourceRow() >= 1 && IsImage(tmp, z.SourceRow(), z.dh) && tmp == Draw(tall, z.SourceRow(), z.dh)
  }

  lemma {:induction false} TallSample(tmp: seq<real>, tall: Field, z: Sizes, x: int, c: int, y: int)
    requires IsTall(tmp, tall, z) && 0 <= x < z.sw && 0 <= c < z.ch && 0 <= y < z.dh
    ensures 0 <= SourceAt(z, x, y) + c < |tmp|
    ensures ChannelRow(tall, z, c, y)(x) == tmp[SourceAt(z, x, y) + c]
  {
    PixelStart(z, z.sw, z.dh, x, y);
    PixelInside(tmp, z.SourceRow(), z.dh, x * z.ch + c, y);
    DrawAt(tall, z.SourceRow(), z.dh, x * z.ch + c, y);
  }

  lemma AcrossTermIs(tall: Field, z: Sizes, x: int, y: int, c: int, t: int, w: real, k0: int, v: real)
    requires z.Valid() && TriangleFor(z.sw, z.dw, x).radius >= 1.0
    requires w == Weights(TriangleFor(z.sw, z.dw, x))(t) && k0 == TriangleFor(z.sw, z.dw, x).First()
    requires v == ChannelRow(tall, z, c, y)(Clamp(k0 + t, 0, z.sw - 1))
    ensures AcrossTerms(tall, z, x, y)(c)(t) == Weighted(w, v)
  {
  }

  lemma {:induction false} AcrossTerm(
      tmp: seq<real>, tall: Field, z: Sizes, fx: Filter, x: int, y: int, c: int, t: int)
    requires IsTall(tmp, tall, z) && IsFilter(fx, z.sw, z.dw) && 0 <= x < z.dw && 0 <= y < z.dh
    requires 0 <= c < z.ch && 0 <= t < fx.taps[x]
    ensures var at := SourceAt(z, Clamp(fx.first[x] + t, 0, z.sw - 1), y) + c;
            && 0 <= at < |tmp|
            && AcrossTerms(tall, z, x, y)(c)(t) == Weighted(TapWeight(fx, x, t), tmp[at])
  {
    assert 1 <= z.sw && x < |fx.first|;
    ClampInside(fx.first[x] + t, z.sw);
    hide *;
    var sx := Clamp(fx.first[x] + t, 0, z.sw - 1);
    FilterRow(fx, z.sw, z.dw, x);
    FilterTap(fx, z.sw, z.dw, x, t);
    TallSample(tmp, tall, z, sx, c, y);
    AcrossTermIs(tall, z, x, y, c, t, TapWeight(fx, x, t), fx.first[x], tmp[SourceAt(z, sx, y) + c]);
  }

  lemma AcrossBasics(tmp: seq<real>, tall: Field, z: Sizes, fx: Filter, x: int)
    requires IsTall(tmp, tall, z) && IsFilter(fx, z.sw, z.dw) && 0 <= x < z.dw
    ensures 1 <= z.ch <= 8 && x < |fx.first|
  {
  }

  /** Tap t of one pixel of the result, for all channels. */
  method AddTapAcross(
      tmp: seq<real>, ghost tall: Field, acc: array<real>, z: Sizes, fx: Filter, x: int, y: int, t: int)
    requires IsTall(tmp, tall, z) && IsFilter(fx, z.sw, z.dw) && 0 <= x < z.dw && 0 <= y < z.dh && 0 <= t < fx.taps[x]
    requires acc.Length == 8 && Summed(acc[..], 0, z.ch, AcrossTerms(tall, z, x, y), t, 0)
    modifies acc
    ensures Summed(acc[..], 0, z.ch, AcrossTerms(tall, z, x, y), t + 1, 0)
  {
    ghost var g := AcrossTerms(tall, z, x, y);
    hide *;
    AcrossBasics(tmp, tall, z, fx, x);
    var sx := Clamp(fx.first[x] + t, 0, z.sw - 1);
    var w := TapWeight(fx, x, t);
    var sp := SourceAt(z, sx, y);
    for c := 0 to z.ch
      invariant Summed(acc[..], 0, z.ch, g, t, c)
    {
      AcrossTerm(tmp, tall, z, fx, x, y, c, t);
      ghost var s := acc[..];
      var v := Weighted(w, tmp[sp + c]);
      assert v == g(c)(t);
      acc[c] := acc[c] + v;
      assert acc[..] == s[0 + c := s[0 + c] + v];
      SummedStep(s, acc[..], 0, z.ch, g, t, c);
    }
    SummedNext(acc[..], 0, z.ch, g, t);
  }

  /** All channels of one pixel of the result, before rounding. */
  method BlendAcross(tmp: seq<real>, ghost tall: Field, z: Sizes, fx: Filter, x: int, y: int) returns (acc: array<real>)
    requires IsTall(tmp, tall, z) && IsFilter(fx, z.sw, z.dw) && 0 <= x < z.dw && 0 <= y < z.dh
    ensures fresh(acc) && acc.Length == 8
    ensures 0 <= fx.taps[x] && Summed(acc[..], 0, z.ch, AcrossTerms(tall, z, x, y), fx.taps[x], 0)
  {
    assert 1 <= z.ch <= 8;
    FilterRow(fx, z.sw, z.dw, x);
    var n := fx.taps[x];
    ghost var g := AcrossTerms(tall, z, x, y);
    acc := new real[8](_ => 0.0);
    hide *;
    SummedNothing(acc[..], acc[..], 0, z.ch, g);
    for t := 0 to n
      invariant Summed(acc[..], 0, z.ch, g, t, 0)
    {
      AddTapAcross(tmp, tall, acc, z, fx, x, y, t);
    }
  }

  ghost predicate BytesFilled(s: seq<u8>, f: Field, row: int, k: int) {
    forall i :: 0 <= i < |s| && i < k ==> s[i] == ByteAt(f, row, i)
  }

  function TargetAt(z: Sizes, x: int, y: int): int {
    (y * z.dw + x) * z.ch
  }

  /** Byte c of the pixel. */
  lemma {:induction false} ByteAcross(acc: seq<real>, tall: Field, z: Sizes, fx: Filter, x: int, y: int, c: int)
    requires z.Valid() && IsFilter(fx, z.sw, z.dw) && 0 <= x < z.dw && 0 <= y < z.dh && 0 <= c < z.ch && |acc| == 8
    requires 0 <= fx.taps[x] && Summed(acc, 0, z.ch, AcrossTerms(tall, z, x, y), fx.taps[x], 0)
    ensures 0 <= TargetAt(z, x, y) + c < z.TargetRow() * z.dh
    ensures ByteAt(Wide(tall, z), z.TargetRow(), TargetAt(z, x, y) + c) == ToByte(acc[c])
  {
    hide TriangleFor, Tapped, ToByte, ChannelRow, Sum;
    FilterRow(fx, z.sw, z.dw, x);
    PixelStart(z, z.dw, z.dh, x, y);
    FlatIndex(x * z.ch + c, y, z.TargetRow());
    FlatIndex(c, x, z.ch);
  }

  lemma ByteStep(s: seq<u8>, r: seq<u8>, f: Field, row: int, k: int)
    requires 0 <= k < |s| && BytesFilled(s, f, row, k) && r == s[k := ByteAt(f, row, k)]
    ensures BytesFilled(r, f, row, k + 1)
  {
  }

  /** One pixel of the result, rounded. */
  method StorePixel(dst: array<u8>, acc: array<real>, ghost tall: Field, z: Sizes, ghost fx: Filter, x: int, y: int)
    requires z.Valid() && IsFilter(fx, z.sw, z.dw) && 0 <= x < z.dw && 0 <= y < z.dh && acc.Length == 8
    requires dst.Length == z.TargetRow() * z.dh
    requires 0 <= fx.taps[x] && Summed(acc[..], 0, z.ch, AcrossTerms(tall, z, x, y), fx.taps[x], 0)
    requires BytesFilled(dst[..], Wide(tall, z), z.TargetRow(), TargetAt(z, x, y))
    modifies dst
    ensures BytesFilled(dst[..], Wide(tall, z), z.TargetRow(), TargetAt(z, x, y) + z.ch)
  {
    assert 1 <= z.ch <= 8;
    ghost var f := Wide(tall, z);
    var at := TargetAt(z, x, y);
    hide *;
    for c := 0 to z.ch
      invariant BytesFilled(dst[..], f, z.TargetRow(), at + c)
    {
      ByteAcross(acc[..], tall, z, fx, x, y, c);
      ghost var s := dst[..];
      dst[at + c] := ToByte(acc[c]);
      ByteStep(s, dst[..], f, z.TargetRow(), at + c);
    }
  }

  lemma TargetRowStarts(z: Sizes, y: int)
    ensures TargetAt(z, 0, y) == y * z.TargetRow() && TargetAt(z, z.dw, y) == (y + 1) * z.TargetRow()
  {
  }

  lemma NextTarget(z: Sizes, x: int, y: int)
    ensures TargetAt(z, x, y) + z.ch == TargetAt(z, x + 1, y)
  {
  }

  method SecondPassRow(tmp: seq<real>, ghost tall: Field, dst: array<u8>, z: Sizes, fx: Filter, y: int)
    requires IsTall(tmp, tall, z) && IsFilter(fx, z.sw, z.dw) && dst.Length == z.TargetRow() * z.dh && 0 <= y < z.dh
    requires BytesFilled(dst[..], Wide(tall, z), z.TargetRow(), y * z.TargetRow())
    modifies dst
    ensures BytesFilled(dst[..], Wide(tall, z), z.TargetRow(), (y + 1) * z.TargetRow())
  {
    assert z.Valid() && 1 <= z.dw;
    ghost var f, row := Wide(tall, z), z.TargetRow();
    TargetRowStarts(z, y);
    hide *;
    for x := 0 to z.dw
      invariant BytesFilled(dst[..], f, row, TargetAt(z, x, y))
    {
      var acc := BlendAcross(tmp, tall, z, fx, x, y);
      StorePixel(dst, acc, tall, z, fx, x, y);
      NextTarget(z, x, y);
    }
  }

  lemma NoBytesYet(s: seq<u8>, f: Field, row: int)
    ensures BytesFilled(s, f, row, 0 * row)
  {
  }

  /** The second pass. */
  method SecondPass(tmp: seq<real>, ghost tall: Field, dst: array<u8>, z: Sizes, fx: Filter)
    requires IsTall(tmp, tall, z) && IsFilter(fx, z.sw, z.dw) && dst.Length == z.TargetRow() * z.dh
    modifies dst
    ensures BytesFilled(dst[..], Wide(tall, z), z.TargetRow(), dst.Length)
  {
    assert 1 <= z.dw && 1 <= z.dh;
    ghost var f, row := Wide(tall, z), z.TargetRow();
    NoBytesYet(dst[..], f, row);
    assert dst.Length == z.dh * row;
    hide *;
    for y := 0 to z.dh
      invariant BytesFilled(dst[..], f, row, y * row)
    {
      SecondPassRow(tmp, tall, dst, z, fx, y);
    }
  }

  /** `resize_bilinear_u8`. */
  method ResizeBilinearU8(src: seq<u8>, dst: array<u8>, z: Sizes)
    requires IsSource(src, z) && dst.Length == z.TargetRow() * z.dh
    modifies dst
    ensures dst[..] == Resized(src, z)
  {
    var fy := Build(z.sh, z.dh);
    var fx := Build(z.sw, z.dw);
    var tmp := FirstPass(src, z, fy);
    ghost var tall := Tall(Source(src, z), z);
    SecondPass(tmp[..], tall, dst, z, fx);
    assert dst[..] == Resized(src, z);
  }
}
