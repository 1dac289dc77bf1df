/** `tile_merge` of src/visp/image.cpp: one tile blended into an image, and what all tiles
    together leave there. Channel values are exact reals. */
module TileBlend {
  import opened Arith
  import opened Sums
  import opened TileLayout

  datatype Rgb = Rgb(r: real, g: real, b: real)

  const BLACK := Rgb(0.0, 0.0, 0.0)

  function Add(p: Rgb, q: Rgb): Rgb {
    Rgb(p.r + q.r, p.g + q.g, p.b + q.b)
  }

  function Times(k: real, p: Rgb): Rgb {
    Rgb(k * p.r, k * p.g, k * p.b)
  }

  /** Every channel of p lies between the channels of lo and hi. */
  predicate Between(lo: Rgb, p: Rgb, hi: Rgb) {
    lo.r <= p.r <= hi.r && lo.g <= p.g <= hi.g && lo.b <= p.b <= hi.b
  }

  datatype Coord = Coord(x: int, y: int)

  datatype Layout = Layout(x: Axis, y: Axis) {
    predicate Reaching() {
      x.Reaching() && y.Reaching()
    }

    predicate AtMostTwoDeep() {
      x.AtMostTwoDeep() && y.AtMostTwoDeep()
    }

    function Total(): int {
      x.count * y.count
    }

    function TileAt(index: int): Coord
      requires 1 <= x.count
    {
      Coord(index % x.count, index / x.count)
    }

    predicate Covers(c: Coord, px: int, py: int) {
      x.Covers(c.x, px) && y.Covers(c.y, py)
    }

    function Weight(c: Coord, px: int, py: int): int {
      x.Weight(c.x, px) * y.Weight(c.y, py)
    }

    function Norm(c: Coord, px: int, py: int): int {
      (x.Coverage(c.x, px) + 1) * (y.Coverage(c.y, py) + 1)
    }
  }

  /** `tile_layout(extent, maxTile, overlap, align)`. */
  function MakeLayout(w: int, h: int, maxTile: int, overlap: int, align: int): Layout
    requires 1 <= w && 1 <= h && 1 <= maxTile && 0 <= overlap && 1 <= align
  {
    Layout(Make(w, maxTile, overlap, align), Make(h, maxTile, overlap, align))
  }

  function ScaledLayout(l: Layout, scale: int): Layout {
    Layout(Scaled(l.x, scale), Scaled(l.y, scale))
  }

  // ---------------------------------------------------------------------------------------
  // Merging one tile
  // ---------------------------------------------------------------------------------------

  function PixelAt(img: seq<Rgb>, w: int, h: int, x: int, y: int): Rgb
    requires 0 <= x < w && 0 <= y < h && |img| == w * h
  {
    FlatBound(x, y, w, h);
    img[y * w + x]
  }

  /** The pixel of a tile that lies over image pixel (px, py). */
  function TilePixel(l: Layout, c: Coord, tile: seq<Rgb>, px: int, py: int): Rgb
    requires |tile| == l.x.size * l.y.size && l.Covers(c, px, py)
  {
    PixelAt(tile, l.x.size, l.y.size, px - l.x.Start(c.x, 0), py - l.y.Start(c.y, 0))
  }

  function BlendFactor(l: Layout, c: Coord, px: int, py: int): real
    requires 0 <= l.x.overlap && 0 <= l.y.overlap
  {
    MulMono(1, l.x.Coverage(c.x, px) + 1, l.y.Coverage(c.y, py) + 1);
    l.Weight(c, px, py) as real / l.Norm(c, px, py) as real
  }

  /** What merging a tile makes of image pixel (px, py). */
  function MergedPixel(l: Layout, c: Coord, tile: seq<Rgb>, before: Rgb, px: int, py: int): Rgb
    requires |tile| == l.x.size * l.y.size
    requires 0 <= l.x.overlap && 0 <= l.y.overlap
  {
    if !l.Covers(c, px, py) then before
    else
      var val := TilePixel(l, c, tile, px, py);
      if l.Weight(c, px, py) > 0 then Add(before, Times(BlendFactor(l, c, px, py), val)) else val
  }

  lemma StartNonNegative(a: Axis, i: int)
    requires a.Reaching() && 0 <= i < a.count
    ensures 0 <= a.Start(i, 0)
  {
  }

  lemma OnlyThisOffset(w: int, x: int, y: int)
    requires 0 < w
    ensures forall k :: k / w == y && k % w == x ==> k == y * w + x
  {
  }

  /** The loop over the two components, for one of them. */
  method AxisWeight(a: Axis, i: int, x: int) returns (weight: int, coverage: int)
    ensures weight == a.Weight(i, x) && coverage == a.Coverage(i, x)
  {
    var padBeg, padEnd := a.Start(i, a.overlap), a.End(i, a.overlap);
    weight, coverage := 1, 0;
    if x < padBeg {
      weight := weight * (a.overlap - (padBeg - x) + 1);
      coverage := a.overlap;
    } else if x >= padEnd {
      weight := weight * (a.overlap - (x - padEnd));
      coverage := a.overlap;
    }
  }

  /** The inner loop of `tile_merge`. */
  method TileMergeRow(tile: array<Rgb>, dst: array<Rgb>, c: Coord, l: Layout, y: int)
    requires l.Reaching() && 0 <= c.x < l.x.count && 0 <= c.y < l.y.count
    requires tile != dst
    requires tile.Length == l.x.size * l.y.size && dst.Length == l.x.extent * l.y.extent
    requires 0 <= y && l.y.Covers(c.y, y)
    modifies dst
    ensures forall k :: 0 <= k < dst.Length ==>
      dst[k] == if k / l.x.extent == y
                then MergedPixel(l, c, tile[..], old(dst[k]), k % l.x.extent, y) else old(dst[k])
  {
    var w := l.x.extent;
    var begX, endX := l.x.Start(c.x, 0), l.x.End(c.x, 0);
    var begY := l.y.Start(c.y, 0);
    StartNonNegative(l.x, c.x);
    var x := begX;
    while x < endX
      invariant begX <= x
      invariant forall k :: 0 <= k < dst.Length ==>
        dst[k] == if k / w == y && k % w < x
                  then MergedPixel(l, c, tile[..], old(dst[k]), k % w, y) else old(dst[k])
    {
      FlatBound(x, y, w, l.y.extent);
      FlatIndex(x, y, w);
      FlatBound(x - begX, y - begY, l.x.size, l.y.size);
      var weightX, coverageX := AxisWeight(l.x, c.x, x);
      var weightY, coverageY := AxisWeight(l.y, c.y, y);
      var weight := weightX * weightY;
      var val := tile[(y - begY) * l.x.size + (x - begX)];
      if weight > 0 {
        MulMono(1, coverageX + 1, coverageY + 1);
        var norm := (coverageX + 1) * (coverageY + 1);
        var blend := weight as real / norm as real;
        val := Add(dst[y * w + x], Times(blend, val));
      }
      OnlyThisOffset(w, x, y);
      dst[y * w + x] := val;
      x := x + 1;
    }
  }

  method TileMerge(tile: array<Rgb>, dst: array<Rgb>, c: Coord, l: Layout)
    requires l.Reaching() && 0 <= c.x < l.x.count && 0 <= c.y < l.y.count
    requires tile != dst
    requires tile.Length == l.x.size * l.y.size && dst.Length == l.x.extent * l.y.extent
    modifies dst
    ensures forall k :: 0 <= k < dst.Length ==>
      dst[k] == MergedPixel(l, c, tile[..], old(dst[k]), k % l.x.extent, k / l.x.extent)
  {
    var w := l.x.extent;
    var begY, endY := l.y.Start(c.y, 0), l.y.End(c.y, 0);
    StartNonNegative(l.y, c.y);
    var y := begY;
    while y < endY
      invariant begY <= y
      invariant forall k :: 0 <= k < dst.Length ==>
        dst[k] == if k / w < y then MergedPixel(l, c, tile[..], old(dst[k]), k % w, k / w) else old(dst[k])
    {
      TileMergeRow(tile, dst, c, l, y);
      y := y + 1;
    }
  }

  // ---------------------------------------------------------------------------------------
  // Merging every tile
  // ---------------------------------------------------------------------------------------

  predicate TilesFit(l: Layout, outs: seq<seq<Rgb>>) {
    l.Reaching() && forall t :: 0 <= t < |outs| ==> |outs[t]| == l.x.size * l.y.size
  }

  /** One axis's share of the blend factor. */
  function Factor(a: Axis, i: int, x: int): real
    requires 0 <= a.overlap
  {
    Share(a, i, x) as real / (a.overlap + 1) as real
  }

  function Factors(a: Axis, x: int): Terms
    requires 0 <= a.overlap
  {
    i => Factor(a, i, x)
  }

  /** Fraction of pixel (px, py) that tile t supplies; zero where the tile does not lie. */
  function Portion(l: Layout, t: int, px: int, py: int): real
    requires l.Reaching()
  {
    var c := l.TileAt(t);
    Factors(l.x, px)(c.x) * Factors(l.y, py)(c.y)
  }

  function Portions(l: Layout, px: int, py: int): Terms
    requires l.Reaching()
  {
    t => Portion(l, t, px, py)
  }

  function Contribution(l: Layout, t: int, tile: seq<Rgb>, px: int, py: int): Rgb
    requires l.Reaching() && |tile| == l.x.size * l.y.size
  {
    var c := l.TileAt(t);
    if l.Covers(c, px, py) then Times(Portion(l, t, px, py), TilePixel(l, c, tile, px, py)) else BLACK
  }

  /** Weighted sum of the first n tiles at pixel (px, py). */
  function Blended(l: Layout, outs: seq<seq<Rgb>>, n: nat, px: int, py: int): Rgb
    requires TilesFit(l, outs) && n <= |outs|
  {
    if n == 0 then BLACK
    else Add(Blended(l, outs, n - 1, px, py), Contribution(l, n - 1, outs[n - 1], px, py))
  }

  lemma {:induction false} FactorWhereCovered(a: Axis, i: int, x: int)
    requires a.Reaching() && 0 <= i < a.count && a.Covers(i, x)
    ensures Factor(a, i, x) == a.Weight(i, x) as real / (a.Coverage(i, x) + 1) as real
    ensures a.Weight(i, x) > 0
  {
    WeightPositive(a, i, x);
    if a.Coverage(i, x) == 0 {
      QuotientUnique((a.overlap + 1) as real, (a.overlap + 1) as real, 1.0);
      assert a.overlap == 0 || a.Weight(i, x) == 1;
    }
  }

  lemma FactorNonNegative(a: Axis, i: int, x: int)
    requires a.Reaching() && 0 <= i < a.count
    ensures Factor(a, i, x) >= 0.0
  {
  }

  lemma {:induction false} PortionNonNegative(l: Layout, t: int, px: int, py: int)
    requires l.Reaching() && 0 <= t < l.Total()
    ensures Portion(l, t, px, py) >= 0.0
  {
    FlatSplit(t, l.x.count, l.y.count);
    FactorNonNegative(l.x, l.TileAt(t).x, px);
    FactorNonNegative(l.y, l.TileAt(t).y, py);
  }

  lemma BlendOf(wx: int, cx: int, fx: real, wy: int, cy: int, fy: real)
    requires 0 < cx && 0 < cy && fx == wx as real / cx as real && fy == wy as real / cy as real
    ensures cx * cy != 0 && (wx * wy) as real / (cx * cy) as real == fx * fy
  {
  }

  /** Where a tile lies, `tile_merge` blends it in with exactly its portion. */
  lemma {:induction false} BlendIsPortion(l: Layout, t: int, px: int, py: int)
    requires l.Reaching() && 0 <= t < l.Total() && l.Covers(l.TileAt(t), px, py)
    ensures l.Weight(l.TileAt(t), px, py) > 0
    ensures BlendFactor(l, l.TileAt(t), px, py) == Portion(l, t, px, py)
  {
    var c := l.TileAt(t);
    FlatSplit(t, l.x.count, l.y.count);
    FactorWhereCovered(l.x, c.x, px);
    FactorWhereCovered(l.y, c.y, py);
    MulMono(1, l.x.Weight(c.x, px), l.y.Weight(c.y, py));
    var fx, fy := Factor(l.x, c.x, px), Factor(l.y, c.y, py);
    assert Portion(l, t, px, py) == fx * fy;
    BlendOf(l.x.Weight(c.x, px), l.x.Coverage(c.x, px) + 1, fx, l.y.Weight(c.y, py), l.y.Coverage(c.y, py) + 1, fy);
    hide Factor, Portion, Share, Axis.Weight, Axis.Coverage;
  }

  /** Merging a tile adds its contribution: the branch that overwrites is never taken. */
  lemma {:induction false} MergeAdds(l: Layout, t: int, tile: seq<Rgb>, before: Rgb, px: int, py: int)
    requires l.Reaching() && |tile| == l.x.size * l.y.size && 0 <= t < l.Total()
    ensures MergedPixel(l, l.TileAt(t), tile, before, px, py)
            == Add(before, Contribution(l, t, tile, px, py))
  {
    if l.Covers(l.TileAt(t), px, py) {
      BlendIsPortion(l, t, px, py);
    }
  }

  lemma {:induction false} SumFactors(a: Axis, x: int, n: nat)
    requires 0 <= a.overlap
    ensures Sum(Factors(a, x), n) == SumInt(Shares(a, x), n) as real / (a.overlap + 1) as real
  {
    if n > 0 {
      SumFactors(a, x, n - 1);
      QuotientAdds(SumInt(Shares(a, x), n - 1), Share(a, n - 1, x), a.overlap + 1);
    }
  }

  /** Along one axis the factors of all tiles add up to one. */
  lemma {:induction false} FactorsSumToOne(a: Axis, x: int)
    requires a.Reaching() && a.AtMostTwoDeep() && 0 <= x < a.extent
    ensures Sum(Factors(a, x), a.count) == 1.0
  {
    SumFactors(a, x, a.count);
    SharesSumUp(a, x);
    QuotientUnique((a.overlap + 1) as real, (a.overlap + 1) as real, 1.0);
  }

  lemma {:induction false} PortionsAsGrid(l: Layout, px: int, py: int)
    requires l.Reaching()
    ensures 0 <= l.Total() && Sum(Portions(l, px, py), l.Total())
            == Sum(Grid(Factors(l.x, px), Factors(l.y, py), l.x.count), Area(l.x.count, l.y.count))
  {
    var n := Area(l.x.count, l.y.count);
    assert n == l.Total();
    SumEqual(Portions(l, px, py), Grid(Factors(l.x, px), Factors(l.y, py), l.x.count), n);
  }

  /** Every pixel of the image is shared out completely among the tiles that lie over it. */
  lemma {:induction false} PortionsSumToOne(l: Layout, px: int, py: int)
    requires l.Reaching() && l.AtMostTwoDeep()
    requires 0 <= px < l.x.extent && 0 <= py < l.y.extent
    ensures 0 <= l.Total() && Sum(Portions(l, px, py), l.Total()) == 1.0
  {
    PortionsAsGrid(l, px, py);
    SumOverGrid(Factors(l.x, px), Factors(l.y, py), l.x.count, l.y.count);
    FactorsSumToOne(l.x, px);
    FactorsSumToOne(l.y, py);
  }

  /** The tiles over pixel (px, py) share it out completely. */
  ghost predicate SharedOut(l: Layout, px: int, py: int)
    requires l.Reaching()
  {
    0 <= l.Total() && Sum(Portions(l, px, py), l.Total()) == 1.0
  }

  lemma Excess(n: nat)
    ensures (n + 2) as real / (n + 1) as real > 1.0
  {
    QuotientAdds(n + 1, 1, n + 1);
    QuotientUnique((n + 1) as real, (n + 1) as real, 1.0);
  }

  /** A coordinate at which the factors add up to 1, or to more if some pixel lies three tiles deep. */
  lemma {:induction false} HeaviestPoint(a: Axis) returns (x: int)
    requires a.Reaching()
    ensures 0 <= x < a.extent
    ensures if a.AtMostTwoDeep() then Sum(Factors(a, x), a.count) == 1.0 else Sum(Factors(a, x), a.count) > 1.0
  {
    if a.AtMostTwoDeep() {
      x := 0;
      FactorsSumToOne(a, x);
    } else {
      x := a.Start(2, 0);
      ThreeDeepOverflows(a);
      SumFactors(a, x, a.count);
      Excess(a.overlap);
    }
  }

  lemma ProductAboveOne(a: real, b: real)
    requires a >= 1.0 && b >= 1.0 && (a > 1.0 || b > 1.0)
    ensures a * b > 1.0
  {
  }

  /** Blending is lossless at every pixel of the image exactly when no pixel lies three tiles deep along
      either axis. */
  lemma {:induction false} SharedOutIffAtMostTwoDeep(l: Layout)
    requires l.Reaching()
    ensures (forall px, py :: 0 <= px < l.x.extent && 0 <= py < l.y.extent ==> SharedOut(l, px, py))
            <==> l.AtMostTwoDeep()
  {
    hide Axis.AtMostTwoDeep, Factor, Portions, Sum;
    if l.AtMostTwoDeep() {
      forall px, py | 0 <= px < l.x.extent && 0 <= py < l.y.extent
        ensures SharedOut(l, px, py)
      {
        PortionsSumToOne(l, px, py);
      }
    } else {
      var px := HeaviestPoint(l.x);
      var py := HeaviestPoint(l.y);
      PortionsAsGrid(l, px, py);
      SumOverGrid(Factors(l.x, px), Factors(l.y, py), l.x.count, l.y.count);
      ProductAboveOne(Sum(Factors(l.x, px), l.x.count), Sum(Factors(l.y, py), l.y.count));
      assert !SharedOut(l, px, py);
    }
  }

  /** Every tile over the pixel puts a value between lo and hi there. */
  ghost predicate TilesBetween(l: Layout, outs: seq<seq<Rgb>>, px: int, py: int, lo: Rgb, hi: Rgb)
    requires TilesFit(l, outs)
  {
    forall t :: 0 <= t < |outs| && l.Covers(l.TileAt(t), px, py) ==>
      Between(lo, TilePixel(l, l.TileAt(t), outs[t], px, py), hi)
  }

  lemma TimesBetween(k: real, lo: Rgb, p: Rgb, hi: Rgb)
    requires k >= 0.0 && Between(lo, p, hi)
    ensures Between(Times(k, lo), Times(k, p), Times(k, hi))
  {
  }

  lemma {:induction false} ContributionBetween(
      l: Layout, outs: seq<seq<Rgb>>, t: nat, px: int, py: int, lo: Rgb, hi: Rgb)
    requires TilesFit(l, outs) && t < |outs| == l.Total()
    requires TilesBetween(l, outs, px, py, lo, hi)
    ensures var k := Portion(l, t, px, py);
            Between(Times(k, lo), Contribution(l, t, outs[t], px, py), Times(k, hi))
  {
    if l.Covers(l.TileAt(t), px, py) {
      PortionNonNegative(l, t, px, py);
      TimesBetween(Portion(l, t, px, py), lo, TilePixel(l, l.TileAt(t), outs[t], px, py), hi);
    }
  }

  lemma TimesSplits(j: real, k: real, s: real, p: Rgb)
    requires s == j + k
    ensures Times(s, p) == Add(Times(j, p), Times(k, p))
  {
  }

  lemma {:induction false} BlendedBetween(
      l: Layout, outs: seq<seq<Rgb>>, n: nat, px: int, py: int, lo: Rgb, hi: Rgb)
    requires TilesFit(l, outs) && n <= |outs| == l.Total()
    requires TilesBetween(l, outs, px, py, lo, hi)
    ensures var s := Sum(Portions(l, px, py), n);
            Between(Times(s, lo), Blended(l, outs, n, px, py), Times(s, hi))
  {
    if n > 0 {
      BlendedBetween(l, outs, n - 1, px, py, lo, hi);
      ContributionBetween(l, outs, n - 1, px, py, lo, hi);
      var s, k := Sum(Portions(l, px, py), n - 1), Portion(l, n - 1, px, py);
      TimesSplits(s, k, Sum(Portions(l, px, py), n), lo);
      TimesSplits(s, k, Sum(Portions(l, px, py), n), hi);
    }
  }

  /** The merged image never leaves the range of the tiles over each pixel; where those tiles
      agree on a value, the merged image has exactly that value. */
  lemma {:induction false} MergedImageInRange(
      l: Layout, outs: seq<seq<Rgb>>, px: int, py: int, lo: Rgb, hi: Rgb)
    requires TilesFit(l, outs) && |outs| == l.Total() && l.AtMostTwoDeep()
    requires 0 <= px < l.x.extent && 0 <= py < l.y.extent
    requires TilesBetween(l, outs, px, py, lo, hi)
    ensures var p := Blended(l, outs, |outs|, px, py);
            lo.r <= p.r <= hi.r && lo.g <= p.g <= hi.g && lo.b <= p.b <= hi.b
  {
    BlendedBetween(l, outs, |outs|, px, py, lo, hi);
    PortionsSumToOne(l, px, py);
  }

  // ---------------------------------------------------------------------------------------
  // Any merge order
  // ---------------------------------------------------------------------------------------

  predicate IndexesInto(order: seq<int>, n: nat) {
    forall i :: 0 <= i < |order| ==> 0 <= order[i] < n
  }

  /** Pixel (px, py) after merging the listed tiles, in that order, into a cleared image. */
  function MergedInOrder(l: Layout, outs: seq<seq<Rgb>>, order: seq<int>, px: int, py: int): Rgb
    requires TilesFit(l, outs) && IndexesInto(order, |outs|)
  {
    if order == [] then BLACK
    else
      var last := order[|order| - 1];
      MergedPixel(l, l.TileAt(last), outs[last],
                  MergedInOrder(l, outs, order[..|order| - 1], px, py), px, py)
  }

  /** Sum of the listed entries of cs. */
  function SumListed(cs: seq<Rgb>, order: seq<int>): Rgb
    requires IndexesInto(order, |cs|)
  {
    if order == [] then BLACK
    else Add(SumListed(cs, order[..|order| - 1]), cs[order[|order| - 1]])
  }

  /** An entry added at any point could as well have been added last. */
  lemma {:induction false} PullOut(cs: seq<Rgb>, order: seq<int>, i: nat)
    requires i < |order| && IndexesInto(order, |cs|)
    ensures var rest := order[..i] + order[i + 1..];
            SumListed(cs, order) == Add(SumListed(cs, rest), cs[order[i]])
  {
    var rest := order[..i] + order[i + 1..];
    var m := |order| - 1;
    if i == m {
      assert rest == order[..m];
    } else {
      PullOut(cs, order[..m], i);
      assert order[..m][..i] + order[..m][i + 1..] == rest[..m - 1];
    }
  }

  lemma FindLast(order: seq<int>, other: seq<int>) returns (i: nat)
    requires multiset(order) == multiset(other) && order != []
    ensures i < |other| && other[i] == order[|order| - 1]
    ensures multiset(order[..|order| - 1]) == multiset(other[..i] + other[i + 1..])
  {
    var m := |order| - 1;
    var last := order[m];
    assert last in multiset(other);
    i :| 0 <= i < |other| && other[i] == last;
    assert order == order[..m] + [last];
    assert other == other[..i] + [last] + other[i + 1..];
    var x, y := multiset(order[..m]), multiset(other[..i] + other[i + 1..]);
    assert multiset(order) == x + multiset{last};
    assert multiset(other) == y + multiset{last};
    assert x == (x + multiset{last}) - multiset{last};
    assert y == (y + multiset{last}) - multiset{last};
  }

  /** Two listings of the same entries have the same sum. */
  lemma {:induction false} SameEntriesSameSum(cs: seq<Rgb>, order: seq<int>, other: seq<int>)
    requires IndexesInto(order, |cs|) && IndexesInto(other, |cs|)
    requires multiset(order) == multiset(other)
    ensures SumListed(cs, order) == SumListed(cs, other)
  {
    assert |order| == |multiset(order)| == |multiset(other)| == |other|;
    if order != [] {
      var i := FindLast(order, other);
      SameEntriesSameSum(cs, order[..|order| - 1], other[..i] + other[i + 1..]);
      PullOut(cs, other, i);
    }
  }

  function Contributions(l: Layout, outs: seq<seq<Rgb>>, px: int, py: int): seq<Rgb>
    requires TilesFit(l, outs)
  {
    seq(|outs|, t requires 0 <= t < |outs| => Contribution(l, t, outs[t], px, py))
  }

  lemma {:induction false} MergingSums(l: Layout, outs: seq<seq<Rgb>>, order: seq<int>, px: int, py: int)
    requires TilesFit(l, outs) && |outs| == l.Total() && IndexesInto(order, |outs|)
    ensures MergedInOrder(l, outs, order, px, py) == SumListed(Contributions(l, outs, px, py), order)
  {
    if order != [] {
      var m := |order| - 1;
      MergingSums(l, outs, order[..m], px, py);
      MergeAdds(l, order[m], outs[order[m]], MergedInOrder(l, outs, order[..m], px, py), px, py);
    }
  }

  lemma {:induction false} BlendedSums(l: Layout, outs: seq<seq<Rgb>>, n: nat, px: int, py: int)
    requires TilesFit(l, outs) && n <= |outs|
    ensures Blended(l, outs, n, px, py) == SumListed(Contributions(l, outs, px, py), seq(n, t => t))
  {
    if n > 0 {
      BlendedSums(l, outs, n - 1, px, py);
      assert seq(n, t => t)[..n - 1] == seq(n - 1, t => t);
    }
  }

  lemma ListingsAreIndexes(order: seq<int>, n: nat)
    requires multiset(order) == multiset(seq(n, t => t))
    ensures IndexesInto(order, n)
  {
    forall i | 0 <= i < |order|
      ensures 0 <= order[i] < n
    {
      assert order[i] in multiset(order);
      assert order[i] in seq(n, t => t);
    }
  }

  /** Every order of merging all the tiles gives the same image. */
  lemma {:induction false} AnyMergeOrder(l: Layout, outs: seq<seq<Rgb>>, order: seq<int>, px: int, py: int)
    requires TilesFit(l, outs) && |outs| == l.Total()
    requires multiset(order) == multiset(seq(|outs|, t => t))
    ensures IndexesInto(order, |outs|)
    ensures MergedInOrder(l, outs, order, px, py) == Blended(l, outs, |outs|, px, py)
  {
    ListingsAreIndexes(order, |outs|);
    MergingSums(l, outs, order, px, py);
    SameEntriesSameSum(Contributions(l, outs, px, py), order, seq(|outs|, t => t));
    BlendedSums(l, outs, |outs|, px, py);
  }
}
