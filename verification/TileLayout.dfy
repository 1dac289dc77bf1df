/** `tile_layout` of src/visp/image.cpp: how an image is cut into overlapping tiles and how much
    each tile contributes to each pixel. The C++ struct holds one i32x2 per quantity and treats the
    two components alike; here one `Axis` holds the four quantities of one component. */
module TileLayout {
  import opened Arith
  import opened Sums

  datatype Axis = Axis(extent: int, overlap: int, count: int, size: int) {

    /** Distance between the starts of neighbouring tiles. */
    function Step(): int {
      size - overlap
    }

    /** First coordinate of tile i, moved in by `pad` except at the image border. */
    function Start(i: int, pad: int): int {
      i * Step() + if i == 0 then 0 else pad
    }

    /** One past the last coordinate of tile i, moved in by `pad` except at the image border. */
    function End(i: int, pad: int): int {
      Min(Start(i, 0) + size - (if i == count - 1 then 0 else pad), extent)
    }

    predicate Covers(i: int, x: int) {
      Start(i, 0) <= x < End(i, 0)
    }

    /** The factor `tile_merge` multiplies into `weight` for this axis. */
    function Weight(i: int, x: int): int {
      if x < Start(i, overlap) then overlap - (Start(i, overlap) - x) + 1
      else if x >= End(i, overlap) then overlap - (x - End(i, overlap))
      else 1
    }

    /** The amount `tile_merge` records in `coverage` for this axis. */
    function Coverage(i: int, x: int): int {
      if x < Start(i, overlap) || x >= End(i, overlap) then overlap else 0
    }

    /** Tiles advance, and together they reach past the end of the image. */
    predicate Reaching() {
      && 1 <= extent && 0 <= overlap && 1 <= count && 1 <= size
      && (count == 1 || overlap < size)
      && extent <= Start(count - 1, 0) + size
    }

    /** No pixel lies in three tiles: the exact condition under which blending is lossless. */
    predicate AtMostTwoDeep() {
      count <= 2 || 2 * overlap <= size || extent <= 2 * Step()
    }
  }

  function Count(extent: int, maxTile: int): (count: int)
    requires 1 <= extent && 1 <= maxTile
    ensures 1 <= count && (count - 1) * maxTile < extent
  {
    var count := DivCeil(extent, maxTile);
    assert count >= 1 by { if count <= 0 { MulMono(count, 0, maxTile); } }
    count
  }

  /** One axis of the `tile_layout` constructor. */
  function Make(extent: int, maxTile: int, overlap: int, align: int): Axis
    requires 1 <= extent && 1 <= maxTile && 0 <= overlap && 1 <= align
  {
    var count := Count(extent, maxTile);
    var withOverlap := extent + (count - 1) * overlap;
    MulMono(0, count - 1, overlap);
    var size := DivCeil(withOverlap, count);
    Axis(extent, overlap, count, DivCeil(size, align) * align)
  }

  /** One axis of `tile_scale`. */
  function Scaled(a: Axis, scale: int): Axis {
    Axis(a.extent * scale, a.overlap * scale, a.count, a.size * scale)
  }

  // ---------------------------------------------------------------------------------------
  // What the constructor guarantees
  // ---------------------------------------------------------------------------------------

  lemma EndOfLast(a: Axis)
    ensures a.Start(a.count - 1, 0) + a.size == a.count * a.size - (a.count - 1) * a.overlap
  {
  }

  /** Together the tiles are at least as long as the image and the overlaps counted twice. */
  lemma {:induction false} MakeSize(extent: int, maxTile: int, overlap: int, align: int)
    requires 1 <= extent && 1 <= maxTile && 0 <= overlap && 1 <= align
    ensures var a := Make(extent, maxTile, overlap, align);
            1 <= a.size && extent + (a.count - 1) * overlap <= a.count * a.size
  {
    var n := Count(extent, maxTile);
    MulMono(0, n - 1, overlap);
    var tight := DivCeil(extent + (n - 1) * overlap, n);
    MulMono(tight, DivCeil(tight, align) * align, n);
    if tight <= 0 {
      MulMono(tight, 0, n);
    }
  }

  lemma {:induction false} AlignedIsTight(n: int, need: int, align: int)
    requires 1 <= n && 0 <= need && 1 <= align
    ensures var size := DivCeil(DivCeil(need, n), align) * align;
            size % align == 0 && n * (size - align) < need
  {
    var tight := DivCeil(need, n);
    var q := DivCeil(tight, align);
    FlatIndex(0, q, align);
    assert q * align - align == (q - 1) * align;
    MulMono(q * align - align, tight - 1, n);
  }

  /** As few tiles as pieces of the requested length would take, and each of the shortest aligned length with
      which that many tiles reach the end of the image. */
  lemma {:induction false} MakeIsTight(extent: int, maxTile: int, overlap: int, align: int)
    requires 1 <= extent && 1 <= maxTile && 0 <= overlap && 1 <= align
    ensures var a := Make(extent, maxTile, overlap, align);
            && a.extent == extent && a.overlap == overlap
            && (a.count - 1) * maxTile < extent <= a.count * maxTile
            && a.size % align == 0
            && a.count * (a.size - align) < extent + (a.count - 1) * overlap <= a.count * a.size
  {
    var n := Count(extent, maxTile);
    MulMono(0, n - 1, overlap);
    AlignedIsTight(n, extent + (n - 1) * overlap, align);
    MakeSize(extent, maxTile, overlap, align);
  }

  /** Two or more tiles were asked for, so each is longer than `factor` overlaps. */
  lemma {:induction false} SizeBeatsOverlap(
      n: int, maxTile: int, overlap: int, size: int, extent: int, factor: int)
    requires n >= 2 && 0 <= overlap && 1 <= factor && (2 * factor - 1) * overlap <= maxTile
    requires (n - 1) * maxTile < extent && extent + (n - 1) * overlap <= n * size
    ensures factor * overlap < size
  {
    if size <= factor * overlap {
      calc {
        n * size;
      <= { MulMono(size, factor * overlap, n); }
        n * (factor * overlap);
      <= { MulMono(n, 2 * (n - 1), factor * overlap); MulMono(0, factor, overlap); }
        2 * (n - 1) * (factor * overlap);
      ==
        (n - 1) * ((2 * factor - 1) * overlap) + (n - 1) * overlap;
      <= { MulMono((2 * factor - 1) * overlap, maxTile, n - 1); }
        (n - 1) * maxTile + (n - 1) * overlap;
      <
        n * size;
      }
    }
  }

  /** The tiles reach past the image as soon as the overlap does not exceed the requested tile. */
  lemma {:induction false} MakeReaches(extent: int, maxTile: int, overlap: int, align: int)
    requires 1 <= extent && 1 <= maxTile && 0 <= overlap <= maxTile && 1 <= align
    ensures Make(extent, maxTile, overlap, align).Reaching()
    ensures maxTile >= 3 * overlap ==> Make(extent, maxTile, overlap, align).AtMostTwoDeep()
  {
    var a := Make(extent, maxTile, overlap, align);
    MakeSize(extent, maxTile, overlap, align);
    EndOfLast(a);
    if a.count >= 2 {
      SizeBeatsOverlap(a.count, maxTile, overlap, a.size, extent, 1);
      if maxTile >= 3 * overlap {
        SizeBeatsOverlap(a.count, maxTile, overlap, a.size, extent, 2);
      }
    }
  }

  lemma {:induction false} NoEmptyTile(a: Axis, maxTile: int, i: int)
    requires a.Reaching() && 0 <= i < a.count
    requires a.size <= maxTile + a.overlap && (a.count - 1) * maxTile < a.extent
    ensures a.Start(i, 0) < a.End(i, 0)
  {
    if a.count >= 2 {
      MulMono(i, a.count - 1, a.Step());
      MulMono(a.size - a.overlap, maxTile, a.count - 1);
    }
  }

  lemma {:induction false} TightBound(extent: int, maxTile: int, overlap: int, n: int, tight: int)
    requires 1 <= n && 0 <= overlap && extent <= n * maxTile
    requires (tight - 1) * n < extent + (n - 1) * overlap
    ensures tight <= maxTile + overlap
  {
    assert (maxTile + overlap) * n == n * maxTile + (n - 1) * overlap + overlap;
    if tight > maxTile + overlap {
      MulMono(maxTile + overlap, tight - 1, n);
    }
  }

  lemma {:induction false} AlignedCeil(v: int, bound: int, align: int)
    requires 0 <= v <= bound && 0 < align && bound % align == 0
    ensures DivCeil(v, align) * align <= bound
  {
    var c, q := DivCeil(v, align), bound / align;
    DivModBounds(bound, align);
    assert bound == q * align;
    if c <= q {
      MulMono(c, q, align);
    } else {
      MulMono(q, c - 1, align);
    }
  }

  /** No tile is empty when the alignment divides the requested tile plus its overlap. */
  lemma {:induction false} MakeHasNoEmptyTile(
      extent: int, maxTile: int, overlap: int, align: int, i: int)
    requires 1 <= extent && 1 <= maxTile && 0 <= overlap <= maxTile && 1 <= align
    requires (maxTile + overlap) % align == 0
    requires 0 <= i < Make(extent, maxTile, overlap, align).count
    ensures var a := Make(extent, maxTile, overlap, align);
            a.Start(i, 0) < a.End(i, 0)
  {
    var a := Make(extent, maxTile, overlap, align);
    MakeReaches(extent, maxTile, overlap, align);
    var n := a.count;
    MulMono(0, n - 1, overlap);
    var tight := DivCeil(extent + (n - 1) * overlap, n);
    TightBound(extent, maxTile, overlap, n, tight);
    AlignedCeil(tight, maxTile + overlap, align);
    assert a.size <= maxTile + overlap;
    NoEmptyTile(a, maxTile, i);
  }

  /** Every tile of a layout holds a pixel exactly when the last one starts inside the image. */
  lemma {:induction false} NoEmptyTileIff(a: Axis)
    requires a.Reaching()
    ensures (forall i :: 0 <= i < a.count ==> a.Start(i, 0) < a.End(i, 0)) <==> a.Start(a.count - 1, 0) < a.extent
  {
    if a.Start(a.count - 1, 0) < a.extent {
      forall i | 0 <= i < a.count
        ensures a.Start(i, 0) < a.End(i, 0)
      {
        if a.count >= 2 {
          MulMono(i, a.count - 1, a.Step());
        }
      }
    } else {
      assert !(a.Start(a.count - 1, 0) < a.End(a.count - 1, 0));
    }
  }

  /** Not every layout is like that: 4 pixels in tiles of 1 aligned to 3 make four tiles of which only
      the first two hold a pixel. */
  lemma EmptyTileExample()
    ensures Make(4, 1, 0, 3).Reaching() && Make(4, 1, 0, 3).count == 4
    ensures Make(4, 1, 0, 3).Start(2, 0) > Make(4, 1, 0, 3).End(2, 0)
  {
  }

  /** Tiles of the scaled layout start at the scaled places. */
  lemma {:induction false} ScaledStart(a: Axis, scale: int, i: int)
    ensures Scaled(a, scale).Start(i, 0) == a.Start(i, 0) * scale
  {
  }

  /** Mapping a layout to a larger image keeps both properties. */
  lemma {:induction false} ScaledReaches(a: Axis, scale: int)
    requires 1 <= scale && a.Reaching()
    ensures Scaled(a, scale).Reaching()
  {
  }

  lemma {:induction false} ScaledTwoDeep(a: Axis, scale: int)
    requires 1 <= scale && a.AtMostTwoDeep()
    ensures Scaled(a, scale).AtMostTwoDeep()
  {
  }

  // ---------------------------------------------------------------------------------------
  // Partition of unity along one axis
  // ---------------------------------------------------------------------------------------

  /** The blend factor of tile i at x on this axis, in units of 1 / (overlap + 1). */
  function Share(a: Axis, i: int, x: int): int {
    if !a.Covers(i, x) then 0
    else if a.Coverage(i, x) == 0 then a.overlap + 1
    else a.Weight(i, x)
  }

  function Shares(a: Axis, x: int): int -> int {
    i => Share(a, i, x)
  }

  /** Tile k is the last one that starts at or before x. */
  predicate LastAt(a: Axis, k: int, x: int) {
    && 0 <= k < a.count && a.Start(k, 0) <= x
    && (k + 1 < a.count ==> x < a.Start(k + 1, 0))
  }

  lemma FindLastTile(a: Axis, x: int) returns (k: nat)
    requires a.Reaching() && 0 <= x < a.extent
    ensures LastAt(a, k, x)
  {
    if a.count == 1 {
      k := 0;
    } else {
      var step := a.Step();
      DivModBounds(x, step);
      if x / step < a.count {
        k := x / step;
      } else {
        MulMono(a.count - 1, x / step, step);
        k := a.count - 1;
      }
    }
  }

  /** A covering tile always contributes: the overwriting branch of `tile_merge` is unreachable. */
  lemma {:induction false} WeightPositive(a: Axis, i: int, x: int)
    requires a.Reaching() && 0 <= i < a.count && a.Covers(i, x)
    ensures 1 <= a.Weight(i, x) <= a.overlap + 1
    ensures x < a.Start(i, a.overlap) || x >= a.End(i, a.overlap) ==> a.Weight(i, x) <= a.overlap
  {
  }

  /** The share of a tile rises by one per pixel from 1 at its own first pixel, falls to 1 at its last, and is
      full in between; the first tile does not rise and the last does not fall. */
  lemma {:induction false} ShareIsRamp(a: Axis, i: int, x: int)
    requires a.Reaching() && 0 <= i < a.count && a.Covers(i, x)
    ensures var rise := if i == 0 then a.overlap + 1 else x - a.Start(i, 0) + 1;
            var fall := if i == a.count - 1 then a.overlap + 1 else a.Start(i, 0) + a.size - x;
            Share(a, i, x) == if rise <= a.overlap then rise else Min(fall, a.overlap + 1)
  {
  }

  lemma StartSteps(a: Axis, i: int)
    ensures a.Start(i + 1, 0) == a.Start(i, 0) + a.Step()
  {
  }

  /** A third tile with a pixel in it means tiles of at least two overlaps. */
  lemma {:induction false} LongTiles(a: Axis, k: int, x: int)
    requires a.Reaching() && a.AtMostTwoDeep() && 2 <= k < a.count
    requires a.Start(k, 0) <= x < a.extent
    ensures 2 * a.overlap <= a.size
  {
  }

  lemma {:induction false} ShareBefore(a: Axis, k: int, i: int, x: int)
    requires a.Reaching() && a.AtMostTwoDeep() && 0 <= x < a.extent && LastAt(a, k, x)
    requires 0 <= i < k - 1
    ensures Share(a, i, x) == 0
  {
    LongTiles(a, k, x);
    MulMono(i, k - 2, a.Step());
    StartSteps(a, k - 2);
    StartSteps(a, k - 1);
  }

  lemma {:induction false} ShareAfter(a: Axis, k: int, i: int, x: int)
    requires a.Reaching() && 0 <= x < a.extent && LastAt(a, k, x)
    requires k < i < a.count
    ensures Share(a, i, x) == 0
  {
    MulMono(k + 1, i, a.Step());
  }

  lemma {:induction false} FirstShare(a: Axis, x: int)
    requires a.Reaching() && 0 <= x < a.extent && (1 < a.count ==> x < a.Start(1, 0))
    ensures Share(a, 0, x) == a.overlap + 1
  {
  }

  lemma {:induction false} LastShare(a: Axis, k: int, x: int)
    requires a.Reaching() && 0 < k < a.count && a.Start(k, 0) <= x < a.extent
    requires if k + 1 < a.count then x < a.Start(k + 1, 0) else x < a.Start(k, 0) + a.size
    requires a.Start(k + 1, 0) == a.Start(k, 0) + a.size - a.overlap
    ensures Share(a, k, x) == Min(x - a.Start(k, 0), a.overlap) + 1
  {
  }

  lemma {:induction false} NextToLastShare(a: Axis, k: int, x: int)
    requires a.Reaching() && 0 < k < a.count && a.Start(k, 0) <= x < a.extent
    requires k >= 2 ==> 2 * a.overlap <= a.size
    requires a.Start(k, 0) == a.Start(k - 1, 0) + a.size - a.overlap
    ensures Share(a, k - 1, x) == a.overlap - Min(x - a.Start(k, 0), a.overlap)
  {
  }

  /** The last two tiles that start before x share the whole of it. */
  lemma {:induction false} TopTwoShares(a: Axis, k: int, x: int)
    requires a.Reaching() && a.AtMostTwoDeep() && 0 <= x < a.extent && LastAt(a, k, x)
    ensures Shares(a, x)(k) + (if k == 0 then 0 else Shares(a, x)(k - 1)) == a.overlap + 1
  {
    StartSteps(a, k);
    if k == 0 {
      FirstShare(a, x);
    } else {
      StartSteps(a, k - 1);
      if k >= 2 {
        LongTiles(a, k, x);
      }
      LastShare(a, k, x);
      NextToLastShare(a, k, x);
    }
  }

  lemma {:induction false} OtherSharesVanish(a: Axis, k: int, x: int)
    requires a.Reaching() && a.AtMostTwoDeep() && 0 <= x < a.extent && LastAt(a, k, x)
    ensures forall i :: 0 <= i < k - 1 || k < i < a.count ==> Shares(a, x)(i) == 0
  {
    forall i | 0 <= i < k - 1
      ensures Shares(a, x)(i) == 0
    {
      ShareBefore(a, k, i, x);
    }
    forall i | k < i < a.count
      ensures Shares(a, x)(i) == 0
    {
      ShareAfter(a, k, i, x);
    }
  }

  /** Every pixel is shared out completely among the tiles over it. */
  lemma {:induction false} SharesSumUp(a: Axis, x: int)
    requires a.Reaching() && a.AtMostTwoDeep() && 0 <= x < a.extent
    ensures SumInt(Shares(a, x), a.count) == a.overlap + 1
  {
    var k := FindLastTile(a, x);
    OtherSharesVanish(a, k, x);
    TopTwoShares(a, k, x);
    SumOfTwo(Shares(a, x), a.count, k);
  }

  lemma {:induction false} ThreeDeepShares(a: Axis, x: int)
    requires a.Reaching() && !a.AtMostTwoDeep() && x == a.Start(2, 0)
    ensures Share(a, 0, x) == a.overlap - a.Step()
    ensures Share(a, 1, x) == a.Step() + 1
    ensures Share(a, 2, x) == 1
  {
  }

  /** Where three tiles meet, at the start of the third, the shares add up to one too many. */
  lemma {:induction false} ThreeDeepOverflows(a: Axis)
    requires a.Reaching() && !a.AtMostTwoDeep()
    ensures 0 <= a.Start(2, 0) < a.extent
    ensures SumInt(Shares(a, a.Start(2, 0)), a.count) == a.overlap + 2
  {
    var x := a.Start(2, 0);
    ThreeDeepShares(a, x);
    var f := Shares(a, x);
    assert SumInt(f, 1) == SumInt(f, 0) + f(0);
    assert SumInt(f, 2) == SumInt(f, 1) + f(1);
    assert SumInt(f, 3) == SumInt(f, 2) + f(2);
    forall i | 3 <= i < a.count
      ensures f(i) == 0
    {
      MulMono(3, i, a.Step());
    }
    SumStops(f, 3, a.count);
  }

  /** The constructor makes such layouts: 48 pixels in tiles of 16 that overlap by 16 become three tiles of
      27, all of which reach pixel 22. */
  lemma ThreeDeepExample()
    ensures var a := Make(48, 16, 16, 1);
            && a.Reaching() && !a.AtMostTwoDeep()
            && SumInt(Shares(a, a.Start(2, 0)), a.count) == a.overlap + 2
  {
    ThreeDeepOverflows(Make(48, 16, 16, 1));
  }

  /** Blending along an axis is lossless at every pixel exactly when no pixel lies three tiles
      deep: a condition on the four numbers of the layout. */
  lemma {:induction false} UnityIffAtMostTwoDeep(a: Axis)
    requires a.Reaching()
    ensures (forall x :: 0 <= x < a.extent ==> SumInt(Shares(a, x), a.count) == a.overlap + 1)
            <==> a.AtMostTwoDeep()
  {
    if a.AtMostTwoDeep() {
      forall x | 0 <= x < a.extent
        ensures SumInt(Shares(a, x), a.count) == a.overlap + 1
      {
        SharesSumUp(a, x);
      }
    } else {
      ThreeDeepOverflows(a);
    }
  }
}
