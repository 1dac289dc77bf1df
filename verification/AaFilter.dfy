/** The antialias filter of src/siglip2/preproc.cpp in exact arithmetic: a triangle around a centre,
    sampled at the integers inside it and scaled so that the samples add up to 1. */
module AaFilter {
  import opened Arith
  import opened Images
  import opened NaflexSize
  import opened Sums

  /** Where output sample i lies among the source samples, and how far the triangle reaches. */
  datatype Triangle = Triangle(center: real, radius: real) {
    function First(): int {
      Ceil(center - radius)
    }

    function Last(): int {
      (center + radius).Floor
    }

    function Taps(): int {
      Last() - First() + 1
    }

    /** The height of the triangle at source position k. */
    function Height(k: int): real
      requires radius >= 1.0
    {
      var d := (k as real - center) / radius;
      var a := if d < 0.0 then 0.0 - d else d;
      if 1.0 - a > 0.0 then 1.0 - a else 0.0
    }
  }

  /** The weight before normalising falls linearly from 1 at the centre to 0 where the triangle ends. */
  lemma HeightFalls(f: Triangle, k: int)
    requires f.radius >= 1.0
    ensures var distance := if k as real < f.center then f.center - k as real else k as real - f.center;
            f.Height(k) * f.radius == if distance < f.radius then f.radius - distance else 0.0
  {
    var d := (k as real - f.center) / f.radius;
    assert d * f.radius == k as real - f.center;
    assert d < 0.0 <==> k as real < f.center;
    var a := if d < 0.0 then 0.0 - d else d;
    assert a * f.radius == if k as real < f.center then f.center - k as real else k as real - f.center;
    assert a < 1.0 <==> a * f.radius < f.radius;
    assert (1.0 - a) * f.radius == f.radius - a * f.radius;
  }

  function TriangleFor(src: int, dst: int, i: int): Triangle
    requires 1 <= src && 1 <= dst
  {
    var scale := src as real / dst as real;
    Triangle((i as real + 0.5) * scale - 0.5, if scale < 1.0 then 1.0 else scale)
  }

  function MaxTaps(src: int, dst: int): int
    requires 1 <= src && 1 <= dst
  {
    Ceil(2.0 * TriangleFor(src, dst, 0).radius) + 2
  }

  function Heights(f: Triangle): Terms
    requires f.radius >= 1.0
  {
    t => f.Height(f.First() + t)
  }

  /** The taps are the integers in the triangle, at least one and never more than the row has room for. */
  lemma TapsFit(f: Triangle, maxTaps: int)
    requires f.radius >= 1.0 && maxTaps == Ceil(2.0 * f.radius) + 2
    ensures 1 <= f.Taps() < maxTaps
  {
  }

  /** The sum that the weights are divided by. */
  function Total(f: Triangle): real
    requires f.radius >= 1.0
  {
    TapsFit(f, Ceil(2.0 * f.radius) + 2);
    Sum(Heights(f), f.Taps())
  }

  lemma {:induction false} SumNonNegative(g: Terms, n: nat)
    requires forall i :: 0 <= i < n ==> g(i) >= 0.0
    ensures Sum(g, n) >= 0.0
  {
    if n > 0 {
      SumNonNegative(g, n - 1);
    }
  }

  lemma {:induction false} SumAtLeastOne(g: Terms, n: nat, a: nat)
    requires a < n && forall i :: 0 <= i < n ==> g(i) >= 0.0
    ensures Sum(g, n) >= g(a)
  {
    if a + 1 < n {
      SumAtLeastOne(g, n - 1, a);
    } else {
      SumNonNegative(g, n - 1);
    }
  }

  /** A sum is at least what some of its terms add up to. */
  lemma {:induction false} SumAtLeastTwo(g: Terms, n: nat, a: nat, b: nat)
    requires a < b < n && forall i :: 0 <= i < n ==> g(i) >= 0.0
    ensures Sum(g, n) >= g(a) + g(b)
  {
    if b + 1 < n {
      SumAtLeastTwo(g, n - 1, a, b);
    } else {
      SumAtLeastOne(g, n - 1, a);
    }
  }

  lemma Shrinks(e: real, r: real)
    requires e >= 0.0 && r >= 1.0
    ensures 0.0 <= e / r <= e
  {
  }

  lemma NegatedQuotient(e: real, r: real)
    requires r > 0.0
    ensures (0.0 - e) / r == 0.0 - e / r
  {
  }

  /** The height at distance at most 1 is at least that of the triangle of radius 1. */
  lemma HeightNear(f: Triangle, k: int)
    requires f.radius >= 1.0
    ensures k as real >= f.center ==> f.Height(k) >= 1.0 - (k as real - f.center)
    ensures k as real <= f.center ==> f.Height(k) >= 1.0 - (f.center - k as real)
    ensures f.Height(k) >= 0.0
  {
    var e := k as real - f.center;
    if e >= 0.0 {
      Shrinks(e, f.radius);
    } else {
      Shrinks(0.0 - e, f.radius);
      NegatedQuotient(e, f.radius);
    }
  }

  /** The unnormalised weights add up to at least 1: the two integers around the centre, or the one on
      it, are always among the taps. */
  lemma {:induction false} TotalAtLeastOne(f: Triangle)
    requires f.radius >= 1.0
    ensures f.Taps() >= 1 && Total(f) >= 1.0
  {
    hide Sum;
    TapsFit(f, Ceil(2.0 * f.radius) + 2);
    var g, n := Heights(f), f.Taps();
    var k := f.center.Floor;
    forall i | 0 <= i < n
      ensures g(i) >= 0.0
    {
      HeightNear(f, f.First() + i);
    }
    HeightNear(f, k);
    HeightNear(f, k + 1);
    assert g(k - f.First()) == f.Height(k);
    assert f.First() <= k <= f.Last();
    if k as real == f.center {
      SumAtLeastOne(g, n, k - f.First());
    } else {
      assert k + 1 <= f.Last();
      assert g(k + 1 - f.First()) == f.Height(k + 1);
      SumAtLeastTwo(g, n, k - f.First(), k + 1 - f.First());
    }
  }

  /** The weights of the taps, from the first on. */
  function Weights(f: Triangle): Terms
    requires f.radius >= 1.0
  {
    TotalAtLeastOne(f);
    Scale(1.0 / Total(f), Heights(f))
  }

  /** A tap has height 1 exactly if it lies on the centre. */
  lemma FullHeightIff(f: Triangle, k: int)
    requires f.radius >= 1.0
    ensures f.Height(k) == 1.0 <==> k as real == f.center
  {
  }

  lemma QuotientTimes(s: real, d: real)
    requires d > 0.0
    ensures s / d * d == s
  {
  }

  lemma ProductOfSums(i: real, scale: real, d: real, s: real)
    requires scale * d == s
    ensures ((i + 0.5) * scale - 0.5) * (2.0 * d) == (2.0 * i + 1.0) * s - d
  {
  }

  /** The centre of row i, in halves of a target sample. */
  lemma CenterOf(src: int, dst: int, i: int)
    requires 1 <= src && 1 <= dst
    ensures TriangleFor(src, dst, i).center * (2 * dst) as real == ((2 * i + 1) * src - dst) as real
  {
    var s, d := src as real, dst as real;
    QuotientTimes(s, d);
    var scale := s / d;
    ProductOfSums(i as real, scale, d, s);
    assert ((2 * i + 1) * src) as real == (2.0 * i as real + 1.0) * s;
  }

  lemma FactorUnique(a: real, b: real, d: real)
    requires d > 0.0 && a * d == b * d
    ensures a == b
  {
  }

  lemma OnCenter(center: real, d: int, n: int, k: int)
    requires 1 <= d && center * d as real == n as real && n == k * d
    ensures k as real == center
  {
    assert (k * d) as real == k as real * d as real;
    FactorUnique(k as real, center, d as real);
  }

  lemma WholeCenter(center: real, d: int, n: int, k: int)
    requires 1 <= d && center * d as real == n as real && k as real == center
    ensures n % d == 0
  {
    assert (k * d) as real == k as real * d as real;
    assert n == k * d;
    DivModBounds(n, d);
    var q, r := n / d, n % d;
    assert (k - q) * d == r;
    if k > q {
      MulMono(1, k - q, d);
    } else if k < q {
      MulMono(k - q, 0 - 1, d);
    }
  }

  /** Some tap of a triangle whose centre is n / d has height 1 exactly if that is a whole number. */
  lemma {:induction false} FullTapOf(f: Triangle, n: int, d: int)
    requires f.radius >= 1.0 && 1 <= d && f.center * d as real == n as real
    ensures (exists t :: 0 <= t < f.Taps() && Heights(f)(t) == 1.0) <==> n % d == 0
  {
    hide Triangle.Height;
    if n % d == 0 {
      DivModBounds(n, d);
      OnCenter(f.center, d, n, n / d);
      FullHeightIff(f, n / d);
      assert Heights(f)(n / d - f.First()) == 1.0;
    }
    forall t | 0 <= t < f.Taps() && Heights(f)(t) == 1.0
      ensures n % d == 0
    {
      FullHeightIff(f, f.First() + t);
      WholeCenter(f.center, d, n, f.First() + t);
    }
  }

  /** Some tap of row i has height 1 exactly when the sizes put a source sample on its centre. */
  lemma {:induction false} FullTapIff(src: int, dst: int, i: int)
    requires 1 <= src && 1 <= dst
    ensures var f := TriangleFor(src, dst, i);
            (exists t :: 0 <= t < f.Taps() && Heights(f)(t) == 1.0) <==> ((2 * i + 1) * src - dst) % (2 * dst) == 0
  {
    CenterOf(src, dst, i);
    var f := TriangleFor(src, dst, i);
    assert f.radius >= 1.0;
    hide TriangleFor;
    FullTapOf(f, (2 * i + 1) * src - dst, 2 * dst);
  }

  /** Not every row has one: between 2 samples and 3, the middle row weighs both samples by half. */
  lemma HalfwayExample()
    ensures var f := TriangleFor(2, 3, 1);
            && f.radius == 1.0 && f.First() == 0 && f.Taps() == 2 && f.Height(0) == 0.5 && f.Height(1) == 0.5
  {
  }

  lemma InverseOf(x: real)
    requires x >= 1.0
    ensures 1.0 / x > 0.0 && 1.0 / x * x == 1.0
  {
  }

  /** The weights are not negative and add up to 1. */
  lemma {:induction false} WeightsAreConvex(f: Triangle)
    requires f.radius >= 1.0
    ensures f.Taps() >= 1 && Sum(Weights(f), f.Taps()) == 1.0
    ensures forall t :: Weights(f)(t) >= 0.0
  {
    hide Sum;
    TotalAtLeastOne(f);
    var inv := 1.0 / Total(f);
    SumScales(inv, Heights(f), f.Taps());
    InverseOf(Total(f));
    forall t
      ensures Weights(f)(t) >= 0.0
    {
      HeightNear(f, f.First() + t);
      ProductMonotone(0.0, Heights(f)(t), inv);
    }
  }

  // ---------------------------------------------------------------------------------------
  // The program
  // ---------------------------------------------------------------------------------------

  function TableEntry(f: Triangle, t: int): real
    requires f.radius >= 1.0
  {
    if t < f.Taps() then Weights(f)(t) else 0.0
  }

  /** The table of weights: column t of row i is the weight of tap t of output sample i, and zero past
      the last tap. */
  function WeightTable(src: int, dst: int): Field
    requires 1 <= src && 1 <= dst
  {
    (t, i) => TableEntry(TriangleFor(src, dst, i), t)
  }

  /** The first n positions of the two index tables. */
  ghost predicate TapsBuilt(first: seq<int>, taps: seq<int>, src: int, dst: int, n: int)
    requires 1 <= src && 1 <= dst
  {
    forall i :: 0 <= i < n && i < |first| && i < |taps| ==>
      first[i] == TriangleFor(src, dst, i).First() && taps[i] == TriangleFor(src, dst, i).Taps()
  }

  /** The first i rows of the weights, the others still zero. */
  ghost predicate WeightsBuilt(s: seq<real>, src: int, dst: int, maxTaps: int, i: int)
    requires 1 <= src && 1 <= dst && 1 <= maxTaps
  {
    && Filled(s, WeightTable(src, dst), maxTaps, i * maxTaps)
    && forall k :: 0 <= k < |s| && i * maxTaps <= k ==> s[k] == 0.0
  }

  lemma NothingBuilt(first: seq<int>, taps: seq<int>, s: seq<real>, src: int, dst: int, maxTaps: int)
    requires 1 <= src && 1 <= dst && 1 <= maxTaps && forall k :: 0 <= k < |s| ==> s[k] == 0.0
    ensures TapsBuilt(first, taps, src, dst, 0) && WeightsBuilt(s, src, dst, maxTaps, 0)
  {
  }

  lemma AllBuilt(s: seq<real>, src: int, dst: int, maxTaps: int)
    requires 1 <= src && 1 <= dst && IsImage(s, maxTaps, dst) && WeightsBuilt(s, src, dst, maxTaps, dst)
    ensures s == Draw(WeightTable(src, dst), maxTaps, dst)
  {
  }

  lemma RowFits(src: int, dst: int, i: int)
    requires 1 <= src && 1 <= dst
    ensures TriangleFor(src, dst, i).radius >= 1.0 && 1 <= TriangleFor(src, dst, i).Taps() < MaxTaps(src, dst)
  {
  }

  lemma TapsStep(first: seq<int>, taps: seq<int>, first2: seq<int>, taps2: seq<int>, src: int, dst: int, i: int)
    requires 1 <= src && 1 <= dst && 0 <= i < |first| == |taps| && TapsBuilt(first, taps, src, dst, i)
    requires first2 == first[i := TriangleFor(src, dst, i).First()]
    requires taps2 == taps[i := TriangleFor(src, dst, i).Taps()]
    ensures TapsBuilt(first2, taps2, src, dst, i + 1)
  {
  }

  lemma RowBounds(s: seq<real>, src: int, dst: int, maxTaps: int, i: int)
    requires 1 <= src && 1 <= dst && 1 <= maxTaps && 0 <= i < dst && |s| == maxTaps * dst
    requires WeightsBuilt(s, src, dst, maxTaps, i)
    ensures 0 <= i * maxTaps && i * maxTaps + maxTaps <= |s|
    ensures forall k :: i * maxTaps <= k < i * maxTaps + maxTaps ==> s[k] == 0.0
  {
    FlatBound(maxTaps - 1, i, maxTaps, dst);
    FlatBound(0, i, maxTaps, dst);
  }

  /** Row i, written tap by tap. */
  lemma {:induction false} RowFilled(s: seq<real>, t: seq<real>, src: int, dst: int, maxTaps: int, i: int)
    requires 1 <= src && 1 <= dst && 1 <= maxTaps && 0 <= i && |s| == |t|
    requires WeightsBuilt(s, src, dst, maxTaps, i)
    requires forall k :: 0 <= k < |s| && !(i * maxTaps <= k < i * maxTaps + maxTaps) ==> t[k] == s[k]
    requires forall k :: 0 <= k < |s| && i * maxTaps <= k < i * maxTaps + maxTaps ==>
               t[k] == TableEntry(TriangleFor(src, dst, i), k - i * maxTaps)
    ensures WeightsBuilt(t, src, dst, maxTaps, i + 1)
  {
    hide TableEntry, TriangleFor;
    assert (i + 1) * maxTaps == i * maxTaps + maxTaps;
    forall k | 0 <= k < |t| && k < i * maxTaps + maxTaps
      ensures t[k] == WeightTable(src, dst)(k % maxTaps, k / maxTaps)
    {
      if k >= i * maxTaps {
        FlatIndex(k - i * maxTaps, i, maxTaps);
      }
    }
  }

  /** The heights of the triangle at its taps, and their sum. */
  method WriteHeights(weights: array<real>, base: int, f: Triangle) returns (sum: real)
    requires f.radius >= 1.0 && f.Taps() >= 1 && 0 <= base && base + f.Taps() <= weights.Length
    modifies weights
    ensures sum == Total(f)
    ensures forall k :: 0 <= k < weights.Length && !(base <= k < base + f.Taps()) ==> weights[k] == old(weights[k])
    ensures forall k :: base <= k < base + f.Taps() ==> weights[k] == Heights(f)(k - base)
  {
    var n := f.Taps();
    sum := 0.0;
    for t := 0 to n
      invariant sum == Sum(Heights(f), t)
      invariant forall k :: 0 <= k < weights.Length && !(base <= k < base + t) ==> weights[k] == old(weights[k])
      invariant forall k :: base <= k < base + t ==> weights[k] == Heights(f)(k - base)
    {
      var w := f.Height(f.First() + t);
      weights[base + t] := w;
      sum := sum + w;
    }
  }

  lemma EntryIs(f: Triangle, t: int, inv: real)
    requires f.radius >= 1.0 && 0 <= t < f.Taps() && Total(f) >= 1.0 && inv == 1.0 / Total(f)
    ensures TableEntry(f, t) == Heights(f)(t) * inv
  {
  }

  /** The heights become weights. */
  method DivideHeights(weights: array<real>, base: int, f: Triangle, inv: real)
    requires f.radius >= 1.0 && f.Taps() >= 1 && 0 <= base && base + f.Taps() <= weights.Length
    requires Total(f) >= 1.0 && inv == 1.0 / Total(f)
    requires forall k :: base <= k < base + f.Taps() ==> weights[k] == Heights(f)(k - base)
    modifies weights
    ensures forall k :: 0 <= k < weights.Length && !(base <= k < base + f.Taps()) ==> weights[k] == old(weights[k])
    ensures forall k :: base <= k < base + f.Taps() ==> weights[k] == TableEntry(f, k - base)
  {
    hide TableEntry, Heights, Total;
    var n := f.Taps();
    for t := 0 to n
      invariant forall k :: 0 <= k < weights.Length && !(base <= k < base + n) ==> weights[k] == old(weights[k])
      invariant forall k :: base + t <= k < base + n ==> weights[k] == Heights(f)(k - base)
      invariant forall k :: base <= k < base + t ==> weights[k] == TableEntry(f, k - base)
    {
      EntryIs(f, t, inv);
      weights[base + t] := weights[base + t] * inv;
    }
  }

  lemma EntryPast(f: Triangle, t: int)
    requires f.radius >= 1.0 && f.Taps() <= t
    ensures TableEntry(f, t) == 0.0
  {
  }

  /** The two inner loops: the heights and their sum, then the division by the sum. */
  method FillRow(weights: array<real>, base: int, f: Triangle, maxTaps: int)
    requires f.radius >= 1.0 && f.Taps() < maxTaps && 0 <= base && base + maxTaps <= weights.Length
    requires forall k :: base <= k < base + maxTaps ==> weights[k] == 0.0
    modifies weights
    ensures forall k :: 0 <= k < weights.Length && !(base <= k < base + maxTaps) ==> weights[k] == old(weights[k])
    ensures forall k :: base <= k < base + maxTaps ==> weights[k] == TableEntry(f, k - base)
  {
    hide TableEntry, Weights, Heights, Total;
    TotalAtLeastOne(f);
    var sum := WriteHeights(weights, base, f);
    DivideHeights(weights, base, f, 1.0 / sum);
    forall k | base + f.Taps() <= k < base + maxTaps
      ensures weights[k] == TableEntry(f, k - base)
    {
      EntryPast(f, k - base);
    }
  }

  /** The body of the loop. */
  method BuildRow(
      src: int, dst: int, i: int, maxTaps: int, first: array<int>, taps: array<int>, weights: array<real>)
    requires 1 <= src && 1 <= dst && maxTaps == MaxTaps(src, dst) && maxTaps >= 1 && 0 <= i < dst
    requires first != taps && first.Length == taps.Length == dst && IsImage(weights[..], maxTaps, dst)
    requires TapsBuilt(first[..], taps[..], src, dst, i) && WeightsBuilt(weights[..], src, dst, maxTaps, i)
    modifies first, taps, weights
    ensures TapsBuilt(first[..], taps[..], src, dst, i + 1) && WeightsBuilt(weights[..], src, dst, maxTaps, i + 1)
  {
    RowFits(src, dst, i);
    hide TriangleFor, TapsBuilt, WeightsBuilt, MaxTaps, TableEntry;
    var f := TriangleFor(src, dst, i);
    RowBounds(weights[..], src, dst, maxTaps, i);
    ghost var firstBefore, tapsBefore, before := first[..], taps[..], weights[..];
    first[i] := f.First();
    FillRow(weights, i * maxTaps, f, maxTaps);
    RowFilled(before, weights[..], src, dst, maxTaps, i);
    taps[i] := f.Taps();
    TapsStep(firstBefore, tapsBefore, first[..], taps[..], src, dst, i);
  }

  /** `build_aa_filter`. */
  method BuildAaFilter(src: int, dst: int)
      returns (maxTaps: int, first: array<int>, taps: array<int>, weights: array<real>)
    requires 1 <= src && 1 <= dst
    ensures fresh(first) && fresh(taps) && fresh(weights)
    ensures maxTaps == MaxTaps(src, dst) && maxTaps >= 1 && first.Length == taps.Length == dst
    ensures TapsBuilt(first[..], taps[..], src, dst, dst)
    ensures IsImage(weights[..], maxTaps, dst) && weights[..] == Draw(WeightTable(src, dst), maxTaps, dst)
  {
    maxTaps := MaxTaps(src, dst);
    TapsFit(TriangleFor(src, dst, 0), maxTaps);
    hide TriangleFor, TapsBuilt, WeightsBuilt, MaxTaps, WeightTable, Filled, Draw;
    FlatBound(0, dst - 1, maxTaps, dst);
    first := new int[dst](_ => 0);
    taps := new int[dst](_ => 0);
    weights := new real[maxTaps * dst](_ => 0.0);
    NothingBuilt(first[..], taps[..], weights[..], src, dst, maxTaps);
    for i := 0 to dst
      invariant TapsBuilt(first[..], taps[..], src, dst, i) && WeightsBuilt(weights[..], src, dst, maxTaps, i)
    {
      BuildRow(src, dst, i, maxTaps, first, taps, weights);
    }
    AllBuilt(weights[..], src, dst, maxTaps);
  }
}
