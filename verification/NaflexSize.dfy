/** The target size of src/siglip2/preproc.cpp in exact arithmetic: the largest scale, up to a hundred, at
    which the image still fits a budget of patches, found by bisection. */
module NaflexSize {
  import opened Arith

  const EPSILON := 0.00001
  const LOWEST := 0.000001
  const HIGHEST := 100.0

  function Ceil(v: real): (c: int)
    ensures (c - 1) as real < v <= c as real
  {
    0 - (0.0 - v).Floor
  }

  function ScaledPatches(scale: real, size: int, patch: int): real
    requires 1 <= patch
  {
    size as real * scale / patch as real
  }

  /** `scaled_size`: a side scaled and rounded up to whole patches, at least one. */
  function ScaledSize(scale: real, size: int, patch: int): int
    requires 1 <= patch
  {
    Max(patch, Ceil(ScaledPatches(scale, size, patch)) * patch)
  }

  /** How many patches a side takes. */
  function Patches(scale: real, size: int, patch: int): (n: int)
    requires 1 <= patch
    ensures 1 <= n
  {
    Max(1, Ceil(ScaledPatches(scale, size, patch)))
  }

  function GridSize(scale: real, height: int, width: int, patch: int): int
    requires 1 <= patch
  {
    Patches(scale, height, patch) * Patches(scale, width, patch)
  }

  /** Scaled sides are whole patches. */
  lemma ScaledIsWhole(scale: real, size: int, patch: int)
    requires 1 <= patch
    ensures ScaledSize(scale, size, patch) == Patches(scale, size, patch) * patch
    ensures ScaledSize(scale, size, patch) / patch == Patches(scale, size, patch)
    ensures ScaledSize(scale, size, patch) % patch == 0
  {
    hide ScaledPatches;
    var n := Ceil(ScaledPatches(scale, size, patch));
    if n >= 1 {
      MulMono(1, n, patch);
    } else {
      MulMono(n, 1, patch);
    }
    FlatIndex(0, Patches(scale, size, patch), patch);
  }

  lemma CoversIff(v: real, n: int, patch: int)
    requires 1 <= patch
    ensures v / patch as real <= n as real <==> v <= (n * patch) as real
  {
    var q := v / patch as real;
    assert q * patch as real == v;
    assert (n as real - q) * patch as real == n as real * patch as real - v;
    assert n as real * patch as real == (n * patch) as real;
  }

  /** A scaled side is the smallest number of whole patches that covers what it would be, and at least one. */
  lemma ScaledCovers(scale: real, size: int, patch: int)
    requires 1 <= patch
    ensures var side := ScaledSize(scale, size, patch);
            && patch <= side && side % patch == 0 && size as real * scale <= side as real
            && (side > patch ==> (side - patch) as real < size as real * scale)
  {
    ScaledIsWhole(scale, size, patch);
    var n := Ceil(ScaledPatches(scale, size, patch));
    CoversIff(size as real * scale, n, patch);
    CoversIff(size as real * scale, n - 1, patch);
    assert (n - 1) * patch == n * patch - patch;
    MulMono(1, Patches(scale, size, patch), patch);
  }

  lemma ScaledMonotone(a: real, b: real, size: int, patch: int)
    requires a <= b && 0 <= size && 1 <= patch
    ensures ScaledPatches(a, size, patch) <= ScaledPatches(b, size, patch)
  {
  }

  lemma {:induction false} PatchesMonotone(a: real, b: real, size: int, patch: int)
    requires a <= b && 0 <= size && 1 <= patch
    ensures Patches(a, size, patch) <= Patches(b, size, patch)
  {
    ScaledMonotone(a, b, size, patch);
    hide ScaledPatches;
  }

  lemma ProductMonotone(a: real, b: real, s: real)
    requires a <= b && 0.0 <= s
    ensures s * a <= s * b
  {
  }

  /** A larger scale never needs fewer patches. */
  lemma {:induction false} GridMonotone(a: real, b: real, height: int, width: int, patch: int)
    requires a <= b && 0 <= height && 0 <= width && 1 <= patch
    ensures GridSize(a, height, width, patch) <= GridSize(b, height, width, patch)
  {
    PatchesMonotone(a, b, height, patch);
    PatchesMonotone(a, b, width, patch);
    var ha, hb := Patches(a, height, patch), Patches(b, height, patch);
    var wa, wb := Patches(a, width, patch), Patches(b, width, patch);
    MulMono(ha, hb, wa);
    MulMono(wa, wb, hb);
  }

  // ---------------------------------------------------------------------------------------
  // The bisection
  // ---------------------------------------------------------------------------------------

  function Pow2(n: nat): (p: nat)
    ensures p >= 1
  {
    if n == 0 then 1 else 2 * Pow2(n - 1)
  }

  /** The width of the interval after n halvings. */
  function Width(n: nat): real {
    (HIGHEST - LOWEST) / Pow2(n) as real
  }

  lemma WidthHalves(n: nat)
    ensures Width(n + 1) == Width(n) / 2.0
  {
  }

  lemma {:induction false} Pow2Monotone(m: nat, n: nat)
    requires m <= n
    ensures Pow2(m) <= Pow2(n)
  {
    if m < n {
      Pow2Monotone(m, n - 1);
    }
  }

  lemma LargePowers()
    ensures Pow2(23) == 8388608 && Pow2(24) == 16777216
  {
    assert Pow2(3) == 8;
    assert Pow2(6) == 64;
    assert Pow2(9) == 512;
    assert Pow2(12) == 4096;
    assert Pow2(15) == 32768;
    assert Pow2(18) == 262144;
    assert Pow2(21) == 2097152;
  }

  lemma WidthAbove(n: nat)
    ensures Width(n) >= EPSILON <==> Pow2(n) <= 9999999
  {
  }

  /** The interval is wide enough for 24 halvings and no more. */
  lemma {:induction false} WideEnoughIff(n: nat)
    ensures Width(n) >= EPSILON <==> n < 24
  {
    hide Width;
    LargePowers();
    if n <= 23 {
      Pow2Monotone(n, 23);
    } else {
      Pow2Monotone(24, n);
    }
    WidthAbove(n);
  }

  /** The patch count as the loop computes it. */
  method CountPatches(scale: real, height: int, width: int, patch: int) returns (n: int)
    requires 1 <= patch
    ensures n == GridSize(scale, height, width, patch)
  {
    var th, tw := ScaledSize(scale, height, patch), ScaledSize(scale, width, patch);
    ScaledIsWhole(scale, height, patch);
    ScaledIsWhole(scale, width, patch);
    n := (th / patch) * (tw / patch);
  }

  /** `compute_target_size`. The scale it settles on is `lo`. */
  method ComputeTargetSize(height: int, width: int, patch: int, budget: int)
      returns (outH: int, outW: int, ghost lo: real, ghost hi: real, ghost rounds: nat)
    requires 1 <= height && 1 <= width && 1 <= patch
    ensures rounds == 24 && 0.0 < hi - lo < EPSILON && LOWEST <= lo < hi <= HIGHEST
    ensures GridSize(LOWEST, height, width, patch) > budget ==> lo == LOWEST
    ensures outH == ScaledSize(lo, height, patch) && outW == ScaledSize(lo, width, patch)
    ensures GridSize(lo, height, width, patch) <= budget <==> GridSize(LOWEST, height, width, patch) <= budget
    ensures hi == HIGHEST || GridSize(hi, height, width, patch) > budget
    ensures outH % patch == 0 && outW % patch == 0 && patch <= outH && patch <= outW
    ensures (outH / patch) * (outW / patch) <= budget <==> GridSize(LOWEST, height, width, patch) <= budget
  {
    var low, high := LOWEST, HIGHEST;
    rounds := 0;
    WideEnoughIff(0);
    while high - low >= EPSILON
      invariant high - low == Width(rounds) && rounds <= 24 && LOWEST <= low <= high <= HIGHEST
      invariant GridSize(LOWEST, height, width, patch) > budget ==> low == LOWEST
      invariant GridSize(low, height, width, patch) <= budget <==> GridSize(LOWEST, height, width, patch) <= budget
      invariant high == HIGHEST || GridSize(high, height, width, patch) > budget
      decreases 24 - rounds
    {
      hide ScaledSize, Patches, GridSize, Width;
      WideEnoughIff(rounds);
      WidthHalves(rounds);
      var mid := 0.5 * (low + high);
      var n := CountPatches(mid, height, width, patch);
      GridMonotone(LOWEST, mid, height, width, patch);
      if n <= budget {
        low := mid;
      } else {
        high := mid;
      }
      rounds := rounds + 1;
    }
    WideEnoughIff(rounds);
    outH, outW := ScaledSize(low, height, patch), ScaledSize(low, width, patch);
    ScaledIsWhole(low, height, patch);
    ScaledIsWhole(low, width, patch);
    lo, hi := low, high;
  }

  // ---------------------------------------------------------------------------------------
  // What the target size satisfies
  // ---------------------------------------------------------------------------------------

  lemma QuotientAtMostOneIff(v: real, p: real)
    requires p > 0.0
    ensures v / p <= 1.0 <==> v <= p
  {
    var q := v / p;
    assert q * p == v;
    if q <= 1.0 {
      assert q * p <= p;
    } else {
      assert q * p > p;
    }
  }

  lemma OnePatchIff(size: int, patch: int)
    requires 1 <= size && 1 <= patch
    ensures Patches(LOWEST, size, patch) == 1 <==> size <= 1_000_000 * patch
  {
    var q := ScaledPatches(LOWEST, size, patch);
    assert q <= 1.0 <==> size <= 1_000_000 * patch by {
      QuotientAtMostOneIff(size as real * LOWEST, patch as real);
    }
    hide ScaledPatches;
    assert Ceil(q) <= 1 <==> q <= 1.0;
  }

  /** The smallest scale needs a single patch, so that every budget is met, exactly up to sides of a million
      patches. */
  lemma {:induction false} EveryBudgetMetIff(height: int, width: int, patch: int)
    requires 1 <= height && 1 <= width && 1 <= patch
    ensures GridSize(LOWEST, height, width, patch) == 1 <==>
      height <= 1_000_000 * patch && width <= 1_000_000 * patch
  {
    OnePatchIff(height, patch);
    OnePatchIff(width, patch);
    var h, w := Patches(LOWEST, height, patch), Patches(LOWEST, width, patch);
    if h > 1 {
      MulMono(1, w, h);
    } else if w > 1 {
      MulMono(1, h, w);
    }
  }

  /** One pixel more and the smallest scale needs two patches, too many for a budget of one. */
  lemma BudgetMissedExample()
    ensures GridSize(LOWEST, 1_000_001, 1, 1) == 2
  {
  }

  /** The scale found is the largest that fits, up to the tolerance. */
  lemma {:induction false} NothingLargerFits(
      height: int, width: int, patch: int, budget: int, lo: real, hi: real, s: real)
    requires 1 <= height && 1 <= width && 1 <= patch && lo < hi < lo + EPSILON
    requires hi == HIGHEST || GridSize(hi, height, width, patch) > budget
    requires lo + EPSILON <= s <= HIGHEST
    ensures GridSize(s, height, width, patch) > budget
  {
    GridMonotone(hi, s, height, width, patch);
  }

  /** What `ComputeTargetSize` promises, put together: the target is made of whole patches, fits every
      budget of at least one patch up to sides of a million patches, and no scale from `hi` on would fit
      unless that is the upper limit. */
  lemma {:induction false} TargetFitsAndIsMaximal(
      height: int, width: int, patch: int, budget: int, lo: real, hi: real, s: real)
    requires 1 <= height && 1 <= width && 1 <= patch && 1 <= budget
    requires GridSize(lo, height, width, patch) <= budget <==> GridSize(LOWEST, height, width, patch) <= budget
    requires hi == HIGHEST || GridSize(hi, height, width, patch) > budget
    ensures var h, w := ScaledSize(lo, height, patch), ScaledSize(lo, width, patch);
            && h % patch == 0 && w % patch == 0 && patch <= h && patch <= w
            && (height <= 1_000_000 * patch && width <= 1_000_000 * patch ==> (h / patch) * (w / patch) <= budget)
    ensures hi < HIGHEST && s >= hi ==> GridSize(s, height, width, patch) > budget
  {
    EveryBudgetMetIff(height, width, patch);
    ScaledIsWhole(lo, height, patch);
    ScaledIsWhole(lo, width, patch);
    if s >= hi {
      GridMonotone(hi, s, height, width, patch);
    }
  }
}
