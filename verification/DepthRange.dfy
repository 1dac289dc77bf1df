/** `normalize_u16` of src/server/depth_endpoints.cpp in exact arithmetic: depths spread over the 16-bit
    levels, and the documented formula that gets them back. */
module DepthRange {
  import opened Png16

  const LEVELS := 65535.0

  /** `lround` of a non-negative number: halves go up. */
  function Round(s: real): int {
    (s + 0.5).Floor
  }

  function ScaleFor(lo: real, hi: real): real {
    if hi > lo then LEVELS / (hi - lo) else 0.0
  }

  function Limited(s: real): (l: real)
    ensures 0.0 <= l <= LEVELS
  {
    if s < 0.0 then 0.0 else if s > LEVELS then LEVELS else s
  }

  function Scaled(d: real, scale: real): real {
    d * scale
  }

  function Level(v: real, lo: real, hi: real): u16 {
    Round(Limited(Scaled(v - lo, ScaleFor(lo, hi)))) as u16
  }

  /** The formula that a client is told to use. */
  function Recovered(level: u16, lo: real, hi: real): real {
    lo + level as real / LEVELS * (hi - lo)
  }

  /** `normalize_u16`. */
  method NormalizeU16(v: seq<real>) returns (px: array<u16>, lo: real, hi: real)
    requires |v| > 0
    ensures fresh(px) && px.Length == |v| && lo in v && hi in v
    ensures forall d :: d in v ==> lo <= d <= hi
    ensures forall i :: 0 <= i < |v| ==> px[i] == Level(v[i], lo, hi)
  {
    hide ScaleFor, Scaled;
    px := new u16[|v|];
    lo, hi := v[0], v[0];
    for i := 1 to |v|
      invariant lo in v && hi in v && forall k :: 0 <= k < i ==> lo <= v[k] <= hi
    {
      lo := if v[i] < lo then v[i] else lo;
      hi := if v[i] > hi then v[i] else hi;
    }
    var scale := ScaleFor(lo, hi);
    for i := 0 to |v|
      invariant forall k :: 0 <= k < i ==> px[k] == Level(v[k], lo, hi)
    {
      var s := Scaled(v[i] - lo, scale);
      px[i] := Round(Limited(s)) as u16;
    }
  }

  lemma Product(a: real, b: real)
    requires 0.0 <= a && 0.0 <= b
    ensures 0.0 <= a * b
  {
  }

  lemma Cancelled(a: real, scale: real, range: real)
    requires scale * range == LEVELS
    ensures (a * scale) / LEVELS * range == a
  {
  }

  /** Inside the range the scaled value needs no limiting, and it is the fraction of the range passed. */
  lemma {:induction false} ScaledFraction(v: real, lo: real, hi: real)
    requires lo <= v <= hi && lo < hi
    ensures var s := Scaled(v - lo, ScaleFor(lo, hi));
            0.0 <= s <= LEVELS && Limited(s) == s && s / LEVELS * (hi - lo) == v - lo
  {
    var range, scale := hi - lo, ScaleFor(lo, hi);
    assert scale * range == LEVELS;
    var s := (v - lo) * scale;
    Product(v - lo, scale);
    Product(hi - v, scale);
    assert s + (hi - v) * scale == range * scale;
    Cancelled(v - lo, scale, range);
  }

  /** To the nearest level, and upwards halfway. */
  lemma RoundIsNear(s: real, n: int)
    ensures Round(s) == n <==> n as real - 0.5 <= s < n as real + 0.5
  {
  }

  lemma ErrorOf(p: real, s: real, range: real)
    ensures p / LEVELS * range - s / LEVELS * range == (p - s) * range / LEVELS
  {
  }

  lemma HalfOf(d: real, range: real)
    requires -0.5 <= d <= 0.5 && range >= 0.0
    ensures -range / (2.0 * LEVELS) <= d * range / LEVELS <= range / (2.0 * LEVELS)
  {
    Product(0.5 - d, range);
    Product(d + 0.5, range);
  }

  lemma LevelIsNear(v: real, lo: real, hi: real)
    requires lo <= v <= hi && lo < hi
    ensures -0.5 <= Level(v, lo, hi) as real - Scaled(v - lo, ScaleFor(lo, hi)) <= 0.5
  {
    hide Scaled, ScaleFor, Round;
    ScaledFraction(v, lo, hi);
    var s := Scaled(v - lo, ScaleFor(lo, hi));
    RoundIsNear(s, Round(s));
  }

  /** Every depth comes back within half a level. */
  lemma {:induction false} HalfLevelError(v: real, lo: real, hi: real)
    requires lo <= v <= hi
    ensures var e := Recovered(Level(v, lo, hi), lo, hi) - v;
            -(hi - lo) / (2.0 * LEVELS) <= e <= (hi - lo) / (2.0 * LEVELS)
  {
    hide Level, ScaleFor, Round, Scaled;
    if lo < hi {
      LevelIsNear(v, lo, hi);
      ScaledFraction(v, lo, hi);
      var p, s := Level(v, lo, hi) as real, Scaled(v - lo, ScaleFor(lo, hi));
      ErrorOf(p, s, hi - lo);
      HalfOf(p - s, hi - lo);
    }
  }

  /** An image of one depth is all zero. */
  lemma PlainIsZero(v: real)
    ensures Level(v, v, v) == 0
  {
  }

  lemma WholeScale(range: real)
    requires range > 0.0
    ensures Scaled(range, LEVELS / range) == LEVELS && LEVELS / range >= 0.0
  {
  }

  lemma ScaledOrdered(v: real, u: real, lo: real, hi: real)
    requires lo <= v <= u <= hi && lo < hi
    ensures var scale := ScaleFor(lo, hi);
            Scaled(v - lo, scale) <= Scaled(u - lo, scale)
    ensures Scaled(lo - lo, ScaleFor(lo, hi)) == 0.0 && Scaled(hi - lo, ScaleFor(lo, hi)) == LEVELS
  {
    var scale := ScaleFor(lo, hi);
    WholeScale(hi - lo);
    Product(u - v, scale);
    assert (u - lo) * scale - (v - lo) * scale == (u - v) * scale;
  }

  /** The ends of the range get the ends of the scale, and deeper values never get a lower level. */
  lemma {:induction false} LevelsAreOrdered(v: real, u: real, lo: real, hi: real)
    requires lo <= v <= u <= hi && lo < hi
    ensures Level(v, lo, hi) <= Level(u, lo, hi)
    ensures Level(lo, lo, hi) == 0 && Level(hi, lo, hi) == 65535
  {
    hide ScaleFor, Scaled;
    ScaledFraction(v, lo, hi);
    ScaledFraction(u, lo, hi);
    ScaledOrdered(v, u, lo, hi);
  }
}
