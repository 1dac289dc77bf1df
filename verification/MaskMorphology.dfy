/** Erosion and dilation of masks: `erosion` of src/visp/image.cpp and `mask_offset` of
    src/server/matting_endpoints.cpp, which dilates by eroding the complement. */
module MaskMorphology {
  import opened Arith
  import opened Images

  function MinReal(a: real, b: real): real {
    if b < a then b else a
  }

  // ---------------------------------------------------------------------------------------
  // The lowest value of a window
  // ---------------------------------------------------------------------------------------

  /** The running minimum after n terms, starting from 1. */
  function LowestOf(f: int -> real, n: nat): (v: real)
    ensures v <= 1.0
  {
    if n == 0 then 1.0 else MinReal(LowestOf(f, n - 1), f(n - 1))
  }

  function WindowLine(f: Field, r: nat, x: int, y: int): int -> real {
    i => f(x - r + i, y)
  }

  function WindowRow(f: Field, r: nat, x: int, y: int): int -> real {
    j => LowestOf(WindowLine(f, r, x, y - r + j), 2 * r + 1)
  }

  /** The lowest value of the (2r + 1) by (2r + 1) window around (x, y), and at most 1. */
  function Eroded(f: Field, r: nat): Field {
    (x, y) => LowestOf(WindowRow(f, r, x, y), 2 * r + 1)
  }

  function ErodedImage(image: seq<real>, w: int, h: int, r: nat): (e: seq<real>)
    requires IsImage(image, w, h)
    ensures IsImage(e, w, h)
  {
    Draw(Eroded(Clamped(image, w, h), r), w, h)
  }

  function Complement(image: seq<real>): (c: seq<real>)
    ensures |c| == |image|
  {
    seq(|image|, k requires 0 <= k < |image| => 1.0 - image[k])
  }

  function DilatedImage(image: seq<real>, w: int, h: int, r: nat): (d: seq<real>)
    requires IsImage(image, w, h)
    ensures IsImage(d, w, h)
  {
    Complement(ErodedImage(Complement(image), w, h, r))
  }

  lemma {:induction false} LowestIsGreatestBound(f: int -> real, n: nat, c: real)
    ensures c <= LowestOf(f, n) <==> c <= 1.0 && forall i :: 0 <= i < n ==> c <= f(i)
  {
    if n > 0 {
      LowestIsGreatestBound(f, n - 1, c);
    }
  }

  /** Pixel (p, q) is in the window around (x, y). */
  predicate Near(r: int, x: int, y: int, p: int, q: int) {
    x - r <= p <= x + r && y - r <= q <= y + r
  }

  lemma {:induction false} LineIsGreatestBound(f: Field, r: nat, x: int, y: int, c: real)
    ensures c <= LowestOf(WindowLine(f, r, x, y), 2 * r + 1) <==>
      c <= 1.0 && forall p :: x - r <= p <= x + r ==> c <= f(p, y)
  {
    var line := WindowLine(f, r, x, y);
    LowestIsGreatestBound(line, 2 * r + 1, c);
    if c <= LowestOf(line, 2 * r + 1) {
      forall p | x - r <= p <= x + r
        ensures c <= f(p, y)
      {
        assert c <= line(p - x + r);
      }
    }
  }

  /** An eroded field is the greatest one that stays below every value in each window. */
  lemma {:induction false} ErodedIsGreatestBound(f: Field, r: nat, x: int, y: int, c: real)
    ensures c <= Eroded(f, r)(x, y) <==> c <= 1.0 && forall p, q :: Near(r, x, y, p, q) ==> c <= f(p, q)
  {
    var rows := WindowRow(f, r, x, y);
    LowestIsGreatestBound(rows, 2 * r + 1, c);
    if c <= Eroded(f, r)(x, y) {
      forall p, q | Near(r, x, y, p, q)
        ensures c <= f(p, q)
      {
        assert c <= rows(q - y + r);
        LineIsGreatestBound(f, r, x, q, c);
      }
    }
    if c <= 1.0 && forall p, q :: Near(r, x, y, p, q) ==> c <= f(p, q) {
      forall j | 0 <= j < 2 * r + 1
        ensures c <= rows(j)
      {
        var q := y - r + j;
        forall p | x - r <= p <= x + r
          ensures c <= f(p, q)
        {
          assert Near(r, x, y, p, q);
        }
        LineIsGreatestBound(f, r, x, q, c);
      }
    }
  }

  predicate Inside(w: int, h: int, x: int, y: int) {
    0 <= x < w && 0 <= y < h
  }

  /** The value at a pixel of the image. */
  function At(image: seq<real>, w: int, h: int, x: int, y: int): real
    requires IsImage(image, w, h)
  {
    Clamped(image, w, h)(x, y)
  }

  /** The clamped window never reaches a pixel of the image that is not near. */
  ghost predicate BelowWindow(image: seq<real>, w: int, h: int, r: int, x: int, y: int, c: real)
    requires IsImage(image, w, h)
  {
    forall p, q :: Inside(w, h, p, q) && Near(r, x, y, p, q) ==> c <= At(image, w, h, p, q)
  }

  lemma {:induction false} ErodedAt(image: seq<real>, w: int, h: int, r: nat, x: int, y: int, c: real)
    requires IsImage(image, w, h) && Inside(w, h, x, y)
    ensures c <= At(ErodedImage(image, w, h, r), w, h, x, y) <==>
      c <= 1.0 && BelowWindow(image, w, h, r, x, y, c)
  {
    var f := Clamped(image, w, h);
    DrawAt(Eroded(f, r), w, h, x, y);
    ErodedIsGreatestBound(f, r, x, y, c);
    if BelowWindow(image, w, h, r, x, y, c) {
      forall p, q | Near(r, x, y, p, q)
        ensures c <= f(p, q)
      {
        PixelRepeats(image, w, h, p, q);
        var cp, cq := Clamp(p, 0, w - 1), Clamp(q, 0, h - 1);
        assert Inside(w, h, cp, cq) && Near(r, x, y, cp, cq);
        assert c <= At(image, w, h, cp, cq);
      }
    }
  }

  ghost predicate AboveWindow(image: seq<real>, w: int, h: int, r: int, x: int, y: int, c: real)
    requires IsImage(image, w, h)
  {
    forall p, q :: Inside(w, h, p, q) && Near(r, x, y, p, q) ==> At(image, w, h, p, q) <= c
  }

  lemma ComplementAt(image: seq<real>, w: int, h: int, x: int, y: int)
    requires IsImage(image, w, h) && Inside(w, h, x, y)
    ensures At(Complement(image), w, h, x, y) == 1.0 - At(image, w, h, x, y)
  {
    PixelInside(image, w, h, x, y);
    PixelInside(Complement(image), w, h, x, y);
  }

  lemma {:induction false} DilatedAt(image: seq<real>, w: int, h: int, r: nat, x: int, y: int, c: real)
    requires IsImage(image, w, h) && Inside(w, h, x, y)
    ensures At(DilatedImage(image, w, h, r), w, h, x, y) <= c <==>
      0.0 <= c && AboveWindow(image, w, h, r, x, y, c)
  {
    var complement := Complement(image);
    ErodedAt(complement, w, h, r, x, y, 1.0 - c);
    ComplementAt(ErodedImage(complement, w, h, r), w, h, x, y);
    forall p, q | Inside(w, h, p, q)
      ensures At(complement, w, h, p, q) == 1.0 - At(image, w, h, p, q)
    {
      ComplementAt(image, w, h, p, q);
    }
  }

  // ---------------------------------------------------------------------------------------
  // The order of masks
  // ---------------------------------------------------------------------------------------

  ghost predicate Below(a: seq<real>, b: seq<real>, w: int, h: int)
    requires IsImage(a, w, h) && IsImage(b, w, h)
  {
    forall x, y :: Inside(w, h, x, y) ==> At(a, w, h, x, y) <= At(b, w, h, x, y)
  }

  ghost predicate IsMask(a: seq<real>, w: int, h: int) {
    IsImage(a, w, h) && forall x, y :: Inside(w, h, x, y) ==> 0.0 <= At(a, w, h, x, y) <= 1.0
  }

  lemma {:induction false} BelowBothWays(a: seq<real>, b: seq<real>, w: int, h: int)
    requires IsImage(a, w, h) && IsImage(b, w, h) && Below(a, b, w, h) && Below(b, a, w, h)
    ensures a == b
  {
    forall k | 0 <= k < |a|
      ensures a[k] == b[k]
    {
      FlatSplit(k, w, h);
      PixelInside(a, w, h, k % w, k / w);
      PixelInside(b, w, h, k % w, k / w);
      assert At(a, w, h, k % w, k / w) <= At(b, w, h, k % w, k / w);
    }
  }

  /** Both operations turn masks into masks. */
  lemma {:induction false} OffsetKeepsMask(a: seq<real>, w: int, h: int, r: nat)
    requires IsMask(a, w, h)
    ensures IsMask(ErodedImage(a, w, h, r), w, h) && IsMask(DilatedImage(a, w, h, r), w, h)
  {
    var e, d := ErodedImage(a, w, h, r), DilatedImage(a, w, h, r);
    forall x, y | Inside(w, h, x, y)
      ensures 0.0 <= At(e, w, h, x, y) <= 1.0 && 0.0 <= At(d, w, h, x, y) <= 1.0
    {
      ErodedAt(a, w, h, r, x, y, 0.0);
      ErodedAt(a, w, h, r, x, y, At(e, w, h, x, y));
      DilatedAt(a, w, h, r, x, y, 1.0);
      DilatedAt(a, w, h, r, x, y, At(d, w, h, x, y));
    }
  }

  /** Dilation and erosion are adjoint: dilating a stays below b exactly if a stays below b eroded. */
  lemma {:induction false} Galois(a: seq<real>, b: seq<real>, w: int, h: int, r: nat)
    requires IsMask(a, w, h) && IsMask(b, w, h)
    ensures Below(DilatedImage(a, w, h, r), b, w, h) <==> Below(a, ErodedImage(b, w, h, r), w, h)
  {
    var d, e := DilatedImage(a, w, h, r), ErodedImage(b, w, h, r);
    forall x, y | Inside(w, h, x, y)
      ensures At(d, w, h, x, y) <= At(b, w, h, x, y) <==> AboveWindow(a, w, h, r, x, y, At(b, w, h, x, y))
      ensures At(a, w, h, x, y) <= At(e, w, h, x, y) <==> BelowWindow(b, w, h, r, x, y, At(a, w, h, x, y))
    {
      DilatedAt(a, w, h, r, x, y, At(b, w, h, x, y));
      ErodedAt(b, w, h, r, x, y, At(a, w, h, x, y));
    }
    if Below(d, b, w, h) {
      forall x, y, p, q | Inside(w, h, x, y) && Inside(w, h, p, q) && Near(r, x, y, p, q)
        ensures At(a, w, h, x, y) <= At(b, w, h, p, q)
      {
        assert Near(r, p, q, x, y) && At(d, w, h, p, q) <= At(b, w, h, p, q);
      }
    }
    if Below(a, e, w, h) {
      forall x, y, p, q | Inside(w, h, x, y) && Inside(w, h, p, q) && Near(r, x, y, p, q)
        ensures At(a, w, h, p, q) <= At(b, w, h, x, y)
      {
        assert Near(r, p, q, x, y) && At(a, w, h, p, q) <= At(e, w, h, p, q);
      }
    }
  }

  // ---------------------------------------------------------------------------------------
  // Consequences
  // ---------------------------------------------------------------------------------------

  lemma {:induction false} ErosionMonotone(a: seq<real>, b: seq<real>, w: int, h: int, r: nat)
    requires IsImage(a, w, h) && IsImage(b, w, h) && Below(a, b, w, h)
    ensures Below(ErodedImage(a, w, h, r), ErodedImage(b, w, h, r), w, h)
  {
    var e := ErodedImage(a, w, h, r);
    forall x, y | Inside(w, h, x, y)
      ensures At(e, w, h, x, y) <= At(ErodedImage(b, w, h, r), w, h, x, y)
    {
      var c := At(e, w, h, x, y);
      ErodedAt(a, w, h, r, x, y, c);
      ErodedAt(b, w, h, r, x, y, c);
    }
  }

  lemma {:induction false} DilationMonotone(a: seq<real>, b: seq<real>, w: int, h: int, r: nat)
    requires IsImage(a, w, h) && IsImage(b, w, h) && Below(a, b, w, h)
    ensures Below(DilatedImage(a, w, h, r), DilatedImage(b, w, h, r), w, h)
  {
    var d := DilatedImage(b, w, h, r);
    forall x, y | Inside(w, h, x, y)
      ensures At(DilatedImage(a, w, h, r), w, h, x, y) <= At(d, w, h, x, y)
    {
      var c := At(d, w, h, x, y);
      DilatedAt(a, w, h, r, x, y, c);
      DilatedAt(b, w, h, r, x, y, c);
    }
  }

  function Opened(a: seq<real>, w: int, h: int, r: nat): seq<real>
    requires IsImage(a, w, h)
  {
    DilatedImage(ErodedImage(a, w, h, r), w, h, r)
  }

  function ClosedUp(a: seq<real>, w: int, h: int, r: nat): seq<real>
    requires IsImage(a, w, h)
  {
    ErodedImage(DilatedImage(a, w, h, r), w, h, r)
  }

  /** Opening shrinks a mask, closing grows it. */
  lemma {:induction false} OpeningShrinksClosingGrows(a: seq<real>, w: int, h: int, r: nat)
    requires IsMask(a, w, h)
    ensures Below(Opened(a, w, h, r), a, w, h) && Below(a, ClosedUp(a, w, h, r), w, h)
  {
    OffsetKeepsMask(a, w, h, r);
    Galois(ErodedImage(a, w, h, r), a, w, h, r);
    Galois(a, DilatedImage(a, w, h, r), w, h, r);
  }

  lemma MaskIsImage(a: seq<real>, w: int, h: int)
    requires IsMask(a, w, h)
    ensures IsImage(a, w, h)
  {
  }

  /** Opening twice is opening once, and closing twice is closing once. */
  lemma {:induction false} OpeningAndClosingIdempotent(a: seq<real>, w: int, h: int, r: nat)
    requires IsMask(a, w, h)
    ensures Opened(Opened(a, w, h, r), w, h, r) == Opened(a, w, h, r)
    ensures ClosedUp(ClosedUp(a, w, h, r), w, h, r) == ClosedUp(a, w, h, r)
  {
    hide ErodedImage, DilatedImage, Below, IsMask;
    MaskIsImage(a, w, h);
    var e, d := ErodedImage(a, w, h, r), DilatedImage(a, w, h, r);
    OffsetKeepsMask(a, w, h, r);
    OpeningShrinksClosingGrows(a, w, h, r);
    OpeningShrinksClosingGrows(e, w, h, r);
    OpeningShrinksClosingGrows(d, w, h, r);
    // eroding the opening gives the erosion back, dilating the closing the dilation
    ErosionMonotone(Opened(a, w, h, r), a, w, h, r);
    BelowBothWays(ErodedImage(Opened(a, w, h, r), w, h, r), e, w, h);
    DilationMonotone(a, ClosedUp(a, w, h, r), w, h, r);
    BelowBothWays(DilatedImage(ClosedUp(a, w, h, r), w, h, r), d, w, h);
  }

  lemma {:induction false} TwoWindows(a: seq<real>, w: int, h: int, r: nat, s: nat, x: int, y: int, c: real)
    requires IsImage(a, w, h) && Inside(w, h, x, y)
    ensures c <= At(ErodedImage(ErodedImage(a, w, h, r), w, h, s), w, h, x, y) <==>
            c <= At(ErodedImage(a, w, h, r + s), w, h, x, y)
  {
    var inner := ErodedImage(a, w, h, r);
    ErodedAt(inner, w, h, s, x, y, c);
    ErodedAt(a, w, h, r + s, x, y, c);
    forall p, q | Inside(w, h, p, q)
      ensures c <= At(inner, w, h, p, q) <==> c <= 1.0 && BelowWindow(a, w, h, r, p, q, c)
    {
      ErodedAt(a, w, h, r, p, q, c);
    }
    if c <= 1.0 && BelowWindow(inner, w, h, s, x, y, c) {
      forall u, v | Inside(w, h, u, v) && Near(r + s, x, y, u, v)
        ensures c <= At(a, w, h, u, v)
      {
        // a pixel of the image on the way from (x, y) to (u, v)
        var p, q := Clamp(u, x - s, x + s), Clamp(v, y - s, y + s);
        assert Inside(w, h, p, q) && Near(s, x, y, p, q) && Near(r, p, q, u, v);
        assert c <= At(inner, w, h, p, q);
      }
    }
    if BelowWindow(a, w, h, r + s, x, y, c) {
      forall p, q, u, v | Inside(w, h, p, q) && Near(s, x, y, p, q) && Inside(w, h, u, v) && Near(r, p, q, u, v)
        ensures c <= At(a, w, h, u, v)
      {
        assert Near(r + s, x, y, u, v);
      }
    }
  }

  /** Eroding by r and then by s is eroding by r + s. */
  lemma {:induction false} ErosionsAddUp(a: seq<real>, w: int, h: int, r: nat, s: nat)
    requires IsImage(a, w, h)
    ensures ErodedImage(ErodedImage(a, w, h, r), w, h, s) == ErodedImage(a, w, h, r + s)
  {
    var inner := ErodedImage(a, w, h, r);
    var twice, once := ErodedImage(inner, w, h, s), ErodedImage(a, w, h, r + s);
    forall x, y | Inside(w, h, x, y)
      ensures At(twice, w, h, x, y) <= At(once, w, h, x, y) && At(once, w, h, x, y) <= At(twice, w, h, x, y)
    {
      TwoWindows(a, w, h, r, s, x, y, At(twice, w, h, x, y));
      TwoWindows(a, w, h, r, s, x, y, At(once, w, h, x, y));
    }
    BelowBothWays(twice, once, w, h);
  }
}
