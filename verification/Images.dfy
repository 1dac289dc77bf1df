/** One-channel images: a row-major buffer, and the same pixels as a function of two coordinates with
    everything outside the image repeating its border. */
module Images {
  import opened Arith

  type Field = (int, int) -> real

  function Row(f: Field, y: int): int -> real {
    x => f(x, y)
  }

  function Column(f: Field, x: int): int -> real {
    y => f(x, y)
  }

  predicate IsImage(image: seq<real>, w: int, h: int) {
    1 <= w && 1 <= h && |image| == w * h
  }

  function Pixel(image: seq<real>, w: int, h: int, x: int, y: int): real
    requires IsImage(image, w, h)
  {
    var cx, cy := Clamp(x, 0, w - 1), Clamp(y, 0, h - 1);
    FlatBound(cx, cy, w, h);
    image[cy * w + cx]
  }

  function Clamped(image: seq<real>, w: int, h: int): Field
    requires IsImage(image, w, h)
  {
    (x, y) => Pixel(image, w, h, x, y)
  }

  lemma PixelInside(image: seq<real>, w: int, h: int, x: int, y: int)
    requires IsImage(image, w, h) && 0 <= x < w && 0 <= y < h
    ensures 0 <= y * w + x < |image| && Clamped(image, w, h)(x, y) == image[y * w + x]
  {
    FlatBound(x, y, w, h);
  }

  lemma PixelRepeats(image: seq<real>, w: int, h: int, x: int, y: int)
    requires IsImage(image, w, h)
    ensures Clamped(image, w, h)(x, y) == Clamped(image, w, h)(Clamp(x, 0, w - 1), Clamp(y, 0, h - 1))
    ensures Clamped(image, w, h)(x, y) == Clamped(image, w, h)(Clamp(x, 0, w - 1), y)
    ensures Clamped(image, w, h)(x, y) == Clamped(image, w, h)(x, Clamp(y, 0, h - 1))
  {
  }

  /** The image with pixel f(x, y) at (x, y). */
  function Draw(f: Field, w: int, h: int): (image: seq<real>)
    requires 1 <= w && 1 <= h
    ensures IsImage(image, w, h)
  {
    FlatBound(0, h - 1, w, h);
    seq(w * h, k requires 0 <= k < w * h => f(k % w, k / w))
  }

  lemma {:induction false} DrawAt(f: Field, w: int, h: int, x: int, y: int)
    requires 1 <= w && 1 <= h && 0 <= x < w && 0 <= y < h
    ensures Clamped(Draw(f, w, h), w, h)(x, y) == f(x, y)
  {
    FlatIndex(x, y, w);
    FlatBound(x, y, w, h);
  }

  /** Images drawn from fields that agree inside the image are equal. */
  lemma {:induction false} DrawEqual(f: Field, g: Field, w: int, h: int)
    requires 1 <= w && 1 <= h
    requires forall x, y :: 0 <= x < w && 0 <= y < h ==> f(x, y) == g(x, y)
    ensures Draw(f, w, h) == Draw(g, w, h)
  {
  }

  // ---------------------------------------------------------------------------------------
  // Filling a buffer in row order, and in column order
  // ---------------------------------------------------------------------------------------

  ghost predicate Filled(s: seq<real>, f: Field, w: int, k: int)
    requires 1 <= w
  {
    forall i :: 0 <= i < |s| && i < k ==> s[i] == f(i % w, i / w)
  }

  lemma {:induction false} FilledStep(s: seq<real>, t: seq<real>, f: Field, w: int, x: int, y: int)
    requires 0 <= x < w && 0 <= y && 0 <= y * w + x < |s|
    requires Filled(s, f, w, y * w + x) && t == s[y * w + x := f(x, y)]
    ensures Filled(t, f, w, y * w + x + 1)
  {
    FlatIndex(x, y, w);
  }

  lemma FilledIsDrawn(s: seq<real>, f: Field, w: int, h: int)
    requires IsImage(s, w, h) && Filled(s, f, w, w * h)
    ensures s == Draw(f, w, h)
  {
  }

  /** The columns before x are filled, and column x down to row y. */
  ghost predicate ColumnsFilled(s: seq<real>, f: Field, w: int, x: int, y: int)
    requires 1 <= w
  {
    forall i :: 0 <= i < |s| && (i % w < x || (i % w == x && i / w < y)) ==> s[i] == f(i % w, i / w)
  }

  lemma {:induction false} ColumnStep(s: seq<real>, t: seq<real>, f: Field, w: int, x: int, y: int)
    requires 0 <= x < w && 0 <= y && 0 <= y * w + x < |s|
    requires ColumnsFilled(s, f, w, x, y) && t == s[y * w + x := f(x, y)]
    ensures ColumnsFilled(t, f, w, x, y + 1)
  {
    FlatIndex(x, y, w);
    forall i | 0 <= i < |t| && (i % w < x || (i % w == x && i / w < y + 1))
      ensures t[i] == f(i % w, i / w)
    {
      DivModBounds(i, w);
    }
  }

  lemma {:induction false} ColumnEnds(s: seq<real>, f: Field, w: int, h: int, x: int)
    requires IsImage(s, w, h) && ColumnsFilled(s, f, w, x, h)
    ensures ColumnsFilled(s, f, w, x + 1, 0)
  {
  }

  lemma {:induction false} ColumnsAreDrawn(s: seq<real>, f: Field, w: int, h: int)
    requires IsImage(s, w, h) && ColumnsFilled(s, f, w, w, 0)
    ensures s == Draw(f, w, h)
  {
  }
}
