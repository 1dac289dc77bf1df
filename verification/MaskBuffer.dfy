/** The mask a request carries through src/server/matting_endpoints.cpp: `mask_offset` and `mask_blur`
    rewrite it in place or swap it for a new buffer. */
module MaskBuffer {
  import opened Arith
  import opened Images
  import opened MaskBlur
  import opened MaskMorphology

  /** The two inner loops: the lowest value around one pixel. */
  method LowestNear(src: seq<real>, w: int, h: int, r: nat, x: int, y: int) returns (val: real)
    requires IsImage(src, w, h)
    ensures val == Eroded(Clamped(src, w, h), r)(x, y)
  {
    ghost var rows := WindowRow(Clamped(src, w, h), r, x, y);
    val := 1.0;
    for dy := 0 - r to r + 1
      invariant val == LowestOf(rows, dy + r)
    {
      ghost var line := WindowLine(Clamped(src, w, h), r, x, y + dy);
      ghost var above := val;
      for dx := 0 - r to r + 1
        invariant val == MinReal(above, LowestOf(line, dx + r))
      {
        var nx, ny := Clamp(x + dx, 0, w - 1), Clamp(y + dy, 0, h - 1);
        PixelRepeats(src, w, h, x + dx, y + dy);
        PixelInside(src, w, h, nx, ny);
        val := MinReal(val, src[ny * w + nx]);
      }
    }
  }

  method ErodeRow(src: seq<real>, dst: array<real>, w: int, h: int, r: nat, y: int)
    requires IsImage(src, w, h) && dst.Length == |src| && 0 <= y < h
    requires Filled(dst[..], Eroded(Clamped(src, w, h), r), w, y * w)
    modifies dst
    ensures Filled(dst[..], Eroded(Clamped(src, w, h), r), w, y * w + w)
  {
    assert 1 <= w;
    ghost var goal := Eroded(Clamped(src, w, h), r);
    hide Eroded, Clamped, Filled, IsImage;
    for x := 0 to w
      invariant Filled(dst[..], goal, w, y * w + x)
    {
      var val := LowestNear(src, w, h, r, x, y);
      PixelInside(src, w, h, x, y);
      ghost var before := dst[..];
      dst[y * w + x] := val;
      FilledStep(before, dst[..], goal, w, x, y);
    }
  }

  /** `erosion` of src/visp/image.cpp. */
  method Erode(src: seq<real>, dst: array<real>, w: int, h: int, r: nat)
    requires IsImage(src, w, h) && dst.Length == |src| && 0 < r
    modifies dst
    ensures dst[..] == ErodedImage(src, w, h, r)
  {
    hide Eroded, Clamped, Filled, Draw;
    ghost var goal := Eroded(Clamped(src, w, h), r);
    NothingFilled(dst[..], goal, w);
    for y := 0 to h
      invariant Filled(dst[..], goal, w, y * w)
    {
      ErodeRow(src, dst, w, h, r, y);
      NextLine(y, w);
    }
    FilledIsDrawn(dst[..], goal, w, h);
  }

  /** What `mask_offset` makes of a mask: shrunk, kept or grown. */
  function OffsetImage(a: seq<real>, w: int, h: int, r: int): seq<real>
    requires IsImage(a, w, h)
  {
    if r == 0 then a else if r < 0 then ErodedImage(a, w, h, -r) else DilatedImage(a, w, h, r)
  }

  /** Every value v becomes 1 - v. */
  method Flip(values: array<real>)
    modifies values
    ensures values[..] == Complement(old(values[..]))
  {
    for i := 0 to values.Length
      invariant forall k :: 0 <= k < i ==> values[k] == 1.0 - old(values[k])
      invariant forall k :: i <= k < values.Length ==> values[k] == old(values[k])
    {
      values[i] := 1.0 - values[i];
    }
  }

  class Mask {
    var values: array<real>

    constructor (values: array<real>)
      ensures this.values == values
    {
      this.values := values;
    }

    /** `mask_offset`. */
    method Offset(w: int, h: int, r: int)
      requires IsImage(values[..], w, h)
      modifies this, values
      ensures values == old(values) || fresh(values)
      ensures values[..] == OffsetImage(old(values[..]), w, h, r)
    {
      if r == 0 {
        return;
      }
      var tmp := new real[values.Length];
      if r < 0 {
        Erode(values[..], tmp, w, h, -r);
        values := tmp;
        return;
      }
      ghost var before := values[..];
      Flip(values);
      Erode(values[..], tmp, w, h, r);
      for i := 0 to tmp.Length
        invariant values == old(values) && tmp[..] == ErodedImage(Complement(before), w, h, r)
        invariant forall k :: 0 <= k < i ==> values[k] == 1.0 - tmp[k]
      {
        values[i] := 1.0 - tmp[i];
      }
      assert values[..] == Complement(tmp[..]);
    }

    /** `mask_blur`. */
    method Blur(w: int, h: int, r: int)
      requires IsImage(values[..], w, h) && r <= w / 2 && r <= h / 2
      modifies this
      ensures values == old(values) || fresh(values)
      ensures values[..] == if r <= 0 then old(values[..]) else Blurred(old(values[..]), w, h, r)
    {
      if r <= 0 {
        return;
      }
      var tmp := new real[values.Length];
      MaskBlur.Blur(values[..], tmp, w, h, r);
      values := tmp;
    }
  }

  /** A positive radius grows a mask: a bound holds for a pixel exactly if it is not negative and holds for
      every pixel within the radius. A negative one shrinks it: likewise for lower bounds. */
  lemma {:induction false} OffsetAt(a: seq<real>, w: int, h: int, r: int, x: int, y: int, c: real)
    requires IsMask(a, w, h) && Inside(w, h, x, y)
    ensures IsImage(OffsetImage(a, w, h, r), w, h)
    ensures var v := At(OffsetImage(a, w, h, r), w, h, x, y);
            && (r > 0 ==> (v <= c <==> 0.0 <= c && AboveWindow(a, w, h, r, x, y, c)))
            && (r < 0 ==> (c <= v <==> c <= 1.0 && BelowWindow(a, w, h, -r, x, y, c)))
            && (r == 0 ==> v == At(a, w, h, x, y))
  {
    if r > 0 {
      DilatedAt(a, w, h, r, x, y, c);
    } else if r < 0 {
      ErodedAt(a, w, h, -r, x, y, c);
    }
  }

  lemma {:induction false} PositiveGrowsNegativeShrinks(a: seq<real>, w: int, h: int, r: int)
    requires IsMask(a, w, h)
    ensures IsMask(OffsetImage(a, w, h, r), w, h)
    ensures r >= 0 ==> Below(a, OffsetImage(a, w, h, r), w, h)
    ensures r <= 0 ==> Below(OffsetImage(a, w, h, r), a, w, h)
  {
    if r != 0 {
      OffsetKeepsMask(a, w, h, if r < 0 then -r else r);
    }
    forall x, y | Inside(w, h, x, y)
      ensures r >= 0 ==> At(a, w, h, x, y) <= At(OffsetImage(a, w, h, r), w, h, x, y)
      ensures r <= 0 ==> At(OffsetImage(a, w, h, r), w, h, x, y) <= At(a, w, h, x, y)
    {
      OffsetAt(a, w, h, r, x, y, At(OffsetImage(a, w, h, r), w, h, x, y));
    }
  }

  /** Growing and shrinking by the same radius, in either order, settles after one round: doing it
      again changes nothing. */
  lemma {:induction false} OppositeOffsetsSettle(a: seq<real>, w: int, h: int, r: int)
    requires IsMask(a, w, h)
    ensures var once := OffsetImage(OffsetImage(a, w, h, r), w, h, -r);
            && IsImage(once, w, h)
            && OffsetImage(OffsetImage(once, w, h, r), w, h, -r) == once
  {
    OpeningAndClosingIdempotent(a, w, h, if r < 0 then -r else r);
  }
}
