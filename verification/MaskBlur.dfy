/** The box blur of src/visp/image.cpp: two passes of running sums, against the mean of the square window
    around each pixel. */
module MaskBlur {
  import opened Arith
  import opened Sums
  import opened Images

  function Side(r: nat): nat {
    2 * r + 1
  }

  /** The sum of the 2r + 1 terms around x. */
  function WindowSum(f: Terms, r: nat, x: int): real {
    Sum(Shift(f, x - r), Side(r))
  }

  function Weight(r: nat): real {
    1.0 / Side(r) as real
  }

  function Mean(sum: real, r: nat): real {
    sum * Weight(r)
  }

  /** What one horizontal pass, and one vertical pass, makes of a field. */
  function RowMeans(f: Field, r: nat): Field {
    (x, y) => Mean(WindowSum(Row(f, y), r, x), r)
  }

  function ColumnMeans(f: Field, r: nat): Field {
    (x, y) => Mean(WindowSum(Column(f, x), r, y), r)
  }

  /** For each row the sum of its window around x. */
  function RowSums(f: Field, r: nat, x: int): Terms {
    y => WindowSum(Row(f, y), r, x)
  }

  function SquareMean(sum: real, r: nat): real {
    sum / (Side(r) as real * Side(r) as real)
  }

  /** The mean of the (2r + 1) by (2r + 1) window around (x, y). */
  function BoxMean(f: Field, r: nat): Field {
    (x, y) => SquareMean(WindowSum(RowSums(f, r, x), r, y), r)
  }

  /** The whole image, each pixel replaced by the mean of its window, border pixels repeated. */
  function Blurred(image: seq<real>, w: int, h: int, r: nat): (b: seq<real>)
    requires IsImage(image, w, h)
    ensures IsImage(b, w, h)
  {
    Draw(BoxMean(Clamped(image, w, h), r), w, h)
  }

  // ---------------------------------------------------------------------------------------
  // Running sums
  // ---------------------------------------------------------------------------------------

  /** Moving the window by one drops its first term and gains a last one. */
  lemma {:induction false} SumSlides(f: Terms, a: int, n: nat)
    ensures Sum(Shift(f, a + 1), n) == Sum(Shift(f, a), n) - f(a) + f(a + n)
  {
    if n > 0 {
      SumSlides(f, a, n - 1);
    }
  }

  lemma {:induction false} WindowMoves(f: Terms, r: nat, x: int)
    ensures WindowSum(f, r, x) == WindowSum(f, r, x - 1) - f(x - r - 1) + f(x + r)
  {
    SumSlides(f, x - 1 - r, Side(r));
  }

  /** The first window of a line whose terms before 0 repeat the term at 0. */
  lemma {:induction false} FirstWindow(f: Terms, r: nat)
    requires forall i :: i < 0 ==> f(i) == f(0)
    ensures WindowSum(f, r, 0) == r as real * f(0) + Sum(f, r + 1)
  {
    hide Sum;
    var g := Shift(f, 0 - r);
    assert WindowSum(f, r, 0) == Sum(g, r + (r + 1));
    SumSplits(g, r, r + 1);
    forall i | 0 <= i < r
      ensures g(i) == Constant(f(0))(i)
    {
      assert f(0 - r + i) == f(0);
    }
    SumEqual(g, Constant(f(0)), r);
    SumOfConstant(f(0), r);
    SumEqual(Shift(g, r), f, r + 1);
  }

  lemma EdgeRepeats(image: seq<real>, w: int, h: int, at: int)
    requires IsImage(image, w, h)
    ensures forall i :: i < 0 ==> Row(Clamped(image, w, h), at)(i) == Row(Clamped(image, w, h), at)(0)
    ensures forall i :: i < 0 ==> Column(Clamped(image, w, h), at)(i) == Column(Clamped(image, w, h), at)(0)
  {
  }

  // ---------------------------------------------------------------------------------------
  // Two one-dimensional means are the mean of the square
  // ---------------------------------------------------------------------------------------

  lemma {:induction false} RowRepeats(src: seq<real>, w: int, h: int, r: nat, x: int, y: int)
    requires IsImage(src, w, h)
    ensures var f := Clamped(src, w, h);
            WindowSum(Row(f, y), r, x) == WindowSum(Row(f, Clamp(y, 0, h - 1)), r, x)
  {
    hide Clamped, IsImage, Sum;
    var f := Clamped(src, w, h);
    var a, b := Shift(Row(f, y), x - r), Shift(Row(f, Clamp(y, 0, h - 1)), x - r);
    forall i | 0 <= i < Side(r)
      ensures a(i) == b(i)
    {
      PixelRepeats(src, w, h, x - r + i, y);
    }
    SumEqual(a, b, Side(r));
  }

  /** The intermediate image, its border repeated, is the mean of the rows of the repeated source. */
  lemma {:induction false} RowMeanRepeats(src: seq<real>, w: int, h: int, r: nat, x: int, y: int)
    requires IsImage(src, w, h) && 0 <= x < w
    ensures var goal := RowMeans(Clamped(src, w, h), r);
            Clamped(Draw(goal, w, h), w, h)(x, y) == goal(x, y)
  {
    assert 1 <= w && 1 <= h;
    hide Draw, IsImage, Clamped, WindowSum, Mean;
    var goal := RowMeans(Clamped(src, w, h), r);
    PixelRepeats(Draw(goal, w, h), w, h, x, y);
    DrawAt(goal, w, h, x, Clamp(y, 0, h - 1));
    RowRepeats(src, w, h, r, x, y);
  }

  lemma MeanOfMeans(sum: real, n: real)
    requires n > 0.0
    ensures n * n != 0.0 && 1.0 / n * sum * (1.0 / n) == sum / (n * n)
  {
  }

  lemma {:induction false} MeanOfRowMeans(temp: Field, f: Field, r: nat, x: int, y: int)
    requires forall v :: temp(x, v) == RowMeans(f, r)(x, v)
    ensures ColumnMeans(temp, r)(x, y) == BoxMean(f, r)(x, y)
  {
    var column, sums := Shift(Column(temp, x), y - r), Shift(RowSums(f, r, x), y - r);
    forall i
      ensures column(i) == Scale(Weight(r), sums)(i)
    {
      assert temp(x, y - r + i) == RowMeans(f, r)(x, y - r + i);
    }
    SumEqual(column, Scale(Weight(r), sums), Side(r));
    SumScales(Weight(r), sums, Side(r));
    MeanOfMeans(Sum(sums, Side(r)), Side(r) as real);
  }

  lemma {:induction false} TwoPassesAreBoxMean(src: seq<real>, w: int, h: int, r: nat)
    requires IsImage(src, w, h)
    ensures var temp := Draw(RowMeans(Clamped(src, w, h), r), w, h);
            Draw(ColumnMeans(Clamped(temp, w, h), r), w, h) == Blurred(src, w, h, r)
  {
    var f := Clamped(src, w, h);
    var temp := Draw(RowMeans(f, r), w, h);
    forall x, y | 0 <= x < w && 0 <= y < h
      ensures ColumnMeans(Clamped(temp, w, h), r)(x, y) == BoxMean(f, r)(x, y)
    {
      forall v
        ensures Clamped(temp, w, h)(x, v) == RowMeans(f, r)(x, v)
      {
        RowMeanRepeats(src, w, h, r, x, v);
      }
      MeanOfRowMeans(Clamped(temp, w, h), f, r, x, y);
    }
    DrawEqual(ColumnMeans(Clamped(temp, w, h), r), BoxMean(f, r), w, h);
  }

  // ---------------------------------------------------------------------------------------
  // The two passes
  // ---------------------------------------------------------------------------------------

  method FirstRowSum(src: seq<real>, w: int, h: int, r: nat, y: int) returns (sum: real)
    requires IsImage(src, w, h) && 0 < r <= w / 2 && 0 <= y < h
    ensures sum == WindowSum(Row(Clamped(src, w, h), y), r, 0)
  {
    hide IsImage, WindowSum, Clamped;
    ghost var f := Row(Clamped(src, w, h), y);
    PixelInside(src, w, h, 0, y);
    sum := r as real * src[y * w];
    for x := 0 to r + 1
      invariant sum == r as real * f(0) + Sum(f, x)
    {
      PixelInside(src, w, h, x, y);
      sum := sum + src[y * w + x];
    }
    EdgeRepeats(src, w, h, y);
    FirstWindow(f, r);
  }

  /** One row of the horizontal pass. */
  method BlurRow(src: seq<real>, temp: array<real>, w: int, h: int, r: nat, y: int)
    requires IsImage(src, w, h) && temp.Length == |src| && 0 < r <= w / 2 && 0 <= y < h
    requires Filled(temp[..], RowMeans(Clamped(src, w, h), r), w, y * w)
    modifies temp
    ensures Filled(temp[..], RowMeans(Clamped(src, w, h), r), w, y * w + w)
  {
    hide IsImage, WindowSum, Mean, Clamped, Filled, Sum;
    assert 1 <= w;
    ghost var f, goal := Row(Clamped(src, w, h), y), RowMeans(Clamped(src, w, h), r);
    var rowOffset := y * w;
    var sum := FirstRowSum(src, w, h, r, y);
    ghost var before := temp[..];
    PixelInside(src, w, h, 0, y);
    temp[rowOffset] := Mean(sum, r);
    FilledStep(before, temp[..], goal, w, 0, y);
    for x := 1 to w
      invariant sum == WindowSum(f, r, x - 1)
      invariant Filled(temp[..], goal, w, rowOffset + x)
    {
      var leftX := Clamp(x - r - 1, 0, w - 1);
      PixelInside(src, w, h, leftX, y);
      PixelRepeats(src, w, h, x - r - 1, y);
      sum := sum - src[rowOffset + leftX];
      var rightX := Clamp(x + r, 0, w - 1);
      PixelInside(src, w, h, rightX, y);
      PixelRepeats(src, w, h, x + r, y);
      sum := sum + src[rowOffset + rightX];
      WindowMoves(f, r, x);
      before := temp[..];
      PixelInside(src, w, h, x, y);
      temp[rowOffset + x] := Mean(sum, r);
      FilledStep(before, temp[..], goal, w, x, y);
    }
  }

  method FirstColumnSum(temp: seq<real>, w: int, h: int, r: nat, x: int) returns (sum: real)
    requires IsImage(temp, w, h) && 0 < r <= h / 2 && 0 <= x < w
    ensures sum == WindowSum(Column(Clamped(temp, w, h), x), r, 0)
  {
    hide IsImage, WindowSum, Clamped;
    ghost var f := Column(Clamped(temp, w, h), x);
    PixelInside(temp, w, h, x, 0);
    sum := r as real * temp[x];
    for y := 0 to r + 1
      invariant sum == r as real * f(0) + Sum(f, y)
    {
      PixelInside(temp, w, h, x, y);
      sum := sum + temp[y * w + x];
    }
    EdgeRepeats(temp, w, h, x);
    FirstWindow(f, r);
  }

  /** One column of the vertical pass. */
  method BlurColumn(temp: seq<real>, dst: array<real>, w: int, h: int, r: nat, x: int)
    requires IsImage(temp, w, h) && dst.Length == |temp| && 0 < r <= h / 2 && 0 <= x < w
    requires ColumnsFilled(dst[..], ColumnMeans(Clamped(temp, w, h), r), w, x, 0)
    modifies dst
    ensures ColumnsFilled(dst[..], ColumnMeans(Clamped(temp, w, h), r), w, x, h)
  {
    hide IsImage, WindowSum, Mean, Clamped, ColumnsFilled, Sum;
    ghost var f, goal := Column(Clamped(temp, w, h), x), ColumnMeans(Clamped(temp, w, h), r);
    var sum := FirstColumnSum(temp, w, h, r, x);
    ghost var before := dst[..];
    PixelInside(temp, w, h, x, 0);
    dst[x] := Mean(sum, r);
    ColumnStep(before, dst[..], goal, w, x, 0);
    for y := 1 to h
      invariant sum == WindowSum(f, r, y - 1)
      invariant ColumnsFilled(dst[..], goal, w, x, y)
    {
      var topY := Clamp(y - r - 1, 0, h - 1);
      PixelInside(temp, w, h, x, topY);
      PixelRepeats(temp, w, h, x, y - r - 1);
      sum := sum - temp[topY * w + x];
      var bottomY := Clamp(y + r, 0, h - 1);
      PixelInside(temp, w, h, x, bottomY);
      PixelRepeats(temp, w, h, x, y + r);
      sum := sum + temp[bottomY * w + x];
      WindowMoves(f, r, y);
      before := dst[..];
      PixelInside(temp, w, h, x, y);
      dst[y * w + x] := Mean(sum, r);
      ColumnStep(before, dst[..], goal, w, x, y);
    }
  }

  lemma NextLine(y: int, w: int)
    ensures y * w + w == (y + 1) * w
  {
  }

  lemma NothingFilled(s: seq<real>, f: Field, w: int)
    requires 1 <= w
    ensures Filled(s, f, w, 0) && ColumnsFilled(s, f, w, 0, 0)
  {
  }

  method HorizontalPass(src: seq<real>, w: int, h: int, r: nat) returns (temp: array<real>)
    requires IsImage(src, w, h) && 0 < r <= w / 2
    ensures fresh(temp) && temp.Length == |src| && temp[..] == Draw(RowMeans(Clamped(src, w, h), r), w, h)
  {
    hide RowMeans, Clamped, Filled, Draw;
    ghost var goal := RowMeans(Clamped(src, w, h), r);
    temp := new real[|src|];
    NothingFilled(temp[..], goal, w);
    for y := 0 to h
      invariant Filled(temp[..], goal, w, y * w)
    {
      BlurRow(src, temp, w, h, r, y);
      NextLine(y, w);
    }
    FilledIsDrawn(temp[..], goal, w, h);
  }

  method VerticalPass(temp: seq<real>, dst: array<real>, w: int, h: int, r: nat)
    requires IsImage(temp, w, h) && dst.Length == |temp| && 0 < r <= h / 2
    modifies dst
    ensures dst[..] == Draw(ColumnMeans(Clamped(temp, w, h), r), w, h)
  {
    hide ColumnMeans, Clamped, ColumnsFilled, Draw;
    ghost var goal := ColumnMeans(Clamped(temp, w, h), r);
    NothingFilled(dst[..], goal, w);
    for x := 0 to w
      invariant ColumnsFilled(dst[..], goal, w, x, 0)
    {
      BlurColumn(temp, dst, w, h, r, x);
      ColumnEnds(dst[..], goal, w, h, x);
    }
    ColumnsAreDrawn(dst[..], goal, w, h);
  }

  /** `blur`. */
  method Blur(src: seq<real>, dst: array<real>, w: int, h: int, r: nat)
    requires IsImage(src, w, h) && dst.Length == |src|
    requires 0 < r <= w / 2 && r <= h / 2
    modifies dst
    ensures dst[..] == Blurred(src, w, h, r)
  {
    var temp := HorizontalPass(src, w, h, r);
    VerticalPass(temp[..], dst, w, h, r);
    TwoPassesAreBoxMean(src, w, h, r);
  }

  // ---------------------------------------------------------------------------------------
  // What a mean keeps
  // ---------------------------------------------------------------------------------------

  ghost predicate Within(f: Field, lo: real, hi: real) {
    forall x, y :: lo <= f(x, y) <= hi
  }

  lemma {:induction false} SumWithin(f: Terms, n: nat, lo: real, hi: real)
    requires forall i :: 0 <= i < n ==> lo <= f(i) <= hi
    ensures n as real * lo <= Sum(f, n) <= n as real * hi
  {
    SumMonotone(Constant(lo), f, n);
    SumMonotone(f, Constant(hi), n);
    SumOfConstant(lo, n);
    SumOfConstant(hi, n);
  }

  lemma {:induction false} RowSumWithin(f: Field, r: nat, lo: real, hi: real, x: int, y: int)
    requires Within(f, lo, hi)
    ensures Side(r) as real * lo <= RowSums(f, r, x)(y) <= Side(r) as real * hi
  {
    hide Sum;
    var row := Shift(Row(f, y), x - r);
    forall i | 0 <= i < Side(r)
      ensures lo <= row(i) <= hi
    {
      assert lo <= f(x - r + i, y) <= hi;
    }
    SumWithin(row, Side(r), lo, hi);
  }

  lemma SquareMeanWithin(sum: real, r: nat, lo: real, hi: real)
    requires var n := Side(r) as real; n * (n * lo) <= sum <= n * (n * hi)
    ensures lo <= SquareMean(sum, r) <= hi
  {
  }

  lemma {:induction false} BoxMeanWithin(f: Field, r: nat, lo: real, hi: real, x: int, y: int)
    requires Within(f, lo, hi)
    ensures lo <= BoxMean(f, r)(x, y) <= hi
  {
    hide Sum, SquareMean;
    var n := Side(r) as real;
    var sums := RowSums(f, r, x);
    forall v
      ensures n * lo <= sums(v) <= n * hi
    {
      RowSumWithin(f, r, lo, hi, x, v);
    }
    SumWithin(Shift(sums, y - r), Side(r), n * lo, n * hi);
    SquareMeanWithin(Sum(Shift(sums, y - r), Side(r)), r, lo, hi);
  }

  /** Blurring never leaves the range of the image. */
  lemma {:induction false} BlurKeepsRange(image: seq<real>, w: int, h: int, r: nat, lo: real, hi: real)
    requires IsImage(image, w, h) && forall i :: 0 <= i < |image| ==> lo <= image[i] <= hi
    ensures forall k :: 0 <= k < |image| ==> lo <= Blurred(image, w, h, r)[k] <= hi
  {
    var f := Clamped(image, w, h);
    assert Within(f, lo, hi);
    hide Clamped, BoxMean, Within;
    forall k | 0 <= k < |image|
      ensures lo <= Blurred(image, w, h, r)[k] <= hi
    {
      BoxMeanWithin(f, r, lo, hi, k % w, k / w);
    }
  }

  /** An image of one colour is left as it is. */
  lemma {:induction false} BlurKeepsConstant(image: seq<real>, w: int, h: int, r: nat, c: real)
    requires IsImage(image, w, h) && forall i :: 0 <= i < |image| ==> image[i] == c
    ensures Blurred(image, w, h, r) == image
  {
    BlurKeepsRange(image, w, h, r, c, c);
  }
}
