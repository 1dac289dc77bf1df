/** The tensor operations the window code uses: a tensor is its four dimensions, innermost first, and
    its elements in that order. `cont` is part of each operation that needs it. */
module Tensors {
  import opened Arith

  type pos = x: int | 1 <= x witness 1

  function Times(a: pos, b: pos): (r: pos)
    ensures r == a * b
  {
    MulMono(1, a, b);
    a * b
  }

  datatype Shape = Shape(n0: pos, n1: pos, n2: pos, n3: pos) {
    function Size(): pos {
      Times(n0, Times(n1, Times(n2, n3)))
    }

    predicate Has(i0: int, i1: int, i2: int, i3: int) {
      0 <= i0 < n0 && 0 <= i1 < n1 && 0 <= i2 < n2 && 0 <= i3 < n3
    }
  }

  /** Where element (i0, i1, i2, i3) lies. */
  function Offset(s: Shape, i0: int, i1: int, i2: int, i3: int): int {
    ((i3 * s.n2 + i2) * s.n1 + i1) * s.n0 + i0
  }

  lemma {:induction false} OffsetBound(s: Shape, i0: int, i1: int, i2: int, i3: int)
    requires s.Has(i0, i1, i2, i3)
    ensures 0 <= Offset(s, i0, i1, i2, i3) < s.Size()
  {
    var a := i3 * s.n2 + i2;
    FlatBound(i2, i3, s.n2, s.n3);
    var b := a * s.n1 + i1;
    FlatBound(i1, a, s.n1, Times(s.n2, s.n3));
    FlatBound(i0, b, s.n0, Times(s.n1, Times(s.n2, s.n3)));
  }

  datatype Tensor = Tensor(ne: Shape, data: seq<real>) {
    predicate Valid() {
      |data| == ne.Size()
    }

    /** The element at four indices; zero outside the tensor. */
    function At(i0: int, i1: int, i2: int, i3: int): real
      requires Valid()
    {
      if ne.Has(i0, i1, i2, i3) then
        OffsetBound(ne, i0, i1, i2, i3);
        data[Offset(ne, i0, i1, i2, i3)]
      else 0.0
    }
  }

  type Elements = (int, int, int, int) -> real

  /** The element that f gives for the indices of offset k. */
  function ElementAt(s: Shape, f: Elements, k: int): real {
    var a := k / s.n0;
    var b := a / s.n1;
    f(k % s.n0, a % s.n1, b % s.n2, b / s.n2)
  }

  function Build(s: Shape, f: Elements): (x: Tensor)
    ensures x.Valid() && x.ne == s
  {
    Tensor(s, seq(s.Size(), k => ElementAt(s, f, k)))
  }

  lemma {:induction false} ElementAtOffset(s: Shape, f: Elements, i0: int, i1: int, i2: int, i3: int)
    requires s.Has(i0, i1, i2, i3)
    ensures ElementAt(s, f, Offset(s, i0, i1, i2, i3)) == f(i0, i1, i2, i3)
  {
    var b := i3 * s.n2 + i2;
    FlatBound(i2, i3, s.n2, s.n3);
    FlatIndex(i2, i3, s.n2);
    var a := b * s.n1 + i1;
    FlatBound(i1, b, s.n1, Times(s.n2, s.n3));
    FlatIndex(i1, b, s.n1);
    FlatIndex(i0, a, s.n0);
    var k := Offset(s, i0, i1, i2, i3);
    assert k / s.n0 == a && k % s.n0 == i0;
    assert a / s.n1 == b && a % s.n1 == i1;
  }

  /** Every offset is that of some indices. */
  lemma {:induction false} IndicesOf(s: Shape, k: int) returns (i0: int, i1: int, i2: int, i3: int)
    requires 0 <= k < s.Size()
    ensures s.Has(i0, i1, i2, i3) && Offset(s, i0, i1, i2, i3) == k
  {
    var a := k / s.n0;
    var b := a / s.n1;
    i0, i1, i2, i3 := k % s.n0, a % s.n1, b % s.n2, b / s.n2;
    FlatSplit(k, s.n0, Times(s.n1, Times(s.n2, s.n3)));
    FlatSplit(a, s.n1, Times(s.n2, s.n3));
    FlatSplit(b, s.n2, s.n3);
  }

  lemma {:induction false} BuildAt(s: Shape, f: Elements, i0: int, i1: int, i2: int, i3: int)
    requires s.Has(i0, i1, i2, i3)
    ensures Build(s, f).At(i0, i1, i2, i3) == f(i0, i1, i2, i3)
  {
    OffsetBound(s, i0, i1, i2, i3);
    ElementAtOffset(s, f, i0, i1, i2, i3);
  }

  /** Tensors with the same dimensions and elements are equal. */
  lemma {:induction false} SameElements(x: Tensor, y: Tensor)
    requires x.Valid() && y.Valid() && x.ne == y.ne
    requires forall i0, i1, i2, i3 :: x.ne.Has(i0, i1, i2, i3) ==> x.At(i0, i1, i2, i3) == y.At(i0, i1, i2, i3)
    ensures x == y
  {
    forall k | 0 <= k < x.ne.Size()
      ensures x.data[k] == y.data[k]
    {
      var i0, i1, i2, i3 := IndicesOf(x.ne, k);
      assert x.At(i0, i1, i2, i3) == y.At(i0, i1, i2, i3);
    }
  }

  // ---------------------------------------------------------------------------------------
  // ggml operations
  // ---------------------------------------------------------------------------------------

  /** `ggml_reshape`: the same elements in the same order. */
  function Reshape(x: Tensor, s: Shape): (y: Tensor)
    requires x.Valid() && s.Size() == x.ne.Size()
    ensures y.Valid()
  {
    Tensor(s, x.data)
  }

  function Swapped(x: Tensor): Elements
    requires x.Valid()
  {
    (i0, i1, i2, i3) => x.At(i0, i2, i1, i3)
  }

  /** `ggml_cont(ggml_permute(x, 0, 2, 1, 3))`. */
  function Swap12(x: Tensor): (y: Tensor)
    requires x.Valid()
    ensures y.Valid() && y.ne == Shape(x.ne.n0, x.ne.n2, x.ne.n1, x.ne.n3)
  {
    Build(Shape(x.ne.n0, x.ne.n2, x.ne.n1, x.ne.n3), Swapped(x))
  }

  lemma {:induction false} SwapTwice(x: Tensor)
    requires x.Valid()
    ensures Swap12(Swap12(x)) == x
  {
    var y := Swap12(x);
    forall i0, i1, i2, i3 | x.ne.Has(i0, i1, i2, i3)
      ensures Swap12(y).At(i0, i1, i2, i3) == x.At(i0, i1, i2, i3)
    {
      BuildAt(x.ne, Swapped(y), i0, i1, i2, i3);
      BuildAt(y.ne, Swapped(x), i0, i2, i1, i3);
    }
    SameElements(Swap12(y), x);
  }

  function Padded(x: Tensor): Elements
    requires x.Valid()
  {
    (i0, i1, i2, i3) => x.At(i0, i1, i2, i3)
  }

  /** `ggml_pad(x, 0, right, bottom, 0)`: zeros after the last column and row. */
  function Pad(x: Tensor, right: nat, bottom: nat): (y: Tensor)
    requires x.Valid()
    ensures y.Valid() && y.ne == x.ne.(n1 := x.ne.n1 + right, n2 := x.ne.n2 + bottom)
  {
    Build(x.ne.(n1 := x.ne.n1 + right, n2 := x.ne.n2 + bottom), Padded(x))
  }

  function Rolled(x: Tensor, shift: int): Elements
    requires x.Valid()
  {
    (i0, i1, i2, i3) => x.At(i0, (i1 - shift) % x.ne.n1, (i2 - shift) % x.ne.n2, i3)
  }

  /** `ggml_roll(x, 0, shift, shift, 0)`: what was at column i and row j is at i + shift and j + shift, cyclically. */
  function Roll(x: Tensor, shift: int): (y: Tensor)
    requires x.Valid()
    ensures y.Valid() && y.ne == x.ne
  {
    Build(x.ne, Rolled(x, shift))
  }

  lemma {:induction false} RollAt(x: Tensor, shift: int, i0: int, i1: int, i2: int, i3: int)
    requires x.Valid() && x.ne.Has(i0, i1, i2, i3)
    ensures Roll(x, shift).At(i0, i1, i2, i3) == x.At(i0, (i1 - shift) % x.ne.n1, (i2 - shift) % x.ne.n2, i3)
  {
    BuildAt(x.ne, Rolled(x, shift), i0, i1, i2, i3);
  }

  /** `slice` to the first w columns and h rows, made contiguous. */
  function Crop(x: Tensor, w: pos, h: pos): (y: Tensor)
    requires x.Valid() && w <= x.ne.n1 && h <= x.ne.n2
    ensures y.Valid() && y.ne == x.ne.(n1 := w, n2 := h)
  {
    Build(x.ne.(n1 := w, n2 := h), Padded(x))
  }

  lemma {:induction false} CropAt(x: Tensor, w: pos, h: pos, i0: int, i1: int, i2: int, i3: int)
    requires x.Valid() && w <= x.ne.n1 && h <= x.ne.n2
    requires Crop(x, w, h).ne.Has(i0, i1, i2, i3)
    ensures Crop(x, w, h).At(i0, i1, i2, i3) == x.At(i0, i1, i2, i3)
  {
    BuildAt(Crop(x, w, h).ne, Padded(x), i0, i1, i2, i3);
  }

  lemma {:induction false} PadAt(x: Tensor, right: nat, bottom: nat, i0: int, i1: int, i2: int, i3: int)
    requires x.Valid() && Pad(x, right, bottom).ne.Has(i0, i1, i2, i3)
    ensures Pad(x, right, bottom).At(i0, i1, i2, i3) == x.At(i0, i1, i2, i3)
  {
    BuildAt(Pad(x, right, bottom).ne, Padded(x), i0, i1, i2, i3);
  }

  function CwhnOf(x: Tensor): Elements
    requires x.Valid()
  {
    (c, w, h, b) => x.At(w, h, c, b)
  }

  /** `ggml_cont(permute_whcn_to_cwhn(x))`. */
  function ToCwhn(x: Tensor): (y: Tensor)
    requires x.Valid()
    ensures y.Valid() && y.ne == Shape(x.ne.n2, x.ne.n0, x.ne.n1, x.ne.n3)
  {
    Build(Shape(x.ne.n2, x.ne.n0, x.ne.n1, x.ne.n3), CwhnOf(x))
  }

  function WhcnOf(x: Tensor): Elements
    requires x.Valid()
  {
    (w, h, c, b) => x.At(c, w, h, b)
  }

  /** `ggml_cont(permute_cwhn_to_whcn(x))`. */
  function ToWhcn(x: Tensor): (y: Tensor)
    requires x.Valid()
    ensures y.Valid() && y.ne == Shape(x.ne.n1, x.ne.n2, x.ne.n0, x.ne.n3)
  {
    Build(Shape(x.ne.n1, x.ne.n2, x.ne.n0, x.ne.n3), WhcnOf(x))
  }

  lemma {:induction false} ToWhcnBack(x: Tensor)
    requires x.Valid()
    ensures ToWhcn(ToCwhn(x)) == x
  {
    var y := ToCwhn(x);
    forall w, h, c, b | x.ne.Has(w, h, c, b)
      ensures ToWhcn(y).At(w, h, c, b) == x.At(w, h, c, b)
    {
      BuildAt(x.ne, WhcnOf(y), w, h, c, b);
      BuildAt(y.ne, CwhnOf(x), c, w, h, b);
    }
    SameElements(ToWhcn(y), x);
  }
}
