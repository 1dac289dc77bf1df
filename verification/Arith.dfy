/** Integer helpers of src/util/math.h and the facts about flat image indices that every
    buffer in the project needs. C++ `/` truncates toward zero; it is only ever applied to
    non-negative operands here, where it agrees with Dafny's `/`. */
module Arith {
  function Min(a: int, b: int): int {
    if a <= b then a else b
  }

  function Max(a: int, b: int): int {
    if a <= b then b else a
  }

  /** `std::clamp(v, lo, hi)`. */
  function Clamp(v: int, lo: int, hi: int): int {
    if v < lo then lo else if hi < v then hi else v
  }

  lemma DivModBounds(a: int, b: int)
    requires 0 < b
    ensures a == (a / b) * b + a % b
    ensures 0 <= a % b < b
  {
  }

  /** The least q with `a <= q * b`. */
  function DivCeil(a: int, b: int): (q: int)
    requires 0 <= a && 0 < b
    ensures (q - 1) * b < a <= q * b
    ensures 0 <= q
  {
    DivModBounds(a + b - 1, b);
    (a + b - 1) / b
  }

  lemma MulMono(a: int, b: int, c: int)
    requires a <= b && 0 <= c
    ensures a * c <= b * c
  {
  }

  /** The element (x, y) of a row-major buffer `w` wide sits at `y * w + x`, and nothing else does. */
  lemma {:induction false} FlatIndex(x: int, y: int, w: int)
    requires 0 <= x < w && 0 <= y
    ensures (y * w + x) / w == y
    ensures (y * w + x) % w == x
  {
    var k := y * w + x;
    DivModBounds(k, w);
    assert (k / w - y) * w == x - k % w;
    if k / w > y {
      MulMono(1, k / w - y, w);
    } else if k / w < y {
      MulMono(1, y - k / w, w);
    }
  }

  /** A column and a row inside a `w` by `h` buffer give an offset inside it. */
  lemma FlatBound(x: int, y: int, w: int, h: int)
    requires 0 <= x < w && 0 <= y < h
    ensures 0 <= y * w + x < w * h
  {
    MulMono(y + 1, h, w);
    assert (y + 1) * w == y * w + w;
    MulMono(0, y, w);
  }

  /** An offset inside a `w` by `h` buffer has a column and a row inside it. */
  lemma FlatSplit(k: int, w: int, h: int)
    requires 0 < w && 0 <= k < w * h
    ensures 0 <= k % w < w && 0 <= k / w < h
    ensures k == (k / w) * w + k % w
  {
  }
}
