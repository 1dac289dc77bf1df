/** Finite sums of reals, with the few laws the image and tensor proofs rest on. */
module Sums {
  import opened Arith

  type Terms = int -> real

  function Constant(c: real): Terms {
    _ => c
  }

  function Scale(k: real, f: Terms): Terms {
    i => k * f(i)
  }

  function Plus(f: Terms, g: Terms): Terms {
    i => f(i) + g(i)
  }

  function Shift(f: Terms, a: int): Terms {
    i => f(a + i)
  }

  /** Products of two sequences, laid out row by row in a grid `nx` wide. */
  function Grid(f: Terms, g: Terms, nx: nat): Terms
    requires 0 < nx
  {
    t => f(t % nx) * g(t / nx)
  }

  /** f(0) + ... + f(n - 1), in integers. */
  function SumInt(f: int -> int, n: nat): int {
    if n == 0 then 0 else SumInt(f, n - 1) + f(n - 1)
  }

  lemma {:induction false} SumOfZeros(f: int -> int, n: nat)
    requires forall i :: 0 <= i < n ==> f(i) == 0
    ensures SumInt(f, n) == 0
  {
    if n > 0 {
      SumOfZeros(f, n - 1);
    }
  }

  /** All terms but two neighbours vanish. */
  lemma {:induction false} SumOfTwo(f: int -> int, n: nat, k: nat)
    requires k < n
    requires forall i :: 0 <= i < k - 1 || k < i < n ==> f(i) == 0
    ensures SumInt(f, n) == f(k) + if k == 0 then 0 else f(k - 1)
  {
    if k + 1 < n {
      SumOfTwo(f, n - 1, k);
    } else {
      SumOfZeros(f, if k == 0 then 0 else k - 1);
    }
  }

  lemma {:induction false} SumStops(f: int -> int, m: nat, n: nat)
    requires m <= n && forall i :: m <= i < n ==> f(i) == 0
    ensures SumInt(f, n) == SumInt(f, m)
  {
    if m < n {
      SumStops(f, m, n - 1);
    }
  }

  /** f(0) + ... + f(n - 1). */
  function Sum(f: Terms, n: nat): real {
    if n == 0 then 0.0 else Sum(f, n - 1) + f(n - 1)
  }

  lemma {:induction false} SumEqual(f: Terms, g: Terms, n: nat)
    requires forall i :: 0 <= i < n ==> f(i) == g(i)
    ensures Sum(f, n) == Sum(g, n)
  {
    if n > 0 {
      SumEqual(f, g, n - 1);
    }
  }

  lemma Distribute(a: real, b: real, c: real)
    ensures (a + b) * c == a * c + b * c
    ensures c * (a + b) == c * a + c * b
  {
  }

  lemma {:induction false} SumOfConstant(c: real, n: nat)
    ensures Sum(Constant(c), n) == n as real * c
  {
    if n > 0 {
      SumOfConstant(c, n - 1);
      assert n as real == (n - 1) as real + 1.0;
      Distribute((n - 1) as real, 1.0, c);
    }
  }

  lemma {:induction false} SumScales(k: real, f: Terms, n: nat)
    ensures Sum(Scale(k, f), n) == k * Sum(f, n)
  {
    if n > 0 {
      SumScales(k, f, n - 1);
      Distribute(Sum(f, n - 1), f(n - 1), k);
    }
  }

  lemma {:induction false} SumAdds(f: Terms, g: Terms, n: nat)
    ensures Sum(Plus(f, g), n) == Sum(f, n) + Sum(g, n)
  {
    if n > 0 {
      SumAdds(f, g, n - 1);
    }
  }

  lemma {:induction false} SumMonotone(f: Terms, g: Terms, n: nat)
    requires forall i :: 0 <= i < n ==> f(i) <= g(i)
    ensures Sum(f, n) <= Sum(g, n)
  {
    if n > 0 {
      SumMonotone(f, g, n - 1);
    }
  }

  lemma {:induction false} SumSplits(f: Terms, a: nat, b: nat)
    ensures Sum(f, a + b) == Sum(f, a) + Sum(Shift(f, a), b)
  {
    if b > 0 {
      SumSplits(f, a, b - 1);
    }
  }

  function Area(nx: nat, ny: nat): (n: nat)
    ensures n == ny * nx
  {
    if ny == 0 then 0 else Area(nx, ny - 1) + nx
  }

  /** Row j of the grid adds up to g(j) times the sum of f. */
  lemma {:induction false} SumOverRow(f: Terms, g: Terms, nx: nat, j: nat)
    requires 0 < nx
    ensures Sum(Shift(Grid(f, g, nx), Area(nx, j)), nx) == Scale(Sum(f, nx), g)(j)
  {
    var row := Shift(Grid(f, g, nx), Area(nx, j));
    forall i | 0 <= i < nx
      ensures row(i) == Scale(g(j), f)(i)
    {
      FlatIndex(i, j, nx);
    }
    SumEqual(row, Scale(g(j), f), nx);
    SumScales(g(j), f, nx);
  }

  lemma {:induction false} SumOverRows(f: Terms, g: Terms, nx: nat, ny: nat)
    requires 0 < nx
    ensures Sum(Grid(f, g, nx), Area(nx, ny)) == Sum(Scale(Sum(f, nx), g), ny)
  {
    if ny > 0 {
      SumOverRows(f, g, nx, ny - 1);
      SumOverRow(f, g, nx, ny - 1);
      SumSplits(Grid(f, g, nx), Area(nx, ny - 1), nx);
    }
  }

  /** A sum of products over a grid is the product of the two sums. */
  lemma {:induction false} SumOverGrid(f: Terms, g: Terms, nx: nat, ny: nat)
    requires 0 < nx
    ensures Sum(Grid(f, g, nx), Area(nx, ny)) == Sum(f, nx) * Sum(g, ny)
  {
    SumOverRows(f, g, nx, ny);
    SumScales(Sum(f, nx), g, ny);
  }

  lemma QuotientAdds(a: int, b: int, d: int)
    requires 0 < d
    ensures (a + b) as real / d as real == a as real / d as real + b as real / d as real
  {
  }

  lemma QuotientUnique(a: real, b: real, q: real)
    requires b != 0.0 && q * b == a
    ensures a / b == q
  {
  }
}
