/** Window partition and the data movement of a shifted block in src/visp/arch/swin.cpp, and the
    padded variant of src/visp/arch/mobile-sam.cpp. Attention is any map on the partitioned tensor. */
module SwinWindows {
  import opened Wrappers
  import opened Arith
  import opened Tensors

  /** A tensor whose width and height are whole windows. */
  predicate Whole(s: Shape, win: pos) {
    s.n1 % win == 0 && s.n2 % win == 0
  }

  lemma PositiveFactor(a: int, b: pos)
    requires 1 <= a * b
    ensures 1 <= a
  {
  }

  /** How many windows lie side by side. */
  function Windows(n: pos, win: pos): (k: pos)
    requires n % win == 0
    ensures n == Times(k, win)
  {
    DivModBounds(n, win);
    PositiveFactor(n / win, win);
    n / win
  }

  /** The shape just before and just after the two middle dimensions are swapped. */
  function Strips(s: Shape, win: pos): Shape
    requires Whole(s, win)
  {
    Shape(Times(s.n0, win), Windows(s.n1, win), win, Times(Windows(s.n2, win), s.n3))
  }

  function Tiles(s: Shape, win: pos): Shape
    requires Whole(s, win)
  {
    Shape(Times(s.n0, win), win, Windows(s.n1, win), Times(Windows(s.n2, win), s.n3))
  }

  function Partitioned(s: Shape, win: pos): Shape
    requires Whole(s, win)
  {
    Shape(s.n0, Times(win, win), Times(Times(Windows(s.n1, win), Windows(s.n2, win)), s.n3), 1)
  }

  lemma ProductOfFive(c: int, win: int, nw: int, nh: int, b: int)
    ensures (c * win) * (nw * (win * (nh * b))) == c * ((nw * win) * ((nh * win) * b))
    ensures (c * win) * (win * (nw * (nh * b))) == c * ((nw * win) * ((nh * win) * b))
    ensures c * ((win * win) * ((nw * nh * b) * 1)) == c * ((nw * win) * ((nh * win) * b))
  {
    var p := nh * b;
    assert (nh * win) * b == win * p;
    assert nw * nh * b == nw * p;
    var q := nw * p;
    assert nw * (win * p) == win * q;
    assert (nw * win) * (win * p) == (win * win) * q;
    var r := win * q;
    assert (win * win) * q == win * r;
    assert (c * win) * r == c * (win * r);
  }

  lemma {:induction false} SameSize(s: Shape, win: pos)
    requires Whole(s, win)
    ensures Strips(s, win).Size() == s.Size() == Tiles(s, win).Size() == Partitioned(s, win).Size()
  {
    ProductOfFive(s.n0, win, Windows(s.n1, win), Windows(s.n2, win), s.n3);
  }

  /** `swin::window_partition`. */
  function Partition(x: Tensor, win: pos): (y: Tensor)
    requires x.Valid() && Whole(x.ne, win)
    ensures y.Valid() && y.ne == Partitioned(x.ne, win)
  {
    SameSize(x.ne, win);
    Reshape(Swap12(Reshape(x, Strips(x.ne, win))), Partitioned(x.ne, win))
  }

  /** `swin::window_reverse` for a target w by h. The batch is what the window count leaves over. */
  function Reverse(t: Tensor, s: Shape, win: pos): (y: Tensor)
    requires t.Valid() && Whole(s, win) && t.ne == Partitioned(s, win)
    ensures y.Valid() && y.ne == s
  {
    SameSize(s, win);
    Reshape(Swap12(Reshape(t, Tiles(s, win))), s)
  }

  /** The batch that `window_reverse` computes is the one the tensor had. */
  lemma BatchRecovered(s: Shape, win: pos)
    requires Whole(s, win)
    ensures var nw, nh := Windows(s.n1, win), Windows(s.n2, win);
            Partitioned(s, win).n2 / nw / nh == s.n3 && Partitioned(s, win).n2 % nw == 0
  {
    var nw, nh := Windows(s.n1, win), Windows(s.n2, win);
    var rest := Times(nh, s.n3);
    assert Partitioned(s, win).n2 == rest * nw + 0;
    FlatIndex(0, rest, nw);
    assert rest == s.n3 * nh + 0;
    FlatIndex(0, s.n3, nh);
  }

  lemma {:induction false} ReversePartition(x: Tensor, win: pos)
    requires x.Valid() && Whole(x.ne, win)
    ensures Reverse(Partition(x, win), x.ne, win) == x
  {
    SameSize(x.ne, win);
    SwapTwice(Reshape(x, Strips(x.ne, win)));
  }

  lemma {:induction false} PartitionReverse(t: Tensor, s: Shape, win: pos)
    requires t.Valid() && Whole(s, win) && t.ne == Partitioned(s, win)
    ensures Partition(Reverse(t, s, win), win) == t
  {
    SameSize(s, win);
    SwapTwice(Reshape(t, Tiles(s, win)));
  }

  // ---------------------------------------------------------------------------------------
  // Where each element goes
  // ---------------------------------------------------------------------------------------

  /** The token that pixel (x, y) becomes within its window. */
  function TokenOf(win: pos, x: int, y: int): int {
    (y % win) * win + x % win
  }

  /** The window that pixel (x, y) of image b belongs to. */
  function WindowOf(s: Shape, win: pos, x: int, y: int, b: int): int
    requires Whole(s, win)
  {
    (b * Windows(s.n2, win) + y / win) * Windows(s.n1, win) + x / win
  }

  /** Splitting off an inner dimension of size n. */
  lemma Nest(a: int, m: int, i: int, n: int, j: int)
    ensures (a * m + i) * n + j == a * (m * n) + (i * n + j)
  {
  }

  lemma {:induction false} OffsetInStrips(s: Shape, win: pos, c: int, x: int, y: int, b: int)
    requires Whole(s, win) && s.Has(c, x, y, b)
    ensures var row := b * Windows(s.n2, win) + y / win;
            Offset(Strips(s, win), (x % win) * s.n0 + c, x / win, y % win, row) == Offset(s, c, x, y, b)
  {
    var nw, nh := Windows(s.n1, win), Windows(s.n2, win);
    DivModBounds(x, win);
    DivModBounds(y, win);
    var row := b * nh + y / win;
    Nest(b, nh, y / win, win, y % win);
    var line := row * win + y % win;
    assert line == b * s.n2 + y;
    Nest(line, nw, x / win, win, x % win);
    assert (line * nw + x / win) * win + x % win == line * s.n1 + x;
    Nest(line * nw + x / win, win, x % win, s.n0, c);
    assert Times(s.n0, win) == win * s.n0;
  }

  lemma {:induction false} OffsetInTiles(s: Shape, win: pos, c: int, x: int, y: int, b: int)
    requires Whole(s, win) && s.Has(c, x, y, b)
    ensures var row := b * Windows(s.n2, win) + y / win;
            Offset(Tiles(s, win), (x % win) * s.n0 + c, y % win, x / win, row)
            == Offset(Partitioned(s, win), c, TokenOf(win, x, y), WindowOf(s, win, x, y, b), 0)
  {
    var k := WindowOf(s, win, x, y, b);
    Nest(k, win, y % win, win, x % win);
    Nest(k * win + y % win, win, x % win, s.n0, c);
    assert Times(s.n0, win) == win * s.n0;
    assert 0 * Partitioned(s, win).n2 == 0;
  }

  lemma RegroupTimes(a: pos, b: pos, c: pos)
    ensures Times(Times(a, b), c) == Times(a, Times(b, c))
  {
  }

  lemma {:induction false} PixelHasSlot(s: Shape, win: pos, c: int, x: int, y: int, b: int)
    requires Whole(s, win) && s.Has(c, x, y, b)
    ensures 0 <= x / win < Windows(s.n1, win) && 0 <= y / win < Windows(s.n2, win)
    ensures Strips(s, win).Has((x % win) * s.n0 + c, x / win, y % win, b * Windows(s.n2, win) + y / win)
    ensures Partitioned(s, win).Has(c, TokenOf(win, x, y), WindowOf(s, win, x, y, b), 0)
  {
    var nw, nh := Windows(s.n1, win), Windows(s.n2, win);
    FlatSplit(x, win, nw);
    FlatSplit(y, win, nh);
    FlatBound(c, x % win, s.n0, win);
    FlatBound(y / win, b, nh, s.n3);
    FlatBound(x % win, y % win, win, win);
    FlatBound(x / win, b * nh + y / win, nw, Times(nh, s.n3));
    RegroupTimes(nw, nh, s.n3);
  }

  /** `window_partition` puts pixel (x, y) of image b at token `TokenOf` of window `WindowOf`, channels
      untouched. */
  lemma {:induction false} PartitionAt(t: Tensor, win: pos, c: int, x: int, y: int, b: int)
    requires t.Valid() && Whole(t.ne, win) && t.ne.Has(c, x, y, b)
    ensures Partition(t, win).At(c, TokenOf(win, x, y), WindowOf(t.ne, win, x, y, b), 0) == t.At(c, x, y, b)
  {
    var s := t.ne;
    SameSize(s, win);
    PixelHasSlot(s, win, c, x, y, b);
    OffsetInStrips(s, win, c, x, y, b);
    OffsetInTiles(s, win, c, x, y, b);
    var strips := Reshape(t, Strips(s, win));
    var i0, row := (x % win) * s.n0 + c, b * Windows(s.n2, win) + y / win;
    assert strips.At(i0, x / win, y % win, row) == t.At(c, x, y, b);
    BuildAt(Tiles(s, win), Swapped(strips), i0, y % win, x / win, row);
  }

  /** `window_reverse` reads pixel (x, y) of image b from that same slot. */
  lemma {:induction false} ReverseAt(t: Tensor, s: Shape, win: pos, c: int, x: int, y: int, b: int)
    requires t.Valid() && Whole(s, win) && t.ne == Partitioned(s, win) && s.Has(c, x, y, b)
    ensures Reverse(t, s, win).At(c, x, y, b) == t.At(c, TokenOf(win, x, y), WindowOf(s, win, x, y, b), 0)
  {
    PartitionAt(Reverse(t, s, win), win, c, x, y, b);
    PartitionReverse(t, s, win);
  }

  // ---------------------------------------------------------------------------------------
  // The shifted block
  // ---------------------------------------------------------------------------------------

  lemma {:induction false} PadReaches(n: pos, win: pos)
    ensures var k := (win - n % win) % win; 0 <= k < win && (n + k) % win == 0
  {
    DivModBounds(n, win);
    var q, r := n / win, n % win;
    if r == 0 {
      FlatIndex(0, 1, win);
    } else {
      FlatIndex(win - r, 0, win);
      assert n + (win - r) == (q + 1) * win + 0;
      FlatIndex(0, q + 1, win);
    }
  }

  /** How far n is from the next multiple of the window. */
  function PadFor(n: pos, win: pos): (k: nat)
    ensures (n + k) % win == 0 && k < win
  {
    PadReaches(n, win);
    (win - n % win) % win
  }

  function PaddedShape(s: Shape, win: pos): (p: Shape)
    ensures Whole(p, win)
  {
    s.(n1 := s.n1 + PadFor(s.n1, win), n2 := s.n2 + PadFor(s.n2, win))
  }

  type Attention = Tensor -> Tensor

  /** Attention gives one vector per token of each window. */
  ghost predicate KeepsShape(att: Attention) {
    forall t: Tensor :: t.Valid() ==> att(t).Valid() && att(t).ne == t.ne
  }

  function PaddedInput(x: Tensor, win: pos): (y: Tensor)
    requires x.Valid()
    ensures y.Valid() && y.ne == PaddedShape(x.ne, win)
  {
    var right, bottom := PadFor(x.ne.n1, win), PadFor(x.ne.n2, win);
    if right > 0 || bottom > 0 then Pad(x, right, bottom) else x
  }

  lemma {:induction false} ModOfSum(q: int, n: pos, r: int)
    requires 0 <= r < n
    ensures (q * n + r) % n == r
  {
    var k := q * n + r;
    DivModBounds(k, n);
    assert (k / n - q) * n == r - k % n;
    if k / n > q {
      MulMono(1, k / n - q, n);
    } else if k / n < q {
      MulMono(1, q - k / n, n);
    }
  }

  /** Rolling by zero is skipped. */
  function Turned(x: Tensor, shift: int): (y: Tensor)
    requires x.Valid()
    ensures y.Valid() && y.ne == x.ne
  {
    if shift != 0 then Roll(x, shift) else x
  }

  lemma {:induction false} TurnedAt(x: Tensor, shift: int, c: int, i: int, j: int, b: int)
    requires x.Valid() && x.ne.Has(c, i, j, b)
    ensures Turned(x, shift).At(c, i, j, b) == x.At(c, (i - shift) % x.ne.n1, (j - shift) % x.ne.n2, b)
  {
    if shift != 0 {
      RollAt(x, shift, c, i, j, b);
    } else {
      ModOfSum(0, x.ne.n1, i);
      ModOfSum(0, x.ne.n2, j);
    }
  }

  /** What `block` hands to attention. */
  function Presented(x: Tensor, win: pos, shift: nat): (t: Tensor)
    requires x.Valid()
    ensures t.Valid() && t.ne == Partitioned(PaddedShape(x.ne, win), win)
  {
    Partition(Turned(PaddedInput(x, win), 0 - shift), win)
  }

  function Unrolled(merged: Tensor, s: Shape, win: pos, shift: nat): (y: Tensor)
    requires merged.Valid() && merged.ne == PaddedShape(s, win)
    ensures y.Valid() && y.ne == s
  {
    var back := Turned(merged, shift);
    if PadFor(s.n1, win) > 0 || PadFor(s.n2, win) > 0 then Crop(back, s.n1, s.n2) else back
  }

  /** What `block` makes of the result: windows put back, roll undone, padding cut off. */
  function Restored(t: Tensor, s: Shape, win: pos, shift: nat): (y: Tensor)
    requires t.Valid() && t.ne == Partitioned(PaddedShape(s, win), win)
    ensures y.Valid() && y.ne == s
  {
    Unrolled(Reverse(t, PaddedShape(s, win), win), s, win, shift)
  }

  function Block(x: Tensor, win: pos, shift: nat, att: Attention): (y: Tensor)
    requires x.Valid() && att(Presented(x, win, shift)).Valid()
    requires att(Presented(x, win, shift)).ne == Presented(x, win, shift).ne
  {
    Restored(att(Presented(x, win, shift)), x.ne, win, shift)
  }

  /** The column (or row) of the rolled image that column i of the n columns moves to. */
  function RolledTo(n: pos, shift: nat, i: int): int {
    (i - shift) % n
  }

  /** The column (or row) that position p of the rolled image shows. */
  function RolledFrom(n: pos, shift: nat, p: int): int {
    (p + shift) % n
  }

  lemma {:induction false} RollBack(n: pos, shift: nat, i: int)
    requires 0 <= i < n
    ensures 0 <= RolledTo(n, shift, i) < n && RolledFrom(n, shift, RolledTo(n, shift, i)) == i
  {
    DivModBounds(i - shift, n);
    var q := (i - shift) / n;
    assert RolledTo(n, shift, i) + shift == (-q) * n + i;
    ModOfSum(-q, n, i);
  }

  lemma {:induction false} PaddedInputAt(x: Tensor, win: pos, c: int, i: int, j: int, b: int)
    requires x.Valid() && x.ne.Has(c, i, j, b)
    ensures PaddedShape(x.ne, win).Has(c, i, j, b) && PaddedInput(x, win).At(c, i, j, b) == x.At(c, i, j, b)
  {
    var right, bottom := PadFor(x.ne.n1, win), PadFor(x.ne.n2, win);
    if right > 0 || bottom > 0 {
      PadAt(x, right, bottom, c, i, j, b);
    }
  }

  /** Each pixel is presented to attention in the slot of its rolled position. */
  lemma {:induction false} PresentedAt(x: Tensor, win: pos, shift: nat, c: int, i: int, j: int, b: int)
    requires x.Valid() && x.ne.Has(c, i, j, b)
    ensures var s := PaddedShape(x.ne, win);
            var p, q := RolledTo(s.n1, shift, i), RolledTo(s.n2, shift, j);
            Presented(x, win, shift).At(c, TokenOf(win, p, q), WindowOf(s, win, p, q, b), 0) == x.At(c, i, j, b)
  {
    hide Whole, PadFor, Partition, Turned, PaddedInput, PaddedShape, Partitioned, TokenOf, WindowOf;
    var s := PaddedShape(x.ne, win);
    PaddedInputAt(x, win, c, i, j, b);
    RollBack(s.n1, shift, i);
    RollBack(s.n2, shift, j);
    var p, q := RolledTo(s.n1, shift, i), RolledTo(s.n2, shift, j);
    TurnedAt(PaddedInput(x, win), 0 - shift, c, p, q, b);
    PartitionAt(Turned(PaddedInput(x, win), 0 - shift), win, c, p, q, b);
  }

  lemma {:induction false} UnrolledAt(merged: Tensor, s: Shape, win: pos, shift: nat, c: int, i: int, j: int, b: int)
    requires merged.Valid() && merged.ne == PaddedShape(s, win) && s.Has(c, i, j, b)
    ensures var p, q := RolledTo(merged.ne.n1, shift, i), RolledTo(merged.ne.n2, shift, j);
            merged.ne.Has(c, p, q, b) && Unrolled(merged, s, win, shift).At(c, i, j, b) == merged.At(c, p, q, b)
  {
    RollBack(merged.ne.n1, shift, i);
    RollBack(merged.ne.n2, shift, j);
    var back := Turned(merged, shift);
    TurnedAt(merged, shift, c, i, j, b);
    if merged.ne != s {
      CropAt(back, s.n1, s.n2, c, i, j, b);
    }
  }

  /** And each pixel is taken back from that slot. */
  lemma {:induction false} RestoredAt(t: Tensor, s: Shape, win: pos, shift: nat, c: int, i: int, j: int, b: int)
    requires t.Valid() && t.ne == Partitioned(PaddedShape(s, win), win) && s.Has(c, i, j, b)
    ensures var whole := PaddedShape(s, win);
            var p, q := RolledTo(whole.n1, shift, i), RolledTo(whole.n2, shift, j);
            Restored(t, s, win, shift).At(c, i, j, b) == t.At(c, TokenOf(win, p, q), WindowOf(whole, win, p, q, b), 0)
  {
    hide Reverse, Unrolled, PaddedShape, Partitioned, TokenOf, WindowOf, RolledTo;
    var whole := PaddedShape(s, win);
    var p, q := RolledTo(whole.n1, shift, i), RolledTo(whole.n2, shift, j);
    UnrolledAt(Reverse(t, whole, win), s, win, shift, c, i, j, b);
    ReverseAt(t, whole, win, c, p, q, b);
  }

  /** With attention left out, a block's data movement gives the tensor back, element for element. */
  lemma {:induction false} BlockMovesNothing(x: Tensor, win: pos, shift: nat)
    requires x.Valid()
    ensures Block(x, win, shift, t => t) == x
  {
    var y := Block(x, win, shift, t => t);
    forall c, i, j, b | x.ne.Has(c, i, j, b)
      ensures y.At(c, i, j, b) == x.At(c, i, j, b)
    {
      PresentedAt(x, win, shift, c, i, j, b);
      RestoredAt(Presented(x, win, shift), x.ne, win, shift, c, i, j, b);
    }
    SameElements(y, x);
  }

  ghost predicate SameWindow(t: Tensor, u: Tensor, k: int) {
    t.Valid() && u.Valid() && forall c, p :: t.At(c, p, k, 0) == u.At(c, p, k, 0)
  }

  /** Attention that looks at one window at a time. */
  ghost predicate PerWindow(att: Attention) {
    forall t: Tensor, u: Tensor, k: int :: t.Valid() && u.Valid() && t.ne == u.ne && SameWindow(t, u, k) ==>
      SameWindow(att(t), att(u), k)
  }

  lemma AttendedWindow(att: Attention, t: Tensor, u: Tensor, k: int)
    requires KeepsShape(att) && PerWindow(att) && t.Valid() && u.Valid() && t.ne == u.ne && SameWindow(t, u, k)
    ensures att(t).Valid() && att(u).Valid() && att(t).ne == att(u).ne == t.ne && SameWindow(att(t), att(u), k)
  {
  }

  /** The output of a block at a pixel depends on nothing outside that pixel's shifted window. */
  lemma {:induction false} BlockIsLocal(
      x: Tensor, y: Tensor, win: pos, shift: nat, att: Attention, c: int, i: int, j: int, b: int)
    requires x.Valid() && y.Valid() && x.ne == y.ne && x.ne.Has(c, i, j, b)
    requires KeepsShape(att) && PerWindow(att)
    requires var s := PaddedShape(x.ne, win);
             SameWindow(Presented(x, win, shift), Presented(y, win, shift),
                        WindowOf(s, win, RolledTo(s.n1, shift, i), RolledTo(s.n2, shift, j), b))
    ensures Block(x, win, shift, att).At(c, i, j, b) == Block(y, win, shift, att).At(c, i, j, b)
  {
    hide Whole, PadFor, Presented, Restored, Partitioned, PaddedShape, TokenOf, WindowOf, RolledTo;
    hide PerWindow, KeepsShape;
    var s := PaddedShape(x.ne, win);
    var k := WindowOf(s, win, RolledTo(s.n1, shift, i), RolledTo(s.n2, shift, j), b);
    var t, u := Presented(x, win, shift), Presented(y, win, shift);
    AttendedWindow(att, t, u, k);
    RestoredAt(att(t), x.ne, win, shift, c, i, j, b);
    RestoredAt(att(u), x.ne, win, shift, c, i, j, b);
  }

  // ---------------------------------------------------------------------------------------
  // The variant of mobile-sam
  // ---------------------------------------------------------------------------------------

  /** `ggml_reshape` fails when the element counts differ. */
  function TryReshape(x: Tensor, s: Shape): (y: Option<Tensor>)
    requires x.Valid()
    ensures y.Some? ==> y.value.Valid() && y.value.ne == s
  {
    if s.Size() == x.ne.Size() then Some(Reshape(x, s)) else None
  }

  /** `window_partition`: pads by itself. */
  function SamPartition(x: Tensor, win: pos): (t: Tensor)
    requires x.Valid()
    ensures t.Valid() && t.ne == Partitioned(PaddedShape(x.ne, win), win)
  {
    Presented(x, win, 0)
  }

  /** `window_reverse`: takes the batch from the last dimension of its argument. */
  function SamReverse(t: Tensor, w: pos, h: pos, win: pos): (y: Option<Tensor>)
    requires t.Valid()
  {
    var s := Shape(t.ne.n0, w, h, t.ne.n3);
    var whole := PaddedShape(s, win);
    match TryReshape(t, Tiles(whole, win))
    case None => None
    case Some(tiles) =>
      SameSize(whole, win);
      Some(Crop(Reshape(Swap12(tiles), whole), w, h))
  }

  lemma MulLess(a: int, b: int, c: pos)
    requires a < b
    ensures c * a < c * b
  {
  }

  lemma LargerBatch(a: pos, b: pos, c: pos, n: pos)
    requires n > 1
    ensures Times(a, Times(b, Times(c, n))) != Times(a, Times(b, Times(c, 1)))
  {
    assert Times(c, 1) < Times(c, n);
    MulLess(Times(c, 1), Times(c, n), b);
    MulLess(Times(b, Times(c, 1)), Times(b, Times(c, n)), a);
  }

  /** For one image both ways of putting the windows back agree. */
  lemma {:induction false} SamReverseRestores(t: Tensor, s: Shape, win: pos)
    requires t.Valid() && t.ne == Partitioned(PaddedShape(s, win), win) && s.n3 == 1
    ensures SamReverse(t, s.n1, s.n2, win) == Some(Restored(t, s, win, 0))
  {
    var whole := PaddedShape(s, win);
    SameSize(whole, win);
    var merged := Reverse(t, whole, win);
    if whole == s {
      forall c, i, j, b | s.Has(c, i, j, b)
        ensures Crop(merged, s.n1, s.n2).At(c, i, j, b) == merged.At(c, i, j, b)
      {
        CropAt(merged, s.n1, s.n2, c, i, j, b);
      }
      SameElements(Crop(merged, s.n1, s.n2), merged);
    }
  }

  /** Undoing the partition works for a single image and fails for every larger batch. */
  lemma {:induction false} SamRoundTripIffOneImage(x: Tensor, win: pos)
    requires x.Valid()
    ensures SamReverse(SamPartition(x, win), x.ne.n1, x.ne.n2, win) == (if x.ne.n3 == 1 then Some(x) else None)
  {
    var t := SamPartition(x, win);
    var s := x.ne.(n3 := 1);
    var whole := PaddedShape(s, win);
    SameSize(PaddedShape(x.ne, win), win);
    SameSize(whole, win);
    assert t.ne.Size() == Times(x.ne.n0, Times(whole.n1, Times(whole.n2, x.ne.n3)));
    if x.ne.n3 == 1 {
      SamReverseRestores(t, s, win);
      BlockMovesNothing(x, win, 0);
    } else {
      LargerBatch(x.ne.n0, whole.n1, whole.n2, x.ne.n3);
    }
  }
}
