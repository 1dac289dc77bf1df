/** The precomputed tables of src/visp/arch/swin.cpp: which tokens of a shifted window must not attend
    to each other, and which entry of the bias table a pair of tokens uses. */
module AttentionMask {
  import opened Arith
  import opened Tensors
  import opened SwinWindows

  const NEG_INF := 0xfc00   // minus infinity in IEEE 754 half precision

  /** The windows of a padded image. */
  datatype Grid = Grid(win: pos, nwx: pos, nwy: pos) {
    function Shift(): nat {
      win / 2
    }

    function Tokens(): pos {
      Times(win, win)
    }

    function Width(): pos {
      Times(nwx, win)
    }

    function Height(): pos {
      Times(nwy, win)
    }
  }

  /** Whether a column lies in the part of the rolled image that wrapped around. */
  predicate Wrapped(n: pos, shift: nat, p: int) {
    p >= n - shift
  }

  /** Tokens p and q of window (ix, iy) were not neighbours before the roll. */
  predicate Apart(g: Grid, ix: int, iy: int, p: int, q: int) {
    || Wrapped(g.Height(), g.Shift(), iy * g.win + p / g.win) != Wrapped(g.Height(), g.Shift(), iy * g.win + q / g.win)
    || Wrapped(g.Width(), g.Shift(), ix * g.win + p % g.win) != Wrapped(g.Width(), g.Shift(), ix * g.win + q % g.win)
  }

  /** The mask at flat offset k: plane, then token p, then token q. */
  function MaskAt(g: Grid, k: int): int {
    var n2 := g.Tokens();
    var plane := k / n2 / n2;
    if Apart(g, plane % g.nwx, plane / g.nwx, k / n2 % n2, k % n2) then NEG_INF else 0
  }

  /** Offsets below k hold their final value, the others are still zero. */
  ghost predicate Done(s: seq<int>, g: Grid, k: int) {
    forall i :: 0 <= i < |s| ==> s[i] == if i < k then MaskAt(g, i) else 0
  }

  lemma {:induction false} MaskAtSlot(g: Grid, ix: int, iy: int, p: int, q: int)
    requires 0 <= ix < g.nwx && 0 <= iy && 0 <= p < g.Tokens() && 0 <= q < g.Tokens()
    ensures MaskAt(g, ((iy * g.nwx + ix) * g.Tokens() + p) * g.Tokens() + q)
            == if Apart(g, ix, iy, p, q) then NEG_INF else 0
  {
    var n2 := g.Tokens();
    var plane := iy * g.nwx + ix;
    FlatBound(ix, iy, g.nwx, iy + 1);
    FlatBound(p, plane, n2, plane + 1);
    FlatIndex(q, plane * n2 + p, n2);
    FlatIndex(p, plane, n2);
    FlatIndex(ix, iy, g.nwx);
  }

  lemma InteriorColumn(count: pos, win: pos, i: int, c: int)
    requires 0 <= i < count - 1 && c < win
    ensures !Wrapped(Times(count, win), win / 2, i * win + c)
  {
    MulMono(i + 2, count, win);
    assert (i + 2) * win == i * win + 2 * win;
  }

  /** A window that touches neither the right nor the bottom edge has nothing to mask. */
  lemma {:induction false} InteriorWindow(g: Grid, ix: int, iy: int, p: int, q: int)
    requires 0 <= ix < g.nwx - 1 && 0 <= iy < g.nwy - 1 && 0 <= p < g.Tokens() && 0 <= q < g.Tokens()
    ensures !Apart(g, ix, iy, p, q)
  {
    InteriorColumn(g.nwx, g.win, ix, p % g.win);
    InteriorColumn(g.nwx, g.win, ix, q % g.win);
    FlatSplit(p, g.win, g.win);
    FlatSplit(q, g.win, g.win);
    InteriorColumn(g.nwy, g.win, iy, p / g.win);
    InteriorColumn(g.nwy, g.win, iy, q / g.win);
  }

  /** The value computed for one pair of tokens, as the innermost loop computes it. */
  predicate Mismatch(g: Grid, ix: int, iy: int, x0: int, y0: int, x1: int, y1: int) {
    var matchY := (iy * g.win + y0 < g.Height() - g.Shift()) == (iy * g.win + y1 < g.Height() - g.Shift());
    var matchX := (ix * g.win + x0 < g.Width() - g.Shift()) == (ix * g.win + x1 < g.Width() - g.Shift());
    !matchY || !matchX
  }

  lemma {:induction false} MismatchIsApart(g: Grid, ix: int, iy: int, x0: int, y0: int, x1: int, y1: int)
    requires 0 <= x0 < g.win && 0 <= y0 && 0 <= x1 < g.win && 0 <= y1
    ensures Mismatch(g, ix, iy, x0, y0, x1, y1) == Apart(g, ix, iy, y0 * g.win + x0, y1 * g.win + x1)
  {
    FlatIndex(x0, y0, g.win);
    FlatIndex(x1, y1, g.win);
  }

  lemma PositiveCount(n: pos, win: pos)
    ensures 1 <= DivCeil(n, win)
  {
  }

  function GridFor(w: pos, h: pos, win: pos): Grid {
    PositiveCount(w, win);
    PositiveCount(h, win);
    Grid(win, DivCeil(w, win), DivCeil(h, win))
  }

  function MaskSize(g: Grid): pos {
    Times(Times(g.nwx, g.nwy), Times(g.Tokens(), g.Tokens()))
  }

  function PlaneStart(g: Grid, plane: int): int {
    plane * (g.Tokens() * g.Tokens())
  }

  lemma PlaneStartEnd(g: Grid)
    ensures PlaneStart(g, g.nwy * g.nwx) == MaskSize(g)
  {
  }

  /** The offset of one pair of tokens, as the loops compute it, and that it lies in the buffer. */
  lemma {:induction false} SlotOffset(g: Grid, ix: int, iy: int, p: int, q: int)
    requires 0 <= ix < g.nwx && 0 <= iy < g.nwy && 0 <= p < g.Tokens() && 0 <= q < g.Tokens()
    ensures var k := PlaneStart(g, iy * g.nwx + ix) + p * g.Tokens() + q;
            && 0 <= k < MaskSize(g)
            && MaskAt(g, k) == if Apart(g, ix, iy, p, q) then NEG_INF else 0
  {
    hide MaskAt, Apart;
    var n2, plane := g.Tokens(), iy * g.nwx + ix;
    FlatBound(ix, iy, g.nwx, g.nwy);
    FlatBound(q, p, n2, n2);
    FlatBound(p * n2 + q, plane, Times(n2, n2), Times(g.nwx, g.nwy));
    Nest(plane, n2, p, n2, q);
    MaskAtSlot(g, ix, iy, p, q);
  }

  lemma RowOffset(base: int, y0: int, n: int, n2: int, x0: int)
    ensures base + (y0 * n + x0) * n2 + n2 == base + (y0 * n + (x0 + 1)) * n2
  {
  }

  lemma NextRow(base: int, y0: int, n: int, n2: int)
    ensures base + (y0 * n + n) * n2 == base + (y0 + 1) * n * n2
  {
  }

  lemma NextPlane(g: Grid, plane: int, row: int)
    ensures PlaneStart(g, row * g.nwx + plane)
            == row * g.nwx * (g.Tokens() * g.Tokens()) + plane * (g.Tokens() * g.Tokens())
    ensures PlaneStart(g, plane) + g.win * g.win * g.Tokens() == PlaneStart(g, plane + 1)
  {
  }

  lemma DoneStep(s: seq<int>, t: seq<int>, g: Grid, k: int)
    requires 0 <= k < |s| && Done(s, g, k) && t == s[k := MaskAt(g, k)]
    ensures Done(t, g, k + 1)
  {
  }

  lemma UndoneIsZero(s: seq<int>, g: Grid, k: int)
    requires 0 <= k < |s| && Done(s, g, k)
    ensures s[k] == 0
  {
  }

  /** The two inner loops: one token p against every token q. */
  method FillToken(out: array<int>, g: Grid, ix: int, iy: int, x0: int, y0: int, base: int)
    requires 0 <= ix < g.nwx && 0 <= iy < g.nwy && 0 <= x0 < g.win && 0 <= y0 < g.win
    requires base == PlaneStart(g, iy * g.nwx + ix) && out.Length == MaskSize(g)
    requires Done(out[..], g, base + (y0 * g.win + x0) * g.Tokens())
    modifies out
    ensures Done(out[..], g, base + (y0 * g.win + x0) * g.Tokens() + g.Tokens())
  {
    hide Done, MaskAt, Apart, PlaneStart, MaskSize;
    var n, n2 := g.win, g.win * g.win;
    for y1 := 0 to n
      invariant Done(out[..], g, base + (y0 * n + x0) * n2 + y1 * n)
    {
      for x1 := 0 to n
        invariant Done(out[..], g, base + (y0 * n + x0) * n2 + (y1 * n + x1))
      {
        FlatBound(x0, y0, n, n);
        FlatBound(x1, y1, n, n);
        SlotOffset(g, ix, iy, y0 * n + x0, y1 * n + x1);
        MismatchIsApart(g, ix, iy, x0, y0, x1, y1);
        var idx := base + (y0 * n + x0) * n2 + (y1 * n + x1);
        ghost var before := out[..];
        UndoneIsZero(before, g, idx);
        if Mismatch(g, ix, iy, x0, y0, x1, y1) {
          out[idx] := NEG_INF;
        }
        assert out[..] == before[idx := MaskAt(g, idx)];
        DoneStep(before, out[..], g, idx);
      }
      assert y1 * n + n == (y1 + 1) * n;
    }
  }

  /** The four inner loops: one window. */
  method FillWindow(out: array<int>, g: Grid, ix: int, iy: int)
    requires 0 <= ix < g.nwx && 0 <= iy < g.nwy && out.Length == MaskSize(g)
    requires Done(out[..], g, PlaneStart(g, iy * g.nwx + ix))
    modifies out
    ensures Done(out[..], g, PlaneStart(g, iy * g.nwx + ix + 1))
  {
    hide Done, MaskSize, PlaneStart;
    var n, n2 := g.win, g.Tokens();
    var n4 := n2 * n2;
    var base := iy * g.nwx * n4 + ix * n4;
    NextPlane(g, ix, iy);
    for y0 := 0 to n
      invariant Done(out[..], g, base + y0 * n * n2)
    {
      for x0 := 0 to n
        invariant Done(out[..], g, base + (y0 * n + x0) * n2)
      {
        FillToken(out, g, ix, iy, x0, y0, base);
        RowOffset(base, y0, n, n2, x0);
      }
      NextRow(base, y0, n, n2);
    }
    NextPlane(g, iy * g.nwx + ix, 0);
  }

  lemma {:induction false} SkippedOffset(g: Grid, ix: int, iy: int, j: int)
    requires 0 <= ix < g.nwx - 1 && 0 <= iy < g.nwy - 1 && 0 <= j < g.Tokens() * g.Tokens()
    ensures MaskAt(g, PlaneStart(g, iy * g.nwx + ix) + j) == 0
  {
    FlatSplit(j, g.Tokens(), g.Tokens());
    var p, q := j / g.Tokens(), j % g.Tokens();
    SlotOffset(g, ix, iy, p, q);
    InteriorWindow(g, ix, iy, p, q);
  }

  /** Skipping an interior window leaves it finished. */
  lemma {:induction false} SkippedWindow(s: seq<int>, g: Grid, ix: int, iy: int)
    requires 0 <= ix < g.nwx - 1 && 0 <= iy < g.nwy - 1 && |s| == MaskSize(g)
    requires Done(s, g, PlaneStart(g, iy * g.nwx + ix))
    ensures Done(s, g, PlaneStart(g, iy * g.nwx + ix + 1))
  {
    var base := PlaneStart(g, iy * g.nwx + ix);
    forall i | base <= i < PlaneStart(g, iy * g.nwx + ix + 1)
      ensures MaskAt(g, i) == 0
    {
      SkippedOffset(g, ix, iy, i - base);
    }
  }

  lemma NothingDone(s: seq<int>, g: Grid)
    requires forall j :: 0 <= j < |s| ==> s[j] == 0
    ensures Done(s, g, PlaneStart(g, 0))
  {
  }

  /** The finished mask of an image w by h tokens large. */
  ghost predicate IsMask(mask: seq<int>, w: pos, h: pos, win: pos) {
    |mask| == MaskSize(GridFor(w, h, win)) && Done(mask, GridFor(w, h, win), |mask|)
  }

  /** `compute_attention_mask`. */
  method ComputeAttentionMask(out: array<int>, w: pos, h: pos, win: pos)
    requires out.Length == MaskSize(GridFor(w, h, win))
    modifies out
    ensures IsMask(out[..], w, h, win)
  {
    hide Done, MaskSize, PlaneStart, MaskAt;
    var g := GridFor(w, h, win);
    var nwx, nwy := g.nwx, g.nwy;
    for i := 0 to out.Length
      invariant forall j :: 0 <= j < i ==> out[j] == 0
    {
      out[i] := 0;
    }
    NothingDone(out[..], g);
    for iy := 0 to nwy
      invariant Done(out[..], g, PlaneStart(g, iy * nwx))
    {
      for ix := 0 to nwx
        invariant Done(out[..], g, PlaneStart(g, iy * nwx + ix))
      {
        if iy < nwy - 1 && ix < nwx - 1 {
          SkippedWindow(out[..], g, ix, iy);
          continue;
        }
        FillWindow(out, g, ix, iy);
      }
      assert iy * nwx + nwx == (iy + 1) * nwx;
    }
    PlaneStartEnd(g);
  }

  // ---------------------------------------------------------------------------------------
  // What the mask means
  // ---------------------------------------------------------------------------------------

  lemma {:induction false} Unroll(n: pos, shift: nat, p: int)
    requires 0 <= p < n && shift <= n
    ensures RolledFrom(n, shift, p) == p + shift - if Wrapped(n, shift, p) then n else 0
  {
    if Wrapped(n, shift, p) {
      ModOfSum(1, n, p + shift - n);
    } else {
      ModOfSum(0, n, p + shift);
    }
  }

  /** Two positions keep their distance when the roll is undone exactly if both or neither wrapped. */
  lemma {:induction false} WrapChangesDistance(n: pos, shift: nat, p0: int, p1: int)
    requires 0 <= p0 < n && 0 <= p1 < n && shift <= n
    ensures Wrapped(n, shift, p0) == Wrapped(n, shift, p1) <==>
      RolledFrom(n, shift, p1) - RolledFrom(n, shift, p0) == p1 - p0
  {
    Unroll(n, shift, p0);
    Unroll(n, shift, p1);
  }

  /** The windows of an image whose sides are whole windows. */
  function GridOf(s: Shape, win: pos): Grid
    requires Whole(s, win)
  {
    Grid(win, Windows(s.n1, win), Windows(s.n2, win))
  }

  lemma {:induction false} PaddedCount(n: pos, win: pos)
    ensures DivCeil(n, win) == (n + PadFor(n, win)) / win
  {
    var q, r := n / win, n % win;
    DivModBounds(n, win);
    if r == 0 {
      FlatIndex(win - 1, q, win);
      FlatIndex(0, 1, win);
    } else {
      assert n + win - 1 == (q + 1) * win + (r - 1);
      FlatIndex(r - 1, q + 1, win);
      FlatIndex(win - r, 0, win);
      FlatIndex(0, q + 1, win);
    }
  }

  /** The grid the mask is made for is that of the padded image. */
  lemma {:induction false} GridOfPadded(s: Shape, win: pos)
    ensures GridFor(s.n1, s.n2, win) == GridOf(PaddedShape(s, win), win)
  {
    PaddedCount(s.n1, win);
    PaddedCount(s.n2, win);
  }

  /** Where attention finds the mask entry for two positions of the rolled image in one window of image b:
      in the window's plane, whichever image of the batch it belongs to. */
  function EntryOffset(s: Shape, win: pos, x0: int, y0: int, x1: int, y1: int, b: int): int
    requires Whole(s, win)
  {
    var g := GridOf(s, win);
    var plane := WindowOf(s, win, x0, y0, b) % Times(g.nwx, g.nwy);
    PlaneStart(g, plane) + TokenOf(win, x0, y0) * g.Tokens() + TokenOf(win, x1, y1)
  }

  lemma {:induction false} PlaneOfWindow(s: Shape, win: pos, x: int, y: int, b: nat)
    requires Whole(s, win) && 0 <= x < s.n1 && 0 <= y < s.n2
    ensures var nwx, nwy := Windows(s.n1, win), Windows(s.n2, win);
            && WindowOf(s, win, x, y, b) % Times(nwx, nwy) == (y / win) * nwx + x / win
            && 0 <= x / win < nwx && 0 <= y / win < nwy
  {
    var nwx, nwy := Windows(s.n1, win), Windows(s.n2, win);
    FlatSplit(x, win, nwx);
    FlatSplit(y, win, nwy);
    Nest(b, nwy, y / win, nwx, x / win);
    FlatBound(x / win, y / win, nwx, nwy);
    FlatIndex((y / win) * nwx + x / win, b, Times(nwx, nwy));
  }

  lemma WindowFits(n: pos, win: pos, x: int)
    requires n % win == 0
    ensures win / 2 <= n
  {
  }

  lemma {:induction false} TokenInWindow(win: pos, x: int, y: int)
    requires 0 <= x && 0 <= y
    ensures 0 <= TokenOf(win, x, y) < win * win
    ensures TokenOf(win, x, y) / win == y % win && TokenOf(win, x, y) % win == x % win
    ensures (x / win) * win + x % win == x && (y / win) * win + y % win == y
  {
    DivModBounds(x, win);
    DivModBounds(y, win);
    FlatBound(x % win, y % win, win, win);
    FlatIndex(x % win, y % win, win);
  }

  /** The entry for two tokens of a window lies in the mask, and is clear exactly if both kept their
      distance when the roll is undone. */
  lemma {:induction false} EntryIff(s: Shape, win: pos, x0: int, y0: int, x1: int, y1: int, b: nat)
    requires Whole(s, win) && 0 <= x0 < s.n1 && 0 <= y0 < s.n2 && 0 <= x1 < s.n1 && 0 <= y1 < s.n2
    requires x0 / win == x1 / win && y0 / win == y1 / win
    ensures var k := EntryOffset(s, win, x0, y0, x1, y1, b);
            && 0 <= k < MaskSize(GridOf(s, win))
            && MaskAt(GridOf(s, win), k) in {0, NEG_INF}
            && (MaskAt(GridOf(s, win), k) == 0 <==>
                  && RolledFrom(s.n1, win / 2, x1) - RolledFrom(s.n1, win / 2, x0) == x1 - x0
                  && RolledFrom(s.n2, win / 2, y1) - RolledFrom(s.n2, win / 2, y0) == y1 - y0)
  {
    hide RolledFrom, Wrapped;
    var g := GridOf(s, win);
    PlaneOfWindow(s, win, x0, y0, b);
    TokenInWindow(win, x0, y0);
    TokenInWindow(win, x1, y1);
    SlotOffset(g, x0 / win, y0 / win, TokenOf(win, x0, y0), TokenOf(win, x1, y1));
    WindowFits(s.n1, win, x0);
    WindowFits(s.n2, win, y0);
    WrapChangesDistance(s.n1, win / 2, x0, x1);
    WrapChangesDistance(s.n2, win / 2, y0, y1);
  }

  /** In a block shifted by half a window, two tokens of a window are masked from each other exactly
      when their distance in the window is not their distance in the padded image before the roll. The
      image is s, of any size; the positions are those of the padded and rolled image. */
  lemma {:induction false} MaskedIffNotNeighbours(
      mask: seq<int>, s: Shape, win: pos, x0: int, y0: int, x1: int, y1: int, b: nat)
    requires IsMask(mask, s.n1, s.n2, win)
    requires var p := PaddedShape(s, win); 0 <= x0 < p.n1 && 0 <= y0 < p.n2 && 0 <= x1 < p.n1 && 0 <= y1 < p.n2
    requires x0 / win == x1 / win && y0 / win == y1 / win
    ensures var p := PaddedShape(s, win);
            var k := EntryOffset(p, win, x0, y0, x1, y1, b);
            && 0 <= k < |mask| && mask[k] in {0, 0xfc00}
            && (mask[k] == 0 <==>
                  && RolledFrom(p.n1, win / 2, x1) - RolledFrom(p.n1, win / 2, x0) == x1 - x0
                  && RolledFrom(p.n2, win / 2, y1) - RolledFrom(p.n2, win / 2, y0) == y1 - y0)
  {
    hide MaskAt, EntryOffset, RolledFrom, MaskSize, GridFor, GridOf;
    GridOfPadded(s, win);
    EntryIff(PaddedShape(s, win), win, x0, y0, x1, y1, b);
  }

  lemma {:induction false} CornerTokens(win: pos)
    ensures var last := Times(win, win) - 1; last >= 0 && last / win == win - 1 && last % win == win - 1
    ensures 0 / win == 0 && 0 % win == 0
  {
    assert Times(win, win) - 1 == (win - 1) * win + (win - 1);
    FlatIndex(win - 1, win - 1, win);
    FlatIndex(0, 0, win);
  }

  lemma EdgeColumn(count: pos, win: pos)
    requires win > 1
    ensures !Wrapped(Times(count, win), win / 2, (count - 1) * win)
    ensures Wrapped(Times(count, win), win / 2, (count - 1) * win + (win - 1))
  {
  }

  /** The first and the last token of an edge window. */
  lemma {:induction false} CornersApart(g: Grid, ix: int, iy: int)
    requires 0 <= ix < g.nwx && 0 <= iy < g.nwy && g.win > 1 && !(ix < g.nwx - 1 && iy < g.nwy - 1)
    ensures 0 <= g.Tokens() - 1 && Apart(g, ix, iy, 0, g.Tokens() - 1)
  {
    hide Wrapped;
    CornerTokens(g.win);
    if ix == g.nwx - 1 {
      EdgeColumn(g.nwx, g.win);
    } else {
      EdgeColumn(g.nwy, g.win);
    }
  }

  /** The same table is added in blocks without a shift, where no token has moved. It changes nothing
      there only in windows away from the right and bottom edges (or of one token): every other window
      has pairs masked that are true neighbours. */
  lemma {:induction false} UnmaskedWindowIff(g: Grid, ix: int, iy: int)
    requires 0 <= ix < g.nwx && 0 <= iy < g.nwy
    ensures (forall p, q :: 0 <= p < g.Tokens() && 0 <= q < g.Tokens() ==> !Apart(g, ix, iy, p, q)) <==>
      g.win == 1 || (ix < g.nwx - 1 && iy < g.nwy - 1)
  {
    if g.win == 1 {
      assert g.Tokens() == 1;
    } else if ix < g.nwx - 1 && iy < g.nwy - 1 {
      forall p, q | 0 <= p < g.Tokens() && 0 <= q < g.Tokens()
        ensures !Apart(g, ix, iy, p, q)
      {
        InteriorWindow(g, ix, iy, p, q);
      }
    } else {
      CornersApart(g, ix, iy);
    }
  }

  // ---------------------------------------------------------------------------------------
  // Relative positions
  // ---------------------------------------------------------------------------------------

  /** The row of the bias table for a displacement. */
  function BiasRow(win: pos, dx: int, dy: int): int {
    (dy + win - 1) * (2 * win - 1) + (dx + win - 1)
  }

  /** Displacements within a window have different rows, all inside the table. */
  lemma {:induction false} BiasRowIsExact(win: pos, dx: int, dy: int, ex: int, ey: int)
    requires 0 - win < dx < win && 0 - win < dy < win && 0 - win < ex < win && 0 - win < ey < win
    ensures 0 <= BiasRow(win, dx, dy) < (2 * win - 1) * (2 * win - 1)
    ensures BiasRow(win, dx, dy) == BiasRow(win, ex, ey) <==> dx == ex && dy == ey
  {
    var m := 2 * win - 1;
    FlatBound(dx + win - 1, dy + win - 1, m, m);
    FlatIndex(dx + win - 1, dy + win - 1, m);
    FlatIndex(ex + win - 1, ey + win - 1, m);
  }

  /** The table row for offset i: the fast token is i % n2, the slow one i / n2. */
  function RelativeAt(win: pos, i: int): int {
    var n2 := Times(win, win);
    BiasRow(win, i / n2 % win - i % win, i / n2 / win % win - i / win % win)
  }

  /** The finished index table. */
  ghost predicate IsIndex(table: seq<int>, win: pos) {
    && |table| == Times(Times(win, win), Times(win, win))
    && forall i :: 0 <= i < |table| ==> table[i] == RelativeAt(win, i)
  }

  /** `compute_relative_position_index`. */
  method ComputeRelativePositionIndex(dst: array<int>, win: pos)
    requires dst.Length == Times(Times(win, win), Times(win, win))
    modifies dst
    ensures IsIndex(dst[..], win)
  {
    var n := win;
    var n2 := Times(n, n);
    var n4 := n2 * n2;
    for i := 0 to n4
      invariant forall k :: 0 <= k < i ==> dst[k] == RelativeAt(win, k)
    {
      var x0, y0 := i % n, i / n % n;
      var x1, y1 := i / n2 % n, i / n2 / n % n;
      dst[i] := (y1 - y0 + n - 1) * (2 * n - 1) + (x1 - x0 + n - 1);
    }
  }

  lemma {:induction false} FastToken(win: pos, p: int, q: int)
    requires 0 <= p < win * win && 0 <= q < win * win
    ensures var i := q * (win * win) + p; i % win == p % win && i / win % win == p / win
  {
    var row := q * win + p / win;
    FlatSplit(p, win, win);
    Nest(q, win, p / win, win, p % win);
    MulMono(0, q, win);
    assert q * (win * win) + p == row * win + p % win;
    FlatIndex(p % win, row, win);
    FlatIndex(p / win, q, win);
  }

  /** For tokens p and q of a window the table gives the row of their displacement. */
  lemma {:induction false} RelativeAtPair(win: pos, p: int, q: int)
    requires 0 <= p < win * win && 0 <= q < win * win
    ensures RelativeAt(win, q * (win * win) + p) == BiasRow(win, q % win - p % win, q / win - p / win)
  {
    hide BiasRow;
    FlatIndex(p, q, Times(win, win));
    FastToken(win, p, q);
    FlatSplit(q, win, win);
    ModOfSum(0, win, q / win);
  }

  /** Where the mask lets two tokens attend, the bias is the one for their displacement in the padded
      image before the roll. */
  lemma {:induction false} UnmaskedBiasIsTrueDisplacement(
      mask: seq<int>, table: seq<int>, s: Shape, win: pos, x0: int, y0: int, x1: int, y1: int, b: nat)
    requires IsMask(mask, s.n1, s.n2, win) && IsIndex(table, win)
    requires var p := PaddedShape(s, win); 0 <= x0 < p.n1 && 0 <= y0 < p.n2 && 0 <= x1 < p.n1 && 0 <= y1 < p.n2
    requires x0 / win == x1 / win && y0 / win == y1 / win
    ensures var p := PaddedShape(s, win);
            var k := EntryOffset(p, win, x0, y0, x1, y1, b);
            var i := TokenOf(win, x1, y1) * (win * win) + TokenOf(win, x0, y0);
            && 0 <= k < |mask| && 0 <= i < |table|
            && (mask[k] == 0 ==>
                  table[i] == BiasRow(win, RolledFrom(p.n1, win / 2, x1) - RolledFrom(p.n1, win / 2, x0),
                                      RolledFrom(p.n2, win / 2, y1) - RolledFrom(p.n2, win / 2, y0)))
  {
    hide RelativeAt, EntryOffset, RolledFrom, BiasRow, IsMask;
    MaskedIffNotNeighbours(mask, s, win, x0, y0, x1, y1, b);
    TokenInWindow(win, x0, y0);
    TokenInWindow(win, x1, y1);
    FlatBound(TokenOf(win, x0, y0), TokenOf(win, x1, y1), Times(win, win), Times(win, win));
    RelativeAtPair(win, TokenOf(win, x0, y0), TokenOf(win, x1, y1));
  }
}
