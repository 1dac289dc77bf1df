/** `build_attention_bias_indices` of scripts/convert.py: the offsets between the points of a grid,
    numbered in the order in which a double loop first meets them. */
module BiasIndices {
  import opened Arith

  type Offset = (int, int)

  /** The number of points of the grid. */
  function Points(res: int): (n: int)
    requires 0 < res
    ensures 0 < n
  {
    MulMono(1, res, res);
    res * res
  }

  /** The pairs whose first point is one of the first a of n. */
  function Entries(a: int, n: int): int {
    a * n
  }

  function Distance(a: int, b: int): int {
    if a < b then b - a else a - b
  }

  /** The offset between points a and b, which lie at row k / res and column k % res. */
  function OffsetOf(res: int, a: int, b: int): Offset
    requires 0 < res
  {
    (Distance(a / res, b / res), Distance(a % res, b % res))
  }

  /** The number an offset gets in the end. */
  function NumberOf(res: int, o: Offset): int {
    o.0 * res + o.1
  }

  /** The first n offsets in row order are numbered, and no others. */
  ghost predicate Numbered(offsets: map<Offset, int>, res: int, n: nat)
    requires 0 < res
  {
    && |offsets| == n
    && (forall k :: 0 <= k < n ==> (k / res, k % res) in offsets)
    && forall o :: o in offsets ==>
         0 <= o.0 && 0 <= o.1 < res && offsets[o] == NumberOf(res, o) && NumberOf(res, o) < n
  }

  /** Offsets between points of the grid lie in the grid. */
  lemma {:induction false} OffsetInGrid(res: int, a: int, b: int)
    requires 0 < res && 0 <= a < Points(res) && 0 <= b < Points(res)
    ensures var o := OffsetOf(res, a, b);
            && 0 <= o.0 < res && 0 <= o.1 < res && 0 <= NumberOf(res, o) < Points(res)
            && NumberOf(res, o) / res == o.0 && NumberOf(res, o) % res == o.1
  {
    FlatSplit(a, res, res);
    FlatSplit(b, res, res);
    var o := OffsetOf(res, a, b);
    FlatBound(o.1, o.0, res, res);
    FlatIndex(o.1, o.0, res);
  }

  /** From the first point, the offset of point b is b itself, met for the first time. */
  lemma {:induction false} FirstRowIsNew(offsets: map<Offset, int>, res: int, b: nat)
    requires 0 < res && b < Points(res) && Numbered(offsets, res, b)
    ensures OffsetOf(res, 0, b) == (b / res, b % res) && OffsetOf(res, 0, b) !in offsets
    ensures Numbered(offsets[OffsetOf(res, 0, b) := |offsets|], res, b + 1)
  {
    FlatIndex(0, 0, res);
    FlatSplit(b, res, res);
    var o := OffsetOf(res, 0, b);
    assert o == (b / res, b % res) && NumberOf(res, o) == b;
  }

  /** Once all offsets of the grid are numbered, none is new. */
  lemma {:induction false} LaterRowsAreKnown(offsets: map<Offset, int>, res: int, a: int, b: int)
    requires 0 < res && 0 <= a < Points(res) && 0 <= b < Points(res) && Numbered(offsets, res, Points(res))
    ensures OffsetOf(res, a, b) in offsets && offsets[OffsetOf(res, a, b)] == NumberOf(res, OffsetOf(res, a, b))
  {
    OffsetInGrid(res, a, b);
    var k := NumberOf(res, OffsetOf(res, a, b));
    assert (k / res, k % res) in offsets;
  }

  /** The list so far: entry j belongs to points j / n and j % n. */
  ghost predicate ListedTo(idxs: seq<int>, res: int)
    requires 0 < res
  {
    forall j :: 0 <= j < |idxs| ==>
      idxs[j] == NumberOf(res, OffsetOf(res, j / Points(res), j % Points(res)))
  }

  lemma {:induction false} ListOne(idxs: seq<int>, res: int, a: int, b: int, v: int)
    requires 0 < res && 0 <= a && 0 <= b < Points(res) && |idxs| == Entries(a, Points(res)) + b && ListedTo(idxs, res)
    requires v == NumberOf(res, OffsetOf(res, a, b))
    ensures ListedTo(idxs + [v], res)
  {
    FlatIndex(b, a, Points(res));
  }

  lemma NothingListed(res: int)
    requires 0 < res
    ensures ListedTo([], res) && Numbered(map[], res, 0)
  {
  }

  lemma NextPoint(a: int, n: int)
    ensures Entries(a, n) + n == Entries(a + 1, n)
    ensures Entries(0, n) == 0
  {
  }

  lemma NewNumber(offsets: map<Offset, int>, res: int, b: nat)
    requires 0 < res && b < Points(res) && Numbered(offsets, res, b)
    ensures |offsets| == b == NumberOf(res, OffsetOf(res, 0, b))
  {
    FlatIndex(0, 0, res);
    FlatSplit(b, res, res);
  }

  /** All pairs with first point a. */
  method IndexRow(res: int, a: int, idxs0: seq<int>, offsets0: map<Offset, int>)
      returns (idxs: seq<int>, offsets: map<Offset, int>)
    requires 0 < res && 0 <= a < Points(res) && |idxs0| == Entries(a, Points(res)) && ListedTo(idxs0, res)
    requires Numbered(offsets0, res, if a == 0 then 0 else Points(res))
    ensures |idxs| == Entries(a, Points(res)) + Points(res) && ListedTo(idxs, res)
    ensures Numbered(offsets, res, Points(res))
  {
    var n := Points(res);
    idxs, offsets := idxs0, offsets0;
    hide ListedTo, OffsetOf, NumberOf, Numbered, Points, Entries;
    for b := 0 to n
      invariant |idxs| == Entries(a, n) + b && ListedTo(idxs, res)
      invariant Numbered(offsets, res, if a == 0 then b else n)
    {
      var offset := OffsetOf(res, a, b);
      if a == 0 {
        FirstRowIsNew(offsets, res, b);
        NewNumber(offsets, res, b);
      } else {
        LaterRowsAreKnown(offsets, res, a, b);
      }
      if offset !in offsets {
        offsets := offsets[offset := |offsets|];
      }
      ListOne(idxs, res, a, b, offsets[offset]);
      idxs := idxs + [offsets[offset]];
    }
  }

  /** The loops meet all offsets in their first row, so an offset (dy, dx) gets the number dy * res + dx. */
  method BuildAttentionBiasIndices(res: int) returns (idxs: seq<int>, offsets: map<Offset, int>)
    requires 0 < res
    ensures |idxs| == Entries(Points(res), Points(res)) && ListedTo(idxs, res)
    ensures Numbered(offsets, res, Points(res))
  {
    hide *;
    var n := Points(res);
    offsets, idxs := map[], [];
    NothingListed(res);
    NextPoint(0, n);
    for a := 0 to n
      invariant |idxs| == Entries(a, n) && ListedTo(idxs, res)
      invariant Numbered(offsets, res, if a == 0 then 0 else n)
    {
      idxs, offsets := IndexRow(res, a, idxs, offsets);
      NextPoint(a, n);
    }
  }

  /** Two pairs of points share a bias exactly if their offsets are the same. */
  lemma {:induction false} BiasSharedIffSameOffset(idxs: seq<int>, res: int, j: int, k: int)
    requires 0 < res && ListedTo(idxs, res) && |idxs| == Entries(Points(res), Points(res))
    requires 0 <= j < |idxs| && 0 <= k < |idxs|
    ensures 0 <= idxs[j] < Points(res)
    ensures idxs[j] == idxs[k] <==>
      OffsetOf(res, j / Points(res), j % Points(res)) == OffsetOf(res, k / Points(res), k % Points(res))
  {
    FlatSplit(j, Points(res), Points(res));
    FlatSplit(k, Points(res), Points(res));
    OffsetInGrid(res, j / Points(res), j % Points(res));
    OffsetInGrid(res, k / Points(res), k % Points(res));
  }
}
