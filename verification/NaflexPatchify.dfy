/** `rescale_normalize_patchify` of src/siglip2/preproc.cpp: the samples of an image cut into square
    patches, each written once, scaled and shifted per channel. */
module NaflexPatchify {
  import opened Arith
  import opened NaflexResize

  /** An image of nh by nw patches of side p, three samples per pixel. */
  datatype PatchGrid = PatchGrid(nh: int, nw: int, p: int) {
    predicate Valid() {
      1 <= nh && 1 <= nw && 1 <= p
    }

    function Width(): int {
      nw * p
    }

    /** Samples in one patch. */
    function Feature(): int {
      3 * p * p
    }
  }

  /** Where sample c of pixel (x, y) lies in the image. */
  function PixelAt(g: PatchGrid, x: int, y: int, c: int): int {
    (y * g.Width() + x) * 3 + c
  }

  /** Where sample c of pixel (px, py) of patch (pw, ph) lies in the output. */
  function SlotAt(g: PatchGrid, pw: int, ph: int, px: int, py: int, c: int): int {
    (ph * g.nw + pw) * g.Feature() + ((py * g.p + px) * 3 + c)
  }

  lemma FeaturePositive(g: PatchGrid)
    requires g.Valid()
    ensures g.Feature() >= 3
  {
  }

  /** The image offset of output slot k. */
  function SourceOf(g: PatchGrid, k: int): int
    requires g.Valid()
  {
    FeaturePositive(g);
    var patch, off := k / g.Feature(), k % g.Feature();
    var pixel, c := off / 3, off % 3;
    PixelAt(g, (patch % g.nw) * g.p + pixel % g.p, (patch / g.nw) * g.p + pixel / g.p, c)
  }

  lemma WidthPositive(g: PatchGrid)
    requires g.Valid()
    ensures g.Width() >= 1
  {
  }

  /** The output slot of image offset i. */
  function SlotOf(g: PatchGrid, i: int): int
    requires g.Valid()
  {
    WidthPositive(g);
    var pixel, c := i / 3, i % 3;
    var x, y := pixel % g.Width(), pixel / g.Width();
    SlotAt(g, x / g.p, y / g.p, x % g.p, y % g.p, c)
  }

  function Total(g: PatchGrid): int {
    g.nh * g.nw * g.Feature()
  }

  predicate IsSlot(g: PatchGrid, pw: int, ph: int, px: int, py: int, c: int) {
    g.Valid() && 0 <= pw < g.nw && 0 <= ph < g.nh && 0 <= px < g.p && 0 <= py < g.p && 0 <= c < 3
  }

  // ---------------------------------------------------------------------------------------
  // The gather is a permutation
  // ---------------------------------------------------------------------------------------

  /** The offset inside a patch, taken apart. */
  lemma {:induction false} FeatureParts(g: PatchGrid, px: int, py: int, c: int)
    requires g.Valid() && 0 <= px < g.p && 0 <= py < g.p && 0 <= c < 3
    ensures var off := (py * g.p + px) * 3 + c;
            && 0 <= off < g.Feature() && off / 3 == py * g.p + px && off % 3 == c
            && off / 3 / g.p == py && off / 3 % g.p == px
  {
    FlatBound(px, py, g.p, g.p);
    FlatIndex(px, py, g.p);
    FlatIndex(c, py * g.p + px, 3);
  }

  lemma TotalOf(nh: int, nw: int, feature: int)
    ensures feature * (nw * nh) == nh * nw * feature
  {
  }

  /** The patch of a slot and its offset inside it. */
  lemma {:induction false} SlotParts(g: PatchGrid, pw: int, ph: int, off: int)
    requires g.Valid() && 0 <= pw < g.nw && 0 <= ph < g.nh && 0 <= off < g.Feature()
    ensures var k := (ph * g.nw + pw) * g.Feature() + off;
            && g.Feature() > 0 && 0 <= k < Total(g) && k % g.Feature() == off
            && k / g.Feature() % g.nw == pw && k / g.Feature() / g.nw == ph
  {
    var feature := g.Feature();
    FlatBound(pw, ph, g.nw, g.nh);
    FlatBound(off, ph * g.nw + pw, feature, g.nw * g.nh);
    FlatIndex(off, ph * g.nw + pw, feature);
    FlatIndex(pw, ph, g.nw);
    TotalOf(g.nh, g.nw, feature);
  }

  /** Every slot comes from the pixel at its place in its patch. */
  lemma {:induction false} SlotSource(g: PatchGrid, pw: int, ph: int, px: int, py: int, c: int)
    requires IsSlot(g, pw, ph, px, py, c)
    ensures var k := SlotAt(g, pw, ph, px, py, c);
            && 0 <= k < Total(g) && k % g.Feature() % 3 == c
            && SourceOf(g, k) == PixelAt(g, pw * g.p + px, ph * g.p + py, c)
  {
    FeatureParts(g, px, py, c);
    SlotParts(g, pw, ph, (py * g.p + px) * 3 + c);
    hide PixelAt, Total;
  }

  lemma TotalIs(g: PatchGrid)
    ensures Total(g) == g.Width() * (g.p * g.nh) * 3
  {
  }

  /** Every pixel goes to its place in its patch. */
  lemma {:induction false} PixelSlot(g: PatchGrid, pw: int, ph: int, px: int, py: int, c: int)
    requires IsSlot(g, pw, ph, px, py, c)
    ensures var i := PixelAt(g, pw * g.p + px, ph * g.p + py, c);
            0 <= i < Total(g) && SlotOf(g, i) == SlotAt(g, pw, ph, px, py, c)
  {
    var x, y := pw * g.p + px, ph * g.p + py;
    WidthPositive(g);
    FlatBound(px, pw, g.p, g.nw);
    FlatBound(py, ph, g.p, g.nh);
    FlatIndex(px, pw, g.p);
    FlatIndex(py, ph, g.p);
    FlatBound(x, y, g.Width(), g.p * g.nh);
    FlatIndex(x, y, g.Width());
    FlatIndex(c, y * g.Width() + x, 3);
    TotalIs(g);
  }

  lemma {:induction false} SlotCoordinates(g: PatchGrid, k: int)
      returns (pw: int, ph: int, px: int, py: int, c: int)
    requires g.Valid() && 0 <= k < Total(g)
    ensures IsSlot(g, pw, ph, px, py, c) && SlotAt(g, pw, ph, px, py, c) == k
  {
    FeaturePositive(g);
    assert g.Feature() * (g.nh * g.nw) == Total(g);
    FlatSplit(k, g.Feature(), g.nh * g.nw);
    var patch, off := k / g.Feature(), k % g.Feature();
    assert g.nw * g.nh == g.nh * g.nw;
    FlatSplit(patch, g.nw, g.nh);
    assert 3 * (g.p * g.p) == g.Feature();
    FlatSplit(off, 3, g.p * g.p);
    FlatSplit(off / 3, g.p, g.p);
    pw, ph, px, py, c := patch % g.nw, patch / g.nw, off / 3 % g.p, off / 3 / g.p, off % 3;
  }

  lemma {:induction false} PixelCoordinates(g: PatchGrid, i: int)
      returns (pw: int, ph: int, px: int, py: int, c: int)
    requires g.Valid() && 0 <= i < Total(g)
    ensures IsSlot(g, pw, ph, px, py, c) && PixelAt(g, pw * g.p + px, ph * g.p + py, c) == i
  {
    WidthPositive(g);
    TotalIs(g);
    FlatSplit(i, 3, g.Width() * (g.p * g.nh));
    FlatSplit(i / 3, g.Width(), g.p * g.nh);
    var x, y := i / 3 % g.Width(), i / 3 / g.Width();
    assert g.Width() == g.p * g.nw;
    FlatSplit(x, g.p, g.nw);
    FlatSplit(y, g.p, g.nh);
    pw, ph, px, py, c := x / g.p, y / g.p, x % g.p, y % g.p, i % 3;
  }

  /** Slots and samples correspond one to one: no sample is lost and none is used twice. */
  lemma {:induction false} GatherIsPermutation(g: PatchGrid, k: int)
    requires g.Valid() && 0 <= k < Total(g)
    ensures 0 <= SourceOf(g, k) < Total(g) && SlotOf(g, SourceOf(g, k)) == k
    ensures 0 <= SlotOf(g, k) < Total(g) && SourceOf(g, SlotOf(g, k)) == k
  {
    hide SourceOf, SlotOf, SlotAt, PixelAt, Total;
    var pw, ph, px, py, c := SlotCoordinates(g, k);
    SlotSource(g, pw, ph, px, py, c);
    PixelSlot(g, pw, ph, px, py, c);
    pw, ph, px, py, c := PixelCoordinates(g, k);
    PixelSlot(g, pw, ph, px, py, c);
    SlotSource(g, pw, ph, px, py, c);
  }

  // ---------------------------------------------------------------------------------------
  // The loops
  // ---------------------------------------------------------------------------------------

  /** Scale, mean and standard deviation per channel. `byZero` is what dividing by zero gives: an infinity,
      or not a number. */
  datatype Norm = Norm(factor: real, mean: seq<real>, deviation: seq<real>, byZero: real -> real) {
    predicate Valid() {
      |mean| == |deviation| == 3
    }

    function Apply(v: u8, c: int): real
      requires Valid() && 0 <= c < 3
    {
      var shifted := v as real * factor - mean[c];
      if deviation[c] == 0.0 then byZero(shifted) else shifted / deviation[c]
    }
  }

  /** Normalising is undone by the deviation and the mean. */
  lemma Denormalised(norm: Norm, v: u8, c: int)
    requires norm.Valid() && 0 <= c < 3
    ensures norm.deviation[c] != 0.0 ==>
              norm.Apply(v, c) * norm.deviation[c] + norm.mean[c] == v as real * norm.factor
  {
    if norm.deviation[c] != 0.0 {
      var shifted := v as real * norm.factor - norm.mean[c];
      assert shifted / norm.deviation[c] * norm.deviation[c] == shifted;
    }
  }

  /** What output slot k must hold. */
  function Wanted(rgb: seq<u8>, g: PatchGrid, norm: Norm, k: int): real
    requires g.Valid() && norm.Valid() && |rgb| == Total(g) && 0 <= k < Total(g)
  {
    GatherIsPermutation(g, k);
    FeaturePositive(g);
    norm.Apply(rgb[SourceOf(g, k)], k % g.Feature() % 3)
  }

  ghost predicate Gathered(s: seq<real>, rgb: seq<u8>, g: PatchGrid, norm: Norm, k: int)
    requires g.Valid() && norm.Valid() && |rgb| == Total(g)
  {
    |s| == Total(g) && forall i :: 0 <= i < k && i < Total(g) ==> s[i] == Wanted(rgb, g, norm, i)
  }

  lemma GatheredStep(s: seq<real>, r: seq<real>, rgb: seq<u8>, g: PatchGrid, norm: Norm, k: int)
    requires g.Valid() && norm.Valid() && |rgb| == Total(g) && 0 <= k < Total(g)
    requires Gathered(s, rgb, g, norm, k) && r == s[k := Wanted(rgb, g, norm, k)]
    ensures Gathered(r, rgb, g, norm, k + 1)
  {
  }

  lemma {:induction false} WantedAt(rgb: seq<u8>, g: PatchGrid, norm: Norm, pw: int, ph: int, px: int, py: int, c: int)
    requires IsSlot(g, pw, ph, px, py, c) && norm.Valid() && |rgb| == Total(g)
    ensures 0 <= SlotAt(g, pw, ph, px, py, c) < Total(g)
    ensures 0 <= PixelAt(g, pw * g.p + px, ph * g.p + py, c) < |rgb|
    ensures Wanted(rgb, g, norm, SlotAt(g, pw, ph, px, py, c))
            == norm.Apply(rgb[PixelAt(g, pw * g.p + px, ph * g.p + py, c)], c)
  {
    SlotSource(g, pw, ph, px, py, c);
    PixelSlot(g, pw, ph, px, py, c);
    hide SourceOf, SlotAt, PixelAt, Total;
  }

  lemma NothingGathered(s: seq<real>, rgb: seq<u8>, g: PatchGrid, norm: Norm)
    requires g.Valid() && norm.Valid() && |rgb| == Total(g) == |s|
    ensures Gathered(s, rgb, g, norm, 0 * g.nw * g.Feature())
  {
  }

  lemma AllGathered(s: seq<real>, rgb: seq<u8>, g: PatchGrid, norm: Norm)
    requires g.Valid() && norm.Valid() && |rgb| == Total(g)
    requires Gathered(s, rgb, g, norm, g.nh * g.nw * g.Feature())
    ensures Gathered(s, rgb, g, norm, Total(g))
  {
  }

  lemma PatchEnds(g: PatchGrid, patch: int)
    ensures patch * g.Feature() + g.p * g.p * 3 == (patch + 1) * g.Feature()
  {
  }

  lemma SlotStarts(g: PatchGrid, pw: int, ph: int, px: int, py: int, c: int)
    ensures SlotAt(g, pw, ph, px, py, c) == SlotAt(g, pw, ph, px, py, 0) + c
    ensures SlotAt(g, pw, ph, px, py, 0) == (ph * g.nw + pw) * g.Feature() + (py * g.p + px) * 3
  {
  }

  lemma GatheredLength(s: seq<real>, rgb: seq<u8>, g: PatchGrid, norm: Norm, k: int)
    requires g.Valid() && norm.Valid() && |rgb| == Total(g) && Gathered(s, rgb, g, norm, k)
    ensures |s| == Total(g)
  {
  }

  /** The three samples of one pixel. */
  method GatherPixel(
      rgb: seq<u8>, g: PatchGrid, norm: Norm, out: array<real>, pw: int, ph: int, px: int, py: int)
    requires IsSlot(g, pw, ph, px, py, 0) && norm.Valid() && |rgb| == Total(g)
    requires Gathered(out[..], rgb, g, norm, (ph * g.nw + pw) * g.Feature() + (py * g.p + px) * 3)
    modifies out
    ensures Gathered(out[..], rgb, g, norm, (ph * g.nw + pw) * g.Feature() + (py * g.p + px + 1) * 3)
  {
    hide Wanted, Gathered, Total, SlotAt, PixelAt;
    var x, y := pw * g.p + px, ph * g.p + py;
    SlotStarts(g, pw, ph, px, py, 0);
    for c := 0 to 3
      invariant Gathered(out[..], rgb, g, norm, SlotAt(g, pw, ph, px, py, 0) + c)
    {
      SlotStarts(g, pw, ph, px, py, c);
      WantedAt(rgb, g, norm, pw, ph, px, py, c);
      GatheredLength(out[..], rgb, g, norm, SlotAt(g, pw, ph, px, py, 0) + c);
      ghost var s := out[..];
      out[SlotAt(g, pw, ph, px, py, c)] := norm.Apply(rgb[PixelAt(g, x, y, c)], c);
      GatheredStep(s, out[..], rgb, g, norm, SlotAt(g, pw, ph, px, py, c));
    }
  }

  /** One patch. */
  method GatherPatch(rgb: seq<u8>, g: PatchGrid, norm: Norm, out: array<real>, pw: int, ph: int)
    requires g.Valid() && norm.Valid() && |rgb| == Total(g) && 0 <= pw < g.nw && 0 <= ph < g.nh
    requires Gathered(out[..], rgb, g, norm, (ph * g.nw + pw) * g.Feature())
    modifies out
    ensures Gathered(out[..], rgb, g, norm, (ph * g.nw + pw + 1) * g.Feature())
  {
    hide Wanted, Gathered, Total;
    var dst := (ph * g.nw + pw) * g.Feature();
    for py := 0 to g.p
      invariant Gathered(out[..], rgb, g, norm, dst + py * g.p * 3)
    {
      for px := 0 to g.p
        invariant Gathered(out[..], rgb, g, norm, dst + (py * g.p + px) * 3)
      {
        GatherPixel(rgb, g, norm, out, pw, ph, px, py);
        assert (py * g.p + px + 1) * 3 == (py * g.p + (px + 1)) * 3;
      }
      assert (py * g.p + g.p) * 3 == (py + 1) * g.p * 3;
    }
    PatchEnds(g, ph * g.nw + pw);
  }

  /** `rescale_normalize_patchify`. */
  method Patchify(rgb: seq<u8>, g: PatchGrid, norm: Norm) returns (out: array<real>)
    requires g.Valid() && norm.Valid() && |rgb| == Total(g)
    ensures fresh(out) && Gathered(out[..], rgb, g, norm, Total(g))
  {
    TotalIs(g);
    WidthPositive(g);
    out := new real[Total(g)](_ => 0.0);
    hide Wanted, Gathered, Total;
    NothingGathered(out[..], rgb, g, norm);
    for ph := 0 to g.nh
      invariant Gathered(out[..], rgb, g, norm, ph * g.nw * g.Feature())
    {
      for pw := 0 to g.nw
        invariant Gathered(out[..], rgb, g, norm, (ph * g.nw + pw) * g.Feature())
      {
        GatherPatch(rgb, g, norm, out, pw, ph);
        assert ph * g.nw + pw + 1 == ph * g.nw + (pw + 1);
      }
      assert ph * g.nw + g.nw == (ph + 1) * g.nw;
    }
    AllGathered(out[..], rgb, g, norm);
  }
}
