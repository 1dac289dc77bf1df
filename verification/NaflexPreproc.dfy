/** `preprocess_image_rgb` of src/siglip2/preproc.cpp: choose the size, resize, cut into patches. */
module NaflexPreproc {
  import opened Arith
  import opened NaflexPatchify
  import opened NaflexResize
  import opened NaflexResizeLoops
  import opened NaflexSize

  datatype Outcome =
    | EmptyInput
    | InvalidBudget
    | Ready(pixelValues: seq<real>, nPatchesH: int, nPatchesW: int)

  /** The resized image that the patches are cut from. */
  ghost predicate CutFrom(values: seq<real>, resized: seq<u8>, g: PatchGrid, norm: Norm) {
    g.Valid() && norm.Valid() && |resized| == Total(g) && Gathered(values, resized, g, norm, Total(g))
  }

  lemma SidesAreWhole(scale: real, size: int, patch: int)
    requires 1 <= patch
    ensures var s := ScaledSize(scale, size, patch);
            patch <= s && 1 <= s / patch && s == (s / patch) * patch
  {
    ScaledIsWhole(scale, size, patch);
    MulMono(1, Patches(scale, size, patch), patch);
  }

  lemma SourceFits(rgb: seq<u8>, z: Sizes)
    requires z.Valid() && |rgb| == z.SourceRow() * z.sh
    ensures IsSource(rgb, z)
  {
  }

  /** As many samples in the patches as in the image. */
  lemma TargetCount(nh: int, nw: int, patch: int)
    requires 1 <= nh && 1 <= nw && 1 <= patch
    ensures Total(PatchGrid(nh, nw, patch)) == ((nw * patch) * 3) * (nh * patch)
    ensures 0 <= ((nw * patch) * 3) * (nh * patch)
  {
  }

  /** The patches of a successful call cover the resized image exactly and meet the budget whenever the
      sides are at most a million patches long. The image was scaled by `lo`, and no scale larger than that by
      the tolerance would have met the budget. */
  method PreprocessImageRgb(rgb: seq<u8>, height: int, width: int, budget: int, patch: int, norm: Norm)
      returns (r: Outcome, ghost resized: seq<u8>, ghost lo: real)
    requires norm.Valid() && (height > 0 && width > 0 ==> |rgb| == (width * 3) * height)
    ensures r == EmptyInput <==> height <= 0 || width <= 0
    ensures r == InvalidBudget <==> height > 0 && width > 0 && (patch <= 0 || budget <= 0)
    ensures r.Ready? ==>
      && 1 <= r.nPatchesH && 1 <= r.nPatchesW
      && CutFrom(r.pixelValues, resized, PatchGrid(r.nPatchesH, r.nPatchesW, patch), norm)
      && var z := Sizes(width, height, r.nPatchesW * patch, r.nPatchesH * patch, 3);
         IsSource(rgb, z) && resized == Resized(rgb, z)
    ensures r.Ready? && height <= 1_000_000 * patch && width <= 1_000_000 * patch ==>
      r.nPatchesH * r.nPatchesW <= budget
    ensures r.Ready? ==>
      && 0.000001 <= lo < 100.0
      && r.nPatchesH * patch == ScaledSize(lo, height, patch) && r.nPatchesW * patch == ScaledSize(lo, width, patch)
      && (r.nPatchesH * r.nPatchesW <= budget <==> GridSize(0.000001, height, width, patch) <= budget)
    ensures r.Ready? ==>
      forall s :: lo + 0.00001 <= s <= 100.0 ==> GridSize(s, height, width, patch) > budget
  {
    resized, lo := [], LOWEST;
    if height <= 0 || width <= 0 {
      return EmptyInput, resized, lo;
    }
    if patch <= 0 || budget <= 0 {
      return InvalidBudget, resized, lo;
    }
    var targetH, targetW;
    ghost var hi, rounds;
    targetH, targetW, lo, hi, rounds := ComputeTargetSize(height, width, patch, budget);
    forall s | lo + EPSILON <= s <= HIGHEST
      ensures GridSize(s, height, width, patch) > budget
    {
      NothingLargerFits(height, width, patch, budget, lo, hi, s);
    }
    SidesAreWhole(lo, height, patch);
    SidesAreWhole(lo, width, patch);
    var z := Sizes(width, height, targetW, targetH, 3);
    SourceFits(rgb, z);
    TargetCount(targetH / patch, targetW / patch, patch);
    var pixels := new u8[z.TargetRow() * z.dh];
    ResizeBilinearU8(rgb, pixels, z);
    resized := pixels[..];
    var g := PatchGrid(targetH / patch, targetW / patch, patch);
    var values := Patchify(pixels[..], g, norm);
    if height <= 1_000_000 * patch && width <= 1_000_000 * patch {
      TargetFitsAndIsMaximal(height, width, patch, budget, lo, hi, hi);
    }
    r := Ready(values[..], targetH / patch, targetW / patch);
  }
}
