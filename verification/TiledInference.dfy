/** Tiled super-resolution: `convert` of src/visp/image.cpp and the loop of `esrgan_compute` in
    src/visp/vision.cpp. Channel values are exact reals; the network is any function of a tile. */
module TiledInference {
  import opened Arith
  import opened TileLayout
  import opened TileBlend

  type U8 = v: int | 0 <= v < 256

  datatype U8x3 = U8x3(r: U8, g: U8, b: U8)

  datatype U8x4 = U8x4(r: U8, g: U8, b: U8, a: U8)

  /** `image_load` of an rgb_u8 pixel. */
  function Load(p: U8x3): Rgb {
    Rgb(p.r as real / 255.0, p.g as real / 255.0, p.b as real / 255.0)
  }

  /** Bytes are read as 255ths. */
  lemma LoadIs(p: U8x3)
    ensures var q := Load(p); q.r * 255.0 == p.r as real && q.g * 255.0 == p.g as real && q.b * 255.0 == p.b as real
  {
  }

  function LoadAt(image: seq<U8x3>, w: int, h: int, x: int, y: int): Rgb
    requires 0 <= x < w && 0 <= y < h && |image| == w * h
  {
    FlatBound(x, y, w, h);
    Load(image[y * w + x])
  }

  /** One channel of `image_store` to 8 bits: clamp, scale, truncate. */
  function ToU8(v: real): U8 {
    var c := if v < 0.0 then 0.0 else if 1.0 < v then 1.0 else v;
    (c * 255.0).Floor
  }

  /** What is stored: the ends of the range for values outside it, and inside the whole number of 255ths below. */
  lemma ToU8Is(v: real)
    ensures v <= 0.0 ==> ToU8(v) == 0
    ensures 1.0 <= v ==> ToU8(v) == 255
    ensures 0.0 <= v <= 1.0 ==> ToU8(v) as real <= v * 255.0 < ToU8(v) as real + 1.0
  {
  }

  function Store(p: Rgb): U8x4 {
    U8x4(ToU8(p.r), ToU8(p.g), ToU8(p.b), ToU8(1.0))
  }

  /** Each channel is stored by itself, and opaque. */
  lemma StoreIs(p: Rgb)
    ensures Store(p).r == ToU8(p.r) && Store(p).g == ToU8(p.g) && Store(p).b == ToU8(p.b) && Store(p).a == 255
  {
  }

  /** An 8-bit pixel survives the conversion to float and back. */
  lemma StoreLoad(p: U8x3)
    ensures Store(Load(p)) == U8x4(p.r, p.g, p.b, 255)
  {
  }

  /** Input pixel k of the tile cut at (ox, oy), edge pixels repeated past the image. */
  function InputPixel(image: seq<U8x3>, w: int, h: int, tw: int, th: int, ox: int, oy: int, k: int): Rgb
    requires 1 <= w && 1 <= h && |image| == w * h && 0 <= ox && 0 <= oy && 0 <= k < tw * th && 0 < tw
  {
    FlatSplit(k, tw, th);
    LoadAt(image, w, h, Min(k % tw + ox, w - 1), Min(k / tw + oy, h - 1))
  }

  method Convert(image: seq<U8x3>, w: int, h: int, dst: array<Rgb>, tw: int, th: int, ox: int, oy: int)
    requires 1 <= w && 1 <= h && |image| == w * h && 0 <= ox && 0 <= oy
    requires 0 < tw && 0 < th && dst.Length == tw * th
    modifies dst
    ensures forall k :: 0 <= k < dst.Length ==> dst[k] == InputPixel(image, w, h, tw, th, ox, oy, k)
  {
    var y := 0;
    while y < th
      invariant 0 <= y <= th
      invariant forall k :: 0 <= k < dst.Length && k / tw < y ==>
        dst[k] == InputPixel(image, w, h, tw, th, ox, oy, k)
    {
      var x := 0;
      while x < tw
        invariant 0 <= x <= tw
        invariant forall k :: 0 <= k < dst.Length && (k / tw < y || (k / tw == y && k % tw < x)) ==>
          dst[k] == InputPixel(image, w, h, tw, th, ox, oy, k)
      {
        FlatBound(x, y, tw, th);
        FlatIndex(x, y, tw);
        OnlyThisOffset(tw, x, y);
        var srcX, srcY := Min(x + ox, w - 1), Min(y + oy, h - 1);
        FlatBound(srcX, srcY, w, h);
        dst[y * tw + x] := Load(image[srcY * w + srcX]);
        x := x + 1;
      }
      y := y + 1;
    }
    forall k | 0 <= k < dst.Length
      ensures k / tw < th
    {
      FlatSplit(k, tw, th);
    }
  }

  /** The network as a function of tile width, tile height and tile pixels. */
  type Network = (int, int, seq<Rgb>) -> seq<Rgb>

  ghost predicate Upsamples(net: Network, scale: int) {
    forall tw, th, tile :: |tile| == tw * th ==> |net(tw, th, tile)| == (tw * scale) * (th * scale)
  }

  function TileInput(image: seq<U8x3>, w: int, h: int, tiles: Layout, t: int): seq<Rgb>
    requires 1 <= w && 1 <= h && |image| == w * h
    requires tiles.Reaching() && 0 <= t < tiles.Total()
  {
    FlatSplit(t, tiles.x.count, tiles.y.count);
    var c := tiles.TileAt(t);
    StartNonNegative(tiles.x, c.x);
    StartNonNegative(tiles.y, c.y);
    var ox, oy := tiles.x.Start(c.x, 0), tiles.y.Start(c.y, 0);
    MulMono(0, tiles.x.size, tiles.y.size);
    seq(tiles.x.size * tiles.y.size,
        k requires 0 <= k < tiles.x.size * tiles.y.size =>
          InputPixel(image, w, h, tiles.x.size, tiles.y.size, ox, oy, k))
  }

  /** What the network makes of tile t. */
  function TileOutput(net: Network, image: seq<U8x3>, w: int, h: int, tiles: Layout, t: int): seq<Rgb>
    requires 1 <= w && 1 <= h && |image| == w * h && tiles.Reaching() && 0 <= t < tiles.Total()
  {
    net(tiles.x.size, tiles.y.size, TileInput(image, w, h, tiles, t))
  }

  function TileOutputs(net: Network, image: seq<U8x3>, w: int, h: int, tiles: Layout): seq<seq<Rgb>>
    requires 1 <= w && 1 <= h && |image| == w * h && tiles.Reaching() && 0 <= tiles.Total()
  {
    seq(tiles.Total(), t requires 0 <= t < tiles.Total() => TileOutput(net, image, w, h, tiles, t))
  }

  lemma {:induction false} OutputSize(
      net: Network, scale: int, image: seq<U8x3>, w: int, h: int, tiles: Layout, t: int)
    requires 1 <= w && 1 <= h && |image| == w * h && tiles.Reaching() && 0 <= t < tiles.Total()
    requires Upsamples(net, scale)
    ensures |TileOutput(net, image, w, h, tiles, t)|
            == ScaledLayout(tiles, scale).x.size * ScaledLayout(tiles, scale).y.size
  {
  }

  const DEFAULT_TILE_SIZE := 224
  const TILE_OVERLAP := 16
  const TILE_ALIGN := 16

  function EsrganTiles(w: int, h: int): Layout
    requires 1 <= w && 1 <= h
  {
    MakeLayout(w, h, DEFAULT_TILE_SIZE, TILE_OVERLAP, TILE_ALIGN)
  }

  /** A layout that blends losslessly, before and after scaling. */
  predicate Lossless(tiles: Layout, scale: int) {
    && tiles.Reaching() && 1 <= tiles.Total() == ScaledLayout(tiles, scale).Total()
    && ScaledLayout(tiles, scale).Reaching() && ScaledLayout(tiles, scale).AtMostTwoDeep()
  }

  /** Tiles requested at least three overlaps long blend losslessly, at every scale. */
  lemma {:induction false} MadeLossless(w: int, h: int, maxTile: int, overlap: int, align: int, scale: int)
    requires 1 <= w && 1 <= h && 1 <= maxTile && 0 <= overlap && 3 * overlap <= maxTile && 1 <= align && 1 <= scale
    ensures var tiles := MakeLayout(w, h, maxTile, overlap, align);
            Lossless(tiles, scale) && tiles.x.extent == w && tiles.y.extent == h
  {
    var tiles := MakeLayout(w, h, maxTile, overlap, align);
    MakeReaches(w, maxTile, overlap, align);
    MakeReaches(h, maxTile, overlap, align);
    ScaledReaches(tiles.x, scale);
    ScaledReaches(tiles.y, scale);
    ScaledTwoDeep(tiles.x, scale);
    ScaledTwoDeep(tiles.y, scale);
    MulMono(1, tiles.x.count, tiles.y.count);
  }

  lemma {:induction false} OutputsFit(
      net: Network, scale: int, image: seq<U8x3>, w: int, h: int, tiles: Layout)
    requires 1 <= w && 1 <= h && |image| == w * h && Lossless(tiles, scale) && Upsamples(net, scale)
    ensures TilesFit(ScaledLayout(tiles, scale), TileOutputs(net, image, w, h, tiles))
  {
  }

  /** The upscaled float image the tile loop accumulates. */
  function MergedOutput(
      net: Network, scale: int, image: seq<U8x3>, w: int, h: int, tiles: Layout, px: int, py: int): Rgb
    requires 1 <= w && 1 <= h && |image| == w * h && Lossless(tiles, scale) && Upsamples(net, scale)
  {
    var outs := TileOutputs(net, image, w, h, tiles);
    OutputsFit(net, scale, image, w, h, tiles);
    Blended(ScaledLayout(tiles, scale), outs, |outs|, px, py)
  }

  /** The image after merging the first n tiles. */
  ghost predicate ImageIs(img: seq<Rgb>, l: Layout, outs: seq<seq<Rgb>>, n: nat)
    requires TilesFit(l, outs) && n <= |outs|
  {
    forall k :: 0 <= k < |img| ==> img[k] == Blended(l, outs, n, k % l.x.extent, k / l.x.extent)
  }

  /** The image before and after merging tile t. */
  ghost predicate TileAdded(before: seq<Rgb>, after: seq<Rgb>, l: Layout, t: int, tile: seq<Rgb>)
    requires l.Reaching() && |tile| == l.x.size * l.y.size
  {
    && |after| == |before|
    && forall k :: 0 <= k < |after| ==>
         after[k] == Add(before[k], Contribution(l, t, tile, k % l.x.extent, k / l.x.extent))
  }

  lemma {:induction false} NextImage(before: seq<Rgb>, after: seq<Rgb>, l: Layout, outs: seq<seq<Rgb>>, t: nat)
    requires TilesFit(l, outs) && t < |outs|
    requires ImageIs(before, l, outs, t) && TileAdded(before, after, l, t, outs[t])
    ensures ImageIs(after, l, outs, t + 1)
  {
  }

  predicate BuffersFit(tiles: Layout, scale: int, inputTile: array<Rgb>, outputTile: array<Rgb>, image: array<Rgb>) {
    var tilesOut := ScaledLayout(tiles, scale);
    && inputTile != outputTile && inputTile != image && outputTile != image
    && inputTile.Length == tiles.x.size * tiles.y.size
    && outputTile.Length == tilesOut.x.size * tilesOut.y.size
    && image.Length == tilesOut.x.extent * tilesOut.y.extent
  }

  /** `image_f32_to_u8` to rgba_u8. */
  method ToBytes(image: array<Rgb>) returns (result: array<U8x4>)
    ensures fresh(result) && result.Length == image.Length
    ensures forall k :: 0 <= k < image.Length ==> result[k] == Store(image[k])
  {
    result := new U8x4[image.Length];
    var i := 0;
    while i < image.Length
      invariant 0 <= i <= image.Length
      invariant forall k :: 0 <= k < i ==> result[k] == Store(image[k])
    {
      result[i] := Store(image[i]);
      i := i + 1;
    }
  }

  /** `esrgan_model`: the graph is rebuilt only when the tile size changes. */
  class EsrganModel {
    const net: Network
    const scale: int
    var hasGraph: bool
    var tileWidth: int
    var tileHeight: int

    constructor (net: Network, scale: int)
      ensures this.net == net && this.scale == scale && !hasGraph
    {
      this.net, this.scale := net, scale;
      hasGraph, tileWidth, tileHeight := false, 0, 0;
    }

    /** The graph fits the tiles, and outs lists what the network makes of them. */
    ghost predicate Ready(image: seq<U8x3>, w: int, h: int, tiles: Layout, outs: seq<seq<Rgb>>)
      reads this
    {
      && 1 <= w && 1 <= h && |image| == w * h
      && Lossless(tiles, scale) && Upsamples(net, scale)
      && hasGraph && tileWidth == tiles.x.size && tileHeight == tiles.y.size
      && outs == TileOutputs(net, image, w, h, tiles)
    }

    method ComputeTile(image: seq<U8x3>, w: int, h: int, tiles: Layout, t: nat,
                       inputTile: array<Rgb>, outputTile: array<Rgb>)
      requires 1 <= w && 1 <= h && |image| == w * h
      requires tiles.Reaching() && Upsamples(net, scale) && t < tiles.Total()
      requires hasGraph && tileWidth == tiles.x.size && tileHeight == tiles.y.size
      requires inputTile != outputTile && inputTile.Length == tiles.x.size * tiles.y.size
      requires outputTile.Length == ScaledLayout(tiles, scale).x.size * ScaledLayout(tiles, scale).y.size
      modifies inputTile, outputTile
      ensures outputTile[..] == TileOutput(net, image, w, h, tiles, t)
    {
      var c := tiles.TileAt(t);
      FlatSplit(t, tiles.x.count, tiles.y.count);
      StartNonNegative(tiles.x, c.x);
      StartNonNegative(tiles.y, c.y);
      Convert(image, w, h, inputTile, tiles.x.size, tiles.y.size,
              tiles.x.Start(c.x, 0), tiles.y.Start(c.y, 0));
      assert inputTile[..] == TileInput(image, w, h, tiles, t);
      var computed := net(tileWidth, tileHeight, inputTile[..]);
      OutputSize(net, scale, image, w, h, tiles, t);
      forall k | 0 <= k < outputTile.Length {
        outputTile[k] := computed[k];
      }
    }

    method MergeTile(tiles: Layout, t: nat, outputTile: array<Rgb>, outputImage: array<Rgb>)
      requires Lossless(tiles, scale) && t < tiles.Total() && outputTile != outputImage
      requires outputTile.Length == ScaledLayout(tiles, scale).x.size * ScaledLayout(tiles, scale).y.size
      requires outputImage.Length == ScaledLayout(tiles, scale).x.extent * ScaledLayout(tiles, scale).y.extent
      modifies outputImage
      ensures TileAdded(old(outputImage[..]), outputImage[..], ScaledLayout(tiles, scale), t, outputTile[..])
    {
      var tilesOut := ScaledLayout(tiles, scale);
      FlatSplit(t, tiles.x.count, tiles.y.count);
      ghost var before := outputImage[..];
      TileMerge(outputTile, outputImage, tiles.TileAt(t), tilesOut);
      forall k | 0 <= k < outputImage.Length
        ensures outputImage[k] == Add(before[k],
                  Contribution(tilesOut, t, outputTile[..], k % tilesOut.x.extent, k / tilesOut.x.extent))
      {
        MergeAdds(tilesOut, t, outputTile[..], before[k], k % tilesOut.x.extent, k / tilesOut.x.extent);
      }
    }

    /** One pass of the tile loop: cut, compute, merge. */
    method RunTile(image: seq<U8x3>, w: int, h: int, tiles: Layout, t: nat,
                   inputTile: array<Rgb>, outputTile: array<Rgb>, outputImage: array<Rgb>,
                   ghost outs: seq<seq<Rgb>>)
      requires Ready(image, w, h, tiles, outs) && t < |outs|
      requires TilesFit(ScaledLayout(tiles, scale), outs)
      requires BuffersFit(tiles, scale, inputTile, outputTile, outputImage)
      requires ImageIs(outputImage[..], ScaledLayout(tiles, scale), outs, t)
      modifies inputTile, outputTile, outputImage
      ensures ImageIs(outputImage[..], ScaledLayout(tiles, scale), outs, t + 1)
    {
      ComputeTile(image, w, h, tiles, t, inputTile, outputTile);
      assert outputTile[..] == outs[t];
      ghost var before := outputImage[..];
      MergeTile(tiles, t, outputTile, outputImage);
      NextImage(before, outputImage[..], ScaledLayout(tiles, scale), outs, t);
    }

    /** The tile loop. */
    method RunTiles(image: seq<U8x3>, w: int, h: int, tiles: Layout, total: nat,
                    inputTile: array<Rgb>, outputTile: array<Rgb>, outputImage: array<Rgb>,
                    ghost outs: seq<seq<Rgb>>)
      requires Ready(image, w, h, tiles, outs) && total == |outs|
      requires TilesFit(ScaledLayout(tiles, scale), outs)
      requires BuffersFit(tiles, scale, inputTile, outputTile, outputImage)
      requires ImageIs(outputImage[..], ScaledLayout(tiles, scale), outs, 0)
      modifies inputTile, outputTile, outputImage
      ensures ImageIs(outputImage[..], ScaledLayout(tiles, scale), outs, total)
    {
      hide *;
      var t := 0;
      while t < total
        invariant 0 <= t <= total
        invariant ImageIs(outputImage[..], ScaledLayout(tiles, scale), outs, t)
      {
        RunTile(image, w, h, tiles, t, inputTile, outputTile, outputImage, outs);
        t := t + 1;
      }
    }

    /** One tile of input, one tile of output, and the cleared image. */
    method AllocateBuffers(tiles: Layout)
      returns (inputTile: array<Rgb>, outputTile: array<Rgb>, outputImage: array<Rgb>)
      requires Lossless(tiles, scale)
      ensures fresh(inputTile) && fresh(outputTile) && fresh(outputImage)
      ensures BuffersFit(tiles, scale, inputTile, outputTile, outputImage)
      ensures forall k :: 0 <= k < outputImage.Length ==> outputImage[k] == BLACK
    {
      var tilesOut := ScaledLayout(tiles, scale);
      MulMono(0, tiles.x.size, tiles.y.size);
      MulMono(0, tilesOut.x.size, tilesOut.y.size);
      MulMono(0, tilesOut.x.extent, tilesOut.y.extent);
      inputTile := new Rgb[tiles.x.size * tiles.y.size];
      outputTile := new Rgb[tilesOut.x.size * tilesOut.y.size];
      outputImage := new Rgb[tilesOut.x.extent * tilesOut.y.extent](_ => BLACK);
    }

    method Compute(image: seq<U8x3>, w: int, h: int) returns (result: array<U8x4>)
      requires 1 <= w && 1 <= h && |image| == w * h
      requires 1 <= scale && Upsamples(net, scale)
      modifies this
      ensures EsrganTiles(w, h) == MakeLayout(w, h, 224, 16, 16) && Lossless(EsrganTiles(w, h), scale)
      ensures hasGraph
      ensures tileWidth == EsrganTiles(w, h).x.size && tileHeight == EsrganTiles(w, h).y.size
      ensures fresh(result) && result.Length == (w * scale) * (h * scale)
      ensures forall k :: 0 <= k < result.Length ==>
        result[k] == Store(MergedOutput(net, scale, image, w, h, EsrganTiles(w, h), k % (w * scale), k / (w * scale)))
    {
      var tiles := EsrganTiles(w, h);
      MadeLossless(w, h, DEFAULT_TILE_SIZE, TILE_OVERLAP, TILE_ALIGN, scale);
      if !hasGraph || (tileWidth, tileHeight) != (tiles.x.size, tiles.y.size) {
        tileWidth, tileHeight := tiles.x.size, tiles.y.size;
        hasGraph := true;
      }
      var inputTile, outputTile, outputImage := AllocateBuffers(tiles);
      ghost var outs := TileOutputs(net, image, w, h, tiles);
      OutputsFit(net, scale, image, w, h, tiles);
      RunTiles(image, w, h, tiles, tiles.Total(), inputTile, outputTile, outputImage, outs);
      result := ToBytes(outputImage);
    }
  }

  // ---------------------------------------------------------------------------------------
  // Tiled equals untiled
  // ---------------------------------------------------------------------------------------

  /** What one input pixel becomes at offset (dx, dy) inside its scale by scale block. */
  type PixelMap = (Rgb, int, int) -> Rgb

  lemma Under(x: int, scale: int, tw: int)
    requires 1 <= scale && 0 <= x < tw * scale
    ensures 0 <= x / scale < tw
  {
  }

  /** Output pixel (x, y) of a tile depends only on the input pixel under it. */
  predicate PixelwiseAt(net: Network, scale: int, g: PixelMap, tw: int, th: int, tile: seq<Rgb>, x: int, y: int)
    requires 1 <= scale && 0 <= x < tw * scale && 0 <= y < th * scale && |tile| == tw * th
    requires |net(tw, th, tile)| == (tw * scale) * (th * scale)
  {
    Under(x, scale, tw);
    Under(y, scale, th);
    PixelAt(net(tw, th, tile), tw * scale, th * scale, x, y)
    == g(PixelAt(tile, tw, th, x / scale, y / scale), x % scale, y % scale)
  }

  ghost predicate Pixelwise(net: Network, scale: int, g: PixelMap)
    requires 1 <= scale && Upsamples(net, scale)
  {
    forall tw, th, tile, x, y :: |tile| == tw * th && 0 <= x < tw * scale && 0 <= y < th * scale ==>
      PixelwiseAt(net, scale, g, tw, th, tile, x, y)
  }

  /** The map applied to the whole image at once, with no tiles. */
  function Untiled(g: PixelMap, scale: int, image: seq<U8x3>, w: int, h: int, px: int, py: int): Rgb
    requires 1 <= scale && |image| == w * h && 0 <= px < w * scale && 0 <= py < h * scale
  {
    Under(px, scale, w);
    Under(py, scale, h);
    g(LoadAt(image, w, h, px / scale, py / scale), px % scale, py % scale)
  }

  lemma ShiftByMultiple(p: int, beg: int, scale: int)
    requires 1 <= scale && beg * scale <= p
    ensures (p - beg * scale) / scale == p / scale - beg
    ensures (p - beg * scale) % scale == p % scale
  {
    DivModBounds(p, scale);
    var q, r := p / scale, p % scale;
    assert p - beg * scale == (q - beg) * scale + r;
    if q < beg {
      MulMono(q + 1, beg, scale);
    }
    FlatIndex(r, q - beg, scale);
  }

  lemma {:induction false} InsideTile(a: Axis, scale: int, i: int, p: int)
    requires 1 <= scale && Scaled(a, scale).Covers(i, p)
    ensures a.Start(i, 0) * scale <= p
    ensures 0 <= p / scale - a.Start(i, 0) < a.size
  {
    ScaledStart(a, scale, i);
    var beg := a.Start(i, 0);
    ShiftByMultiple(p, beg, scale);
    Under(p - beg * scale, scale, a.size);
  }

  /** The input pixel that ends up under image pixel (px, py) of tile t is the image's own pixel. */
  lemma {:induction false} InputUnder(
      image: seq<U8x3>, w: int, h: int, tiles: Layout, scale: int, t: int, px: int, py: int)
    requires 1 <= w && 1 <= h && |image| == w * h && 1 <= scale && Lossless(tiles, scale)
    requires tiles.x.extent == w && tiles.y.extent == h
    requires 0 <= t < tiles.Total() && 0 <= px < w * scale && 0 <= py < h * scale
    requires ScaledLayout(tiles, scale).Covers(tiles.TileAt(t), px, py)
    ensures var c := tiles.TileAt(t);
            var x, y := px / scale - tiles.x.Start(c.x, 0), py / scale - tiles.y.Start(c.y, 0);
            && 0 <= px / scale < w && 0 <= py / scale < h
            && 0 <= x < tiles.x.size && 0 <= y < tiles.y.size
            && PixelAt(TileInput(image, w, h, tiles, t), tiles.x.size, tiles.y.size, x, y)
               == LoadAt(image, w, h, px / scale, py / scale)
  {
    var c := tiles.TileAt(t);
    FlatSplit(t, tiles.x.count, tiles.y.count);
    StartNonNegative(tiles.x, c.x);
    StartNonNegative(tiles.y, c.y);
    InsideTile(tiles.x, scale, c.x, px);
    InsideTile(tiles.y, scale, c.y, py);
    var x, y := px / scale - tiles.x.Start(c.x, 0), py / scale - tiles.y.Start(c.y, 0);
    Under(px, scale, w);
    Under(py, scale, h);
    FlatIndex(x, y, tiles.x.size);
    FlatBound(x, y, tiles.x.size, tiles.y.size);
  }

  lemma PixelwiseHolds(
      net: Network, scale: int, g: PixelMap, tw: int, th: int, tile: seq<Rgb>, x: int, y: int)
    requires 1 <= scale && Upsamples(net, scale) && Pixelwise(net, scale, g)
    requires |tile| == tw * th && 0 <= x < tw * scale && 0 <= y < th * scale
    ensures 0 <= x / scale < tw && 0 <= y / scale < th
    ensures PixelAt(net(tw, th, tile), tw * scale, th * scale, x, y)
            == g(PixelAt(tile, tw, th, x / scale, y / scale), x % scale, y % scale)
  {
    assert PixelwiseAt(net, scale, g, tw, th, tile, x, y);
    Under(x, scale, tw);
    Under(y, scale, th);
  }

  /** A tile that lies over (px, py) puts the untiled value there. */
  lemma {:induction false} TileAgrees(
      net: Network, g: PixelMap, scale: int, image: seq<U8x3>, w: int, h: int, tiles: Layout,
      t: int, px: int, py: int)
    requires 1 <= w && 1 <= h && |image| == w * h && 1 <= scale && Lossless(tiles, scale)
    requires tiles.x.extent == w && tiles.y.extent == h
    requires Upsamples(net, scale) && Pixelwise(net, scale, g)
    requires 0 <= t < tiles.Total() && 0 <= px < w * scale && 0 <= py < h * scale
    requires ScaledLayout(tiles, scale).Covers(tiles.TileAt(t), px, py)
    ensures |TileOutput(net, image, w, h, tiles, t)|
            == ScaledLayout(tiles, scale).x.size * ScaledLayout(tiles, scale).y.size
    ensures TilePixel(ScaledLayout(tiles, scale), tiles.TileAt(t), TileOutput(net, image, w, h, tiles, t), px, py)
            == Untiled(g, scale, image, w, h, px, py)
  {
    var c := tiles.TileAt(t);
    var tw, th := tiles.x.size, tiles.y.size;
    var input := TileInput(image, w, h, tiles, t);
    OutputSize(net, scale, image, w, h, tiles, t);
    InputUnder(image, w, h, tiles, scale, t, px, py);
    ScaledStart(tiles.x, scale, c.x);
    ScaledStart(tiles.y, scale, c.y);
    var x, y := px - tiles.x.Start(c.x, 0) * scale, py - tiles.y.Start(c.y, 0) * scale;
    InsideTile(tiles.x, scale, c.x, px);
    InsideTile(tiles.y, scale, c.y, py);
    ShiftByMultiple(px, tiles.x.Start(c.x, 0), scale);
    ShiftByMultiple(py, tiles.y.Start(c.y, 0), scale);
    PixelwiseHolds(net, scale, g, tw, th, input, x, y);
  }

  /** Tiling is invisible: for every network that works pixel by pixel, the tile loop computes
      what the network computes on the whole image, at every pixel, clamped edge tiles included. */
  lemma {:induction false} TiledEqualsUntiled(
      net: Network, g: PixelMap, scale: int, image: seq<U8x3>, w: int, h: int, tiles: Layout, px: int, py: int)
    requires 1 <= w && 1 <= h && |image| == w * h && 1 <= scale && Lossless(tiles, scale)
    requires tiles.x.extent == w && tiles.y.extent == h
    requires Upsamples(net, scale) && Pixelwise(net, scale, g)
    requires 0 <= px < w * scale && 0 <= py < h * scale
    ensures MergedOutput(net, scale, image, w, h, tiles, px, py) == Untiled(g, scale, image, w, h, px, py)
  {
    var tilesOut := ScaledLayout(tiles, scale);
    var outs := TileOutputs(net, image, w, h, tiles);
    var v := Untiled(g, scale, image, w, h, px, py);
    OutputsFit(net, scale, image, w, h, tiles);
    forall t | 0 <= t < |outs| && tilesOut.Covers(tilesOut.TileAt(t), px, py)
      ensures Between(v, TilePixel(tilesOut, tilesOut.TileAt(t), outs[t], px, py), v)
    {
      TileAgrees(net, g, scale, image, w, h, tiles, t, px, py);
    }
    MergedImageInRange(tilesOut, outs, px, py, v, v);
  }

  /** So from the constructor's arguments on: every image, scale and alignment, and every requested tile of at
      least three overlaps. */
  lemma {:induction false} MadeTilingIsInvisible(
      net: Network, g: PixelMap, scale: int, image: seq<U8x3>, w: int, h: int, maxTile: int, overlap: int, align: int,
      px: int, py: int)
    requires 1 <= w && 1 <= h && |image| == w * h
    requires 1 <= maxTile && 0 <= overlap && 3 * overlap <= maxTile && 1 <= align && 1 <= scale
    requires Upsamples(net, scale) && Pixelwise(net, scale, g)
    requires 0 <= px < w * scale && 0 <= py < h * scale
    ensures var tiles := MakeLayout(w, h, maxTile, overlap, align);
            && Lossless(tiles, scale)
            && MergedOutput(net, scale, image, w, h, tiles, px, py) == Untiled(g, scale, image, w, h, px, py)
  {
    MadeLossless(w, h, maxTile, overlap, align, scale);
    TiledEqualsUntiled(net, g, scale, image, w, h, MakeLayout(w, h, maxTile, overlap, align), px, py);
  }

  /** In particular a network that repeats each pixel gives back the 8-bit image, enlarged. */
  lemma {:induction false} RepeatingNetworkIsExact(
      net: Network, scale: int, image: seq<U8x3>, w: int, h: int, px: int, py: int)
    requires 1 <= w && 1 <= h && |image| == w * h && 1 <= scale
    requires Upsamples(net, scale) && Pixelwise(net, scale, (p, _, _) => p)
    requires 0 <= px < w * scale && 0 <= py < h * scale
    ensures Lossless(EsrganTiles(w, h), scale)
    ensures 0 <= (py / scale) * w + px / scale < |image|
    ensures var p := image[(py / scale) * w + px / scale];
            Store(MergedOutput(net, scale, image, w, h, EsrganTiles(w, h), px, py)) == U8x4(p.r, p.g, p.b, 255)
  {
    MadeLossless(w, h, DEFAULT_TILE_SIZE, TILE_OVERLAP, TILE_ALIGN, scale);
    TiledEqualsUntiled(net, (p, _, _) => p, scale, image, w, h, EsrganTiles(w, h), px, py);
    Under(px, scale, w);
    Under(py, scale, h);
    FlatBound(px / scale, py / scale, w, h);
    StoreLoad(image[(py / scale) * w + px / scale]);
  }
}
