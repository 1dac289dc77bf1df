/** `encode_png16_gray` of src/server/depth_endpoints.cpp and a decoder written from RFC 2083: chunks
    (section 3.2), the Sub filter with two bytes per pixel (section 6.3), samples most significant byte
    first. The compressor is any function whose output some other function undoes. */
module Png16 {
  import opened Wrappers
  import opened Arith
  import opened Bytes
  import opened Crc32

  newtype u16 = x: int | 0 <= x < 0x1_0000

  const SIGNATURE: seq<byte> := [137, 80, 78, 71, 13, 10, 26, 10]
  const IHDR: seq<byte> := [73, 72, 68, 82]
  const IDAT: seq<byte> := [73, 68, 65, 84]
  const IEND: seq<byte> := [73, 69, 78, 68]

  // ---------------------------------------------------------------------------------------
  // Chunks
  // ---------------------------------------------------------------------------------------

  datatype Chunk = Chunk(tag: seq<byte>, data: seq<byte>)

  predicate Fits(c: Chunk) {
    |c.tag| == 4 && |c.data| < 0x8000_0000
  }

  function WordValue(c: bv32): (n: int)
    ensures 0 <= n < 0x1_0000_0000
  {
    c as int
  }

  function CrcWord(bytes: seq<byte>): u32 {
    WordValue(Crc(bytes, 0)) as u32
  }

  function ChunkBytes(c: Chunk): seq<byte>
    requires Fits(c)
  {
    Be32(|c.data| as u32) + c.tag + c.data + Be32(CrcWord(c.tag + c.data))
  }

  /** The first chunk of a file and the rest of it; None if it is cut short or its CRC is wrong. */
  function ReadChunk(s: seq<byte>): (r: Option<(Chunk, seq<byte>)>)
    ensures r.Some? ==> |r.value.1| < |s|
  {
    if |s| < 12 then None
    else
      var len := FromBe32(s[..4]) as int;
      if |s| < 12 + len then None
      else if FromBe32(s[8 + len..12 + len]) != CrcWord(s[4..8 + len]) then None
      else Some((Chunk(s[4..8], s[8..8 + len]), s[12 + len..]))
  }

  /** All chunks up to IEND, which must end the file. */
  function ReadChunks(s: seq<byte>): Option<seq<Chunk>>
    decreases |s|
  {
    match ReadChunk(s)
    case None => None
    case Some((c, rest)) =>
      if c.tag == IEND then
        if rest == [] then Some([c]) else None
      else
        match ReadChunks(rest)
        case None => None
        case Some(cs) => Some([c] + cs)
  }

  lemma ReadChunkBytes(c: Chunk, rest: seq<byte>)
    requires Fits(c)
    ensures ReadChunk(ChunkBytes(c) + rest) == Some((c, rest))
  {
    hide Be32, FromBe32, Crc;
    var s, n := ChunkBytes(c) + rest, |c.data|;
    assert s[..4] == Be32(n as u32);
    assert s[4..8] == c.tag;
    assert s[8..8 + n] == c.data;
    assert s[4..8 + n] == c.tag + c.data;
    assert s[8 + n..12 + n] == Be32(CrcWord(c.tag + c.data));
    assert s[12 + n..] == rest;
  }

  lemma WordsDiffer(a: bv32, b: bv32)
    requires a != b
    ensures WordValue(a) != WordValue(b)
  {
    assert (a as int) as bv32 == a && (b as int) as bv32 == b;
  }

  /** One corrupted byte anywhere in the tag or the data makes a reader refuse the chunk. */
  lemma {:induction false} CorruptChunkRefused(a: seq<byte>, x: byte, y: byte, b: seq<byte>, rest: seq<byte>)
    requires x != y && 4 <= |a + [x] + b| < 0x8000_0000
    ensures var good, bad := a + [x] + b, a + [y] + b;
            ReadChunk(Be32((|good| - 4) as u32) + bad + Be32(CrcWord(good)) + rest) == None
  {
    hide Be32, FromBe32, Crc;
    var good, bad := a + [x] + b, a + [y] + b;
    var s := Be32((|good| - 4) as u32) + bad + Be32(CrcWord(good)) + rest;
    var n := |good| - 4;
    assert s[..4] == Be32(n as u32);
    assert s[4..8 + n] == bad;
    assert s[8 + n..12 + n] == Be32(CrcWord(good));
    CorruptByteDetected(a, x, y, b, 0);
    WordsDiffer(Crc(good, 0), Crc(bad, 0));
  }

  // ---------------------------------------------------------------------------------------
  // Rows
  // ---------------------------------------------------------------------------------------

  predicate IsPicture(px: seq<u16>, w: int, h: int) {
    1 <= w && 1 <= h && |px| == w * h
  }

  /** Byte i of row y: two bytes per pixel, the high one first. */
  function SampleByte(px: seq<u16>, w: int, h: int, y: int, i: int): byte
    requires IsPicture(px, w, h) && 0 <= y < h && 0 <= i < 2 * w
  {
    FlatBound(i / 2, y, w, h);
    var v := px[y * w + i / 2] as int;
    (if i % 2 == 0 then v / 256 else v % 256) as byte
  }

  /** The same byte less its neighbour two bytes before. */
  function SubByte(px: seq<u16>, w: int, h: int, y: int, i: int): byte
    requires IsPicture(px, w, h) && 0 <= y < h && 0 <= i < 2 * w
  {
    var left := if i < 2 then 0 else SampleByte(px, w, h, y, i - 2) as int;
    ((SampleByte(px, w, h, y, i) as int - left) % 256) as byte
  }

  function RowSize(w: int): int {
    2 * w + 1
  }

  /** Byte k of the uncompressed data: each row starts with its filter type. */
  function RawByte(px: seq<u16>, w: int, h: int, k: int): byte
    requires IsPicture(px, w, h) && 0 <= k < RowSize(w) * h
  {
    FlatSplit(k, RowSize(w), h);
    if k % RowSize(w) == 0 then 1 else SubByte(px, w, h, k / RowSize(w), k % RowSize(w) - 1)
  }

  function RawBytes(px: seq<u16>, w: int, h: int): (raw: seq<byte>)
    requires IsPicture(px, w, h)
    ensures |raw| == RowSize(w) * h
  {
    FlatBound(0, 0, RowSize(w), h);
    seq(RowSize(w) * h, k requires 0 <= k < RowSize(w) * h => RawByte(px, w, h, k))
  }

  /** The Sub filter undone: byte i of the row whose data starts at `at`. */
  function Unfiltered(raw: seq<byte>, at: int, i: nat): byte
    requires 0 <= at && at + i < |raw|
  {
    if i < 2 then raw[at + i]
    else ((raw[at + i] as int + Unfiltered(raw, at, i - 2) as int) % 256) as byte
  }

  /** Byte i of row y, for the filter types None and Sub. */
  function DecodedByte(raw: seq<byte>, w: int, h: int, y: int, i: int): byte
    requires 1 <= w && 1 <= h && |raw| == RowSize(w) * h && 0 <= y < h && 0 <= i < 2 * w
  {
    FlatBound(0, y, RowSize(w), h);
    FlatBound(i + 1, y, RowSize(w), h);
    var at := y * RowSize(w);
    if raw[at] == 0 then raw[at + 1 + i] else Unfiltered(raw, at + 1, i)
  }

  function FilterType(raw: seq<byte>, w: int, h: int, y: int): byte
    requires 1 <= w && 1 <= h && |raw| == RowSize(w) * h && 0 <= y < h
  {
    FlatBound(0, y, RowSize(w), h);
    raw[y * RowSize(w)]
  }

  predicate KnownFilters(raw: seq<byte>, w: int, h: int)
    requires 1 <= w && 1 <= h && |raw| == RowSize(w) * h
  {
    forall y :: 0 <= y < h ==> FilterType(raw, w, h, y) <= 1
  }

  function DecodedPixel(raw: seq<byte>, w: int, h: int, k: int): u16
    requires 1 <= w && 1 <= h && |raw| == RowSize(w) * h && 0 <= k < w * h
  {
    FlatSplit(k, w, h);
    var x, y := k % w, k / w;
    (256 * DecodedByte(raw, w, h, y, 2 * x) as int + DecodedByte(raw, w, h, y, 2 * x + 1) as int) as u16
  }

  function DecodedPixels(raw: seq<byte>, w: int, h: int): (px: seq<u16>)
    requires 1 <= w && 1 <= h && |raw| == RowSize(w) * h
    ensures IsPicture(px, w, h)
  {
    FlatBound(0, 0, w, h);
    seq(w * h, k requires 0 <= k < w * h => DecodedPixel(raw, w, h, k))
  }

  // ---------------------------------------------------------------------------------------
  // Filtering and back
  // ---------------------------------------------------------------------------------------

  lemma {:induction false} RawAt(px: seq<u16>, w: int, h: int, y: int, i: int)
    requires IsPicture(px, w, h) && 0 <= y < h && 0 <= i < 2 * w
    ensures 0 <= y * RowSize(w) && y * RowSize(w) + 1 + i < |RawBytes(px, w, h)|
    ensures RawBytes(px, w, h)[y * RowSize(w)] == 1
    ensures RawBytes(px, w, h)[y * RowSize(w) + 1 + i] == SubByte(px, w, h, y, i)
  {
    FlatIndex(0, y, RowSize(w));
    FlatIndex(i + 1, y, RowSize(w));
    FlatBound(0, y, RowSize(w), h);
    FlatBound(i + 1, y, RowSize(w), h);
  }

  lemma SumOfDifference(v: int, left: int)
    requires 0 <= v < 256 && 0 <= left < 256
    ensures ((v - left) % 256 + left) % 256 == v
  {
  }

  lemma {:induction false} UnfilteredIsSample(px: seq<u16>, w: int, h: int, y: int, i: nat)
    requires IsPicture(px, w, h) && 0 <= y < h && 0 <= i < 2 * w
    ensures y * RowSize(w) + 1 + i < |RawBytes(px, w, h)| && 0 <= y * RowSize(w)
    ensures Unfiltered(RawBytes(px, w, h), y * RowSize(w) + 1, i) == SampleByte(px, w, h, y, i)
  {
    hide RawBytes, SampleByte;
    RawAt(px, w, h, y, i);
    if i >= 2 {
      UnfilteredIsSample(px, w, h, y, i - 2);
      SumOfDifference(SampleByte(px, w, h, y, i) as int, SampleByte(px, w, h, y, i - 2) as int);
    }
  }

  lemma {:induction false} PixelRoundTrip(px: seq<u16>, w: int, h: int, k: int)
    requires IsPicture(px, w, h) && 0 <= k < w * h
    ensures DecodedPixel(RawBytes(px, w, h), w, h, k) == px[k]
  {
    hide RawBytes;
    FlatSplit(k, w, h);
    var x, y := k % w, k / w;
    RawAt(px, w, h, y, 0);
    UnfilteredIsSample(px, w, h, y, 2 * x);
    UnfilteredIsSample(px, w, h, y, 2 * x + 1);
  }

  /** Unfiltering the filtered rows gives the picture back. */
  lemma {:induction false} FilterRoundTrip(px: seq<u16>, w: int, h: int)
    requires IsPicture(px, w, h)
    ensures KnownFilters(RawBytes(px, w, h), w, h)
    ensures DecodedPixels(RawBytes(px, w, h), w, h) == px
  {
    var raw := RawBytes(px, w, h);
    forall y | 0 <= y < h
      ensures FilterType(raw, w, h, y) == 1
    {
      RawAt(px, w, h, y, 0);
    }
    forall k | 0 <= k < w * h
      ensures DecodedPixel(raw, w, h, k) == px[k]
    {
      PixelRoundTrip(px, w, h, k);
    }
  }

  // ---------------------------------------------------------------------------------------
  // Files
  // ---------------------------------------------------------------------------------------

  type Compressor = seq<byte> -> Option<seq<byte>>

  /** inflate undoes deflate, wherever deflate succeeds, and the compressed size is a C++ int. */
  ghost predicate Undoes(inflate: Compressor, deflate: Compressor) {
    forall raw: seq<byte> :: deflate(raw).Some? ==>
      inflate(deflate(raw).value) == Some(raw) && |deflate(raw).value| < 0x8000_0000
  }

  function HeaderData(w: int, h: int): (s: seq<byte>)
    requires 0 <= w < 0x8000_0000 && 0 <= h < 0x8000_0000
    ensures |s| == 13
  {
    Be32(w as u32) + Be32(h as u32) + [16, 0, 0, 0, 0]
  }

  function PngFile(w: int, h: int, compressed: seq<byte>): seq<byte>
    requires 0 <= w < 0x8000_0000 && 0 <= h < 0x8000_0000 && |compressed| < 0x8000_0000
  {
    SIGNATURE + ChunkBytes(Chunk(IHDR, HeaderData(w, h))) + ChunkBytes(Chunk(IDAT, compressed))
    + ChunkBytes(Chunk(IEND, []))
  }

  datatype Picture = Picture(w: int, h: int, px: seq<u16>)

  /** The data of the IDAT chunks before IEND, in order; None if any other chunk comes between. */
  function ImageData(cs: seq<Chunk>): Option<seq<byte>> {
    if cs == [] then None
    else if cs[0].tag == IEND then Some([])
    else if cs[0].tag != IDAT then None
    else
      match ImageData(cs[1..])
      case None => None
      case Some(rest) => Some(cs[0].data + rest)
  }

  function ReadPicture(header: seq<byte>, data: Option<seq<byte>>, inflate: Compressor): Option<Picture> {
    if |header| != 13 || header[8..] != [16, 0, 0, 0, 0] || data == None then None
    else
      var w, h := FromBe32(header[..4]) as int, FromBe32(header[4..8]) as int;
      match inflate(data.value)
      case None => None
      case Some(raw) =>
        if w < 1 || h < 1 || |raw| != RowSize(w) * h || !KnownFilters(raw, w, h) then None
        else Some(Picture(w, h, DecodedPixels(raw, w, h)))
  }

  /** A decoder for 16-bit greyscale files that use the filter types None and Sub. */
  function ReadPng(file: seq<byte>, inflate: Compressor): Option<Picture> {
    if |file| < 8 || file[..8] != SIGNATURE then None
    else
      match ReadChunks(file[8..])
      case None => None
      case Some(cs) =>
        if |cs| == 0 || cs[0].tag != IHDR then None else ReadPicture(cs[0].data, ImageData(cs[1..]), inflate)
  }

  lemma ThreeChunks(a: Chunk, b: Chunk, c: Chunk)
    requires Fits(a) && Fits(b) && Fits(c) && a.tag != IEND && b.tag != IEND && c.tag == IEND
    ensures ReadChunks(ChunkBytes(a) + ChunkBytes(b) + ChunkBytes(c)) == Some([a, b, c])
  {
    hide ReadChunk, ChunkBytes;
    var s, t := ChunkBytes(b) + ChunkBytes(c), ChunkBytes(c);
    assert ChunkBytes(a) + ChunkBytes(b) + ChunkBytes(c) == ChunkBytes(a) + s;
    ReadChunkBytes(a, s);
    ReadChunkBytes(b, t);
    assert t + [] == t;
    ReadChunkBytes(c, []);
    assert ReadChunks(t) == Some([c]);
    assert ReadChunks(s) == Some([b] + [c]);
    assert [a] + ([b] + [c]) == [a, b, c];
  }

  lemma OneImageChunk(b: Chunk, c: Chunk)
    requires b.tag == IDAT && c.tag == IEND
    ensures ImageData([b, c]) == Some(b.data)
  {
    assert [b, c][1..] == [c];
    assert b.data + [] == b.data;
  }

  lemma HeaderReads(w: int, h: int)
    requires 0 <= w < 0x8000_0000 && 0 <= h < 0x8000_0000
    ensures var s := HeaderData(w, h);
            FromBe32(s[..4]) as int == w && FromBe32(s[4..8]) as int == h && s[8..] == [16, 0, 0, 0, 0]
  {
  }

  lemma ChunkAt(c: Chunk)
    requires Fits(c)
    ensures var s, n := ChunkBytes(c), |c.data|;
            && |s| == 12 + n && s[..4] == Be32(n as u32) && s[4..8] == c.tag && s[8..8 + n] == c.data
            && s[8 + n..] == Be32(CrcWord(c.tag + c.data))
  {
    hide Be32, Crc;
  }

  lemma LastChunk()
    ensures ChunkBytes(Chunk(IEND, [])) == [0, 0, 0, 0, 73, 69, 78, 68, 0xae, 0x42, 0x60, 0x82]
  {
    CheckValue();
    assert IEND + [] == [0x49, 0x45, 0x4e, 0x44];
    hide Crc;
    ChunkAt(Chunk(IEND, []));
    assert 0xae426082 as bv32 as int == 0xae426082;
  }

  lemma HeaderLayout(w: int, h: int)
    requires 0 <= w < 0x8000_0000 && 0 <= h < 0x8000_0000
    ensures var s := HeaderData(w, h);
            s[..4] == Be32(w as u32) && s[4..8] == Be32(h as u32) && s[8..] == [16, 0, 0, 0, 0]
  {
    hide Be32;
  }

  /** The number at an offset, most significant byte first. */
  function NumberAt(file: seq<byte>, at: nat): int
    requires at + 4 <= |file|
  {
    file[at] as int * 0x100_0000 + file[at + 1] as int * 0x1_0000 + file[at + 2] as int * 0x100 + file[at + 3] as int
  }

  lemma WordAt(file: seq<byte>, at: nat, v: u32)
    requires at + 4 <= |file| && file[at..at + 4] == Be32(v)
    ensures NumberAt(file, at) == v as int
  {
    var s := file[at..at + 4];
    assert s[0] == file[at] && s[1] == file[at + 1] && s[2] == file[at + 2] && s[3] == file[at + 3];
    assert FromBe32(s) == v;
  }

  lemma SliceOfSlice(s: seq<byte>, i: nat, j: nat, k: nat, l: nat)
    requires i <= j <= |s| && k <= l <= j - i
    ensures s[i..j][k..l] == s[i + k..i + l]
  {
    var a, b := s[i..j][k..l], s[i + k..i + l];
    assert |a| == |b|;
    forall m | 0 <= m < |a|
      ensures a[m] == b[m]
    {
    }
  }

  lemma FileParts(w: int, h: int, z: seq<byte>)
    requires 0 <= w < 0x8000_0000 && 0 <= h < 0x8000_0000 && |z| < 0x8000_0000
    ensures var file, n := PngFile(w, h, z), |z|;
            && |file| == n + 57 && file[..8] == SIGNATURE
            && file[8..33] == ChunkBytes(Chunk(IHDR, HeaderData(w, h)))
            && file[33..45 + n] == ChunkBytes(Chunk(IDAT, z))
            && file[45 + n..] == ChunkBytes(Chunk(IEND, []))
  {
    hide ChunkBytes, HeaderData;
    ChunkAt(Chunk(IHDR, HeaderData(w, h)));
    ChunkAt(Chunk(IDAT, z));
    ChunkAt(Chunk(IEND, []));
  }

  /** Where everything lies in a file, byte by byte: sections 3.1, 3.2, 4.1.1 and 4.1.4 of RFC 2083. */
  lemma FileLayout(w: int, h: int, z: seq<byte>)
    requires 0 <= w < 0x8000_0000 && 0 <= h < 0x8000_0000 && |z| < 0x8000_0000
    ensures var file, n := PngFile(w, h, z), |z|;
            && |file| == n + 57 && file[..8] == [137, 80, 78, 71, 13, 10, 26, 10]
            && NumberAt(file, 8) == 13 && file[12..16] == [73, 72, 68, 82]
            && NumberAt(file, 16) == w && NumberAt(file, 20) == h && file[24..29] == [16, 0, 0, 0, 0]
            && NumberAt(file, 33) == n && file[37..41] == [73, 68, 65, 84] && file[41..41 + n] == z
            && file[45 + n..] == [0, 0, 0, 0, 73, 69, 78, 68, 0xae, 0x42, 0x60, 0x82]
  {
    hide ChunkBytes, HeaderData, CrcWord, Be32, NumberAt, PngFile;
    FileParts(w, h, z);
    var header, n := HeaderData(w, h), |z|;
    var a, b := ChunkBytes(Chunk(IHDR, header)), ChunkBytes(Chunk(IDAT, z));
    ChunkAt(Chunk(IHDR, header));
    ChunkAt(Chunk(IDAT, z));
    HeaderLayout(w, h);
    LastChunk();
    var file := PngFile(w, h, z);
    SliceOfSlice(file, 8, 33, 0, 4);
    SliceOfSlice(file, 8, 33, 4, 8);
    SliceOfSlice(file, 8, 33, 8, 21);
    SliceOfSlice(file, 16, 29, 0, 4);
    SliceOfSlice(file, 16, 29, 4, 8);
    SliceOfSlice(file, 16, 29, 8, 13);
    SliceOfSlice(file, 33, 45 + n, 0, 4);
    SliceOfSlice(file, 33, 45 + n, 4, 8);
    SliceOfSlice(file, 33, 45 + n, 8, 8 + n);
    WordAt(file, 8, 13);
    WordAt(file, 16, w as u32);
    WordAt(file, 20, h as u32);
    WordAt(file, 33, n as u32);
  }

  /** Decoding the file gives back the picture, pixel for pixel. */
  lemma {:induction false} PngRoundTrip(px: seq<u16>, w: int, h: int, deflate: Compressor, inflate: Compressor)
    requires IsPicture(px, w, h) && w < 0x8000_0000 && h < 0x8000_0000
    requires Undoes(inflate, deflate) && deflate(RawBytes(px, w, h)).Some?
    ensures ReadPng(PngFile(w, h, deflate(RawBytes(px, w, h)).value), inflate) == Some(Picture(w, h, px))
  {
    hide RawBytes, DecodedPixels, KnownFilters, ChunkBytes, ReadChunks, HeaderData;
    var z := deflate(RawBytes(px, w, h)).value;
    var a, b, c := Chunk(IHDR, HeaderData(w, h)), Chunk(IDAT, z), Chunk(IEND, []);
    var file := PngFile(w, h, z);
    ThreeChunks(a, b, c);
    assert file[8..] == ChunkBytes(a) + ChunkBytes(b) + ChunkBytes(c);
    assert file[..8] == SIGNATURE;
    assert [a, b, c][1..] == [b, c];
    OneImageChunk(b, c);
    HeaderReads(w, h);
    FilterRoundTrip(px, w, h);
  }

  // ---------------------------------------------------------------------------------------
  // The program
  // ---------------------------------------------------------------------------------------

  lemma NextRow(y: int, row: int)
    ensures y * row + row == (y + 1) * row
  {
  }

  ghost predicate FilledTo(s: seq<byte>, px: seq<u16>, w: int, h: int, k: int)
    requires IsPicture(px, w, h)
  {
    |s| == |RawBytes(px, w, h)| && forall i :: 0 <= i < |s| && i < k ==> s[i] == RawBytes(px, w, h)[i]
  }

  lemma FilledLength(s: seq<byte>, px: seq<u16>, w: int, h: int, k: int)
    requires IsPicture(px, w, h) && FilledTo(s, px, w, h, k)
    ensures |s| == |RawBytes(px, w, h)|
  {
  }

  lemma FillStep(s: seq<byte>, t: seq<byte>, px: seq<u16>, w: int, h: int, k: int)
    requires IsPicture(px, w, h) && FilledTo(s, px, w, h, k) && 0 <= k < |s|
    requires t == s[k := RawBytes(px, w, h)[k]]
    ensures FilledTo(t, px, w, h, k + 1)
  {
  }

  lemma RowStart(px: seq<u16>, w: int, h: int, y: int)
    requires IsPicture(px, w, h) && 0 <= y < h
    ensures 0 <= y * RowSize(w) < |RawBytes(px, w, h)| == RowSize(w) * h
    ensures RawBytes(px, w, h)[y * RowSize(w)] == 1
  {
    RawAt(px, w, h, y, 0);
  }

  /** The two bytes of pixel x of row y and of its left neighbour. */
  lemma PixelBytes(px: seq<u16>, w: int, h: int, y: int, x: int)
    requires IsPicture(px, w, h) && 0 <= y < h && 0 <= x < w
    ensures 0 <= y * w && y * w + x < |px|
    ensures var hi, lo := px[y * w + x] as int / 256, px[y * w + x] as int % 256;
            var phi := if x > 0 then px[y * w + x - 1] as int / 256 else 0;
            var plo := if x > 0 then px[y * w + x - 1] as int % 256 else 0;
            && SubByte(px, w, h, y, 2 * x) == ((hi - phi) % 256) as byte
            && SubByte(px, w, h, y, 2 * x + 1) == ((lo - plo) % 256) as byte
  {
    FlatBound(x, y, w, h);
    FlatBound(0, y, w, h);
  }

  /** One row: the filter type, then two bytes per pixel. */
  method FilterRow(px: seq<u16>, raw: array<byte>, w: int, h: int, y: int)
    requires IsPicture(px, w, h) && 0 <= y < h
    requires FilledTo(raw[..], px, w, h, y * RowSize(w))
    modifies raw
    ensures FilledTo(raw[..], px, w, h, y * RowSize(w) + RowSize(w))
  {
    hide RawBytes, IsPicture, SubByte, FilledTo;
    FilledLength(raw[..], px, w, h, y * RowSize(w));
    RowStart(px, w, h, y);
    var dst := y * RowSize(w);
    ghost var before := raw[..];
    raw[dst] := 1;
    FillStep(before, raw[..], px, w, h, dst);
    for x := 0 to w
      invariant FilledTo(raw[..], px, w, h, dst + 1 + 2 * x)
    {
      RawAt(px, w, h, y, 2 * x);
      RawAt(px, w, h, y, 2 * x + 1);
      PixelBytes(px, w, h, y, x);
      var src := y * w + x;
      var hi, lo := px[src] as int / 256, px[src] as int % 256;
      var phi := if x > 0 then px[src - 1] as int / 256 else 0;
      var plo := if x > 0 then px[src - 1] as int % 256 else 0;
      var i := dst + 1 + 2 * x;
      before := raw[..];
      raw[i] := ((hi - phi) % 256) as byte;
      FillStep(before, raw[..], px, w, h, i);
      before := raw[..];
      raw[i + 1] := ((lo - plo) % 256) as byte;
      FillStep(before, raw[..], px, w, h, i + 1);
    }
  }

  /** The loop of `encode_png16_gray` over the rows. */
  method FilterRows(px: seq<u16>, w: int, h: int) returns (raw: array<byte>)
    requires IsPicture(px, w, h)
    ensures fresh(raw) && raw[..] == RawBytes(px, w, h)
  {
    RowStart(px, w, h, 0);
    hide RawBytes, IsPicture;
    raw := new byte[RowSize(w) * h];
    for y := 0 to h
      invariant FilledTo(raw[..], px, w, h, y * RowSize(w))
    {
      FilterRow(px, raw, w, h, y);
      NextRow(y, RowSize(w));
    }
  }

  /** `put_chunk`: length, tag, data and the CRC of what was just appended. */
  method PutChunk(out: seq<byte>, c: Chunk, table: array<bv32>) returns (r: seq<byte>)
    requires Fits(c) && table.Length == 256
    requires forall n :: 0 <= n < 256 ==> table[n] == ShiftedTimes(n as bv32, 8)
    ensures r == out + ChunkBytes(c)
  {
    hide Crc, Be32, ShiftedTimes;
    r := out + Be32(|c.data| as u32);
    var crcAt := |r|;
    r := r + c.tag;
    r := r + c.data;
    assert r[crcAt..] == c.tag + c.data;
    var crc := Crc32Bytes(table, r[crcAt..], 0);
    r := r + Be32(WordValue(crc) as u32);
  }

  /** `encode_png16_gray`; an empty result means that compression failed. */
  method EncodePng16Gray(px: seq<u16>, w: int, h: int, deflate: Compressor) returns (out: seq<byte>)
    requires IsPicture(px, w, h) && w < 0x8000_0000 && h < 0x8000_0000
    requires var z := deflate(RawBytes(px, w, h)); z.Some? ==> |z.value| < 0x8000_0000
    ensures match deflate(RawBytes(px, w, h))
            case None => out == []
            case Some(z) => out == PngFile(w, h, z)
  {
    hide RawBytes, ChunkBytes, ShiftedTimes, HeaderData;
    var raw := FilterRows(px, w, h);
    var z := deflate(raw[..]);
    if z == None {
      return [];
    }
    var table := BuildTable();
    out := SIGNATURE;
    out := PutChunk(out, Chunk(IHDR, HeaderData(w, h)), table);
    out := PutChunk(out, Chunk(IDAT, z.value), table);
    out := PutChunk(out, Chunk(IEND, []), table);
  }
}
