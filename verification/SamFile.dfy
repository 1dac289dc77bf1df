/** The SAM model container: what scripts/convert_sam3_to_ggml.py writes and what
    depend/sam3/tools/quantize.cpp reads and writes again. Numbers in the file are 32-bit words, least
    significant byte first; the data of each tensor starts at a multiple of 32 bytes. */
module SamFile {
  import opened Wrappers
  import opened Arith
  import opened Bytes

  // ---------------------------------------------------------------------------------------
  // Tensors
  // ---------------------------------------------------------------------------------------

  const F32: u32 := 0
  const F16: u32 := 1
  const Q4_0: u32 := 2
  const Q4_1: u32 := 3
  const Q8_0: u32 := 8
  const BLOCK_SIZE := 32

  predicate IsQuantized(dtype: u32) {
    dtype == Q4_0 || dtype == Q4_1 || dtype == Q8_0
  }

  predicate Known(dtype: u32) {
    dtype == F32 || dtype == F16 || IsQuantized(dtype)
  }

  /** The types by their codes in the file. */
  lemma TypeCodes(dtype: u32)
    ensures Known(dtype) <==> dtype in {0, 1, 2, 3, 8}
    ensures IsQuantized(dtype) <==> dtype in {2, 3, 8}
  {
  }

  /** The bytes of one block of a quantized type. */
  function BlockBytes(dtype: u32): nat
    requires IsQuantized(dtype)
  {
    if dtype == Q4_0 then 18 else if dtype == Q4_1 then 20 else 34
  }

  /** `dims` is innermost first. */
  datatype Tensor = Tensor(name: seq<byte>, dims: seq<u32>, dtype: u32, data: seq<byte>)

  /** What the file can say of a tensor before its data. */
  predicate Describable(dims: seq<u32>, dtype: u32) {
    && 1 <= |dims| <= 4 && (forall i :: 0 <= i < |dims| ==> 1 <= dims[i] < 0x8000_0000)
    && Known(dtype) && (IsQuantized(dtype) ==> dims[0] as int % BLOCK_SIZE == 0)
  }

  function Elements(dims: seq<u32>): nat {
    if dims == [] then 1 else dims[0] as int * Elements(dims[1..])
  }

  function Rows(dims: seq<u32>): nat
    requires |dims| > 0 && dims[0] > 0
  {
    DivModBounds(Elements(dims), dims[0] as int);
    Elements(dims) / dims[0] as int
  }

  function NatTimes(a: nat, b: nat): nat {
    MulMono(0, a, b);
    a * b
  }

  /** The size of the data of a tensor. */
  function DataSize(dims: seq<u32>, dtype: u32): nat
    requires Describable(dims, dtype)
  {
    if IsQuantized(dtype) then
      NatTimes(BlockBytes(dtype) * (dims[0] as int / BLOCK_SIZE), Rows(dims))
    else
      Elements(dims) * if dtype == F16 then 2 else 4
  }

  lemma NoDimension()
    ensures Elements([]) == 1
  {
  }

  lemma OneDimension(d: u32, rest: seq<u32>)
    ensures Elements([d] + rest) == d as int * Elements(rest)
  {
    assert ([d] + rest)[1..] == rest;
  }

  /** The number of elements is the product of the sizes. */
  lemma ElementsAre(a: u32, b: u32, c: u32, d: u32)
    ensures Elements([a]) == a as int
    ensures Elements([a, b]) == a as int * b as int
    ensures Elements([a, b, c]) == a as int * (b as int * c as int)
    ensures Elements([a, b, c, d]) == a as int * (b as int * (c as int * d as int))
  {
    hide Elements;
    assert Elements([]) == 1 by { NoDimension(); }
    assert [a] == [a] + [] && [b] == [b] + [] && [c] == [c] + [] && [d] == [d] + [];
    assert [a, b] == [a] + [b] && [b, c] == [b] + [c] && [c, d] == [c] + [d];
    assert [a, b, c] == [a] + [b, c] && [b, c, d] == [b] + [c, d] && [a, b, c, d] == [a] + [b, c, d];
    OneDimension(a, []);
    OneDimension(b, []);
    OneDimension(c, []);
    OneDimension(d, []);
    OneDimension(a, [b]);
    OneDimension(b, [c]);
    OneDimension(c, [d]);
    OneDimension(a, [b, c]);
    OneDimension(b, [c, d]);
    OneDimension(a, [b, c, d]);
  }

  lemma WholeBlocks(b: nat, d: nat, rows: nat)
    requires d % 32 == 0
    ensures 32 * NatTimes(b * (d / 32), rows) == (d * rows) * b
  {
    var n := d / 32;
    assert d == 32 * n;
    calc {
      32 * ((b * n) * rows);
      (32 * n * b) * rows;
      (d * rows) * b;
    }
  }

  /** The format in numbers: what 32 elements take in each of the five types. */
  lemma {:induction false} BytesOf32(dims: seq<u32>, dtype: u32)
    requires Describable(dims, dtype)
    ensures 32 * DataSize(dims, dtype) == Elements(dims) *
      if dtype == 0 then 128 else if dtype == 1 then 64
      else if dtype == 2 then 18 else if dtype == 3 then 20 else 34
  {
    if IsQuantized(dtype) {
      var d, rows := dims[0] as int, Elements(dims[1..]);
      FlatIndex(0, rows, d);
      assert Rows(dims) == rows;
      WholeBlocks(BlockBytes(dtype), d, rows);
    }
  }

  predicate ValidTensor(t: Tensor) {
    Describable(t.dims, t.dtype) && |t.name| < 0x8000_0000 && |t.data| == DataSize(t.dims, t.dtype)
  }

  // ---------------------------------------------------------------------------------------
  // Words
  // ---------------------------------------------------------------------------------------

  function Words(ws: seq<u32>): (s: seq<byte>)
    ensures |s| == 4 * |ws|
  {
    if ws == [] then [] else Le32(ws[0]) + Words(ws[1..])
  }

  function ReadWords(s: seq<byte>, n: nat): (ws: seq<u32>)
    requires 4 * n <= |s|
    ensures |ws| == n
  {
    if n == 0 then [] else [FromLe32(s[..4])] + ReadWords(s[4..], n - 1)
  }

  lemma {:induction false} ReadWordsBack(ws: seq<u32>, rest: seq<byte>)
    ensures ReadWords(Words(ws) + rest, |ws|) == ws
  {
    hide Le32, FromLe32;
    if ws != [] {
      var s := Words(ws) + rest;
      assert s[..4] == Le32(ws[0]);
      assert s[4..] == Words(ws[1..]) + rest;
      ReadWordsBack(ws[1..], rest);
      assert [ws[0]] + ws[1..] == ws;
    }
  }

  // ---------------------------------------------------------------------------------------
  // Records
  // ---------------------------------------------------------------------------------------

  function PadAt(pos: nat): nat {
    (32 - pos % 32) % 32
  }

  function Zeros(n: nat): (s: seq<byte>)
    ensures |s| == n
  {
    seq(n, _ => 0)
  }

  /** The size of a record up to the end of the name. */
  function HeadSize(t: Tensor): nat {
    12 + 4 * |t.dims| + |t.name|
  }

  function Fields(t: Tensor): seq<u32>
    requires ValidTensor(t)
  {
    [|t.dims| as u32, |t.name| as u32, t.dtype]
  }

  /** Name, padding and data of a tensor whose record starts at file position pos. */
  function Body(t: Tensor, pos: nat): seq<byte> {
    t.name + Zeros(PadAt(pos + HeadSize(t))) + t.data
  }

  /** A tensor written at file position pos. */
  function Record(t: Tensor, pos: nat): seq<byte>
    requires ValidTensor(t)
  {
    Words(Fields(t)) + (Words(t.dims) + Body(t, pos))
  }

  /** The rest of a record, from its name on. */
  function ReadData(s: seq<byte>, len: nat, dims: seq<u32>, dtype: u32, pos: nat): (r: Option<(Tensor, seq<byte>)>)
    requires len <= |s| && len < 0x8000_0000 && Describable(dims, dtype)
    ensures r.Some? ==> ValidTensor(r.value.0) && |r.value.1| <= |s|
  {
    var at, size := len + PadAt(pos + len), DataSize(dims, dtype);
    if |s| < at + size then None
    else Some((Tensor(s[..len], dims, dtype, s[at..at + size]), s[at + size..]))
  }

  /** The tensor at the start of s, which lies at file position pos, and what follows it. */
  function ReadRecord(s: seq<byte>, pos: nat): (r: Option<(Tensor, seq<byte>)>)
    ensures r.Some? ==> ValidTensor(r.value.0) && |r.value.1| < |s|
  {
    if |s| < 12 then None
    else
      var w := ReadWords(s, 3);
      var n, len := w[0] as int, w[1] as int;
      if n > 4 || len >= 0x8000_0000 || |s| < 12 + 4 * n + len then None
      else
        var dims := ReadWords(s[12..], n);
        if !Describable(dims, w[2]) then None
        else ReadData(s[12 + 4 * n..], len, dims, w[2], pos + 12 + 4 * n)
  }

  lemma Regroup(a: seq<byte>, b: seq<byte>, c: seq<byte>)
    ensures (a + b) + c == a + (b + c)
    ensures (a + b)[|a|..] == b
  {
  }

  lemma {:induction false} ReadDataBack(t: Tensor, pos: nat, rest: seq<byte>)
    requires ValidTensor(t)
    ensures ReadData(Body(t, pos) + rest, |t.name|, t.dims, t.dtype, pos + 12 + 4 * |t.dims|) == Some((t, rest))
  {
    hide DataSize, Describable, PadAt, Zeros;
    var pad := Zeros(PadAt(pos + HeadSize(t)));
    var s := t.name + pad + t.data + rest;
    assert s[..|t.name|] == t.name;
    var at := |t.name| + |pad|;
    assert s[at..at + |t.data|] == t.data;
    assert s[at + |t.data|..] == rest;
  }

  lemma RecordFromParts(s: seq<byte>, pos: nat, w: seq<u32>, dims: seq<u32>, body: seq<byte>)
    requires |s| >= 12 && |w| == 3 && ReadWords(s, 3) == w && w[0] as int == |dims| <= 4 && w[1] < 0x8000_0000
    requires |s| >= 12 + 4 * |dims| && ReadWords(s[12..], |dims|) == dims && Describable(dims, w[2])
    requires s[12 + 4 * |dims|..] == body && |body| >= w[1] as int
    ensures ReadRecord(s, pos) == ReadData(body, w[1] as int, dims, w[2], pos + 12 + 4 * |dims|)
  {
    hide ReadWords, Describable, ReadData;
  }

  lemma TwoSkips(a: seq<byte>, b: seq<byte>, c: seq<byte>)
    ensures (a + (b + c))[|a| + |b|..] == c
  {
  }

  /** Three parts and what follows them, from each part on. */
  lemma ThreeParts(s: seq<byte>, a: seq<byte>, b: seq<byte>, c: seq<byte>, rest: seq<byte>)
    requires s == (a + (b + c)) + rest
    ensures s == a + (b + (c + rest)) && s[|a|..] == b + (c + rest) && s[|a| + |b|..] == c + rest
  {
  }

  lemma BodySize(t: Tensor, pos: nat)
    ensures |Body(t, pos)| == |t.name| + PadAt(pos + HeadSize(t)) + |t.data|
  {
  }

  lemma {:induction false} ReadRecordBack(t: Tensor, pos: nat, rest: seq<byte>)
    requires ValidTensor(t)
    ensures ReadRecord(Record(t, pos) + rest, pos) == Some((t, rest))
  {
    assert |t.dims| <= 4 && |t.name| < 0x8000_0000;
    hide Words, ReadWords, DataSize, Describable, Body, ReadData, ReadRecord;
    var fields, dims, body := Words(Fields(t)), Words(t.dims), Body(t, pos);
    ThreeParts(Record(t, pos) + rest, fields, dims, body, rest);
    ReadWordsBack(Fields(t), dims + (body + rest));
    ReadWordsBack(t.dims, body + rest);
    assert |body| >= |t.name| by { BodySize(t, pos); }
    ReadDataBack(t, pos, rest);
    RecordFromParts(Record(t, pos) + rest, pos, Fields(t), t.dims, body + rest);
  }

  /** Where in its record the data of a tensor starts. */
  function DataOffset(t: Tensor, pos: nat): nat {
    HeadSize(t) + PadAt(pos + HeadSize(t))
  }

  lemma PadReachesMultiple(pos: nat)
    ensures (pos + PadAt(pos)) % 32 == 0
  {
  }

  /** The data of every record starts at the first multiple of 32 in the file after the name, and ends the
      record. */
  lemma {:induction false} DataAligned(t: Tensor, pos: nat)
    requires ValidTensor(t)
    ensures (pos + DataOffset(t, pos)) % 32 == 0
    ensures var nameEnd := 12 + 4 * |t.dims| + |t.name|; nameEnd <= DataOffset(t, pos) < nameEnd + 32
    ensures DataOffset(t, pos) <= |Record(t, pos)| && Record(t, pos)[DataOffset(t, pos)..] == t.data
  {
    hide ValidTensor, Words, Zeros;
    PadReachesMultiple(pos + HeadSize(t));
    var pad := Zeros(PadAt(pos + HeadSize(t)));
    var body := t.name + pad + t.data;
    assert body[|t.name| + |pad|..] == t.data;
    TwoSkips(Words(Fields(t)), Words(t.dims), body);
    assert Record(t, pos)[DataOffset(t, pos)..] == body[|t.name| + |pad|..];
  }
}
