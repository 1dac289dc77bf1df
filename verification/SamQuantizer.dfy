/** `sam3_quantize_model` of depend/sam3/tools/quantize.cpp: reads a model file and writes one in which
    the large weights are quantized. The block quantizer itself is a parameter. */
module SamQuantizer {
  import opened Wrappers
  import opened Bytes
  import opened SamFile
  import opened SamModel

  // ---------------------------------------------------------------------------------------
  // What the tool does to a model
  // ---------------------------------------------------------------------------------------

  /** Converts the data of a tensor of the given type and dimensions to blocks of the target type. */
  type Codec = (u32, seq<u32>, seq<byte>) -> seq<byte>

  ghost predicate FillsBlocks(codec: Codec, target: u32) {
    forall dtype: u32, dims: seq<u32>, data: seq<byte> ::
      Describable(dims, target) ==> |codec(dtype, dims, data)| == DataSize(dims, target)
  }

  const KEPT_NAMES: seq<string> := [
    "token_embed", "pos_embed", "query_embed", "label_embed", "cls_embed", "point_embeddings",
    "not_a_point_embed", "no_mask_embed", "no_mem_embed", "no_obj_embed", "presence_token.weight",
    "iou_token", "mask_tokens", "obj_score_token", "pe_gaussian", "freqs_cis", "gamma", "tpos_enc",
    "no_obj_ptr", "no_mem_pos_enc", "trk_mask_ds", "latents"]

  predicate OccursAt(name: seq<byte>, part: string, i: int) {
    0 <= i && i + |part| <= |name| && forall k :: 0 <= k < |part| ==> name[i + k] as int == part[k] as int
  }

  predicate NameContains(name: seq<byte>, part: string) {
    exists i :: 0 <= i <= |name| && OccursAt(name, part, i)
  }

  /** Embeddings, lookup tables, positional encodings and special tokens, told by their names. */
  predicate IsEmbedding(name: seq<byte>) {
    exists part :: part in KEPT_NAMES && NameContains(name, part)
  }

  predicate ShouldQuantize(t: Tensor) {
    |t.dims| >= 2 && t.dims[0] as int % BLOCK_SIZE == 0 && !IsQuantized(t.dtype) && !IsEmbedding(t.name)
  }

  function QuantizedTensor(t: Tensor, target: u32, codec: Codec): Tensor {
    if ShouldQuantize(t) then t.(dtype := target, data := codec(t.dtype, t.dims, t.data)) else t
  }

  function QuantizedAll(ts: seq<Tensor>, target: u32, codec: Codec): (qs: seq<Tensor>)
    ensures |qs| == |ts|
    ensures forall i :: 0 <= i < |ts| ==> qs[i] == QuantizedTensor(ts[i], target, codec)
  {
    if ts == [] then [] else [QuantizedTensor(ts[0], target, codec)] + QuantizedAll(ts[1..], target, codec)
  }

  function QuantizedModel(m: Model, target: u32, codec: Codec): Model {
    m.(ftype := target, tensors := QuantizedAll(m.tensors, target, codec))
  }

  lemma {:induction false} QuantizedTensorValid(t: Tensor, target: u32, codec: Codec)
    requires ValidTensor(t) && IsQuantized(target) && FillsBlocks(codec, target)
    ensures ValidTensor(QuantizedTensor(t, target, codec))
    ensures QuantizedTensor(t, target, codec).name == t.name && QuantizedTensor(t, target, codec).dims == t.dims
    ensures !ShouldQuantize(QuantizedTensor(t, target, codec))
  {
  }

  /** The bytes of a name that spell a string. */
  predicate Spells(bytes: seq<byte>, text: string) {
    |bytes| == |text| && forall k :: 0 <= k < |text| ==> bytes[k] as int == text[k] as int
  }

  lemma ContainsIff(name: seq<byte>, part: string)
    ensures NameContains(name, part) <==>
      exists pre, mid, post: seq<byte> :: Spells(mid, part) && name == pre + mid + post
  {
    if NameContains(name, part) {
      var i :| 0 <= i <= |name| && OccursAt(name, part, i);
      var mid := name[i..i + |part|];
      assert Spells(mid, part) && name == name[..i] + mid + name[i + |part|..];
    }
    if pre, mid, post: seq<byte> :| Spells(mid, part) && name == pre + mid + post {
      assert OccursAt(name, part, |pre|) && |pre| <= |name|;
    }
  }

  /** One of the words by which embeddings, lookup tables, positional encodings and special tokens are told
      stands somewhere in the name. */
  ghost predicate HasKeptWord(name: seq<byte>) {
    exists word, pre, mid, post: seq<byte> ::
      && Spells(mid, word) && name == pre + mid + post
      && word in [
           "token_embed", "pos_embed", "query_embed", "label_embed", "cls_embed", "point_embeddings",
           "not_a_point_embed", "no_mask_embed", "no_mem_embed", "no_obj_embed", "presence_token.weight",
           "iou_token", "mask_tokens", "obj_score_token", "pe_gaussian", "freqs_cis", "gamma", "tpos_enc",
           "no_obj_ptr", "no_mem_pos_enc", "trk_mask_ds", "latents"]
  }

  /** A tensor is quantized exactly if it has two dimensions or more, rows of whole blocks of 32, floating-point
      data, and no such word in its name. All others are kept as they are. */
  lemma QuantizedIff(t: Tensor, target: u32, codec: Codec)
    requires ValidTensor(t) && IsQuantized(target)
    ensures QuantizedTensor(t, target, codec)
            == if |t.dims| >= 2 && t.dims[0] as int % 32 == 0 && (t.dtype == 0 || t.dtype == 1) && !HasKeptWord(t.name)
               then Tensor(t.name, t.dims, target, codec(t.dtype, t.dims, t.data)) else t
  {
    if word, pre, mid, post: seq<byte> :| Spells(mid, word) && t.name == pre + mid + post && word in KEPT_NAMES {
      ContainsIff(t.name, word);
    }
    forall word | word in KEPT_NAMES && NameContains(t.name, word)
      ensures HasKeptWord(t.name)
    {
      ContainsIff(t.name, word);
    }
  }

  lemma {:induction false} QuantizedModelWellFormed(m: Model, target: u32, codec: Codec)
    requires WellFormed(m) && IsQuantized(target) && FillsBlocks(codec, target)
    ensures WellFormed(QuantizedModel(m, target, codec))
  {
  }

  // ---------------------------------------------------------------------------------------
  // What the tool makes of an input file
  // ---------------------------------------------------------------------------------------

  /** The records at the start of s. The loop over them ends early, and without complaint, when fewer bytes
      than the three words before a name are left; what it makes of other cut or misshapen records is not
      described. */
  datatype Reading = Garbled | Readable(tensors: seq<Tensor>, tail: seq<byte>, whole: bool)

  function ParseRecords(s: seq<byte>, pos: nat, n: nat): (r: Reading)
    ensures r.Readable? ==> AllValid(r.tensors) && |r.tensors| <= n && (r.whole <==> |r.tensors| == n)
    ensures r.Readable? && !r.whole ==> r.tail == []
    decreases n
  {
    if n == 0 then Readable([], s, true)
    else if |s| < 12 then Readable([], [], false)
    else
      match ReadRecord(s, pos)
      case None => Garbled
      case Some((t, rest)) =>
        var r := ParseRecords(rest, pos + |s| - |rest|, n - 1);
        if r.Readable? then r.(tensors := [t] + r.tensors) else Garbled
  }

  lemma TooShort(s: seq<byte>, pos: nat)
    requires |s| < 12
    ensures ReadRecord(s, pos) == None
  {
  }

  lemma {:induction false} ParseIsRead(s: seq<byte>, pos: nat, n: nat)
    ensures var r := ParseRecords(s, pos, n);
            ReadRecords(s, pos, n) == if r.Readable? && r.whole then Some((r.tensors, r.tail)) else None
    decreases n
  {
    hide ReadRecord, AllValid;
    if n > 0 {
      match ReadRecord(s, pos)
      case None =>
      case Some((t, rest)) =>
        ParseIsRead(rest, pos + |s| - |rest|, n - 1);
    }
    if |s| < 12 {
      TooShort(s, pos);
    }
  }

  /** How often the loop goes around for a count that is a signed number. */
  function Rounds(count: u32): nat {
    if count < 0x8000_0000 then count as int else 0
  }

  /** The loop counts up to the word read as a signed 32-bit number. */
  lemma RoundsOfSigned(count: u32)
    ensures var signed := if count as int < 0x8000_0000 then count as int else count as int - 0x1_0000_0000;
            Rounds(count) == if signed > 0 then signed else 0
  {
  }

  /** Header and hyperparameters are there. */
  predicate Processable(input: seq<byte>) {
    && |input| >= 16 && Recognised(ReadWords(input, 4)[0], ReadWords(input, 4)[1])
    && ReadHparamCount(ReadWords(input, 4)[0], input[16..]).Some?
  }

  function HparamsOf(input: seq<byte>): (h: seq<byte>)
    requires Processable(input)
    ensures |h| >= 32 && |h| % 4 == 0
  {
    input[16..][..4 * ReadHparamCount(ReadWords(input, 4)[0], input[16..]).value]
  }

  function ReadingOf(input: seq<byte>): (r: Reading)
    requires Processable(input)
    ensures r.Readable? ==> AllValid(r.tensors)
  {
    var n := |HparamsOf(input)|;
    ParseRecords(input[16..][n..], 16 + n, Rounds(ReadWords(input, 4)[3]))
  }

  /** The file the tool writes: the count of the input, but only the tensors that were there. */
  function OutputOf(input: seq<byte>, target: u32, codec: Codec): seq<byte>
    requires Processable(input) && ReadingOf(input).Readable?
    requires AllValid(QuantizedAll(ReadingOf(input).tensors, target, codec))
  {
    var w, h, r := ReadWords(input, 4), HparamsOf(input), ReadingOf(input);
    Words([w[0], w[1], target, w[3]]) + (h + (Records(QuantizedAll(r.tensors, target, codec), 16 + |h|) + r.tail))
  }

  lemma WordBack(s: seq<byte>)
    requires |s| == 4
    ensures Le32(FromLe32(s)) == s
  {
    var v := FromLe32(s) as int;
    var b := s[1] as int + 256 * (s[2] as int + 256 * s[3] as int);
    assert v == s[0] as int + 256 * b;
    assert v % 256 == s[0] as int && v / 256 == b;
    assert b % 256 == s[1] as int && b / 256 == s[2] as int + 256 * s[3] as int;
  }

  lemma {:induction false} WordsOfRead(s: seq<byte>, n: nat)
    requires 4 * n <= |s|
    ensures Words(ReadWords(s, n)) == s[..4 * n]
  {
    hide Le32, FromLe32;
    if n > 0 {
      WordBack(s[..4]);
      WordsOfRead(s[4..], n - 1);
      assert ReadWords(s, n)[1..] == ReadWords(s[4..], n - 1);
      assert s[..4] + s[4..][..4 * (n - 1)] == s[..4 * n];
    }
  }

  lemma {:induction false} ReadModelWellFormed(s: seq<byte>)
    requires ReadModel(s).Some?
    ensures WellFormed(ReadModel(s).value)
  {
    hide ReadWords, ReadRecords, AllValid;
    ReadWordsPrefix(s[16..], ReadHparamCount(ReadWords(s, 4)[0], s[16..]).value, 8);
  }

  lemma {:induction false} SamePrefixSameWords(a: seq<byte>, b: seq<byte>, n: nat)
    requires 4 * n <= |a| && 4 * n <= |b| && a[..4 * n] == b[..4 * n]
    ensures ReadWords(a, n) == ReadWords(b, n)
  {
    if n > 0 {
      assert a[..4] == a[..4 * n][..4] && b[..4] == b[..4 * n][..4];
      assert a[4..][..4 * (n - 1)] == a[..4 * n][4..] && b[4..][..4 * (n - 1)] == b[..4 * n][4..];
      SamePrefixSameWords(a[4..], b[4..], n - 1);
    }
  }

  /** A file is readable exactly when everything is there and the count is not negative. */
  lemma {:induction false} ReadModelIff(input: seq<byte>)
    ensures ReadModel(input).Some? <==>
      Processable(input) && ReadingOf(input).Readable? && ReadingOf(input).whole && ReadWords(input, 4)[3] < 0x8000_0000
    ensures ReadModel(input).Some? ==>
      var w, h, r := ReadWords(input, 4), HparamsOf(input), ReadingOf(input);
      ReadModel(input).value == Model(w[0], w[1], w[2], ReadWords(h, |h| / 4), r.tensors, r.tail)
  {
    hide ReadWords, ParseRecords, ReadRecords, AllValid, Recognised;
    if Processable(input) {
      var h := HparamsOf(input);
      ParseIsRead(input[16..][|h|..], 16 + |h|, Rounds(ReadWords(input, 4)[3]));
      assert input[16..][..|h|] == h[..|h|];
      SamePrefixSameWords(input[16..], h, |h| / 4);
    }
  }

  /** The output for a readable file is the file of the quantized model. */
  lemma {:induction false} WholeOutput(input: seq<byte>, target: u32, codec: Codec)
    requires ReadModel(input).Some? && IsQuantized(target) && FillsBlocks(codec, target)
    ensures Processable(input) && ReadingOf(input).Readable?
    ensures AllValid(QuantizedAll(ReadingOf(input).tensors, target, codec))
    ensures var q := QuantizedModel(ReadModel(input).value, target, codec);
            WellFormed(q) && OutputOf(input, target, codec) == FileBytes(q)
  {
    hide ReadWords, ParseRecords, ReadRecords, AllValid, Recognised, FillsBlocks, Words, Records, ReadModel;
    hide HparamCount;
    ReadModelIff(input);
    ReadModelWellFormed(input);
    QuantizedModelWellFormed(ReadModel(input).value, target, codec);
    WordsOfRead(HparamsOf(input), |HparamsOf(input)| / 4);
  }

  // ---------------------------------------------------------------------------------------
  // The program
  // ---------------------------------------------------------------------------------------

  /** `std::ifstream`: the bytes not yet read, how many were, and whether reading past the end has failed.
      After that nothing more is read. */
  class InFile {
    var rest: seq<byte>
    var pos: nat
    var failed: bool

    constructor (bytes: seq<byte>)
      ensures rest == bytes && pos == 0 && !failed
    {
      rest, pos, failed := bytes, 0, false;
    }

    /** A read of n bytes of which there are fewer. */
    method Fail(n: nat)
      requires |rest| < n
      modifies this
      ensures failed && rest == []
    {
      rest, pos, failed := [], pos + |rest|, true;
    }

    method Read(n: nat) returns (s: seq<byte>)
      requires n <= |rest|
      modifies `rest, `pos
      ensures s == old(rest)[..n] && rest == old(rest)[n..] && pos == old(pos) + n
    {
      s := rest[..n];
      rest, pos := rest[n..], pos + n;
    }

    method ReadWord() returns (w: u32)
      requires 4 <= |rest|
      modifies `rest, `pos
      ensures w == FromLe32(old(rest)[..4]) && rest == old(rest)[4..] && pos == old(pos) + 4
    {
      var s := Read(4);
      w := FromLe32(s);
    }
  }

  /** `copy_i32`: one word from one file to the other, and its value. After a failed read the value is
      whatever the variable held. */
  method CopyWord(inp: InFile, out: seq<byte>) returns (r: seq<byte>, v: u32)
    modifies inp
    ensures if 4 <= |old(inp.rest)| then
              && v == FromLe32(old(inp.rest)[..4]) && r == out + old(inp.rest)[..4]
              && inp.rest == old(inp.rest)[4..] && inp.pos == old(inp.pos) + 4 && inp.failed == old(inp.failed)
            else inp.failed && inp.rest == []
  {
    if |inp.rest| < 4 {
      inp.Fail(4);
      v := *;
    } else {
      WordBack(inp.rest[..4]);
      v := inp.ReadWord();
    }
    r := out + Le32(v);
  }

  /** k words from one file to the other, unchanged. */
  method CopyWords(inp: InFile, out: seq<byte>, k: nat) returns (r: seq<byte>)
    modifies inp
    ensures if 4 * k <= |old(inp.rest)| then
              && r == out + old(inp.rest)[..4 * k]
              && inp.rest == old(inp.rest)[4 * k..] && inp.pos == old(inp.pos) + 4 * k && inp.failed == old(inp.failed)
            else inp.failed && inp.rest == []
  {
    hide Le32, FromLe32;
    r := out;
    for i := 0 to k
      invariant if 4 * i <= |old(inp.rest)| then
                  && r == out + old(inp.rest)[..4 * i]
                  && inp.rest == old(inp.rest)[4 * i..] && inp.pos == old(inp.pos) + 4 * i
                  && inp.failed == old(inp.failed)
                else inp.failed && inp.rest == []
    {
      var v: u32;
      r, v := CopyWord(inp, r);
    }
  }

  lemma NextPart(out: seq<byte>, s: seq<byte>, a: nat, b: nat)
    requires a + b <= |s|
    ensures out + s[..a] + s[a..][..b] == out + s[..a + b]
    ensures s[a..][b..] == s[a + b..] && s[a..][..b] == s[a..a + b]
  {
  }

  lemma {:induction false} WordAt(s: seq<byte>, n: nat, i: nat)
    requires i < n && 4 * n <= |s|
    ensures ReadWords(s, n)[i] == FromLe32(s[4 * i..4 * i + 4])
  {
    if i > 0 {
      WordAt(s[4..], n - 1, i - 1);
      assert s[4..][4 * (i - 1)..4 * (i - 1) + 4] == s[4 * i..4 * i + 4];
    }
  }

  /** 57 words, and 19 more if the second one names the other backbone. */
  method CopySam2(inp: InFile, out: seq<byte>) returns (r: seq<byte>)
    requires !inp.failed
    modifies inp
    ensures var s := old(inp.rest);
            var n := if |s| >= 8 && FromLe32(s[4..8]) == 2 then 76 else 57;
            if 4 * n <= |s| then
              r == out + s[..4 * n] && inp.rest == s[4 * n..] && inp.pos == old(inp.pos) + 4 * n && !inp.failed
            else inp.failed
  {
    hide Le32, FromLe32;
    ghost var s := inp.rest;
    r := CopyWords(inp, out, 1);
    var backboneType: u32;
    r, backboneType := CopyWord(inp, r);
    if |s| >= 8 {
      NextPart(out, s, 4, 4);
    }
    r := CopyWords(inp, r, 55);
    if |s| >= 228 {
      NextPart(out, s, 8, 220);
    }
    if backboneType == 2 {
      r := CopyWords(inp, r, 19);
      if |s| >= 304 {
        NextPart(out, s, 228, 76);
      }
    }
  }

  /** 35 words, and as many more as the eighth one says, up to four. */
  method CopySam3(inp: InFile, out: seq<byte>) returns (r: seq<byte>)
    requires !inp.failed
    modifies inp
    ensures var s := old(inp.rest);
            var n := 35 + if |s| >= 32 then GlobalAttention(FromLe32(s[28..32])) else 0;
            if 4 * n <= |s| then
              r == out + s[..4 * n] && inp.rest == s[4 * n..] && inp.pos == old(inp.pos) + 4 * n && !inp.failed
            else inp.failed
  {
    hide Le32, FromLe32, GlobalAttention;
    ghost var s := inp.rest;
    r := CopyWords(inp, out, 7);
    var globalAttn: u32;
    r, globalAttn := CopyWord(inp, r);
    var k := GlobalAttention(globalAttn);
    if |s| >= 32 {
      NextPart(out, s, 28, 4);
    }
    r := CopyWords(inp, r, k);
    if |s| >= 32 + 4 * k {
      NextPart(out, s, 32, 4 * k);
    }
    r := CopyWords(inp, r, 27);
    if |s| >= 140 + 4 * k {
      NextPart(out, s, 32 + 4 * k, 108);
    }
  }

  /** The hyperparameters, copied byte for byte; if there are too few, the stream has failed. */
  method CopyHparams(inp: InFile, magic: u32, out: seq<byte>) returns (r: seq<byte>)
    requires !inp.failed
    modifies inp
    ensures match ReadHparamCount(magic, old(inp.rest))
            case Some(n) =>
              && r == out + old(inp.rest)[..4 * n] && inp.rest == old(inp.rest)[4 * n..]
              && inp.pos == old(inp.pos) + 4 * n && !inp.failed
            case None => inp.failed
  {
    hide Le32, FromLe32, ReadWords;
    ghost var s := inp.rest;
    if |s| >= 32 {
      WordAt(s, 8, 1);
      WordAt(s, 8, 7);
    }
    if magic == SAM2_MAGIC {
      r := CopySam2(inp, out);
    } else {
      r := CopySam3(inp, out);
    }
  }

  /** What a readable record starts with. */
  lemma RecordParts(s: seq<byte>, pos: nat)
    requires ReadRecord(s, pos).Some?
    ensures |s| >= 12
    ensures var n, len, dtype := FromLe32(s[..4]), FromLe32(s[4..][..4]), FromLe32(s[4..][4..][..4]);
            && n <= 4 && len < 0x8000_0000 && 12 + 4 * n as int + len as int <= |s|
            && Describable(ReadWords(s[12..], n as int), dtype)
            && ReadRecord(s, pos) == ReadData(s[12 + 4 * n as int..], len as int, ReadWords(s[12..], n as int), dtype,
                                              pos + 12 + 4 * n as int)
  {
    hide Describable, ReadData, FromLe32, ReadWords;
    WordAt(s, 3, 0);
    WordAt(s, 3, 1);
    WordAt(s, 3, 2);
    assert s[4..][..4] == s[4..8] && s[4..][4..][..4] == s[8..12];
  }

  method ReadDims(inp: InFile, n: nat) returns (ne: seq<u32>)
    requires 4 * n <= |inp.rest|
    modifies inp`rest, inp`pos
    ensures ne == ReadWords(old(inp.rest), n)
    ensures inp.rest == old(inp.rest)[4 * n..] && inp.pos == old(inp.pos) + 4 * n
  {
    hide FromLe32;
    ghost var s := inp.rest;
    ne := [];
    for i := 0 to n
      invariant ne == ReadWords(s, n)[..i]
      invariant inp.rest == s[4 * i..] && inp.pos == old(inp.pos) + 4 * i
    {
      WordAt(s, n, i);
      NextPart([], s, 4 * i, 4);
      var dim := inp.ReadWord();
      ne := ne + [dim];
    }
  }

  /** Name, padding and data. */
  method ReadPayload(inp: InFile, nameLen: nat, ne: seq<u32>, dtype: u32) returns (t: Tensor)
    requires nameLen <= |inp.rest| && nameLen < 0x8000_0000 && Describable(ne, dtype)
    requires ReadData(inp.rest, nameLen, ne, dtype, inp.pos).Some?
    modifies inp`rest, inp`pos
    ensures ReadData(old(inp.rest), nameLen, ne, dtype, old(inp.pos)) == Some((t, inp.rest))
    ensures inp.pos == old(inp.pos) + |old(inp.rest)| - |inp.rest|
  {
    hide Describable, DataSize;
    ghost var s := inp.rest;
    var name := inp.Read(nameLen);
    var pad := PadAt(inp.pos);
    if pad > 0 {
      var skipped := inp.Read(pad);
    }
    assert inp.rest == s[nameLen + pad..];
    var bytes := DataSize(ne, dtype);
    var data := inp.Read(bytes);
    assert data == s[nameLen + pad..nameLen + pad + bytes];
    t := Tensor(name, ne, dtype, data);
  }

  /** The first half of the tensor loop's body. */
  method ReadTensor(inp: InFile) returns (t: Tensor)
    requires ReadRecord(inp.rest, inp.pos).Some?
    modifies inp`rest, inp`pos
    ensures ReadRecord(old(inp.rest), old(inp.pos)) == Some((t, inp.rest))
    ensures inp.pos == old(inp.pos) + |old(inp.rest)| - |inp.rest|
  {
    ghost var s := inp.rest;
    RecordParts(s, inp.pos);
    hide ReadRecord, ReadData, Describable, ReadWords;
    var nDims := inp.ReadWord();
    var nameLen := inp.ReadWord();
    var dtype := inp.ReadWord();
    assert inp.rest == s[12..];
    var ne := ReadDims(inp, nDims as int);
    assert inp.rest == s[12 + 4 * nDims as int..];
    t := ReadPayload(inp, nameLen as int, ne, dtype);
  }

  lemma ZerosAppend(i: nat)
    ensures Zeros(i) + [0] == Zeros(i + 1)
  {
  }

  lemma RecordJoins(out: seq<byte>, a: seq<byte>, b: seq<byte>, c: seq<byte>, d: seq<byte>, e: seq<byte>)
    ensures out + (a + b) + c + d + e == out + (a + (b + (c + d + e)))
  {
  }

  lemma {:induction false} WordsAppend(ws: seq<u32>, w: u32)
    ensures Words(ws + [w]) == Words(ws) + Le32(w)
  {
    if ws != [] {
      assert (ws + [w])[1..] == ws[1..] + [w];
      WordsAppend(ws[1..], w);
    }
  }

  lemma FieldBytes(t: Tensor)
    requires ValidTensor(t)
    ensures Words(Fields(t)) == Le32(|t.dims| as u32) + Le32(|t.name| as u32) + Le32(t.dtype)
  {
    hide Le32;
    var f := Fields(t);
    WordsAppend([f[0], f[1]], f[2]);
    WordsAppend([f[0]], f[1]);
    WordsAppend([], f[0]);
    assert [] + [f[0]] == [f[0]] && [f[0]] + [f[1]] == [f[0], f[1]] && [f[0], f[1]] + [f[2]] == f;
  }

  /** The fields before the name. */
  method WriteHead(out: seq<byte>, t: Tensor) returns (r: seq<byte>)
    requires ValidTensor(t)
    ensures r == out + (Words(Fields(t)) + Words(t.dims))
  {
    assert |t.dims| <= 4 && |t.name| < 0x8000_0000;
    hide Le32, DataSize, Describable;
    FieldBytes(t);
    r := out + Le32(|t.dims| as u32);
    r := r + Le32(|t.name| as u32);
    r := r + Le32(t.dtype);
    for i := 0 to |t.dims|
      invariant r == out + (Words(Fields(t)) + Words(t.dims[..i]))
    {
      WordsAppend(t.dims[..i], t.dims[i]);
      assert t.dims[..i] + [t.dims[i]] == t.dims[..i + 1];
      r := r + Le32(t.dims[i]);
    }
    assert t.dims[..|t.dims|] == t.dims;
  }

  /** The second half: `write_tensor` of the converter does the same. */
  method WriteTensor(out: seq<byte>, t: Tensor) returns (r: seq<byte>)
    requires ValidTensor(t)
    ensures r == out + Record(t, |out|)
  {
    hide Words, DataSize, Describable, Zeros;
    r := WriteHead(out, t);
    r := r + t.name;
    var pad := PadAt(|r|);
    for i := 0 to pad
      invariant r == out + (Words(Fields(t)) + Words(t.dims)) + t.name + Zeros(i)
    {
      ZerosAppend(i);
      r := r + [0];
    }
    r := r + t.data;
    RecordJoins(out, Words(Fields(t)), Words(t.dims), t.name, Zeros(pad), t.data);
  }

  lemma {:induction false} QuantizedAllValid(ts: seq<Tensor>, target: u32, codec: Codec)
    requires AllValid(ts) && IsQuantized(target) && FillsBlocks(codec, target)
    ensures AllValid(QuantizedAll(ts, target, codec))
  {
  }

  lemma QuantizedTensorIs(t: Tensor, target: u32, codec: Codec, q: Tensor)
    requires q == if ShouldQuantize(t) then Tensor(t.name, t.dims, target, codec(t.dtype, t.dims, t.data)) else t
    ensures q == QuantizedTensor(t, target, codec)
  {
  }

  lemma FirstOfRecords(qs: seq<Tensor>, pos: nat)
    requires AllValid(qs) && |qs| > 0
    ensures Records(qs, pos) == Record(qs[0], pos) + Records(qs[1..], pos + |Record(qs[0], pos)|)
  {
  }

  lemma FirstRecord(r: seq<byte>, qs: seq<Tensor>)
    requires AllValid(qs) && |qs| > 0
    ensures r + Records(qs, |r|)
            == r + Record(qs[0], |r|) + Records(qs[1..], |r + Record(qs[0], |r|)|)
  {
    hide Record, Records, ValidTensor;
    var first := Record(qs[0], |r|);
    FirstOfRecords(qs, |r|);
    Regroup(r, first, Records(qs[1..], |r| + |first|));
    assert |r + first| == |r| + |first|;
  }

  /** The tensor loop. */
  method QuantizeTensors(inp: InFile, out: seq<byte>, n: nat, target: u32, codec: Codec) returns (r: seq<byte>)
    requires ParseRecords(inp.rest, inp.pos, n).Readable? && IsQuantized(target) && FillsBlocks(codec, target)
    modifies inp
    ensures var p := ParseRecords(old(inp.rest), old(inp.pos), n);
            && AllValid(QuantizedAll(p.tensors, target, codec))
            && r == out + Records(QuantizedAll(p.tensors, target, codec), |out|) && inp.rest == p.tail
  {
    hide ReadRecord, ValidTensor, Record, ShouldQuantize, FillsBlocks, ReadRecords;
    ghost var p := ParseRecords(inp.rest, inp.pos, n);
    ghost var ts := p.tensors;
    QuantizedAllValid(ts, target, codec);
    ghost var goal := out + Records(QuantizedAll(ts, target, codec), |out|);
    r := out;
    for i := 0 to n
      invariant ParseRecords(inp.rest, inp.pos, n - i) == p.(tensors := ts)
      invariant AllValid(QuantizedAll(ts, target, codec)) && r + Records(QuantizedAll(ts, target, codec), |r|) == goal
    {
      if |inp.rest| < 12 {
        inp.Fail(12);
        break;
      }
      var t := ReadTensor(inp);
      QuantizedTensorValid(t, target, codec);
      ghost var qs := QuantizedAll(ts, target, codec);
      FirstRecord(r, qs);
      assert t == ts[0] && QuantizedAll(ts[1..], target, codec) == qs[1..];
      var quantized := if ShouldQuantize(t) then Tensor(t.name, t.dims, target, codec(t.dtype, t.dims, t.data)) else t;
      assert quantized == qs[0] by { QuantizedTensorIs(t, target, codec, quantized); }
      r := WriteTensor(r, quantized);
      ts := ts[1..];
    }
    assert ts == [] && inp.rest == p.tail;
    assert r + [] == r;
  }

  /** Everything after the last tensor, 4096 bytes at a time. */
  method CopyRest(inp: InFile, out: seq<byte>) returns (r: seq<byte>)
    modifies inp
    ensures r == out + old(inp.rest)
  {
    r := out;
    while |inp.rest| >= 4096
      invariant r + inp.rest == out + old(inp.rest)
      decreases |inp.rest|
    {
      ghost var before := inp.rest;
      var buf := inp.Read(4096);
      assert buf + inp.rest == before;
      r := r + buf;
    }
    if |inp.rest| > 0 {
      var buf := inp.Read(|inp.rest|);
      r := r + buf;
    }
  }

  lemma FileJoins(a: seq<byte>, b: seq<byte>, c: seq<byte>, d: seq<byte>)
    ensures a + b + c + d == a + (b + (c + d))
  {
  }

  /** Everything after the header. */
  method QuantizeRest(
      inp: InFile, ghost input: seq<byte>, header: seq<byte>, magic: u32, nTensors: u32, target: u32, codec: Codec)
      returns (ok: bool, out: seq<byte>)
    requires |input| >= 16 && inp.rest == input[16..] && inp.pos == 16 && !inp.failed
    requires ReadWords(input, 4)[0] == magic && ReadWords(input, 4)[3] == nTensors
    requires Recognised(magic, ReadWords(input, 4)[1]) && IsQuantized(target) && FillsBlocks(codec, target)
    requires Processable(input) ==> ReadingOf(input).Readable?
    requires header == Words([magic, ReadWords(input, 4)[1], target, nTensors])
    modifies inp
    ensures ok <==> Processable(input)
    ensures ok ==> AllValid(QuantizedAll(ReadingOf(input).tensors, target, codec))
    ensures ok ==> out == OutputOf(input, target, codec)
  {
    hide ReadWords, FillsBlocks, ParseRecords, Words, Records, QuantizedAll, AllValid, Le32, ReadHparamCount;
    hide Recognised;
    out := CopyHparams(inp, magic, header);
    if inp.failed {
      return false, out;
    }
    ghost var r, hparams := ReadingOf(input), HparamsOf(input);
    assert inp.rest == input[16..][|hparams|..];
    out := QuantizeTensors(inp, out, Rounds(nTensors), target, codec);
    out := CopyRest(inp, out);
    FileJoins(header, hparams, Records(QuantizedAll(r.tensors, target, codec), 16 + |hparams|), r.tail);
    ok := true;
  }

  lemma HeaderFields(s: seq<byte>)
    requires |s| >= 16
    ensures ReadWords(s, 4) == [FromLe32(s[..4]), FromLe32(s[4..][..4]), FromLe32(s[4..][4..][..4]),
                                FromLe32(s[4..][4..][4..][..4])]
  {
    hide FromLe32;
    WordAt(s, 4, 0);
    WordAt(s, 4, 1);
    WordAt(s, 4, 2);
    WordAt(s, 4, 3);
    assert s[4..][..4] == s[4..8] && s[4..][4..][..4] == s[8..12] && s[4..][4..][4..][..4] == s[12..16];
  }

  /** `sam3_quantize_model` without its file handling: false when the header is not recognised, and then
      the output is empty, or when hyperparameters are missing. */
  method QuantizeModel(input: seq<byte>, target: u32, codec: Codec) returns (ok: bool, out: seq<byte>)
    requires |input| >= 16 && IsQuantized(target) && FillsBlocks(codec, target)
    requires Processable(input) ==> ReadingOf(input).Readable?
    ensures ok <==> Processable(input)
    ensures !Recognised(ReadWords(input, 4)[0], ReadWords(input, 4)[1]) ==> out == []
    ensures ok ==> AllValid(QuantizedAll(ReadingOf(input).tensors, target, codec))
    ensures ok ==> out == OutputOf(input, target, codec)
    ensures ReadModel(input).Some? ==>
      var q := QuantizedModel(ReadModel(input).value, target, codec);
      ok && WellFormed(q) && out == FileBytes(q)
  {
    hide ReadWords, FillsBlocks, Words, AllValid, FromLe32, Le32, ReadHparamCount, ReadingOf, OutputOf, ReadModel;
    hide WellFormed, QuantizedModel, FileBytes, QuantizedAll;
    HeaderFields(input);
    if ReadModel(input).Some? {
      WholeOutput(input, target, codec);
    }
    var inp := new InFile(input);
    var magic := inp.ReadWord();
    var version := inp.ReadWord();
    var ftype := inp.ReadWord();
    var nTensors := inp.ReadWord();
    assert inp.rest == input[16..];
    if magic == SAM3_MAGIC {
      if version != SAM3_VERSION {
        return false, [];
      }
    } else if magic == SAM2_MAGIC {
      if version != SAM2_VERSION {
        return false, [];
      }
    } else {
      return false, [];
    }
    out := Le32(magic) + Le32(version) + Le32(target) + Le32(nTensors);
    FourWords(magic, version, target, nTensors);
    ok, out := QuantizeRest(inp, input, out, magic, nTensors, target, codec);
  }

  // ---------------------------------------------------------------------------------------
  // What the tool guarantees
  // ---------------------------------------------------------------------------------------

  lemma NothingToRead(pos: nat)
    ensures ReadRecord([], pos) == None
  {
  }

  /** Asking for more records than were written finds nothing. */
  lemma {:induction false} RecordsRunOut(ts: seq<Tensor>, pos: nat, n: nat)
    requires AllValid(ts) && |ts| < n
    ensures ReadRecords(Records(ts, pos), pos, n) == None
  {
    hide ReadRecord, Record, ValidTensor;
    if ts != [] {
      var first, rest := Record(ts[0], pos), Records(ts[1..], pos + |Record(ts[0], pos)|);
      ReadRecordBack(ts[0], pos, rest);
      RecordsRunOut(ts[1..], pos + |first|, n - 1);
    } else {
      NothingToRead(pos);
    }
  }

  /** Hyperparameters found in s, followed by something else. */
  lemma BodyParts(magic: u32, h: seq<byte>, s: seq<byte>, rest: seq<byte>)
    requires ReadHparamCount(magic, s).Some? && h == s[..4 * ReadHparamCount(magic, s).value]
    ensures ReadHparamCount(magic, h + rest) == ReadHparamCount(magic, s) && (h + rest)[|h|..] == rest
  {
    hide ReadWords, HparamCount;
    assert (h + rest)[..32] == h[..32] == s[..32];
    SamePrefixSameWords(h + rest, s, 8);
  }

  lemma Unreadable(s: seq<byte>, n: nat)
    requires |s| >= 16
    requires ReadWords(s, 4)[3] < 0x8000_0000 ==>
      && ReadHparamCount(ReadWords(s, 4)[0], s[16..]) == Some(n)
      && ReadRecords(s[16..][4 * n..], 16 + 4 * n, ReadWords(s, 4)[3] as int) == None
    ensures ReadModel(s) == None
  {
    hide ReadWords, ReadRecords, ReadHparamCount;
  }

  /** A header, hyperparameters found in s, and fewer records than the header counts. */
  lemma {:induction false} CutFile(w: seq<u32>, h: seq<byte>, s: seq<byte>, ts: seq<Tensor>, tail: seq<byte>)
    requires |w| == 4 && AllValid(ts) && (w[3] < 0x8000_0000 ==> |ts| < w[3] as int && tail == [])
    requires ReadHparamCount(w[0], s).Some? && h == s[..4 * ReadHparamCount(w[0], s).value]
    ensures ReadModel(Words(w) + (h + (Records(ts, 16 + |h|) + tail))) == None
  {
    hide Words, ReadWords, Records, ReadRecords, AllValid, ReadHparamCount, ReadModel;
    var records := Records(ts, 16 + |h|);
    var body := h + (records + tail);
    ReadWordsBack(w, body);
    assert (Words(w) + body)[16..] == body;
    if w[3] < 0x8000_0000 {
      assert records + tail == records;
      BodyParts(w[0], h, s, records);
      RecordsRunOut(ts, 16 + |h|, w[3] as int);
    }
    Unreadable(Words(w) + body, |h| / 4);
  }

  lemma {:induction false} ShortOutput(input: seq<byte>, target: u32, codec: Codec)
    requires Processable(input) && ReadingOf(input).Readable?
    requires !ReadingOf(input).whole || ReadWords(input, 4)[3] >= 0x8000_0000
    requires AllValid(QuantizedAll(ReadingOf(input).tensors, target, codec))
    ensures ReadModel(OutputOf(input, target, codec)) == None
  {
    hide Words, ReadWords, Records, AllValid, ReadHparamCount, ReadModel, ParseRecords, QuantizedAll, Recognised;
    var w, h, r := ReadWords(input, 4), HparamsOf(input), ReadingOf(input);
    CutFile([w[0], w[1], target, w[3]], h, input[16..], QuantizedAll(r.tensors, target, codec), r.tail);
  }

  /** The tool never repairs or breaks a file: its output can be read exactly if its input can. Where the
      input ends early, between two tensors, the output claims more tensors than it holds, although the tool
      reports success. */
  lemma {:induction false} OutputReadsBackIff(input: seq<byte>, target: u32, codec: Codec)
    requires Processable(input) && ReadingOf(input).Readable? && IsQuantized(target) && FillsBlocks(codec, target)
    ensures AllValid(QuantizedAll(ReadingOf(input).tensors, target, codec))
    ensures ReadModel(OutputOf(input, target, codec)).Some? <==> ReadModel(input).Some?
  {
    hide ReadModel, OutputOf, ReadingOf, Processable, FillsBlocks, ReadWords, AllValid, FileBytes, WellFormed;
    QuantizedAllValid(ReadingOf(input).tensors, target, codec);
    ReadModelIff(input);
    if ReadModel(input).Some? {
      WholeOutput(input, target, codec);
      FileRoundTrip(QuantizedModel(ReadModel(input).value, target, codec));
    } else {
      ShortOutput(input, target, codec);
    }
  }

  /** Such a file: a header that counts one tensor, 35 hyperparameters, and nothing else. */
  lemma CutInputExample(target: u32, codec: Codec)
    requires IsQuantized(target) && FillsBlocks(codec, target)
    ensures var input := Words([SAM3_MAGIC, SAM3_VERSION, F32, 1]) + Words(seq(35, _ => 0));
            && Processable(input) && ReadingOf(input) == Readable([], [], false)
            && ReadModel(OutputOf(input, target, codec)) == None
  {
    var h := seq(35, _ => 0 as u32);
    var input := Words([SAM3_MAGIC, SAM3_VERSION, F32, 1]) + Words(h);
    ReadWordsBack([SAM3_MAGIC, SAM3_VERSION, F32, 1], Words(h));
    assert input[16..] == Words(h) && Words(h) + [] == Words(h);
    ReadWordsBack(h, []);
    ReadWordsPrefix(Words(h), 35, 8);
    hide Words, ReadWords, FillsBlocks, ReadModel, OutputOf;
    assert Processable(input) && HparamsOf(input) == Words(h);
    OutputReadsBackIff(input, target, codec);
    ReadModelIff(input);
  }

  /** Reading the written file gives the tensors of the input, in order and with the same names and
      dimensions; the kept ones and everything around the tensors are unchanged. */
  lemma {:induction false} QuantizedFileReadsBack(m: Model, target: u32, codec: Codec, i: nat)
    requires WellFormed(m) && IsQuantized(target) && FillsBlocks(codec, target) && i < |m.tensors|
    ensures WellFormed(QuantizedModel(m, target, codec))
    ensures ReadModel(FileBytes(QuantizedModel(m, target, codec))) == Some(QuantizedModel(m, target, codec))
    ensures var t, q := m.tensors[i], QuantizedModel(m, target, codec).tensors[i];
            && q.name == t.name && q.dims == t.dims && |q.data| == DataSize(q.dims, q.dtype)
            && (ShouldQuantize(t) ==> q.dtype == target) && (!ShouldQuantize(t) ==> q == t)
  {
    QuantizedModelWellFormed(m, target, codec);
    FileRoundTrip(QuantizedModel(m, target, codec));
    QuantizedTensorValid(m.tensors[i], target, codec);
  }

  /** Running the tool on its own output with the same target changes no byte. */
  lemma {:induction false} QuantizingTwiceIsOnce(m: Model, target: u32, codec: Codec, codec2: Codec)
    requires WellFormed(m) && IsQuantized(target) && FillsBlocks(codec, target)
    ensures var once := QuantizedModel(m, target, codec);
            && WellFormed(once) && ReadModel(FileBytes(once)) == Some(once)
            && QuantizedModel(once, target, codec2) == once
  {
    QuantizedModelWellFormed(m, target, codec);
    FileRoundTrip(QuantizedModel(m, target, codec));
    hide FileBytes, ReadModel, WellFormed, FillsBlocks;
    var once := QuantizedModel(m, target, codec);
    var twice := QuantizedModel(once, target, codec2);
    forall i | 0 <= i < |m.tensors|
      ensures twice.tensors[i] == once.tensors[i]
    {
      QuantizedTensorValid(m.tensors[i], target, codec);
    }
    assert twice.tensors == once.tensors;
  }
}
