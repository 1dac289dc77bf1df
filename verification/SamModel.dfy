/** Whole SAM model files: header, hyperparameters, tensor records and an appended tokenizer block. */
module SamModel {
  import opened Wrappers
  import opened Bytes
  import opened SamFile

  const SAM3_MAGIC: u32 := 0x73616D33
  const SAM2_MAGIC: u32 := 0x73616D32
  const SAM3_VERSION: u32 := 3
  const SAM2_VERSION: u32 := 1

  predicate Recognised(magic: u32, version: u32) {
    (magic == SAM3_MAGIC && version == SAM3_VERSION) || (magic == SAM2_MAGIC && version == SAM2_VERSION)
  }

  datatype Model = Model(
    magic: u32, version: u32, ftype: u32, hparams: seq<u32>, tensors: seq<Tensor>, tail: seq<byte>)

  /** How many of the four global attention indices follow their count, which is a signed number. */
  function GlobalAttention(count: u32): nat {
    if count >= 0x8000_0000 then 0 else if count < 4 then count as int else 4
  }

  /** The indices are those the loop goes around for: below four, and below the count as a signed number. */
  lemma AttentionIndices(count: u32, i: nat)
    ensures i < GlobalAttention(count) <==>
      i < 4 && i < if count as int < 0x8000_0000 then count as int else count as int - 0x1_0000_0000
  {
  }

  /** The number of hyperparameters, which some of the first eight decide. */
  function HparamCount(magic: u32, first: seq<u32>): nat
    requires |first| >= 8
  {
    if magic == SAM2_MAGIC then (if first[1] == 2 then 76 else 57) else 35 + GlobalAttention(first[7])
  }

  predicate AllValid(ts: seq<Tensor>) {
    forall i :: 0 <= i < |ts| ==> ValidTensor(ts[i])
  }

  predicate WellFormed(m: Model) {
    && Recognised(m.magic, m.version) && |m.hparams| >= 8 && |m.hparams| == HparamCount(m.magic, m.hparams)
    && |m.tensors| < 0x8000_0000 && AllValid(m.tensors)
  }

  /** Tensors written one after the other from file position pos on. */
  function Records(ts: seq<Tensor>, pos: nat): seq<byte>
    requires AllValid(ts)
  {
    if ts == [] then [] else
      var first := Record(ts[0], pos);
      first + Records(ts[1..], pos + |first|)
  }

  function HeaderWords(m: Model): seq<u32>
    requires |m.tensors| < 0x8000_0000
  {
    [m.magic, m.version, m.ftype, |m.tensors| as u32]
  }

  function FileBytes(m: Model): seq<byte>
    requires WellFormed(m)
  {
    Words(HeaderWords(m)) + (Words(m.hparams) + (Records(m.tensors, 16 + 4 * |m.hparams|) + m.tail))
  }

  lemma OneWord(w: u32, rest: seq<u32>)
    ensures Words([w] + rest) == Le32(w) + Words(rest)
  {
    assert ([w] + rest)[1..] == rest;
  }

  lemma FourWords(a: u32, b: u32, c: u32, d: u32)
    ensures Words([a, b, c, d]) == Le32(a) + Le32(b) + Le32(c) + Le32(d)
  {
    hide Le32, Words;
    assert [a, b, c, d] == [a] + ([b] + ([c] + ([d] + [])));
    OneWord(a, [b] + ([c] + ([d] + [])));
    OneWord(b, [c] + ([d] + []));
    OneWord(c, [d] + []);
    OneWord(d, []);
  }

  lemma MagicBytes()
    ensures Le32(0x73616D33) == [0x33, 0x6D, 0x61, 0x73] && Le32(0x73616D32) == [0x32, 0x6D, 0x61, 0x73]
    ensures Le32(3) == [3, 0, 0, 0] && Le32(1) == [1, 0, 0, 0]
  {
  }

  /** The first 16 bytes of a file: "3mas" and 3, or "2mas" and 1, then the type and the number of tensors. */
  lemma FileStart(m: Model)
    requires WellFormed(m)
    ensures var file := FileBytes(m);
            && |file| >= 16
            && file[..8] == (if m.magic == 0x73616D33 then [0x33, 0x6D, 0x61, 0x73, 3, 0, 0, 0]
                             else [0x32, 0x6D, 0x61, 0x73, 1, 0, 0, 0])
            && file[8..12] == Le32(m.ftype) && file[12..16] == Le32(|m.tensors| as u32)
  {
    hide Records, Words, Le32;
    MagicBytes();
    FourWords(m.magic, m.version, m.ftype, |m.tensors| as u32);
  }

  // ---------------------------------------------------------------------------------------
  // Reading a file back
  // ---------------------------------------------------------------------------------------

  /** The first n records of s, which lies at file position pos, and what follows them. */
  function ReadRecords(s: seq<byte>, pos: nat, n: nat): (r: Option<(seq<Tensor>, seq<byte>)>)
    ensures r.Some? ==> AllValid(r.value.0) && |r.value.0| == n
    decreases n
  {
    if n == 0 then Some(([], s))
    else
      match ReadRecord(s, pos)
      case None => None
      case Some((t, rest)) =>
        match ReadRecords(rest, pos + |s| - |rest|, n - 1)
        case None => None
        case Some((ts, end)) => Some(([t] + ts, end))
  }

  function ReadHparamCount(magic: u32, s: seq<byte>): (r: Option<nat>)
    ensures r.Some? ==> 8 <= r.value && 4 * r.value <= |s|
  {
    if |s| < 32 then None
    else
      var n := HparamCount(magic, ReadWords(s, 8));
      if |s| < 4 * n then None else Some(n)
  }

  function ReadModel(s: seq<byte>): (r: Option<Model>)
    ensures r.Some? ==> Recognised(r.value.magic, r.value.version) && AllValid(r.value.tensors)
  {
    if |s| < 16 then None
    else
      var w := ReadWords(s, 4);
      if !Recognised(w[0], w[1]) || w[3] >= 0x8000_0000 then None
      else
        match ReadHparamCount(w[0], s[16..])
        case None => None
        case Some(n) =>
          match ReadRecords(s[16..][4 * n..], 16 + 4 * n, w[3] as nat)
          case None => None
          case Some((ts, tail)) => Some(Model(w[0], w[1], w[2], ReadWords(s[16..], n), ts, tail))
  }

  lemma {:induction false} ReadRecordsBack(ts: seq<Tensor>, pos: nat, tail: seq<byte>)
    requires AllValid(ts)
    ensures ReadRecords(Records(ts, pos) + tail, pos, |ts|) == Some((ts, tail))
  {
    hide ReadRecord, Record, ValidTensor;
    if ts == [] {
      assert [] + tail == tail;
    } else {
      var first := Record(ts[0], pos);
      var rest := Records(ts[1..], pos + |first|) + tail;
      Regroup(first, Records(ts[1..], pos + |first|), tail);
      ReadRecordBack(ts[0], pos, rest);
      ReadRecordsBack(ts[1..], pos + |first|, tail);
      assert [ts[0]] + ts[1..] == ts;
    }
  }

  lemma {:induction false} ReadWordsPrefix(s: seq<byte>, n: nat, k: nat)
    requires k <= n && 4 * n <= |s|
    ensures ReadWords(s, k) == ReadWords(s, n)[..k]
  {
    if k > 0 {
      ReadWordsPrefix(s[4..], n - 1, k - 1);
    }
  }

  lemma HparamsFromFirst(m: Model)
    requires WellFormed(m)
    ensures HparamCount(m.magic, m.hparams[..8]) == |m.hparams|
  {
  }

  /** Reading what was written gives the same model: names, dimensions, types and data of the tensors in
      order, and the appended block. */
  lemma {:induction false} FileRoundTrip(m: Model)
    requires WellFormed(m)
    ensures ReadModel(FileBytes(m)) == Some(m)
  {
    hide Words, ReadWords, Records, ReadRecords, AllValid, HparamCount;
    var s, n := FileBytes(m), |m.hparams|;
    var body := Records(m.tensors, 16 + 4 * n) + m.tail;
    var hparams := Words(m.hparams) + body;
    ReadWordsBack(HeaderWords(m), hparams);
    Regroup(Words(HeaderWords(m)), hparams, []);
    ReadWordsBack(m.hparams, body);
    ReadWordsPrefix(hparams, n, 8);
    HparamsFromFirst(m);
    Regroup(Words(m.hparams), body, []);
    ReadRecordsBack(m.tensors, 16 + 4 * n, m.tail);
  }

  // ---------------------------------------------------------------------------------------
  // Alignment
  // ---------------------------------------------------------------------------------------

  /** Where the record of tensor i starts. */
  function RecordStart(ts: seq<Tensor>, pos: nat, i: nat): nat
    requires AllValid(ts) && i < |ts|
  {
    if i == 0 then pos else RecordStart(ts[1..], pos + |Record(ts[0], pos)|, i - 1)
  }

  /** The data of every tensor of a file lies at a multiple of 32 bytes. */
  lemma {:induction false} AllDataAligned(ts: seq<Tensor>, before: seq<byte>, tail: seq<byte>, i: nat)
    requires AllValid(ts) && i < |ts|
    ensures var at := RecordStart(ts, |before|, i);
            var from := at + DataOffset(ts[i], at);
            && from % 32 == 0 && from + |ts[i].data| <= |before + Records(ts, |before|) + tail|
            && (before + Records(ts, |before|) + tail)[from..from + |ts[i].data|] == ts[i].data
  {
    hide Record, DataOffset, ValidTensor;
    var first := Record(ts[0], |before|);
    var rest := Records(ts[1..], |before| + |first|);
    assert before + Records(ts, |before|) + tail == before + first + rest + tail;
    if i == 0 {
      DataAligned(ts[0], |before|);
      var d := DataOffset(ts[0], |before|);
      assert (before + first + rest + tail)[|before| + d..|before| + |first|] == first[d..];
    } else {
      AllDataAligned(ts[1..], before + first, tail, i - 1);
    }
  }

  /** In a written file the data of tensor i lies, whole, at a multiple of 32 bytes. */
  lemma {:induction false} FileDataAligned(m: Model, i: nat) returns (from: nat)
    requires WellFormed(m) && i < |m.tensors|
    ensures from % 32 == 0 && from + |m.tensors[i].data| <= |FileBytes(m)|
    ensures FileBytes(m)[from..from + |m.tensors[i].data|] == m.tensors[i].data
  {
    hide Records, RecordStart, Words, DataOffset;
    var before := Words(HeaderWords(m)) + Words(m.hparams);
    var at := RecordStart(m.tensors, |before|, i);
    from := at + DataOffset(m.tensors[i], at);
    AllDataAligned(m.tensors, before, m.tail, i);
    assert FileBytes(m) == before + Records(m.tensors, |before|) + m.tail;
  }
}
