/** Bytes and 32-bit words as they lie in streams and files. */
module Bytes {
  newtype byte = x: int | 0 <= x < 256

  newtype u32 = x: int | 0 <= x < 0x1_0000_0000

  function FromLe32(s: seq<byte>): u32
    requires |s| == 4
  {
    (s[0] as int + 256 * (s[1] as int + 256 * (s[2] as int + 256 * s[3] as int))) as u32
  }

  lemma WordParts(v: int)
    requires 0 <= v < 0x1_0000_0000
    ensures v == v % 256 + 256 * (v / 256 % 256 + 256 * (v / 256 / 256 % 256 + 256 * (v / 256 / 256 / 256)))
    ensures v / 256 / 256 / 256 < 256
  {
  }

  /** A word, least significant byte first. */
  function Le32(v: u32): (s: seq<byte>)
    ensures |s| == 4 && FromLe32(s) == v
  {
    WordParts(v as int);
    [(v % 256) as byte, (v / 256 % 256) as byte, (v / 256 / 256 % 256) as byte, (v / 256 / 256 / 256) as byte]
  }

  function FromBe32(s: seq<byte>): u32
    requires |s| == 4
  {
    FromLe32([s[3], s[2], s[1], s[0]])
  }

  /** A word, most significant byte first. */
  function Be32(v: u32): (s: seq<byte>)
    ensures |s| == 4 && FromBe32(s) == v
  {
    var s := Le32(v);
    [s[3], s[2], s[1], s[0]]
  }
}
