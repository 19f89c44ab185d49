/** Words as bytes, big-endian and native. */
module Bytes {
  import opened Words

  type u8 = x: int | 0 <= x < 256

  /** The cast `(uint8_t)x`. */
  function Byte(x: nat): u8 {
    x % 256
  }

  /** Four bytes as one word, the most significant first. */
  function Word(a: u8, b: u8, c: u8, d: u8): u32 {
    var x: int, y: int, z: int, w: int := a, b, c, d;
    x * 0x100_0000 + y * 0x1_0000 + z * 0x100 + w
  }

  lemma WordOfBytes(v: u32)
    ensures Word(Byte(v / 0x100_0000), Byte(v / 0x1_0000), Byte(v / 0x100), Byte(v)) == v
  {
    var x: int := v;
    assert x / 0x100 / 0x100 == x / 0x1_0000;
    assert x / 0x1_0000 / 0x100 == x / 0x100_0000;
  }

  lemma BytesOfWord(a: u8, b: u8, c: u8, d: u8)
    ensures var v := Word(a, b, c, d);
            Byte(v / 0x100_0000) == a && Byte(v / 0x1_0000) == b && Byte(v / 0x100) == c && Byte(v) == d
  {
    var x: int, y: int, z: int, w: int := a, b, c, d;
    var v: int := Word(a, b, c, d);
    assert v == (x * 0x1_0000 + y * 0x100 + z) * 0x100 + w;
    assert v / 0x100 == x * 0x1_0000 + y * 0x100 + z;
    assert v / 0x1_0000 == x * 0x100 + y;
    assert v / 0x100_0000 == x;
  }

  /** `write_u32_be`: the shifts by 24, 16, 8 and 0, each truncated to a byte. */
  function BigEndian(v: u32): (b: seq<u8>)
    ensures |b| == 4
  {
    [Byte(v / 0x100_0000), Byte(v / 0x1_0000), Byte(v / 0x100), Byte(v)]
  }

  /** `read_u32_be`: the four bytes shifted into place; they do not overlap, so "or" is a sum. */
  function FromBigEndian(b: seq<u8>): (v: u32)
    requires |b| == 4
  {
    Word(b[0], b[1], b[2], b[3])
  }

  lemma BigEndianRoundTrip(v: u32)
    ensures FromBigEndian(BigEndian(v)) == v
  {
    WordOfBytes(v);
  }

  lemma FromBigEndianRoundTrip(b: seq<u8>)
    requires |b| == 4
    ensures BigEndian(FromBigEndian(b)) == b
  {
    BytesOfWord(b[0], b[1], b[2], b[3]);
  }

  /** The memory image of a uint32_t, as `write(fd, &v, sizeof v)` stores it. */
  function Native(v: u32): (b: seq<u8>)
    ensures |b| == 4
  {
    [Byte(v), Byte(v / 0x100), Byte(v / 0x1_0000), Byte(v / 0x100_0000)]
  }

  function FromNative(b: seq<u8>): (v: u32)
    requires |b| == 4
  {
    Word(b[3], b[2], b[1], b[0])
  }

  lemma NativeRoundTrip(v: u32)
    ensures FromNative(Native(v)) == v
  {
    WordOfBytes(v);
  }

  lemma FromNativeRoundTrip(b: seq<u8>)
    requires |b| == 4
    ensures Native(FromNative(b)) == b
  {
    BytesOfWord(b[3], b[2], b[1], b[0]);
  }

  /** A `write` at an offset inside a file or at its end. */
  function Splice(file: seq<u8>, at: nat, b: seq<u8>): (r: seq<u8>)
    requires at <= |file|
    ensures |r| == if at + |b| <= |file| then |file| else at + |b|
    ensures r[..at] == file[..at] && r[at..at + |b|] == b
    ensures at + |b| <= |file| ==> r[at + |b|..] == file[at + |b|..]
  {
    file[..at] + b + if at + |b| <= |file| then file[at + |b|..] else []
  }

  /** Two adjacent writes are one write of both. */
  lemma SpliceAdjacent(file: seq<u8>, at: nat, a: seq<u8>, b: seq<u8>)
    requires at + |a| + |b| <= |file|
    ensures Splice(Splice(file, at, a), at + |a|, b) == Splice(file, at, a + b)
  {
  }

  lemma SliceOfSlice(b: seq<u8>, p: nat, n: nat, i: nat, j: nat)
    requires p + n <= |b| && i <= j <= n
    ensures b[p..p + n][i..j] == b[p + i..p + j]
  {
    var whole := b[p..p + n];
    assert forall k | 0 <= k < j - i :: whole[i..j][k] == whole[i + k] == b[p + i + k];
  }
}
