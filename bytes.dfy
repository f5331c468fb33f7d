/** Bytes and the little-endian unsigned integers the MFT layout is made of. */
module Bytes {

  type byte = x: int | 0 <= x < 256
  type uint16 = x: int | 0 <= x < 0x1_0000
  type uint32 = x: int | 0 <= x < 0x1_0000_0000

  /** 256^k: the number of distinct values of a k-byte unsigned field. */
  function Pow256(k: nat): (p: nat)
    ensures p >= 1
  {
    if k == 0 then 1 else 256 * Pow256(k - 1)
  }

  /** The unsigned integer whose little-endian encoding is `bs`
      (least significant byte first). */
  function LittleEndian(bs: seq<byte>): (n: nat)
    ensures n < Pow256(|bs|)
    decreases |bs|
  {
    if bs == [] then 0 else bs[0] + 256 * LittleEndian(bs[1..])
  }

  /** The `width`-byte little-endian encoding of `n`. */
  function ToLittleEndian(n: nat, width: nat): (bs: seq<byte>)
    requires n < Pow256(width)
    ensures |bs| == width
    ensures width > 0 ==> bs[0] == n % 256
  {
    if width == 0 then []
    else
      assert n / 256 < Pow256(width - 1);
      [n % 256] + ToLittleEndian(n / 256, width - 1)
  }

  /** Decoding an encoding gives the number back. */
  lemma {:induction false} DecodeEncode(n: nat, width: nat)
    requires n < Pow256(width)
    ensures LittleEndian(ToLittleEndian(n, width)) == n
  {
    if width > 0 {
      var bs := ToLittleEndian(n, width);
      assert bs[1..] == ToLittleEndian(n / 256, width - 1);
      DecodeEncode(n / 256, width - 1);
    }
  }

  /** Encoding a decoded field gives the same bytes back: every byte string
      is the encoding of exactly one number of its width. */
  lemma {:induction false} EncodeDecode(bs: seq<byte>)
    ensures ToLittleEndian(LittleEndian(bs), |bs|) == bs
  {
    if bs != [] {
      var n := LittleEndian(bs);
      assert n / 256 == LittleEndian(bs[1..]);
      EncodeDecode(bs[1..]);
    }
  }

  /** The little-endian u16 at `off`. */
  function U16At(raw: seq<byte>, off: nat): (v: uint16)
    requires off + 2 <= |raw|
    ensures ToLittleEndian(v, 2) == raw[off..off + 2]
  {
    EncodeDecode(raw[off..off + 2]);
    assert Pow256(2) == 0x1_0000;
    LittleEndian(raw[off..off + 2])
  }

  /** The little-endian u32 at `off`. */
  function U32At(raw: seq<byte>, off: nat): (v: uint32)
    requires off + 4 <= |raw|
    ensures ToLittleEndian(v, 4) == raw[off..off + 4]
  {
    EncodeDecode(raw[off..off + 4]);
    assert Pow256(4) == 0x1_0000_0000;
    LittleEndian(raw[off..off + 4])
  }

  /** `raw` with `bytes` written over it from index `at` on. */
  function Overwrite(raw: seq<byte>, at: nat, bytes: seq<byte>): (r: seq<byte>)
    requires at + |bytes| <= |raw|
    ensures |r| == |raw|
    ensures r[at..at + |bytes|] == bytes
    ensures forall i :: 0 <= i < |raw| && !(at <= i < at + |bytes|) ==> r[i] == raw[i]
  {
    raw[..at] + bytes + raw[at + |bytes|..]
  }
}
