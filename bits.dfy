/**
 * Machine-level values shared by the LionCloud filesystem model: 32-bit
 * unsigned integers with explicit wrap-around, their signed reading, bytes,
 * 256-byte device blocks and the little-endian 4-byte encoding that
 * `memcpy` of a `uint32_t` into a block produces.
 */
module Bits {

  const TWO32: int := 0x1_0000_0000
  const TWO31: int := 0x8000_0000
  /** One more than the largest `size_t` value (a 64-bit `size_t`). */
  const TWO64: int := 0x1_0000_0000_0000_0000

  /** A C `uint32_t`. */
  type u32 = x: int | 0 <= x < 0x1_0000_0000

  /** A C `char` as stored in a block. */
  type byte = x: int | 0 <= x < 256

  /** Size of a device block, of its link header and of its payload region. */
  const BLOCK_SIZE: nat := 256
  const HEADER_SIZE: nat := 12
  const PAYLOAD_SIZE: nat := 244

  /** The all-ones value that `-1` becomes in a `uint32_t` field. */
  const SENTINEL: u32 := 0xffff_ffff

  type Block = b: seq<byte> | |b| == 256 witness ZeroBlock()

  function ZeroBlock(): (b: seq<byte>)
    ensures |b| == 256 && forall i :: 0 <= i < 256 ==> b[i] == 0
  {
    seq(256, _ => 0)
  }

  /** Reduction of an unbounded integer to `uint32_t`, as C unsigned arithmetic does. */
  function Wrap32(x: int): (r: u32)
    ensures 0 <= x < TWO32 ==> r == x
    ensures (r - x) % TWO32 == 0
  {
    x % TWO32
  }

  /** Adding to a wrapped `uint32_t` wraps the same as adding before wrapping. */
  lemma WrapAdd(x: int, y: int)
    ensures Wrap32(Wrap32(x) + y) == Wrap32(x + y)
  {
    var q, p := x / TWO32, (x + y) / TWO32;
    assert x == q * TWO32 + Wrap32(x);
    assert x + y == p * TWO32 + (x + y) % TWO32;
    assert Wrap32(x) + y == (p - q) * TWO32 + (x + y) % TWO32 by {
      assert (p - q) * TWO32 == p * TWO32 - q * TWO32;
    }
    RemainderUnique(Wrap32(x) + y, p - q, (x + y) % TWO32);
  }

  /** A remainder in [0, 2^32) for some quotient is the remainder. */
  lemma RemainderUnique(z: int, q: int, r: int)
    requires z == q * TWO32 + r && 0 <= r < TWO32
    ensures z % TWO32 == r
  {
    var k := q - z / TWO32;
    assert z == (z / TWO32) * TWO32 + z % TWO32;
    assert k * TWO32 == z % TWO32 - r by {
      assert k * TWO32 == q * TWO32 - (z / TWO32) * TWO32;
    }
    assert k >= 1 ==> k * TWO32 >= TWO32;
    assert k <= -1 ==> k * TWO32 <= -TWO32;
  }

  /** The value a `uint32_t` has when read through an `int` / `int32_t` cast. */
  function Signed32(x: u32): (r: int)
    ensures -TWO31 <= r < TWO31
    ensures Wrap32(r) == x
    ensures r < 0 <==> x >= TWO31
  {
    if x < TWO31 then x else x - TWO32
  }

  /** Reduction of an unbounded integer to `int32_t` (two's complement wrap). */
  function Wrap32Signed(x: int): (r: int)
    ensures -TWO31 <= r < TWO31
    ensures Wrap32(r) == Wrap32(x)
  {
    Signed32(Wrap32(x))
  }

  /** The four bytes `memcpy` stores for a `uint32_t` on a little-endian host. */
  function EncodeLE32(x: u32): (bs: seq<byte>)
    ensures |bs| == 4
  {
    [x % 256, (x / 256) % 256, (x / 65536) % 256, x / 16777216]
  }

  /** The `uint32_t` that `memcpy` reads back from four bytes. */
  function DecodeLE32(bs: seq<byte>): (x: u32)
    requires |bs| == 4
  {
    bs[0] as int + 256 * bs[1] as int + 65536 * bs[2] as int + 16777216 * bs[3] as int
  }

  lemma DecodeEncodeLE32(x: u32)
    ensures DecodeLE32(EncodeLE32(x)) == x
  {
    var b := EncodeLE32(x);
    assert x == b[0] + 256 * (x / 256);
    assert x / 256 == b[1] + 256 * (x / 65536);
    assert x / 65536 == b[2] + 256 * (x / 16777216);
  }

  lemma EncodeDecodeLE32(bs: seq<byte>)
    requires |bs| == 4
    ensures EncodeLE32(DecodeLE32(bs)) == bs
  {
    var x := DecodeLE32(bs);
    assert x % 256 == bs[0] && x / 256 == bs[1] as int + 256 * bs[2] as int + 65536 * bs[3] as int;
    var y := x / 256;
    assert y % 256 == bs[1] && y / 256 == bs[2] as int + 256 * bs[3] as int;
    assert x / 65536 == y / 256;
    assert x / 16777216 == (y / 256) / 256;
  }

  /** The link header a block starts with: next device, next sector, next block. */
  datatype Link = Link(device: u32, sector: u32, block: u32)

  const END_OF_CHAIN: Link := Link(SENTINEL, SENTINEL, SENTINEL)

  function HeaderOf(b: Block): (l: Link)
  {
    Link(DecodeLE32(b[0..4]), DecodeLE32(b[4..8]), DecodeLE32(b[8..12]))
  }

  /** The block with its first 12 bytes replaced by the encoding of `l`. */
  function WithHeader(b: Block, l: Link): (r: Block)
    ensures r[12..] == b[12..]
  {
    EncodeLE32(l.device) + EncodeLE32(l.sector) + EncodeLE32(l.block) + b[12..]
  }

  lemma {:induction false} HeaderOfWithHeader(b: Block, l: Link)
    ensures HeaderOf(WithHeader(b, l)) == l
  {
    var r := WithHeader(b, l);
    assert r[0..4] == EncodeLE32(l.device);
    assert r[4..8] == EncodeLE32(l.sector);
    assert r[8..12] == EncodeLE32(l.block);
    DecodeEncodeLE32(l.device);
    DecodeEncodeLE32(l.sector);
    DecodeEncodeLE32(l.block);
  }

  /** The block with `data` copied to absolute positions `at .. at + |data|`. */
  function Overwrite(b: Block, at: nat, data: seq<byte>): (r: Block)
    requires at + |data| <= 256
    ensures r[at..at + |data|] == data
    ensures r[..at] == b[..at] && r[at + |data|..] == b[at + |data|..]
  {
    b[..at] + data + b[at + |data|..]
  }
}
