/** Values shared by every component: bytes, block identities, tiers and blocks. */
module Types {

  datatype Option<+T> = None | Some(value: T)

  type Byte = x: int | 0 <= x < 256
  type Bytes = seq<Byte>

  const U32_MODULUS: int := 0x1_0000_0000
  const U64_MODULUS: int := 0x1_0000_0000_0000_0000

  type U32 = x: int | 0 <= x < U32_MODULUS
  type U64 = x: int | 0 <= x < U64_MODULUS

  /** A 32-byte BLAKE3 digest. */
  type Hash256 = h: Bytes | |h| == 32 witness seq(32, _ => 0)

  const ZERO_HASH: Hash256 := [0, 0, 0, 0, 0, 0, 0, 0, 0, 0, 0, 0, 0, 0, 0, 0,
                               0, 0, 0, 0, 0, 0, 0, 0, 0, 0, 0, 0, 0, 0, 0, 0]

  /** The content hash of a block together with the fields that disambiguate its parts. */
  datatype BlockId = BlockId(hash: Hash256, layer: U32, headGroup: U32, modelId: U32)

  /** Storage tiers, fastest first. */
  datatype Tier = HBM | DRAM | SSD

  datatype KvBlock = KvBlock(id: BlockId, data: Bytes, tier: Tier, insertedEpoch: nat)

  type Peer = string

  function Min(a: int, b: int): int { if a <= b then a else b }

  function Max(a: int, b: int): int { if a >= b then a else b }

  lemma MulMonotone(a: nat, b: nat, w: nat)
    requires a <= b
    ensures a * w <= b * w
  {}

  lemma SubsetSize<T>(a: set<T>, b: set<T>)
    requires a <= b
    ensures |a| <= |b|
  {
    assert b == a + (b - a);
  }

  lemma SizeWith<K, V>(m: map<K, V>, k: K, v: V)
    requires k !in m
    ensures |m[k := v]| == |m| + 1
  {
    assert m[k := v].Keys == m.Keys + {k};
    assert |m[k := v]| == |m[k := v].Keys| && |m| == |m.Keys|;
  }

  /** Value of a little-endian byte string. */
  function LittleEndian(bytes: Bytes): (v: nat)
  {
    if bytes == [] then 0 else bytes[0] + 256 * LittleEndian(bytes[1..])
  }

  /** 256 to the n-th power. */
  function Pow256(n: nat): (p: nat)
    ensures p > 0
  {
    if n == 0 then 1 else 256 * Pow256(n - 1)
  }

  lemma {:induction false} LittleEndianBound(bytes: Bytes)
    ensures LittleEndian(bytes) < Pow256(|bytes|)
  {
    if bytes != [] {
      LittleEndianBound(bytes[1..]);
    }
  }

  lemma FourBytesFitU32(bytes: Bytes)
    requires |bytes| == 4
    ensures LittleEndian(bytes) < U32_MODULUS
    ensures LittleEndian(bytes) == bytes[0] + 256 * (bytes[1] as int + 256 * (bytes[2] as int + 256 * bytes[3] as int))
  {
    assert bytes[1..][1..] == bytes[2..] && bytes[2..][1..] == bytes[3..];
    assert LittleEndian(bytes[3..]) == bytes[3];
    assert LittleEndian(bytes[2..]) == bytes[2] + 256 * bytes[3] as int;
    assert LittleEndian(bytes[1..]) == bytes[1] + 256 * LittleEndian(bytes[2..]);
  }

  lemma EightBytesFitU64(bytes: Bytes)
    requires |bytes| == 8
    ensures LittleEndian(bytes) < U64_MODULUS
  {
    LittleEndianBound(bytes);
    assert Pow256(4) == U32_MODULUS;
    assert Pow256(8) == 256 * 256 * 256 * 256 * Pow256(4);
  }

  /** Where a content hash falls on the ring: its first eight bytes. */
  function RingTarget(hash: Hash256): U64
  {
    EightBytesFitU64(hash[..8]);
    LittleEndian(hash[..8])
  }

  lemma {:induction false} LittleEndianInjective(a: Bytes, b: Bytes)
    requires |a| == |b|
    ensures LittleEndian(a) == LittleEndian(b) <==> a == b
  {
    if a != [] {
      LittleEndianInjective(a[1..], b[1..]);
      assert a == [a[0]] + a[1..] && b == [b[0]] + b[1..];
    }
  }

  lemma EightBytes(b: Bytes)
    requires |b| == 8
    ensures LittleEndian(b) == LittleEndian(b[..4]) + U32_MODULUS * LittleEndian(b[4..])
  {
    var lo, hi := b[..4], b[4..];
    FourBytesFitU32(lo);
    assert b[1..][1..][1..][1..] == hi;
    assert b[1..][0] == b[1] && b[1..][1..][0] == b[2] && b[1..][1..][1..][0] == b[3];
    assert LittleEndian(b[1..][1..][1..]) == b[3] + 256 * LittleEndian(hi);
    assert LittleEndian(b[1..][1..]) == b[2] + 256 * LittleEndian(b[1..][1..][1..]);
    assert LittleEndian(b[1..]) == b[1] + 256 * LittleEndian(b[1..][1..]);
  }

  /**
   The ring position of a hash is its first eight bytes read least significant first, and depends on
   nothing else.
   */
  lemma RingTargetExact(hash: Hash256, other: Hash256)
    ensures RingTarget(hash) ==
            hash[0] + 256 * (hash[1] as int + 256 * (hash[2] as int + 256 * hash[3] as int))
            + U32_MODULUS * (hash[4] + 256 * (hash[5] as int + 256 * (hash[6] as int + 256 * hash[7] as int)))
    ensures RingTarget(hash) == RingTarget(other) <==> hash[..8] == other[..8]
  {
    var b := hash[..8];
    EightBytes(b);
    FourBytesFitU32(b[..4]);
    FourBytesFitU32(b[4..]);
    LittleEndianInjective(hash[..8], other[..8]);
    hide LittleEndian;
  }

  /** A 32-bit value as four little-endian bytes. */
  function Le32(x: U32): (b: Bytes)
    ensures |b| == 4
  {
    [x % 256, x / 256 % 256, x / 65536 % 256, x / 16777216]
  }

  function Value32(b: Bytes): U32
    requires |b| == 4
  {
    FourBytesFitU32(b);
    LittleEndian(b)
  }

  lemma Le32RoundTrip(x: U32, b: Bytes)
    requires |b| == 4
    ensures Value32(Le32(x)) == x && Le32(Value32(b)) == b
  {
    FourBytesFitU32(b);
    FourBytesFitU32(Le32(x));
    hide LittleEndian;
    Digits(b[0], b[1], b[2], b[3]);
    UnDigits(x);
  }

  lemma Digits(b0: Byte, b1: Byte, b2: Byte, b3: Byte)
    ensures var v := b0 as int + 256 * (b1 as int + 256 * (b2 as int + 256 * b3 as int));
            v % 256 == b0 && v / 256 % 256 == b1 && v / 65536 % 256 == b2 && v / 16777216 == b3
  {}

  lemma UnDigits(x: U32)
    ensures x as int == x % 256 + 256 * (x / 256 % 256 + 256 * (x / 65536 % 256 + 256 * (x / 16777216)))
  {
    assert x / 256 / 256 == x / 65536 && x / 65536 / 256 == x / 16777216;
    assert x / 65536 == 256 * (x / 16777216) + x / 65536 % 256;
    assert x / 256 == 256 * (x / 65536) + x / 256 % 256;
  }
}
