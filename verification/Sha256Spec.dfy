/** The hash function of FIPS 180-4, sections 4.1.2, 4.2.2, 5.1.1, 5.2.1, 5.3.3 and 6.2.2,
    as recursive functions on byte sequences. */
module Sha256Spec {
  import opened Common
  import opened Bytes

  type word = bv32

  const BLOCK: nat := 64
  const TWO_TO_64: nat := 0x1_0000_0000_0000_0000

  const K: seq<word> :=
    [0x428a2f98, 0x71374491, 0xb5c0fbcf, 0xe9b5dba5, 0x3956c25b, 0x59f111f1, 0x923f82a4, 0xab1c5ed5]
    + [0xd807aa98, 0x12835b01, 0x243185be, 0x550c7dc3, 0x72be5d74, 0x80deb1fe, 0x9bdc06a7, 0xc19bf174]
    + [0xe49b69c1, 0xefbe4786, 0x0fc19dc6, 0x240ca1cc, 0x2de92c6f, 0x4a7484aa, 0x5cb0a9dc, 0x76f988da]
    + [0x983e5152, 0xa831c66d, 0xb00327c8, 0xbf597fc7, 0xc6e00bf3, 0xd5a79147, 0x06ca6351, 0x14292967]
    + [0x27b70a85, 0x2e1b2138, 0x4d2c6dfc, 0x53380d13, 0x650a7354, 0x766a0abb, 0x81c2c92e, 0x92722c85]
    + [0xa2bfe8a1, 0xa81a664b, 0xc24b8b70, 0xc76c51a3, 0xd192e819, 0xd6990624, 0xf40e3585, 0x106aa070]
    + [0x19a4c116, 0x1e376c08, 0x2748774c, 0x34b0bcb5, 0x391c0cb3, 0x4ed8aa4a, 0x5b9cca4f, 0x682e6ff3]
    + [0x748f82ee, 0x78a5636f, 0x84c87814, 0x8cc70208, 0x90befffa, 0xa4506ceb, 0xbef9a3f7, 0xc67178f2]

  datatype Words = Words(a: word, b: word, c: word, d: word, e: word, f: word, g: word, h: word)

  const H0: Words := Words(
    0x6a09e667, 0xbb67ae85, 0x3c6ef372, 0xa54ff53a, 0x510e527f, 0x9b05688c, 0x1f83d9ab, 0x5be0cd19)

  /** Addition modulo 2^32. */
  function Plus(x: word, y: word): word { x + y }

  // ---------------------------------------------------------------- section 4.1.2

  function Ch(x: word, y: word, z: word): word { (x & y) ^ (!x & z) }

  function Maj(x: word, y: word, z: word): word { (x & y) ^ (x & z) ^ (y & z) }

  function BigSigma0(x: word): word { x.RotateRight(2) ^ x.RotateRight(13) ^ x.RotateRight(22) }

  function BigSigma1(x: word): word { x.RotateRight(6) ^ x.RotateRight(11) ^ x.RotateRight(25) }

  function SmallSigma0(x: word): word { x.RotateRight(7) ^ x.RotateRight(18) ^ (x >> 3) }

  function SmallSigma1(x: word): word { x.RotateRight(17) ^ x.RotateRight(19) ^ (x >> 10) }

  // ---------------------------------------------------------------- section 6.2.2

  function BigEndianWord(b0: byte, b1: byte, b2: byte, b3: byte): word {
    ((b0 as word) << 24) | ((b1 as word) << 16) | ((b2 as word) << 8) | (b3 as word)
  }

  /** Word t of the message schedule of a block. */
  function Schedule(block: seq<byte>, t: nat): word
    requires |block| == BLOCK && t < 64
  {
    if t < 16 then BigEndianWord(block[4 * t], block[4 * t + 1], block[4 * t + 2], block[4 * t + 3])
    else Plus(Plus(Plus(SmallSigma1(Schedule(block, t - 2)), Schedule(block, t - 7)),
                   SmallSigma0(Schedule(block, t - 15))), Schedule(block, t - 16))
  }

  function Round(v: Words, k: word, w: word): Words {
    var t1 := Plus(Plus(Plus(Plus(v.h, BigSigma1(v.e)), Ch(v.e, v.f, v.g)), k), w);
    var t2 := Plus(BigSigma0(v.a), Maj(v.a, v.b, v.c));
    Words(Plus(t1, t2), v.a, v.b, v.c, Plus(v.d, t1), v.e, v.f, v.g)
  }

  /** The working variables after t rounds. */
  function Rounds(start: Words, block: seq<byte>, t: nat): Words
    requires |block| == BLOCK && t <= 64
  {
    if t == 0 then start else Round(Rounds(start, block, t - 1), K[t - 1], Schedule(block, t - 1))
  }

  function Add(x: Words, y: Words): Words {
    Words(Plus(x.a, y.a), Plus(x.b, y.b), Plus(x.c, y.c), Plus(x.d, y.d),
          Plus(x.e, y.e), Plus(x.f, y.f), Plus(x.g, y.g), Plus(x.h, y.h))
  }

  function Compress(hash: Words, block: seq<byte>): Words
    requires |block| == BLOCK
  {
    Add(hash, Rounds(hash, block, 64))
  }

  /** Compression over the whole blocks at the front of `data`. */
  function HashBlocks(hash: Words, data: seq<byte>): Words
    decreases |data|
  {
    if |data| < BLOCK then hash else HashBlocks(Compress(hash, data[..BLOCK]), data[BLOCK..])
  }

  // ---------------------------------------------------------------- section 5.1.1

  function Zeros(n: nat): (z: seq<byte>)
    ensures |z| == n && forall i :: 0 <= i < n ==> z[i] == 0
  {
    seq(n, i => 0)
  }

  /** The `n` low-order bytes of x, most significant first. */
  function BigEndian(x: nat, n: nat): (s: seq<byte>)
    ensures |s| == n
  {
    if n == 0 then [] else BigEndian(x / 256, n - 1) + [ByteOf(x)]
  }

  /** Zero bytes between the marker and the length field. */
  function ZeroCount(length: nat): nat {
    var r := length % BLOCK;
    if r < 56 then 55 - r else 119 - r
  }

  /** The standard limits messages to fewer than 2^64 bits; beyond that the length field
      keeps the bit count modulo 2^64. */
  function LengthField(length: nat): (s: seq<byte>)
    ensures |s| == 8
  {
    BigEndian(8 * length % TWO_TO_64, 8)
  }

  function Pad(message: seq<byte>): seq<byte> {
    message + [0x80] + Zeros(ZeroCount(|message|)) + LengthField(|message|)
  }

  // ---------------------------------------------------------------- digest

  function LowByte(w: word): byte {
    ((w & 0xff) as bv8) as int
  }

  function WordBytes(w: word): seq<byte> {
    [LowByte(w >> 24), LowByte(w >> 16), LowByte(w >> 8), LowByte(w)]
  }

  function DigestBytes(h: Words): seq<byte> {
    WordBytes(h.a) + WordBytes(h.b) + WordBytes(h.c) + WordBytes(h.d)
    + WordBytes(h.e) + WordBytes(h.f) + WordBytes(h.g) + WordBytes(h.h)
  }

  function Digest(message: seq<byte>): (digest: seq<byte>)
    ensures |digest| == 32
  {
    DigestBytes(HashBlocks(H0, Pad(message)))
  }

  // ---------------------------------------------------------------- laws

  /** ZeroCount is the smallest solution of the standard's congruence. */
  lemma ZeroCountIsLeast(length: nat, k: nat)
    ensures (length + 1 + ZeroCount(length)) % BLOCK == 56
    ensures (length + 1 + k) % BLOCK == 56 ==> ZeroCount(length) <= k
  {
    var q, r := length / BLOCK, length % BLOCK;
    assert length == BLOCK * q + r;
    if r < 56 {
      assert length + 1 + ZeroCount(length) == BLOCK * q + 56;
    } else {
      assert length + 1 + ZeroCount(length) == BLOCK * (q + 1) + 56;
    }
    if k < ZeroCount(length) && r + 1 + k < BLOCK {
      assert length + 1 + k == BLOCK * q + (r + 1 + k);
    } else if k < ZeroCount(length) {
      assert length + 1 + k == BLOCK * (q + 1) + (r + 1 + k - BLOCK);
    }
  }

  /** The padded message is whole blocks: one block after the full ones when the tail is
      shorter than 56 bytes, two otherwise. */
  lemma PadFillsBlocks(message: seq<byte>)
    ensures |Pad(message)| % BLOCK == 0
    ensures |Pad(message)| == |message| - |message| % BLOCK + (if |message| % BLOCK < 56 then BLOCK else 2 * BLOCK)
  {
    hide LengthField;
    var q, r := |message| / BLOCK, |message| % BLOCK;
    assert |message| == BLOCK * q + r;
    assert |Pad(message)| == if r < 56 then BLOCK * (q + 1) else BLOCK * (q + 2);
  }

  /** Hashing whole blocks first and the rest afterwards is hashing everything. */
  lemma {:induction false} HashBlocksAppend(hash: Words, front: seq<byte>, back: seq<byte>)
    requires |front| % BLOCK == 0
    ensures HashBlocks(hash, front + back) == HashBlocks(HashBlocks(hash, front), back)
    decreases |front|
  {
    if front == [] {
      assert front + back == back;
    } else {
      assert (front + back)[..BLOCK] == front[..BLOCK];
      assert (front + back)[BLOCK..] == front[BLOCK..] + back;
      HashBlocksAppend(Compress(hash, front[..BLOCK]), front[BLOCK..], back);
    }
  }

  /** Compressing one more block extends the hashed prefix by that block. */
  lemma HashNextBlock(hash: Words, front: seq<byte>, block: seq<byte>)
    requires |front| % BLOCK == 0 && |block| == BLOCK
    ensures HashBlocks(hash, front + block) == Compress(HashBlocks(hash, front), block)
  {
    HashBlocksAppend(hash, front, block);
    assert block[..BLOCK] == block;
  }

  /** The last blocks of a padded message whose whole blocks are `front`. */
  ghost function LastBlocks(length: nat, tail: seq<byte>): (s: seq<byte>)
    requires |tail| < BLOCK
    ensures |s| == if |tail| < 56 then BLOCK else 2 * BLOCK
  {
    if |tail| < 56 then tail + [0x80] + Zeros(55 - |tail|) + LengthField(length)
    else (tail + [0x80] + Zeros(63 - |tail|)) + (Zeros(56) + LengthField(length))
  }

  lemma PadSplits(front: seq<byte>, tail: seq<byte>)
    requires |front| % BLOCK == 0 && |tail| < BLOCK
    ensures Pad(front + tail) == front + LastBlocks(|front + tail|, tail)
  {
    hide LengthField;
    var message := front + tail;
    assert |message| % BLOCK == |tail|;
    if |tail| < 56 {
      assert Pad(message) == front + LastBlocks(|message|, tail);
    } else {
      assert Zeros(119 - |tail|) == Zeros(63 - |tail|) + Zeros(56);
      assert Pad(message) == front + LastBlocks(|message|, tail);
    }
  }

  lemma DivByParts(x: nat, b: nat)
    requires b > 0
    ensures x / 256 / b == x / (256 * b)
  {
    var y := x / 256;
    var q, s := y / b, y % b;
    assert y == b * q + s;
    assert 256 * (b * q) == (256 * b) * q;
    DivUnique(x, 256 * b, q, 256 * s + x % 256);
  }

  lemma {:induction false} Pow256Positive(n: nat)
    ensures Pow256(n) > 0
  {
    if n > 0 {
      Pow256Positive(n - 1);
    }
  }

  /** Byte i of an n-byte big-endian number, as the source shifts it out. */
  lemma {:induction false} BigEndianAt(x: nat, n: nat, i: nat)
    requires i < n
    ensures Pow256(n - 1 - i) > 0 && BigEndian(x, n)[i] == ByteOf(x / Pow256(n - 1 - i))
  {
    Pow256Positive(n - 1 - i);
    if i < n - 1 {
      BigEndianAt(x / 256, n - 1, i);
      DivByParts(x, Pow256(n - 2 - i));
    }
  }
}
