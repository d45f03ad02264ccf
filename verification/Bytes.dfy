/** Bytes and fixed-width integers as byte strings. */
module Bytes {
  import opened Common

  type bytes = seq<byte>

  const TWO_TO_32: nat := 0x1_0000_0000

  function ByteOf(x: nat): byte {
    x % 256
  }

  function Pow256(n: nat): nat {
    if n == 0 then 1 else 256 * Pow256(n - 1)
  }

  /** The `n` low-order bytes of x, least significant first. */
  function LittleEndian(x: nat, n: nat): (s: bytes)
    ensures |s| == n
  {
    if n == 0 then [] else [ByteOf(x)] + LittleEndian(x / 256, n - 1)
  }

  function Value(s: bytes): nat {
    if s == [] then 0 else s[0] + 256 * Value(s[1..])
  }

  lemma {:induction false} LittleEndianRoundTrip(x: nat, n: nat)
    requires x < Pow256(n)
    ensures Value(LittleEndian(x, n)) == x
  {
    if n > 0 {
      LittleEndianRoundTrip(x / 256, n - 1);
      assert LittleEndian(x, n)[1..] == LittleEndian(x / 256, n - 1);
    }
  }

  lemma {:induction false} ValueRoundTrip(s: bytes)
    ensures Value(s) < Pow256(|s|)
    ensures LittleEndian(Value(s), |s|) == s
  {
    if s != [] {
      ValueRoundTrip(s[1..]);
      assert Value(s) % 256 == s[0] && Value(s) / 256 == Value(s[1..]);
      assert s == [s[0]] + s[1..];
    }
  }

  /** Four bytes, as AppendInt and the digest helpers write a 32-bit integer. */
  function Le32(x: nat): (s: bytes)
    ensures |s| == 4
  {
    LittleEndian(x, 4)
  }

  lemma Le32RoundTrip(x: nat)
    requires x < TWO_TO_32
    ensures Value(Le32(x)) == x
  {
    assert Pow256(4) == TWO_TO_32;
    LittleEndianRoundTrip(x, 4);
  }

  lemma Le32Injective(x: nat, y: nat)
    requires x < TWO_TO_32 && y < TWO_TO_32 && Le32(x) == Le32(y)
    ensures x == y
  {
    Le32RoundTrip(x);
    Le32RoundTrip(y);
  }

  /** static_cast<uint32_t> of a C int, and back. */
  function Unsigned32(x: int32): nat {
    x % TWO_TO_32
  }

  function Signed32(x: nat): int {
    if x <= INT32_MAX then x else x - TWO_TO_32
  }

  lemma WordInjective(x: int32, y: int32)
    requires Le32(Unsigned32(x)) == Le32(Unsigned32(y))
    ensures x == y
  {
    Le32Injective(Unsigned32(x), Unsigned32(y));
  }

  lemma SplitEqual<T>(a: seq<T>, s: seq<T>, b: seq<T>, t: seq<T>)
    requires |a| == |b| && a + s == b + t
    ensures a == b && s == t
  {
    assert a == (a + s)[..|a|] && b == (b + t)[..|b|];
    assert s == (a + s)[|a|..] && t == (b + t)[|b|..];
  }
}
