/** Byte strings and fixed-width integers. */
module Encoding {

  type Byte = x: nat | x < 256
  type Bytes = seq<Byte>
  type U32 = x: nat | x < 0x1_0000_0000

  const U32_MAX: nat := 0xFFFF_FFFF

  function LittleEndian(n: U32): (r: Bytes)
    ensures |r| == 4
  {
    [n % 256, n / 256 % 256, n / 256 / 256 % 256, n / 256 / 256 / 256]
  }

  lemma LittleEndianInjective(m: U32, n: U32)
    requires LittleEndian(m) == LittleEndian(n)
    ensures m == n
  {
    var a, b := LittleEndian(m), LittleEndian(n);
    assert a[0] == b[0] && a[1] == b[1] && a[2] == b[2] && a[3] == b[3];
    assert m / 256 / 256 == n / 256 / 256;
    assert m / 256 == n / 256;
  }

  function FromLittleEndian(b: Bytes): U32
    requires |b| == 4
  {
    (b[0] as int) + 256 * ((b[1] as int) + 256 * ((b[2] as int) + 256 * (b[3] as int)))
  }

  lemma LittleEndianRoundTrip(n: U32)
    ensures FromLittleEndian(LittleEndian(n)) == n
  {
  }

  /** A 32-byte value of the account tree. */
  type Word = b: Bytes | |b| == 32 witness seq(32, _ => 0)

  function ZeroWord(): Word {
    seq(32, _ => 0)
  }

  /** Two strings with prefixes of one length. */
  lemma SplitPair(a: Bytes, b: Bytes, c: Bytes, d: Bytes)
    requires |a| == |c| && a + b == c + d
    ensures a == c && b == d
  {
    assert a == (a + b)[..|a|] && c == (c + d)[..|c|];
    assert b == (a + b)[|a|..] && d == (c + d)[|c|..];
  }
}
