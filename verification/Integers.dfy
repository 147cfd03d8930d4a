/** Machine integers and their bytes, least significant first. */
module Integers {
  import opened Types

  type U64 = n: nat | n < 0x1_0000_0000_0000_0000

  const U32_MAX: nat := 0xFFFF_FFFF

  function LeBytes(width: nat, n: nat): (r: seq<Byte>)
    ensures |r| == width
  {
    if width == 0 then [] else [n % 256] + LeBytes(width - 1, n / 256)
  }

  function FromLe(bytes: seq<Byte>): nat {
    if bytes == [] then 0 else bytes[0] + 256 * FromLe(bytes[1..])
  }

  function Limit(width: nat): nat {
    if width == 0 then 1 else 256 * Limit(width - 1)
  }

  lemma {:induction false} LeRoundTrip(width: nat, n: nat)
    requires n < Limit(width)
    ensures FromLe(LeBytes(width, n)) == n
  {
    if width > 0 {
      LeRoundTrip(width - 1, n / 256);
    }
  }

  function U64Bytes(n: U64): (r: seq<Byte>)
    ensures |r| == 8
  {
    LeBytes(8, n)
  }

  lemma U64BytesInjective(a: U64, b: U64)
    ensures U64Bytes(a) == U64Bytes(b) <==> a == b
  {
    assert Limit(8) == 0x1_0000_0000_0000_0000 by { assert Limit(4) == 0x1_0000_0000; }
    LeRoundTrip(8, a);
    LeRoundTrip(8, b);
  }
}
