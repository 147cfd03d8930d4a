/** Compact-u16 lengths: unsigned LEB128 (section 7.6 of DWARF 4) cut off at 16 bits. */
module Shortvec {
  import opened Types

  type U16 = n: int | 0 <= n < 0x1_0000

  /** The length table used by the planner and the estimator. */
  function TableLen(n: nat): nat {
    if n < 128 then 1 else if n < 16384 then 2 else 3
  }

  /** Seven bits a byte, least significant first; the high bit says that more follow. */
  function Encode(n: nat): seq<Byte> {
    if n < 128 then [n] else [128 + n % 128] + Encode(n / 128)
  }

  /** The value at the front of `bytes`, and what follows it. */
  function Decode(bytes: seq<Byte>): Option<(nat, seq<Byte>)> {
    if bytes == [] then None
    else if bytes[0] < 128 then Some((bytes[0], bytes[1..]))
    else
      match Decode(bytes[1..])
      case None => None
      case Some((high, rest)) => Some((bytes[0] - 128 + 128 * high, rest))
  }

  method EncodeShortU16(n: U16, out: seq<Byte>) returns (r: seq<Byte>)
    ensures r == out + Encode(n)
  {
    r := out;
    var left: nat := n;
    while true
      invariant r + Encode(left) == out + Encode(n)
      decreases left
    {
      ghost var before, was := r, left;
      var elem: Byte := left % 128;
      left := left / 128;
      if left != 0 {
        elem := elem + 128;
      }
      r := r + [elem];
      if left == 0 {
        assert Encode(was) == [elem];
        break;
      }
      assert before + ([elem] + Encode(left)) == r + Encode(left);
    }
  }

  /** The serializer's length loop. */
  method ShortvecLen(n: nat) returns (bytes: nat)
    ensures bytes == |Encode(n)|
  {
    var x := n;
    bytes := 0;
    while true
      invariant bytes + |Encode(x)| == |Encode(n)|
      decreases x
    {
      bytes := bytes + 1;
      if x < 0x80 {
        break;
      }
      x := x / 128;
    }
  }

  /** The loop and the table agree exactly below 2 to the 21st: they agree on every 16-bit count. */
  lemma {:induction false} TableIsLoopExactly(n: nat)
    ensures |Encode(n)| == TableLen(n) <==> n < 0x20_0000
  {
    if n >= 128 {
      var m := n / 128;
      assert |Encode(n)| == 1 + |Encode(m)|;
      if m >= 128 {
        var k := m / 128;
        assert |Encode(m)| == 1 + |Encode(k)|;
        EncodeNotEmpty(k);
        if k >= 128 {
          assert |Encode(k)| == 1 + |Encode(k / 128)|;
          EncodeNotEmpty(k / 128);
        }
      }
    }
  }

  lemma EncodeNotEmpty(n: nat)
    ensures |Encode(n)| >= 1
  {
  }

  /** Decoding gives back the value and leaves what follows. */
  lemma {:induction false} RoundTrip(n: nat, rest: seq<Byte>)
    ensures Decode(Encode(n) + rest) == Some((n, rest))
  {
    if n >= 128 {
      RoundTrip(n / 128, rest);
      assert (Encode(n) + rest)[1..] == Encode(n / 128) + rest;
    } else {
      assert ([n] + rest)[1..] == rest;
    }
  }

  /** No encoding is a proper prefix of another. */
  lemma PrefixFree(a: nat, b: nat, rest: seq<Byte>, rest': seq<Byte>)
    requires Encode(a) + rest == Encode(b) + rest'
    ensures a == b && rest == rest'
  {
    RoundTrip(a, rest);
    RoundTrip(b, rest');
  }
}
