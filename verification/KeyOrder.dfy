/** The bytewise order of keys. */
module KeyOrder {
  import opened Types
  import opened Sorting

  predicate BytesLeq(a: seq<Byte>, b: seq<Byte>) {
    a == [] || (b != [] && (a[0] < b[0] || (a[0] == b[0] && BytesLeq(a[1..], b[1..]))))
  }

  predicate KeyLeq(a: Pubkey, b: Pubkey) {
    BytesLeq(a.bytes, b.bytes)
  }

  lemma {:induction false} BytesTotal(a: seq<Byte>, b: seq<Byte>)
    ensures BytesLeq(a, b) || BytesLeq(b, a)
    ensures BytesLeq(a, b) && BytesLeq(b, a) ==> a == b
  {
    if a != [] && b != [] {
      BytesTotal(a[1..], b[1..]);
      assert a == [a[0]] + a[1..] && b == [b[0]] + b[1..];
    }
  }

  lemma {:induction false} BytesTransitive(a: seq<Byte>, b: seq<Byte>, c: seq<Byte>)
    requires BytesLeq(a, b) && BytesLeq(b, c)
    ensures BytesLeq(a, c)
  {
    if a != [] && a[0] == b[0] == c[0] {
      BytesTransitive(a[1..], b[1..], c[1..]);
    }
  }

  lemma KeyLeqIsOrder()
    ensures TotalPreorder(KeyLeq)
    ensures forall a: Pubkey, b: Pubkey :: KeyLeq(a, b) && KeyLeq(b, a) ==> a == b
  {
    forall a: Pubkey, b: Pubkey
      ensures KeyLeq(a, b) || KeyLeq(b, a)
      ensures KeyLeq(a, b) && KeyLeq(b, a) ==> a == b
    {
      BytesTotal(a.bytes, b.bytes);
    }
    forall a: Pubkey, b: Pubkey, c: Pubkey | KeyLeq(a, b) && KeyLeq(b, c) ensures KeyLeq(a, c) {
      BytesTransitive(a.bytes, b.bytes, c.bytes);
    }
  }
}
