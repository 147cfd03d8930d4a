/** The canonical bytes behind an intent's id, and the access list derived from an instruction. */
module IntentCodec {
  import opened Types
  import opened Sorting
  import opened KeyOrder
  import opened Shortvec
  import opened Semantics
  import opened Scheduling

  // ---------------------------------------------------------------------------
  // Canonical bytes
  // ---------------------------------------------------------------------------

  /** A length cast to 16 bits. */
  function AsU16(n: nat): U16 {
    n % 0x1_0000
  }

  function FlagsByte(m: AccountMeta): Byte {
    (if m.isSigner then 1 else 0) + (if m.isWritable then 2 else 0)
  }

  function MetaBytes(m: AccountMeta): (r: seq<Byte>)
    ensures |r| == 33
  {
    m.pubkey.bytes + [FlagsByte(m)]
  }

  function MetasBytes(metas: seq<AccountMeta>): (r: seq<Byte>)
    ensures |r| == 33 * |metas|
  {
    if metas == [] then [] else MetaBytes(metas[0]) + MetasBytes(metas[1..])
  }

  function Preimage(ix: Instruction): seq<Byte> {
    ix.programId.bytes + (Encode(AsU16(|ix.accounts|)) + (MetasBytes(ix.accounts) + (Encode(AsU16(|ix.data|)) + ix.data)))
  }

  lemma {:induction false} MetasBytesSnoc(metas: seq<AccountMeta>, m: AccountMeta)
    ensures MetasBytes(metas + [m]) == MetasBytes(metas) + MetaBytes(m)
  {
    if metas == [] {
      assert [] + [m] == [m] && [m][1..] == [];
    } else {
      assert (metas + [m])[1..] == metas[1..] + [m];
      MetasBytesSnoc(metas[1..], m);
    }
  }

  method BuildPreimage(ix: Instruction) returns (buf: seq<Byte>)
    ensures buf == Preimage(ix)
  {
    buf := ix.programId.bytes;
    buf := EncodeShortU16(AsU16(|ix.accounts|), buf);
    ghost var start := buf;
    for i := 0 to |ix.accounts|
      invariant buf == start + MetasBytes(ix.accounts[..i])
    {
      var m := ix.accounts[i];
      MetasBytesSnoc(ix.accounts[..i], m);
      assert ix.accounts[..i + 1] == ix.accounts[..i] + [m];
      buf := buf + m.pubkey.bytes;
      var flags: Byte := 0;
      if m.isSigner {
        flags := flags + 1;
      }
      if m.isWritable {
        flags := flags + 2;
      }
      buf := buf + [flags];
    }
    assert ix.accounts[..|ix.accounts|] == ix.accounts;
    buf := EncodeShortU16(AsU16(|ix.data|), buf);
    buf := buf + ix.data;
  }

  // ---------------------------------------------------------------------------
  // A decoder
  // ---------------------------------------------------------------------------

  function DecodeMeta(bytes: seq<Byte>): (r: Option<AccountMeta>)
    requires |bytes| == 33
  {
    if bytes[32] >= 4 then None
    else
      var k: Key := Key(bytes[..32]);
      Some(AccountMeta(k, bytes[32] % 2 == 1, bytes[32] >= 2))
  }

  function DecodeMetas(count: nat, bytes: seq<Byte>): (r: Option<(seq<AccountMeta>, seq<Byte>)>)
    ensures r.Some? ==> |r.value.0| == count
  {
    if count == 0 then Some(([], bytes))
    else if |bytes| < 33 then None
    else
      match DecodeMeta(bytes[..33])
      case None => None
      case Some(m) =>
        match DecodeMetas(count - 1, bytes[33..])
        case None => None
        case Some((rest, left)) => Some(([m] + rest, left))
  }

  function DecodeInstruction(bytes: seq<Byte>): Option<Instruction> {
    if |bytes| < 32 then None
    else
      match Decode(bytes[32..])
      case None => None
      case Some((count, afterCount)) =>
        match DecodeMetas(count, afterCount)
        case None => None
        case Some((metas, afterMetas)) =>
          match Decode(afterMetas)
          case None => None
          case Some((len, data)) =>
            if |data| != len then None else Some(Instruction(Key(bytes[..32]), metas, data))
  }

  lemma MetaRoundTrip(m: AccountMeta)
    ensures DecodeMeta(MetaBytes(m)) == Some(m)
  {
    assert MetaBytes(m)[..32] == m.pubkey.bytes;
  }

  lemma {:induction false} MetasRoundTrip(metas: seq<AccountMeta>, rest: seq<Byte>)
    ensures DecodeMetas(|metas|, MetasBytes(metas) + rest) == Some((metas, rest))
  {
    if metas == [] {
      assert MetasBytes(metas) + rest == rest;
    } else {
      var m, tail := metas[0], metas[1..];
      var all := MetasBytes(metas) + rest;
      MetasRoundTrip(tail, rest);
      assert all[..33] == MetaBytes(m);
      assert all[33..] == MetasBytes(tail) + rest;
      MetaRoundTrip(m);
      assert metas == [m] + tail;
    }
  }

  lemma PreimageRoundTrip(ix: Instruction)
    requires |ix.accounts| < 0x1_0000 && |ix.data| < 0x1_0000
    ensures DecodeInstruction(Preimage(ix)) == Some(ix)
  {
    var bytes := Preimage(ix);
    var dataPart := Encode(|ix.data|) + ix.data;
    var metasPart := MetasBytes(ix.accounts) + dataPart;
    assert bytes[..32] == ix.programId.bytes && bytes[32..] == Encode(|ix.accounts|) + metasPart;
    RoundTrip(|ix.accounts|, metasPart);
    MetasRoundTrip(ix.accounts, dataPart);
    RoundTrip(|ix.data|, ix.data);
  }

  /** The decoder inverts the canonical bytes exactly when both lengths fit 16 bits. */
  lemma PreimageRoundTripExactly(ix: Instruction)
    ensures DecodeInstruction(Preimage(ix)) == Some(ix) <==> |ix.accounts| < 0x1_0000 && |ix.data| < 0x1_0000
  {
    if |ix.accounts| < 0x1_0000 && |ix.data| < 0x1_0000 {
      PreimageRoundTrip(ix);
    } else {
      var bytes := Preimage(ix);
      var dataPart := Encode(AsU16(|ix.data|)) + ix.data;
      var metasPart := MetasBytes(ix.accounts) + dataPart;
      assert bytes[32..] == Encode(AsU16(|ix.accounts|)) + metasPart;
      RoundTrip(AsU16(|ix.accounts|), metasPart);
      if |ix.accounts| < 0x1_0000 {
        MetasRoundTrip(ix.accounts, dataPart);
        RoundTrip(AsU16(|ix.data|), ix.data);
      }
    }
  }

  /** Within 16-bit lengths, different instructions have different canonical bytes. */
  lemma PreimageInjective(a: Instruction, b: Instruction)
    requires |a.accounts| < 0x1_0000 && |a.data| < 0x1_0000 && |b.accounts| < 0x1_0000 && |b.data| < 0x1_0000
    requires Preimage(a) == Preimage(b)
    ensures a == b
  {
    PreimageRoundTrip(a);
    PreimageRoundTrip(b);
  }

  // ---- beyond 16 bits two instructions share their bytes ----

  function Zeros(n: nat): (r: seq<Byte>)
    ensures |r| == n
  {
    seq(n, _ => 0)
  }

  function ZeroMeta(): AccountMeta {
    AccountMeta(UniformKey(0), false, false)
  }

  lemma {:induction false} ZeroMetasBytes(n: nat)
    ensures MetasBytes(seq(n, _ => ZeroMeta())) == Zeros(33 * n)
  {
    if n > 0 {
      ZeroMetasBytes(n - 1);
      assert seq(n, _ => ZeroMeta())[1..] == seq(n - 1, _ => ZeroMeta());
      assert MetaBytes(ZeroMeta()) == Zeros(33);
      assert Zeros(33) + Zeros(33 * (n - 1)) == Zeros(33 * n);
    }
  }

  /** 65536 accounts and no data share their bytes with no accounts and 65536 * 33 bytes of data. */
  lemma PreimageCollision(program: Pubkey)
    ensures var n := 0x1_0000;
      var a := Instruction(program, seq(n, _ => ZeroMeta()), []);
      var b := Instruction(program, [], Zeros(33 * n));
      a != b && Preimage(a) == Preimage(b)
  {
    var n := 0x1_0000;
    var a := Instruction(program, seq(n, _ => ZeroMeta()), []);
    var b := Instruction(program, [], Zeros(33 * n));
    ZeroMetasBytes(n);
    assert |a.accounts| != |b.accounts|;
    assert Preimage(a) == program.bytes + ([0] + (Zeros(33 * n) + ([0] + [])));
    assert Preimage(b) == program.bytes + ([0] + ([] + ([0] + Zeros(33 * n))));
    assert Zeros(33 * n) + ([0] + []) == [] + ([0] + Zeros(33 * n));
  }

  // ---------------------------------------------------------------------------
  // Access lists
  // ---------------------------------------------------------------------------

  /** Same account, and at least one side writes. */
  predicate Conflicts(a: AccountAccess, b: AccountAccess) {
    a.pubkey == b.pubkey && (a.access == Writable || b.access == Writable)
  }

  /** Two intents clash exactly when some access of one conflicts with some access of the other. */
  lemma ClashIsConflict(i: UserIntent, j: UserIntent)
    ensures Clash(Access(Touches(i), Writes(i)), Access(Touches(j), Writes(j)))
       <==> exists a, b :: a in i.accesses && b in j.accesses && Conflicts(a, b)
  {
    var wi, ti, wj, tj := Writes(i), Touches(i), Writes(j), Touches(j);
    forall a, b | a in i.accesses && b in j.accesses && Conflicts(a, b) ensures wi * tj != {} || wj * ti != {} {
      if a.access == Writable { assert a.pubkey in wi * tj; } else { assert a.pubkey in wj * ti; }
    }
    if wi * tj != {} {
      var k :| k in wi * tj;
      var a :| a in i.accesses && a.access == Writable && a.pubkey == k;
      var b :| b in j.accesses && b.pubkey == k;
      assert Conflicts(a, b);
    }
    if wj * ti != {} {
      var k :| k in wj * ti;
      var b :| b in j.accesses && b.access == Writable && b.pubkey == k;
      var a :| a in i.accesses && a.pubkey == k;
      assert Conflicts(a, b);
    }
  }

  predicate Uses(metas: seq<AccountMeta>, k: Pubkey) {
    exists a :: a in metas && a.pubkey == k
  }

  predicate UsesWritably(metas: seq<AccountMeta>, k: Pubkey) {
    exists a :: a in metas && a.pubkey == k && a.isWritable
  }

  predicate Lists(accesses: seq<AccountAccess>, k: Pubkey) {
    exists i :: 0 <= i < |accesses| && accesses[i].pubkey == k
  }

  /** `m` has the metas' keys, Writable exactly where some meta writes; `order` lists them once each. */
  ghost predicate Gathers(m: map<Pubkey, AccessKind>, order: seq<Pubkey>, metas: seq<AccountMeta>) {
    && NoDup(order) && (forall k :: k in order <==> k in m)
    && (forall k :: k in m <==> Uses(metas, k))
    && (forall k | k in m :: m[k] == Writable <==> UsesWritably(metas, k))
  }

  /** One entry per key, in key order, escalated to Writable if any meta writes. */
  ghost predicate DerivedFrom(accesses: seq<AccountAccess>, metas: seq<AccountMeta>) {
    && (forall i, j | 0 <= i < j < |accesses| :: accesses[i].pubkey != accesses[j].pubkey && KeyLeq(accesses[i].pubkey, accesses[j].pubkey))
    && (forall k :: Lists(accesses, k) <==> Uses(metas, k))
    && (forall i | 0 <= i < |accesses| :: accesses[i].access == Writable <==> UsesWritably(metas, accesses[i].pubkey))
  }

  /** What an intent with derived accesses touches and writes is what its instruction names. */
  lemma DerivedAccesses(i: UserIntent)
    requires DerivedFrom(i.accesses, i.ix.accounts)
    ensures forall k :: k in Touches(i) <==> Uses(i.ix.accounts, k)
    ensures forall k :: k in Writes(i) <==> UsesWritably(i.ix.accounts, k)
  {
    forall k
      ensures k in Touches(i) <==> Uses(i.ix.accounts, k)
      ensures k in Writes(i) <==> UsesWritably(i.ix.accounts, k)
    {
      assert Lists(i.accesses, k) <==> Uses(i.ix.accounts, k);
      if UsesWritably(i.ix.accounts, k) {
        assert Uses(i.ix.accounts, k);
        var n :| 0 <= n < |i.accesses| && i.accesses[n].pubkey == k;
        assert i.accesses[n] in i.accesses;
      }
    }
  }

  /** Merges one meta into the map: inserts it, or escalates the entry it meets. */
  method Gather(m: map<Pubkey, AccessKind>, order: seq<Pubkey>, ghost before: seq<AccountMeta>, meta: AccountMeta)
    returns (m': map<Pubkey, AccessKind>, order': seq<Pubkey>)
    requires Gathers(m, order, before)
    ensures Gathers(m', order', before + [meta])
  {
    var ak := if meta.isWritable then Writable else ReadOnly;
    m', order' := m, order;
    if meta.pubkey in m {
      if ak == Writable {
        m' := m[meta.pubkey := ak];
      }
      assert m == m[meta.pubkey := m[meta.pubkey]];
    } else {
      m' := m[meta.pubkey := ak];
      order' := order + [meta.pubkey];
    }
  }

  method AccessesFromIx(ix: Instruction) returns (accesses: seq<AccountAccess>)
    ensures DerivedFrom(accesses, ix.accounts)
  {
    var m: map<Pubkey, AccessKind>, order: seq<Pubkey> := map[], [];
    for i := 0 to |ix.accounts|
      invariant Gathers(m, order, ix.accounts[..i])
    {
      assert ix.accounts[..i + 1] == ix.accounts[..i] + [ix.accounts[i]];
      m, order := Gather(m, order, ix.accounts[..i], ix.accounts[i]);
    }
    assert ix.accounts[..|ix.accounts|] == ix.accounts;
    var keys := SortedKeys(order);
    accesses := seq(|keys|, i requires 0 <= i < |keys| => assert keys[i] in order; AccountAccess(keys[i], m[keys[i]]));
    SortedAccesses(accesses, keys, m, order, ix.accounts);
  }

  /** How an ordered map iterates over its keys. */
  function SortedKeys(order: seq<Pubkey>): (keys: seq<Pubkey>)
    requires NoDup(order)
    ensures NoDup(keys) && SortedBy(KeyLeq, keys) && forall i | 0 <= i < |keys| :: keys[i] in order
    ensures forall k :: k in keys <==> k in order
  {
    KeyLeqIsOrder();
    SortBySorted(KeyLeq, order);
    SameElements(order, SortBy(KeyLeq, order));
    NoDupPermutation(order, SortBy(KeyLeq, order));
    var keys := SortBy(KeyLeq, order);
    assert forall i | 0 <= i < |keys| :: keys[i] in keys;
    keys
  }

  lemma SortedAccesses(accesses: seq<AccountAccess>, keys: seq<Pubkey>, m: map<Pubkey, AccessKind>, order: seq<Pubkey>, metas: seq<AccountMeta>)
    requires Gathers(m, order, metas) && NoDup(keys) && SortedBy(KeyLeq, keys) && forall k :: k in keys <==> k in order
    requires |accesses| == |keys| && forall i | 0 <= i < |keys| :: keys[i] in m && accesses[i] == AccountAccess(keys[i], m[keys[i]])
    ensures DerivedFrom(accesses, metas)
  {
    forall k ensures Lists(accesses, k) <==> Uses(metas, k) {
      if k in keys {
        var i :| 0 <= i < |keys| && keys[i] == k;
        assert accesses[i].pubkey == k;
      }
    }
    assert forall i | 0 <= i < |keys| :: keys[i] in keys;
  }
}
