/** What a chunk commits to: account versions, intents, the chunk id and the bundle root. */
module Commitment {
  import opened Types
  import opened Sorting
  import opened KeyOrder
  import opened Merkle
  import opened IntentCodec
  import opened Shortvec
  import opened Integers

  datatype AccountVersion = AccountVersion(key: Pubkey, lamports: U64, owner: Pubkey, dataHash64: U64, slot: U64)

  // ---------------------------------------------------------------------------
  // Hashed strings
  // ---------------------------------------------------------------------------

  function Tag(s: string): (r: seq<Byte>)
    ensures |r| == |s|
  {
    seq(|s|, i requires 0 <= i < |s| => (s[i] as int) % 256)
  }

  function VersionString(v: AccountVersion): (r: seq<Byte>)
    ensures |r| == 98
  {
    Tag("CPSR:ACCV1") + (v.key.bytes + (U64Bytes(v.lamports) + (v.owner.bytes + (U64Bytes(v.dataHash64) + U64Bytes(v.slot)))))
  }

  /** A version's digest string tells all its fields. */
  lemma VersionStringInjective(a: AccountVersion, b: AccountVersion)
    ensures VersionString(a) == VersionString(b) <==> a == b
  {
    var tag := Tag("CPSR:ACCV1");
    var a4, b4 := U64Bytes(a.dataHash64) + U64Bytes(a.slot), U64Bytes(b.dataHash64) + U64Bytes(b.slot);
    var a3, b3 := a.owner.bytes + a4, b.owner.bytes + b4;
    var a2, b2 := U64Bytes(a.lamports) + a3, U64Bytes(b.lamports) + b3;
    var a1, b1 := a.key.bytes + a2, b.key.bytes + b2;
    SameHalves(tag, a1, tag, b1);
    SameHalves(a.key.bytes, a2, b.key.bytes, b2);
    SameHalves(U64Bytes(a.lamports), a3, U64Bytes(b.lamports), b3);
    SameHalves(a.owner.bytes, a4, b.owner.bytes, b4);
    SameHalves(U64Bytes(a.dataHash64), U64Bytes(a.slot), U64Bytes(b.dataHash64), U64Bytes(b.slot));
    U64BytesInjective(a.lamports, b.lamports);
    U64BytesInjective(a.dataHash64, b.dataHash64);
    U64BytesInjective(a.slot, b.slot);
  }

  function InstructionString(ix: Instruction): seq<Byte> {
    Tag("CPSR:INTENTv1") + Preimage(ix)
  }

  /** Only an instruction without accounts and with 17 bytes of data hashes a string as long as two digests. */
  lemma NodeSizedExactly(ix: Instruction)
    ensures |InstructionString(ix)| == 64 <==> ix.accounts == [] && |ix.data| == 17
  {
    EncodeNotEmpty(AsU16(|ix.accounts|));
    EncodeNotEmpty(AsU16(|ix.data|));
    assert |ix.data| < 128 ==> |Encode(AsU16(|ix.data|))| == 1;
    assert Encode(0) == [0];
  }

  function ChunkString(merkleRoot: Hash32, occRoot: Hash32): (r: seq<Byte>)
    ensures |r| == 74
  {
    Tag("CPSR:CHUNK") + (merkleRoot.bytes + occRoot.bytes)
  }

  function BoundString(merkleRoot: Hash32, occRoot: Hash32, session: Option<Pubkey>, nonce: U64, plan: Option<Hash32>): seq<Byte> {
    Tag("CPSR:CHUNKBOUND") + (merkleRoot.bytes + (occRoot.bytes + (SessionKey(session).bytes + (U64Bytes(nonce) + PlanHash(plan).bytes))))
  }

  function SessionKey(session: Option<Pubkey>): Pubkey {
    if session.Some? then session.value else UniformKey(0)
  }

  function PlanHash(plan: Option<Hash32>): Hash32 {
    if plan.Some? then plan.value else ZeroHash()
  }

  /** The stronger id tells both roots, the nonce, and the session and plan up to "absent" and "all zero". */
  lemma BoundStringTells(m: Hash32, o: Hash32, s: Option<Pubkey>, n: U64, p: Option<Hash32>,
                         m': Hash32, o': Hash32, s': Option<Pubkey>, n': U64, p': Option<Hash32>)
    ensures BoundString(m, o, s, n, p) == BoundString(m', o', s', n', p')
       <==> (m == m' && o == o' && SessionKey(s) == SessionKey(s') && n == n' && PlanHash(p) == PlanHash(p'))
  {
    var tag := Tag("CPSR:CHUNKBOUND");
    var a3, b3 := U64Bytes(n) + PlanHash(p).bytes, U64Bytes(n') + PlanHash(p').bytes;
    var a2, b2 := SessionKey(s).bytes + a3, SessionKey(s').bytes + b3;
    var a1, b1 := o.bytes + a2, o'.bytes + b2;
    SameHalves(tag, m.bytes + a1, tag, m'.bytes + b1);
    SameHalves(m.bytes, a1, m'.bytes, b1);
    SameHalves(o.bytes, a2, o'.bytes, b2);
    SameHalves(SessionKey(s).bytes, a3, SessionKey(s').bytes, b3);
    SameHalves(U64Bytes(n), PlanHash(p).bytes, U64Bytes(n'), PlanHash(p').bytes);
    U64BytesInjective(n, n');
  }

  // ---------------------------------------------------------------------------
  // Account versions
  // ---------------------------------------------------------------------------

  predicate VersionLeq(a: AccountVersion, b: AccountVersion) {
    if a.key == b.key then a.slot <= b.slot else KeyLeq(a.key, b.key)
  }

  lemma VersionLeqIsOrder()
    ensures TotalPreorder(VersionLeq)
  {
    KeyLeqIsOrder();
    forall a, b, c | VersionLeq(a, b) && VersionLeq(b, c) ensures VersionLeq(a, c) {
      assert KeyLeq(a.key, b.key) && KeyLeq(b.key, c.key);
      assert KeyLeq(a.key, c.key);
    }
  }

  /** The order compares key and slot alone. */
  lemma SameRankExactly(a: AccountVersion, b: AccountVersion)
    ensures VersionLeq(a, b) && VersionLeq(b, a) <==> a.key == b.key && a.slot == b.slot
  {
    KeyLeqIsOrder();
  }

  predicate OnePerKeyAndSlot(versions: seq<AccountVersion>) {
    forall i, j | 0 <= i < |versions| && 0 <= j < |versions| && versions[i].key == versions[j].key && versions[i].slot == versions[j].slot ::
      versions[i] == versions[j]
  }

  lemma ToldApartExactly(versions: seq<AccountVersion>)
    ensures ToldApart(VersionLeq, versions) <==> OnePerKeyAndSlot(versions)
  {
    forall x, y ensures VersionLeq(x, y) && VersionLeq(y, x) <==> x.key == y.key && x.slot == y.slot {
      SameRankExactly(x, y);
    }
    if ToldApart(VersionLeq, versions) {
      forall i, j | 0 <= i < |versions| && 0 <= j < |versions| && versions[i].key == versions[j].key && versions[i].slot == versions[j].slot
        ensures versions[i] == versions[j]
      {
        assert versions[i] in versions && versions[j] in versions;
      }
    }
  }

  function Sorted(versions: seq<AccountVersion>): seq<AccountVersion> {
    SortBy(VersionLeq, versions)
  }

  function VersionStrings(versions: seq<AccountVersion>): seq<seq<Byte>> {
    Mapped(VersionString, Sorted(versions))
  }

  function OccRoot(h: Hasher, versions: seq<AccountVersion>): Hash32 {
    Root(h, Mapped(h, VersionStrings(versions)))
  }

  lemma VersionRowsTell(a: seq<AccountVersion>, b: seq<AccountVersion>)
    ensures NotNodes(Mapped(VersionString, a))
    ensures Mapped(VersionString, a) == Mapped(VersionString, b) <==> a == b
  {
    forall i | 0 <= i < |a| ensures |Mapped(VersionString, a)[i]| == 98 {
      assert Mapped(VersionString, a)[i] == VersionString(a[i]);
    }
    forall x, y | x in a && y in b ensures VersionString(x) == VersionString(y) ==> x == y {
      VersionStringInjective(x, y);
    }
    MappedTells(VersionString, a, b);
  }

  /** With as many versions the root binds the sorted row itself. */
  lemma {:induction false} OccRootBindsEqualCounts(h: Hasher, a: seq<AccountVersion>, b: seq<AccountVersion>)
    requires |a| == |b| && NoCollision(h, Strings(h, VersionStrings(a)) + Strings(h, VersionStrings(b)))
    ensures OccRoot(h, a) == OccRoot(h, b) <==> Sorted(a) == Sorted(b)
  {
    SameElements(a, Sorted(a));
    SameElements(b, Sorted(b));
    HashedLengthBinds(h, VersionStrings(a), VersionStrings(b));
    VersionRowsTell(Sorted(a), Sorted(b));
  }

  /** The root over versions binds the sorted row, whatever the two lengths are. */
  lemma {:induction false} OccRootBinds(h: Hasher, a: seq<AccountVersion>, b: seq<AccountVersion>)
    requires CollisionFree(h, Strings(h, VersionStrings(a)) + Strings(h, VersionStrings(b)))
    ensures OccRoot(h, a) == OccRoot(h, b) <==> Padded(Sorted(a)) == Padded(Sorted(b))
  {
    VersionRowsTell(Sorted(a), Sorted(b));
    VersionRowsTell(Sorted(b), Sorted(a));
    NotNodesApart(h, VersionStrings(a), VersionStrings(b));
    RootBinds(h, VersionStrings(a), VersionStrings(b));
    PaddedMapped(VersionString, Sorted(a));
    PaddedMapped(VersionString, Sorted(b));
    VersionRowsTell(Padded(Sorted(a)), Padded(Sorted(b)));
  }

  /** No two arrangements of these versions collide on the way to their roots. */
  ghost predicate ArrangementsCollisionFree(h: Hasher, versions: seq<AccountVersion>) {
    forall a, b | multiset(a) == multiset(versions) && multiset(b) == multiset(versions) ::
      CollisionFree(h, Strings(h, VersionStrings(a)) + Strings(h, VersionStrings(b)))
  }

  lemma {:induction false} OccRootsOfArrangements(h: Hasher, versions: seq<AccountVersion>, t: seq<AccountVersion>)
    requires ArrangementsCollisionFree(h, versions) && multiset(t) == multiset(versions)
    ensures OccRoot(h, t) == OccRoot(h, versions) <==> Sorted(t) == Sorted(versions)
  {
    OccRootBinds(h, t, versions);
    SameElements(Sorted(t), Sorted(versions));
    PaddedSame(Sorted(t), Sorted(versions));
  }

  /** The root over versions ignores their order exactly when no key and slot carries two different versions. */
  lemma {:induction false} OccRootIgnoresOrderExactly(h: Hasher, versions: seq<AccountVersion>)
    requires ArrangementsCollisionFree(h, versions)
    ensures OnePerKeyAndSlot(versions) <==> forall t | multiset(t) == multiset(versions) :: OccRoot(h, t) == OccRoot(h, versions)
  {
    SortedIgnoresOrderExactly(versions);
    forall t | multiset(t) == multiset(versions)
      ensures OccRoot(h, t) == OccRoot(h, versions) <==> Sorted(t) == Sorted(versions)
    {
      OccRootsOfArrangements(h, versions, t);
    }
  }

  lemma SortedIgnoresOrderExactly(versions: seq<AccountVersion>)
    ensures OnePerKeyAndSlot(versions) <==> forall t | multiset(t) == multiset(versions) :: Sorted(t) == Sorted(versions)
  {
    VersionLeqIsOrder();
    ToldApartExactly(versions);
    if OnePerKeyAndSlot(versions) {
      SortIgnoresOrderExactly(VersionLeq, versions);
      forall t | multiset(t) == multiset(versions) ensures Sorted(t) == Sorted(versions) {
        assert SortBy(VersionLeq, t) == SortBy(VersionLeq, versions);
      }
    } else {
      var t, t' := OrderShows(VersionLeq, versions);
      assert Sorted(t) != Sorted(versions) || Sorted(t') != Sorted(versions);
    }
  }

  /** The direction that needs nothing of the hash. */
  lemma {:induction false} OccRootIgnoresOrder(h: Hasher, a: seq<AccountVersion>, b: seq<AccountVersion>)
    requires multiset(a) == multiset(b) && OnePerKeyAndSlot(a)
    ensures OccRoot(h, a) == OccRoot(h, b)
  {
    SortedIgnoresOrderExactly(a);
  }

  // ---------------------------------------------------------------------------
  // Intents and chunks
  // ---------------------------------------------------------------------------

  function IxOf(i: UserIntent): Instruction {
    i.ix
  }

  function IntentStrings(intents: seq<UserIntent>): seq<seq<Byte>> {
    Mapped(InstructionString, Mapped(IxOf, intents))
  }

  function IntentRoot(h: Hasher, intents: seq<UserIntent>): Hash32 {
    Root(h, Mapped(h, IntentStrings(intents)))
  }

  /** Lengths fit 16 bits. */
  predicate Encodable(ix: Instruction) {
    |ix.accounts| < 0x1_0000 && |ix.data| < 0x1_0000
  }

  predicate AllEncodable(intents: seq<UserIntent>) {
    forall i | 0 <= i < |intents| :: Encodable(intents[i].ix)
  }

  /** No inner node of the tree over these intents hashes a string that starts like an intent's. */
  ghost predicate Untagged(h: Hasher, intents: seq<UserIntent>) {
    forall x | x in InnerStrings(h, Mapped(h, IntentStrings(intents))) :: !(Tag("CPSR:INTENTv1") <= x)
  }

  /** No intent hashes a string as long as two digests. */
  predicate NoneNodeSized(intents: seq<UserIntent>) {
    forall i | 0 <= i < |intents| :: intents[i].ix.accounts != [] || |intents[i].ix.data| != 17
  }

  lemma IntentStringIsTagged(intents: seq<UserIntent>, x: seq<Byte>)
    requires x in IntentStrings(intents)
    ensures Tag("CPSR:INTENTv1") <= x
    ensures NoneNodeSized(intents) ==> |x| != 64
  {
    var i :| 0 <= i < |intents| && IntentStrings(intents)[i] == x;
    MappedAt(InstructionString, Mapped(IxOf, intents), i);
    MappedAt(IxOf, intents, i);
    NodeSizedExactly(intents[i].ix);
  }

  /** Either condition keeps intents and inner nodes apart. */
  lemma IntentsApart(h: Hasher, a: seq<UserIntent>, b: seq<UserIntent>)
    requires (Untagged(h, a) && Untagged(h, b)) || (NoneNodeSized(a) && NoneNodeSized(b))
    ensures LeavesApart(h, IntentStrings(a), IntentStrings(b))
  {
    forall x | x in IntentStrings(a) || x in IntentStrings(b)
      ensures x !in InnerStrings(h, Mapped(h, IntentStrings(a))) && x !in InnerStrings(h, Mapped(h, IntentStrings(b)))
    {
      if x in IntentStrings(a) {
        IntentStringIsTagged(a, x);
      } else {
        IntentStringIsTagged(b, x);
      }
      NotInner(h, Mapped(h, IntentStrings(a)), x);
      NotInner(h, Mapped(h, IntentStrings(b)), x);
    }
  }

  lemma NotInner(h: Hasher, row: seq<Hash32>, x: seq<Byte>)
    ensures x in InnerStrings(h, row) ==> |x| == 64
  {
    if x in InnerStrings(h, row) {
      InnerStringSize(h, row, x);
    }
  }

  lemma InstructionStringTells(x: Instruction, y: Instruction)
    requires Encodable(x) && Encodable(y)
    ensures InstructionString(x) == InstructionString(y) <==> x == y
  {
    SameHalves(Tag("CPSR:INTENTv1"), Preimage(x), Tag("CPSR:INTENTv1"), Preimage(y));
    if Preimage(x) == Preimage(y) {
      PreimageInjective(x, y);
    }
  }

  lemma RowsTell(a: seq<Instruction>, b: seq<Instruction>)
    requires forall x | x in a || x in b :: Encodable(x)
    ensures Mapped(InstructionString, a) == Mapped(InstructionString, b) <==> a == b
  {
    forall x, y | x in a && y in b ensures InstructionString(x) == InstructionString(y) ==> x == y {
      InstructionStringTells(x, y);
    }
    MappedTells(InstructionString, a, b);
  }

  lemma EncodableRow(intents: seq<UserIntent>)
    requires AllEncodable(intents)
    ensures forall x | x in Mapped(IxOf, intents) || x in Padded(Mapped(IxOf, intents)) :: Encodable(x)
  {
    var row := Mapped(IxOf, intents);
    forall x | x in row || x in Padded(row) ensures Encodable(x) {
      if x in Padded(row) {
        PaddedElement(row, x);
      }
      var i :| 0 <= i < |row| && row[i] == x;
      MappedAt(IxOf, intents, i);
    }
  }

  /** With as many intents the root over intents binds their instructions, in order;
      actors, priorities and expiries play no part. */
  lemma {:induction false} IntentRootBindsEqualCounts(h: Hasher, a: seq<UserIntent>, b: seq<UserIntent>)
    requires |a| == |b| && AllEncodable(a) && AllEncodable(b)
    requires NoCollision(h, Strings(h, IntentStrings(a)) + Strings(h, IntentStrings(b)))
    ensures IntentRoot(h, a) == IntentRoot(h, b) <==> Mapped(IxOf, a) == Mapped(IxOf, b)
  {
    HashedLengthBinds(h, IntentStrings(a), IntentStrings(b));
    EncodableRow(a);
    EncodableRow(b);
    RowsTell(Mapped(IxOf, a), Mapped(IxOf, b));
  }

  /** The root over intents binds the row of instructions, whatever the two lengths are. */
  lemma {:induction false} IntentRootBinds(h: Hasher, a: seq<UserIntent>, b: seq<UserIntent>)
    requires AllEncodable(a) && AllEncodable(b)
    requires (Untagged(h, a) && Untagged(h, b)) || (NoneNodeSized(a) && NoneNodeSized(b))
    requires CollisionFree(h, Strings(h, IntentStrings(a)) + Strings(h, IntentStrings(b)))
    ensures IntentRoot(h, a) == IntentRoot(h, b) <==> Padded(Mapped(IxOf, a)) == Padded(Mapped(IxOf, b))
  {
    IntentsApart(h, a, b);
    RootBinds(h, IntentStrings(a), IntentStrings(b));
    PaddedMapped(InstructionString, Mapped(IxOf, a));
    PaddedMapped(InstructionString, Mapped(IxOf, b));
    EncodableRow(a);
    EncodableRow(b);
    RowsTell(Padded(Mapped(IxOf, a)), Padded(Mapped(IxOf, b)));
  }

  function ChunkId(h: Hasher, merkleRoot: Hash32, versions: seq<AccountVersion>): Hash32 {
    h(ChunkString(merkleRoot, OccRoot(h, versions)))
  }

  /** Every string hashed for the id of a chunk whose intent root is up to date. */
  function ChunkStrings(h: Hasher, intents: seq<UserIntent>, versions: seq<AccountVersion>): set<seq<Byte>> {
    {ChunkString(IntentRoot(h, intents), OccRoot(h, versions))} + Strings(h, IntentStrings(intents)) + Strings(h, VersionStrings(versions))
  }

  /** Two chunks with up-to-date roots share an id exactly when they commit to the same row of instructions
      and the same sorted row of versions. */
  lemma {:induction false} ChunkIdBinds(h: Hasher, a: seq<UserIntent>, va: seq<AccountVersion>, b: seq<UserIntent>, vb: seq<AccountVersion>)
    requires AllEncodable(a) && AllEncodable(b)
    requires (Untagged(h, a) && Untagged(h, b)) || (NoneNodeSized(a) && NoneNodeSized(b))
    requires CollisionFree(h, ChunkStrings(h, a, va) + ChunkStrings(h, b, vb))
    ensures ChunkId(h, IntentRoot(h, a), va) == ChunkId(h, IntentRoot(h, b), vb)
       <==> (Padded(Mapped(IxOf, a)) == Padded(Mapped(IxOf, b)) && Padded(Sorted(va)) == Padded(Sorted(vb)))
  {
    var all := ChunkStrings(h, a, va) + ChunkStrings(h, b, vb);
    FewerCollide(h, all, Strings(h, IntentStrings(a)) + Strings(h, IntentStrings(b)));
    FewerCollide(h, all, Strings(h, VersionStrings(va)) + Strings(h, VersionStrings(vb)));
    IntentRootBinds(h, a, b);
    OccRootBinds(h, va, vb);
    ChunkStringTells(IntentRoot(h, a), OccRoot(h, va), IntentRoot(h, b), OccRoot(h, vb));
  }

  lemma ChunkStringTells(m: Hash32, o: Hash32, m': Hash32, o': Hash32)
    ensures ChunkString(m, o) == ChunkString(m', o') <==> m == m' && o == o'
  {
    SameHalves(Tag("CPSR:CHUNK"), m.bytes + o.bytes, Tag("CPSR:CHUNK"), m'.bytes + o'.bytes);
    SameBytes(m, o, m', o');
  }

  /** With as many intents and as many versions, two chunks share an id exactly when they hold the same instructions in the
      same order and the same sorted versions. */
  lemma {:induction false} ChunkIdBindsContents(h: Hasher, a: seq<UserIntent>, va: seq<AccountVersion>, b: seq<UserIntent>, vb: seq<AccountVersion>)
    requires AllEncodable(a) && AllEncodable(b) && |a| == |b| && |va| == |vb|
    requires NoCollision(h, ChunkStrings(h, a, va) + ChunkStrings(h, b, vb))
    ensures ChunkId(h, IntentRoot(h, a), va) == ChunkId(h, IntentRoot(h, b), vb)
       <==> ((forall i | 0 <= i < |a| :: a[i].ix == b[i].ix) && Sorted(va) == Sorted(vb))
    ensures Sorted(va) == Sorted(vb) ==> multiset(va) == multiset(vb)
  {
    var all := ChunkStrings(h, a, va) + ChunkStrings(h, b, vb);
    FewerCollide(h, all, Strings(h, IntentStrings(a)) + Strings(h, IntentStrings(b)));
    FewerCollide(h, all, Strings(h, VersionStrings(va)) + Strings(h, VersionStrings(vb)));
    IntentRootBindsEqualCounts(h, a, b);
    OccRootBindsEqualCounts(h, va, vb);
    ChunkStringTells(IntentRoot(h, a), OccRoot(h, va), IntentRoot(h, b), OccRoot(h, vb));
    SameIxs(a, b);
    assert multiset(Sorted(va)) == multiset(va) && multiset(Sorted(vb)) == multiset(vb);
  }

  lemma SameIxs(a: seq<UserIntent>, b: seq<UserIntent>)
    requires |a| == |b|
    ensures Mapped(IxOf, a) == Mapped(IxOf, b) <==> forall i | 0 <= i < |a| :: a[i].ix == b[i].ix
  {
    forall i | 0 <= i < |a| ensures Mapped(IxOf, a)[i] == a[i].ix && Mapped(IxOf, b)[i] == b[i].ix {
      MappedAt(IxOf, a, i);
      MappedAt(IxOf, b, i);
    }
  }

  /** A bundle's root binds its row of chunk commitments, whatever the two lengths are. */
  lemma {:induction false} BundleRootBinds(h: Hasher, a: seq<(Hash32, Hash32)>, b: seq<(Hash32, Hash32)>)
    requires CollisionFree(h, Strings(h, Mapped(PairString, a)) + Strings(h, Mapped(PairString, b)))
    ensures Root(h, Mapped(h, Mapped(PairString, a))) == Root(h, Mapped(h, Mapped(PairString, b))) <==> Padded(a) == Padded(b)
  {
    NotNodesApart(h, Mapped(PairString, a), Mapped(PairString, b));
    RootBinds(h, Mapped(PairString, a), Mapped(PairString, b));
    PaddedMapped(PairString, a);
    PaddedMapped(PairString, b);
    forall x, y | x in Padded(a) && y in Padded(b) ensures PairString(x) == PairString(y) ==> x == y {
      ChunkStringTells(x.0, x.1, y.0, y.1);
    }
    MappedTells(PairString, Padded(a), Padded(b));
  }

  function PairString(p: (Hash32, Hash32)): (r: seq<Byte>)
    ensures |r| == 74
  {
    ChunkString(p.0, p.1)
  }

  class Chunk {
    var intents: seq<UserIntent>
    var occVersions: seq<AccountVersion>
    var merkleRoot: Hash32

    constructor (intents: seq<UserIntent>, occVersions: seq<AccountVersion>, merkleRoot: Hash32)
      ensures this.intents == intents && this.occVersions == occVersions && this.merkleRoot == merkleRoot
    {
      this.intents, this.occVersions, this.merkleRoot := intents, occVersions, merkleRoot;
    }

    function Id(h: Hasher): Hash32
      reads this
    {
      ChunkId(h, merkleRoot, occVersions)
    }

    /** Sorts the versions; no commitment changes. */
    method Normalize(ghost h: Hasher)
      modifies `occVersions
      ensures occVersions == Sorted(old(occVersions))
      ensures OccRoot(h, occVersions) == OccRoot(h, old(occVersions)) && Id(h) == old(Id(h))
    {
      VersionLeqIsOrder();
      SortBySorted(VersionLeq, occVersions);
      SortByKeepsSorted(VersionLeq, Sorted(occVersions));
      occVersions := SortBy(VersionLeq, occVersions);
    }

    method ComputeOccRoot(h: Hasher) returns (root: Hash32)
      ensures root == OccRoot(h, occVersions)
    {
      root := MerkleRoot(h, Mapped(h, Mapped(VersionString, SortBy(VersionLeq, occVersions))));
    }

    method RecomputeMerkleRoot(h: Hasher)
      modifies `merkleRoot
      ensures merkleRoot == IntentRoot(h, intents)
    {
      merkleRoot := MerkleRoot(h, Mapped(h, Mapped(InstructionString, Mapped(IxOf, intents))));
    }
  }
}
