/** Compiling instructions into a v0 message: key partitions, header, indices and lookups. */
module Message {
  import opened Types
  import opened Sorting
  import opened KeyOrder
  import opened Integers

  const COMPUTE_BUDGET_PROGRAM_ID: Pubkey :=
    Key([3, 6, 70, 111, 229, 33, 23, 50, 255, 236, 173, 186, 114, 195, 155, 231,
         188, 140, 229, 187, 197, 247, 18, 107, 44, 67, 155, 58, 64, 0, 0, 0])

  datatype Lookup = Lookup(tablePubkey: Pubkey, writableIndexes: seq<int>, readonlyIndexes: seq<int>)

  datatype CompiledInstruction = CompiledInstruction(programIdIndex: nat, accountKeyIndexes: seq<nat>, data: seq<Byte>)

  datatype Header = Header(numRequiredSignatures: nat, numReadonlySigned: nat, numReadonlyUnsigned: nat)

  datatype MessageV0 = MessageV0(
    header: Header, staticAccountKeys: seq<Pubkey>, recentBlockhash: string,
    compiledInstructions: seq<CompiledInstruction>, addressTableLookups: seq<Lookup>)

  datatype BuildError = NotInAccountKeys(key: Pubkey) | ValueOutOfRange

  /** The address at an index of a lookup table; a hash in the program, any function here. Indices are masked to a byte. */
  type Derive = (Pubkey, Byte) -> Pubkey

  function DeriveAltAddress(derive: Derive, table: Pubkey, index: int): Pubkey {
    derive(table, index % 256)
  }

  // ---------------------------------------------------------------------------
  // Instructions of the message
  // ---------------------------------------------------------------------------

  function LimitInstruction(units: int): Instruction {
    Instruction(COMPUTE_BUDGET_PROGRAM_ID, [], [2] + LeBytes(4, units % 0x1_0000_0000))
  }

  function PriceInstruction(microLamports: nat): Instruction {
    Instruction(COMPUTE_BUDGET_PROGRAM_ID, [], [3] + LeBytes(8, microLamports))
  }

  // ---------------------------------------------------------------------------
  // Looked-up keys
  // ---------------------------------------------------------------------------

  function KeysAt(derive: Derive, table: Pubkey, indexes: seq<int>): (r: seq<Pubkey>)
    ensures |r| == |indexes|
  {
    seq(|indexes|, i requires 0 <= i < |indexes| => DeriveAltAddress(derive, table, indexes[i]))
  }

  /** The looked-up keys in the order of a combined key list: table by table, writable before read-only. */
  function LookedUpOrder(derive: Derive, lookups: seq<Lookup>): seq<Pubkey> {
    if lookups == [] then []
    else
      var l := lookups[|lookups| - 1];
      LookedUpOrder(derive, lookups[..|lookups| - 1])
        + KeysAt(derive, l.tablePubkey, l.writableIndexes) + KeysAt(derive, l.tablePubkey, l.readonlyIndexes)
  }

  function LookedUpSet(derive: Derive, lookups: seq<Lookup>): set<Pubkey> {
    set k | k in LookedUpOrder(derive, lookups)
  }

  // ---------------------------------------------------------------------------
  // The anchor
  // ---------------------------------------------------------------------------

  function MetasAt(derive: Derive, table: Pubkey, indexes: seq<int>, writable: bool): (r: seq<AccountMeta>)
    ensures |r| == |indexes|
  {
    seq(|indexes|, i requires 0 <= i < |indexes| => AccountMeta(DeriveAltAddress(derive, table, indexes[i]), false, writable))
  }

  function MaxIndex(indexes: seq<int>): int {
    if indexes == [] then -1
    else
      var m := MaxIndex(indexes[..|indexes| - 1]);
      if indexes[|indexes| - 1] > m then indexes[|indexes| - 1] else m
  }

  function AnchorMetas(derive: Derive, lookups: seq<Lookup>): seq<AccountMeta> {
    if lookups == [] then []
    else
      var l := lookups[|lookups| - 1];
      var before := AnchorMetas(derive, lookups[..|lookups| - 1]);
      if MaxIndex(l.writableIndexes + l.readonlyIndexes) < 0 then before
      else before + MetasAt(derive, l.tablePubkey, l.writableIndexes, true) + MetasAt(derive, l.tablePubkey, l.readonlyIndexes, false)
  }

  predicate HasIndexes(l: Lookup) {
    l.writableIndexes != [] || l.readonlyIndexes != []
  }

  /** Some index of the table is not negative. */
  predicate HasRealIndex(l: Lookup) {
    exists i :: i in l.writableIndexes + l.readonlyIndexes && i >= 0
  }

  lemma {:induction false} MaxIndexTells(indexes: seq<int>)
    ensures MaxIndex(indexes) >= 0 <==> exists i :: i in indexes && i >= 0
  {
    if indexes != [] {
      var front, last := indexes[..|indexes| - 1], indexes[|indexes| - 1];
      MaxIndexTells(front);
      assert indexes == front + [last];
      assert last in indexes && forall i | i in front :: i in indexes;
    }
  }

  function KeysOf(metas: seq<AccountMeta>): (r: seq<Pubkey>)
    ensures |r| == |metas|
  {
    seq(|metas|, i requires 0 <= i < |metas| => metas[i].pubkey)
  }

  lemma KeysConcat(a: seq<AccountMeta>, b: seq<AccountMeta>)
    ensures KeysOf(a + b) == KeysOf(a) + KeysOf(b)
  {
  }

  /** The metas of one table with a real index name its keys, in order, with the rights they are looked up with. */
  lemma TableMetas(derive: Derive, l: Lookup)
    ensures var metas := MetasAt(derive, l.tablePubkey, l.writableIndexes, true) + MetasAt(derive, l.tablePubkey, l.readonlyIndexes, false);
      && KeysOf(metas) == KeysAt(derive, l.tablePubkey, l.writableIndexes) + KeysAt(derive, l.tablePubkey, l.readonlyIndexes)
      && forall i | 0 <= i < |metas| :: !metas[i].isSigner && (metas[i].isWritable <==> i < |l.writableIndexes|)
  {
  }

  /** The last table adds its metas, if it has a real index. */
  lemma LastTable(derive: Derive, front: seq<Lookup>, l: Lookup)
    ensures var lookups := front + [l];
      var metas := MetasAt(derive, l.tablePubkey, l.writableIndexes, true) + MetasAt(derive, l.tablePubkey, l.readonlyIndexes, false);
      && AnchorMetas(derive, lookups) == AnchorMetas(derive, front) + (if HasRealIndex(l) then metas else [])
      && LookedUpOrder(derive, lookups) == LookedUpOrder(derive, front) + KeysOf(metas)
      && (HasRealIndex(l) ==> metas != []) && (HasIndexes(l) <==> metas != [])
      && forall x :: x in lookups <==> x in front || x == l
  {
    assert (front + [l])[..|front|] == front;
    MaxIndexTells(l.writableIndexes + l.readonlyIndexes);
    TableMetas(derive, l);
  }

  /** How many metas the anchor has, and how many keys are looked up. */
  lemma {:induction false} AnchorSize(derive: Derive, lookups: seq<Lookup>)
    ensures |AnchorMetas(derive, lookups)| <= |LookedUpOrder(derive, lookups)|
    ensures (exists l :: l in lookups && HasIndexes(l) && !HasRealIndex(l)) ==> |AnchorMetas(derive, lookups)| < |LookedUpOrder(derive, lookups)|
    ensures AnchorMetas(derive, lookups) == [] <==> forall l | l in lookups :: !HasRealIndex(l)
  {
    if lookups != [] {
      var front, l := lookups[..|lookups| - 1], lookups[|lookups| - 1];
      assert lookups == front + [l];
      AnchorSize(derive, front);
      LastTable(derive, front, l);
    }
  }

  lemma {:induction false} AnchorNamesAll(derive: Derive, lookups: seq<Lookup>)
    requires forall l | l in lookups :: HasIndexes(l) ==> HasRealIndex(l)
    ensures KeysOf(AnchorMetas(derive, lookups)) == LookedUpOrder(derive, lookups)
  {
    if lookups != [] {
      var front, l := lookups[..|lookups| - 1], lookups[|lookups| - 1];
      assert lookups == front + [l];
      LastTable(derive, front, l);
      AnchorNamesAll(derive, front);
      KeysConcat(AnchorMetas(derive, front), AnchorMetas(derive, lookups)[|AnchorMetas(derive, front)|..]);
    }
  }

  /** The anchor's accounts are the looked-up keys, in order, exactly when every table with an index has one that is
      not negative; indices are masked to a byte, but a table of negative indices alone is passed over. */
  lemma AnchorNamesExactly(derive: Derive, lookups: seq<Lookup>)
    ensures KeysOf(AnchorMetas(derive, lookups)) == LookedUpOrder(derive, lookups)
       <==> forall l | l in lookups :: HasIndexes(l) ==> HasRealIndex(l)
  {
    AnchorSize(derive, lookups);
    if forall l | l in lookups :: HasIndexes(l) ==> HasRealIndex(l) {
      AnchorNamesAll(derive, lookups);
    }
  }

  /** A table with the index -1 alone: nothing is anchored, but the last address of the table is looked up. */
  lemma AnchorMissesNegative(derive: Derive, table: Pubkey)
    ensures var lookups := [Lookup(table, [-1], [])];
      AnchorMetas(derive, lookups) == [] && LookedUpOrder(derive, lookups) == [derive(table, 255)]
  {
    var l := Lookup(table, [-1], []);
    assert [] + [l] == [l];
    LastTable(derive, [], l);
    assert -1 % 256 == 255;
    assert KeysAt(derive, table, [-1]) == [derive(table, 255)] && KeysAt(derive, table, []) == [];
    TableMetas(derive, l);
  }

  predicate NamedAt(derive: Derive, table: Pubkey, indexes: seq<int>, k: Pubkey) {
    exists i :: i in indexes && k == DeriveAltAddress(derive, table, i)
  }

  /** `m` names the key at some index of a table that has a real index, with the rights of that index. */
  predicate AnchoredBy(derive: Derive, l: Lookup, m: AccountMeta) {
    && HasRealIndex(l) && !m.isSigner
    && NamedAt(derive, l.tablePubkey, if m.isWritable then l.writableIndexes else l.readonlyIndexes, m.pubkey)
  }

  lemma MetasAtMember(derive: Derive, table: Pubkey, indexes: seq<int>, writable: bool, m: AccountMeta)
    ensures m in MetasAt(derive, table, indexes, writable)
       <==> !m.isSigner && m.isWritable == writable && NamedAt(derive, table, indexes, m.pubkey)
  {
    var metas := MetasAt(derive, table, indexes, writable);
    if i :| i in indexes && !m.isSigner && m.isWritable == writable && m.pubkey == DeriveAltAddress(derive, table, i) {
      var k :| 0 <= k < |indexes| && indexes[k] == i;
      assert metas[k] == m;
    }
    if m in metas {
      var k :| 0 <= k < |metas| && metas[k] == m;
      assert indexes[k] in indexes;
    }
  }

  lemma LastTableMember(derive: Derive, front: seq<Lookup>, l: Lookup, m: AccountMeta)
    ensures m in AnchorMetas(derive, front + [l]) <==> m in AnchorMetas(derive, front) || AnchoredBy(derive, l, m)
  {
    LastTable(derive, front, l);
    MetasAtMember(derive, l.tablePubkey, l.writableIndexes, true, m);
    MetasAtMember(derive, l.tablePubkey, l.readonlyIndexes, false, m);
  }

  /** Exactly the metas the anchor has: none signs, and each is writable as it is looked up. */
  lemma {:induction false} AnchorMember(derive: Derive, lookups: seq<Lookup>, m: AccountMeta)
    ensures m in AnchorMetas(derive, lookups) <==> exists l :: l in lookups && AnchoredBy(derive, l, m)
  {
    if lookups != [] {
      var front, l := lookups[..|lookups| - 1], lookups[|lookups| - 1];
      assert lookups == front + [l];
      AnchorMember(derive, front, m);
      LastTableMember(derive, front, l, m);
      assert l in lookups && forall x | x in front :: x in lookups;
      assert forall x | x in lookups :: x in front || x == l;
    }
  }

  /** An instruction that mentions looked-up addresses, so that the lookups are used; none if no table has a real index. */
  method BuildAltAnchorInstruction(derive: Derive, lookups: seq<Lookup>) returns (anchor: Option<Instruction>)
    ensures anchor == if AnchorMetas(derive, lookups) == [] then None
                      else Some(Instruction(COMPUTE_BUDGET_PROGRAM_ID, AnchorMetas(derive, lookups), []))
    ensures anchor.Some? <==> exists l :: l in lookups && HasRealIndex(l)
    ensures anchor.Some? ==> forall m :: m in anchor.value.accounts <==> exists l :: l in lookups && AnchoredBy(derive, l, m)
    ensures anchor.Some? ==>
      (KeysOf(anchor.value.accounts) == LookedUpOrder(derive, lookups) <==> forall l | l in lookups :: HasIndexes(l) ==> HasRealIndex(l))
  {
    AnchorSize(derive, lookups);
    AnchorNamesExactly(derive, lookups);
    forall m ensures m in AnchorMetas(derive, lookups) <==> exists l :: l in lookups && AnchoredBy(derive, l, m) {
      AnchorMember(derive, lookups, m);
    }
    if lookups == [] {
      return None;
    }
    var metas: seq<AccountMeta> := [];
    for i := 0 to |lookups|
      invariant metas == AnchorMetas(derive, lookups[..i])
    {
      var l := lookups[i];
      assert lookups[..i + 1][..i] == lookups[..i];
      if MaxIndex(l.writableIndexes + l.readonlyIndexes) < 0 {
        continue;
      }
      metas := metas + MetasAt(derive, l.tablePubkey, l.writableIndexes, true);
      metas := metas + MetasAt(derive, l.tablePubkey, l.readonlyIndexes, false);
    }
    assert lookups[..|lookups|] == lookups;
    if metas == [] {
      return None;
    }
    return Some(Instruction(COMPUTE_BUDGET_PROGRAM_ID, metas, []));
  }

  // ---------------------------------------------------------------------------
  // Uses of static keys
  // ---------------------------------------------------------------------------

  datatype Flags = Flags(isSigner: bool, isWritable: bool)

  /** The uses of keys by one instruction that make them static: its program, and its accounts that are not looked up. */
  function UsesOfMetas(metas: seq<AccountMeta>, lookedUp: set<Pubkey>): seq<AccountMeta> {
    if metas == [] then []
    else
      var last := metas[|metas| - 1];
      UsesOfMetas(metas[..|metas| - 1], lookedUp) + if last.pubkey in lookedUp then [] else [last]
  }

  function UsesOf(ixs: seq<Instruction>, lookedUp: set<Pubkey>): seq<AccountMeta> {
    if ixs == [] then []
    else
      var last := ixs[|ixs| - 1];
      UsesOf(ixs[..|ixs| - 1], lookedUp) + [AccountMeta(last.programId, false, false)] + UsesOfMetas(last.accounts, lookedUp)
  }

  type FlagMap = map<Pubkey, Flags>

  /** The map has the used keys; a key's flags are the OR over its uses. */
  ghost predicate Reflects(m: FlagMap, uses: seq<AccountMeta>) {
    && (forall k :: k in m <==> exists u :: u in uses && u.pubkey == k)
    && (forall k | k in m :: m[k].isSigner <==> exists u :: u in uses && u.pubkey == k && u.isSigner)
    && (forall k | k in m :: m[k].isWritable <==> exists u :: u in uses && u.pubkey == k && u.isWritable)
  }

  /** Adds one use to the map. */
  function Escalate(m: FlagMap, u: AccountMeta): FlagMap {
    m[u.pubkey := if u.pubkey in m then Flags(m[u.pubkey].isSigner || u.isSigner, m[u.pubkey].isWritable || u.isWritable)
                  else Flags(u.isSigner, u.isWritable)]
  }

  /** The static keys with their flags, in the order they were first met. */
  ghost predicate Collected(m: FlagMap, order: seq<Pubkey>, uses: seq<AccountMeta>) {
    Reflects(m, uses) && NoDup(order) && forall k :: k in order <==> k in m
  }

  method Collect(ixs: seq<Instruction>, lookedUp: set<Pubkey>, payer: Pubkey) returns (m: FlagMap, order: seq<Pubkey>)
    ensures Collected(m, order, UsesOf(ixs, lookedUp) + [AccountMeta(payer, true, true)])
  {
    m, order := map[], [];
    for i := 0 to |ixs|
      invariant Collected(m, order, UsesOf(ixs[..i], lookedUp))
    {
      var ix := ixs[i];
      assert ixs[..i + 1][..i] == ixs[..i];
      ghost var uses := UsesOf(ixs[..i], lookedUp);
      m, order := Meet(m, order, uses, AccountMeta(ix.programId, false, false));
      uses := uses + [AccountMeta(ix.programId, false, false)];
      for j := 0 to |ix.accounts|
        invariant Collected(m, order, uses + UsesOfMetas(ix.accounts[..j], lookedUp))
      {
        var meta := ix.accounts[j];
        assert ix.accounts[..j + 1][..j] == ix.accounts[..j];
        ghost var sofar := UsesOfMetas(ix.accounts[..j], lookedUp);
        if meta.pubkey in lookedUp {
          assert sofar + [] == sofar;
          continue;
        }
        m, order := Meet(m, order, uses + sofar, meta);
        assert uses + sofar + [meta] == uses + (sofar + [meta]);
      }
      assert ix.accounts[..|ix.accounts|] == ix.accounts;
    }
    assert ixs[..|ixs|] == ixs;
    m, order := Meet(m, order, UsesOf(ixs, lookedUp), AccountMeta(payer, true, true));
  }

  method Meet(m: FlagMap, order: seq<Pubkey>, ghost uses: seq<AccountMeta>, u: AccountMeta) returns (m': FlagMap, order': seq<Pubkey>)
    requires Collected(m, order, uses)
    ensures Collected(m', order', uses + [u])
  {
    m' := Escalate(m, u);
    order' := if u.pubkey in m then order else order + [u.pubkey];
  }

  // ---------------------------------------------------------------------------
  // Partitions, header and static key order
  // ---------------------------------------------------------------------------

  /** The four classes of static keys. */
  datatype Parts = Parts(sw: seq<Pubkey>, sr: seq<Pubkey>, nw: seq<Pubkey>, nr: seq<Pubkey>)

  /** `part` holds exactly the keys of `order` with these flags, once each. */
  ghost predicate HasFlags(m: FlagMap, order: seq<Pubkey>, part: seq<Pubkey>, flags: Flags) {
    NoDup(part) && forall k :: k in part <==> k in order && k in m && m[k] == flags
  }

  ghost predicate Partitions(m: FlagMap, order: seq<Pubkey>, p: Parts) {
    && HasFlags(m, order, p.sw, Flags(true, true)) && HasFlags(m, order, p.sr, Flags(true, false))
    && HasFlags(m, order, p.nw, Flags(false, true)) && HasFlags(m, order, p.nr, Flags(false, false))
  }

  method Partition(m: FlagMap, order: seq<Pubkey>) returns (p: Parts)
    requires NoDup(order) && forall k | k in order :: k in m
    ensures Partitions(m, order, p)
  {
    p := Parts([], [], [], []);
    for i := 0 to |order|
      invariant Partitions(m, order[..i], p)
    {
      var k := order[i];
      assert k !in order[..i] && k in order;
      assert order[..i + 1] == order[..i] + [k];
      if m[k].isSigner && m[k].isWritable {
        p := p.(sw := p.sw + [k]);
      } else if m[k].isSigner {
        p := p.(sr := p.sr + [k]);
      } else if m[k].isWritable {
        p := p.(nw := p.nw + [k]);
      } else {
        p := p.(nr := p.nr + [k]);
      }
    }
    assert order[..|order|] == order;
  }

  /** Bytewise order, with the payer before everyone else. */
  function PayerFirst(payer: Pubkey): (Pubkey, Pubkey) -> bool {
    (a: Pubkey, b: Pubkey) => a == payer || (b != payer && KeyLeq(a, b))
  }

  lemma PayerFirstIsOrder(payer: Pubkey)
    ensures TotalPreorder(PayerFirst(payer))
  {
    KeyLeqIsOrder();
  }

  function SortParts(p: Parts, payer: Pubkey): Parts {
    Parts(SortBy(PayerFirst(payer), p.sw), SortBy(KeyLeq, p.sr), SortBy(KeyLeq, p.nw), SortBy(KeyLeq, p.nr))
  }

  lemma SortKeepsFlags(leq: (Pubkey, Pubkey) -> bool, m: FlagMap, order: seq<Pubkey>, part: seq<Pubkey>, flags: Flags)
    requires HasFlags(m, order, part, flags)
    ensures HasFlags(m, order, SortBy(leq, part), flags)
  {
    SameElements(part, SortBy(leq, part));
    NoDupPermutation(part, SortBy(leq, part));
  }

  function StaticKeys(p: Parts): seq<Pubkey> {
    p.sw + p.sr + p.nw + p.nr
  }

  function HeaderOf(p: Parts): Header {
    Header(|p.sw| + |p.sr|, |p.sr|, |p.nr|)
  }

  /** What a reader of the message concludes about the static key at `i`. */
  predicate SignerBit(h: Header, i: nat) {
    i < h.numRequiredSignatures
  }

  predicate WritableBit(h: Header, staticCount: nat, i: nat) {
    if i < h.numRequiredSignatures then i < h.numRequiredSignatures - h.numReadonlySigned
    else i < staticCount - h.numReadonlyUnsigned
  }

  lemma HeaderTellsFlags(m: FlagMap, order: seq<Pubkey>, p: Parts, i: nat)
    requires Partitions(m, order, p) && i < |StaticKeys(p)|
    ensures var keys := StaticKeys(p);
      keys[i] in m && m[keys[i]] == Flags(SignerBit(HeaderOf(p), i), WritableBit(HeaderOf(p), |keys|, i))
  {
    var keys := StaticKeys(p);
    var a, b, c := |p.sw|, |p.sw| + |p.sr|, |p.sw| + |p.sr| + |p.nw|;
    if i < a {
      assert keys[i] == p.sw[i] && p.sw[i] in p.sw;
    } else if i < b {
      assert keys[i] == p.sr[i - a] && p.sr[i - a] in p.sr;
    } else if i < c {
      assert keys[i] == p.nw[i - b] && p.nw[i - b] in p.nw;
    } else {
      assert keys[i] == p.nr[i - c] && p.nr[i - c] in p.nr;
    }
  }

  lemma StaticKeysOnce(m: FlagMap, order: seq<Pubkey>, p: Parts)
    requires Partitions(m, order, p) && forall k | k in order :: k in m
    ensures NoDup(StaticKeys(p)) && forall k :: k in StaticKeys(p) <==> k in order
  {
    forall k ensures k in StaticKeys(p) <==> k in order {
      if k in order { assert m[k] == Flags(m[k].isSigner, m[k].isWritable); }
    }
    NoDupConcat(p.sw, p.sr);
    NoDupConcat(p.sw + p.sr, p.nw);
    NoDupConcat(p.sw + p.sr + p.nw, p.nr);
  }

  lemma NoDupConcat<T>(a: seq<T>, b: seq<T>)
    requires NoDup(a) && NoDup(b) && forall x | x in a :: x !in b
    ensures NoDup(a + b)
  {
    forall i, j | 0 <= i < j < |a + b| ensures (a + b)[i] != (a + b)[j] {
      if i < |a| <= j { assert a[i] in a && b[j - |a|] in b; }
    }
  }

  /** A payer that signs and pays comes out first. */
  lemma PayerComesFirst(p: Parts, payer: Pubkey)
    requires payer in p.sw
    ensures SortParts(p, payer).sw != [] && SortParts(p, payer).sw[0] == payer
  {
    var s := SortBy(PayerFirst(payer), p.sw);
    PayerFirstIsOrder(payer);
    SortBySorted(PayerFirst(payer), p.sw);
    SameElements(p.sw, s);
    var i :| 0 <= i < |s| && s[i] == payer;
    assert i == 0 || PayerFirst(payer)(s[0], s[i]);
  }

  // ---------------------------------------------------------------------------
  // Indices
  // ---------------------------------------------------------------------------

  /** Every key of the combined list has an index that leads back to it. */
  ghost predicate Indexes(indexMap: map<Pubkey, nat>, combined: seq<Pubkey>) {
    && (forall k | k in combined :: k in indexMap)
    && (forall k | k in indexMap :: indexMap[k] < |combined| && combined[indexMap[k]] == k)
  }

  method BuildIndexMap(staticKeys: seq<Pubkey>, lookedUp: seq<Pubkey>) returns (indexMap: map<Pubkey, nat>)
    ensures Indexes(indexMap, staticKeys + lookedUp)
    ensures forall k | k in indexMap :: indexMap[k] < |staticKeys| <==> k !in lookedUp
  {
    indexMap := map[];
    for i := 0 to |staticKeys|
      invariant Indexes(indexMap, staticKeys[..i])
    {
      assert staticKeys[..i + 1] == staticKeys[..i] + [staticKeys[i]];
      indexMap := indexMap[staticKeys[i] := i];
    }
    assert staticKeys[..|staticKeys|] == staticKeys == staticKeys + lookedUp[..0];
    for i := 0 to |lookedUp|
      invariant Indexes(indexMap, staticKeys + lookedUp[..i])
      invariant forall k | k in indexMap :: indexMap[k] < |staticKeys| <==> k !in lookedUp[..i]
    {
      assert lookedUp[..i + 1] == lookedUp[..i] + [lookedUp[i]];
      assert staticKeys + lookedUp[..i + 1] == staticKeys + lookedUp[..i] + [lookedUp[i]];
      indexMap := indexMap[lookedUp[i] := |staticKeys| + i];
    }
    assert lookedUp[..|lookedUp|] == lookedUp;
  }

  /** `c` with its indices read through `combined` is `ix`: same program, same accounts in order, same data. */
  ghost predicate Decodes(c: CompiledInstruction, combined: seq<Pubkey>, ix: Instruction) {
    && c.programIdIndex < |combined| && combined[c.programIdIndex] == ix.programId
    && |c.accountKeyIndexes| == |ix.accounts|
    && (forall i | 0 <= i < |ix.accounts| ::
          c.accountKeyIndexes[i] < |combined| && combined[c.accountKeyIndexes[i]] == ix.accounts[i].pubkey)
    && c.data == ix.data
  }

  /** `c` is `ix` with every key replaced by its index. */
  ghost predicate Indexed(c: CompiledInstruction, indexMap: map<Pubkey, nat>, ix: Instruction) {
    && ix.programId in indexMap && c.programIdIndex == indexMap[ix.programId]
    && |c.accountKeyIndexes| == |ix.accounts|
    && (forall i | 0 <= i < |ix.accounts| :: ix.accounts[i].pubkey in indexMap && c.accountKeyIndexes[i] == indexMap[ix.accounts[i].pubkey])
    && c.data == ix.data
  }

  predicate Mentions(ix: Instruction, k: Pubkey) {
    ix.programId == k || exists a :: a in ix.accounts && a.pubkey == k
  }

  method CompileInstruction(ix: Instruction, indexMap: map<Pubkey, nat>, ghost combined: seq<Pubkey>) returns (r: Result<CompiledInstruction, BuildError>)
    requires Indexes(indexMap, combined)
    ensures r.Ok? <==> forall k | Mentions(ix, k) :: k in indexMap
    ensures r.Ok? ==> Indexed(r.value, indexMap, ix) && Decodes(r.value, combined, ix)
  {
    if ix.programId !in indexMap {
      assert Mentions(ix, ix.programId);
      return Err(NotInAccountKeys(ix.programId));
    }
    var accountKeyIndexes: seq<nat> := [];
    for i := 0 to |ix.accounts|
      invariant |accountKeyIndexes| == i
      invariant forall j | 0 <= j < i :: ix.accounts[j].pubkey in indexMap && accountKeyIndexes[j] == indexMap[ix.accounts[j].pubkey]
    {
      if ix.accounts[i].pubkey !in indexMap {
        assert Mentions(ix, ix.accounts[i].pubkey);
        return Err(NotInAccountKeys(ix.accounts[i].pubkey));
      }
      accountKeyIndexes := accountKeyIndexes + [indexMap[ix.accounts[i].pubkey]];
    }
    return Ok(CompiledInstruction(indexMap[ix.programId], accountKeyIndexes, ix.data));
  }

  /** All keys that the instructions mention have an index. */
  ghost predicate CoversAll(ixs: seq<Instruction>, indexMap: map<Pubkey, nat>) {
    forall i, k | 0 <= i < |ixs| && Mentions(ixs[i], k) :: k in indexMap
  }

  method CompileAll(ixs: seq<Instruction>, indexMap: map<Pubkey, nat>, ghost combined: seq<Pubkey>) returns (r: Result<seq<CompiledInstruction>, BuildError>)
    requires Indexes(indexMap, combined)
    ensures r.Ok? <==> CoversAll(ixs, indexMap)
    ensures r.Ok? ==> |r.value| == |ixs| && forall i | 0 <= i < |ixs| ::
      Indexed(r.value[i], indexMap, ixs[i]) && Decodes(r.value[i], combined, ixs[i])
  {
    var compiled: seq<CompiledInstruction> := [];
    for i := 0 to |ixs|
      invariant |compiled| == i && CoversAll(ixs[..i], indexMap)
      invariant forall j | 0 <= j < i :: Indexed(compiled[j], indexMap, ixs[j]) && Decodes(compiled[j], combined, ixs[j])
    {
      var c := CompileInstruction(ixs[i], indexMap, combined);
      if c.Err? {
        return Err(c.error);
      }
      compiled := compiled + [c.value];
    }
    return Ok(compiled);
  }

  lemma {:induction false} UsesOfMetasMember(metas: seq<AccountMeta>, lookedUp: set<Pubkey>, u: AccountMeta)
    ensures u in UsesOfMetas(metas, lookedUp) <==> u in metas && u.pubkey !in lookedUp
  {
    if metas != [] {
      UsesOfMetasMember(metas[..|metas| - 1], lookedUp, u);
      assert metas == metas[..|metas| - 1] + [metas[|metas| - 1]];
    }
  }

  /** `u` is a use by `ix` that makes its key static. */
  ghost predicate UsedBy(ix: Instruction, lookedUp: set<Pubkey>, u: AccountMeta) {
    u == AccountMeta(ix.programId, false, false) || (u in ix.accounts && u.pubkey !in lookedUp)
  }

  lemma {:induction false} UsesMember(ixs: seq<Instruction>, lookedUp: set<Pubkey>, u: AccountMeta)
    ensures u in UsesOf(ixs, lookedUp) <==> exists i :: 0 <= i < |ixs| && UsedBy(ixs[i], lookedUp, u)
  {
    if ixs != [] {
      var front, last := ixs[..|ixs| - 1], ixs[|ixs| - 1];
      UsesMember(front, lookedUp, u);
      UsesOfMetasMember(last.accounts, lookedUp, u);
      assert u in UsesOf(ixs, lookedUp) <==> u in UsesOf(front, lookedUp) || UsedBy(last, lookedUp, u);
      assert forall i | 0 <= i < |front| :: ixs[i] == front[i];
    }
  }

  lemma MentionedAreKnown(ixs: seq<Instruction>, lookedUp: set<Pubkey>, k: Pubkey, i: nat)
    requires i < |ixs| && Mentions(ixs[i], k)
    ensures k in lookedUp || exists u :: u in UsesOf(ixs, lookedUp) && u.pubkey == k
  {
    if ixs[i].programId == k {
      UsesMember(ixs, lookedUp, AccountMeta(k, false, false));
    } else if k !in lookedUp {
      var a :| a in ixs[i].accounts && a.pubkey == k;
      UsesMember(ixs, lookedUp, a);
    }
  }

  // ---------------------------------------------------------------------------
  // The message
  // ---------------------------------------------------------------------------

  datatype Request = Request(
    payer: Pubkey, recentBlockhash: string, cuLimit: int, cuPriceMicrolamports: int,
    userIxs: seq<Instruction>, lookups: seq<Lookup>)

  /** Compute-budget limit and price, the user's instructions, and the anchor if there is anything to anchor. */
  function AllInstructions(derive: Derive, q: Request): seq<Instruction>
    requires q.cuPriceMicrolamports >= 0
  {
    [LimitInstruction(q.cuLimit), PriceInstruction(q.cuPriceMicrolamports)] + q.userIxs
      + if AnchorMetas(derive, q.lookups) == [] then []
        else [Instruction(COMPUTE_BUDGET_PROGRAM_ID, AnchorMetas(derive, q.lookups), [])]
  }

  /** Some instruction uses `k`, not looked up, as a signer; or `k` pays. */
  ghost predicate Signs(ixs: seq<Instruction>, lookedUp: set<Pubkey>, payer: Pubkey, k: Pubkey) {
    k == payer || (k !in lookedUp && exists i, a :: 0 <= i < |ixs| && a in ixs[i].accounts && a.pubkey == k && a.isSigner)
  }

  ghost predicate Written(ixs: seq<Instruction>, lookedUp: set<Pubkey>, payer: Pubkey, k: Pubkey) {
    k == payer || (k !in lookedUp && exists i, a :: 0 <= i < |ixs| && a in ixs[i].accounts && a.pubkey == k && a.isWritable)
  }

  /** The combined key list a reader reconstructs from the message. */
  function CombinedKeys(derive: Derive, msg: MessageV0): seq<Pubkey> {
    msg.staticAccountKeys + LookedUpOrder(derive, msg.addressTableLookups)
  }

  /** Read back, the message is the instructions it was built from. */
  ghost predicate ReadsBack(derive: Derive, msg: MessageV0, ixs: seq<Instruction>) {
    && |msg.compiledInstructions| == |ixs|
    && forall i | 0 <= i < |ixs| :: Decodes(msg.compiledInstructions[i], CombinedKeys(derive, msg), ixs[i])
  }

  /** The payer is first, no static key is repeated, and the header gives every static key the rights it is used with. */
  ghost predicate RightsAreExact(derive: Derive, msg: MessageV0, ixs: seq<Instruction>, payer: Pubkey) {
    var keys, lookedUp := msg.staticAccountKeys, LookedUpSet(derive, msg.addressTableLookups);
    && keys != [] && keys[0] == payer && NoDup(keys)
    && forall i | 0 <= i < |keys| ::
         && (SignerBit(msg.header, i) <==> Signs(ixs, lookedUp, payer, keys[i]))
         && (WritableBit(msg.header, |keys|, i) <==> Written(ixs, lookedUp, payer, keys[i]))
  }

  /** A key is static exactly when it pays, is a program, or is an account that is not looked up. */
  ghost predicate StaticExactly(derive: Derive, msg: MessageV0, ixs: seq<Instruction>, payer: Pubkey) {
    forall k :: k in msg.staticAccountKeys <==>
      || k == payer
      || (exists i :: 0 <= i < |ixs| && ixs[i].programId == k)
      || (k !in LookedUpSet(derive, msg.addressTableLookups) && exists i :: 0 <= i < |ixs| && HasAccount(ixs[i], k))
  }

  /** An index is static exactly when its key is not looked up, even if the key is also static, as programs and the payer are. */
  ghost predicate LookupsWin(derive: Derive, msg: MessageV0, ixs: seq<Instruction>) {
    var n, lookedUp := |msg.staticAccountKeys|, LookedUpSet(derive, msg.addressTableLookups);
    && |msg.compiledInstructions| == |ixs|
    && forall i | 0 <= i < |ixs| ::
         var c := msg.compiledInstructions[i];
         && (c.programIdIndex < n <==> ixs[i].programId !in lookedUp)
         && |c.accountKeyIndexes| == |ixs[i].accounts|
         && forall j | 0 <= j < |ixs[i].accounts| :: c.accountKeyIndexes[j] < n <==> ixs[i].accounts[j].pubkey !in lookedUp
  }

  predicate HasAccount(ix: Instruction, k: Pubkey) {
    exists a :: a in ix.accounts && a.pubkey == k
  }

  /** After the payer, keys with the same rights are in bytewise order. */
  ghost predicate SortedByClass(msg: MessageV0) {
    var h, keys := msg.header, msg.staticAccountKeys;
    forall i, j | 0 < i < j < |keys| && SignerBit(h, i) == SignerBit(h, j) && WritableBit(h, |keys|, i) == WritableBit(h, |keys|, j) ::
      KeyLeq(keys[i], keys[j])
  }

  lemma ClassesAreSorted(p: Parts, payer: Pubkey, i: nat, j: nat)
    requires NoDup(StaticKeys(SortParts(p, payer))) && StaticKeys(SortParts(p, payer)) != []
    requires StaticKeys(SortParts(p, payer))[0] == payer
    requires 0 < i < j < |StaticKeys(SortParts(p, payer))|
    requires var q := SortParts(p, payer);
      var h, n := HeaderOf(q), |StaticKeys(q)|;
      SignerBit(h, i) == SignerBit(h, j) && WritableBit(h, n, i) == WritableBit(h, n, j)
    ensures var keys := StaticKeys(SortParts(p, payer)); KeyLeq(keys[i], keys[j])
  {
    KeyLeqIsOrder();
    PayerFirstIsOrder(payer);
    SortBySorted(PayerFirst(payer), p.sw);
    SortBySorted(KeyLeq, p.sr);
    SortBySorted(KeyLeq, p.nw);
    SortBySorted(KeyLeq, p.nr);
  }

  lemma CollectedKeys(m: FlagMap, ixs: seq<Instruction>, lookedUp: set<Pubkey>, payer: Pubkey, k: Pubkey)
    requires Reflects(m, UsesOf(ixs, lookedUp) + [AccountMeta(payer, true, true)])
    ensures k in m <==>
      || k == payer
      || (exists i :: 0 <= i < |ixs| && ixs[i].programId == k)
      || (k !in lookedUp && exists i :: 0 <= i < |ixs| && HasAccount(ixs[i], k))
  {
    var pay := AccountMeta(payer, true, true);
    var uses := UsesOf(ixs, lookedUp) + [pay];
    assert forall u :: u in uses <==> u in UsesOf(ixs, lookedUp) || u == pay;
    forall u: AccountMeta
      ensures u in UsesOf(ixs, lookedUp) <==> exists i :: 0 <= i < |ixs| && UsedBy(ixs[i], lookedUp, u)
    {
      UsesMember(ixs, lookedUp, u);
    }
    KeysAreUses(m, uses, ixs, lookedUp, payer, k);
  }

  lemma KeysAreUses(m: FlagMap, uses: seq<AccountMeta>, ixs: seq<Instruction>, lookedUp: set<Pubkey>, payer: Pubkey, k: Pubkey)
    requires Reflects(m, uses) && UsesAre(uses, ixs, lookedUp, payer)
    ensures k in m <==>
      || k == payer
      || (exists i :: 0 <= i < |ixs| && ixs[i].programId == k)
      || (k !in lookedUp && exists i :: 0 <= i < |ixs| && HasAccount(ixs[i], k))
  {
    if k in m {
      var u :| u in uses && u.pubkey == k;
    }
    if k == payer {
      assert AccountMeta(payer, true, true) in uses;
    }
    forall i | 0 <= i < |ixs| && ixs[i].programId == k ensures k in m {
      assert UsedBy(ixs[i], lookedUp, AccountMeta(k, false, false));
      assert AccountMeta(k, false, false) in uses;
    }
    forall i | 0 <= i < |ixs| && k !in lookedUp && HasAccount(ixs[i], k) ensures k in m {
      var a :| a in ixs[i].accounts && a.pubkey == k;
      assert UsedBy(ixs[i], lookedUp, a);
      assert a in uses;
    }
  }

  lemma FlagsAreUses(m: FlagMap, ixs: seq<Instruction>, lookedUp: set<Pubkey>, payer: Pubkey, k: Pubkey)
    requires Reflects(m, UsesOf(ixs, lookedUp) + [AccountMeta(payer, true, true)]) && k in m
    ensures m[k].isSigner <==> Signs(ixs, lookedUp, payer, k)
    ensures m[k].isWritable <==> Written(ixs, lookedUp, payer, k)
  {
    var pay := AccountMeta(payer, true, true);
    var uses := UsesOf(ixs, lookedUp) + [pay];
    assert forall u :: u in uses <==> u in UsesOf(ixs, lookedUp) || u == pay;
    forall u: AccountMeta
      ensures u in UsesOf(ixs, lookedUp) <==> exists i :: 0 <= i < |ixs| && UsedBy(ixs[i], lookedUp, u)
    {
      UsesMember(ixs, lookedUp, u);
    }
  }

  ghost predicate UsesAre(uses: seq<AccountMeta>, ixs: seq<Instruction>, lookedUp: set<Pubkey>, payer: Pubkey) {
    forall u :: u in uses <==> u == AccountMeta(payer, true, true) || exists i :: 0 <= i < |ixs| && UsedBy(ixs[i], lookedUp, u)
  }

  lemma SortedPartition(m: FlagMap, order: seq<Pubkey>, p: Parts, payer: Pubkey)
    requires Partitions(m, order, p)
    ensures Partitions(m, order, SortParts(p, payer))
  {
    SortKeepsFlags(PayerFirst(payer), m, order, p.sw, Flags(true, true));
    SortKeepsFlags(KeyLeq, m, order, p.sr, Flags(true, false));
    SortKeepsFlags(KeyLeq, m, order, p.nw, Flags(false, true));
    SortKeepsFlags(KeyLeq, m, order, p.nr, Flags(false, false));
  }

  /** The static keys laid out by class: what the header says about them is what their uses say. */
  lemma Layout(m: FlagMap, order: seq<Pubkey>, p: Parts, ixs: seq<Instruction>, lookedUp: set<Pubkey>, payer: Pubkey)
    requires Collected(m, order, UsesOf(ixs, lookedUp) + [AccountMeta(payer, true, true)])
    requires Partitions(m, order, p)
    ensures var q := SortParts(p, payer);
      var keys := StaticKeys(q);
      && keys != [] && keys[0] == payer && NoDup(keys) && (forall k :: k in keys <==> k in m)
      && forall i | 0 <= i < |keys| ::
           && (SignerBit(HeaderOf(q), i) <==> Signs(ixs, lookedUp, payer, keys[i]))
           && (WritableBit(HeaderOf(q), |keys|, i) <==> Written(ixs, lookedUp, payer, keys[i]))
  {
    var uses := UsesOf(ixs, lookedUp) + [AccountMeta(payer, true, true)];
    var q := SortParts(p, payer);
    SortedPartition(m, order, p, payer);
    StaticKeysOnce(m, order, q);
    assert uses[|uses| - 1] == AccountMeta(payer, true, true) && uses[|uses| - 1] in uses;
    assert payer in m && m[payer] == Flags(true, true);
    PayerComesFirst(p, payer);
    var keys := StaticKeys(q);
    assert keys[0] == q.sw[0];
    forall i | 0 <= i < |keys|
      ensures SignerBit(HeaderOf(q), i) <==> Signs(ixs, lookedUp, payer, keys[i])
      ensures WritableBit(HeaderOf(q), |keys|, i) <==> Written(ixs, lookedUp, payer, keys[i])
    {
      HeaderTellsFlags(m, order, q, i);
      FlagsAreUses(m, ixs, lookedUp, payer, keys[i]);
    }
  }

  /** No mentioned key is missing from the index map. */
  lemma AllCovered(m: FlagMap, ixs: seq<Instruction>, derive: Derive, lookups: seq<Lookup>, payer: Pubkey, keys: seq<Pubkey>, indexMap: map<Pubkey, nat>)
    requires Reflects(m, UsesOf(ixs, LookedUpSet(derive, lookups)) + [AccountMeta(payer, true, true)])
    requires forall k :: k in keys <==> k in m
    requires Indexes(indexMap, keys + LookedUpOrder(derive, lookups))
    ensures CoversAll(ixs, indexMap)
  {
    var lookedUp := LookedUpSet(derive, lookups);
    var uses := UsesOf(ixs, lookedUp) + [AccountMeta(payer, true, true)];
    forall i, k | 0 <= i < |ixs| && Mentions(ixs[i], k) ensures k in indexMap {
      MentionedAreKnown(ixs, lookedUp, k, i);
      if k !in lookedUp {
        var u :| u in UsesOf(ixs, lookedUp) && u.pubkey == k;
        assert u in uses;
        assert k in m;
      }
      assert k in keys + LookedUpOrder(derive, lookups);
    }
  }

  lemma StaticAre(derive: Derive, msg: MessageV0, m: FlagMap, ixs: seq<Instruction>, payer: Pubkey)
    requires Reflects(m, UsesOf(ixs, LookedUpSet(derive, msg.addressTableLookups)) + [AccountMeta(payer, true, true)])
    requires forall k :: k in msg.staticAccountKeys <==> k in m
    ensures StaticExactly(derive, msg, ixs, payer)
  {
    forall k: Pubkey {
      CollectedKeys(m, ixs, LookedUpSet(derive, msg.addressTableLookups), payer, k);
    }
  }

  lemma SortedClasses(msg: MessageV0, p: Parts, payer: Pubkey)
    requires msg.staticAccountKeys == StaticKeys(SortParts(p, payer)) && msg.header == HeaderOf(SortParts(p, payer))
    requires NoDup(msg.staticAccountKeys) && msg.staticAccountKeys != [] && msg.staticAccountKeys[0] == payer
    ensures SortedByClass(msg)
  {
    var h, n := msg.header, |msg.staticAccountKeys|;
    forall i, j | 0 < i < j < n && SignerBit(h, i) == SignerBit(h, j) && WritableBit(h, n, i) == WritableBit(h, n, j)
      ensures KeyLeq(msg.staticAccountKeys[i], msg.staticAccountKeys[j])
    {
      ClassesAreSorted(p, payer, i, j);
    }
  }

  lemma IndexedLookups(derive: Derive, msg: MessageV0, ixs: seq<Instruction>, indexMap: map<Pubkey, nat>)
    requires forall k | k in indexMap ::
      indexMap[k] < |msg.staticAccountKeys| <==> k !in LookedUpOrder(derive, msg.addressTableLookups)
    requires |msg.compiledInstructions| == |ixs| && forall i | 0 <= i < |ixs| :: Indexed(msg.compiledInstructions[i], indexMap, ixs[i])
    ensures LookupsWin(derive, msg, ixs)
  {
  }

  /** Builds the message. It fails only on a price that does not fit 64 bits: every key always has an index. */
  method BuildMessageV0Parity(derive: Derive, q: Request) returns (r: Result<MessageV0, BuildError>)
    ensures r.Ok? <==> 0 <= q.cuPriceMicrolamports < 0x1_0000_0000_0000_0000
    ensures r.Ok? ==>
      && ReadsBack(derive, r.value, AllInstructions(derive, q))
      && RightsAreExact(derive, r.value, AllInstructions(derive, q), q.payer)
      && StaticExactly(derive, r.value, AllInstructions(derive, q), q.payer)
      && SortedByClass(r.value) && LookupsWin(derive, r.value, AllInstructions(derive, q))
      && r.value.addressTableLookups == q.lookups && r.value.recentBlockhash == q.recentBlockhash
  {
    if q.cuPriceMicrolamports < 0 || q.cuPriceMicrolamports >= 0x1_0000_0000_0000_0000 {
      return Err(ValueOutOfRange);
    }
    var anchor := BuildAltAnchorInstruction(derive, q.lookups);
    var allIxs := [LimitInstruction(q.cuLimit), PriceInstruction(q.cuPriceMicrolamports)] + q.userIxs;
    if anchor.Some? {
      allIxs := allIxs + [anchor.value];
    }
    assert allIxs == AllInstructions(derive, q);
    var lookedUp := LookedUpSet(derive, q.lookups);
    var m, order := Collect(allIxs, lookedUp, q.payer);
    var p := Partition(m, order);
    Layout(m, order, p, allIxs, lookedUp, q.payer);
    var sorted := SortParts(p, q.payer);
    var staticKeys := StaticKeys(sorted);
    var lookedUpOrder := LookedUpOrder(derive, q.lookups);
    var indexMap := BuildIndexMap(staticKeys, lookedUpOrder);
    AllCovered(m, allIxs, derive, q.lookups, q.payer, staticKeys, indexMap);
    var compiled := CompileAll(allIxs, indexMap, staticKeys + lookedUpOrder);
    var msg := MessageV0(HeaderOf(sorted), staticKeys, q.recentBlockhash, compiled.value, q.lookups);
    StaticAre(derive, msg, m, allIxs, q.payer);
    SortedClasses(msg, p, q.payer);
    IndexedLookups(derive, msg, allIxs, indexMap);
    return Ok(msg);
  }

  // ---------------------------------------------------------------------------
  // A program that is looked up too
  // ---------------------------------------------------------------------------

  function OneAddress(k: Pubkey): Derive {
    (table: Pubkey, index: Byte) => k
  }

  /** A call of a program whose key is also in the one table. */
  function CallLookedUp(payer: Pubkey, program: Pubkey, table: Pubkey): Request {
    Request(payer, "", 0, 0, [Instruction(program, [], [])], [Lookup(table, [0], [])])
  }

  /** Whatever message is built for it carries the program among its static keys and yet calls it through the table. */
  lemma LookedUpProgramIsNotStatic(payer: Pubkey, program: Pubkey, table: Pubkey, msg: MessageV0)
    requires var ixs := AllInstructions(OneAddress(program), CallLookedUp(payer, program, table));
      StaticExactly(OneAddress(program), msg, ixs, payer) && LookupsWin(OneAddress(program), msg, ixs)
    requires msg.addressTableLookups == CallLookedUp(payer, program, table).lookups
    ensures program in msg.staticAccountKeys
    ensures |msg.compiledInstructions| > 2 && msg.compiledInstructions[2].programIdIndex >= |msg.staticAccountKeys|
  {
    var derive, l := OneAddress(program), Lookup(table, [0], []);
    var ixs := AllInstructions(derive, CallLookedUp(payer, program, table));
    assert ixs[2].programId == program;
    assert [] + [l] == [l];
    LastTable(derive, [], l);
    TableMetas(derive, l);
    assert KeysAt(derive, table, [0])[0] == program;
    assert LookedUpOrder(derive, [l])[0] == program;
    assert program in LookedUpSet(derive, [l]);
  }
}
