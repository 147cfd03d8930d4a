/** When the packer uses the fewest chunks although lookup tables are on. */
module TablePacking {
  import opened Types
  import opened Sorting
  import opened Shortvec
  import opened Packing
  import opened Chunking
  import opened ChunkLaws
  import opened RepeatedKeys

  // ---------------------------------------------------------------------------
  // `CanAdd` with tables, in terms of the block alone
  // ---------------------------------------------------------------------------

  /** Message keys and table keys of a block with `total` different keys. */
  lemma KeySides(k: Keys, alt: AltPolicy)
    requires alt.enabled && Tidy(k, alt)
    ensures |k.All()| == |k.message| + |k.tables| && |k.message| == Min(|k.All()|, alt.reserveMessageKeys)
    ensures k.tables == {} <==> |k.tables| == 0
  {
  }

  lemma NewKeys(known: set<Pubkey>, fp: Footprint)
    requires RepeatFree(fp)
    ensures CountNew(known, fp.keys) == |known + KeySet(fp.keys)| - |known| >= 0
  {
    CountNewExact(known, fp.keys);
    assert known + KeySet(fp.keys) == known + (KeySet(fp.keys) - known);
  }

  /** While the reserve has room all keys count as message keys; afterwards they count as table keys, and the first of them
      brings the table. */
  lemma {:induction false} CanAddWithTables(block: Block, fp: Footprint, budget: TxBudget, alt: AltPolicy)
    requires alt.enabled && RepeatFree(fp)
    ensures var r, n, all := alt.reserveMessageKeys, |BlockKeys(block)|, |BlockKeys(block) + KeySet(fp.keys)|;
      var extra := if n < r then DeltaSv(n, all) else if n == r && all > n then TableSetup(alt) else 0;
      CanAdd(Fold(block, budget, alt), fp, budget, alt) <==>
        && BASE_MESSAGE_OVERHEAD + budget.byteSlack + 2 + TotalSelf(block, alt) + fp.SelfBytes(alt) + extra + TableLen(|block| + 1) <= budget.maxBytes
        && (if n < r then all <= budget.maxUniqueAccounts else r <= budget.maxUniqueAccounts && all - r <= alt.maxAltKeys)
        && |block| + 1 <= budget.maxInstructions
        && TotalCu(block) + fp.cu <= budget.maxCu
  {
    var a := Fold(block, budget, alt);
    RecordedForBlock(block, budget, alt);
    KeySides(a.keys, alt);
    NewKeys(BlockKeys(block), fp);
    assert a.keys.All() == BlockKeys(block);
  }

  // ---------------------------------------------------------------------------
  // A condition under which greedy uses the fewest chunks
  // ---------------------------------------------------------------------------

  /** Next to a reserve that is full but for one slot the message has room for all keys, and the intent's own bytes
      outweigh a table. */
  predicate Roomy(fp: Footprint, budget: TxBudget, alt: AltPolicy) {
    && alt.reserveMessageKeys + |fp.keys| <= budget.maxUniqueAccounts + 1
    && TableSetup(alt) <= fp.SelfBytes(alt)
  }

  lemma UnionAtMost(known: set<Pubkey>, metas: seq<KeyMeta>)
    ensures |known + KeySet(metas)| <= |known| + |metas|
  {
    CountNewAtLeast(known, metas);
    assert known + KeySet(metas) == known + (KeySet(metas) - known);
  }

  lemma OwnBytes(fp: Footprint, alt: AltPolicy)
    requires alt.enabled && RepeatFree(fp) && alt.reserveMessageKeys >= 1
    ensures fp.SelfBytes(alt) >= 32
  {
  }

  lemma DropFirstWithTables(x: Item, c: Block, fp: Footprint, budget: TxBudget, alt: AltPolicy)
    requires alt.enabled && RepeatFree(fp) && RepeatFree(x.fp) && Roomy(fp, budget, alt) && Roomy(x.fp, budget, alt)
    requires CanAdd(Fold([x] + c, budget, alt), fp, budget, alt)
    ensures CanAdd(Fold(c, budget, alt), fp, budget, alt)
  {
    var keys, keys', more := BlockKeys([x] + c), BlockKeys(c), KeySet(fp.keys);
    TotalsCons(x, c, alt);
    CanAddWithTables([x] + c, fp, budget, alt);
    CanAddWithTables(c, fp, budget, alt);
    assert keys' <= keys && keys' + more <= keys + more;
    SubsetSize(keys', keys);
    SubsetSize(keys' + more, keys + more);
    UnionAtMost(keys', fp.keys);
    SmallDeltas(|keys'|, |keys' + more|, |c|);
    if |keys'| < alt.reserveMessageKeys {
      OwnBytes(x.fp, alt);
    }
  }

  lemma {:induction false} TablesDropClosed(items: seq<Item>, budget: TxBudget, alt: AltPolicy)
    requires alt.enabled && forall x | x in items :: RepeatFree(x.fp) && Roomy(x.fp, budget, alt)
    ensures DropClosed(Accepts(budget, alt), items)
  {
    var ok := Accepts(budget, alt);
    forall b: Block | Accepted(ok, b) && |b| > 1 && (forall x | x in b :: x in items) ensures Accepted(ok, b[1..]) {
      forall i: nat | 1 <= i < |b| - 1 ensures ok(b[1..][..i], b[1..][i]) {
        assert ok(b[..i + 1], b[i + 1]);
        assert b[0] in b && b[i + 1] in b;
        DropOneWithTables(b, i, budget, alt);
      }
    }
  }

  lemma DropOneWithTables(b: Block, i: nat, budget: TxBudget, alt: AltPolicy)
    requires alt.enabled && i + 1 < |b| && RepeatFree(b[0].fp) && RepeatFree(b[i + 1].fp)
    requires Roomy(b[0].fp, budget, alt) && Roomy(b[i + 1].fp, budget, alt)
    requires Accepts(budget, alt)(b[..i + 1], b[i + 1])
    ensures Accepts(budget, alt)(b[1..][..i], b[1..][i])
  {
    assert b[..i + 1] == [b[0]] + b[1..][..i];
    DropFirstWithTables(b[0], b[1..][..i], b[i + 1].fp, budget, alt);
  }

  /** With lookup tables on, for intents that repeat no key, leave room next to the reserve and outweigh a table, no cutting of
      the layer into blocks the accumulator accepts has fewer blocks than the packer's. */
  lemma FewestChunksWithTables(items: seq<Item>, others: seq<Block>, budget: TxBudget, alt: AltPolicy)
    requires alt.enabled && forall x | x in items :: RepeatFree(x.fp) && Roomy(x.fp, budget, alt)
    requires IsCut(Accepts(budget, alt), others, items)
    ensures |Pack(Accepts(budget, alt), items, [])| <= |others|
  {
    TablesDropClosed(items, budget, alt);
    FewestBlocks(Accepts(budget, alt), items, others);
  }

  // ---------------------------------------------------------------------------
  // Without room next to the reserve
  // ---------------------------------------------------------------------------

  const TIGHT := TxBudget(10_000, 64, 2, 30, 39_000, 1)

  const TIGHT_ALT := AltPolicy(true, 2, 10, 1, 34, 1)

  /** The keys of `count` intents' worth of accounts from `first` on. */
  function KeysFrom(first: nat, count: nat): set<Pubkey>
    requires first + count <= 256
  {
    if count == 0 then {} else KeysFrom(first, count - 1) + {UniformKey(first + count - 1)}
  }

  lemma {:induction false} KeysFromSize(first: nat, count: nat)
    requires first + count <= 256
    ensures |KeysFrom(first, count)| == count
    ensures forall b: Byte | UniformKey(b) in KeysFrom(first, count) :: first <= b < first + count
  {
    if count > 0 {
      KeysFromSize(first, count - 1);
      forall b: Byte | UniformKey(b) in KeysFrom(first, count) ensures first <= b < first + count {
        if b != first + count - 1 { UniformKeysDiffer(b, first + count - 1); }
      }
    }
  }

  lemma {:induction false} KeysFromJoin(first: nat, m: nat, n: nat)
    requires first + m + n <= 256
    ensures KeysFrom(first, m) + KeysFrom(first + m, n) == KeysFrom(first, m + n)
  {
    if n > 0 {
      KeysFromJoin(first, m, n - 1);
    }
  }

  function ReadOnlyAccounts(first: nat, count: nat): (accounts: seq<AccountMeta>)
    requires first + count <= 256
    ensures |accounts| == count
  {
    seq(count, i requires 0 <= i < count => AccountMeta(UniformKey(first + i), false, false))
  }

  /** An intent for program `first` that reads the next `accounts` keys and carries `data` bytes. */
  function Spending(first: nat, accounts: nat, data: nat): UserIntent
    requires first + accounts < 256
  {
    UserIntent(UniformKey(255), Instruction(UniformKey(first), ReadOnlyAccounts(first + 1, accounts), seq(data, _ => 0)), [], 0, None)
  }

  function TightIntents(): seq<UserIntent> {
    [Spending(0, 1, 100), Spending(2, 1, 0), Spending(4, 0, 0), Spending(5, 2, 0)]
  }

  lemma {:induction false} ReadOnlyCu(accounts: seq<AccountMeta>)
    requires forall i | 0 <= i < |accounts| :: !accounts[i].isWritable
    ensures AccountCu(accounts) == 1_000 * |accounts|
  {
    if accounts != [] {
      ReadOnlyCu(accounts[..|accounts| - 1]);
    }
  }

  lemma {:induction false} KeySetFrom(metas: seq<KeyMeta>, first: nat)
    requires first + |metas| <= 256 && forall i | 0 <= i < |metas| :: metas[i].pubkey == UniformKey(first + i)
    ensures KeySet(metas) == KeysFrom(first, |metas|)
  {
    if metas == [] {
      assert KeySet(metas) == {};
    } else {
      KeySetFrom(metas[..|metas| - 1], first);
      KeySetSnoc(metas);
    }
  }

  /** What the planner makes of such an intent. */
  ghost predicate Spends(fp: Footprint, first: nat, keys: nat, instrBytes: nat, cu: nat)
    requires first + keys <= 256
  {
    && |fp.keys| == keys && fp.instrBytes == instrBytes && fp.cu == cu
    && forall i | 0 <= i < keys :: fp.keys[i].pubkey == UniformKey(first + i)
  }

  lemma SpentKeys(fp: Footprint, first: nat, keys: nat, instrBytes: nat, cu: nat)
    requires 1 <= keys && first + keys <= 256 && Spends(fp, first, keys, instrBytes, cu)
    ensures KeySet(fp.keys) == KeysFrom(first, keys) && RepeatFree(fp)
  {
    KeySetFrom(fp.keys, first);
    forall i, j | 0 <= i < j < |fp.keys| ensures fp.keys[i].pubkey != fp.keys[j].pubkey {
      UniformKeysDiffer(first + i, first + j);
    }
  }

  lemma TightKeys(w: Item, x: Item, y: Item, z: Item)
    requires Tight(w, x, y, z)
    ensures KeySet(w.fp.keys) == KeysFrom(0, 2) && KeySet(x.fp.keys) == KeysFrom(2, 2)
    ensures KeySet(y.fp.keys) == KeysFrom(4, 1) && KeySet(z.fp.keys) == KeysFrom(5, 3)
    ensures RepeatFree(w.fp) && RepeatFree(x.fp) && RepeatFree(y.fp) && RepeatFree(z.fp)
  {
    SpentKeys(w.fp, 0, 2, 104, 16_000);
    SpentKeys(x.fp, 2, 2, 4, 13_000);
    SpentKeys(y.fp, 4, 1, 3, 12_000);
    SpentKeys(z.fp, 5, 3, 5, 14_000);
  }

  lemma SpendingFootprint(first: nat, accounts: nat, data: nat)
    requires first + accounts < 256 && accounts < 128 && data < 128
    ensures Spends(FootprintOf(Spending(first, accounts, data), TIGHT, ProgramAwareOracle), first, accounts + 1, 3 + accounts + data,
      12_000 + 1_000 * accounts + 30 * data)
  {
    var fp := FootprintOf(Spending(first, accounts, data), TIGHT, ProgramAwareOracle);
    ReadOnlyCu(ReadOnlyAccounts(first + 1, accounts));
    forall i | 0 <= i < |fp.keys| ensures fp.keys[i].pubkey == UniformKey(first + i) {
      SpendingKey(first, accounts, data, i);
    }
  }

  lemma SpendingKey(first: nat, accounts: nat, data: nat, i: nat)
    requires first + accounts < 256 && i <= accounts
    ensures FootprintOf(Spending(first, accounts, data), TIGHT, ProgramAwareOracle).keys[i].pubkey == UniformKey(first + i)
  {
    var ix := Spending(first, accounts, data).ix;
    assert i > 0 ==> ix.accounts[i - 1].pubkey == UniformKey(first + 1 + (i - 1));
  }

  /** The four footprints. */
  ghost predicate Tight(w: Item, x: Item, y: Item, z: Item) {
    && Spends(w.fp, 0, 2, 104, 16_000) && Spends(x.fp, 2, 2, 4, 13_000)
    && Spends(y.fp, 4, 1, 3, 12_000) && Spends(z.fp, 5, 3, 5, 14_000)
  }

  lemma TightItems() returns (w: Item, x: Item, y: Item, z: Item)
    ensures ItemsOf([0, 1, 2, 3], TightIntents(), TIGHT, ProgramAwareOracle) == [w, x, y, z] && Tight(w, x, y, z)
  {
    w, x := TightItem(0, Spending(0, 1, 100)), TightItem(1, Spending(2, 1, 0));
    y, z := TightItem(2, Spending(4, 0, 0)), TightItem(3, Spending(5, 2, 0));
    SpendingFootprint(0, 1, 100);
    SpendingFootprint(2, 1, 0);
    SpendingFootprint(4, 0, 0);
    SpendingFootprint(5, 2, 0);
    FourItems(TightIntents());
  }

  function TightItem(n: NodeId, i: UserIntent): Item {
    Item(n, FootprintOf(i, TIGHT, ProgramAwareOracle))
  }

  lemma FourItems(intents: seq<UserIntent>)
    requires |intents| == 4
    ensures ItemsOf([0, 1, 2, 3], intents, TIGHT, ProgramAwareOracle)
         == [TightItem(0, intents[0]), TightItem(1, intents[1]), TightItem(2, intents[2]), TightItem(3, intents[3])]
  {
  }

  lemma TightSizes()
    ensures |KeysFrom(0, 2)| == 2 && |KeysFrom(2, 2)| == 2 && |KeysFrom(4, 1)| == 1
    ensures |KeysFrom(0, 2) + KeysFrom(2, 2)| == 4 && |KeysFrom(2, 2) + KeysFrom(4, 1)| == 3
    ensures |KeysFrom(2, 2) + KeysFrom(4, 1) + KeysFrom(5, 3)| == 6
    ensures |KeysFrom(4, 1) + KeysFrom(5, 3)| == 4
  {
    KeysFromSize(0, 2);
    KeysFromSize(2, 2);
    KeysFromSize(4, 1);
    KeysFromJoin(0, 2, 2);
    KeysFromSize(0, 4);
    KeysFromJoin(2, 2, 1);
    KeysFromSize(2, 3);
    KeysFromJoin(2, 3, 3);
    KeysFromSize(2, 6);
    KeysFromJoin(4, 1, 3);
    KeysFromSize(4, 4);
  }

  /** The packer fills up the first chunk, and then the third intent keeps the fourth out. */
  lemma TightPacked(w: Item, x: Item, y: Item, z: Item)
    requires Tight(w, x, y, z)
    ensures var ok := Accepts(TIGHT, TIGHT_ALT); ok([w], x) && !ok([w, x], y) && !ok([y], z)
  {
    TightKeys(w, x, y, z);
    TightSizes();
    PairTotals(w, x, TIGHT_ALT);
    PairTotals(y, z, TIGHT_ALT);
    CanAddWithTables([w], x.fp, TIGHT, TIGHT_ALT);
    CanAddWithTables([w, x], y.fp, TIGHT, TIGHT_ALT);
    CanAddWithTables([y], z.fp, TIGHT, TIGHT_ALT);
  }

  lemma TightOther(w: Item, x: Item, y: Item, z: Item)
    requires Tight(w, x, y, z)
    ensures var ok := Accepts(TIGHT, TIGHT_ALT); ok([x], y) && ok([x, y], z)
  {
    TightKeys(w, x, y, z);
    TightSizes();
    PairTotals(x, y, TIGHT_ALT);
    CanAddWithTables([x], y.fp, TIGHT, TIGHT_ALT);
    CanAddWithTables([x, y], z.fp, TIGHT, TIGHT_ALT);
  }

  lemma TightFits(w: Item, x: Item, y: Item, z: Item)
    requires Tight(w, x, y, z)
    ensures forall i | 0 <= i < 4 :: FitsInEmpty([w, x, y, z][i].fp, TIGHT, TIGHT_ALT)
    ensures forall i | 0 <= i < 4 :: RepeatFree([w, x, y, z][i].fp)
  {
    TightKeys(w, x, y, z);
  }

  /** With tables on the packer can need a chunk too many although no intent repeats a key: it cuts these four intents into
      three chunks although two accepted blocks hold them. */
  lemma TablesCostChunk()
    ensures var ok, items := Accepts(TIGHT, TIGHT_ALT), ItemsOf([0, 1, 2, 3], TightIntents(), TIGHT, ProgramAwareOracle);
      && (forall i | 0 <= i < |items| :: FitsInEmpty(items[i].fp, TIGHT, TIGHT_ALT) && RepeatFree(items[i].fp))
      && IsCut(ok, [items[..1], items[1..]], items) && |Pack(ok, items, [])| == 3
  {
    var w, x, y, z := TightItems();
    var ok, items := Accepts(TIGHT, TIGHT_ALT), [w, x, y, z];
    TightPacked(w, x, y, z);
    TightOther(w, x, y, z);
    TightFits(w, x, y, z);
    PackFour(ok, w, x, y, z);
    CutInTwo(ok, w, x, y, z);
    assert items[..1] == [w] && items[1..] == [x, y, z];
  }
}
