/** How much slack makes an accepted chunk's message fit the byte budget when keys go to a table. */
module SlackLaws {
  import opened Types
  import opened Shortvec
  import opened Packing
  import opened Chunking
  import opened ChunkLaws
  import opened Estimator

  /** The reference size of any block's message: what the record leaves out is added, and the key bytes it charges are
      replaced by those the message has. */
  lemma {:induction false} SizeExactly(block: Block, intents: seq<UserIntent>, budget: TxBudget, alt: AltPolicy, oracle: BudgetOracle)
    requires Describes(block, intents, budget, oracle)
    ensures var a := Fold(block, budget, alt);
      MessageBytes(IxsOf(block, intents), ShapeOf(a)) + budget.byteSlack + TotalKeyBytes(block, alt)
        == a.bytes + (TableLen(|a.keys.message|) - 1) + TableOverhead(a.keys) + 32 * |a.keys.message| + |a.keys.tables|
  {
    var a := Fold(block, budget, alt);
    RecordedForBlock(block, budget, alt);
    TablesOfBlock(block, budget, alt);
    SelfIsKeysAndIx(block, alt);
    IxBytesOfBlock(block, intents, budget, oracle);
    LookupOfShape(a);
  }

  lemma AtLeastItself(n: nat, p: nat)
    requires p >= 1
    ensures n * p >= n
  {
    NotNegative(n, p - 1);
    Distributes(p, 1, n);
  }

  /** Two groups of keys that together overflow the reserve are charged at least one message slot too many. */
  lemma {:induction false} ChargedApart(a: nat, b: nat, c: nat, alt: AltPolicy)
    requires alt.enabled && alt.reserveMessageKeys >= 1 && alt.perAltIndexByte >= 1
    requires a >= 1 && b >= 1 && alt.reserveMessageKeys < c <= a + b
    ensures 32 * alt.reserveMessageKeys + (c - alt.reserveMessageKeys) + 31 <= KeyBytes(a, alt) + KeyBytes(b, alt)
  {
    var r, p := alt.reserveMessageKeys, alt.perAltIndexByte;
    AtLeastItself(SaturatingSub(a, r), p);
    AtLeastItself(SaturatingSub(b, r), p);
  }

  /** A block of two or more intents whose keys overflow the reserve is charged at least 31 bytes more than its keys take. */
  lemma {:induction false} Overcharged(block: Block, alt: AltPolicy)
    requires alt.enabled && alt.reserveMessageKeys >= 1 && 1 <= alt.perAltIndexByte <= 32
    requires |block| >= 2 && (forall x | x in block :: x.fp.keys != []) && |BlockKeys(block)| > alt.reserveMessageKeys
    ensures 32 * alt.reserveMessageKeys + (|BlockKeys(block)| - alt.reserveMessageKeys) + 31 <= TotalKeyBytes(block, alt)
  {
    var front, metas := block[..|block| - 1], block[|block| - 1].fp.keys;
    assert block[|block| - 1] in block && block[0] in block;
    KeyBytesOfBlock(front, alt);
    CountNewAtLeast(BlockKeys(front), metas);
    HasKeys(front);
    assert BlockKeys(block) == BlockKeys(front) + (KeySet(metas) - BlockKeys(front));
    ChargedApart(|BlockKeys(front)|, |metas|, |BlockKeys(block)|, alt);
  }

  lemma {:induction false} HasKeys(block: Block)
    requires block != [] && forall x | x in block :: x.fp.keys != []
    ensures |BlockKeys(block)| >= 1
  {
    var last := block[|block| - 1];
    assert last in block;
    assert last.fp.keys[0] in last.fp.keys;
    assert last.fp.keys[0].pubkey in KeySet(last.fp.keys);
    assert last.fp.keys[0].pubkey in BlockKeys(block);
  }

  /** Slack that makes up for what the record of a block of `n` intents leaves out. */
  function SlackNeeded(k: Keys, n: nat, alt: AltPolicy): nat {
    var overcharge := if k.tables != {} && n >= 2 && alt.reserveMessageKeys >= 1 then 31 else 0;
    TableLen(|k.message|) - 1 + TableOverhead(k) - overcharge
  }

  lemma DescribedHaveKeys(block: Block, intents: seq<UserIntent>, budget: TxBudget, oracle: BudgetOracle)
    requires Describes(block, intents, budget, oracle)
    ensures forall x | x in block :: x.fp.keys != []
  {
  }

  lemma {:induction false} KeysCharged(block: Block, a: Acc, budget: TxBudget, alt: AltPolicy)
    requires Records(a, block, budget, alt) && (forall x | x in block :: x.fp.keys != [])
    requires alt.enabled ==> 1 <= alt.perAltIndexByte <= 32
    ensures 32 * |a.keys.message| + |a.keys.tables| + TableLen(|a.keys.message|) - 1 + TableOverhead(a.keys)
         <= TotalKeyBytes(block, alt) + SlackNeeded(a.keys, |block|, alt)
  {
    KeyBytesOfBlock(block, alt);
    ChargedKeys(a.keys, alt);
    if a.keys.tables != {} && |block| >= 2 && alt.reserveMessageKeys >= 1 {
      TablesOverflow(a.keys, alt);
      Overcharged(block, alt);
    }
  }

  lemma TablesOverflow(k: Keys, alt: AltPolicy)
    requires Tidy(k, alt) && k.tables != {}
    ensures alt.enabled && |k.message| == alt.reserveMessageKeys && |k.All()| == |k.message| + |k.tables| > alt.reserveMessageKeys
  {
  }

  /** With that much slack an accepted chunk's message fits the byte budget. */
  lemma {:induction false} FitsWithSlack(block: Block, intents: seq<UserIntent>, budget: TxBudget, alt: AltPolicy, oracle: BudgetOracle)
    requires Accepted(Accepts(budget, alt), block) && FitsInEmpty(block[0].fp, budget, alt) && Describes(block, intents, budget, oracle)
    requires alt.enabled ==> 1 <= alt.perAltIndexByte <= 32
    requires budget.byteSlack >= SlackNeeded(Fold(block, budget, alt).keys, |block|, alt)
    ensures MessageBytes(IxsOf(block, intents), ShapeOf(Fold(block, budget, alt))) <= budget.maxBytes
  {
    var a := Fold(block, budget, alt);
    SizeExactly(block, intents, budget, alt, oracle);
    AcceptedWithinBudgets(block, budget, alt);
    RecordedForBlock(block, budget, alt);
    DescribedHaveKeys(block, intents, budget, oracle);
    KeysCharged(block, a, budget, alt);
  }

  /** Slack for a chunk of `n` intents under this policy, whatever its keys are. */
  function EnoughSlack(n: nat, alt: AltPolicy): nat {
    if !alt.enabled then 2 else if alt.reserveMessageKeys == 0 then 38 else if n >= 2 then 9 else 40
  }

  lemma SlackIsEnough(k: Keys, n: nat, alt: AltPolicy)
    requires Tidy(k, alt)
    ensures SlackNeeded(k, n, alt) <= EnoughSlack(n, alt)
  {
    assert alt.enabled && alt.reserveMessageKeys == 0 ==> |k.message| == 0;
  }

  /** Two bytes of slack are enough without tables, nine for every chunk of several intents with a reserve, thirty-eight without
      one, and forty for any chunk: its message fits the byte budget. */
  lemma {:induction false} FitsWithTables(block: Block, intents: seq<UserIntent>, budget: TxBudget, alt: AltPolicy, oracle: BudgetOracle)
    requires Accepted(Accepts(budget, alt), block) && FitsInEmpty(block[0].fp, budget, alt) && Describes(block, intents, budget, oracle)
    requires alt.enabled ==> 1 <= alt.perAltIndexByte <= 32
    requires budget.byteSlack >= EnoughSlack(|block|, alt)
    ensures MessageBytes(IxsOf(block, intents), ShapeOf(Fold(block, budget, alt))) <= budget.maxBytes
  {
    RecordedForBlock(block, budget, alt);
    SlackIsEnough(Fold(block, budget, alt).keys, |block|, alt);
    FitsWithSlack(block, intents, budget, alt, oracle);
  }

  // ---------------------------------------------------------------------------
  // One byte less is not enough
  // ---------------------------------------------------------------------------

  const SCANT := TxBudget(112, 2, 64, 30, 1_200_000, 25_000)

  const SCANT_ALT := AltPolicy(true, 1, 64, 1, 34, 1)

  /** Two programs, the first called with one account. */
  function ScantIntents(k: Pubkey, l: Pubkey, m: Pubkey): seq<UserIntent> {
    [UserIntent(k, Instruction(k, [AccountMeta(l, false, false)], []), [], 0, None), UserIntent(k, Instruction(m, [], []), [], 0, None)]
  }

  function ScantBlock(k: Pubkey, l: Pubkey, m: Pubkey): Block {
    [Item(0, Footprint([KeyMeta(k, false), KeyMeta(l, false)], 4, 25_000)), Item(1, Footprint([KeyMeta(m, false)], 3, 25_000))]
  }

  lemma ScantIsDescribed(k: Pubkey, l: Pubkey, m: Pubkey)
    ensures Describes(ScantBlock(k, l, m), ScantIntents(k, l, m), SCANT, BasicOracle)
  {
    var intents := ScantIntents(k, l, m);
    assert FootprintOf(intents[0], SCANT, BasicOracle).keys == [KeyMeta(k, false), KeyMeta(l, false)];
    assert FootprintOf(intents[1], SCANT, BasicOracle).keys == [KeyMeta(m, false)];
  }

  lemma ScantTotals(k: Pubkey, l: Pubkey, m: Pubkey)
    ensures var block := ScantBlock(k, l, m);
      && BlockKeys([block[0]]) == {k, l} && BlockKeys(block) == {k, l, m}
      && TotalSelf([block[0]], SCANT_ALT) == 37 && TotalSelf(block, SCANT_ALT) == 72
      && TotalKeyBytes(block, SCANT_ALT) == 65 && TotalCu([block[0]]) == 25_000
  {
    var block := ScantBlock(k, l, m);
    assert block == [block[0], block[1]];
    PairTotals(block[0], block[1], SCANT_ALT);
    TwoKeys(block[0].fp.keys[0], block[0].fp.keys[1]);
    assert KeySet(block[1].fp.keys) == {m};
  }

  lemma ScantKeys(k: Keys)
    requires Tidy(k, SCANT_ALT) && |k.All()| >= 2
    ensures |k.message| == 1 && |k.tables| == |k.All()| - 1 && k.tables != {}
  {
    assert |k.All()| == |k.message| + |k.tables|;
  }

  lemma ScantAccepted(k: Pubkey, l: Pubkey, m: Pubkey)
    requires k != l && k != m && l != m
    ensures var block := ScantBlock(k, l, m); Accepted(Accepts(SCANT, SCANT_ALT), block) && FitsInEmpty(block[0].fp, SCANT, SCANT_ALT)
  {
    var block := ScantBlock(k, l, m);
    ScantTotals(k, l, m);
    var a := Fold([block[0]], SCANT, SCANT_ALT);
    RecordedForBlock([block[0]], SCANT, SCANT_ALT);
    assert a.keys.All() == {k, l};
    ScantKeys(a.keys);
    ScantFits(a, block[1].fp);
    assert block[..1] == [block[0]];
    assert Accepts(SCANT, SCANT_ALT)(block[..1], block[1]);
  }

  lemma ScantFits(a: Acc, fp: Footprint)
    requires a.bytes == 77 && a.cu == 25_000 && a.instrs == 1 && |a.keys.message| == 1 && |a.keys.tables| == 1 && a.keys.tables != {}
    requires |fp.keys| == 1 && fp.instrBytes == 3 && fp.cu == 25_000
    ensures CanAdd(a, fp, SCANT, SCANT_ALT)
  {
    CountNewAtLeast(a.keys.All(), fp.keys);
  }

  lemma ScantRecorded(block: Block)
    requires |block| == 2 && TotalSelf(block, SCANT_ALT) == 72 && |BlockKeys(block)| == 3
    ensures var a := Fold(block, SCANT, SCANT_ALT);
      && a.bytes == 112 && |a.keys.message| == 1 && |a.keys.tables| == 2
      && TableOverhead(a.keys) == 34 && SlackNeeded(a.keys, 2, SCANT_ALT) == 3
  {
    RecordedForBlock(block, SCANT, SCANT_ALT);
    TablesOfBlock(block, SCANT, SCANT_ALT);
    var keys := Fold(block, SCANT, SCANT_ALT).keys;
    ScantKeys(keys);
    ScantOverhead(keys);
  }

  lemma ScantOverhead(k: Keys)
    requires |k.message| == 1 && k.tables != {} && |k.tablesRo| + |k.tablesWr| == 2
    ensures TableOverhead(k) == 34 && SlackNeeded(k, 2, SCANT_ALT) == 3
  {
  }

  /** The bound is tight: with a byte less the message of these two intents, packed together, is a byte too long. */
  lemma SlackIsNeeded(k: Pubkey, l: Pubkey, m: Pubkey)
    requires k != l && k != m && l != m
    ensures var block, intents := ScantBlock(k, l, m), ScantIntents(k, l, m);
      var a := Fold(block, SCANT, SCANT_ALT);
      && Accepted(Accepts(SCANT, SCANT_ALT), block) && FitsInEmpty(block[0].fp, SCANT, SCANT_ALT)
      && Describes(block, intents, SCANT, BasicOracle) && SCANT.byteSlack == SlackNeeded(a.keys, 2, SCANT_ALT) - 1
      && MessageBytes(IxsOf(block, intents), ShapeOf(a)) == SCANT.maxBytes + 1
  {
    var block, intents := ScantBlock(k, l, m), ScantIntents(k, l, m);
    ScantAccepted(k, l, m);
    ScantIsDescribed(k, l, m);
    ScantTotals(k, l, m);
    ScantRecorded(block);
    SizeExactly(block, intents, SCANT, SCANT_ALT, BasicOracle);
  }
}
