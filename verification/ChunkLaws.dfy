/** What every chunk of a packed layer satisfies, and why no other cutting uses fewer chunks. */
module ChunkLaws {
  import opened Types
  import opened Sorting
  import opened Shortvec
  import opened Packing
  import opened Chunking
  import opened Estimator

  function KeySet(metas: seq<KeyMeta>): set<Pubkey> {
    set m | m in metas :: m.pubkey
  }

  function BlockKeys(block: Block): set<Pubkey> {
    if block == [] then {} else BlockKeys(block[..|block| - 1]) + KeySet(block[|block| - 1].fp.keys)
  }

  function TotalSelf(block: Block, alt: AltPolicy): nat {
    if block == [] then 0 else TotalSelf(block[..|block| - 1], alt) + block[|block| - 1].fp.SelfBytes(alt)
  }

  function TotalCu(block: Block): nat {
    if block == [] then 0 else TotalCu(block[..|block| - 1]) + block[|block| - 1].fp.cu
  }

  function NodesOf(block: Block): (nodes: seq<NodeId>)
    ensures |nodes| == |block|
  {
    seq(|block|, i requires 0 <= i < |block| => block[i].node)
  }

  // ---------------------------------------------------------------------------
  // What the accumulator holds
  // ---------------------------------------------------------------------------

  /** Message keys and table keys are apart; tables are used only when the reserved message slots are full. */
  ghost predicate Tidy(k: Keys, alt: AltPolicy) {
    && k.message !! k.tables
    && (!alt.enabled ==> k.tables == {})
    && (alt.enabled ==> |k.message| <= alt.reserveMessageKeys)
    && (k.tables != {} ==> |k.message| == alt.reserveMessageKeys)
  }

  /** The table keys are those used read-only and those used writably, kept apart. */
  ghost predicate TablesSplit(k: Keys) {
    k.tablesRo + k.tablesWr == k.tables && k.tablesRo !! k.tablesWr
  }

  lemma AddedApart<T>(a: set<T>, b: set<T>, x: T)
    requires a !! b && x !in a && x !in b
    ensures a + {x} !! b && a !! b + {x} && |a + {x}| == |a| + 1
    ensures (a + {x}) + b == (a + b) + {x} && a + (b + {x}) == (a + b) + {x}
  {
  }

  lemma Known<T>(a: set<T>, b: set<T>, x: T)
    requires x in a || x in b
    ensures a + b == (a + b) + {x}
  {
  }

  lemma {:induction false} InsertKeyEffect(k: Keys, m: KeyMeta, alt: AltPolicy)
    requires Tidy(k, alt)
    ensures Tidy(InsertKey(k, m, alt), alt)
    ensures InsertKey(k, m, alt).All() == k.All() + {m.pubkey}
  {
    var x, r := m.pubkey, InsertKey(k, m, alt);
    if x in k.message || x in k.tables {
      Known(k.message, k.tables, x);
    } else {
      AddedApart(k.message, k.tables, x);
      if alt.enabled && |k.message| >= alt.reserveMessageKeys {
        assert r.message == k.message && r.tables == k.tables + {x};
      } else {
        assert r.message == k.message + {x} && r.tables == k.tables;
      }
    }
  }

  lemma KeySetSnoc(metas: seq<KeyMeta>)
    requires metas != []
    ensures KeySet(metas) == KeySet(metas[..|metas| - 1]) + {metas[|metas| - 1].pubkey}
  {
    var front, last := metas[..|metas| - 1], metas[|metas| - 1];
    assert metas == front + [last];
    assert last in metas;
  }

  lemma UnionAssociates<T>(a: set<T>, b: set<T>, c: set<T>)
    ensures (a + b) + c == a + (b + c)
  {
  }

  lemma {:induction false} InsertKeysEffect(k: Keys, metas: seq<KeyMeta>, alt: AltPolicy)
    requires Tidy(k, alt)
    ensures Tidy(InsertKeys(k, metas, alt), alt)
    ensures InsertKeys(k, metas, alt).All() == k.All() + KeySet(metas)
  {
    if metas == [] {
      assert k.All() + KeySet([]) == k.All();
    } else {
      var front, last := metas[..|metas| - 1], metas[|metas| - 1];
      InsertKeysEffect(k, front, alt);
      InsertKeyEffect(InsertKeys(k, front, alt), last, alt);
      KeySetSnoc(metas);
      UnionAssociates(k.All(), KeySet(front), {last.pubkey});
    }
  }

  lemma OneMore<T>(ks: set<T>, known: set<T>, x: T)
    ensures x in known ==> (ks + {x}) - known == ks - known
    ensures x !in known ==> (ks + {x}) - known == (ks - known) + {x} && |(ks + {x}) - known| <= |ks - known| + 1
    ensures x !in known && x !in ks ==> |(ks + {x}) - known| == |ks - known| + 1
  {
  }

  lemma {:induction false} CountNewAtLeast(known: set<Pubkey>, metas: seq<KeyMeta>)
    ensures |KeySet(metas) - known| <= CountNew(known, metas) <= |metas|
  {
    if metas == [] {
      assert KeySet(metas) == {};
    } else {
      var front, last := metas[..|metas| - 1], metas[|metas| - 1];
      CountNewAtLeast(known, front);
      KeySetSnoc(metas);
      OneMore(KeySet(front), known, last.pubkey);
    }
  }

  lemma {:induction false} NothingNew(known: set<Pubkey>, metas: seq<KeyMeta>)
    requires KeySet(metas) <= known
    ensures CountNew(known, metas) == 0
  {
    if metas != [] {
      KeySetSnoc(metas);
      NothingNew(known, metas[..|metas| - 1]);
      assert metas[|metas| - 1].pubkey in KeySet(metas);
    }
  }

  /** Keys are inserted before the deltas are taken, so what is recorded for an intent leaves out the
      growth of the key count and every table overhead. */
  lemma RecordedForOne(a: Acc, nid: NodeId, fp: Footprint, alt: AltPolicy)
    requires Tidy(a.keys, alt)
    ensures var r := AddTo(a, nid, fp, alt);
      && Tidy(r.keys, alt)
      && r.keys.All() == a.keys.All() + KeySet(fp.keys)
      && r.bytes == a.bytes + fp.SelfBytes(alt) + TableLen(a.instrs + 1) - TableLen(a.instrs)
      && r.altUsed == a.altUsed
  {
    var k := InsertKeys(a.keys, fp.keys, alt);
    InsertKeysEffect(a.keys, fp.keys, alt);
    NothingNew(k.All(), fp.keys);
  }

  /** What the accumulator holds after `block`, in closed form. */
  ghost predicate Records(a: Acc, block: Block, budget: TxBudget, alt: AltPolicy) {
    && Tidy(a.keys, alt) && a.keys.All() == BlockKeys(block)
    && a.nodes == NodesOf(block) && a.instrs == |block| && a.cu == TotalCu(block) && !a.altUsed
    && a.bytes == BASE_MESSAGE_OVERHEAD + budget.byteSlack + 2 + TableLen(|block|) + TotalSelf(block, alt)
  }

  lemma TotalsSnoc(front: Block, last: Item, alt: AltPolicy)
    ensures NodesOf(front + [last]) == NodesOf(front) + [last.node]
    ensures BlockKeys(front + [last]) == BlockKeys(front) + KeySet(last.fp.keys)
    ensures TotalSelf(front + [last], alt) == TotalSelf(front, alt) + last.fp.SelfBytes(alt)
    ensures TotalCu(front + [last]) == TotalCu(front) + last.fp.cu
  {
    assert (front + [last])[..|front|] == front;
  }

  lemma RecordsStep(a: Acc, front: Block, last: Item, budget: TxBudget, alt: AltPolicy)
    requires Records(a, front, budget, alt)
    ensures Records(AddTo(a, last.node, last.fp, alt), front + [last], budget, alt)
  {
    RecordedForOne(a, last.node, last.fp, alt);
    TotalsSnoc(front, last, alt);
  }

  /** The accumulator never notices that it uses tables, and its byte count is a plain sum. */
  lemma {:induction false} RecordedForBlock(block: Block, budget: TxBudget, alt: AltPolicy)
    ensures Records(Fold(block, budget, alt), block, budget, alt)
  {
    if block == [] {
      assert Keys({}, {}, {}, {}).All() == {};
    } else {
      var front, last := block[..|block| - 1], block[|block| - 1];
      assert block == front + [last];
      RecordedForBlock(front, budget, alt);
      RecordsStep(Fold(front, budget, alt), front, last, budget, alt);
    }
  }

  lemma {:induction false} InsertKeysSplit(k: Keys, metas: seq<KeyMeta>, alt: AltPolicy)
    requires TablesSplit(k) && k.message !! k.tables
    ensures TablesSplit(InsertKeys(k, metas, alt))
  {
    if metas != [] {
      InsertKeysSplit(k, metas[..|metas| - 1], alt);
    }
  }

  /** The read-only and writable table counts of a chunk add up to its table keys. */
  lemma {:induction false} TablesOfBlock(block: Block, budget: TxBudget, alt: AltPolicy)
    ensures var k := Fold(block, budget, alt).keys;
      TablesSplit(k) && |k.tablesRo| + |k.tablesWr| == |k.tables|
  {
    if block != [] {
      var front := block[..|block| - 1];
      TablesOfBlock(front, budget, alt);
      RecordedForBlock(front, budget, alt);
      InsertKeysSplit(Fold(front, budget, alt).keys, block[|block| - 1].fp.keys, alt);
      var k := Fold(block, budget, alt).keys;
    }
  }

  // ---------------------------------------------------------------------------
  // Budgets
  // ---------------------------------------------------------------------------

  /** Bytes, instructions and compute units are within budget; message keys are within the budget and the
      reserve; table keys are within the policy or within what overflows the reserve. */
  ghost predicate WithinBudgets(a: Acc, budget: TxBudget, alt: AltPolicy) {
    && a.bytes <= budget.maxBytes
    && a.instrs <= budget.maxInstructions
    && a.cu <= budget.maxCu
    && KeysWithinBudgets(a.keys, budget, alt)
  }

  ghost predicate KeysWithinBudgets(k: Keys, budget: TxBudget, alt: AltPolicy) {
    && |k.message| <= budget.maxUniqueAccounts
    && (alt.enabled ==> |k.message| <= alt.reserveMessageKeys)
    && (|k.tables| <= alt.maxAltKeys || |k.tables| + alt.reserveMessageKeys <= budget.maxUniqueAccounts)
  }

  lemma KeyTotals(k: Keys, r: Keys, fp: Footprint, alt: AltPolicy)
    requires Tidy(k, alt) && Tidy(r, alt) && r.All() == k.All() + KeySet(fp.keys)
    ensures |r.message| + |r.tables| == |k.message| + |k.tables| + |KeySet(fp.keys) - k.All()|
    ensures |KeySet(fp.keys) - k.All()| <= CountNew(k.All(), fp.keys)
    ensures |r.tables| > 0 ==> |r.message| == alt.reserveMessageKeys
  {
    var known := k.All();
    var more := KeySet(fp.keys) - known;
    CountNewAtLeast(known, fp.keys);
    assert r.All() == known + more;
  }

  lemma FirstWithinBudgets(item: Item, budget: TxBudget, alt: AltPolicy)
    requires FitsInEmpty(item.fp, budget, alt)
    ensures WithinBudgets(AddTo(EmptyAcc(budget), item.node, item.fp, alt), budget, alt)
  {
    var a := EmptyAcc(budget);
    var r := AddTo(a, item.node, item.fp, alt);
    RecordedForOne(a, item.node, item.fp, alt);
    assert r.bytes <= SizeIfOnlyThis(item.fp, budget, alt);
    assert KeysWithinBudgets(r.keys, budget, alt) by {
      FirstKeys(r.keys, item.fp, budget, alt);
    }
  }

  lemma FirstKeys(r: Keys, fp: Footprint, budget: TxBudget, alt: AltPolicy)
    requires Tidy(r, alt) && r.All() == Keys({}, {}, {}, {}).All() + KeySet(fp.keys)
    requires fp.MessageUniqueLen(alt) <= budget.maxUniqueAccounts && fp.AltUniqueLen(alt) <= alt.maxAltKeys
    ensures KeysWithinBudgets(r, budget, alt)
  {
    var none := Keys({}, {}, {}, {});
    KeyTotals(none, r, fp, alt);
    CountNewAtLeast(none.All(), fp.keys);
  }

  lemma NextKeys(k: Keys, r: Keys, fp: Footprint, budget: TxBudget, alt: AltPolicy)
    requires Tidy(k, alt) && Tidy(r, alt) && r.All() == k.All() + KeySet(fp.keys)
    requires KeysWithinBudgets(k, budget, alt)
    requires |k.message| + NewMessageKeys(k, fp, alt) <= budget.maxUniqueAccounts
    requires |k.tables| + NewAltKeys(k, fp, alt) <= alt.maxAltKeys
    ensures KeysWithinBudgets(r, budget, alt)
  {
    KeyTotals(k, r, fp, alt);
    assert |k.tables| == 0 <==> k.tables == {};
  }

  lemma NextBytes(a: Acc, fp: Footprint, alt: AltPolicy)
    ensures fp.SelfBytes(alt) + TableLen(a.instrs + 1) - TableLen(a.instrs) <= AddBytes(a.keys, a.instrs, fp, alt)
  {
  }

  lemma NextWithinBudgets(a: Acc, item: Item, budget: TxBudget, alt: AltPolicy)
    requires Tidy(a.keys, alt) && WithinBudgets(a, budget, alt) && CanAdd(a, item.fp, budget, alt)
    ensures WithinBudgets(AddTo(a, item.node, item.fp, alt), budget, alt)
  {
    var r := AddTo(a, item.node, item.fp, alt);
    RecordedForOne(a, item.node, item.fp, alt);
    NextBytes(a, item.fp, alt);
    assert KeysWithinBudgets(r.keys, budget, alt) by {
      NextKeys(a.keys, r.keys, item.fp, budget, alt);
    }
  }

  lemma FoldSnoc(front: Block, last: Item, budget: TxBudget, alt: AltPolicy)
    ensures Fold(front + [last], budget, alt) == AddTo(Fold(front, budget, alt), last.node, last.fp, alt)
  {
    assert (front + [last])[..|front|] == front;
  }

  lemma AcceptedLast(front: Block, last: Item, budget: TxBudget, alt: AltPolicy)
    requires front != [] && Accepted(Accepts(budget, alt), front + [last])
    ensures Accepted(Accepts(budget, alt), front) && Accepts(budget, alt)(front, last)
  {
    var block := front + [last];
    assert block[..|front|] == front;
    AcceptedPrefix(Accepts(budget, alt), block, |front|);
    assert Accepts(budget, alt)(block[..|front|], block[|front|]);
  }

  lemma {:induction false} AcceptedWithinBudgets(block: Block, budget: TxBudget, alt: AltPolicy)
    requires Accepted(Accepts(budget, alt), block) && FitsInEmpty(block[0].fp, budget, alt)
    ensures WithinBudgets(Fold(block, budget, alt), budget, alt)
  {
    var front, last := block[..|block| - 1], block[|block| - 1];
    assert block == front + [last];
    if front == [] {
      FoldSnoc([], last, budget, alt);
      FirstWithinBudgets(last, budget, alt);
    } else {
      AcceptedLast(front, last, budget, alt);
      AcceptedWithinBudgets(front, budget, alt);
      LastWithinBudgets(front, last, budget, alt);
    }
  }

  lemma LastWithinBudgets(front: Block, last: Item, budget: TxBudget, alt: AltPolicy)
    requires WithinBudgets(Fold(front, budget, alt), budget, alt) && Accepts(budget, alt)(front, last)
    ensures WithinBudgets(Fold(front + [last], budget, alt), budget, alt)
  {
    RecordedForBlock(front, budget, alt);
    NextWithinBudgets(Fold(front, budget, alt), last, budget, alt);
    FoldSnoc(front, last, budget, alt);
  }

  lemma {:induction false} BlockInItems(blocks: seq<Block>, k: nat, x: Item)
    requires k < |blocks| && x in blocks[k]
    ensures x in Joined(blocks)
  {
    if k > 0 { BlockInItems(blocks[1..], k - 1, x); }
  }

  /** Every chunk of a layer whose intents all fit on their own is within the budgets, and the chunks
      are a greedy cutting of the layer. */
  lemma ChunksWithinBudgets(items: seq<Item>, budget: TxBudget, alt: AltPolicy)
    requires forall x | x in items :: FitsInEmpty(x.fp, budget, alt)
    ensures var blocks := Pack(Accepts(budget, alt), items, []);
      && GreedyCut(Accepts(budget, alt), blocks, items)
      && forall k | 0 <= k < |blocks| :: WithinBudgets(Fold(blocks[k], budget, alt), budget, alt)
  {
    var ok := Accepts(budget, alt);
    var blocks := Pack(ok, items, []);
    PackIsGreedy(ok, items);
    forall k | 0 <= k < |blocks| ensures WithinBudgets(Fold(blocks[k], budget, alt), budget, alt) {
      assert Accepted(ok, blocks[k]);
      BlockInItems(blocks, k, blocks[k][0]);
      AcceptedWithinBudgets(blocks[k], budget, alt);
    }
  }

  /** The policy's bound on table keys holds after adding an intent exactly when the new keys beyond the
      reserve fit it; `CanAdd` does not look at them while the message has room. */
  lemma TableBoundExactly(a: Acc, item: Item, budget: TxBudget, alt: AltPolicy)
    requires Tidy(a.keys, alt) && CanAdd(a, item.fp, budget, alt)
    ensures |AddTo(a, item.node, item.fp, alt).keys.tables| <= alt.maxAltKeys
       <==> (alt.enabled && |a.keys.message| < alt.reserveMessageKeys ==>
              |a.keys.message| + |KeySet(item.fp.keys) - a.keys.All()| <= alt.reserveMessageKeys + alt.maxAltKeys)
  {
    var r := AddTo(a, item.node, item.fp, alt);
    RecordedForOne(a, item.node, item.fp, alt);
    KeyTotals(a.keys, r.keys, item.fp, alt);
    assert |a.keys.tables| == 0 <==> a.keys.tables == {};
  }

  // ---------------------------------------------------------------------------
  // The debug assertion
  // ---------------------------------------------------------------------------

  lemma {:induction false} AllNew(metas: seq<KeyMeta>)
    ensures CountNew({}, metas) == |metas|
  {
    if metas != [] { AllNew(metas[..|metas| - 1]); }
  }

  /** For every policy, an intent that fits on its own can be added to an empty accumulator exactly when all its keys go
      to tables at once, or all of them, which `CanAdd` counts as message keys, fit the message and the byte budget. */
  lemma FitsMeansCanAddExactly(fp: Footprint, budget: TxBudget, alt: AltPolicy)
    requires FitsInEmpty(fp, budget, alt)
    ensures !alt.enabled ==> CanAdd(EmptyAcc(budget), fp, budget, alt)
    ensures alt.enabled ==>
      (CanAdd(EmptyAcc(budget), fp, budget, alt) <==>
        || alt.reserveMessageKeys == 0
        || (&& |fp.keys| <= budget.maxUniqueAccounts
            && BASE_MESSAGE_OVERHEAD + budget.byteSlack + 2 + TableLen(|fp.keys|) + fp.SelfBytes(alt) <= budget.maxBytes))
  {
    AllNew(fp.keys);
    var none := EmptyAcc(budget).keys;
    assert none.All() == {};
    assert CountNew(none.All(), fp.keys) == |fp.keys|;
  }

  /** When a table costs at least two bytes, the number of keys alone decides. */
  lemma FitsMeansCanAddByKeys(fp: Footprint, budget: TxBudget, alt: AltPolicy)
    requires FitsInEmpty(fp, budget, alt) && alt.enabled && alt.tableCountEstimate * alt.perTableFixedBytes >= 2
    ensures CanAdd(EmptyAcc(budget), fp, budget, alt) <==> alt.reserveMessageKeys == 0 || |fp.keys| <= budget.maxUniqueAccounts
  {
    FitsMeansCanAddExactly(fp, budget, alt);
  }

  /** Three keys, two reserved message slots and room for two message keys: the intent fits on its own, one key in a table,
      and cannot be added. */
  lemma FitsButCannotAdd(k: Pubkey, l: Pubkey, m: Pubkey)
    ensures var fp, budget, alt := Footprint([KeyMeta(k, false), KeyMeta(l, false), KeyMeta(m, false)], 3, 1),
                                   TxBudget(1200, 64, 2, 30, 1, 1), AltPolicy(true, 2, 64, 1, 34, 1);
      FitsInEmpty(fp, budget, alt) && !CanAdd(EmptyAcc(budget), fp, budget, alt)
  {
    FitsMeansCanAddExactly(Footprint([KeyMeta(k, false), KeyMeta(l, false), KeyMeta(m, false)], 3, 1),
      TxBudget(1200, 64, 2, 30, 1, 1), AltPolicy(true, 2, 64, 1, 34, 1));
  }

  /** Without lookup tables the two checks are the same check. */
  lemma FitsIsCanAddWithoutTables(fp: Footprint, budget: TxBudget, alt: AltPolicy)
    requires !alt.enabled
    ensures FitsInEmpty(fp, budget, alt) <==> CanAdd(EmptyAcc(budget), fp, budget, alt)
  {
    AllNew(fp.keys);
    var none := EmptyAcc(budget).keys;
    assert none.All() == {};
    assert CountNew(none.All(), fp.keys) == |fp.keys|;
  }

  // ---------------------------------------------------------------------------
  // Greedy uses the fewest chunks (no lookup tables, no repeated key in an intent)
  // ---------------------------------------------------------------------------

  ghost predicate RepeatFree(fp: Footprint) {
    fp.keys != [] && forall i, j | 0 <= i < j < |fp.keys| :: fp.keys[i].pubkey != fp.keys[j].pubkey
  }

  lemma {:induction false} CountNewExact(known: set<Pubkey>, metas: seq<KeyMeta>)
    requires forall i, j | 0 <= i < j < |metas| :: metas[i].pubkey != metas[j].pubkey
    ensures CountNew(known, metas) == |KeySet(metas) - known|
  {
    if metas == [] {
      assert KeySet(metas) == {};
    } else {
      var front, last := metas[..|metas| - 1], metas[|metas| - 1];
      CountNewExact(known, front);
      KeySetSnoc(metas);
      OneMore(KeySet(front), known, last.pubkey);
    }
  }

  lemma {:induction false} TotalsCons(x: Item, c: Block, alt: AltPolicy)
    ensures TotalSelf([x] + c, alt) == x.fp.SelfBytes(alt) + TotalSelf(c, alt)
    ensures TotalCu([x] + c) == x.fp.cu + TotalCu(c)
    ensures BlockKeys([x] + c) == KeySet(x.fp.keys) + BlockKeys(c)
  {
    var b := [x] + c;
    if c == [] {
      assert b[..0] == [] && b == [x];
    } else {
      var front := c[..|c| - 1];
      assert b[..|b| - 1] == [x] + front;
      TotalsCons(x, front, alt);
    }
  }

  lemma {:induction false} NewWithoutTables(k: Keys, fp: Footprint, alt: AltPolicy)
    requires !alt.enabled && Tidy(k, alt) && RepeatFree(fp)
    ensures k.All() == k.message && NewAltKeys(k, fp, alt) == 0
    ensures |k.message| + NewMessageKeys(k, fp, alt) == |k.message + KeySet(fp.keys)|
  {
    CountNewExact(k.message, fp.keys);
    assert k.All() == k.message;
  }

  /** `CanAdd` without tables, for an intent that repeats no key. */
  lemma {:induction false} CanAddWithoutTables(block: Block, fp: Footprint, budget: TxBudget, alt: AltPolicy)
    requires !alt.enabled && RepeatFree(fp)
    ensures var keys := BlockKeys(block);
      CanAdd(Fold(block, budget, alt), fp, budget, alt) <==>
        && BASE_MESSAGE_OVERHEAD + budget.byteSlack + 2 + TotalSelf(block, alt) + fp.SelfBytes(alt)
             + DeltaSv(|keys|, |keys + KeySet(fp.keys)|) + TableLen(|block| + 1) <= budget.maxBytes
        && |keys + KeySet(fp.keys)| <= budget.maxUniqueAccounts
        && |block| + 1 <= budget.maxInstructions
        && TotalCu(block) + fp.cu <= budget.maxCu
  {
    var a := Fold(block, budget, alt);
    RecordedForBlock(block, budget, alt);
    NewWithoutTables(a.keys, fp, alt);
  }

  /** An intent that a block can take, the same block without its first intent can take too. */
  lemma DropFirstKeepsRoom(x: Item, c: Block, fp: Footprint, budget: TxBudget, alt: AltPolicy)
    requires !alt.enabled && RepeatFree(fp) && RepeatFree(x.fp)
    requires CanAdd(Fold([x] + c, budget, alt), fp, budget, alt)
    ensures CanAdd(Fold(c, budget, alt), fp, budget, alt)
  {
    var keys, keys' := BlockKeys([x] + c), BlockKeys(c);
    TotalsCons(x, c, alt);
    CanAddWithoutTables([x] + c, fp, budget, alt);
    CanAddWithoutTables(c, fp, budget, alt);
    assert keys' + KeySet(fp.keys) <= keys + KeySet(fp.keys);
    SubsetSize(keys' + KeySet(fp.keys), keys + KeySet(fp.keys));
    assert x.fp.SelfBytes(alt) >= 32;
    SmallDeltas(|keys'|, |keys' + KeySet(fp.keys)|, |c|);
  }

  lemma SmallDeltas(old': nat, new': nat, count: nat)
    ensures DeltaSv(old', new') <= 2 && TableLen(count + 1) <= TableLen(count + 2)
  {
  }

  lemma {:induction false} DroppingKeepsAccepted(items: seq<Item>, budget: TxBudget, alt: AltPolicy)
    requires !alt.enabled && forall x | x in items :: RepeatFree(x.fp)
    ensures DropClosed(Accepts(budget, alt), items)
  {
    var ok := Accepts(budget, alt);
    forall b: Block | Accepted(ok, b) && |b| > 1 && (forall x | x in b :: x in items) ensures Accepted(ok, b[1..]) {
      forall i: nat | 1 <= i < |b| - 1 ensures ok(b[1..][..i], b[1..][i]) {
        assert ok(b[..i + 1], b[i + 1]);
        assert b[0] in b && b[i + 1] in b;
        DropOne(b, i, budget, alt);
      }
    }
  }

  lemma DropOne(b: Block, i: nat, budget: TxBudget, alt: AltPolicy)
    requires !alt.enabled && i + 1 < |b| && RepeatFree(b[0].fp) && RepeatFree(b[i + 1].fp)
    requires Accepts(budget, alt)(b[..i + 1], b[i + 1])
    ensures Accepts(budget, alt)(b[1..][..i], b[1..][i])
  {
    assert b[..i + 1] == [b[0]] + b[1..][..i];
    DropFirstKeepsRoom(b[0], b[1..][..i], b[i + 1].fp, budget, alt);
  }

  /** Without lookup tables and without repeated keys, no cutting of the layer into blocks the
      accumulator accepts has fewer blocks than the packer's. */
  lemma FewestChunks(items: seq<Item>, others: seq<Block>, budget: TxBudget, alt: AltPolicy)
    requires !alt.enabled && forall x | x in items :: RepeatFree(x.fp)
    requires IsCut(Accepts(budget, alt), others, items)
    ensures |Pack(Accepts(budget, alt), items, [])| <= |others|
  {
    DroppingKeepsAccepted(items, budget, alt);
    FewestBlocks(Accepts(budget, alt), items, others);
  }

  // ---------------------------------------------------------------------------
  // The recorded bytes against the reference size
  // ---------------------------------------------------------------------------

  /** Key bytes the planner charges for `t` keys: message slots up to the reserve, table indices beyond. */
  function KeyBytes(t: nat, alt: AltPolicy): nat {
    if !alt.enabled then t * 32
    else Min(t, alt.reserveMessageKeys) * 32 + SaturatingSub(t, alt.reserveMessageKeys) * alt.perAltIndexByte
  }

  function TotalKeyBytes(block: Block, alt: AltPolicy): nat {
    if block == [] then 0 else TotalKeyBytes(block[..|block| - 1], alt) + KeyBytes(|block[|block| - 1].fp.keys|, alt)
  }

  function TotalIxBytes(block: Block): nat {
    if block == [] then 0 else TotalIxBytes(block[..|block| - 1]) + block[|block| - 1].fp.instrBytes
  }

  lemma {:induction false} SelfIsKeysAndIx(block: Block, alt: AltPolicy)
    ensures TotalSelf(block, alt) == TotalKeyBytes(block, alt) + TotalIxBytes(block)
  {
    if block != [] { SelfIsKeysAndIx(block[..|block| - 1], alt); }
  }

  /** The sums over a block of one and of two intents. */
  lemma PairTotals(a: Item, b: Item, alt: AltPolicy)
    ensures BlockKeys([a]) == KeySet(a.fp.keys) && BlockKeys([a, b]) == KeySet(a.fp.keys) + KeySet(b.fp.keys)
    ensures TotalSelf([a], alt) == a.fp.SelfBytes(alt) && TotalSelf([a, b], alt) == a.fp.SelfBytes(alt) + b.fp.SelfBytes(alt)
    ensures TotalKeyBytes([a, b], alt) == KeyBytes(|a.fp.keys|, alt) + KeyBytes(|b.fp.keys|, alt)
    ensures TotalCu([a]) == a.fp.cu && TotalCu([a, b]) == a.fp.cu + b.fp.cu
  {
    assert [a][..0] == [] && [a, b][..1] == [a];
    assert TotalKeyBytes([a], alt) == KeyBytes(|a.fp.keys|, alt);
  }

  lemma ScaledGap(a: nat, b: nat, p: nat)
    requires a <= b && p <= 32
    ensures a * p <= b * p && (b - a) * p == b * p - a * p && (b - a) * p <= (b - a) * 32
  {
    Distributes(b, a, p);
    NotNegative(b - a, p);
    NotNegative(b - a, 32 - p);
    Distributes(32, p, b - a);
  }

  lemma Distributes(b: int, a: int, p: int)
    ensures (b - a) * p == b * p - a * p
  {
  }

  lemma NotNegative(n: nat, p: nat)
    ensures n * p >= 0
  {
  }

  /** Charging keys together never costs more than charging them apart. */
  lemma {:induction false} KeyBytesSubadditive(a: nat, b: nat, c: nat, alt: AltPolicy)
    requires alt.enabled ==> alt.perAltIndexByte <= 32
    requires c <= a + b
    ensures KeyBytes(c, alt) <= KeyBytes(a, alt) + KeyBytes(b, alt)
  {
    if alt.enabled {
      var r, p := alt.reserveMessageKeys, alt.perAltIndexByte;
      var mc, ma, mb := Min(c, r), Min(a, r), Min(b, r);
      var tc, ta, tb := SaturatingSub(c, r), SaturatingSub(a, r), SaturatingSub(b, r);
      assert mc + tc <= ma + ta + (mb + tb) && mc <= ma + mb;
      assert (ta + tb) * p == ta * p + tb * p;
      if tc <= ta + tb {
        ScaledGap(tc, ta + tb, p);
      } else {
        ScaledGap(ta + tb, tc, p);
      }
    }
  }

  lemma {:induction false} KeyBytesOfBlock(block: Block, alt: AltPolicy)
    requires alt.enabled ==> alt.perAltIndexByte <= 32
    ensures KeyBytes(|BlockKeys(block)|, alt) <= TotalKeyBytes(block, alt)
  {
    if block != [] {
      var front, metas := block[..|block| - 1], block[|block| - 1].fp.keys;
      KeyBytesOfBlock(front, alt);
      var known := BlockKeys(front);
      CountNewAtLeast(known, metas);
      KeyBytesSubadditive(|known|, |metas|, |known + KeySet(metas)|, alt);
    }
  }

  function IxsOf(block: Block, intents: seq<UserIntent>): (ixs: seq<Instruction>)
    requires forall x | x in block :: x.node < |intents|
    ensures |ixs| == |block|
  {
    seq(|block|, i requires 0 <= i < |block| => assert block[i] in block; intents[block[i].node].ix)
  }

  /** The items of `block` carry the footprints of their intents. */
  ghost predicate Describes(block: Block, intents: seq<UserIntent>, budget: TxBudget, oracle: BudgetOracle) {
    forall x | x in block :: x.node < |intents| && x.fp == FootprintOf(intents[x.node], budget, oracle)
  }

  lemma IxsSnoc(front: Block, last: Item, intents: seq<UserIntent>, budget: TxBudget, oracle: BudgetOracle)
    requires Describes(front, intents, budget, oracle) && Describes([last], intents, budget, oracle)
    ensures Describes(front + [last], intents, budget, oracle)
    ensures last.node < |intents| && last.fp.instrBytes == CompiledIxBytes(intents[last.node].ix)
    ensures IxsOf(front + [last], intents) == IxsOf(front, intents) + [intents[last.node].ix]
  {
    assert last in [last];
    assert (front + [last])[..|front|] == front;
  }

  lemma {:induction false} IxBytesOfBlock(block: Block, intents: seq<UserIntent>, budget: TxBudget, oracle: BudgetOracle)
    requires Describes(block, intents, budget, oracle)
    ensures TotalIxBytes(block) == SumCompiledIxBytes(IxsOf(block, intents))
  {
    if block != [] {
      var front, last := block[..|block| - 1], block[|block| - 1];
      assert block == front + [last];
      IxBytesOfBlock(front, intents, budget, oracle);
      IxsSnoc(front, last, intents, budget, oracle);
      var ixs := IxsOf(front, intents);
      assert (ixs + [intents[last.node].ix])[..|ixs|] == ixs;
    }
  }

  /** The shape of a chunk's message: one lookup table if any key went to a table. */
  function ShapeOf(a: Acc): V0MessageShape {
    V0MessageShape(|a.keys.message|,
      if a.keys.tables == {} then [] else [(|a.keys.tablesRo|, |a.keys.tablesWr|)], a.instrs)
  }

  /** What the recorded byte count leaves out for the table. */
  function TableOverhead(k: Keys): nat {
    if k.tables == {} then 0 else 32 + TableLen(|k.tablesRo|) + TableLen(|k.tablesWr|)
  }

  lemma ChargedKeys(k: Keys, alt: AltPolicy)
    requires Tidy(k, alt) && (alt.enabled ==> 1 <= alt.perAltIndexByte)
    ensures 32 * |k.message| + |k.tables| <= KeyBytes(|k.All()|, alt)
  {
    assert |k.tables| == 0 <==> k.tables == {};
    if alt.enabled {
      var t, p := |k.tables|, alt.perAltIndexByte;
      assert SaturatingSub(|k.All()|, alt.reserveMessageKeys) == t;
      assert t * (p - 1) >= 0;
      assert t * p == t * (p - 1) + t;
    }
  }

  /** The reference size of any block's message, slack included, is at most its recorded bytes plus exactly the
      two things the record leaves out: the growth of the key count, and the table. */
  lemma {:induction false} SizeRefinement(block: Block, intents: seq<UserIntent>, budget: TxBudget, alt: AltPolicy, oracle: BudgetOracle)
    requires Describes(block, intents, budget, oracle)
    requires alt.enabled ==> 1 <= alt.perAltIndexByte <= 32
    ensures var a := Fold(block, budget, alt);
      MessageBytes(IxsOf(block, intents), ShapeOf(a)) + budget.byteSlack
        <= a.bytes + (TableLen(|a.keys.message|) - 1) + TableOverhead(a.keys)
  {
    var a := Fold(block, budget, alt);
    RecordedForBlock(block, budget, alt);
    TablesOfBlock(block, budget, alt);
    SelfIsKeysAndIx(block, alt);
    KeyBytesOfBlock(block, alt);
    IxBytesOfBlock(block, intents, budget, oracle);
    ChargedKeys(a.keys, alt);
    LookupOfShape(a);
  }

  lemma LookupOfShape(a: Acc)
    requires TablesSplit(a.keys) && |a.keys.tablesRo| + |a.keys.tablesWr| == |a.keys.tables|
    ensures LookupBytes(ShapeOf(a).lookupTables) == TableOverhead(a.keys) + |a.keys.tables|
    ensures TableLen(|ShapeOf(a).lookupTables|) == 1
  {
    var tables := ShapeOf(a).lookupTables;
    assert a.keys.tables == {} ==> tables == [];
    assert a.keys.tables != {} ==> tables[..|tables| - 1] == [];
  }

  /** Without tables and with two bytes of slack, a chunk's message fits the byte budget. */
  lemma {:induction false} FitsWithoutTables(block: Block, intents: seq<UserIntent>, budget: TxBudget, alt: AltPolicy, oracle: BudgetOracle)
    requires Accepted(Accepts(budget, alt), block) && FitsInEmpty(block[0].fp, budget, alt)
    requires Describes(block, intents, budget, oracle) && !alt.enabled && budget.byteSlack >= 2
    ensures var a := Fold(block, budget, alt);
      MessageBytes(IxsOf(block, intents), ShapeOf(a)) <= a.bytes <= budget.maxBytes
  {
    SizeRefinement(block, intents, budget, alt, oracle);
    AcceptedWithinBudgets(block, budget, alt);
    RecordedForBlock(block, budget, alt);
  }

  /** With one table of fewer than 128 keys a side, the policy's table estimate covers what is left out. */
  lemma {:induction false} FitsWithOneTable(block: Block, intents: seq<UserIntent>, budget: TxBudget, alt: AltPolicy, oracle: BudgetOracle)
    requires Describes(block, intents, budget, oracle)
    requires alt.enabled && 1 <= alt.perAltIndexByte <= 32
    requires alt.tableCountEstimate >= 1 && alt.perTableFixedBytes >= 34
    requires |Fold(block, budget, alt).keys.tablesRo| < 128 && |Fold(block, budget, alt).keys.tablesWr| < 128
    ensures var a := Fold(block, budget, alt);
      MessageBytes(IxsOf(block, intents), ShapeOf(a)) + budget.byteSlack
        <= a.bytes + (TableLen(|a.keys.message|) - 1) + alt.tableCountEstimate * alt.perTableFixedBytes
  {
    SizeRefinement(block, intents, budget, alt, oracle);
    var k := Fold(block, budget, alt).keys;
    assert TableOverhead(k) <= 34;
    AtLeastOnce(alt.tableCountEstimate, alt.perTableFixedBytes);
  }

  lemma AtLeastOnce(times: nat, bytes: nat)
    requires times >= 1
    ensures bytes <= times * bytes
  {
    assert (times - 1) * bytes >= 0;
  }

  // ---------------------------------------------------------------------------
  // A chunk that puts more keys in tables than the policy allows
  // ---------------------------------------------------------------------------

  function Keyed(n: NodeId, first: Byte, count: nat): Item
    requires first + count <= 256
  {
    Item(n, Footprint(seq(count, i requires 0 <= i < count => KeyMeta(UniformKey(first + i), false)), 3, 1))
  }

  /** The two-intent layer of the witness, under two reserved slots and no table keys allowed. */
  function BreakingAlt(): AltPolicy {
    AltPolicy(true, 2, 0, 1, 34, 1)
  }

  lemma WitnessKeySets()
    ensures Keyed(0, 0, 1).fp.keys == [KeyMeta(UniformKey(0), false)]
    ensures Keyed(1, 1, 2).fp.keys == [KeyMeta(UniformKey(1), false), KeyMeta(UniformKey(2), false)]
    ensures UniformKey(0) != UniformKey(1) && UniformKey(0) != UniformKey(2) && UniformKey(1) != UniformKey(2)
  {
    UniformKeysDiffer(0, 1);
    UniformKeysDiffer(0, 2);
    UniformKeysDiffer(1, 2);
  }

  lemma WitnessFirst(x: Item, k0: Pubkey)
    requires x.fp.keys == [KeyMeta(k0, false)] && x.fp.instrBytes == 3 && x.fp.cu == 1
    ensures var a := Fold([x], DEFAULT_BUDGET, BreakingAlt());
      Records(a, [x], DEFAULT_BUDGET, BreakingAlt()) && a.keys.All() == {k0} && |a.keys.message| == 1 && a.keys.tables == {}
  {
    RecordedForBlock([x], DEFAULT_BUDGET, BreakingAlt());
    var k := Fold([x], DEFAULT_BUDGET, BreakingAlt()).keys;
    assert [x][..0] == [];
    assert BlockKeys([x]) == {k0};
    assert |k.All()| == 1;
  }

  lemma WitnessCanAdd(x: Item, y: Item, k0: Pubkey)
    requires x.fp.keys == [KeyMeta(k0, false)] && x.fp.instrBytes == 3 && x.fp.cu == 1
    requires |y.fp.keys| == 2 && y.fp.instrBytes == 3 && y.fp.cu == 1
    ensures CanAdd(Fold([x], DEFAULT_BUDGET, BreakingAlt()), y.fp, DEFAULT_BUDGET, BreakingAlt())
  {
    WitnessFirst(x, k0);
    var a := Fold([x], DEFAULT_BUDGET, BreakingAlt());
    CountNewAtLeast(a.keys.All(), y.fp.keys);
    assert [x][..0] == [];
    assert a.bytes <= 200;
  }

  lemma TwoKeys(a: KeyMeta, b: KeyMeta)
    ensures KeySet([a, b]) == {a.pubkey, b.pubkey}
  {
    KeySetSnoc([a, b]);
    assert [a, b][..1] == [a];
  }

  lemma WitnessOverflows(k: Keys, r: Keys, fp: Footprint, k0: Pubkey, k1: Pubkey, k2: Pubkey)
    requires Tidy(k, BreakingAlt()) && Tidy(r, BreakingAlt()) && r.All() == k.All() + KeySet(fp.keys)
    requires k.All() == {k0} && |k.message| == 1 && k.tables == {}
    requires KeySet(fp.keys) == {k1, k2} && k0 != k1 && k0 != k2 && k1 != k2
    ensures |r.tables| == 1
  {
    KeyTotals(k, r, fp, BreakingAlt());
    assert {k1, k2} - {k0} == {k1, k2};
  }

  /** A one-key intent and then a two-key intent are packed together, and one key lands in a table
      although the policy allows none. */
  lemma TableBoundCanBreak()
    ensures var x, y := Keyed(0, 0, 1), Keyed(1, 1, 2);
      && FitsInEmpty(x.fp, DEFAULT_BUDGET, BreakingAlt()) && FitsInEmpty(y.fp, DEFAULT_BUDGET, BreakingAlt())
      && Accepted(Accepts(DEFAULT_BUDGET, BreakingAlt()), [x, y])
      && |Fold([x, y], DEFAULT_BUDGET, BreakingAlt()).keys.tables| == 1
  {
    var budget, alt := DEFAULT_BUDGET, BreakingAlt();
    var x, y := Keyed(0, 0, 1), Keyed(1, 1, 2);
    WitnessKeySets();
    var k0, k1, k2 := UniformKey(0), UniformKey(1), UniformKey(2);
    WitnessFirst(x, k0);
    WitnessCanAdd(x, y, k0);
    TwoKeys(y.fp.keys[0], y.fp.keys[1]);
    var a := Fold([x], budget, alt);
    RecordedForOne(a, y.node, y.fp, alt);
    WitnessOverflows(a.keys, AddTo(a, y.node, y.fp, alt).keys, y.fp, k0, k1, k2);
    var block := [x, y];
    assert block[..1] == [x];
    assert Accepts(budget, alt)(block[..1], y);
    assert Fold(block, budget, alt) == AddTo(Fold([x], budget, alt), y.node, y.fp, alt);
  }
}
