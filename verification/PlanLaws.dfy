/** What the figures of a planned bundle's plans promise. */
module PlanLaws {
  import opened Types
  import opened Shortvec
  import opened Semantics
  import opened Packing
  import opened Chunking
  import opened ChunkLaws
  import opened SlackLaws
  import opened Estimator
  import opened Merging
  import opened MergeLaws
  import opened LayerPlans

  // ---------------------------------------------------------------------------
  // What a merged plan was made of
  // ---------------------------------------------------------------------------

  lemma {:induction false} AbsorbSources(group: ChunkPlan, rest: seq<ChunkPlan>, lim: Limits)
    requires group.intents != []
    ensures var (g, k) := Absorb(group, rest, lim);
      && g.intents == group.intents + IntentsOf(rest[..k])
      && g.estimates == AddEstimates(group.estimates, Totals(rest[..k]))
      && |g.mergedIndices| == |group.mergedIndices| + k
    decreases |rest|
  {
    if rest != [] && Takes(group, rest[0], lim) {
      var joined := Join(group, rest[0]);
      AbsorbSources(joined, rest[1..], lim);
      var k := Absorb(joined, rest[1..], lim).1;
      HeadAndMore(rest, k);
      Reassociate(group.intents, rest[0].intents, IntentsOf(rest[1..][..k]));
    } else {
      assert rest[..0] == [] && group.intents + [] == group.intents;
    }
  }

  lemma Reassociate<T>(a: seq<T>, b: seq<T>, c: seq<T>)
    ensures (a + b) + c == a + (b + c)
  {
  }

  /** `m` holds the intents and the summed figures of `sources`. */
  ghost predicate MadeOf(m: ChunkPlan, sources: seq<ChunkPlan>) {
    && sources != [] && m.intents == IntentsOf(sources) && m.estimates == Totals(sources)
    && (m.mergedIndices == [] <==> |sources| == 1)
  }

  lemma MadeOfOne(m: ChunkPlan, p: ChunkPlan)
    requires m.intents == p.intents && m.estimates == p.estimates && m.mergedIndices == []
    ensures MadeOf(m, [p])
  {
    assert [p][1..] == [] && p.intents + [] == p.intents;
  }

  /** How many plans the first one absorbs. */
  function Taken(plans: seq<ChunkPlan>, lim: Limits): (k: nat)
    requires plans != []
    ensures k < |plans|
  {
    if plans[0].intents != [] && Small(plans[0], lim) then Absorb(Cleared(plans[0]), plans[1..], lim).1 else 0
  }

  lemma MergeUnfolds(plans: seq<ChunkPlan>, lim: Limits) returns (first: ChunkPlan)
    requires plans != []
    ensures Merge(plans, lim) == [first] + Merge(plans[Taken(plans, lim) + 1..], lim)
    ensures first == if plans[0].intents == [] then plans[0]
                     else if !Small(plans[0], lim) then Cleared(plans[0]) else Absorb(Cleared(plans[0]), plans[1..], lim).0
  {
    var k := Taken(plans, lim);
    assert plans[1..][k..] == plans[k + 1..];
    first := Merge(plans, lim)[0];
  }

  lemma FirstSources(plans: seq<ChunkPlan>, lim: Limits, first: ChunkPlan)
    requires plans != [] && plans[0].mergedIndices == []
    requires first == if plans[0].intents == [] then plans[0]
                      else if !Small(plans[0], lim) then Cleared(plans[0]) else Absorb(Cleared(plans[0]), plans[1..], lim).0
    ensures MadeOf(first, plans[..Taken(plans, lim) + 1])
  {
    var k := Taken(plans, lim);
    HeadAndMore(plans, k);
    if plans[0].intents != [] && Small(plans[0], lim) {
      AbsorbSources(Cleared(plans[0]), plans[1..], lim);
    } else {
      MadeOfOne(first, plans[0]);
      assert plans[..1] == [plans[0]];
    }
  }

  lemma HeadAndMore(plans: seq<ChunkPlan>, k: nat)
    requires k < |plans|
    ensures IntentsOf(plans[..k + 1]) == plans[0].intents + IntentsOf(plans[1..][..k])
    ensures Totals(plans[..k + 1]) == AddEstimates(plans[0].estimates, Totals(plans[1..][..k]))
  {
    assert plans[..k + 1][1..] == plans[1..][..k];
  }

  /** `m` is made of a stretch of `plans`. */
  ghost predicate MadeWithin(m: ChunkPlan, plans: seq<ChunkPlan>) {
    exists i, j :: 0 <= i < j <= |plans| && MadeOf(m, plans[i..j])
  }

  lemma MadeLater(m: ChunkPlan, plans: seq<ChunkPlan>, k: nat)
    requires k <= |plans| && MadeWithin(m, plans[k..])
    ensures MadeWithin(m, plans)
  {
    var i, j :| 0 <= i < j <= |plans[k..]| && MadeOf(m, plans[k..][i..j]);
    SliceOfRest(plans, k, i, j);
  }

  lemma SliceOfRest<T>(s: seq<T>, k: nat, i: nat, j: nat)
    requires k <= |s| && i <= j <= |s| - k
    ensures s[k..][i..j] == s[k + i..k + j]
  {
  }

  lemma MadeFirst(m: ChunkPlan, plans: seq<ChunkPlan>, j: nat)
    requires 0 < j <= |plans| && MadeOf(m, plans[..j])
    ensures MadeWithin(m, plans)
  {
    assert plans[0..j] == plans[..j];
  }

  ghost predicate Unmerged(plans: seq<ChunkPlan>) {
    forall i | 0 <= i < |plans| :: plans[i].mergedIndices == []
  }

  ghost predicate AllMadeWithin(merged: seq<ChunkPlan>, plans: seq<ChunkPlan>) {
    forall n | 0 <= n < |merged| :: MadeWithin(merged[n], plans)
  }

  lemma OneMoreMade(first: ChunkPlan, tail: seq<ChunkPlan>, plans: seq<ChunkPlan>, k: nat)
    requires MadeWithin(first, plans) && k <= |plans| && AllMadeWithin(tail, plans[k..])
    ensures AllMadeWithin([first] + tail, plans)
  {
    forall n | 0 <= n < |tail| ensures MadeWithin(tail[n], plans) {
      MadeLater(tail[n], plans, k);
    }
  }

  /** Every plan after merging is made of a stretch of the plans before. */
  lemma {:induction false} MergeSources(plans: seq<ChunkPlan>, lim: Limits)
    requires Unmerged(plans)
    ensures AllMadeWithin(Merge(plans, lim), plans)
    decreases |plans|
  {
    if plans != [] {
      var k := Taken(plans, lim);
      var first := FirstMade(plans, lim);
      MergeSources(plans[k + 1..], lim);
      OneMoreMade(first, Merge(plans[k + 1..], lim), plans, k + 1);
    }
  }

  lemma FirstMade(plans: seq<ChunkPlan>, lim: Limits) returns (first: ChunkPlan)
    requires plans != [] && Unmerged(plans)
    ensures Merge(plans, lim) == [first] + Merge(plans[Taken(plans, lim) + 1..], lim) && MadeWithin(first, plans)
  {
    first := MergeUnfolds(plans, lim);
    FirstSources(plans, lim, first);
    MadeFirst(first, plans, Taken(plans, lim) + 1);
  }

  // ---------------------------------------------------------------------------
  // Budgets
  // ---------------------------------------------------------------------------

  function BlocksOf(layer: seq<NodeId>, intents: seq<UserIntent>, budget: TxBudget, alt: AltPolicy, oracle: BudgetOracle): seq<Block>
    requires InRange(layer, |intents|)
  {
    Pack(Accepts(budget, alt), ItemsOf(layer, intents, budget, oracle), [])
  }

  /** `p` is the plan of `block`: its intents, and the figures recorded for it. */
  ghost predicate PlanOfBlock(p: ChunkPlan, block: Block, intents: seq<UserIntent>, budget: TxBudget, alt: AltPolicy) {
    && InRange(NodesOf(block), |intents|) && p.intents == Select(intents, NodesOf(block)) && p.mergedIndices == []
    && var a := Fold(block, budget, alt);
       p.estimates == ChunkEstimates(a.cu, a.bytes, |a.keys.tablesRo|, |a.keys.tablesWr|)
  }

  lemma PlanAt(layer: seq<NodeId>, intents: seq<UserIntent>, budget: TxBudget, alt: AltPolicy, oracle: BudgetOracle, k: nat)
    requires InRange(layer, |intents|)
    ensures var plans, blocks := PlansOf(layer, intents, budget, alt, oracle), BlocksOf(layer, intents, budget, alt, oracle);
      |plans| == |blocks| && (k < |blocks| ==> PlanOfBlock(plans[k], blocks[k], intents, budget, alt))
  {
    var blocks := BlocksOf(layer, intents, budget, alt, oracle);
    var chunks := PlannedBlocks(blocks, budget, alt);
    ChunksCoverLayer(layer, intents, budget, alt, oracle);
    ChunkNodesInRange(chunks, |intents|);
    if k < |blocks| {
      assert chunks[k] in chunks;
      RecordedForBlock(blocks[k], budget, alt);
    }
  }

  /** The figures a chunk's plan may have. */
  ghost predicate WithinChunkBudgets(p: ChunkPlan, budget: TxBudget, alt: AltPolicy) {
    && 1 <= |p.intents| <= budget.maxInstructions
    && p.estimates.estCu <= budget.maxCu && p.estimates.estMsgBytes <= budget.maxBytes
    && (var tables := p.estimates.altRo + p.estimates.altWr;
        tables <= alt.maxAltKeys || tables + alt.reserveMessageKeys <= budget.maxUniqueAccounts)
  }

  lemma PlanWithinBudgets(layer: seq<NodeId>, intents: seq<UserIntent>, budget: TxBudget, alt: AltPolicy, oracle: BudgetOracle, k: nat)
    requires InRange(layer, |intents|) && LayerFits(layer, intents, budget, alt, oracle)
    requires k < |PlansOf(layer, intents, budget, alt, oracle)|
    ensures WithinChunkBudgets(PlansOf(layer, intents, budget, alt, oracle)[k], budget, alt)
  {
    var items, blocks := ItemsOf(layer, intents, budget, oracle), BlocksOf(layer, intents, budget, alt, oracle);
    PlanAt(layer, intents, budget, alt, oracle, k);
    assert forall x | x in items :: FitsInEmpty(x.fp, budget, alt);
    ChunksWithinBudgets(items, budget, alt);
    BlockWithinBudgets(PlansOf(layer, intents, budget, alt, oracle)[k], blocks[k], intents, budget, alt);
  }

  lemma BlockWithinBudgets(p: ChunkPlan, block: Block, intents: seq<UserIntent>, budget: TxBudget, alt: AltPolicy)
    requires block != [] && PlanOfBlock(p, block, intents, budget, alt) && WithinBudgets(Fold(block, budget, alt), budget, alt)
    ensures WithinChunkBudgets(p, budget, alt)
  {
    RecordedForBlock(block, budget, alt);
    TablesOfBlock(block, budget, alt);
  }

  lemma LayerUnmerged(layer: seq<NodeId>, intents: seq<UserIntent>, budget: TxBudget, alt: AltPolicy, oracle: BudgetOracle)
    requires InRange(layer, |intents|)
    ensures Unmerged(PlansOf(layer, intents, budget, alt, oracle))
  {
  }

  /** Every plan is within the chunk budgets, if it is a chunk's, or within the limits of merging. */
  ghost predicate PlansBounded(plans: seq<ChunkPlan>, budget: TxBudget, alt: AltPolicy, lim: Limits) {
    forall n | 0 <= n < |plans| ::
      if plans[n].mergedIndices == [] then WithinChunkBudgets(plans[n], budget, alt)
      else plans[n].estimates.estCu <= lim.maxCu && plans[n].estimates.estMsgBytes <= lim.maxMessageBytes
  }

  lemma EveryPlanIsBounded(layer: seq<NodeId>, intents: seq<UserIntent>, budget: TxBudget, alt: AltPolicy, oracle: BudgetOracle, lim: Limits)
    requires InRange(layer, |intents|) && LayerFits(layer, intents, budget, alt, oracle)
    ensures PlansBounded(Merge(PlansOf(layer, intents, budget, alt, oracle), lim), budget, alt, lim)
  {
    var plans := PlansOf(layer, intents, budget, alt, oracle);
    LayerUnmerged(layer, intents, budget, alt, oracle);
    forall k | 0 <= k < |plans| ensures WithinChunkBudgets(plans[k], budget, alt) {
      PlanWithinBudgets(layer, intents, budget, alt, oracle, k);
    }
    MergeKeepsBounds(plans, budget, alt, lim);
  }

  lemma MergeKeepsBounds(plans: seq<ChunkPlan>, budget: TxBudget, alt: AltPolicy, lim: Limits)
    requires Unmerged(plans) && forall k | 0 <= k < |plans| :: WithinChunkBudgets(plans[k], budget, alt)
    ensures PlansBounded(Merge(plans, lim), budget, alt, lim)
  {
    var merged := Merge(plans, lim);
    MergeSources(plans, lim);
    forall n | 0 <= n < |merged|
      ensures if merged[n].mergedIndices == [] then WithinChunkBudgets(merged[n], budget, alt)
              else merged[n].estimates.estCu <= lim.maxCu && merged[n].estimates.estMsgBytes <= lim.maxMessageBytes
    {
      MergedWithinLimits(plans, lim, n);
      assert MadeWithin(merged[n], plans);
      BoundedByOrigin(merged[n], plans, budget, alt);
    }
  }

  lemma BoundedByOrigin(m: ChunkPlan, plans: seq<ChunkPlan>, budget: TxBudget, alt: AltPolicy)
    requires MadeWithin(m, plans) && forall k | 0 <= k < |plans| :: WithinChunkBudgets(plans[k], budget, alt)
    ensures m.intents != [] && (m.mergedIndices == [] ==> WithinChunkBudgets(m, budget, alt))
  {
    var i, j :| 0 <= i < j <= |plans| && MadeOf(m, plans[i..j]);
    assert plans[i..j][0] == plans[i];
    NotEmpty(plans[i..j]);
    if j == i + 1 {
      assert plans[i..j] == [plans[i]];
      OneSource(m, plans[i]);
    }
  }

  lemma OneSource(m: ChunkPlan, p: ChunkPlan)
    requires MadeOf(m, [p])
    ensures m.intents == p.intents && m.estimates == p.estimates
  {
    MadeOfOne(Cleared(p), p);
  }

  lemma NotEmpty(sources: seq<ChunkPlan>)
    requires sources != [] && sources[0].intents != []
    ensures IntentsOf(sources) != []
  {
  }

  // ---------------------------------------------------------------------------
  // The message of a merged plan
  // ---------------------------------------------------------------------------

  lemma {:induction false} TotalSelfJoin(a: Block, b: Block, alt: AltPolicy)
    ensures TotalSelf(a + b, alt) == TotalSelf(a, alt) + TotalSelf(b, alt)
  {
    if b == [] {
      assert a + b == a;
    } else {
      TotalSelfJoin(a, b[..|b| - 1], alt);
      assert (a + b)[..|a + b| - 1] == a + b[..|b| - 1];
    }
  }

  /** The plans of these blocks, one each. */
  ghost predicate PlansOfBlocks(plans: seq<ChunkPlan>, blocks: seq<Block>, intents: seq<UserIntent>, budget: TxBudget, alt: AltPolicy) {
    |plans| == |blocks| && forall k | 0 <= k < |blocks| :: PlanOfBlock(plans[k], blocks[k], intents, budget, alt)
  }

  /** Summed estimates charge every chunk's fixed bytes and slack, and all intents' own bytes. */
  lemma {:induction false} SummedEstimates(plans: seq<ChunkPlan>, blocks: seq<Block>, intents: seq<UserIntent>, budget: TxBudget, alt: AltPolicy)
    requires PlansOfBlocks(plans, blocks, intents, budget, alt)
    ensures Totals(plans).estMsgBytes >= TotalSelf(Joined(blocks), alt)
      + (if |blocks| == 0 then 0 else if |blocks| == 1 then 38 + budget.byteSlack else 76 + 2 * budget.byteSlack)
  {
    if blocks != [] {
      assert PlanOfBlock(plans[0], blocks[0], intents, budget, alt);
      RecordedForBlock(blocks[0], budget, alt);
      SummedEstimates(plans[1..], blocks[1..], intents, budget, alt);
      TotalSelfJoin(blocks[0], Joined(blocks[1..]), alt);
    }
  }

  lemma SelectJoin(intents: seq<UserIntent>, a: Block, b: Block)
    requires InRange(NodesOf(a), |intents|) && InRange(NodesOf(b), |intents|)
    ensures NodesOf(a + b) == NodesOf(a) + NodesOf(b) && InRange(NodesOf(a + b), |intents|)
    ensures Select(intents, NodesOf(a + b)) == Select(intents, NodesOf(a)) + Select(intents, NodesOf(b))
  {
    assert NodesOf(a + b) == NodesOf(a) + NodesOf(b);
  }

  lemma {:induction false} IntentsOfBlocks(plans: seq<ChunkPlan>, blocks: seq<Block>, intents: seq<UserIntent>, budget: TxBudget, alt: AltPolicy)
    requires PlansOfBlocks(plans, blocks, intents, budget, alt)
    ensures InRange(NodesOf(Joined(blocks)), |intents|) && IntentsOf(plans) == Select(intents, NodesOf(Joined(blocks)))
  {
    if blocks != [] {
      assert PlanOfBlock(plans[0], blocks[0], intents, budget, alt);
      IntentsOfBlocks(plans[1..], blocks[1..], intents, budget, alt);
      SelectJoin(intents, blocks[0], Joined(blocks[1..]));
    }
  }

  function IxList(intents: seq<UserIntent>): (ixs: seq<Instruction>)
    ensures |ixs| == |intents|
  {
    seq(|intents|, i requires 0 <= i < |intents| => intents[i].ix)
  }

  /** `block` holds the intents of `m`, and its message, had it been one chunk, is no longer than `m`'s estimate. */
  ghost predicate FitsEstimate(m: ChunkPlan, block: Block, intents: seq<UserIntent>, budget: TxBudget, alt: AltPolicy, oracle: BudgetOracle) {
    && Describes(block, intents, budget, oracle) && IxsOf(block, intents) == IxList(m.intents)
    && MessageBytes(IxsOf(block, intents), ShapeOf(Fold(block, budget, alt))) <= m.estimates.estMsgBytes
  }

  lemma {:induction false} JoinedSize(block: Block, intents: seq<UserIntent>, budget: TxBudget, alt: AltPolicy, oracle: BudgetOracle)
    requires Describes(block, intents, budget, oracle) && |block| >= 2 && (alt.enabled ==> 1 <= alt.perAltIndexByte <= 32)
    ensures MessageBytes(IxsOf(block, intents), ShapeOf(Fold(block, budget, alt)))
         <= 40 + TotalSelf(block, alt) + (if alt.enabled && alt.reserveMessageKeys == 0 then 38 else 9)
  {
    var a := Fold(block, budget, alt);
    SizeExactly(block, intents, budget, alt, oracle);
    RecordedForBlock(block, budget, alt);
    DescribedHaveKeys(block, intents, budget, oracle);
    KeysCharged(block, a, budget, alt);
    SlackIsEnough(a.keys, |block|, alt);
  }

  lemma IxsAreListed(block: Block, intents: seq<UserIntent>, budget: TxBudget, oracle: BudgetOracle)
    requires Describes(block, intents, budget, oracle)
    ensures InRange(NodesOf(block), |intents|) && IxsOf(block, intents) == IxList(Select(intents, NodesOf(block)))
  {
    assert forall i | 0 <= i < |block| :: block[i] in block;
  }

  lemma {:induction false} BlocksDescribed(items: seq<Item>, blocks: seq<Block>, i: nat, j: nat, intents: seq<UserIntent>, budget: TxBudget, oracle: BudgetOracle)
    requires i <= j <= |blocks| && Joined(blocks) == items && Describes(items, intents, budget, oracle)
    ensures Describes(Joined(blocks[i..j]), intents, budget, oracle)
  {
    forall x | x in Joined(blocks[i..j]) ensures x in items {
      var k := InSomeBlock(blocks[i..j], x);
      assert blocks[i..j][k] == blocks[i + k];
      BlockInItems(blocks, i + k, x);
    }
  }

  lemma {:induction false} InSomeBlock(blocks: seq<Block>, x: Item) returns (k: nat)
    requires x in Joined(blocks)
    ensures k < |blocks| && x in blocks[k]
  {
    if x in blocks[0] {
      k := 0;
    } else {
      var l := InSomeBlock(blocks[1..], x);
      k := l + 1;
    }
  }

  lemma ItemsDescribed(layer: seq<NodeId>, intents: seq<UserIntent>, budget: TxBudget, alt: AltPolicy, oracle: BudgetOracle)
    requires InRange(layer, |intents|)
    ensures Describes(ItemsOf(layer, intents, budget, oracle), intents, budget, oracle)
    ensures Joined(BlocksOf(layer, intents, budget, alt, oracle)) == ItemsOf(layer, intents, budget, oracle)
    ensures forall k | 0 <= k < |BlocksOf(layer, intents, budget, alt, oracle)| :: BlocksOf(layer, intents, budget, alt, oracle)[k] != []
  {
    PackIsGreedy(Accepts(budget, alt), ItemsOf(layer, intents, budget, oracle));
  }

  lemma {:induction false} JoinedCount(blocks: seq<Block>)
    requires forall k | 0 <= k < |blocks| :: blocks[k] != []
    ensures |Joined(blocks)| >= |blocks|
  {
    if blocks != [] {
      JoinedCount(blocks[1..]);
    }
  }

  /** Index bytes are between one and a key's length, and without a reserve there is a byte of slack. */
  predicate SizedPolicy(budget: TxBudget, alt: AltPolicy) {
    alt.enabled ==> 1 <= alt.perAltIndexByte <= 32 && (alt.reserveMessageKeys == 0 ==> budget.byteSlack >= 1)
  }

  /** Every plan merged from several stands for one message that is no longer than the plan's estimate. */
  ghost predicate MergedPlansFit(plans: seq<ChunkPlan>, intents: seq<UserIntent>, budget: TxBudget, alt: AltPolicy, oracle: BudgetOracle) {
    SizedPolicy(budget, alt) ==>
      forall n | 0 <= n < |plans| && plans[n].mergedIndices != [] :: FitsSomeMessage(plans[n], intents, budget, alt, oracle)
  }

  ghost predicate FitsSomeMessage(m: ChunkPlan, intents: seq<UserIntent>, budget: TxBudget, alt: AltPolicy, oracle: BudgetOracle) {
    exists block :: FitsEstimate(m, block, intents, budget, alt, oracle)
  }

  lemma MergedPlansOfLayerFit(layer: seq<NodeId>, intents: seq<UserIntent>, budget: TxBudget, alt: AltPolicy, oracle: BudgetOracle, lim: Limits)
    requires InRange(layer, |intents|)
    ensures MergedPlansFit(Merge(PlansOf(layer, intents, budget, alt, oracle), lim), intents, budget, alt, oracle)
  {
    var plans, blocks := PlansOf(layer, intents, budget, alt, oracle), BlocksOf(layer, intents, budget, alt, oracle);
    LayerUnmerged(layer, intents, budget, alt, oracle);
    forall k | 0 <= k < |blocks| ensures |plans| == |blocks| && PlanOfBlock(plans[k], blocks[k], intents, budget, alt) {
      PlanAt(layer, intents, budget, alt, oracle, k);
    }
    PlanAt(layer, intents, budget, alt, oracle, 0);
    ItemsDescribed(layer, intents, budget, alt, oracle);
    MergeFits(ItemsOf(layer, intents, budget, oracle), plans, blocks, intents, budget, alt, oracle, lim);
  }

  lemma MergeFits(items: seq<Item>, plans: seq<ChunkPlan>, blocks: seq<Block>,
                  intents: seq<UserIntent>, budget: TxBudget, alt: AltPolicy, oracle: BudgetOracle, lim: Limits)
    requires PlansOfBlocks(plans, blocks, intents, budget, alt) && Unmerged(plans)
    requires Joined(blocks) == items && Describes(items, intents, budget, oracle) && forall k | 0 <= k < |blocks| :: blocks[k] != []
    ensures MergedPlansFit(Merge(plans, lim), intents, budget, alt, oracle)
  {
    var merged := Merge(plans, lim);
    MergeSources(plans, lim);
    if SizedPolicy(budget, alt) {
      forall n | 0 <= n < |merged| && merged[n].mergedIndices != [] ensures FitsSomeMessage(merged[n], intents, budget, alt, oracle) {
        assert MadeWithin(merged[n], plans);
        StretchFits(items, plans, blocks, merged[n], intents, budget, alt, oracle);
      }
    }
  }

  lemma StretchFits(items: seq<Item>, plans: seq<ChunkPlan>, blocks: seq<Block>, m: ChunkPlan,
                    intents: seq<UserIntent>, budget: TxBudget, alt: AltPolicy, oracle: BudgetOracle)
    requires PlansOfBlocks(plans, blocks, intents, budget, alt) && MadeWithin(m, plans) && m.mergedIndices != []
    requires Joined(blocks) == items && Describes(items, intents, budget, oracle) && forall k | 0 <= k < |blocks| :: blocks[k] != []
    requires SizedPolicy(budget, alt)
    ensures FitsSomeMessage(m, intents, budget, alt, oracle)
  {
    var i, j :| 0 <= i < j <= |plans| && MadeOf(m, plans[i..j]);
    BlocksDescribed(items, blocks, i, j, intents, budget, oracle);
    SliceOfBlocks(plans, blocks, i, j, intents, budget, alt);
    SourcesFit(m, plans[i..j], blocks[i..j], intents, budget, alt, oracle);
  }

  lemma SliceOfBlocks(plans: seq<ChunkPlan>, blocks: seq<Block>, i: nat, j: nat, intents: seq<UserIntent>, budget: TxBudget, alt: AltPolicy)
    requires PlansOfBlocks(plans, blocks, intents, budget, alt) && i <= j <= |plans| && forall k | 0 <= k < |blocks| :: blocks[k] != []
    ensures PlansOfBlocks(plans[i..j], blocks[i..j], intents, budget, alt) && forall k | 0 <= k < |blocks[i..j]| :: blocks[i..j][k] != []
  {
  }

  lemma SourcesFit(m: ChunkPlan, sources: seq<ChunkPlan>, blocks: seq<Block>,
                   intents: seq<UserIntent>, budget: TxBudget, alt: AltPolicy, oracle: BudgetOracle)
    requires PlansOfBlocks(sources, blocks, intents, budget, alt) && MadeOf(m, sources) && m.mergedIndices != []
    requires Describes(Joined(blocks), intents, budget, oracle) && forall k | 0 <= k < |blocks| :: blocks[k] != []
    requires SizedPolicy(budget, alt)
    ensures FitsEstimate(m, Joined(blocks), intents, budget, alt, oracle)
  {
    var block := Joined(blocks);
    JoinedCount(blocks);
    SummedEstimates(sources, blocks, intents, budget, alt);
    IntentsOfBlocks(sources, blocks, intents, budget, alt);
    IxsAreListed(block, intents, budget, oracle);
    JoinedSize(block, intents, budget, alt, oracle);
  }
}
