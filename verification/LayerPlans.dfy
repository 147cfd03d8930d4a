/** Planning one layer: chunks, their intents and figures, and merging. */
module LayerPlans {
  import opened Types
  import opened Semantics
  import opened Packing
  import opened Chunking
  import opened ChunkLaws
  import opened Merging
  import opened MergeLaws

  function Select(intents: seq<UserIntent>, nodes: seq<NodeId>): (r: seq<UserIntent>)
    requires InRange(nodes, |intents|)
    ensures |r| == |nodes| && forall i | 0 <= i < |nodes| :: r[i] == intents[nodes[i]]
  {
    seq(|nodes|, i requires 0 <= i < |nodes| => intents[nodes[i]])
  }

  function NodesOfAll(chunks: seq<PlannedChunk>): seq<NodeId> {
    if chunks == [] then [] else chunks[0].nodeIds + NodesOfAll(chunks[1..])
  }

  /** Turns planned chunks into chunk plans that carry their intents. */
  function Materialised(intents: seq<UserIntent>, chunk: PlannedChunk, index: nat): ChunkPlan
    requires InRange(chunk.nodeIds, |intents|)
  {
    ChunkPlan(index, Select(intents, chunk.nodeIds),
      ChunkEstimates(chunk.estCu, chunk.estMessageBytes, chunk.altReadonly, chunk.altWritable), [])
  }

  method Materialise(intents: seq<UserIntent>, chunks: seq<PlannedChunk>) returns (plans: seq<ChunkPlan>)
    requires forall c | c in chunks :: InRange(c.nodeIds, |intents|)
    ensures |plans| == |chunks|
    ensures forall k | 0 <= k < |chunks| :: InRange(chunks[k].nodeIds, |intents|) && plans[k] == Materialised(intents, chunks[k], k)
  {
    plans := [];
    for k := 0 to |chunks|
      invariant |plans| == k
      invariant forall j | 0 <= j < k :: InRange(chunks[j].nodeIds, |intents|) && plans[j] == Materialised(intents, chunks[j], j)
    {
      assert chunks[k] in chunks;
      plans := plans + [Materialised(intents, chunks[k], k)];
    }
  }

  lemma {:induction false} MaterialisedIntents(intents: seq<UserIntent>, chunks: seq<PlannedChunk>, plans: seq<ChunkPlan>)
    requires |plans| == |chunks|
    requires forall k | 0 <= k < |chunks| :: InRange(chunks[k].nodeIds, |intents|) && plans[k].intents == Select(intents, chunks[k].nodeIds)
    ensures InRange(NodesOfAll(chunks), |intents|) && IntentsOf(plans) == Select(intents, NodesOfAll(chunks))
  {
    if chunks != [] {
      MaterialisedIntents(intents, chunks[1..], plans[1..]);
    }
  }

  lemma {:induction false} JoinedNodes(blocks: seq<Block>, chunks: seq<PlannedChunk>)
    requires |chunks| == |blocks| && forall k | 0 <= k < |blocks| :: chunks[k].nodeIds == NodesOf(blocks[k])
    ensures NodesOfAll(chunks) == NodesOf(Joined(blocks))
  {
    if blocks != [] {
      JoinedNodes(blocks[1..], chunks[1..]);
      assert NodesOf(blocks[0] + Joined(blocks[1..])) == NodesOf(blocks[0]) + NodesOf(Joined(blocks[1..]));
    }
  }

  lemma PlannedNodes(blocks: seq<Block>, budget: TxBudget, alt: AltPolicy)
    ensures NodesOfAll(PlannedBlocks(blocks, budget, alt)) == NodesOf(Joined(blocks))
  {
    var chunks := PlannedBlocks(blocks, budget, alt);
    forall k | 0 <= k < |blocks| ensures chunks[k].nodeIds == NodesOf(blocks[k]) {
      RecordedForBlock(blocks[k], budget, alt);
    }
    JoinedNodes(blocks, chunks);
  }

  /** The chunks of a layer list exactly the layer's nodes, in its order. */
  lemma ChunksCoverLayer(layer: seq<NodeId>, intents: seq<UserIntent>, budget: TxBudget, alt: AltPolicy, oracle: BudgetOracle)
    requires InRange(layer, |intents|)
    ensures var items := ItemsOf(layer, intents, budget, oracle);
      NodesOfAll(PlannedBlocks(Pack(Accepts(budget, alt), items, []), budget, alt)) == layer
  {
    var items := ItemsOf(layer, intents, budget, oracle);
    PackIsGreedy(Accepts(budget, alt), items);
    PlannedNodes(Pack(Accepts(budget, alt), items, []), budget, alt);
    assert NodesOf(items) == layer;
  }

  lemma {:induction false} ChunkNodesInRange(chunks: seq<PlannedChunk>, n: nat)
    requires InRange(NodesOfAll(chunks), n)
    ensures forall c | c in chunks :: InRange(c.nodeIds, n)
  {
    if chunks != [] {
      var all, first, rest := NodesOfAll(chunks), chunks[0].nodeIds, NodesOfAll(chunks[1..]);
      assert forall i | 0 <= i < |first| :: all[i] == first[i];
      assert forall i | 0 <= i < |rest| :: all[|first| + i] == rest[i];
      ChunkNodesInRange(chunks[1..], n);
      assert forall c | c in chunks :: c == chunks[0] || c in chunks[1..];
    }
  }

  /** The plans of a layer before merging: the greedy chunks with their figures and their intents. */
  function PlansOf(layer: seq<NodeId>, intents: seq<UserIntent>, budget: TxBudget, alt: AltPolicy, oracle: BudgetOracle): (plans: seq<ChunkPlan>)
    requires InRange(layer, |intents|)
  {
    var chunks := PlannedBlocks(Pack(Accepts(budget, alt), ItemsOf(layer, intents, budget, oracle), []), budget, alt);
    ChunksCoverLayer(layer, intents, budget, alt, oracle);
    ChunkNodesInRange(chunks, |intents|);
    seq(|chunks|, k requires 0 <= k < |chunks| => assert chunks[k] in chunks; Materialised(intents, chunks[k], k))
  }

  predicate LayerFits(layer: seq<NodeId>, intents: seq<UserIntent>, budget: TxBudget, alt: AltPolicy, oracle: BudgetOracle)
    requires InRange(layer, |intents|)
  {
    forall i | 0 <= i < |layer| :: FitsInEmpty(FootprintOf(intents[layer[i]], budget, oracle), budget, alt)
  }

  /** The plans of a layer, merged or not, list its intents in order. */
  lemma PlansListLayer(layer: seq<NodeId>, intents: seq<UserIntent>, budget: TxBudget, alt: AltPolicy, oracle: BudgetOracle, lim: Limits)
    requires InRange(layer, |intents|)
    ensures var plans := PlansOf(layer, intents, budget, alt, oracle);
      IntentsOf(plans) == Select(intents, layer) && IntentsOf(Merge(plans, lim)) == Select(intents, layer)
  {
    var chunks := PlannedBlocks(Pack(Accepts(budget, alt), ItemsOf(layer, intents, budget, oracle), []), budget, alt);
    ChunksCoverLayer(layer, intents, budget, alt, oracle);
    ChunkNodesInRange(chunks, |intents|);
    var plans := PlansOf(layer, intents, budget, alt, oracle);
    forall k | 0 <= k < |chunks| ensures InRange(chunks[k].nodeIds, |intents|) && plans[k].intents == Select(intents, chunks[k].nodeIds) {
      assert chunks[k] in chunks;
    }
    MaterialisedIntents(intents, chunks, plans);
    MergeConserves(plans, lim);
  }

  /** Plans one layer: chunks it, materialises the chunks and merges small ones. */
  method PlanLayer(layer: seq<NodeId>, intents: seq<UserIntent>, budget: TxBudget, alt: AltPolicy, oracle: BudgetOracle,
                   minCuThreshold: nat, safety: SafetyMargins)
    returns (r: Result<seq<ChunkPlan>, ChunkError>)
    requires InRange(layer, |intents|)
    ensures r.Ok? <==> LayerFits(layer, intents, budget, alt, oracle)
    ensures r.Ok? ==> r.value == Merge(PlansOf(layer, intents, budget, alt, oracle), LimitsOf(minCuThreshold, safety))
    ensures r.Ok? ==> IntentsOf(r.value) == Select(intents, layer)
  {
    ghost var items := ItemsOf(layer, intents, budget, oracle);
    var planned := ChunkLayerWith(layer, intents, budget, alt, oracle);
    if planned.Err? {
      assert exists i :: FirstTooLarge(items, i, budget, alt);
      return Err(planned.error);
    }
    ChunksCoverLayer(layer, intents, budget, alt, oracle);
    ChunkNodesInRange(planned.value, |intents|);
    var plans := Materialise(intents, planned.value);
    assert plans == PlansOf(layer, intents, budget, alt, oracle);
    var merged := MergeSmallChunkPlans(plans, minCuThreshold, safety);
    PlansListLayer(layer, intents, budget, alt, oracle, LimitsOf(minCuThreshold, safety));
    assert forall i | 0 <= i < |layer| :: FitsInEmpty(items[i].fp, budget, alt);
    return Ok(merged);
  }
}
