/** The whole planner: graph, layers, chunks, merged chunks. */
module Pipeline {
  import opened Types
  import opened Sorting
  import opened Graph
  import opened Semantics
  import opened Scheduling
  import opened SchedulingLaws
  import opened Packing
  import opened Chunking
  import opened ChunkLaws
  import opened Merging
  import opened MergeLaws
  import opened LayerPlans
  import opened PlanLaws

  /** The stages run the layers: stage `d` holds the intents of layer `d`, in the layer's order. */
  ghost predicate RunLayers(intents: seq<UserIntent>, layers: seq<seq<NodeId>>, stages: seq<seq<ChunkPlan>>) {
    && |stages| == |layers|
    && forall d | 0 <= d < |layers| :: InRange(layers[d], |intents|) && IntentsOf(stages[d]) == Select(intents, layers[d])
  }

  /** What a stage promises: its layer's intents in order, each within the budgets on its own, every plan within its limits,
      and merged messages that fit. */
  ghost predicate StagePromise(layer: seq<NodeId>, stage: seq<ChunkPlan>, intents: seq<UserIntent>,
                               budget: TxBudget, alt: AltPolicy, oracle: BudgetOracle, lim: Limits) {
    && InRange(layer, |intents|) && LayerFits(layer, intents, budget, alt, oracle)
    && IntentsOf(stage) == Select(intents, layer)
    && PlansBounded(stage, budget, alt, lim) && MergedPlansFit(stage, intents, budget, alt, oracle)
  }

  /** Plans the stage of one layer. */
  method PlanStage(layer: seq<NodeId>, intents: seq<UserIntent>, budget: TxBudget, alt: AltPolicy, oracle: BudgetOracle,
                   minCuThreshold: nat, safety: SafetyMargins)
    returns (r: Result<seq<ChunkPlan>, ChunkError>)
    requires InRange(layer, |intents|)
    ensures r.Ok? ==> StagePromise(layer, r.value, intents, budget, alt, oracle, LimitsOf(minCuThreshold, safety))
    ensures r.Err? ==> !LayerFits(layer, intents, budget, alt, oracle)
  {
    r := PlanLayer(layer, intents, budget, alt, oracle, minCuThreshold, safety);
    if r.Ok? {
      EveryPlanIsBounded(layer, intents, budget, alt, oracle, LimitsOf(minCuThreshold, safety));
      MergedPlansOfLayerFit(layer, intents, budget, alt, oracle, LimitsOf(minCuThreshold, safety));
    }
  }

  predicate AllInRange(layers: seq<seq<NodeId>>, n: nat) {
    forall d | 0 <= d < |layers| :: InRange(layers[d], n)
  }

  ghost predicate Promised(layers: seq<seq<NodeId>>, stages: seq<seq<ChunkPlan>>, intents: seq<UserIntent>,
                           budget: TxBudget, alt: AltPolicy, oracle: BudgetOracle, lim: Limits) {
    |stages| == |layers| && forall d | 0 <= d < |layers| :: StagePromise(layers[d], stages[d], intents, budget, alt, oracle, lim)
  }

  lemma OneMorePromised(layers: seq<seq<NodeId>>, stages: seq<seq<ChunkPlan>>, layer: seq<NodeId>, stage: seq<ChunkPlan>,
                        intents: seq<UserIntent>, budget: TxBudget, alt: AltPolicy, oracle: BudgetOracle, lim: Limits)
    requires Promised(layers, stages, intents, budget, alt, oracle, lim) && StagePromise(layer, stage, intents, budget, alt, oracle, lim)
    ensures Promised(layers + [layer], stages + [stage], intents, budget, alt, oracle, lim)
  {
  }

  /** Plans layer after layer, until one holds an intent too large on its own. */
  method PlanStages(intents: seq<UserIntent>, layers: seq<seq<NodeId>>, budget: TxBudget, alt: AltPolicy, oracle: BudgetOracle,
                    minCuThreshold: nat, safety: SafetyMargins)
    returns (r: Result<seq<seq<ChunkPlan>>, ChunkError>)
    requires AllInRange(layers, |intents|)
    ensures r.Ok? ==> Promised(layers, r.value, intents, budget, alt, oracle, LimitsOf(minCuThreshold, safety))
    ensures r.Err? ==> exists d :: 0 <= d < |layers| && !LayerFits(layers[d], intents, budget, alt, oracle)
  {
    var stages: seq<seq<ChunkPlan>> := [];
    for d := 0 to |layers|
      invariant Promised(layers[..d], stages, intents, budget, alt, oracle, LimitsOf(minCuThreshold, safety))
    {
      var planned := PlanStage(layers[d], intents, budget, alt, oracle, minCuThreshold, safety);
      if planned.Err? {
        return Err(planned.error);
      }
      OneMorePromised(layers[..d], stages, layers[d], planned.value, intents, budget, alt, oracle, LimitsOf(minCuThreshold, safety));
      assert layers[..d + 1] == layers[..d] + [layers[d]];
      stages := stages + [planned.value];
    }
    assert layers[..|layers|] == layers;
    return Ok(stages);
  }

  lemma LayersInRange(arcs: Arcs, n: nat, layers: seq<seq<NodeId>>, level: seq<nat>)
    requires LayeredBy(arcs, n, layers, level)
    ensures AllInRange(layers, n)
  {
    forall d, i | 0 <= d < |layers| && 0 <= i < |layers[d]| ensures layers[d][i] < n {
      assert layers[d][i] in layers[d];
    }
  }

  /** The layers hold all intents, so kept promises cover all. */
  lemma PromisedMeansAll(intents: seq<UserIntent>, arcs: Arcs, layers: seq<seq<NodeId>>, level: seq<nat>, stages: seq<seq<ChunkPlan>>,
                         budget: TxBudget, alt: AltPolicy, oracle: BudgetOracle, lim: Limits)
    requires LayeredBy(arcs, |intents|, layers, level) && Promised(layers, stages, intents, budget, alt, oracle, lim)
    ensures RunLayers(intents, layers, stages)
    ensures forall i | 0 <= i < |intents| :: FitsInEmpty(FootprintOf(intents[i], budget, oracle), budget, alt)
  {
    forall d | 0 <= d < |layers| ensures InRange(layers[d], |intents|) && IntentsOf(stages[d]) == Select(intents, layers[d]) {
      assert StagePromise(layers[d], stages[d], intents, budget, alt, oracle, lim);
    }
    forall i | 0 <= i < |intents| ensures FitsInEmpty(FootprintOf(intents[i], budget, oracle), budget, alt) {
      assert StagePromise(layers[level[i]], stages[level[i]], intents, budget, alt, oracle, lim);
      assert i in layers[level[i]];
    }
  }

  lemma OneTooLarge(intents: seq<UserIntent>, layers: seq<seq<NodeId>>, budget: TxBudget, alt: AltPolicy, oracle: BudgetOracle)
    requires AllInRange(layers, |intents|) && exists d :: 0 <= d < |layers| && !LayerFits(layers[d], intents, budget, alt, oracle)
    ensures exists i :: 0 <= i < |intents| && !FitsInEmpty(FootprintOf(intents[i], budget, oracle), budget, alt)
  {
    var d :| 0 <= d < |layers| && !LayerFits(layers[d], intents, budget, alt, oracle);
    var k :| 0 <= k < |layers[d]| && !FitsInEmpty(FootprintOf(intents[layers[d][k]], budget, oracle), budget, alt);
  }

  /** Plans a bundle. It fails only on an intent that exceeds the budgets on its own, never on a cycle. */
  method PlanBundle(intents: seq<UserIntent>, budget: TxBudget, alt: AltPolicy, oracle: BudgetOracle,
                    minCuThreshold: nat, safety: SafetyMargins)
    returns (r: Result<seq<seq<ChunkPlan>>, ChunkError>, ghost arcs: Arcs, ghost layers: seq<seq<NodeId>>, ghost level: seq<nat>)
    ensures IsEdgeSet(intents, arcs) && LayeredBy(arcs, |intents|, layers, level)
    ensures r.Ok? <==> forall i | 0 <= i < |intents| :: FitsInEmpty(FootprintOf(intents[i], budget, oracle), budget, alt)
    ensures r.Ok? ==> RunLayers(intents, layers, r.value)
    ensures r.Ok? ==> Promised(layers, r.value, intents, budget, alt, oracle, LimitsOf(minCuThreshold, safety))
  {
    var dag := new Dag.Build(intents);
    arcs := dag.edgeSet;
    EdgesAreAcyclic(intents, arcs);
    var found;
    found, level := dag.Layers();
    layers := found.value;
    LayersInRange(arcs, |intents|, layers, level);
    r := PlanStages(intents, found.value, budget, alt, oracle, minCuThreshold, safety);
    if r.Ok? {
      PromisedMeansAll(intents, arcs, layers, level, r.value, budget, alt, oracle, LimitsOf(minCuThreshold, safety));
    } else {
      OneTooLarge(intents, layers, budget, alt, oracle);
    }
  }

  /** Unconditionally, in every schedule of the layers: each intent runs exactly once, and whoever writes an
      account runs before everyone later in key order who touches it, in an earlier layer. So the writers
      of an account run in key order, no two in one layer, and a reader runs after every writer before it. */
  lemma WholePlanOrder(intents: seq<UserIntent>, arcs: Arcs, layers: seq<seq<NodeId>>, level: seq<nat>, order: seq<NodeId>)
    requires IsEdgeSet(intents, arcs) && LayeredBy(arcs, |intents|, layers, level) && IsSchedule(layers, order)
    ensures NoDup(order) && forall v: NodeId :: v in order <==> v < |intents|
    ensures forall u: NodeId, v: NodeId, a | u < |intents| && v < |intents| && Before(intents, u, v)
              && a in Writes(intents[u]) && a in Touches(intents[v]) :: level[u] < level[v] && Precedes(order, u, v)
  {
    SchedulePermutes(|intents|, layers, level, order);
    forall u: NodeId, v: NodeId, a | u < |intents| && v < |intents| && Before(intents, u, v)
              && a in Writes(intents[u]) && a in Touches(intents[v])
      ensures level[u] < level[v] && Precedes(order, u, v)
    {
      assert Edge(intents, u, v);
      assert (u, v) in arcs;
      var i, j := IndexOf(order, u), IndexOf(order, v);
      assert level[order[i]] < level[order[j]];
      assert i < j;
    }
  }

  // ---------------------------------------------------------------------------
  // Chunks of a stage in any order
  // ---------------------------------------------------------------------------

  /** The nodes of each plan: the layer cut into stretches as long as the plans. */
  function Pieces(layer: seq<NodeId>, plans: seq<ChunkPlan>): (r: seq<seq<NodeId>>)
    requires |IntentsOf(plans)| == |layer|
    ensures |r| == |plans|
  {
    if plans == [] then []
    else
      var n := |plans[0].intents|;
      [layer[..n]] + Pieces(layer[n..], plans[1..])
  }

  lemma SelectCut(intents: seq<UserIntent>, layer: seq<NodeId>, n: nat, front: seq<UserIntent>, rest: seq<UserIntent>)
    requires InRange(layer, |intents|) && Select(intents, layer) == front + rest && n == |front|
    ensures n <= |layer| && InRange(layer[..n], |intents|) && InRange(layer[n..], |intents|)
    ensures Select(intents, layer[..n]) == front && Select(intents, layer[n..]) == rest
  {
    assert front == Select(intents, layer)[..n] && rest == Select(intents, layer)[n..];
  }

  /** The pieces make up the layer, and each piece's intents are its plan's. */
  lemma {:induction false} PiecesCarryPlans(intents: seq<UserIntent>, layer: seq<NodeId>, plans: seq<ChunkPlan>)
    requires InRange(layer, |intents|) && IntentsOf(plans) == Select(intents, layer)
    ensures Joined(Pieces(layer, plans)) == layer
    ensures forall k | 0 <= k < |plans| :: InRange(Pieces(layer, plans)[k], |intents|) && Select(intents, Pieces(layer, plans)[k]) == plans[k].intents
  {
    if plans != [] {
      var n := |plans[0].intents|;
      SelectCut(intents, layer, n, plans[0].intents, IntentsOf(plans[1..]));
      PiecesCarryPlans(intents, layer[n..], plans[1..]);
      assert layer == layer[..n] + layer[n..];
    }
  }

  /** Each stage's chunks in some order, one stage after another. */
  ghost predicate AnyChunkOrder(layers: seq<seq<NodeId>>, stages: seq<seq<ChunkPlan>>, orders: seq<seq<seq<NodeId>>>) {
    && |stages| == |layers| == |orders|
    && forall d | 0 <= d < |layers| ::
         |IntentsOf(stages[d])| == |layers[d]| && multiset(orders[d]) == multiset(Pieces(layers[d], stages[d]))
  }

  /** The nodes in the order in which these chunks run. */
  function Flat(orders: seq<seq<seq<NodeId>>>): seq<NodeId> {
    if orders == [] then [] else Joined(orders[0]) + Flat(orders[1..])
  }

  lemma {:induction false} JoinedWithout<T>(blocks: seq<seq<T>>, i: nat)
    requires i < |blocks|
    ensures multiset(Joined(blocks)) == multiset(blocks[i]) + multiset(Joined(blocks[..i] + blocks[i + 1..]))
  {
    var rest := blocks[..i] + blocks[i + 1..];
    if i == 0 {
      assert rest == blocks[1..];
    } else {
      JoinedWithout(blocks[1..], i - 1);
      assert rest[1..] == blocks[1..][..i - 1] + blocks[1..][i..];
      assert rest[0] == blocks[0];
    }
  }

  lemma {:induction false} JoinedPermutes<T>(a: seq<seq<T>>, b: seq<seq<T>>)
    requires multiset(a) == multiset(b)
    ensures multiset(Joined(a)) == multiset(Joined(b))
  {
    SameElements(a, b);
    if a != [] {
      assert a[0] in b;
      var i :| 0 <= i < |b| && b[i] == a[0];
      TailMultiset(a);
      WithoutAt(b, i);
      JoinedWithout(b, i);
      JoinedPermutes(a[1..], b[..i] + b[i + 1..]);
    }
  }

  lemma WithoutAt<T>(s: seq<T>, i: nat)
    requires i < |s|
    ensures multiset(s[..i] + s[i + 1..]) == multiset(s) - multiset{s[i]}
  {
    assert s == s[..i] + [s[i]] + s[i + 1..];
  }

  /** With each stage's chunks in any order, a planned bundle runs a schedule of its layers. */
  lemma {:induction false} StagesAreASchedule(intents: seq<UserIntent>, layers: seq<seq<NodeId>>, stages: seq<seq<ChunkPlan>>, orders: seq<seq<seq<NodeId>>>)
    requires RunLayers(intents, layers, stages) && AnyChunkOrder(layers, stages, orders)
    ensures IsSchedule(layers, Flat(orders))
  {
    if layers != [] {
      StageRest(intents, layers, stages, orders);
      StagesAreASchedule(intents, layers[1..], stages[1..], orders[1..]);
      PiecesCarryPlans(intents, layers[0], stages[0]);
      JoinedPermutes(orders[0], Pieces(layers[0], stages[0]));
      SameElements(Joined(orders[0]), layers[0]);
      var order := Flat(orders);
      assert order[..|layers[0]|] == Joined(orders[0]) && order[|layers[0]|..] == Flat(orders[1..]);
    }
  }

  lemma StageRest(intents: seq<UserIntent>, layers: seq<seq<NodeId>>, stages: seq<seq<ChunkPlan>>, orders: seq<seq<seq<NodeId>>>)
    requires RunLayers(intents, layers, stages) && AnyChunkOrder(layers, stages, orders) && layers != []
    ensures RunLayers(intents, layers[1..], stages[1..]) && AnyChunkOrder(layers[1..], stages[1..], orders[1..])
  {
    forall d | 0 <= d < |layers| - 1
      ensures layers[1..][d] == layers[d + 1] && stages[1..][d] == stages[d + 1] && orders[1..][d] == orders[d + 1]
    {
    }
  }

  function AllIntents(stages: seq<seq<ChunkPlan>>): seq<UserIntent> {
    if stages == [] then [] else IntentsOf(stages[0]) + AllIntents(stages[1..])
  }

  /** Listed stage by stage and chunk by chunk, a planned bundle holds the intents of its layers in order. */
  lemma {:induction false} StagesListLayers(intents: seq<UserIntent>, layers: seq<seq<NodeId>>, stages: seq<seq<ChunkPlan>>)
    requires RunLayers(intents, layers, stages)
    ensures IsSchedule(layers, Joined(layers)) && InRange(Joined(layers), |intents|)
    ensures AllIntents(stages) == Select(intents, Joined(layers))
  {
    if layers != [] {
      assert RunLayers(intents, layers[1..], stages[1..]) by {
        assert forall d | 0 <= d < |layers| - 1 :: layers[1..][d] == layers[d + 1] && stages[1..][d] == stages[d + 1];
      }
      StagesListLayers(intents, layers[1..], stages[1..]);
    }
  }

  /** The plan that `PlanBundle` makes, with the chunks of each stage run in any order, has the outcome of the key
      order, for every program and every start, if writers wait for earlier readers or no reader precedes a writer. */
  lemma PlannedBundleIsSerial(intents: seq<UserIntent>, arcs: Arcs, layers: seq<seq<NodeId>>, level: seq<nat>, stages: seq<seq<ChunkPlan>>,
                              orders: seq<seq<seq<NodeId>>>, serial: seq<NodeId>, p: Program, s: State)
    requires IsEdgeSet(intents, arcs) && LayeredBy(arcs, |intents|, layers, level) && RunLayers(intents, layers, stages)
    requires AnyChunkOrder(layers, stages, orders) && IsKeyOrder(intents, serial)
    requires WritersWait(intents, arcs) || NoReaderBeforeWriter(intents)
    ensures InRange(Flat(orders), |intents|)
    ensures Run(p, AccessOf(intents), Flat(orders), s) == Run(p, AccessOf(intents), serial, s)
  {
    StagesAreASchedule(intents, layers, stages, orders);
    SchedulePermutes(|intents|, layers, level, Flat(orders));
    if WritersWait(intents, arcs) {
      SerialExactly(intents, arcs, layers, level, serial);
    } else {
      SerialWithoutEarlyReaders(intents, arcs, layers, level, serial);
    }
  }
}
