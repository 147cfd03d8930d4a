/** Exactly when the order in which a stage's chunks run does not matter. */
module ChunkOrders {
  import opened Types
  import opened Sorting
  import opened Graph
  import opened Semantics
  import opened Scheduling
  import opened SchedulingLaws
  import opened Packing
  import opened Merging
  import opened MergeLaws
  import opened LayerPlans
  import opened Pipeline

  /** Some chunk of some stage runs `u` before `v`. */
  ghost predicate InOneChunk(layers: seq<seq<NodeId>>, stages: seq<seq<ChunkPlan>>, u: NodeId, v: NodeId)
    requires Shaped(layers, stages)
  {
    exists d, k :: 0 <= d < |layers| && 0 <= k < |stages[d]| && Precedes(Pieces(layers[d], stages[d])[k], u, v)
  }

  ghost predicate Shaped(layers: seq<seq<NodeId>>, stages: seq<seq<ChunkPlan>>) {
    |stages| == |layers| && forall d | 0 <= d < |layers| :: |IntentsOf(stages[d])| == |layers[d]|
  }

  /** Of two clashing intents, the one first in key order is in an earlier layer, or earlier in the same chunk. */
  ghost predicate ClashesOrdered(intents: seq<UserIntent>, layers: seq<seq<NodeId>>, level: seq<nat>, stages: seq<seq<ChunkPlan>>)
    requires |level| == |intents| && Shaped(layers, stages)
  {
    forall u, v | 0 <= u < |intents| && 0 <= v < |intents| && Before(intents, u, v) && Clashing(intents, u, v) ::
      level[u] < level[v] || InOneChunk(layers, stages, u, v)
  }

  /** Whatever the intents compute, every order of the chunks within their stages has the outcome of the key order. */
  ghost predicate ChunksSerial(intents: seq<UserIntent>, layers: seq<seq<NodeId>>, stages: seq<seq<ChunkPlan>>, serial: seq<NodeId>)
    requires InRange(serial, |intents|)
  {
    forall p: Program, s: State, orders | AnyChunkOrder(layers, stages, orders) && InRange(Flat(orders), |intents|) ::
      Run(p, AccessOf(intents), Flat(orders), s) == Run(p, AccessOf(intents), serial, s)
  }

  // ---- positions in a flattened order ----

  lemma PrecedesAround(before: seq<NodeId>, s: seq<NodeId>, after: seq<NodeId>, u: NodeId, v: NodeId)
    requires Precedes(s, u, v)
    ensures Precedes(before + s + after, u, v)
  {
    var i, j :| 0 <= i < j < |s| && s[i] == u && s[j] == v;
    var all := before + s + after;
    assert all[|before| + i] == u && all[|before| + j] == v;
  }

  lemma {:induction false} PieceInJoined(pieces: seq<seq<NodeId>>, k: nat, u: NodeId, v: NodeId)
    requires k < |pieces| && Precedes(pieces[k], u, v)
    ensures Precedes(Joined(pieces), u, v)
  {
    if k == 0 {
      PrecedesAround([], pieces[0], Joined(pieces[1..]), u, v);
      assert [] + pieces[0] == pieces[0];
    } else {
      PieceInJoined(pieces[1..], k - 1, u, v);
      PrecedesAround(pieces[0], Joined(pieces[1..]), [], u, v);
      assert pieces[0] + Joined(pieces[1..]) + [] == Joined(pieces);
    }
  }

  lemma {:induction false} StageInFlat(orders: seq<seq<seq<NodeId>>>, d: nat, u: NodeId, v: NodeId)
    requires d < |orders| && Precedes(Joined(orders[d]), u, v)
    ensures Precedes(Flat(orders), u, v)
  {
    if d == 0 {
      PrecedesAround([], Joined(orders[0]), Flat(orders[1..]), u, v);
      assert [] + Joined(orders[0]) == Joined(orders[0]);
    } else {
      StageInFlat(orders[1..], d - 1, u, v);
      PrecedesAround(Joined(orders[0]), Flat(orders[1..]), [], u, v);
      assert Joined(orders[0]) + Flat(orders[1..]) + [] == Flat(orders);
    }
  }

  /** What one chunk orders, every order of the chunks orders. */
  lemma ChunkOrderKept(layers: seq<seq<NodeId>>, stages: seq<seq<ChunkPlan>>, orders: seq<seq<seq<NodeId>>>, u: NodeId, v: NodeId)
    requires AnyChunkOrder(layers, stages, orders) && Shaped(layers, stages) && InOneChunk(layers, stages, u, v)
    ensures Precedes(Flat(orders), u, v)
  {
    var d, k :| 0 <= d < |layers| && 0 <= k < |stages[d]| && Precedes(Pieces(layers[d], stages[d])[k], u, v);
    var pieces := Pieces(layers[d], stages[d]);
    SameElements(orders[d], pieces);
    assert pieces[k] in orders[d];
    var i :| 0 <= i < |orders[d]| && orders[d][i] == pieces[k];
    PieceInJoined(orders[d], i, u, v);
    StageInFlat(orders, d, u, v);
  }

  /** Nodes of different layers run in the order of their layers. */
  lemma LayersOrder(order: seq<NodeId>, level: seq<nat>, u: NodeId, v: NodeId)
    requires InRange(order, |level|) && u in order && v in order && u < |level| && v < |level| && level[u] < level[v]
    requires forall i, j | 0 <= i < j < |order| :: level[order[i]] <= level[order[j]]
    ensures Precedes(order, u, v)
  {
    var i, j := IndexOf(order, u), IndexOf(order, v);
    assert i < j;
  }

  // ---- the condition suffices ----

  lemma ClashKept(intents: seq<UserIntent>, layers: seq<seq<NodeId>>, level: seq<nat>, stages: seq<seq<ChunkPlan>>,
                  orders: seq<seq<seq<NodeId>>>, u: NodeId, v: NodeId)
    requires |level| == |intents| && u < |intents| && v < |intents| && Shaped(layers, stages) && AnyChunkOrder(layers, stages, orders)
    requires ClashesOrdered(intents, layers, level, stages) && Before(intents, u, v) && Clashing(intents, u, v)
    requires var order := Flat(orders);
      && InRange(order, |intents|) && u in order && v in order
      && forall i, j | 0 <= i < j < |order| :: level[order[i]] <= level[order[j]]
    ensures Precedes(Flat(orders), u, v)
  {
    if level[u] < level[v] {
      LayersOrder(Flat(orders), level, u, v);
    } else {
      ChunkOrderKept(layers, stages, orders, u, v);
    }
  }

  lemma OrderedClashesSuffice(intents: seq<UserIntent>, layers: seq<seq<NodeId>>, level: seq<nat>, stages: seq<seq<ChunkPlan>>,
                              orders: seq<seq<seq<NodeId>>>, serial: seq<NodeId>, p: Program, s: State)
    requires Positions(|intents|, layers, level) && RunLayers(intents, layers, stages) && Shaped(layers, stages) && IsKeyOrder(intents, serial)
    requires ClashesOrdered(intents, layers, level, stages) && AnyChunkOrder(layers, stages, orders)
    ensures InRange(Flat(orders), |intents|)
    ensures Run(p, AccessOf(intents), Flat(orders), s) == Run(p, AccessOf(intents), serial, s)
  {
    var acc, order := AccessOf(intents), Flat(orders);
    StagesAreASchedule(intents, layers, stages, orders);
    SchedulePermutes(|intents|, layers, level, order);
    assert forall i | 0 <= i < |serial| :: serial[i] in serial;
    SameNodes(order, serial);
    forall k, l | 0 <= k < l < |serial| && Clash(acc[serial[k]], acc[serial[l]]) ensures Precedes(order, serial[k], serial[l]) {
      var u, v := serial[k], serial[l];
      assert Before(intents, u, v) && Clashing(intents, u, v);
      ClashKept(intents, layers, level, stages, orders, u, v);
    }
    SameClashOrder(p, acc, order, serial, s);
  }

  // ---- the condition is needed ----

  /** The chunks of every stage in listing order. */
  function Listed(layers: seq<seq<NodeId>>, stages: seq<seq<ChunkPlan>>): (orders: seq<seq<seq<NodeId>>>)
    requires Shaped(layers, stages)
    ensures AnyChunkOrder(layers, stages, orders)
  {
    seq(|layers|, d requires 0 <= d < |layers| => Pieces(layers[d], stages[d]))
  }

  lemma {:induction false} PieceOf(pieces: seq<seq<NodeId>>, v: NodeId) returns (k: nat)
    requires v in Joined(pieces)
    ensures k < |pieces| && v in pieces[k]
  {
    if v in pieces[0] {
      k := 0;
    } else {
      var j := PieceOf(pieces[1..], v);
      k := j + 1;
    }
  }

  /** One piece moved to the front. */
  function MovedToFront(pieces: seq<seq<NodeId>>, k: nat): (r: seq<seq<NodeId>>)
    requires k < |pieces|
    ensures multiset(r) == multiset(pieces)
  {
    assert pieces == pieces[..k] + [pieces[k]] + pieces[k + 1..];
    [pieces[k]] + (pieces[..k] + pieces[k + 1..])
  }

  lemma FrontRunsFirst(pieces: seq<seq<NodeId>>, k: nat, u: NodeId, v: NodeId)
    requires k < |pieces| && v in pieces[k] && u !in pieces[k] && u in Joined(pieces)
    ensures Precedes(Joined(MovedToFront(pieces, k)), v, u)
  {
    var moved := MovedToFront(pieces, k);
    JoinedPermutes(moved, pieces);
    SameElements(Joined(moved), Joined(pieces));
    assert Joined(moved) == pieces[k] + Joined(moved[1..]);
    var rest := Joined(moved[1..]);
    var i, j := IndexOf(pieces[k], v), IndexOf(rest, u);
    assert Joined(moved)[i] == v && Joined(moved)[|pieces[k]| + j] == u;
  }

  lemma BothInOnePiece(piece: seq<NodeId>, u: NodeId, v: NodeId)
    requires u in piece && v in piece && u != v && !Precedes(piece, u, v)
    ensures Precedes(piece, v, u)
  {
    var i, j := IndexOf(piece, u), IndexOf(piece, v);
    assert j < i;
  }

  /** Two nodes of one layer that no chunk orders can run the other way round. */
  lemma OtherWayRound(intents: seq<UserIntent>, layers: seq<seq<NodeId>>, stages: seq<seq<ChunkPlan>>, d: nat, u: NodeId, v: NodeId)
    returns (orders: seq<seq<seq<NodeId>>>)
    requires RunLayers(intents, layers, stages) && Shaped(layers, stages) && d < |layers|
    requires u in layers[d] && v in layers[d] && u != v && !InOneChunk(layers, stages, u, v)
    ensures AnyChunkOrder(layers, stages, orders) && Precedes(Flat(orders), v, u)
  {
    orders := Listed(layers, stages);
    var pieces := Pieces(layers[d], stages[d]);
    PiecesCarryPlans(intents, layers[d], stages[d]);
    var k := PieceOf(pieces, v);
    if u in pieces[k] {
      BothInOnePiece(pieces[k], u, v);
      PieceInJoined(pieces, k, v, u);
    } else {
      FrontRunsFirst(pieces, k, u, v);
      orders := orders[d := MovedToFront(pieces, k)];
    }
    StageInFlat(orders, d, v, u);
  }

  /** A clash that neither layers nor chunks order shows in some order of the chunks. */
  lemma UnorderedClashShows(intents: seq<UserIntent>, arcs: Arcs, layers: seq<seq<NodeId>>, level: seq<nat>, stages: seq<seq<ChunkPlan>>,
                            serial: seq<NodeId>, u: NodeId, v: NodeId)
    requires IsEdgeSet(intents, arcs) && LayeredBy(arcs, |intents|, layers, level) && RunLayers(intents, layers, stages)
    requires Shaped(layers, stages) && IsKeyOrder(intents, serial)
    requires u < |intents| && v < |intents| && Before(intents, u, v) && Clashing(intents, u, v)
    requires level[v] <= level[u] && !InOneChunk(layers, stages, u, v)
    ensures !ChunksSerial(intents, layers, stages, serial)
  {
    var acc, orders := AccessOf(intents), Listed(layers, stages);
    if level[u] == level[v] {
      assert u in layers[level[u]] && v in layers[level[v]];
      orders := OtherWayRound(intents, layers, stages, level[u], u, v);
    }
    var order := Flat(orders);
    StagesAreASchedule(intents, layers, stages, orders);
    SchedulePermutes(|intents|, layers, level, order);
    if level[v] < level[u] {
      LayersOrder(order, level, v, u);
    }
    var a := HazardAccount(intents, arcs, level, u, v);
    var w := ReadsAlong(intents, arcs, level, order, u, v, a);
    ReadsInKeyOrder(intents, serial, u, a, w);
    assert ReadBy(intents, order, u) != ReadBy(intents, serial, u);
    assert Run(Tagging(acc), acc, order, map[]) != Run(Tagging(acc), acc, serial, map[]);
  }

  /** Every order of a planned bundle's chunks within their stages behaves like the key order, for every program, exactly
      when of two clashing intents the one first in key order is in an earlier layer or earlier in the same chunk. */
  lemma ChunkOrderExactly(intents: seq<UserIntent>, arcs: Arcs, layers: seq<seq<NodeId>>, level: seq<nat>, stages: seq<seq<ChunkPlan>>, serial: seq<NodeId>)
    requires IsEdgeSet(intents, arcs) && LayeredBy(arcs, |intents|, layers, level) && RunLayers(intents, layers, stages)
    requires IsKeyOrder(intents, serial)
    ensures Shaped(layers, stages) && (ChunksSerial(intents, layers, stages, serial) <==> ClashesOrdered(intents, layers, level, stages))
  {
    if ClashesOrdered(intents, layers, level, stages) {
      forall p: Program, s: State, orders | AnyChunkOrder(layers, stages, orders) && InRange(Flat(orders), |intents|)
        ensures Run(p, AccessOf(intents), Flat(orders), s) == Run(p, AccessOf(intents), serial, s)
      {
        OrderedClashesSuffice(intents, layers, level, stages, orders, serial, p, s);
      }
    } else {
      var u, v :| 0 <= u < |intents| && 0 <= v < |intents| && Before(intents, u, v) && Clashing(intents, u, v)
        && level[v] <= level[u] && !InOneChunk(layers, stages, u, v);
      UnorderedClashShows(intents, arcs, layers, level, stages, serial, u, v);
    }
  }
}
