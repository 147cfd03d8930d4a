/** Directed graphs over the nodes 0..n: acyclicity, topological orders and layerings. */
module Graph {
  import opened Types
  import opened Sorting

  type Arcs = set<(NodeId, NodeId)>

  ghost predicate InBounds(arcs: Arcs, n: nat) {
    forall e | e in arcs :: e.0 < n && e.1 < n
  }

  /** The two adjacency lists describe the same set of arcs over `n` nodes, without repetition. */
  ghost predicate Adjacency(n: nat, edges: seq<seq<NodeId>>, revEdges: seq<seq<NodeId>>, arcs: Arcs) {
    && |edges| == |revEdges| == n
    && InBounds(arcs, n)
    && (forall u: NodeId, v: NodeId | u < n :: v in edges[u] <==> (u, v) in arcs)
    && (forall u: NodeId, v: NodeId | v < n :: u in revEdges[v] <==> (u, v) in arcs)
    && (forall u | 0 <= u < n :: NoDup(edges[u]) && NoDup(revEdges[u]))
  }

  lemma AddArc(n: nat, edges: seq<seq<NodeId>>, revEdges: seq<seq<NodeId>>, arcs: Arcs, u: NodeId, v: NodeId)
    requires Adjacency(n, edges, revEdges, arcs) && u < n && v < n && (u, v) !in arcs
    ensures Adjacency(n, edges[u := edges[u] + [v]], revEdges[v := revEdges[v] + [u]], arcs + {(u, v)})
  {
    assert v !in edges[u] && u !in revEdges[v];
  }

  function Preds(arcs: Arcs, v: NodeId): set<NodeId> {
    set e | e in arcs && e.1 == v :: e.0
  }

  /** `rank` grows along every arc. */
  ghost predicate GrowsAlong(arcs: Arcs, rank: seq<nat>) {
    forall e | e in arcs && e.0 < |rank| && e.1 < |rank| :: rank[e.0] < rank[e.1]
  }

  /** Some numbering of the nodes grows along every arc. */
  ghost predicate Acyclic(arcs: Arcs, n: nat) {
    exists rank: seq<nat> :: |rank| == n && GrowsAlong(arcs, rank)
  }

  ghost function Elements(s: seq<NodeId>): set<NodeId> {
    set x | x in s
  }

  /** All predecessors of a listed node are listed before it. */
  ghost predicate RespectsArcs(arcs: Arcs, order: seq<NodeId>) {
    forall i | 0 <= i < |order| :: Preds(arcs, order[i]) <= Elements(order[..i])
  }

  /** `order` lists every node once, each after all its predecessors. */
  ghost predicate IsTopological(arcs: Arcs, n: nat, order: seq<NodeId>) {
    && NoDup(order)
    && (forall v: NodeId :: v in order <==> v < n)
    && RespectsArcs(arcs, order)
  }

  ghost predicate Ascending(s: seq<NodeId>) {
    forall i, j | 0 <= i < j < |s| :: s[i] < s[j]
  }

  /** `v` has a predecessor on the level just below its own. */
  ghost predicate HasParent(arcs: Arcs, level: seq<nat>, v: NodeId)
    requires v < |level|
  {
    exists u :: u in Preds(arcs, v) && u < |level| && level[u] + 1 == level[v]
  }

  /** `level` says which layer each node is in; layers are non-empty and ascending. */
  ghost predicate Positions(n: nat, layers: seq<seq<NodeId>>, level: seq<nat>) {
    && |level| == n
    && (forall d | 0 <= d < |layers| :: layers[d] != [] && Ascending(layers[d]))
    && (forall v | 0 <= v < n :: level[v] < |layers| && v in layers[level[v]])
    && (forall d: nat, v: NodeId {:trigger v in layers[d]} | d < |layers| && v in layers[d] :: v < n && level[v] == d)
  }

  /** Every node outside the first layer has a predecessor in the layer just before its own. */
  ghost predicate Parented(arcs: Arcs, level: seq<nat>) {
    forall v {:trigger HasParent(arcs, level, v)} | 0 <= v < |level| && level[v] > 0 :: HasParent(arcs, level, v)
  }

  /** The layers of a graph: arcs lead to later layers, and no node is later than it must be. */
  ghost predicate LayeredBy(arcs: Arcs, n: nat, layers: seq<seq<NodeId>>, level: seq<nat>) {
    Positions(n, layers, level) && GrowsAlong(arcs, level) && Parented(arcs, level)
  }

  function Range(n: nat): (r: set<NodeId>)
    ensures |r| == n
    ensures forall v: NodeId :: v in r <==> v < n
  {
    if n == 0 then {} else
      var last: NodeId := n - 1;
      Range(n - 1) + {last}
  }

  /** The nodes of `s` below `n`, in ascending order: how an ordered set is iterated. */
  function Ascend(s: set<NodeId>, n: nat): (r: seq<NodeId>)
    ensures Ascending(r)
    ensures forall v: NodeId :: v in r <==> v in s && v < n
  {
    if n == 0 then []
    else
      var below := Ascend(s, n - 1);
      if n - 1 in s then
        var last: NodeId := n - 1;
        assert forall v: NodeId :: v in below + [last] <==> v in below || v == last;
        assert forall i | 0 <= i < |below| :: below[i] in below;
        below + [last]
      else below
  }

  lemma BoundedSize(n: nat, s: seq<NodeId>)
    requires NoDup(s) && forall v | v in s :: v < n
    ensures |s| <= n
    ensures |s| == n ==> forall v: NodeId :: v in s <==> v < n
  {
    NoDupSize(s, Elements(s));
    SubsetSize(Elements(s), Range(n));
  }

  // ---------------------------------------------------------------------------
  // Counting the predecessors still to come
  // ---------------------------------------------------------------------------

  /** `indeg[v]` is the number of predecessors of `v` that are not done yet. */
  ghost predicate Counts(arcs: Arcs, n: nat, indeg: seq<nat>, done: set<NodeId>) {
    |indeg| == n && forall v | 0 <= v < n :: indeg[v] == |Preds(arcs, v) - done|
  }

  lemma OneFewer(arcs: Arcs, n: nat, before: seq<nat>, done: set<NodeId>, u: NodeId, v: NodeId)
    requires Counts(arcs, n, before, done) && u !in done && v < n && (u, v) in arcs
    ensures before[v] > 0 && |Preds(arcs, v) - (done + {u})| == before[v] - 1
  {
    var p := Preds(arcs, v) - done;
    assert (u, v).0 in p;
    assert Preds(arcs, v) - (done + {u}) == p - {u};
  }

  lemma CountStep(arcs: Arcs, n: nat, before: seq<nat>, done: set<NodeId>, u: NodeId, v: NodeId)
    requires Counts(arcs, n, before, done) && u !in done && v < n
    ensures (u, v) in arcs ==> before[v] > 0
    ensures |Preds(arcs, v) - (done + {u})| == if (u, v) in arcs then before[v] - 1 else before[v]
  {
    if (u, v) in arcs {
      OneFewer(arcs, n, before, done, u, v);
    } else {
      assert Preds(arcs, v) - (done + {u}) == Preds(arcs, v) - done;
    }
  }

  /** What the counts become once `u` is done too: one less for each target of `u`. */
  ghost function CountsAfter(arcs: Arcs, n: nat, before: seq<nat>, done: set<NodeId>, u: NodeId, targets: seq<NodeId>): (after: seq<nat>)
    requires Counts(arcs, n, before, done) && u !in done
    requires forall v: NodeId :: v in targets <==> (u, v) in arcs
    ensures Counts(arcs, n, after, done + {u})
    ensures forall v | 0 <= v < n :: if v in targets then before[v] > 0 && after[v] == before[v] - 1 else after[v] == before[v]
  {
    var after: seq<nat> := seq(n, v requires 0 <= v < n => |Preds(arcs, v) - (done + {u})|);
    assert forall v | 0 <= v < n :: if v in targets then before[v] > 0 && after[v] == before[v] - 1 else after[v] == before[v] by {
      forall v | 0 <= v < n ensures if v in targets then before[v] > 0 && after[v] == before[v] - 1 else after[v] == before[v] {
        CountStep(arcs, n, before, done, u, v);
      }
    }
    after
  }

  /** When every node whose predecessors are all done is itself done, an acyclic graph is done. */
  lemma {:induction false} RankedDone(arcs: Arcs, n: nat, done: set<NodeId>, rank: seq<nat>, v: NodeId)
    requires InBounds(arcs, n) && |rank| == n && GrowsAlong(arcs, rank) && v < n
    requires forall w: NodeId | w < n && Preds(arcs, w) <= done :: w in done
    ensures v in done
    decreases rank[v]
  {
    forall u | u in Preds(arcs, v) ensures u in done {
      assert (u, v) in arcs;
      RankedDone(arcs, n, done, rank, u);
    }
  }

  lemma AcyclicDone(arcs: Arcs, n: nat, done: set<NodeId>)
    requires InBounds(arcs, n)
    requires forall w: NodeId | w < n && Preds(arcs, w) <= done :: w in done
    ensures Acyclic(arcs, n) ==> forall v: NodeId | v < n :: v in done
  {
    if Acyclic(arcs, n) {
      var rank: seq<nat> :| |rank| == n && GrowsAlong(arcs, rank);
      forall v: NodeId | v < n ensures v in done {
        RankedDone(arcs, n, done, rank, v);
      }
    }
  }

  // ---------------------------------------------------------------------------
  // The state of Kahn's algorithm: nodes already output, nodes waiting in the queue
  // ---------------------------------------------------------------------------

  ghost predicate Queued(arcs: Arcs, n: nat, out: seq<NodeId>, q: seq<NodeId>) {
    && NoDup(out + q)
    && (forall w: NodeId :: w in out + q <==> w < n && Preds(arcs, w) <= Elements(out))
    && RespectsArcs(arcs, out)
  }

  lemma Stuck(arcs: Arcs, n: nat, out: seq<NodeId>)
    requires InBounds(arcs, n) && Queued(arcs, n, out, [])
    ensures |out| != n ==> !Acyclic(arcs, n)
    ensures |out| == n ==> IsTopological(arcs, n, out) && Acyclic(arcs, n)
  {
    assert out + [] == out;
    AcyclicDone(arcs, n, Elements(out));
    NoDupSize(out, Elements(out));
    BoundedSize(n, out);
    if |out| == n {
      TopologicalRanks(arcs, n, out);
    } else {
      assert Elements(out) != Range(n);
    }
  }

  lemma TakeHead(arcs: Arcs, n: nat, out: seq<NodeId>, q: seq<NodeId>)
    requires q != [] && Queued(arcs, n, out, q)
    ensures q[0] < n && q[0] !in Elements(out) && |out| < n
    ensures RespectsArcs(arcs, out + [q[0]])
    ensures Elements(out + [q[0]]) == Elements(out) + {q[0]}
  {
    var u, all := q[0], out + q;
    assert all[|out|] == u && u in all;
    BoundedSize(n, all);
    assert forall i | 0 <= i < |out| :: out[i] == all[i];
    var more := out + [u];
    forall i | 0 <= i < |more| ensures Preds(arcs, more[i]) <= Elements(more[..i]) {
      assert more[..i] == out[..i];
      assert i == |out| ==> out[..i] == out;
    }
  }

  lemma {:induction false} TakeReady(arcs: Arcs, n: nat, out: seq<NodeId>, q: seq<NodeId>, ready: seq<NodeId>)
    requires q != [] && Queued(arcs, n, out, q) && NoDup(ready)
    requires forall v: NodeId :: v in ready <==> v < n && q[0] in Preds(arcs, v) && Preds(arcs, v) <= Elements(out) + {q[0]}
    ensures Queued(arcs, n, out + [q[0]], q[1..] + ready)
  {
    var u := q[0];
    TakeHead(arcs, n, out, q);
    var all := out + q;
    assert out + [u] + (q[1..] + ready) == all + ready;
    forall i, j | 0 <= i < |all| && 0 <= j < |ready| ensures all[i] != ready[j] {
      assert all[i] in all && ready[j] in ready;
      assert u in Preds(arcs, ready[j]) && u !in Elements(out);
    }
    forall w: NodeId ensures w in all + ready <==> w < n && Preds(arcs, w) <= Elements(out) + {u} {
      var p := Preds(arcs, w);
      assert p <= Elements(out) + {u} && u !in p ==> p <= Elements(out);
    }
  }

  function IndexOf(order: seq<NodeId>, v: NodeId): (i: nat)
    requires v in order
    ensures i < |order| && order[i] == v
  {
    if order[0] == v then 0 else 1 + IndexOf(order[1..], v)
  }

  lemma TopologicalRanks(arcs: Arcs, n: nat, order: seq<NodeId>)
    requires InBounds(arcs, n) && IsTopological(arcs, n, order)
    ensures Acyclic(arcs, n)
  {
    var rank: seq<nat> := seq(n, v requires 0 <= v < n => assert v as NodeId in order; IndexOf(order, v));
    forall e | e in arcs ensures rank[e.0] < rank[e.1] {
      var u, v := e.0, e.1;
      assert u in Preds(arcs, v) && v in order && u in order;
      var i := IndexOf(order, v);
      assert u in Elements(order[..i]);
      var j :| 0 <= j < i && order[j] == u;
      assert order[IndexOf(order, u)] == order[j];
    }
    assert GrowsAlong(arcs, rank);
  }

  // ---------------------------------------------------------------------------
  // The state of the layer loop: layers so far, nodes in them, nodes ready now
  // ---------------------------------------------------------------------------

  ghost function Relevel(level: seq<nat>, layer: seq<NodeId>, d: nat): (r: seq<nat>)
    ensures |r| == |level|
    ensures forall v | 0 <= v < |level| :: r[v] == if v in layer then d else level[v]
  {
    seq(|level|, v requires 0 <= v < |level| => if v in layer then d else level[v])
  }

  ghost predicate Placed(n: nat, layers: seq<seq<NodeId>>, level: seq<nat>, done: set<NodeId>) {
    && |level| == n
    && (forall v: NodeId | v in done :: v < n && level[v] < |layers| && v in layers[level[v]])
    && (forall d: nat, v: NodeId {:trigger v in layers[d]} | d < |layers| && v in layers[d] :: v in done && level[v] == d)
    && (forall d | 0 <= d < |layers| :: layers[d] != [] && Ascending(layers[d]))
  }

  /** Predecessors of a done node are done, and on lower levels. */
  ghost predicate Grounded(arcs: Arcs, n: nat, level: seq<nat>, done: set<NodeId>) {
    && |level| == n
    && (forall v: NodeId | v in done :: v < n)
    && (forall e | e in arcs && e.1 in done :: e.0 in done && level[e.0] < level[e.1])
  }

  ghost predicate AllHaveParents(arcs: Arcs, level: seq<nat>, done: set<NodeId>)
    requires forall v: NodeId | v in done :: v < |level|
  {
    forall v {:trigger HasParent(arcs, level, v)} | v in done && level[v] > 0 :: HasParent(arcs, level, v)
  }

  /** The frontier is what is ready now. */
  ghost predicate IsFrontier(arcs: Arcs, n: nat, done: set<NodeId>, frontier: set<NodeId>) {
    forall v: NodeId :: v in frontier <==> v < n && v !in done && Preds(arcs, v) <= done
  }

  /** Every frontier node waited for a node of the last layer. */
  ghost predicate WaitedForLast(arcs: Arcs, depth: nat, level: seq<nat>, done: set<NodeId>, frontier: set<NodeId>)
    requires forall v: NodeId | v in done :: v < |level|
  {
    depth > 0 ==> forall v | v in frontier :: exists u :: u in Preds(arcs, v) && u in done && level[u] + 1 == depth
  }

  ghost predicate Peeled(arcs: Arcs, n: nat, layers: seq<seq<NodeId>>, level: seq<nat>, done: set<NodeId>, frontier: set<NodeId>) {
    && Placed(n, layers, level, done)
    && Grounded(arcs, n, level, done)
    && AllHaveParents(arcs, level, done)
    && IsFrontier(arcs, n, done, frontier)
    && WaitedForLast(arcs, |layers|, level, done, frontier)
  }

  lemma PeelPlaced(n: nat, layers: seq<seq<NodeId>>, level: seq<nat>, done: set<NodeId>, layer: seq<NodeId>)
    requires Placed(n, layers, level, done) && layer != [] && Ascending(layer)
    requires forall v: NodeId | v in layer :: v < n && v !in done
    ensures Placed(n, layers + [layer], Relevel(level, layer, |layers|), done + Elements(layer))
  {
  }

  lemma PeelParents(arcs: Arcs, n: nat, depth: nat, level: seq<nat>, done: set<NodeId>, frontier: set<NodeId>, layer: seq<NodeId>)
    requires Grounded(arcs, n, level, done) && AllHaveParents(arcs, level, done)
    requires WaitedForLast(arcs, depth, level, done, frontier)
    requires forall v: NodeId | v in layer :: v in frontier && v < n && v !in done
    ensures AllHaveParents(arcs, Relevel(level, layer, depth), done + Elements(layer))
  {
    var level', done' := Relevel(level, layer, depth), done + Elements(layer);
    forall v | v in done' && level'[v] > 0 ensures HasParent(arcs, level', v) {
      if v in layer {
        var u :| u in Preds(arcs, v) && u in done && level[u] + 1 == depth;
      } else {
        assert HasParent(arcs, level, v);
        var u :| u in Preds(arcs, v) && u < |level| && level[u] + 1 == level[v];
        assert (u, v) in arcs;
      }
    }
  }

  lemma PeelSize(n: nat, done: set<NodeId>, layer: seq<NodeId>)
    requires Ascending(layer) && forall v: NodeId | v in layer :: v !in done
    requires forall v | v in done + Elements(layer) :: v < n
    ensures |done + Elements(layer)| == |done| + |layer| <= n
  {
    NoDupSize(layer, Elements(layer));
    assert done !! Elements(layer);
    SubsetSize(done + Elements(layer), Range(n));
  }

  lemma {:induction false} PeelLayer(arcs: Arcs, n: nat, layers: seq<seq<NodeId>>, level: seq<nat>, done: set<NodeId>, frontier: set<NodeId>, layer: seq<NodeId>, next: set<NodeId>)
    requires Peeled(arcs, n, layers, level, done, frontier) && layer != [] && Ascending(layer)
    requires forall v: NodeId :: v in layer <==> v in frontier
    requires forall v: NodeId :: v in next <==> v < n && Preds(arcs, v) <= done + Elements(layer) && !(Preds(arcs, v) <= done)
    ensures Peeled(arcs, n, layers + [layer], Relevel(level, layer, |layers|), done + Elements(layer), next)
    ensures |done + Elements(layer)| == |done| + |layer| <= n
  {
    PeelPlaced(n, layers, level, done, layer);
    PeelParents(arcs, n, |layers|, level, done, frontier, layer);
    PeelSize(n, done, layer);
  }

  /** When the frontier is empty, either everything is layered or the graph has a cycle. */
  lemma PeeledOut(arcs: Arcs, n: nat, layers: seq<seq<NodeId>>, level: seq<nat>, done: set<NodeId>)
    requires InBounds(arcs, n) && Peeled(arcs, n, layers, level, done, {})
    ensures |done| == n ==> LayeredBy(arcs, n, layers, level) && Acyclic(arcs, n)
    ensures |done| != n ==> !Acyclic(arcs, n)
  {
    NothingReady(arcs, n, done);
    assert done <= Range(n);
    SubsetSize(done, Range(n));
    if Range(n) <= done {
      assert done == Range(n);
    }
  }

  lemma NothingReady(arcs: Arcs, n: nat, done: set<NodeId>)
    requires InBounds(arcs, n) && IsFrontier(arcs, n, done, {})
    ensures Acyclic(arcs, n) ==> Range(n) <= done
  {
    var frontier: set<NodeId> := {};
    assert forall w: NodeId | w < n && Preds(arcs, w) <= done :: w !in frontier;
    AcyclicDone(arcs, n, done);
  }

}
