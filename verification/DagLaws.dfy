/** What the layers guarantee, for every list of intents. */
module SchedulingLaws {
  import opened Types
  import opened Sorting
  import opened Graph
  import opened Semantics
  import opened Scheduling

  // ---------------------------------------------------------------------------
  // No cycles
  // ---------------------------------------------------------------------------

  /** The edges of any intent list are acyclic, so `TopoOrder` and `Layers` never report a cycle. */
  lemma EdgesAreAcyclic(intents: seq<UserIntent>, arcs: Arcs)
    requires IsEdgeSet(intents, arcs)
    ensures InBounds(arcs, |intents|) && Acyclic(arcs, |intents|)
  {
    var n := |intents|;
    var rank: seq<nat> := seq(n, v requires 0 <= v < n => RankOf(intents, v));
    forall e | e in arcs ensures e.0 < n && e.1 < n && rank[e.0] < rank[e.1] {
      EdgeClimbs(intents, e.0, e.1);
    }
    assert GrowsAlong(arcs, rank);
  }

  /** The place of an intent in the order of keys: priority first, then index. */
  function RankOf(intents: seq<UserIntent>, v: NodeId): nat
    requires v < |intents|
  {
    Steps(255 - intents[v].priority, |intents|) + v
  }

  function Steps(count: nat, size: nat): nat {
    if count == 0 then 0 else size + Steps(count - 1, size)
  }

  lemma EdgeClimbs(intents: seq<UserIntent>, u: NodeId, v: NodeId)
    requires u < |intents| && v < |intents| && Edge(intents, u, v)
    ensures RankOf(intents, u) < RankOf(intents, v)
  {
    if intents[u].priority > intents[v].priority {
      StepsGrow(255 - intents[u].priority, 255 - intents[v].priority, |intents|);
    }
  }

  lemma {:induction false} StepsGrow(a: nat, b: nat, size: nat)
    requires a < b
    ensures Steps(a, size) + size <= Steps(b, size)
  {
    if a + 1 < b {
      StepsGrow(a, b - 1, size);
    }
  }

  // ---------------------------------------------------------------------------
  // Layers are longest paths
  // ---------------------------------------------------------------------------

  /** A path is a non-empty list of nodes, each with an arc to the next. */
  ghost predicate IsPath(arcs: Arcs, path: seq<NodeId>) {
    path != [] && forall i | 0 <= i < |path| - 1 :: (path[i], path[i + 1]) in arcs
  }

  ghost predicate PathTo(arcs: Arcs, path: seq<NodeId>, v: NodeId) {
    IsPath(arcs, path) && path[|path| - 1] == v
  }

  /** The longest path that ends at `v` has `d` edges. */
  ghost predicate LongestPathTo(arcs: Arcs, v: NodeId, d: nat) {
    && (exists path :: PathTo(arcs, path, v) && |path| == d + 1)
    && (forall path | PathTo(arcs, path, v) :: |path| <= d + 1)
  }

  lemma {:induction false} PathClimbs(arcs: Arcs, n: nat, level: seq<nat>, path: seq<NodeId>, v: NodeId)
    requires InBounds(arcs, n) && |level| == n && GrowsAlong(arcs, level) && v < n
    requires PathTo(arcs, path, v)
    ensures |path| <= level[v] + 1
  {
    if |path| > 1 {
      var front := path[..|path| - 1];
      var u := front[|front| - 1];
      assert (path[|path| - 2], path[|path| - 1]) in arcs;
      PathClimbs(arcs, n, level, front, u);
    }
  }

  lemma {:induction false} PathOfLevel(arcs: Arcs, level: seq<nat>, v: NodeId) returns (path: seq<NodeId>)
    requires v < |level| && Parented(arcs, level)
    ensures PathTo(arcs, path, v) && |path| == level[v] + 1
    decreases level[v]
  {
    if level[v] == 0 {
      path := [v];
    } else {
      assert HasParent(arcs, level, v);
      var u :| u in Preds(arcs, v) && u < |level| && level[u] + 1 == level[v];
      path := PathOfLevel(arcs, level, u);
      assert (u, v) in arcs;
      path := path + [v];
    }
  }

  /** A node is in layer `d` exactly when the longest path ending at it has `d` edges. */
  lemma LayerIsLongestPath(arcs: Arcs, n: nat, layers: seq<seq<NodeId>>, level: seq<nat>, v: NodeId, d: nat)
    requires InBounds(arcs, n) && LayeredBy(arcs, n, layers, level) && v < n
    ensures (d < |layers| && v in layers[d]) <==> LongestPathTo(arcs, v, d)
  {
    var path := PathOfLevel(arcs, level, v);
    forall other | PathTo(arcs, other, v) ensures |other| <= level[v] + 1 {
      PathClimbs(arcs, n, level, other, v);
    }
    assert LongestPathTo(arcs, v, level[v]);
    assert LongestPathTo(arcs, v, d) ==> d == level[v];
  }

  // ---------------------------------------------------------------------------
  // No schedule that respects the arcs is shorter, and the layers are unique
  // ---------------------------------------------------------------------------

  lemma {:induction false} LevelIsLowest(arcs: Arcs, level: seq<nat>, rank: seq<nat>, v: NodeId)
    requires |rank| == |level| && v < |level|
    requires Parented(arcs, level) && GrowsAlong(arcs, rank)
    ensures level[v] <= rank[v]
    decreases level[v]
  {
    if level[v] > 0 {
      assert HasParent(arcs, level, v);
      var u :| u in Preds(arcs, v) && u < |level| && level[u] + 1 == level[v];
      assert (u, v) in arcs;
      LevelIsLowest(arcs, level, rank, u);
    }
  }

  lemma LastLayerNode(n: nat, layers: seq<seq<NodeId>>, level: seq<nat>) returns (v: NodeId)
    requires Positions(n, layers, level) && layers != []
    ensures v < n && level[v] == |layers| - 1
  {
    var last: nat := |layers| - 1;
    v := layers[last][0];
    assert v in layers[last];
  }

  /** Any assignment of nodes to `k` steps that respects the arcs has at least as many steps as there are layers. */
  lemma FewestLayers(arcs: Arcs, n: nat, layers: seq<seq<NodeId>>, level: seq<nat>, step: seq<nat>, k: nat)
    requires LayeredBy(arcs, n, layers, level)
    requires |step| == n && GrowsAlong(arcs, step) && forall v | 0 <= v < n :: step[v] < k
    ensures |layers| <= k
  {
    if layers != [] {
      var v := LastLayerNode(n, layers, level);
      LevelIsLowest(arcs, level, step, v);
    }
  }

  lemma FirstIsIn(s: seq<NodeId>)
    ensures s == [] || s[0] in s
  {
  }

  lemma {:induction false} AscendingUnique(a: seq<NodeId>, b: seq<NodeId>)
    requires Ascending(a) && Ascending(b) && forall v: NodeId :: v in a <==> v in b
    ensures a == b
  {
    FirstIsIn(a);
    FirstIsIn(b);
    if a != [] && b != [] {
      var x, s, t := a[0], a[1..], b[1..];
      assert a == [x] + s && b == [x] + t;
      assert x !in s && x !in t;
      forall v: NodeId ensures v in s <==> v in t {
        assert v in a <==> v == x || v in s;
        assert v in b <==> v == x || v in t;
      }
      AscendingUnique(s, t);
    }
  }

  lemma SameLevels(arcs: Arcs, n: nat, level: seq<nat>, level': seq<nat>)
    requires |level| == |level'| == n
    requires GrowsAlong(arcs, level) && Parented(arcs, level)
    requires GrowsAlong(arcs, level') && Parented(arcs, level')
    ensures level == level'
  {
    forall v | 0 <= v < n ensures level[v] == level'[v] {
      LevelIsLowest(arcs, level, level', v);
      LevelIsLowest(arcs, level', level, v);
    }
  }

  lemma LayerCount(n: nat, layers: seq<seq<NodeId>>, layers': seq<seq<NodeId>>, level: seq<nat>)
    requires Positions(n, layers, level) && Positions(n, layers', level)
    ensures |layers| <= |layers'|
  {
    if layers != [] {
      var v := LastLayerNode(n, layers, level);
    }
  }

  /** The layers are a function of the arcs: nothing else, such as the order in which accounts were visited, matters. */
  lemma LayersUnique(arcs: Arcs, n: nat, layers: seq<seq<NodeId>>, level: seq<nat>, layers': seq<seq<NodeId>>, level': seq<nat>)
    requires LayeredBy(arcs, n, layers, level) && LayeredBy(arcs, n, layers', level')
    ensures layers == layers' && level == level'
  {
    SameLevels(arcs, n, level, level');
    LayerCount(n, layers, layers', level);
    LayerCount(n, layers', layers, level);
    forall d | 0 <= d < |layers| ensures layers[d] == layers'[d] {
      assert forall v: NodeId :: v in layers[d] <==> v in layers'[d];
      AscendingUnique(layers[d], layers'[d]);
    }
  }

  // ---------------------------------------------------------------------------
  // Running layer by layer versus running in key order
  // ---------------------------------------------------------------------------

  function AccessOf(intents: seq<UserIntent>): (acc: seq<Access>)
    ensures |acc| == |intents|
    ensures forall i | 0 <= i < |intents| :: acc[i] == Access(Touches(intents[i]), Writes(intents[i]))
  {
    seq(|intents|, i requires 0 <= i < |intents| => Access(Touches(intents[i]), Writes(intents[i])))
  }

  /** All nodes, in the planner's key order. */
  ghost predicate IsKeyOrder(intents: seq<UserIntent>, serial: seq<NodeId>) {
    && InRange(serial, |intents|)
    && (forall v: NodeId | v < |intents| :: v in serial)
    && (forall i, j | 0 <= i < j < |serial| :: Before(intents, serial[i], serial[j]))
  }

  /** `order` runs the layers one after another, each in any internal order. */
  ghost predicate IsSchedule(layers: seq<seq<NodeId>>, order: seq<NodeId>) {
    if layers == [] then order == []
    else
      && |layers[0]| <= |order|
      && multiset(order[..|layers[0]|]) == multiset(layers[0])
      && IsSchedule(layers[1..], order[|layers[0]|..])
  }

  /** Whatever the intents compute, on any accounts, every schedule has the outcome of the key order:
      the same final accounts, and the same values read by every intent. */
  ghost predicate SerialEquivalent(intents: seq<UserIntent>, layers: seq<seq<NodeId>>, serial: seq<NodeId>)
    requires InRange(serial, |intents|)
  {
    forall p: Program, s: State, order: seq<NodeId> | IsSchedule(layers, order) && InRange(order, |intents|) ::
      Run(p, AccessOf(intents), order, s) == Run(p, AccessOf(intents), serial, s)
  }

  /** Two intents clash when they share an account that one of them writes. */
  predicate Clashing(intents: seq<UserIntent>, u: NodeId, v: NodeId)
    requires u < |intents| && v < |intents|
  {
    Clash(AccessOf(intents)[u], AccessOf(intents)[v])
  }

  /** Of two clashing intents, the one first in key order is in an earlier layer. */
  ghost predicate ClashesLayered(intents: seq<UserIntent>, level: seq<nat>)
    requires |level| == |intents|
  {
    forall u, v | 0 <= u < |intents| && 0 <= v < |intents| && Before(intents, u, v) && Clashing(intents, u, v) ::
      level[u] < level[v]
  }

  /** Nodes by their place in the key order; what is past the last intent comes wherever its number puts it. */
  function ByRank(intents: seq<UserIntent>): (NodeId, NodeId) -> bool {
    (u: NodeId, v: NodeId) => RankOrSelf(intents, u) <= RankOrSelf(intents, v)
  }

  function RankOrSelf(intents: seq<UserIntent>, v: NodeId): nat {
    if v < |intents| then RankOf(intents, v) else v
  }

  lemma RankedBefore(intents: seq<UserIntent>, u: NodeId, v: NodeId)
    requires u < |intents| && v < |intents| && u != v && RankOf(intents, u) <= RankOf(intents, v)
    ensures Before(intents, u, v)
  {
    if intents[u].priority < intents[v].priority {
      StepsGrow(255 - intents[v].priority, 255 - intents[u].priority, |intents|);
    }
  }

  /** Every list of intents has a key order. */
  lemma KeyOrderExists(intents: seq<UserIntent>) returns (serial: seq<NodeId>)
    ensures IsKeyOrder(intents, serial)
  {
    var all: seq<NodeId> := seq(|intents|, i requires 0 <= i => i);
    serial := SortBy(ByRank(intents), all);
    SortBySorted(ByRank(intents), all);
    SameElements(all, serial);
    NoDupPermutation(all, serial);
    forall v: NodeId | v < |intents| ensures v in serial {
      assert all[v] == v;
    }
    forall i | 0 <= i < |serial| ensures serial[i] < |intents| {
      assert serial[i] in serial;
    }
    forall i, j | 0 <= i < j < |serial| ensures Before(intents, serial[i], serial[j]) {
      assert ByRank(intents)(serial[i], serial[j]);
      RankedBefore(intents, serial[i], serial[j]);
    }
  }

  lemma KeyOrderPrecedes(intents: seq<UserIntent>, serial: seq<NodeId>, u: NodeId, v: NodeId)
    requires IsKeyOrder(intents, serial) && u < |intents| && v < |intents|
    ensures Precedes(serial, u, v) <==> Before(intents, u, v)
  {
    var i, j := IndexOf(serial, u), IndexOf(serial, v);
  }

  // ---- what a schedule looks like ----

  lemma {:induction false} ScheduleElements(layers: seq<seq<NodeId>>, order: seq<NodeId>, v: NodeId)
    requires IsSchedule(layers, order)
    ensures v in order <==> exists d :: 0 <= d < |layers| && v in layers[d]
  {
    if layers != [] {
      var k := |layers[0]|;
      var rest := layers[1..];
      ScheduleElements(rest, order[k..], v);
      SameElements(order[..k], layers[0]);
      assert order == order[..k] + order[k..];
      if v in order[k..] {
        var d :| 0 <= d < |rest| && v in rest[d];
        assert v in layers[d + 1];
      }
      if exists d :: 0 <= d < |layers| && v in layers[d] {
        var d :| 0 <= d < |layers| && v in layers[d];
        assert d > 0 ==> v in rest[d - 1];
      }
    }
  }

  /** `level` numbers these layers from `shift` on. */
  ghost predicate Numbered(layers: seq<seq<NodeId>>, level: seq<nat>, shift: nat) {
    forall d: nat, v: NodeId {:trigger v in layers[d]} | d < |layers| && v in layers[d] :: v < |level| && level[v] == d + shift
  }

  /** Nodes appear in a schedule in the order of their layers. */
  lemma {:induction false} ScheduleClimbs(layers: seq<seq<NodeId>>, order: seq<NodeId>, level: seq<nat>, shift: nat, i: nat, j: nat)
    requires IsSchedule(layers, order) && i <= j < |order| && Numbered(layers, level, shift)
    ensures order[i] < |level| && order[j] < |level| && shift <= level[order[i]] <= level[order[j]]
    ensures layers != [] && i < |layers[0]| ==> level[order[i]] == shift
    ensures layers != [] && |layers[0]| <= j ==> shift < level[order[j]]
  {
    if layers != [] {
      var k, rest := |layers[0]|, layers[1..];
      var front, tail := order[..k], order[k..];
      SameElements(front, layers[0]);
      if i < k { assert order[i] == front[i] && front[i] in front; }
      if j < k { assert order[j] == front[j] && front[j] in front; }
      if k <= i {
        ScheduleClimbs(rest, tail, level, shift + 1, i - k, j - k);
      } else if k <= j {
        ScheduleClimbs(rest, tail, level, shift + 1, j - k, j - k);
      }
    }
  }

  lemma {:induction false} ScheduleNoDup(layers: seq<seq<NodeId>>, order: seq<NodeId>, level: seq<nat>, shift: nat)
    requires IsSchedule(layers, order) && Numbered(layers, level, shift)
    requires forall d | 0 <= d < |layers| :: NoDup(layers[d])
    ensures NoDup(order)
  {
    if layers != [] {
      var k, rest := |layers[0]|, layers[1..];
      var front, tail := order[..k], order[k..];
      NoDupPermutation(layers[0], front);
      ScheduleNoDup(rest, tail, level, shift + 1);
      forall i, j | 0 <= i < j < |order| ensures order[i] != order[j] {
        if j < k {
          assert front[i] != front[j];
        } else if k <= i {
          assert tail[i - k] != tail[j - k];
        } else {
          ScheduleClimbs(layers, order, level, shift, i, j);
        }
      }
    }
  }

  /** A schedule of the layers lists every node exactly once, in ascending layers. */
  lemma {:induction false} SchedulePermutes(n: nat, layers: seq<seq<NodeId>>, level: seq<nat>, order: seq<NodeId>)
    requires Positions(n, layers, level) && IsSchedule(layers, order)
    ensures NoDup(order) && InRange(order, n) && forall v: NodeId :: v in order <==> v < n
    ensures forall i, j | 0 <= i < j < |order| :: level[order[i]] <= level[order[j]]
  {
    ScheduleNoDup(layers, order, level, 0);
    forall v: NodeId ensures v in order <==> v < n {
      ScheduleElements(layers, order, v);
      if v < n { assert v in layers[level[v]]; }
    }
    assert forall i | 0 <= i < |order| :: order[i] in order;
    forall i, j | 0 <= i < j < |order| ensures level[order[i]] <= level[order[j]] {
      ScheduleClimbs(layers, order, level, 0, i, j);
    }
  }

  lemma SameNodes(a: seq<NodeId>, b: seq<NodeId>)
    requires NoDup(a) && NoDup(b) && forall v: NodeId :: v in a <==> v in b
    ensures multiset(a) == multiset(b)
  {
    NoDupCount(a);
    NoDupCount(b);
    forall v: NodeId ensures multiset(a)[v] == multiset(b)[v] {
      assert v in a <==> v in multiset(a);
      assert v in b <==> v in multiset(b);
    }
  }

  // ---- if clashes are layered, every schedule is serial ----

  lemma {:induction false} ScheduleKeepsClashes(intents: seq<UserIntent>, layers: seq<seq<NodeId>>, level: seq<nat>, serial: seq<NodeId>, order: seq<NodeId>)
    requires Positions(|intents|, layers, level) && IsKeyOrder(intents, serial)
    requires ClashesLayered(intents, level) && IsSchedule(layers, order)
    ensures InRange(order, |intents|) && KeepsClashes(AccessOf(intents), serial, order)
  {
    var acc := AccessOf(intents);
    SchedulePermutes(|intents|, layers, level, order);
    forall k, l | 0 <= k < l < |order| && Clash(acc[order[k]], acc[order[l]])
      ensures Precedes(serial, order[k], order[l])
    {
      var u, v := order[k], order[l];
      assert Clashing(intents, v, u);
      KeyOrderPrecedes(intents, serial, u, v);
    }
  }

  lemma LayeredClashesRunSerially(intents: seq<UserIntent>, layers: seq<seq<NodeId>>, level: seq<nat>, serial: seq<NodeId>)
    requires Positions(|intents|, layers, level) && IsKeyOrder(intents, serial)
    requires ClashesLayered(intents, level)
    ensures SerialEquivalent(intents, layers, serial)
  {
    var acc := AccessOf(intents);
    forall p: Program, s: State, order: seq<NodeId> | IsSchedule(layers, order) && InRange(order, |intents|)
      ensures Run(p, acc, order, s) == Run(p, acc, serial, s)
    {
      SchedulePermutes(|intents|, layers, level, order);
      assert forall i | 0 <= i < |serial| :: serial[i] in serial;
      SameNodes(serial, order);
      ScheduleKeepsClashes(intents, layers, level, serial, order);
      SameClashOrder(p, acc, serial, order, s);
    }
  }

  // ---- if some clash is not layered, some schedule is not serial ----

  function Front(layer: seq<NodeId>, v: NodeId): seq<NodeId> {
    if v in layer then [v] + layer[..IndexOf(layer, v)] + layer[IndexOf(layer, v) + 1..] else layer
  }

  /** The schedule that runs `v` first in its layer. */
  function EarlySchedule(layers: seq<seq<NodeId>>, v: NodeId): seq<NodeId> {
    if layers == [] then [] else Front(layers[0], v) + EarlySchedule(layers[1..], v)
  }

  lemma FrontPermutes(layer: seq<NodeId>, v: NodeId)
    ensures multiset(Front(layer, v)) == multiset(layer) && |Front(layer, v)| == |layer|
    ensures v in layer ==> Front(layer, v) != [] && Front(layer, v)[0] == v
  {
    if v in layer {
      var i := IndexOf(layer, v);
      assert layer == layer[..i] + [v] + layer[i + 1..];
    }
  }

  lemma {:induction false} EarlyIsSchedule(layers: seq<seq<NodeId>>, v: NodeId)
    ensures IsSchedule(layers, EarlySchedule(layers, v))
  {
    if layers != [] {
      var order := EarlySchedule(layers, v);
      FrontPermutes(layers[0], v);
      assert order[..|layers[0]|] == Front(layers[0], v);
      assert order[|layers[0]|..] == EarlySchedule(layers[1..], v);
      EarlyIsSchedule(layers[1..], v);
    }
  }

  lemma {:induction false} EarlyPrecedes(layers: seq<seq<NodeId>>, level: seq<nat>, shift: nat, v: NodeId, u: NodeId)
    requires Numbered(layers, level, shift) && u != v && u < |level| && v < |level|
    requires shift <= level[v] <= level[u] < shift + |layers|
    requires v in layers[level[v] - shift] && u in layers[level[u] - shift]
    ensures Precedes(EarlySchedule(layers, v), v, u)
  {
    var order, rest := EarlySchedule(layers, v), layers[1..];
    FrontPermutes(layers[0], v);
    EarlyIsSchedule(layers, v);
    if level[v] == shift {
      ScheduleElements(layers, order, u);
      assert order[0] == v;
    } else {
      EarlyPrecedes(rest, level, shift + 1, v, u);
    }
  }

  lemma LaterWriterIsAfter(intents: seq<UserIntent>, arcs: Arcs, level: seq<nat>, u: NodeId, v: NodeId, w: NodeId, a: Pubkey)
    requires IsEdgeSet(intents, arcs) && |level| == |intents| && GrowsAlong(arcs, level)
    requires u < |intents| && v < |intents| && w < |intents|
    requires a in Writes(intents[v]) && a in Writes(intents[w]) && level[v] <= level[w]
    requires Before(intents, u, v)
    ensures Before(intents, u, w)
  {
    var wEdge := Edge(intents, w, v);
    assert a in Touches(intents[v]);
    assert wEdge <==> Before(intents, w, v);
    assert wEdge ==> (w, v) in arcs;
  }

  ghost function ReadBy(intents: seq<UserIntent>, order: seq<NodeId>, u: NodeId): State
    requires InRange(order, |intents|)
  {
    var views := Run(Tagging(AccessOf(intents)), AccessOf(intents), order, map[]).views;
    if u in views then views[u] else map[]
  }

  lemma {:induction false} EarlyOrder(n: nat, layers: seq<seq<NodeId>>, level: seq<nat>, v: NodeId)
    requires Positions(n, layers, level)
    ensures var order := EarlySchedule(layers, v);
      && IsSchedule(layers, order) && NoDup(order) && InRange(order, n)
      && forall i, j | 0 <= i < j < |order| :: level[order[i]] <= level[order[j]]
  {
    EarlyIsSchedule(layers, v);
    SchedulePermutes(n, layers, level, EarlySchedule(layers, v));
  }

  lemma EarlyRunsFirst(n: nat, layers: seq<seq<NodeId>>, level: seq<nat>, u: NodeId, v: NodeId)
    requires Positions(n, layers, level) && u < n && v < n && u != v && level[v] <= level[u]
    ensures Precedes(EarlySchedule(layers, v), v, u)
  {
    assert u in layers[level[u]] && v in layers[level[v]];
    assert Numbered(layers, level, 0);
    EarlyPrecedes(layers, level, 0, v, u);
  }

  /** What a node reads of an account is what the last writer before it wrote. */
  lemma ReadsLatest(intents: seq<UserIntent>, order: seq<NodeId>, u: NodeId, v: NodeId, a: Pubkey) returns (w: NodeId)
    requires InRange(order, |intents|) && NoDup(order) && u < |intents| && v < |intents| && Precedes(order, v, u)
    requires a in Writes(intents[v]) && a in Touches(intents[u])
    ensures a in ReadBy(intents, order, u) && ReadBy(intents, order, u)[a] == w + 1
    ensures w < |intents| && a in Writes(intents[w]) && (w == v || Precedes(order, v, w))
  {
    w := ReadsLatestWriter(AccessOf(intents), order, map[], v, u, a);
  }

  lemma ReadsAlong(intents: seq<UserIntent>, arcs: Arcs, level: seq<nat>, order: seq<NodeId>, u: NodeId, v: NodeId, a: Pubkey) returns (w: NodeId)
    requires IsEdgeSet(intents, arcs) && |level| == |intents| && GrowsAlong(arcs, level)
    requires InRange(order, |intents|) && NoDup(order) && forall i, j | 0 <= i < j < |order| :: level[order[i]] <= level[order[j]]
    requires u < |intents| && v < |intents| && Before(intents, u, v) && Precedes(order, v, u)
    requires a in Writes(intents[v]) && a in Touches(intents[u])
    ensures a in ReadBy(intents, order, u) && ReadBy(intents, order, u)[a] == w + 1
    ensures w < |intents| && Before(intents, u, w)
  {
    w := ReadsLatest(intents, order, u, v, a);
    LaterWriterIsAfter(intents, arcs, level, u, v, w, a);
  }

  /** With `v` run as early as its layer allows, `u` reads what `v` or a later writer wrote. */
  lemma {:induction false} ReadsInEarlySchedule(intents: seq<UserIntent>, arcs: Arcs, layers: seq<seq<NodeId>>, level: seq<nat>, u: NodeId, v: NodeId, a: Pubkey) returns (w: NodeId)
    requires IsEdgeSet(intents, arcs) && LayeredBy(arcs, |intents|, layers, level)
    requires u < |intents| && v < |intents| && Before(intents, u, v) && level[v] <= level[u]
    requires a in Writes(intents[v]) && a in Touches(intents[u])
    ensures var order := EarlySchedule(layers, v);
      && IsSchedule(layers, order) && InRange(order, |intents|)
      && a in ReadBy(intents, order, u) && ReadBy(intents, order, u)[a] == w + 1
    ensures w < |intents| && Before(intents, u, w)
  {
    var order := EarlySchedule(layers, v);
    EarlyOrder(|intents|, layers, level, v);
    EarlyRunsFirst(|intents|, layers, level, u, v);
    w := ReadsAlong(intents, arcs, level, order, u, v, a);
  }

  /** In key order, `u` reads only what intents before it wrote. */
  lemma ReadsInKeyOrder(intents: seq<UserIntent>, serial: seq<NodeId>, u: NodeId, a: Pubkey, w: NodeId)
    requires IsKeyOrder(intents, serial) && u < |intents| && w < |intents| && a in Touches(intents[u]) && Before(intents, u, w)
    ensures a in ReadBy(intents, serial, u) ==> ReadBy(intents, serial, u)[a] != w + 1
  {
    var w' := ReadsEarlierWriter(AccessOf(intents), serial, map[], u, a);
    if w' == w {
      KeyOrderPrecedes(intents, serial, w, u);
    }
  }

  /** A clash that is not layered shows: some schedule lets `u` read what the key order would not. */
  lemma UnlayeredClashShows(intents: seq<UserIntent>, arcs: Arcs, layers: seq<seq<NodeId>>, level: seq<nat>, serial: seq<NodeId>, u: NodeId, v: NodeId)
    requires IsEdgeSet(intents, arcs) && LayeredBy(arcs, |intents|, layers, level) && IsKeyOrder(intents, serial)
    requires u < |intents| && v < |intents| && Before(intents, u, v) && Clashing(intents, u, v) && level[v] <= level[u]
    ensures !SerialEquivalent(intents, layers, serial)
  {
    var acc, order := AccessOf(intents), EarlySchedule(layers, v);
    var a := HazardAccount(intents, arcs, level, u, v);
    var w := ReadsInEarlySchedule(intents, arcs, layers, level, u, v, a);
    ReadsInKeyOrder(intents, serial, u, a, w);
    assert ReadBy(intents, order, u) != ReadBy(intents, serial, u);
    assert Run(Tagging(acc), acc, order, map[]) != Run(Tagging(acc), acc, serial, map[]);
  }

  /** An unlayered clash is a reader followed by a writer. */
  lemma HazardAccount(intents: seq<UserIntent>, arcs: Arcs, level: seq<nat>, u: NodeId, v: NodeId) returns (a: Pubkey)
    requires IsEdgeSet(intents, arcs) && |level| == |intents| && GrowsAlong(arcs, level)
    requires u < |intents| && v < |intents| && Before(intents, u, v) && Clashing(intents, u, v) && level[v] <= level[u]
    ensures a in Writes(intents[v]) && a in Touches(intents[u]) && a !in Writes(intents[u])
  {
    assert Edge(intents, u, v) ==> (u, v) in arcs;
    assert !Edge(intents, u, v);
    var wu, tv, wv, tu := Writes(intents[u]), Touches(intents[v]), Writes(intents[v]), Touches(intents[u]);
    assert forall k | k in wu * tv :: k in wu && k in tv;
    assert wu * tv == {};
    a :| a in wv * tu;
    assert AccessOf(intents)[v].writes <= AccessOf(intents)[v].touches;
  }

  /** `v` writes an account that `u`, earlier in key order, touches. */
  predicate WrittenLater(intents: seq<UserIntent>, u: NodeId, v: NodeId)
    requires u < |intents| && v < |intents|
  {
    Before(intents, u, v) && exists a :: a in Touches(intents[u]) && a in Writes(intents[v])
  }

  /** Some path of edges to `v` is longer than every path to `u`. */
  ghost predicate OutrunBy(arcs: Arcs, u: NodeId, v: NodeId) {
    exists path :: PathTo(arcs, path, v) && forall other | PathTo(arcs, other, u) :: |other| < |path|
  }

  /** Whoever writes what an earlier intent touches is held back by other edges for longer than that intent. */
  ghost predicate WritersWait(intents: seq<UserIntent>, arcs: Arcs) {
    forall u, v | 0 <= u < |intents| && 0 <= v < |intents| && WrittenLater(intents, u, v) :: OutrunBy(arcs, u, v)
  }

  lemma OutrunMeansLater(arcs: Arcs, n: nat, level: seq<nat>, u: NodeId, v: NodeId)
    requires InBounds(arcs, n) && |level| == n && GrowsAlong(arcs, level) && Parented(arcs, level)
    requires u < n && v < n
    ensures OutrunBy(arcs, u, v) <==> level[u] < level[v]
  {
    var pu := PathOfLevel(arcs, level, u);
    var pv := PathOfLevel(arcs, level, v);
    if OutrunBy(arcs, u, v) {
      var path :| PathTo(arcs, path, v) && forall other | PathTo(arcs, other, u) :: |other| < |path|;
      PathClimbs(arcs, n, level, path, v);
    }
    if level[u] < level[v] {
      forall other | PathTo(arcs, other, u) ensures |other| < |pv| {
        PathClimbs(arcs, n, level, other, u);
      }
    }
  }

  lemma ClashKinds(intents: seq<UserIntent>, u: NodeId, v: NodeId)
    requires u < |intents| && v < |intents| && Before(intents, u, v)
    ensures Clashing(intents, u, v) <==> Edge(intents, u, v) || WrittenLater(intents, u, v)
  {
    var wu, tv, wv, tu := Writes(intents[u]), Touches(intents[v]), Writes(intents[v]), Touches(intents[u]);
    assert forall k :: k in wu && k in tv <==> k in wu * tv;
    assert forall k :: k in wv && k in tu <==> k in wv * tu;
  }

  lemma WaitingIsLayering(intents: seq<UserIntent>, arcs: Arcs, layers: seq<seq<NodeId>>, level: seq<nat>)
    requires IsEdgeSet(intents, arcs) && LayeredBy(arcs, |intents|, layers, level)
    ensures WritersWait(intents, arcs) <==> ClashesLayered(intents, level)
  {
    EdgesAreAcyclic(intents, arcs);
    forall u: NodeId, v: NodeId | u < |intents| && v < |intents| && Before(intents, u, v)
      ensures Clashing(intents, u, v) ==> (level[u] < level[v] <==> (WrittenLater(intents, u, v) ==> OutrunBy(arcs, u, v)))
      ensures WrittenLater(intents, u, v) ==> Clashing(intents, u, v)
    {
      ClashKinds(intents, u, v);
      OutrunMeansLater(arcs, |intents|, level, u, v);
      assert Edge(intents, u, v) ==> (u, v) in arcs;
    }
  }

  /** Every schedule of the layers behaves like the key order exactly when writers wait for the readers before them. */
  lemma SerialExactly(intents: seq<UserIntent>, arcs: Arcs, layers: seq<seq<NodeId>>, level: seq<nat>, serial: seq<NodeId>)
    requires IsEdgeSet(intents, arcs) && LayeredBy(arcs, |intents|, layers, level) && IsKeyOrder(intents, serial)
    ensures SerialEquivalent(intents, layers, serial) <==> WritersWait(intents, arcs)
  {
    WaitingIsLayering(intents, arcs, layers, level);
    if ClashesLayered(intents, level) {
      LayeredClashesRunSerially(intents, layers, level, serial);
    } else {
      var u, v :| 0 <= u < |intents| && 0 <= v < |intents| && Before(intents, u, v) && Clashing(intents, u, v) && level[u] >= level[v];
      UnlayeredClashShows(intents, arcs, layers, level, serial, u, v);
    }
  }

  /** No intent only reads an account that a later intent in key order writes. */
  predicate NoReaderBeforeWriter(intents: seq<UserIntent>) {
    forall u, v | 0 <= u < |intents| && 0 <= v < |intents| && Before(intents, u, v) ::
      forall a | a in Writes(intents[v]) && a in Touches(intents[u]) :: a in Writes(intents[u])
  }

  /** Without readers that precede a writer of the same account, running the layers is running in key order. */
  lemma SerialWithoutEarlyReaders(intents: seq<UserIntent>, arcs: Arcs, layers: seq<seq<NodeId>>, level: seq<nat>, serial: seq<NodeId>)
    requires IsEdgeSet(intents, arcs) && LayeredBy(arcs, |intents|, layers, level) && IsKeyOrder(intents, serial)
    requires NoReaderBeforeWriter(intents)
    ensures SerialEquivalent(intents, layers, serial)
  {
    forall u, v | 0 <= u < |intents| && 0 <= v < |intents| && Before(intents, u, v) && Clashing(intents, u, v)
      ensures level[u] < level[v]
    {
      ClashKinds(intents, u, v);
      if WrittenLater(intents, u, v) {
        var a :| a in Touches(intents[u]) && a in Writes(intents[v]);
        assert AccessOf(intents)[v].writes <= AccessOf(intents)[v].touches;
        assert a in Writes(intents[u]) && a in Touches(intents[v]);
      }
      assert (u, v) in arcs;
    }
    LayeredClashesRunSerially(intents, layers, level, serial);
  }

  // ---- the smallest plan that shows it ----

  function Touching(k: Pubkey, access: AccessKind, priority: Byte): UserIntent {
    UserIntent(UniformKey(0), Instruction(UniformKey(0), [], []), [AccountAccess(k, access)], priority, None)
  }

  /** An intent reads an account at priority 5, another writes it at priority 4: no edge, one layer,
      and not every schedule of that layer behaves like the key order. */
  lemma ReadThenWriteIsUnordered()
    ensures var intents := [Touching(UniformKey(1), ReadOnly, 5), Touching(UniformKey(1), Writable, 4)];
      && Before(intents, 0, 1)
      && IsEdgeSet(intents, {})
      && LayeredBy({}, 2, [[0, 1]], [0, 0])
      && !SerialEquivalent(intents, [[0, 1]], [0, 1])
  {
    var k := UniformKey(1);
    var intents := [Touching(k, ReadOnly, 5), Touching(k, Writable, 4)];
    var serial: seq<NodeId> := [0, 1];
    assert intents[0].accesses[0] == AccountAccess(k, ReadOnly) && intents[1].accesses[0] == AccountAccess(k, Writable);
    assert Writes(intents[0]) == {};
    assert AccountAccess(k, Writable) in intents[1].accesses && AccountAccess(k, ReadOnly) in intents[0].accesses;
    assert k in Touches(intents[0]) && k in Writes(intents[1]);
    assert IsEdgeSet(intents, {});
    var layers: seq<seq<NodeId>> := [[0, 1]];
    var level: seq<nat> := [0, 0];
    assert Positions(2, layers, level);
    assert Before(intents, 0, 1);
    assert IsKeyOrder(intents, serial) by {
      assert serial[0] == 0 && serial[1] == 1;
    }
    assert WrittenLater(intents, 0, 1);
    ClashKinds(intents, 0, 1);
    UnlayeredClashShows(intents, {}, layers, level, serial, 0, 1);
  }
}
