/** The conflict DAG: which intent must run before which, a topological order, and the layers. */
module Scheduling {
  import opened Types
  import opened Sorting
  import opened Graph

  datatype DagError = CycleDetected

  // ---------------------------------------------------------------------------
  // What the edges mean, read off the intents alone
  // ---------------------------------------------------------------------------

  function Touches(i: UserIntent): set<Pubkey> {
    set a | a in i.accesses :: a.pubkey
  }

  function Writes(i: UserIntent): set<Pubkey> {
    set a | a in i.accesses && a.access == Writable :: a.pubkey
  }

  /** The planner's order key: higher priority first, then the earlier index. */
  predicate Before(intents: seq<UserIntent>, u: NodeId, v: NodeId)
    requires u < |intents| && v < |intents|
  {
    intents[u].priority > intents[v].priority || (intents[u].priority == intents[v].priority && u < v)
  }

  /** `u` must run before `v`: it comes first in the key order and writes an account that `v` touches. */
  predicate Edge(intents: seq<UserIntent>, u: NodeId, v: NodeId)
    requires u < |intents| && v < |intents|
  {
    Before(intents, u, v) && exists k :: k in Writes(intents[u]) && k in Touches(intents[v])
  }

  ghost predicate IsEdgeSet(intents: seq<UserIntent>, arcs: Arcs) {
    forall u: NodeId, v: NodeId ::
      (u, v) in arcs <==> u < |intents| && v < |intents| && Edge(intents, u, v)
  }

  // ---------------------------------------------------------------------------
  // The graph
  // ---------------------------------------------------------------------------

  datatype Conflict = Conflict(account: Pubkey, a: NodeId, b: NodeId)

  datatype Participant = Participant(node: NodeId, access: AccessKind, sortKey: (int, nat))

  function SortKey(intents: seq<UserIntent>, n: NodeId): (int, nat)
    requires n < |intents|
  {
    (-(intents[n].priority as int), n)
  }

  predicate ParticipantLeq(p: Participant, q: Participant) {
    p.sortKey.0 < q.sortKey.0 || (p.sortKey.0 == q.sortKey.0 && p.sortKey.1 <= q.sortKey.1)
  }

  ghost predicate ParticipantOf(intents: seq<UserIntent>, account: Pubkey, p: Participant) {
    && p.node < |intents|
    && AccountAccess(account, p.access) in intents[p.node].accesses
    && p.sortKey == SortKey(intents, p.node)
  }

  ghost predicate Participates(intents: seq<UserIntent>, account: Pubkey, parts: seq<Participant>) {
    forall i | 0 <= i < |parts| :: ParticipantOf(intents, account, parts[i])
  }

  /** The recorded conflicts name every arc exactly once, with an account that explains it. */
  ghost predicate Explains(intents: seq<UserIntent>, arcs: Arcs, conflicts: seq<Conflict>) {
    && (forall c | c in conflicts ::
          && (c.a, c.b) in arcs && c.a < |intents| && c.b < |intents|
          && c.account in Writes(intents[c.a]) && c.account in Touches(intents[c.b]))
    && (forall e | e in arcs :: exists i :: 0 <= i < |conflicts| && (conflicts[i].a, conflicts[i].b) == e)
    && (forall i, j | 0 <= i < j < |conflicts| ::
          (conflicts[i].a, conflicts[i].b) != (conflicts[j].a, conflicts[j].b))
  }

  function ConflictKey(c: Conflict): (Pubkey, NodeId, NodeId) {
    (c.account, c.a, c.b)
  }

  /** Every pair that `account` orders is an arc. */
  ghost predicate Chained(intents: seq<UserIntent>, account: Pubkey, arcs: Arcs) {
    forall u, v | 0 <= u < |intents| && 0 <= v < |intents| && Before(intents, u, v)
                  && account in Writes(intents[u]) && account in Touches(intents[v])
      :: (u, v) in arcs
  }

  ghost predicate OnlyEdges(intents: seq<UserIntent>, arcs: Arcs) {
    forall e | e in arcs :: e.0 < |intents| && e.1 < |intents| && Edge(intents, e.0, e.1)
  }

  ghost predicate AllChained(intents: seq<UserIntent>, accounts: set<Pubkey>, arcs: Arcs) {
    forall k | k in accounts :: Chained(intents, k, arcs)
  }

  lemma OneMoreChained(intents: seq<UserIntent>, accounts: set<Pubkey>, account: Pubkey, before: Arcs, after: Arcs)
    requires AllChained(intents, accounts, before) && before <= after && Chained(intents, account, after)
    ensures AllChained(intents, accounts + {account}, after)
  {
    forall k | k in accounts ensures Chained(intents, k, after) {
      assert Chained(intents, k, before);
    }
  }

  lemma EdgesComplete(intents: seq<UserIntent>, accounts: set<Pubkey>, arcs: Arcs)
    requires OnlyEdges(intents, arcs) && AllChained(intents, accounts, arcs)
    requires forall i, k | 0 <= i < |intents| && k in Touches(intents[i]) :: k in accounts
    ensures IsEdgeSet(intents, arcs)
  {
    forall u: NodeId, v: NodeId | u < |intents| && v < |intents| && Edge(intents, u, v) ensures (u, v) in arcs {
      var k :| k in Writes(intents[u]) && k in Touches(intents[v]);
      assert Chained(intents, k, arcs);
    }
  }

  lemma AddExplanation(intents: seq<UserIntent>, arcs: Arcs, conflicts: seq<Conflict>, c: Conflict)
    requires Explains(intents, arcs, conflicts) && (c.a, c.b) !in arcs && c.a < |intents| && c.b < |intents|
    requires c.account in Writes(intents[c.a]) && c.account in Touches(intents[c.b])
    ensures Explains(intents, arcs + {(c.a, c.b)}, conflicts + [c])
  {
    var more := conflicts + [c];
    assert more[|conflicts|] == c;
    forall i, j | 0 <= i < j < |more| ensures (more[i].a, more[i].b) != (more[j].a, more[j].b) {
      if j == |conflicts| { assert conflicts[i] in conflicts; }
    }
    forall e | e in arcs + {(c.a, c.b)} ensures exists i :: 0 <= i < |more| && (more[i].a, more[i].b) == e {
      if e in arcs {
        var i :| 0 <= i < |conflicts| && (conflicts[i].a, conflicts[i].b) == e;
        assert more[i] == conflicts[i];
      }
    }
  }

  lemma BeforeMeansSorted(intents: seq<UserIntent>, account: Pubkey, parts: seq<Participant>, i: nat, j: nat)
    requires Participates(intents, account, parts) && SortedBy(ParticipantLeq, parts) && i < |parts| && j < |parts|
    requires parts[i].node < |intents| && parts[j].node < |intents| && Before(intents, parts[i].node, parts[j].node)
    ensures i < j
  {
    assert ParticipantOf(intents, account, parts[i]) && ParticipantOf(intents, account, parts[j]);
    assert !ParticipantLeq(parts[j], parts[i]);
  }

  lemma ParticipantOrder()
    ensures TotalPreorder(ParticipantLeq)
  {
  }

  /** Once every writer in the sorted list has been linked to all later participants, the account is chained. */
  lemma LinkedMeansChained(intents: seq<UserIntent>, account: Pubkey, parts: seq<Participant>, arcs: Arcs)
    requires Participates(intents, account, parts) && SortedBy(ParticipantLeq, parts)
    requires ListsAll(intents, account, parts) && AllLinked(parts, arcs)
    ensures Chained(intents, account, arcs)
  {
    forall u, v | 0 <= u < |intents| && 0 <= v < |intents| && Before(intents, u, v)
                  && account in Writes(intents[u]) && account in Touches(intents[v])
      ensures (u, v) in arcs
    {
      var a :| a in intents[u].accesses && a.access == Writable && a.pubkey == account;
      var b :| b in intents[v].accesses && b.pubkey == account;
      var i :| 0 <= i < |parts| && parts[i].node == u && parts[i].access == a.access;
      var j :| 0 <= j < |parts| && parts[j].node == v && parts[j].access == b.access;
      BeforeMeansSorted(intents, account, parts, i, j);
    }
  }

  /** Every writer in the list has an arc to every other participant after it. */
  ghost predicate AllLinked(sorted: seq<Participant>, arcs: Arcs) {
    forall w, j | 0 <= w < j < |sorted| && sorted[w].access == Writable && sorted[w].node != sorted[j].node ::
      (sorted[w].node, sorted[j].node) in arcs
  }

  /** All participants of `account` are listed. */
  ghost predicate ListsAll(intents: seq<UserIntent>, account: Pubkey, parts: seq<Participant>) {
    forall i, a | 0 <= i < |intents| && a in intents[i].accesses && a.pubkey == account ::
      exists j :: 0 <= j < |parts| && parts[j].node == i && parts[j].access == a.access
  }

  function Look(byAccount: map<Pubkey, seq<Participant>>, account: Pubkey): seq<Participant> {
    if account in byAccount then byAccount[account] else []
  }

  /** The first `idx` intents and `j` accesses of the next are grouped, and no group is empty. */
  ghost predicate Grouped(byAccount: map<Pubkey, seq<Participant>>, intents: seq<UserIntent>, idx: NodeId, j: nat)
    requires idx < |intents| && j <= |intents[idx].accesses|
  {
    && (forall k :: Look(byAccount, k) == PartsOf(intents, idx, k) + PartsIn(intents, idx, j, k))
    && (forall k | k in byAccount :: byAccount[k] != [])
  }

  ghost predicate GroupedUpTo(byAccount: map<Pubkey, seq<Participant>>, intents: seq<UserIntent>, n: nat)
    requires n <= |intents|
  {
    && (forall k :: Look(byAccount, k) == PartsOf(intents, n, k))
    && (forall k | k in byAccount :: byAccount[k] != [])
  }

  lemma GroupStarts(byAccount: map<Pubkey, seq<Participant>>, intents: seq<UserIntent>, idx: NodeId)
    requires idx < |intents|
    ensures GroupedUpTo(byAccount, intents, idx) ==> Grouped(byAccount, intents, idx, 0)
    ensures Grouped(byAccount, intents, idx, |intents[idx].accesses|) ==> GroupedUpTo(byAccount, intents, idx + 1)
  {
    forall k ensures PartsOf(intents, idx, k) + PartsIn(intents, idx, 0, k) == PartsOf(intents, idx, k) {}
  }

  lemma GroupStep(byAccount: map<Pubkey, seq<Participant>>, intents: seq<UserIntent>, idx: NodeId, j: nat)
    requires idx < |intents| && j < |intents[idx].accesses| && Grouped(byAccount, intents, idx, j)
    ensures var a := intents[idx].accesses[j];
      Grouped(byAccount[a.pubkey := Look(byAccount, a.pubkey) + [Participant(idx, a.access, SortKey(intents, idx))]], intents, idx, j + 1)
  {
    var a := intents[idx].accesses[j];
    var p := Participant(idx, a.access, SortKey(intents, idx));
    var after := byAccount[a.pubkey := Look(byAccount, a.pubkey) + [p]];
    forall k ensures Look(after, k) == PartsOf(intents, idx, k) + PartsIn(intents, idx, j + 1, k) {
      var before := PartsOf(intents, idx, k) + PartsIn(intents, idx, j, k);
      assert Look(byAccount, k) == before;
      assert PartsIn(intents, idx, j + 1, k) == PartsIn(intents, idx, j, k) + if a.pubkey == k then [p] else [];
    }
  }

  lemma GroupedMeans(byAccount: map<Pubkey, seq<Participant>>, intents: seq<UserIntent>)
    requires GroupedUpTo(byAccount, intents, |intents|)
    ensures forall k | k in byAccount :: byAccount[k] == PartsOf(intents, |intents|, k)
    ensures forall k | k in byAccount :: Participates(intents, k, byAccount[k]) && ListsAll(intents, k, byAccount[k])
    ensures forall k :: k in byAccount.Keys <==> exists i :: 0 <= i < |intents| && k in Touches(intents[i])
  {
    forall k ensures k in byAccount ==> byAccount[k] == PartsOf(intents, |intents|, k) && Participates(intents, k, byAccount[k]) && ListsAll(intents, k, byAccount[k]) {
      assert Look(byAccount, k) == PartsOf(intents, |intents|, k);
      PartsAreParticipants(intents, |intents|, k);
    }
    forall k ensures k in byAccount.Keys <==> exists i :: 0 <= i < |intents| && k in Touches(intents[i]) {
      assert Look(byAccount, k) == PartsOf(intents, |intents|, k);
      TouchedHaveParts(intents, k);
    }
  }

  /** Every account's participants in the order of intents and accesses. */
  method GroupByAccount(intents: seq<UserIntent>) returns (byAccount: map<Pubkey, seq<Participant>>)
    ensures forall k | k in byAccount :: byAccount[k] == PartsOf(intents, |intents|, k)
    ensures forall k | k in byAccount :: Participates(intents, k, byAccount[k]) && ListsAll(intents, k, byAccount[k])
    ensures forall k :: k in byAccount.Keys <==> exists i :: 0 <= i < |intents| && k in Touches(intents[i])
  {
    byAccount := map[];
    for idx := 0 to |intents|
      invariant GroupedUpTo(byAccount, intents, idx)
    {
      var accesses := intents[idx].accesses;
      GroupStarts(byAccount, intents, idx);
      for j := 0 to |accesses|
        invariant Grouped(byAccount, intents, idx, j)
      {
        var a := accesses[j];
        GroupStep(byAccount, intents, idx, j);
        byAccount := byAccount[a.pubkey := Look(byAccount, a.pubkey) + [Participant(idx, a.access, SortKey(intents, idx))]];
      }
      GroupStarts(byAccount, intents, idx);
    }
    GroupedMeans(byAccount, intents);
  }

  lemma {:induction false} PartsInAre(intents: seq<UserIntent>, i: NodeId, j: nat, account: Pubkey)
    requires i < |intents| && j <= |intents[i].accesses|
    ensures Participates(intents, account, PartsIn(intents, i, j, account))
    ensures forall b | b in intents[i].accesses[..j] && b.pubkey == account :: InParts(PartsIn(intents, i, j, account), i, b)
  {
    if j > 0 {
      PartsInAre(intents, i, j - 1, account);
      var a, before := intents[i].accesses[j - 1], PartsIn(intents, i, j - 1, account);
      assert intents[i].accesses[..j] == intents[i].accesses[..j - 1] + [a];
      assert a in intents[i].accesses;
      var p := Participant(i, a.access, SortKey(intents, i));
      forall b | b in intents[i].accesses[..j] && b.pubkey == account ensures InParts(PartsIn(intents, i, j, account), i, b) {
        if b == a {
          assert (before + [p])[|before|] == p;
        } else {
          assert b in intents[i].accesses[..j - 1];
          ListedStays(before, if a.pubkey == account then [p] else [], i, b);
        }
      }
    }
  }

  lemma {:induction false} PartsAreParticipants(intents: seq<UserIntent>, n: nat, account: Pubkey)
    requires n <= |intents|
    ensures Participates(intents, account, PartsOf(intents, n, account))
    ensures forall i, a | 0 <= i < n && a in intents[i].accesses && a.pubkey == account :: InParts(PartsOf(intents, n, account), i, a)
    ensures n == |intents| ==> ListsAll(intents, account, PartsOf(intents, n, account))
  {
    if n > 0 {
      var before, last := PartsOf(intents, n - 1, account), PartsIn(intents, n - 1, |intents[n - 1].accesses|, account);
      PartsAreParticipants(intents, n - 1, account);
      PartsInAre(intents, n - 1, |intents[n - 1].accesses|, account);
      assert intents[n - 1].accesses[..|intents[n - 1].accesses|] == intents[n - 1].accesses;
      forall i, a | 0 <= i < n && a in intents[i].accesses && a.pubkey == account ensures InParts(PartsOf(intents, n, account), i, a) {
        if i < n - 1 {
          ListedStays(before, last, i, a);
        } else {
          assert a in intents[n - 1].accesses[..|intents[n - 1].accesses|];
          ListedLater(before, last, i, a);
        }
      }
    }
    if n == |intents| {
      AllInPartsLists(intents, account, PartsOf(intents, n, account));
    }
  }

  lemma AllInPartsLists(intents: seq<UserIntent>, account: Pubkey, parts: seq<Participant>)
    requires forall i, a | 0 <= i < |intents| && a in intents[i].accesses && a.pubkey == account :: InParts(parts, i, a)
    ensures ListsAll(intents, account, parts)
  {
    forall i, a | 0 <= i < |intents| && a in intents[i].accesses && a.pubkey == account
      ensures exists j :: 0 <= j < |parts| && parts[j].node == i && parts[j].access == a.access
    {
      assert InParts(parts, i, a);
    }
  }

  lemma TouchedHaveParts(intents: seq<UserIntent>, account: Pubkey)
    ensures PartsOf(intents, |intents|, account) != [] <==> exists i :: 0 <= i < |intents| && account in Touches(intents[i])
  {
    var parts := PartsOf(intents, |intents|, account);
    PartsAreParticipants(intents, |intents|, account);
    if parts != [] {
      assert ParticipantOf(intents, account, parts[0]);
      var a := AccountAccess(account, parts[0].access);
      assert a in intents[parts[0].node].accesses && a.pubkey == account;
      assert account in Touches(intents[parts[0].node]);
    }
    if i :| 0 <= i < |intents| && account in Touches(intents[i]) {
      var a :| a in intents[i].accesses && a.pubkey == account;
      assert InParts(parts, i, a);
    }
  }

  ghost predicate InParts(parts: seq<Participant>, i: NodeId, a: AccountAccess) {
    exists j :: 0 <= j < |parts| && parts[j].node == i && parts[j].access == a.access
  }

  // ---------------------------------------------------------------------------
  // What is recorded, in the order in which accounts are visited
  // ---------------------------------------------------------------------------

  /** The participants of `account` among the first `j` accesses of intent `i`. */
  function PartsIn(intents: seq<UserIntent>, i: NodeId, j: nat, account: Pubkey): seq<Participant>
    requires i < |intents| && j <= |intents[i].accesses|
  {
    if j == 0 then []
    else
      var a := intents[i].accesses[j - 1];
      PartsIn(intents, i, j - 1, account) + if a.pubkey == account then [Participant(i, a.access, SortKey(intents, i))] else []
  }

  /** The participants of `account` among the first `n` intents. */
  function PartsOf(intents: seq<UserIntent>, n: nat, account: Pubkey): seq<Participant>
    requires n <= |intents|
  {
    if n == 0 then [] else PartsOf(intents, n - 1, account) + PartsIn(intents, n - 1, |intents[n - 1].accesses|, account)
  }

  /** Both adjacency lists, the arcs, and the record of why each was added. */
  datatype Net = Net(edges: seq<seq<NodeId>>, revEdges: seq<seq<NodeId>>, arcs: Arcs, record: seq<Conflict>) {
    predicate Has(n: nat) {
      |edges| == n && |revEdges| == n
    }
  }

  function EmptyNet(n: nat): (net: Net)
    ensures net.Has(n)
  {
    Net(seq(n, _ => []), seq(n, _ => []), {}, [])
  }

  predicate NodesBelow(sorted: seq<Participant>, n: nat) {
    forall i | 0 <= i < |sorted| :: sorted[i].node < n
  }

  function Linked(net: Net, n: nat, account: Pubkey, u: NodeId, v: NodeId): (r: Net)
    requires net.Has(n) && u < n && v < n
    ensures r.Has(n)
  {
    if (u, v) in net.arcs then net
    else
      Net(net.edges[u := net.edges[u] + [v]], net.revEdges[v := net.revEdges[v] + [u]], net.arcs + {(u, v)}, net.record + [Conflict(account, u, v)])
  }

  /** The writer at `w` linked to the participants after it and before `hi`. */
  function LinkedTo(net: Net, n: nat, account: Pubkey, sorted: seq<Participant>, w: nat, hi: nat): (r: Net)
    requires net.Has(n) && NodesBelow(sorted, n) && w < |sorted| && hi <= |sorted|
    ensures r.Has(n)
  {
    if hi <= w + 1 then net
    else
      var before := LinkedTo(net, n, account, sorted, w, hi - 1);
      if sorted[w].node == sorted[hi - 1].node then before else Linked(before, n, account, sorted[w].node, sorted[hi - 1].node)
  }

  /** The writers at these positions linked, one after the other. */
  function LinkedFromAll(net: Net, n: nat, account: Pubkey, sorted: seq<Participant>, positions: seq<nat>): (r: Net)
    requires net.Has(n) && NodesBelow(sorted, n) && forall i | 0 <= i < |positions| :: positions[i] < |sorted|
    ensures r.Has(n)
  {
    if positions == [] then net
    else
      LinkedTo(LinkedFromAll(net, n, account, sorted, positions[..|positions| - 1]), n, account, sorted, positions[|positions| - 1], |sorted|)
  }

  function Writers(sorted: seq<Participant>, n: nat): (positions: seq<nat>)
    requires n <= |sorted|
    ensures forall i | 0 <= i < |positions| :: positions[i] < n && sorted[positions[i]].access == Writable
    ensures forall w | 0 <= w < n && sorted[w].access == Writable :: w in positions
  {
    if n == 0 then [] else Writers(sorted, n - 1) + if sorted[n - 1].access == Writable then [n - 1] else []
  }

  /** What one account's turn makes of the net. */
  function ChainedNet(net: Net, n: nat, account: Pubkey, parts: seq<Participant>): (r: Net)
    requires net.Has(n) && NodesBelow(parts, n)
    ensures r.Has(n)
  {
    SortedBelow(parts, n);
    var sorted := SortBy(ParticipantLeq, parts);
    LinkedFromAll(net, n, account, sorted, Writers(sorted, |sorted|))
  }

  lemma SortedBelow(parts: seq<Participant>, n: nat)
    requires NodesBelow(parts, n)
    ensures NodesBelow(SortBy(ParticipantLeq, parts), n)
  {
    var sorted := SortBy(ParticipantLeq, parts);
    SameElements(parts, sorted);
    forall i | 0 <= i < |sorted| ensures sorted[i].node < n {
      assert sorted[i] in parts;
    }
  }

  /** The net when the accounts are visited in this order. */
  function NetOf(intents: seq<UserIntent>, order: seq<Pubkey>): (net: Net)
    ensures net.Has(|intents|)
  {
    if order == [] then EmptyNet(|intents|)
    else
      var account := order[|order| - 1];
      PartsAreParticipants(intents, |intents|, account);
      ChainedNet(NetOf(intents, order[..|order| - 1]), |intents|, account, PartsOf(intents, |intents|, account))
  }

  /** Every touched account once. */
  ghost predicate VisitsAll(intents: seq<UserIntent>, order: seq<Pubkey>) {
    NoDup(order) && forall k :: k in order <==> exists i :: 0 <= i < |intents| && k in Touches(intents[i])
  }

  lemma OneMorePosition(net: Net, n: nat, account: Pubkey, sorted: seq<Participant>, positions: seq<nat>, i: nat)
    requires net.Has(n) && NodesBelow(sorted, n) && (forall k | 0 <= k < |positions| :: positions[k] < |sorted|) && i < |positions|
    ensures LinkedFromAll(net, n, account, sorted, positions[..i + 1])
         == LinkedTo(LinkedFromAll(net, n, account, sorted, positions[..i]), n, account, sorted, positions[i], |sorted|)
  {
    assert positions[..i + 1][..i] == positions[..i];
  }

  lemma OneMoreVisited(intents: seq<UserIntent>, order: seq<Pubkey>, account: Pubkey)
    ensures NodesBelow(PartsOf(intents, |intents|, account), |intents|)
    ensures NetOf(intents, order + [account]) == ChainedNet(NetOf(intents, order), |intents|, account, PartsOf(intents, |intents|, account))
    ensures NoDup(order) && account !in order ==> NoDup(order + [account])
  {
    assert (order + [account])[..|order|] == order;
    PartsAreParticipants(intents, |intents|, account);
  }

  lemma {:induction false} NoWriters(sorted: seq<Participant>, n: nat)
    requires n <= |sorted| && forall w | 0 <= w < n :: sorted[w].access == ReadOnly
    ensures Writers(sorted, n) == []
  {
    if n > 0 {
      NoWriters(sorted, n - 1);
    }
  }

  lemma ReadersLinkNothing(net: Net, n: nat, account: Pubkey, parts: seq<Participant>)
    requires net.Has(n) && NodesBelow(parts, n) && forall p | p in parts :: p.access == ReadOnly
    ensures ChainedNet(net, n, account, parts) == net
  {
    var sorted := SortBy(ParticipantLeq, parts);
    SortedParticipants(parts);
    assert forall w | 0 <= w < |sorted| :: sorted[w] in parts;
    NoWriters(sorted, |sorted|);
  }

  // ---------------------------------------------------------------------------
  // What linking keeps
  // ---------------------------------------------------------------------------

  /** The adjacency lists agree with the arcs, each arc is recorded once with its reason, and each is an edge. */
  ghost predicate Sound(intents: seq<UserIntent>, net: Net) {
    && Adjacency(|intents|, net.edges, net.revEdges, net.arcs)
    && Explains(intents, net.arcs, net.record) && OnlyEdges(intents, net.arcs)
  }

  lemma LinkKeeps(intents: seq<UserIntent>, net: Net, account: Pubkey, u: NodeId, v: NodeId)
    requires Sound(intents, net) && net.Has(|intents|) && u < |intents| && v < |intents| && Before(intents, u, v)
    requires account in Writes(intents[u]) && account in Touches(intents[v])
    ensures var r := Linked(net, |intents|, account, u, v); Sound(intents, r) && r.arcs == net.arcs + {(u, v)}
  {
    if (u, v) !in net.arcs {
      AddArc(|intents|, net.edges, net.revEdges, net.arcs, u, v);
      AddExplanation(intents, net.arcs, net.record, Conflict(account, u, v));
    } else {
      assert net.arcs + {(u, v)} == net.arcs;
    }
  }

  /** Linking the writer at `w` has come from `net` to `r`, with the participants before `hi` linked. */
  ghost predicate LinkedSoFar(intents: seq<UserIntent>, net: Net, r: Net, sorted: seq<Participant>, w: nat, hi: nat)
    requires w < |sorted| && hi <= |sorted|
  {
    Sound(intents, r) && net.arcs <= r.arcs && LinkedFrom(sorted, w, hi, r.arcs)
  }

  lemma {:induction false} LinkToKeeps(intents: seq<UserIntent>, net: Net, account: Pubkey, sorted: seq<Participant>, w: nat, hi: nat, r: Net)
    requires Sound(intents, net) && net.Has(|intents|) && NodesBelow(sorted, |intents|)
    requires Participates(intents, account, sorted) && SortedBy(ParticipantLeq, sorted)
    requires w < |sorted| && hi <= |sorted| && sorted[w].access == Writable
    requires r == LinkedTo(net, |intents|, account, sorted, w, hi)
    ensures LinkedSoFar(intents, net, r, sorted, w, hi)
    decreases hi
  {
    if hi > w + 1 {
      var before := LinkedTo(net, |intents|, account, sorted, w, hi - 1);
      LinkToKeeps(intents, net, account, sorted, w, hi - 1, before);
      PairKeeps(intents, net, before, r, account, sorted, w, hi);
    } else {
      NothingLinked(intents, net, sorted, w, hi);
    }
  }

  lemma NothingLinked(intents: seq<UserIntent>, net: Net, sorted: seq<Participant>, w: nat, hi: nat)
    requires Sound(intents, net) && w < |sorted| && hi <= |sorted| && hi <= w + 1
    ensures LinkedSoFar(intents, net, net, sorted, w, hi)
  {
  }

  lemma PairKeeps(intents: seq<UserIntent>, start: Net, net: Net, r: Net, account: Pubkey, sorted: seq<Participant>, w: nat, hi: nat)
    requires net.Has(|intents|) && NodesBelow(sorted, |intents|)
    requires Participates(intents, account, sorted) && SortedBy(ParticipantLeq, sorted)
    requires w + 1 < hi <= |sorted| && sorted[w].access == Writable && LinkedSoFar(intents, start, net, sorted, w, hi - 1)
    requires r == if sorted[w].node == sorted[hi - 1].node then net else Linked(net, |intents|, account, sorted[w].node, sorted[hi - 1].node)
    ensures LinkedSoFar(intents, start, r, sorted, w, hi)
  {
    var u, v := sorted[w].node, sorted[hi - 1].node;
    if u != v {
      LaterParticipant(intents, account, sorted, w, hi - 1);
      LinkKeeps(intents, net, account, u, v);
    }
    OneMoreLinked(sorted, w, hi - 1, net.arcs, r.arcs);
  }

  lemma {:induction false} LinkFromAllKeeps(intents: seq<UserIntent>, net: Net, account: Pubkey, sorted: seq<Participant>, positions: seq<nat>)
    requires Sound(intents, net) && net.Has(|intents|) && NodesBelow(sorted, |intents|)
    requires Participates(intents, account, sorted) && SortedBy(ParticipantLeq, sorted)
    requires forall i | 0 <= i < |positions| :: positions[i] < |sorted| && sorted[positions[i]].access == Writable
    ensures var r := LinkedFromAll(net, |intents|, account, sorted, positions);
      Sound(intents, r) && net.arcs <= r.arcs && LinkedAt(sorted, positions, r.arcs)
  {
    if positions != [] {
      var front, w := positions[..|positions| - 1], positions[|positions| - 1];
      LinkFromAllKeeps(intents, net, account, sorted, front);
      var before := LinkedFromAll(net, |intents|, account, sorted, front);
      LinkToKeeps(intents, before, account, sorted, w, |sorted|, LinkedFromAll(net, |intents|, account, sorted, positions));
      OneMoreWriter(sorted, front, w, before.arcs, LinkedFromAll(net, |intents|, account, sorted, positions).arcs);
      assert positions == front + [w];
    }
  }

  /** One account's turn adds only edges, and every pair that the account orders. */
  lemma ChainKeeps(intents: seq<UserIntent>, net: Net, account: Pubkey, parts: seq<Participant>)
    requires Sound(intents, net) && net.Has(|intents|) && NodesBelow(parts, |intents|)
    requires Participates(intents, account, parts) && ListsAll(intents, account, parts)
    ensures var r := ChainedNet(net, |intents|, account, parts);
      Sound(intents, r) && net.arcs <= r.arcs && Chained(intents, account, r.arcs)
  {
    var sorted := SortBy(ParticipantLeq, parts);
    SortingKeeps(intents, account, parts);
    SortedBelow(parts, |intents|);
    LinkFromAllKeeps(intents, net, account, sorted, Writers(sorted, |sorted|));
    var arcs := ChainedNet(net, |intents|, account, parts).arcs;
    WritersAreAll(sorted, arcs);
    LinkedMeansChained(intents, account, sorted, arcs);
  }

  lemma OneMoreSound(intents: seq<UserIntent>, net: Net, done: set<Pubkey>, account: Pubkey, r: Net, all: set<Pubkey>)
    requires Sound(intents, net) && net.Has(|intents|) && AllChained(intents, done, net.arcs)
    requires NodesBelow(PartsOf(intents, |intents|, account), |intents|)
    requires r == ChainedNet(net, |intents|, account, PartsOf(intents, |intents|, account)) && all == done + {account}
    ensures Sound(intents, r) && AllChained(intents, all, r.arcs)
  {
    var parts := PartsOf(intents, |intents|, account);
    PartsAreParticipants(intents, |intents|, account);
    ChainKeeps(intents, net, account, parts);
    OneMoreChained(intents, done, account, net.arcs, r.arcs);
  }

  lemma ListingSnoc(order: seq<Pubkey>, account: Pubkey)
    ensures Listing(order + [account]) == Listing(order) + {account}
  {
  }

  lemma NothingIsSound(intents: seq<UserIntent>)
    ensures Sound(intents, EmptyNet(|intents|))
  {
  }

  ghost predicate SoundOrder(intents: seq<UserIntent>, order: seq<Pubkey>) {
    Sound(intents, NetOf(intents, order)) && AllChained(intents, Listing(order), NetOf(intents, order).arcs)
  }

  lemma NextIsSound(intents: seq<UserIntent>, order: seq<Pubkey>, account: Pubkey)
    requires SoundOrder(intents, order)
    ensures SoundOrder(intents, order + [account])
  {
    OneMoreVisited(intents, order, account);
    ListingSnoc(order, account);
    OneMoreSound(intents, NetOf(intents, order), Listing(order), account, NetOf(intents, order + [account]), Listing(order + [account]));
  }

  lemma SameOrderSound(intents: seq<UserIntent>, a: seq<Pubkey>, b: seq<Pubkey>)
    requires a == b && SoundOrder(intents, a)
    ensures SoundOrder(intents, b)
  {
  }

  /** Whatever the order, the net is sound and every visited account is chained. */
  lemma {:induction false} NetIsSound(intents: seq<UserIntent>, order: seq<Pubkey>)
    ensures SoundOrder(intents, order)
  {
    if order == [] {
      NothingIsSound(intents);
    } else {
      var front, account := order[..|order| - 1], order[|order| - 1];
      NetIsSound(intents, front);
      NextIsSound(intents, front, account);
      SameOrderSound(intents, front + [account], order);
    }
  }

  function Listing(order: seq<Pubkey>): set<Pubkey> {
    set k | k in order
  }

  /** Whatever the order, a net of all accounts has exactly the edges. */
  lemma NetIsComplete(intents: seq<UserIntent>, order: seq<Pubkey>)
    requires VisitsAll(intents, order)
    ensures Sound(intents, NetOf(intents, order)) && IsEdgeSet(intents, NetOf(intents, order).arcs)
  {
    NetIsSound(intents, order);
    EdgesComplete(intents, Listing(order), NetOf(intents, order).arcs);
  }

  lemma ListedStays(parts: seq<Participant>, more: seq<Participant>, i: NodeId, a: AccountAccess)
    requires InParts(parts, i, a)
    ensures InParts(parts + more, i, a)
  {
    var j :| 0 <= j < |parts| && parts[j].node == i && parts[j].access == a.access;
    assert (parts + more)[j] == parts[j];
  }

  lemma ListedLater(parts: seq<Participant>, more: seq<Participant>, i: NodeId, a: AccountAccess)
    requires InParts(more, i, a)
    ensures InParts(parts + more, i, a)
  {
    var j :| 0 <= j < |more| && more[j].node == i && more[j].access == a.access;
    assert (parts + more)[|parts| + j] == more[j];
  }

  lemma SortedParticipants(parts: seq<Participant>)
    ensures var sorted := SortBy(ParticipantLeq, parts);
      SortedBy(ParticipantLeq, sorted) && forall p :: p in parts <==> p in sorted
  {
    ParticipantOrder();
    SortBySorted(ParticipantLeq, parts);
    SameElements(parts, SortBy(ParticipantLeq, parts));
  }

  lemma {:induction false} SortingKeeps(intents: seq<UserIntent>, account: Pubkey, parts: seq<Participant>)
    requires Participates(intents, account, parts) && ListsAll(intents, account, parts)
    ensures var sorted := SortBy(ParticipantLeq, parts);
      && Participates(intents, account, sorted) && ListsAll(intents, account, sorted)
      && SortedBy(ParticipantLeq, sorted)
  {
    var sorted := SortBy(ParticipantLeq, parts);
    SortedParticipants(parts);
    forall i | 0 <= i < |sorted| ensures ParticipantOf(intents, account, sorted[i]) {
      assert sorted[i] in parts;
    }
    forall i, a | 0 <= i < |intents| && a in intents[i].accesses && a.pubkey == account
      ensures exists j :: 0 <= j < |sorted| && sorted[j].node == i && sorted[j].access == a.access
    {
      var j :| 0 <= j < |parts| && parts[j].node == i && parts[j].access == a.access;
      assert parts[j] in sorted;
    }
  }

  method WriterPositions(sorted: seq<Participant>) returns (positions: seq<nat>)
    ensures positions == Writers(sorted, |sorted|)
  {
    positions := [];
    for pos := 0 to |sorted|
      invariant positions == Writers(sorted, pos)
    {
      if sorted[pos].access == Writable {
        positions := positions + [pos];
      }
    }
  }

  /** Drops conflicts already seen; there are none, as every arc was recorded once. */
  method WithoutRepeats(intents: seq<UserIntent>, arcs: Arcs, conflictBuf: seq<Conflict>) returns (conflicts: seq<Conflict>)
    requires Explains(intents, arcs, conflictBuf)
    ensures conflicts == conflictBuf
  {
    conflicts := [];
    var uniq: set<(Pubkey, NodeId, NodeId)> := {};
    for i := 0 to |conflictBuf|
      invariant conflicts == conflictBuf[..i]
      invariant forall x | x in uniq :: exists j :: 0 <= j < i && x == ConflictKey(conflictBuf[j])
    {
      var c := conflictBuf[i];
      if ConflictKey(c) !in uniq {
        uniq := uniq + {ConflictKey(c)};
        conflicts := conflicts + [c];
      }
    }
  }

  /** Takes one off the count of each target, and collects the targets whose count reaches zero. */
  method DecrementAll(before: seq<nat>, targets: seq<NodeId>, ghost after: seq<nat>) returns (indeg: seq<nat>, ready: seq<NodeId>)
    requires NoDup(targets) && |after| == |before| && forall v | v in targets :: v < |before|
    requires forall v | 0 <= v < |before| :: if v in targets then before[v] > 0 && after[v] == before[v] - 1 else after[v] == before[v]
    ensures indeg == after
    ensures NoDup(ready) && forall v: NodeId :: v in ready <==> v in targets && after[v] == 0
  {
    indeg := before;
    ready := [];
    for i := 0 to |targets|
      invariant |indeg| == |before|
      invariant forall v | 0 <= v < |before| :: indeg[v] == if v in targets[..i] then after[v] else before[v]
      invariant NoDup(ready)
      invariant forall v: NodeId :: v in ready <==> v in targets[..i] && v < |after| && after[v] == 0
    {
      var v := targets[i];
      assert v in targets && v !in targets[..i];
      indeg := indeg[v := if indeg[v] > 0 then indeg[v] - 1 else 0];
      if indeg[v] == 0 {
        ready := ready + [v];
      }
      assert targets[..i + 1] == targets[..i] + [v];
    }
    assert targets[..|targets|] == targets;
  }

  class Dag {
    var nodes: seq<UserIntent>
    var edges: seq<seq<NodeId>>
    var revEdges: seq<seq<NodeId>>
    var conflicts: seq<Conflict>
    var edgeSet: Arcs

    ghost predicate Valid()
      reads this
    {
      Adjacency(|nodes|, edges, revEdges, edgeSet)
    }

    /** What is kept while arcs are being added; `conflictBuf` records why each was. */
    function View(conflictBuf: seq<Conflict>): Net
      reads this
    {
      Net(edges, revEdges, edgeSet, conflictBuf)
    }

    /** Builds the graph of `intents`: exactly the arcs of `Edge`, in whatever order accounts are visited.
        The lists and the conflicts are those of some order. */
    constructor Build(intents: seq<UserIntent>)
      ensures Valid() && nodes == intents
      ensures IsEdgeSet(intents, edgeSet)
      ensures Explains(intents, edgeSet, conflicts)
      ensures exists order :: VisitsAll(intents, order) && View(conflicts) == NetOf(intents, order)
    {
      nodes := intents;
      edges := seq(|intents|, _ => []);
      revEdges := seq(|intents|, _ => []);
      conflicts := [];
      edgeSet := {};
      new;
      var conflictBuf, order := ChainAll();
      NetIsComplete(intents, order);
      conflicts := WithoutRepeats(intents, edgeSet, conflictBuf);
    }

    /** Visits the accounts in an arbitrary order. */
    method ChainAll() returns (conflictBuf: seq<Conflict>, ghost order: seq<Pubkey>)
      requires View([]) == EmptyNet(|nodes|)
      modifies `edges, `revEdges, `edgeSet
      ensures VisitsAll(nodes, order) && View(conflictBuf) == NetOf(nodes, order)
    {
      var byAccount := GroupByAccount(nodes);
      var remaining := byAccount.Keys;
      conflictBuf, order := [], [];
      while remaining != {}
        invariant remaining <= byAccount.Keys && View(conflictBuf) == NetOf(nodes, order)
        invariant NoDup(order) && forall k :: k in order <==> k in byAccount.Keys && k !in remaining
        decreases remaining
      {
        var account :| account in remaining;
        OneMoreVisited(nodes, order, account);
        conflictBuf := ChainAccount(account, byAccount[account], conflictBuf);
        order := order + [account];
        remaining := remaining - {account};
      }
    }

    /** Links every writer of `account` to the participants after it: adds only edges, and every pair that the account orders. */
    method ChainAccount(account: Pubkey, parts: seq<Participant>, conflictBuf: seq<Conflict>) returns (found: seq<Conflict>)
      requires View(conflictBuf).Has(|nodes|) && NodesBelow(parts, |nodes|)
      modifies `edges, `revEdges, `edgeSet
      ensures View(found) == ChainedNet(old(View(conflictBuf)), |nodes|, account, parts)
      ensures old(Sound(nodes, View(conflictBuf))) && Participates(nodes, account, parts) && ListsAll(nodes, account, parts) ==>
        Sound(nodes, View(found)) && old(edgeSet) <= edgeSet && Chained(nodes, account, edgeSet)
      ensures (forall p | p in parts :: p.access == ReadOnly) ==> View(found) == old(View(conflictBuf))
    {
      found := conflictBuf;
      ghost var before := View(conflictBuf);
      if forall p | p in parts :: p.access == ReadOnly {
        ReadersLinkNothing(before, |nodes|, account, parts);
      } else {
        SortedBelow(parts, |nodes|);
        found := LinkAll(account, SortBy(ParticipantLeq, parts), conflictBuf);
      }
      if Sound(nodes, before) && Participates(nodes, account, parts) && ListsAll(nodes, account, parts) {
        ChainKeeps(nodes, before, account, parts);
      }
    }

    method LinkAll(account: Pubkey, sorted: seq<Participant>, conflictBuf: seq<Conflict>) returns (found: seq<Conflict>)
      requires View(conflictBuf).Has(|nodes|) && NodesBelow(sorted, |nodes|)
      modifies `edges, `revEdges, `edgeSet
      ensures View(found) == LinkedFromAll(old(View(conflictBuf)), |nodes|, account, sorted, Writers(sorted, |sorted|))
    {
      found := conflictBuf;
      var writerPositions := WriterPositions(sorted);
      for i := 0 to |writerPositions|
        invariant View(found) == LinkedFromAll(old(View(conflictBuf)), |nodes|, account, sorted, writerPositions[..i])
      {
        OneMorePosition(old(View(conflictBuf)), |nodes|, account, sorted, writerPositions, i);
        found := LinkWriter(account, sorted, writerPositions[i], found);
      }
      assert writerPositions[..|writerPositions|] == writerPositions;
    }

    method LinkWriter(account: Pubkey, sorted: seq<Participant>, w: nat, conflictBuf: seq<Conflict>) returns (found: seq<Conflict>)
      requires View(conflictBuf).Has(|nodes|) && NodesBelow(sorted, |nodes|) && w < |sorted|
      modifies `edges, `revEdges, `edgeSet
      ensures View(found) == LinkedTo(old(View(conflictBuf)), |nodes|, account, sorted, w, |sorted|)
    {
      found := conflictBuf;
      for j := w + 1 to |sorted|
        invariant View(found) == LinkedTo(old(View(conflictBuf)), |nodes|, account, sorted, w, j)
      {
        var u, v := sorted[w].node, sorted[j].node;
        if u != v {
          found := Link(account, u, v, found);
        }
      }
    }

    /** Adds the arc from `u` to `v` unless it is there already. */
    method Link(account: Pubkey, u: NodeId, v: NodeId, conflictBuf: seq<Conflict>) returns (found: seq<Conflict>)
      requires View(conflictBuf).Has(|nodes|) && u < |nodes| && v < |nodes|
      modifies `edges, `revEdges, `edgeSet
      ensures View(found) == Linked(old(View(conflictBuf)), |nodes|, account, u, v)
    {
      found := conflictBuf;
      if (u, v) !in edgeSet {
        edgeSet := edgeSet + {(u, v)};
        edges := edges[u := edges[u] + [v]];
        revEdges := revEdges[v := revEdges[v] + [u]];
        found := found + [Conflict(account, u, v)];
      }
    }

    /** How many predecessors each node has. */
    method Indegrees() returns (indeg: seq<nat>)
      requires Valid()
      ensures Counts(edgeSet, |nodes|, indeg, {})
    {
      indeg := [];
      for v := 0 to |nodes|
        invariant |indeg| == v
        invariant forall w | 0 <= w < v :: indeg[w] == |Preds(edgeSet, w) - {}|
      {
        assert forall u: NodeId :: u in revEdges[v] <==> u in Preds(edgeSet, v) - {};
        NoDupSize(revEdges[v], Preds(edgeSet, v) - {});
        indeg := indeg + [|revEdges[v]|];
      }
    }

    /** Marks `u` as done: every successor has one predecessor fewer to wait for.
        Returns the successors that now wait for none, in adjacency order. */
    method Release(u: NodeId, before: seq<nat>, ghost done: set<NodeId>) returns (indeg: seq<nat>, ready: seq<NodeId>)
      requires Valid() && u < |nodes| && u !in done
      requires Counts(edgeSet, |nodes|, before, done)
      ensures Counts(edgeSet, |nodes|, indeg, done + {u})
      ensures NoDup(ready)
      ensures forall v: NodeId :: v in ready <==> v < |nodes| && u in Preds(edgeSet, v) && Preds(edgeSet, v) <= done + {u}
    {
      var targets := edges[u];
      assert forall v: NodeId :: v in targets <==> (u, v) in edgeSet;
      ghost var after := CountsAfter(edgeSet, |nodes|, before, done, u, targets);
      indeg, ready := DecrementAll(before, targets, after);
      forall v: NodeId ensures v in targets <==> u in Preds(edgeSet, v) {
        assert u in Preds(edgeSet, v) <==> (u, v) in edgeSet;
      }
    }

    /** Kahn's algorithm. It succeeds exactly on acyclic graphs, with an order that respects every arc. */
    method TopoOrder() returns (r: Result<seq<NodeId>, DagError>)
      requires Valid()
      ensures r.Ok? <==> Acyclic(edgeSet, |nodes|)
      ensures r.Ok? ==> IsTopological(edgeSet, |nodes|, r.value)
    {
      var n := |nodes|;
      var indeg := Indegrees();
      var q := InitiallyReady(indeg);
      var out: seq<NodeId> := [];
      while q != []
        invariant Counts(edgeSet, n, indeg, Elements(out))
        invariant Queued(edgeSet, n, out, q)
        decreases n - |out|
      {
        var u := q[0];
        TakeHead(edgeSet, n, out, q);
        var ready;
        indeg, ready := Release(u, indeg, Elements(out));
        TakeReady(edgeSet, n, out, q, ready);
        out := out + [u];
        q := q[1..] + ready;
      }
      Stuck(edgeSet, n, out);
      if |out| != n {
        return Err(CycleDetected);
      }
      return Ok(out);
    }

    /** Releases the nodes of one layer and returns those that wait for nobody any more. */
    method ReleaseLayer(layer: seq<NodeId>, before: seq<nat>, ghost done: set<NodeId>) returns (indeg: seq<nat>, next: set<NodeId>)
      requires Valid() && Counts(edgeSet, |nodes|, before, done)
      requires Ascending(layer) && forall v | v in layer :: v < |nodes| && v !in done
      ensures Counts(edgeSet, |nodes|, indeg, done + Elements(layer))
      ensures forall v: NodeId :: v in next <==>
        v < |nodes| && Preds(edgeSet, v) <= done + Elements(layer) && !(Preds(edgeSet, v) <= done)
    {
      indeg := before;
      next := {};
      assert done + Elements(layer[..0]) == done;
      for i := 0 to |layer|
        invariant Counts(edgeSet, |nodes|, indeg, done + Elements(layer[..i]))
        invariant forall v: NodeId :: v in next <==>
          v < |nodes| && Preds(edgeSet, v) <= done + Elements(layer[..i]) && !(Preds(edgeSet, v) <= done)
      {
        var u := layer[i];
        ghost var sofar := done + Elements(layer[..i]);
        assert u in layer && u !in sofar;
        assert done + Elements(layer[..i + 1]) == sofar + {u};
        var ready;
        indeg, ready := Release(u, indeg, sofar);
        ghost var was := next;
        next := next + set v | v in ready;
      }
      assert layer[..|layer|] == layer;
    }

    /** The nodes that wait for nobody, in index order. */
    method InitiallyReady(indeg: seq<nat>) returns (ready: seq<NodeId>)
      requires Valid() && Counts(edgeSet, |nodes|, indeg, {})
      ensures NoDup(ready) && forall v: NodeId :: v in ready <==> v < |nodes| && Preds(edgeSet, v) <= {}
    {
      ready := [];
      for v := 0 to |nodes|
        invariant NoDup(ready) && forall w: NodeId :: w in ready <==> w < v && Preds(edgeSet, w) <= {}
      {
        if indeg[v] == 0 {
          ready := ready + [v];
        }
      }
    }

    /** One turn of the layer loop: the frontier becomes a layer, and its release makes the next frontier. */
    method PeelOnce(frontier: set<NodeId>, before: seq<nat>, ghost layers: seq<seq<NodeId>>, ghost level: seq<nat>, ghost done: set<NodeId>)
      returns (layer: seq<NodeId>, next: set<NodeId>, indeg: seq<nat>)
      requires Valid() && frontier != {} && Counts(edgeSet, |nodes|, before, done)
      requires Peeled(edgeSet, |nodes|, layers, level, done, frontier)
      ensures Counts(edgeSet, |nodes|, indeg, done + Elements(layer))
      ensures Peeled(edgeSet, |nodes|, layers + [layer], Relevel(level, layer, |layers|), done + Elements(layer), next)
      ensures layer != [] && |done + Elements(layer)| == |done| + |layer| <= |nodes|
    {
      layer := Ascend(frontier, |nodes|);
      indeg, next := ReleaseLayer(layer, before, done);
      PeelLayer(edgeSet, |nodes|, layers, level, done, frontier, layer, next);
    }

    /** Peels off layer after layer of nodes whose predecessors are all done. */
    method Layers() returns (r: Result<seq<seq<NodeId>>, DagError>, ghost level: seq<nat>)
      requires Valid()
      ensures r.Ok? <==> Acyclic(edgeSet, |nodes|)
      ensures r.Ok? ==> LayeredBy(edgeSet, |nodes|, r.value, level)
    {
      ghost var arcs := edgeSet;
      var n := |nodes|;
      var indeg := Indegrees();
      var ready := InitiallyReady(indeg);
      var frontier: set<NodeId> := set v | v in ready;
      var layers: seq<seq<NodeId>> := [];
      var remaining: int := n;
      ghost var done: set<NodeId> := {};
      level := seq(n, _ => 0);
      while frontier != {}
        invariant Peeled(arcs, n, layers, level, done, frontier)
        invariant Counts(arcs, n, indeg, done)
        invariant remaining == n - |done|
        decreases n - |done|
      {
        var layer;
        layer, frontier, indeg := PeelOnce(frontier, indeg, layers, level, done);
        level := Relevel(level, layer, |layers|);
        done := done + Elements(layer);
        layers := layers + [layer];
        remaining := remaining - |layer|;
      }
      PeeledOut(arcs, n, layers, level, done);
      if remaining != 0 {
        return Err(CycleDetected), level;
      }
      return Ok(layers), level;
    }
  }

  /** The participant at `w` has an arc to every other participant after it and before `hi`. */
  lemma LaterParticipant(intents: seq<UserIntent>, account: Pubkey, sorted: seq<Participant>, w: nat, j: nat)
    requires Participates(intents, account, sorted) && SortedBy(ParticipantLeq, sorted)
    requires w < j < |sorted| && sorted[w].access == Writable && sorted[w].node != sorted[j].node
    ensures sorted[w].node < |intents| && sorted[j].node < |intents| && Before(intents, sorted[w].node, sorted[j].node)
    ensures account in Writes(intents[sorted[w].node]) && account in Touches(intents[sorted[j].node])
  {
    assert ParticipantOf(intents, account, sorted[w]) && ParticipantOf(intents, account, sorted[j]);
    assert ParticipantLeq(sorted[w], sorted[j]);
  }

  lemma OneMoreLinked(sorted: seq<Participant>, w: nat, j: nat, before: Arcs, after: Arcs)
    requires w < j < |sorted| && LinkedFrom(sorted, w, j, before) && before <= after
    requires sorted[w].node != sorted[j].node ==> (sorted[w].node, sorted[j].node) in after
    ensures LinkedFrom(sorted, w, j + 1, after)
  {
  }

  ghost predicate LinkedAt(sorted: seq<Participant>, positions: seq<nat>, arcs: Arcs) {
    forall w | w in positions :: w < |sorted| && LinkedFrom(sorted, w, |sorted|, arcs)
  }

  lemma OneMoreWriter(sorted: seq<Participant>, positions: seq<nat>, w: nat, before: Arcs, after: Arcs)
    requires LinkedAt(sorted, positions, before) && before <= after && w < |sorted| && LinkedFrom(sorted, w, |sorted|, after)
    ensures LinkedAt(sorted, positions + [w], after)
  {
    forall x | x in positions ensures LinkedFrom(sorted, x, |sorted|, after) {
      assert LinkedFrom(sorted, x, |sorted|, before);
    }
  }

  lemma WritersAreAll(sorted: seq<Participant>, arcs: Arcs)
    requires LinkedAt(sorted, Writers(sorted, |sorted|), arcs)
    ensures AllLinked(sorted, arcs)
  {
    forall w, j | 0 <= w < j < |sorted| && sorted[w].access == Writable && sorted[w].node != sorted[j].node
      ensures (sorted[w].node, sorted[j].node) in arcs
    {
      assert LinkedFrom(sorted, w, |sorted|, arcs);
    }
  }

  ghost predicate LinkedFrom(sorted: seq<Participant>, w: nat, hi: nat, arcs: Arcs)
    requires hi <= |sorted| && w < |sorted|
  {
    forall j | w < j < hi && sorted[w].node != sorted[j].node :: (sorted[w].node, sorted[j].node) in arcs
  }

}
