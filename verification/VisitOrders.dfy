/** What the order in which a hash map yields the accounts changes about the graph, and what it does not. */
module VisitOrders {
  import opened Types
  import opened Sorting
  import opened Graph
  import opened Scheduling

  /** Some pair of intents is ordered by `account`. */
  ghost predicate OrdersSome(intents: seq<UserIntent>, account: Pubkey) {
    exists u, v :: 0 <= u < |intents| && 0 <= v < |intents| && Before(intents, u, v) && account in Writes(intents[u]) && account in Touches(intents[v])
  }

  /** Every order of the accounts gives the same lists, arcs and conflicts, in the same order. */
  ghost predicate OrderPlaysNoPart(intents: seq<UserIntent>) {
    forall a, b | VisitsAll(intents, a) && VisitsAll(intents, b) :: NetOf(intents, a) == NetOf(intents, b)
  }

  // ---------------------------------------------------------------------------
  // The record grows, under the account visited
  // ---------------------------------------------------------------------------

  ghost predicate Extends(r: Net, net: Net, account: Pubkey) {
    net.record <= r.record && forall i | |net.record| <= i < |r.record| :: r.record[i].account == account
  }

  lemma {:induction false} LinkToExtends(net: Net, n: nat, account: Pubkey, sorted: seq<Participant>, w: nat, hi: nat)
    requires net.Has(n) && NodesBelow(sorted, n) && w < |sorted| && hi <= |sorted|
    ensures Extends(LinkedTo(net, n, account, sorted, w, hi), net, account)
  {
    if hi > w + 1 {
      LinkToExtends(net, n, account, sorted, w, hi - 1);
    }
  }

  lemma {:induction false} LinkFromAllExtends(net: Net, n: nat, account: Pubkey, sorted: seq<Participant>, positions: seq<nat>)
    requires net.Has(n) && NodesBelow(sorted, n) && forall i | 0 <= i < |positions| :: positions[i] < |sorted|
    ensures Extends(LinkedFromAll(net, n, account, sorted, positions), net, account)
  {
    if positions != [] {
      var front, w := positions[..|positions| - 1], positions[|positions| - 1];
      LinkFromAllExtends(net, n, account, sorted, front);
      LinkToExtends(LinkedFromAll(net, n, account, sorted, front), n, account, sorted, w, |sorted|);
    }
  }

  lemma ChainExtends(net: Net, n: nat, account: Pubkey, parts: seq<Participant>)
    requires net.Has(n) && NodesBelow(parts, n)
    ensures Extends(ChainedNet(net, n, account, parts), net, account)
  {
    SortedBelow(parts, n);
    var sorted := SortBy(ParticipantLeq, parts);
    LinkFromAllExtends(net, n, account, sorted, Writers(sorted, |sorted|));
  }

  lemma NextExtends(intents: seq<UserIntent>, order: seq<Pubkey>, account: Pubkey)
    ensures Extends(NetOf(intents, order + [account]), NetOf(intents, order), account)
  {
    OneMoreVisited(intents, order, account);
    ChainExtends(NetOf(intents, order), |intents|, account, PartsOf(intents, |intents|, account));
  }

  function NetFor(intents: seq<UserIntent>): seq<Pubkey> -> Net {
    (order: seq<Pubkey>) => NetOf(intents, order)
  }

  /** A record that no further visit shortens starts with what it was before. */
  lemma {:induction false} GrowsAlong(f: seq<Pubkey> -> Net, front: seq<Pubkey>, rest: seq<Pubkey>)
    requires forall order, k :: Extends(f(order + [k]), f(order), k)
    ensures f(front).record <= f(front + rest).record
  {
    if rest == [] {
      assert front + rest == front;
    } else {
      var most, k := rest[..|rest| - 1], rest[|rest| - 1];
      GrowsAlong(f, front, most);
      assert front + rest == (front + most) + [k];
      assert Extends(f((front + most) + [k]), f(front + most), k);
    }
  }

  ghost predicate NamedFirst(net: Net, account: Pubkey) {
    net.record != [] && net.record[0].account == account
  }

  lemma StaysFirst(f: seq<Pubkey> -> Net, account: Pubkey, rest: seq<Pubkey>)
    requires (forall order, k :: Extends(f(order + [k]), f(order), k)) && NamedFirst(f([account]), account)
    ensures NamedFirst(f([account] + rest), account)
  {
    GrowsAlong(f, [account], rest);
  }

  lemma NamedApart(a: Net, b: Net, k: Pubkey, l: Pubkey)
    requires NamedFirst(a, k) && NamedFirst(b, l) && k != l
    ensures a != b
  {
  }

  // ---------------------------------------------------------------------------
  // Which accounts leave something on record
  // ---------------------------------------------------------------------------

  lemma {:induction false} LinksNone(intents: seq<UserIntent>, net: Net, account: Pubkey, sorted: seq<Participant>, w: nat, hi: nat)
    requires !OrdersSome(intents, account) && net.Has(|intents|) && NodesBelow(sorted, |intents|)
    requires Participates(intents, account, sorted) && SortedBy(ParticipantLeq, sorted)
    requires w < |sorted| && hi <= |sorted| && sorted[w].access == Writable
    ensures LinkedTo(net, |intents|, account, sorted, w, hi) == net
  {
    if hi > w + 1 {
      LinksNone(intents, net, account, sorted, w, hi - 1);
      if sorted[w].node != sorted[hi - 1].node {
        LaterParticipant(intents, account, sorted, w, hi - 1);
      }
    }
  }

  lemma {:induction false} LinksNoneFromAll(intents: seq<UserIntent>, net: Net, account: Pubkey, sorted: seq<Participant>, positions: seq<nat>)
    requires !OrdersSome(intents, account) && net.Has(|intents|) && NodesBelow(sorted, |intents|)
    requires Participates(intents, account, sorted) && SortedBy(ParticipantLeq, sorted)
    requires forall i | 0 <= i < |positions| :: positions[i] < |sorted| && sorted[positions[i]].access == Writable
    ensures LinkedFromAll(net, |intents|, account, sorted, positions) == net
  {
    if positions != [] {
      LinksNoneFromAll(intents, net, account, sorted, positions[..|positions| - 1]);
      LinksNone(intents, net, account, sorted, positions[|positions| - 1], |sorted|);
    }
  }

  lemma ChainsNone(intents: seq<UserIntent>, net: Net, account: Pubkey)
    requires !OrdersSome(intents, account) && net.Has(|intents|) && NodesBelow(PartsOf(intents, |intents|, account), |intents|)
    ensures ChainedNet(net, |intents|, account, PartsOf(intents, |intents|, account)) == net
  {
    var parts := PartsOf(intents, |intents|, account);
    PartsAreParticipants(intents, |intents|, account);
    SortingKeeps(intents, account, parts);
    SortedBelow(parts, |intents|);
    var sorted := SortBy(ParticipantLeq, parts);
    LinksNoneFromAll(intents, net, account, sorted, Writers(sorted, |sorted|));
  }

  lemma ArcsAreRecorded(intents: seq<UserIntent>, account: Pubkey, r: Net)
    requires OrdersSome(intents, account) && Explains(intents, r.arcs, r.record) && Chained(intents, account, r.arcs)
    ensures r.record != []
  {
    var u, v :| 0 <= u < |intents| && 0 <= v < |intents| && Before(intents, u, v) && account in Writes(intents[u]) && account in Touches(intents[v]);
    assert (u, v) in r.arcs;
  }

  lemma LeavesRecord(intents: seq<UserIntent>, account: Pubkey, net: Net, r: Net)
    requires OrdersSome(intents, account) && net == EmptyNet(|intents|) && NodesBelow(PartsOf(intents, |intents|, account), |intents|)
    requires r == ChainedNet(net, |intents|, account, PartsOf(intents, |intents|, account))
    ensures NamedFirst(r, account)
  {
    var parts := PartsOf(intents, |intents|, account);
    PartsAreParticipants(intents, |intents|, account);
    NothingIsSound(intents);
    ChainKeeps(intents, net, account, parts);
    ArcsAreRecorded(intents, account, r);
    ChainExtends(net, |intents|, account, parts);
  }

  /** The first account visited is named first, if it orders some pair. */
  lemma FirstOnRecord(intents: seq<UserIntent>, account: Pubkey, rest: seq<Pubkey>)
    requires OrdersSome(intents, account)
    ensures NamedFirst(NetFor(intents)([account] + rest), account)
  {
    var f := NetFor(intents);
    forall order, k ensures Extends(f(order + [k]), f(order), k) {
      NextExtends(intents, order, k);
    }
    AloneOnRecord(intents, account);
    StaysFirst(f, account, rest);
  }

  lemma AloneOnRecord(intents: seq<UserIntent>, account: Pubkey)
    requires OrdersSome(intents, account)
    ensures NamedFirst(NetOf(intents, [account]), account)
  {
    assert [] + [account] == [account];
    OneMoreVisited(intents, [], account);
    LeavesRecord(intents, account, NetOf(intents, []), NetOf(intents, [account]));
  }

  lemma OrderStartingWith(intents: seq<UserIntent>, account: Pubkey) returns (rest: seq<Pubkey>)
    requires OrdersSome(intents, account)
    ensures VisitsAll(intents, [account] + rest)
  {
    var all := set i, a | 0 <= i < |intents| && a in intents[i].accesses :: a.pubkey;
    rest := Listed(all - {account});
    JoinNoDup([account], rest);
    forall k ensures k in [account] + rest <==> exists i :: 0 <= i < |intents| && k in Touches(intents[i]) {
      assert k in all <==> exists i :: 0 <= i < |intents| && k in Touches(intents[i]);
      assert account in all;
    }
  }

  // ---------------------------------------------------------------------------
  // When the order plays no part
  // ---------------------------------------------------------------------------

  lemma {:induction false} OnlyOneCounts(intents: seq<UserIntent>, order: seq<Pubkey>, k: Pubkey)
    requires NoDup(order) && forall l :: OrdersSome(intents, l) ==> l == k
    ensures NetOf(intents, order) == if k in order then NetOf(intents, [k]) else EmptyNet(|intents|)
  {
    if order != [] {
      var front, account := order[..|order| - 1], order[|order| - 1];
      assert order == front + [account];
      OnlyOneCounts(intents, front, k);
      OneMoreVisited(intents, front, account);
      if account == k {
        assert k !in front;
        assert [] + [k] == [k];
        OneMoreVisited(intents, [], k);
      } else {
        ChainsNone(intents, NetOf(intents, front), account);
      }
    }
  }

  lemma OneAccountSuffices(intents: seq<UserIntent>, k: Pubkey)
    requires forall l :: OrdersSome(intents, l) ==> l == k
    ensures OrderPlaysNoPart(intents)
  {
    forall a, b | VisitsAll(intents, a) && VisitsAll(intents, b) ensures NetOf(intents, a) == NetOf(intents, b) {
      OnlyOneCounts(intents, a, k);
      OnlyOneCounts(intents, b, k);
      assert k in a <==> k in b;
    }
  }

  lemma TwoAccountsShow(intents: seq<UserIntent>, k: Pubkey, l: Pubkey)
    requires OrdersSome(intents, k) && OrdersSome(intents, l) && k != l
    ensures !OrderPlaysNoPart(intents)
  {
    var a := OrderStartingWith(intents, k);
    var b := OrderStartingWith(intents, l);
    FirstOnRecord(intents, k, a);
    FirstOnRecord(intents, l, b);
    NamedApart(NetFor(intents)([k] + a), NetFor(intents)([l] + b), k, l);
    OrdersShow(intents, [k] + a, [l] + b);
  }

  lemma OrdersShow(intents: seq<UserIntent>, a: seq<Pubkey>, b: seq<Pubkey>)
    requires VisitsAll(intents, a) && VisitsAll(intents, b) && NetFor(intents)(a) != NetFor(intents)(b)
    ensures !OrderPlaysNoPart(intents)
  {
    assert NetOf(intents, a) != NetOf(intents, b);
  }

  /** The order of the accounts plays no part exactly when at most one account orders any pair. */
  lemma OrderPlaysNoPartExactly(intents: seq<UserIntent>)
    ensures OrderPlaysNoPart(intents) <==> forall k, l | OrdersSome(intents, k) && OrdersSome(intents, l) :: k == l
  {
    if k, l :| OrdersSome(intents, k) && OrdersSome(intents, l) && k != l {
      TwoAccountsShow(intents, k, l);
    } else if k :| OrdersSome(intents, k) {
      OneAccountSuffices(intents, k);
    } else {
      OneAccountSuffices(intents, UniformKey(0));
    }
  }

  // ---------------------------------------------------------------------------
  // The smallest bundle that shows it
  // ---------------------------------------------------------------------------

  function Using(accesses: seq<AccountAccess>): UserIntent {
    UserIntent(UniformKey(0), Instruction(UniformKey(0), [], []), accesses, 0, None)
  }

  /** One writer of two accounts and a reader of each. */
  function WriterAndReaders(a: Pubkey, b: Pubkey): seq<UserIntent> {
    [Using([AccountAccess(a, Writable), AccountAccess(b, Writable)]), Using([AccountAccess(a, ReadOnly)]), Using([AccountAccess(b, ReadOnly)])]
  }

  lemma WriterThenReader(net: Net, n: nat, account: Pubkey, parts: seq<Participant>, p: Participant, q: Participant)
    requires net.Has(n) && parts == [p, q] && NodesBelow(parts, n)
    requires p.access == Writable && q.access == ReadOnly && p.node != q.node && ParticipantLeq(p, q)
    ensures p.node < n && q.node < n && ChainedNet(net, n, account, parts) == Linked(net, n, account, p.node, q.node)
  {
    assert parts[0] == p && parts[1] == q;
    assert SortedBy(ParticipantLeq, parts);
    SortByKeepsSorted(ParticipantLeq, parts);
    OneWriter(parts);
    OnePairLinked(net, n, account, parts);
  }

  lemma OneWriter(sorted: seq<Participant>)
    requires |sorted| == 2 && sorted[0].access == Writable && sorted[1].access == ReadOnly
    ensures Writers(sorted, 2) == [0]
  {
    assert Writers(sorted, 1) == [] + [0];
  }

  lemma OnePairLinked(net: Net, n: nat, account: Pubkey, sorted: seq<Participant>)
    requires net.Has(n) && |sorted| == 2 && NodesBelow(sorted, n) && sorted[0].node != sorted[1].node
    ensures LinkedFromAll(net, n, account, sorted, [0]) == Linked(net, n, account, sorted[0].node, sorted[1].node)
  {
    assert [0][..0] == [];
    assert LinkedFromAll(net, n, account, sorted, []) == net;
    assert LinkedTo(net, n, account, sorted, 0, 1) == net;
  }

  lemma PartsOfPair(a: Pubkey, b: Pubkey, k: Pubkey)
    requires a != b && (k == a || k == b)
    ensures PartsOf(WriterAndReaders(a, b), 3, k)
         == [Participant(0, Writable, (0, 0)), if k == a then Participant(1, ReadOnly, (0, 1)) else Participant(2, ReadOnly, (0, 2))]
  {
    var intents := WriterAndReaders(a, b);
    var w, p, q := Participant(0, Writable, (0, 0)), Participant(1, ReadOnly, (0, 1)), Participant(2, ReadOnly, (0, 2));
    assert PartsIn(intents, 0, 1, k) == [] + if k == a then [w] else [];
    assert PartsIn(intents, 0, 2, k) == PartsIn(intents, 0, 1, k) + if k == b then [w] else [];
    assert PartsIn(intents, 1, 1, k) == [] + if k == a then [p] else [];
    assert PartsIn(intents, 2, 1, k) == [] + if k == b then [q] else [];
    assert PartsOf(intents, 1, k) == [] + PartsIn(intents, 0, 2, k);
    assert PartsOf(intents, 2, k) == PartsOf(intents, 1, k) + PartsIn(intents, 1, 1, k);
    assert PartsOf(intents, 3, k) == PartsOf(intents, 2, k) + PartsIn(intents, 2, 1, k);
  }

  /** Visited in one order the writer's successors are listed as 1, 2, in the other as 2, 1. */
  lemma SuccessorsDependOnOrder(a: Pubkey, b: Pubkey)
    requires a != b
    ensures var intents := WriterAndReaders(a, b);
      && NetOf(intents, [a, b]).edges[0] == [1, 2] && NetOf(intents, [b, a]).edges[0] == [2, 1]
      && VisitsAll(intents, [a, b]) && VisitsAll(intents, [b, a])
  {
    PartsOfPair(a, b, a);
    PartsOfPair(a, b, b);
    TwoVisits(WriterAndReaders(a, b), a, b, 1, 2);
    TwoVisits(WriterAndReaders(a, b), b, a, 2, 1);
    AllVisited(a, b);
  }

  lemma VisitPair(intents: seq<UserIntent>, order: seq<Pubkey>, k: Pubkey, i: NodeId)
    requires 1 <= i < |intents| && PartsOf(intents, |intents|, k) == [Participant(0, Writable, (0, 0)), Participant(i, ReadOnly, (0, i))]
    ensures NetOf(intents, order + [k]) == Linked(NetOf(intents, order), |intents|, k, 0, i)
  {
    OneMoreVisited(intents, order, k);
    WriterThenReader(NetOf(intents, order), |intents|, k, PartsOf(intents, |intents|, k), Participant(0, Writable, (0, 0)), Participant(i, ReadOnly, (0, i)));
  }

  lemma TwoLinks(net: Net, n: nat, k: Pubkey, l: Pubkey, i: NodeId, j: NodeId)
    requires net == EmptyNet(n) && 1 <= i < n && 1 <= j < n && i != j
    ensures Linked(Linked(net, n, k, 0, i), n, l, 0, j).edges[0] == [i, j]
  {
  }

  lemma TwoVisits(intents: seq<UserIntent>, k: Pubkey, l: Pubkey, i: NodeId, j: NodeId)
    requires |intents| == 3 && 1 <= i < 3 && 1 <= j < 3 && i != j
    requires PartsOf(intents, 3, k) == [Participant(0, Writable, (0, 0)), Participant(i, ReadOnly, (0, i))]
    requires PartsOf(intents, 3, l) == [Participant(0, Writable, (0, 0)), Participant(j, ReadOnly, (0, j))]
    ensures NetOf(intents, [k, l]).edges[0] == [i, j]
  {
    assert [] + [k] == [k] && [k] + [l] == [k, l];
    VisitPair(intents, [], k, i);
    VisitPair(intents, [k], l, j);
    TwoLinks(NetOf(intents, []), 3, k, l, i, j);
  }

  lemma AllVisited(a: Pubkey, b: Pubkey)
    requires a != b
    ensures VisitsAll(WriterAndReaders(a, b), [a, b]) && VisitsAll(WriterAndReaders(a, b), [b, a])
  {
    var intents := WriterAndReaders(a, b);
    var x, y := AccountAccess(a, Writable), AccountAccess(b, Writable);
    assert intents[0].accesses == [x, y] && x in intents[0].accesses && y in intents[0].accesses;
    assert a in Touches(intents[0]) && b in Touches(intents[0]);
    forall i, k | 0 <= i < 3 && k in Touches(intents[i]) ensures k == a || k == b {}
  }
}
