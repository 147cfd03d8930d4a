/** Merging keeps intents, totals and meaning, and has nothing left to do the second time. */
module MergeLaws {
  import opened Types
  import opened Sorting
  import opened Semantics
  import opened Scheduling
  import opened SchedulingLaws
  import opened Merging

  function IntentsOf(plans: seq<ChunkPlan>): seq<UserIntent> {
    if plans == [] then [] else plans[0].intents + IntentsOf(plans[1..])
  }

  function Totals(plans: seq<ChunkPlan>): ChunkEstimates {
    if plans == [] then ChunkEstimates(0, 0, 0, 0)
    else AddEstimates(plans[0].estimates, Totals(plans[1..]))
  }

  // ---------------------------------------------------------------------------
  // Conservation
  // ---------------------------------------------------------------------------

  lemma {:induction false} AbsorbConserves(group: ChunkPlan, rest: seq<ChunkPlan>, lim: Limits)
    requires group.intents != []
    ensures var (g, k) := Absorb(group, rest, lim);
      && g.intents + IntentsOf(rest[k..]) == group.intents + IntentsOf(rest)
      && AddEstimates(g.estimates, Totals(rest[k..])) == AddEstimates(group.estimates, Totals(rest))
      && g.intents != []
    decreases |rest|
  {
    if rest != [] && Takes(group, rest[0], lim) {
      var c, tail := rest[0], rest[1..];
      var joined := Join(group, c);
      AbsorbConserves(joined, tail, lim);
      var (g, k) := Absorb(joined, tail, lim);
      assert rest[k + 1..] == tail[k..];
      assert joined.intents + IntentsOf(tail) == group.intents + (c.intents + IntentsOf(tail));
    } else {
      assert rest[0..] == rest;
    }
  }

  /** The merged plans hold the same intents in the same order, and the same totals. */
  lemma {:induction false} MergeConserves(plans: seq<ChunkPlan>, lim: Limits)
    ensures IntentsOf(Merge(plans, lim)) == IntentsOf(plans)
    ensures Totals(Merge(plans, lim)) == Totals(plans)
    decreases |plans|
  {
    if plans != [] {
      var head, rest := plans[0], plans[1..];
      if head.intents != [] && Small(head, lim) {
        var (g, k) := Absorb(Cleared(head), rest, lim);
        AbsorbConserves(Cleared(head), rest, lim);
        MergeConserves(rest[k..], lim);
        assert ([g] + Merge(rest[k..], lim))[1..] == Merge(rest[k..], lim);
      } else {
        var first := if head.intents == [] then head else Cleared(head);
        MergeConserves(rest, lim);
        assert ([first] + Merge(rest, lim))[1..] == Merge(rest, lim);
      }
    }
  }

  // ---------------------------------------------------------------------------
  // Limits
  // ---------------------------------------------------------------------------

  lemma {:induction false} AbsorbWithinLimits(group: ChunkPlan, rest: seq<ChunkPlan>, lim: Limits)
    requires group.intents != []
    ensures var (g, k) := Absorb(group, rest, lim);
      k > 0 ==> g.estimates.estCu <= lim.maxCu && g.estimates.estMsgBytes <= lim.maxMessageBytes
    decreases |rest|
  {
    if rest != [] && Takes(group, rest[0], lim) {
      AbsorbWithinLimits(Join(group, rest[0]), rest[1..], lim);
    }
  }

  /** Every plan that was merged from several is within the compute and message limits. */
  lemma {:induction false} MergedWithinLimits(plans: seq<ChunkPlan>, lim: Limits, n: nat)
    requires n < |Merge(plans, lim)|
    ensures var m := Merge(plans, lim)[n];
      m.intents != [] && m.mergedIndices != [] ==> m.estimates.estCu <= lim.maxCu && m.estimates.estMsgBytes <= lim.maxMessageBytes
    decreases |plans|
  {
    var head, rest := plans[0], plans[1..];
    if head.intents != [] && Small(head, lim) {
      var k := Absorb(Cleared(head), rest, lim).1;
      AbsorbedIndices(Cleared(head), rest, lim);
      AbsorbWithinLimits(Cleared(head), rest, lim);
      if n > 0 { MergedWithinLimits(rest[k..], lim, n - 1); }
    } else if n > 0 {
      MergedWithinLimits(rest, lim, n - 1);
    }
  }

  // ---------------------------------------------------------------------------
  // A second merge finds nothing to merge
  // ---------------------------------------------------------------------------

  /** `next` cannot join `group`. */
  ghost predicate Stops(group: ChunkPlan, next: ChunkPlan, lim: Limits) {
    group.intents != [] && Small(group, lim) ==> !Takes(group, next, lim)
  }

  ghost predicate Settled(plans: seq<ChunkPlan>, lim: Limits) {
    forall i, j | 0 <= i && j == i + 1 && j < |plans| :: Stops(plans[i], plans[j], lim)
  }

  /** `d` starts as `c` does and is at least as large. */
  ghost predicate Outgrows(d: ChunkPlan, c: ChunkPlan) {
    && (c.intents == [] <==> d.intents == [])
    && c.intents <= d.intents
    && c.estimates.estCu <= d.estimates.estCu && c.estimates.estMsgBytes <= d.estimates.estMsgBytes
  }

  lemma PrefixTouches(a: seq<UserIntent>, b: seq<UserIntent>)
    requires a <= b
    ensures Touched(a) <= Touched(b) && Written(a) <= Written(b)
  {
    forall k | k in Touched(a) ensures k in Touched(b) {
      var i :| 0 <= i < |a| && k in Touches(a[i]);
      assert a[i] == b[i];
    }
    forall k | k in Written(a) ensures k in Written(b) {
      var i :| 0 <= i < |a| && k in Writes(a[i]);
      assert a[i] == b[i];
    }
  }

  /** Every reason for stopping at `c` still holds when `c` has grown. */
  lemma StillStops(group: ChunkPlan, c: ChunkPlan, d: ChunkPlan, lim: Limits)
    requires group.intents != [] && !Takes(group, c, lim) && Outgrows(d, c)
    ensures !Takes(group, d, lim)
  {
  }

  lemma {:induction false} AbsorbOutgrows(group: ChunkPlan, rest: seq<ChunkPlan>, lim: Limits)
    requires group.intents != []
    ensures var (g, k) := Absorb(group, rest, lim);
      && Outgrows(g, group)
      && (k < |rest| ==> !Takes(g, rest[k], lim))
    decreases |rest|
  {
    if rest != [] && Takes(group, rest[0], lim) {
      AbsorbOutgrows(Join(group, rest[0]), rest[1..], lim);
    }
  }

  /** The first merged plan has grown from the first plan, whatever it absorbed. */
  lemma FirstOutgrows(plans: seq<ChunkPlan>, lim: Limits)
    requires plans != []
    ensures Merge(plans, lim) != [] && Outgrows(Merge(plans, lim)[0], plans[0])
  {
    if plans[0].intents != [] && Small(plans[0], lim) {
      AbsorbOutgrows(Cleared(plans[0]), plans[1..], lim);
    }
  }

  lemma {:induction false} MergeSettles(plans: seq<ChunkPlan>, lim: Limits)
    ensures Settled(Merge(plans, lim), lim)
    decreases |plans|
  {
    if plans != [] {
      var head, rest := plans[0], plans[1..];
      if head.intents != [] && Small(head, lim) {
        var (g, k) := Absorb(Cleared(head), rest, lim);
        AbsorbOutgrows(Cleared(head), rest, lim);
        MergeSettles(rest[k..], lim);
        if k < |rest| {
          FirstOutgrows(rest[k..], lim);
          StillStops(g, rest[k], Merge(rest[k..], lim)[0], lim);
        }
      } else {
        MergeSettles(rest, lim);
      }
    }
  }

  /** What merging does to a plan that stays alone. */
  function Alone(plan: ChunkPlan): ChunkPlan {
    if plan.intents == [] then plan else Cleared(plan)
  }

  function AllAlone(plans: seq<ChunkPlan>): (r: seq<ChunkPlan>)
    ensures |r| == |plans|
  {
    seq(|plans|, i requires 0 <= i < |plans| => Alone(plans[i]))
  }

  lemma {:induction false} SettledStaysAlone(plans: seq<ChunkPlan>, lim: Limits)
    requires Settled(plans, lim)
    ensures Merge(plans, lim) == AllAlone(plans)
    decreases |plans|
  {
    if plans != [] {
      var rest := plans[1..];
      assert Settled(rest, lim) by {
        forall i, j | 0 <= i && j == i + 1 && j < |rest| ensures Stops(rest[i], rest[j], lim) {
          assert Stops(plans[i + 1], plans[j + 1], lim);
        }
      }
      SettledStaysAlone(rest, lim);
      assert AllAlone(plans) == [Alone(plans[0])] + AllAlone(rest);
      if rest != [] { assert Stops(plans[0], plans[1], lim); }
      assert rest[0..] == rest;
    }
  }

  /** Merging a merged list merges nothing more: only the recorded indices are cleared. */
  lemma MergeIsFixpoint(plans: seq<ChunkPlan>, lim: Limits)
    ensures Merge(Merge(plans, lim), lim) == AllAlone(Merge(plans, lim))
  {
    MergeSettles(plans, lim);
    SettledStaysAlone(Merge(plans, lim), lim);
  }

  // ---------------------------------------------------------------------------
  // Merged plans commute
  // ---------------------------------------------------------------------------

  ghost predicate PairwiseApart(sources: seq<ChunkPlan>) {
    forall a, b | 0 <= a < b < |sources| :: Apart(sources[a].intents, sources[b].intents)
  }

  lemma ConcatTouches(a: seq<UserIntent>, b: seq<UserIntent>)
    ensures Touched(a + b) == Touched(a) + Touched(b) && Written(a + b) == Written(a) + Written(b)
  {
    var c := a + b;
    PrefixTouches(a, c);
    assert forall i | 0 <= i < |b| :: c[|a| + i] == b[i];
    forall k | k in Touched(c) ensures k in Touched(a) + Touched(b) {
      var i :| 0 <= i < |c| && k in Touches(c[i]);
      if i < |a| { assert k in Touches(a[i]); } else { assert k in Touches(b[i - |a|]); }
    }
    forall k | k in Written(c) ensures k in Written(a) + Written(b) {
      var i :| 0 <= i < |c| && k in Writes(c[i]);
      if i < |a| { assert k in Writes(a[i]); } else { assert k in Writes(b[i - |a|]); }
    }
  }

  lemma ApartFromBoth(a: seq<UserIntent>, b: seq<UserIntent>, c: seq<UserIntent>)
    ensures Apart(a + b, c) <==> Apart(a, c) && Apart(b, c)
  {
    ConcatTouches(a, b);
    var (wa, wb, ta, tb) := (Written(a), Written(b), Touched(a), Touched(b));
    assert (wa + wb) * Touched(c) == wa * Touched(c) + wb * Touched(c);
    assert (ta + tb) * Written(c) == ta * Written(c) + tb * Written(c);
  }

  lemma {:induction false} AllApartFrom(sources: seq<ChunkPlan>, c: seq<UserIntent>)
    ensures Apart(IntentsOf(sources), c) <==> forall a | 0 <= a < |sources| :: Apart(sources[a].intents, c)
  {
    if sources == [] {
      assert Written([]) == {} && Touched([]) == {};
    } else {
      AllApartFrom(sources[1..], c);
      ApartFromBoth(sources[0].intents, IntentsOf(sources[1..]), c);
      assert forall a | 0 < a < |sources| :: sources[a] == sources[1..][a - 1];
    }
  }

  lemma {:induction false} IntentsSnoc(sources: seq<ChunkPlan>, c: ChunkPlan)
    ensures IntentsOf(sources + [c]) == IntentsOf(sources) + c.intents
  {
    if sources == [] {
      assert [] + [c] == [c] && [c][1..] == [];
    } else {
      IntentsSnoc(sources[1..], c);
      assert (sources + [c])[1..] == sources[1..] + [c];
    }
  }

  lemma {:induction false} AbsorbedApart(sources: seq<ChunkPlan>, group: ChunkPlan, rest: seq<ChunkPlan>, lim: Limits)
    requires group.intents != [] && group.intents == IntentsOf(sources) && PairwiseApart(sources)
    ensures var (g, k) := Absorb(group, rest, lim);
      PairwiseApart(sources + rest[..k]) && g.intents == IntentsOf(sources + rest[..k])
    decreases |rest|
  {
    if rest != [] && Takes(group, rest[0], lim) {
      var c := rest[0];
      IntentsSnoc(sources, c);
      AllApartFrom(sources, c.intents);
      AbsorbedApart(sources + [c], Join(group, c), rest[1..], lim);
      var k := Absorb(Join(group, c), rest[1..], lim).1;
      assert sources + [c] + rest[1..][..k] == sources + rest[..k + 1];
    } else {
      assert sources + rest[..0] == sources;
    }
  }

  /** Which source plan the intent at position `i` of the group comes from. */
  function Owner(sources: seq<ChunkPlan>, i: nat): (o: nat)
    requires i < |IntentsOf(sources)|
    ensures o < |sources| && IntentsOf(sources)[i] in sources[o].intents
  {
    if i < |sources[0].intents| then 0 else 1 + Owner(sources[1..], i - |sources[0].intents|)
  }

  /** `order` runs all intents of the group and keeps each source plan's own order. */
  ghost predicate Interleaves(sources: seq<ChunkPlan>, order: seq<NodeId>) {
    var n := |IntentsOf(sources)|;
    && NoDup(order) && (forall v: NodeId :: v in order <==> v < n)
    && forall i: NodeId, j: NodeId | i < j < n && Owner(sources, i) == Owner(sources, j) :: Precedes(order, i, j)
  }

  lemma MembersApart(a: seq<UserIntent>, b: seq<UserIntent>, i: UserIntent, j: UserIntent)
    requires Apart(a, b) && i in a && j in b
    ensures !Clash(Access(Touches(i), Writes(i)), Access(Touches(j), Writes(j)))
  {
    var x :| 0 <= x < |a| && a[x] == i;
    var y :| 0 <= y < |b| && b[y] == j;
    var wi, ti, wj, tj := Writes(i), Touches(i), Writes(j), Touches(j);
    assert wi <= Written(a) && ti <= Touched(a) && wj <= Written(b) && tj <= Touched(b);
    assert wi * tj <= Written(a) * Touched(b);
    assert wj * ti <= Touched(a) * Written(b);
  }

  lemma DifferentOwnersApart(sources: seq<ChunkPlan>, i: NodeId, j: NodeId)
    requires PairwiseApart(sources) && i < |IntentsOf(sources)| && j < |IntentsOf(sources)|
    requires Owner(sources, i) != Owner(sources, j)
    ensures var acc := AccessOf(IntentsOf(sources)); !Clash(acc[i], acc[j])
  {
    var all, a, b := IntentsOf(sources), Owner(sources, i), Owner(sources, j);
    if a < b {
      MembersApart(sources[a].intents, sources[b].intents, all[i], all[j]);
    } else {
      MembersApart(sources[b].intents, sources[a].intents, all[j], all[i]);
    }
  }

  function Identity(n: nat): (order: seq<NodeId>)
    ensures |order| == n && forall i | 0 <= i < n :: order[i] == i
  {
    seq(n, i => i)
  }

  /** Clashing intents share a source plan, whose order an interleaving keeps. */
  lemma {:induction false} InterleavingKeepsClashes(sources: seq<ChunkPlan>, order: seq<NodeId>)
    requires PairwiseApart(sources) && Interleaves(sources, order)
    ensures var all := IntentsOf(sources); InRange(Identity(|all|), |all|) && KeepsClashes(AccessOf(all), order, Identity(|all|))
  {
    var n := |IntentsOf(sources)|;
    var acc, id := AccessOf(IntentsOf(sources)), Identity(n);
    forall k, l | 0 <= k < l < n && Clash(acc[id[k]], acc[id[l]]) ensures Precedes(order, id[k], id[l]) {
      if Owner(sources, k) != Owner(sources, l) {
        DifferentOwnersApart(sources, k, l);
      }
    }
  }

  lemma SameAsIdentity(order: seq<NodeId>, n: nat)
    requires NoDup(order) && forall v: NodeId :: v in order <==> v < n
    ensures InRange(order, n) && InRange(Identity(n), n) && multiset(order) == multiset(Identity(n))
  {
    var id := Identity(n);
    assert forall i | 0 <= i < |order| :: order[i] in order;
    forall v: NodeId ensures v in order <==> v in id {
      if v < n { assert id[v] == v; }
    }
    SameNodes(order, id);
  }

  /** Plans that are pairwise apart may run in any interleaving: the outcome is that of the merged chunk. */
  lemma {:induction false} ApartPlansInterleave(sources: seq<ChunkPlan>, order: seq<NodeId>, p: Program, s: State)
    requires PairwiseApart(sources) && Interleaves(sources, order)
    ensures var all := IntentsOf(sources);
      && InRange(order, |all|) && InRange(Identity(|all|), |all|)
      && Run(p, AccessOf(all), order, s) == Run(p, AccessOf(all), Identity(|all|), s)
  {
    var all := IntentsOf(sources);
    SameAsIdentity(order, |all|);
    InterleavingKeepsClashes(sources, order);
    SameClashOrder(p, AccessOf(all), order, Identity(|all|), s);
  }

  /** The plans merged into one chunk are pairwise apart, so running the chunk is running them in any interleaving. */
  lemma MergedPlansCommute(head: ChunkPlan, rest: seq<ChunkPlan>, lim: Limits, order: seq<NodeId>, p: Program, s: State)
    requires head.intents != []
    requires var k := Absorb(Cleared(head), rest, lim).1; Interleaves([head] + rest[..k], order)
    ensures var (g, k) := Absorb(Cleared(head), rest, lim);
      && PairwiseApart([head] + rest[..k]) && g.intents == IntentsOf([head] + rest[..k])
      && InRange(order, |g.intents|) && InRange(Identity(|g.intents|), |g.intents|)
      && Run(p, AccessOf(g.intents), order, s) == Run(p, AccessOf(g.intents), Identity(|g.intents|), s)
  {
    var (g, k) := Absorb(Cleared(head), rest, lim);
    IntentsSnoc([], head);
    assert [] + [head] == [head];
    AbsorbedApart([head], Cleared(head), rest, lim);
    ApartPlansInterleave([head] + rest[..k], order, p, s);
  }
}
