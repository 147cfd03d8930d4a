/** Merging consecutive small chunk plans of one layer. */
module Merging {
  import opened Types
  import opened Scheduling
  import opened Shortvec

  const ER_SMALL_MESSAGE_BYTES: nat := 400

  const PACKET_DATA_SIZE: nat := 1232

  datatype SafetyMargins = SafetyMargins(maxChunkCu: nat, bytesSlack: nat, maxMsgBytes: nat) {
    function MaxMessageBytesWithSigners(numSigners: nat): nat {
      var sigBytes := 64 * numSigners + TableLen(numSigners);
      var hard := if PACKET_DATA_SIZE >= sigBytes then PACKET_DATA_SIZE - sigBytes else 0;
      var capped := if hard <= maxMsgBytes then hard else maxMsgBytes;
      if capped >= bytesSlack then capped - bytesSlack else 0
    }
  }

  datatype ChunkEstimates = ChunkEstimates(estCu: nat, estMsgBytes: nat, altRo: nat, altWr: nat)

  datatype ChunkPlan = ChunkPlan(index: nat, intents: seq<UserIntent>, estimates: ChunkEstimates, mergedIndices: seq<nat>)

  // ---------------------------------------------------------------------------
  // Access maps
  // ---------------------------------------------------------------------------

  function Touched(intents: seq<UserIntent>): set<Pubkey> {
    set i, k | 0 <= i < |intents| && k in Touches(intents[i]) :: k
  }

  function Written(intents: seq<UserIntent>): set<Pubkey> {
    set i, k | 0 <= i < |intents| && k in Writes(intents[i]) :: k
  }

  type AccessMap = map<Pubkey, AccessKind>

  /** `m` has every account that `intents` touch, Writable exactly for those they write. */
  ghost predicate Summarises(m: AccessMap, intents: seq<UserIntent>) {
    && m.Keys == Touched(intents)
    && forall k | k in m :: m[k] == Writable <==> k in Written(intents)
  }

  /** Some access of `intents` meets an entry of `m`, and one of the two writes. */
  predicate Collides(m: AccessMap, intents: seq<UserIntent>) {
    exists i, a | 0 <= i < |intents| && a in intents[i].accesses ::
      a.pubkey in m && (m[a.pubkey] == Writable || a.access == Writable)
  }

  function Note(m: AccessMap, a: AccountAccess): AccessMap {
    if a.pubkey in m && a.access != Writable then m else m[a.pubkey := a.access]
  }

  lemma TouchesMember(i: UserIntent, a: AccountAccess)
    requires a in i.accesses
    ensures a.pubkey in Touches(i)
    ensures a.access == Writable ==> a.pubkey in Writes(i)
  {
  }

  /** The accounts touched and written by the first accesses of an intent. */
  function Head(i: UserIntent, n: nat): UserIntent
    requires n <= |i.accesses|
  {
    i.(accesses := i.accesses[..n])
  }

  lemma NoteSummarises(m: AccessMap, intents: seq<UserIntent>, i: UserIntent, n: nat)
    requires n < |i.accesses| && Summarises(m, intents + [Head(i, n)])
    ensures Summarises(Note(m, i.accesses[n]), intents + [Head(i, n + 1)])
  {
    var a, h, h' := i.accesses[n], Head(i, n), Head(i, n + 1);
    HeadStep(i, n);
    SplitLast(intents, h);
    SplitLast(intents, h');
    WrittenAreTouched(intents + [h]);
    var touched, written := Touched(intents + [h]), Written(intents + [h]);
    assert Touched(intents + [h']) == touched + {a.pubkey};
    assert Written(intents + [h']) == written + if a.access == Writable then {a.pubkey} else {};
    NoteOne(m, touched, written, a);
  }

  lemma HeadStep(i: UserIntent, n: nat)
    requires n < |i.accesses|
    ensures var a := i.accesses[n];
      && Touches(Head(i, n + 1)) == Touches(Head(i, n)) + {a.pubkey}
      && Writes(Head(i, n + 1)) == Writes(Head(i, n)) + if a.access == Writable then {a.pubkey} else {}
  {
    assert i.accesses[..n + 1] == i.accesses[..n] + [i.accesses[n]];
  }

  lemma NoteOne(m: AccessMap, touched: set<Pubkey>, written: set<Pubkey>, a: AccountAccess)
    requires written <= touched && m.Keys == touched
    requires forall k | k in m :: m[k] == Writable <==> k in written
    ensures var m' := Note(m, a);
      && m'.Keys == touched + {a.pubkey}
      && forall k | k in m' :: m'[k] == Writable <==> k in written + if a.access == Writable then {a.pubkey} else {}
  {
  }

  lemma WrittenAreTouched(intents: seq<UserIntent>)
    ensures Written(intents) <= Touched(intents)
  {
    forall k | k in Written(intents) ensures k in Touched(intents) {
      var i :| 0 <= i < |intents| && k in Writes(intents[i]);
      assert k in Touches(intents[i]);
    }
  }

  lemma SplitLast(intents: seq<UserIntent>, i: UserIntent)
    ensures Touched(intents + [i]) == Touched(intents) + Touches(i)
    ensures Written(intents + [i]) == Written(intents) + Writes(i)
  {
    var all := intents + [i];
    assert all[|intents|] == i && forall j | 0 <= j < |intents| :: all[j] == intents[j];
  }

  lemma EmptyHead(m: AccessMap, intents: seq<UserIntent>, i: UserIntent)
    requires Summarises(m, intents)
    ensures Summarises(m, intents + [Head(i, 0)])
  {
    SplitLast(intents, Head(i, 0));
  }

  /** Notes every access of `intents`, which follow `before`. */
  method NoteAll(start: AccessMap, ghost before: seq<UserIntent>, intents: seq<UserIntent>) returns (m: AccessMap)
    requires Summarises(start, before)
    ensures Summarises(m, before + intents)
  {
    m := start;
    assert before + intents[..0] == before;
    for i := 0 to |intents|
      invariant Summarises(m, before + intents[..i])
    {
      var accesses := intents[i].accesses;
      EmptyHead(m, before + intents[..i], intents[i]);
      for j := 0 to |accesses|
        invariant Summarises(m, before + intents[..i] + [Head(intents[i], j)])
      {
        NoteSummarises(m, before + intents[..i], intents[i], j);
        m := Note(m, accesses[j]);
      }
      assert Head(intents[i], |accesses|) == intents[i];
      assert before + intents[..i] + [intents[i]] == before + intents[..i + 1];
    }
    assert intents[..|intents|] == intents;
  }

  method BuildAccessMap(intents: seq<UserIntent>) returns (m: AccessMap)
    ensures Summarises(m, intents)
  {
    m := NoteAll(map[], [], intents);
    assert [] + intents == intents;
  }

  /** Checks `intents` against the map and, if none collides, adds them to it. */
  method CanMergeIntents(m: AccessMap, ghost group: seq<UserIntent>, intents: seq<UserIntent>) returns (ok: bool, m': AccessMap)
    requires Summarises(m, group)
    ensures ok <==> !Collides(m, intents)
    ensures if ok then Summarises(m', group + intents) else m' == m
  {
    for i := 0 to |intents|
      invariant forall k, a | 0 <= k < i && a in intents[k].accesses ::
        !(a.pubkey in m && (m[a.pubkey] == Writable || a.access == Writable))
    {
      var accesses := intents[i].accesses;
      for j := 0 to |accesses|
        invariant forall a | a in accesses[..j] :: !(a.pubkey in m && (m[a.pubkey] == Writable || a.access == Writable))
      {
        var a := accesses[j];
        if a.pubkey in m && (m[a.pubkey] == Writable || a.access == Writable) {
          assert a in intents[i].accesses;
          return false, m;
        }
      }
    }
    m' := NoteAll(m, group, intents);
    ok := true;
  }

  /** Two groups of intents are apart when neither writes what the other touches. */
  predicate Apart(a: seq<UserIntent>, b: seq<UserIntent>) {
    Written(a) * Touched(b) == {} && Touched(a) * Written(b) == {}
  }

  lemma CollisionMeansNotApart(m: AccessMap, group: seq<UserIntent>, intents: seq<UserIntent>)
    requires Summarises(m, group)
    ensures Collides(m, intents) <==> !Apart(group, intents)
  {
    if Collides(m, intents) {
      var i, a :| 0 <= i < |intents| && a in intents[i].accesses && a.pubkey in m && (m[a.pubkey] == Writable || a.access == Writable);
      TouchesMember(intents[i], a);
      assert a.pubkey in Touched(intents) && a.pubkey in Touched(group);
      if a.access == Writable { assert a.pubkey in Written(intents); }
      assert a.pubkey in Written(group) * Touched(intents) || a.pubkey in Touched(group) * Written(intents);
    }
    if !Apart(group, intents) {
      WrittenAreTouched(group);
      WrittenAreTouched(intents);
      var k :| k in Written(group) * Touched(intents) || k in Touched(group) * Written(intents);
      assert k in Touched(intents) && k in Touched(group) && (k in Written(group) || k in Written(intents));
    }
  }

  // ---------------------------------------------------------------------------
  // Merging as a function
  // ---------------------------------------------------------------------------

  datatype Limits = Limits(minCuThreshold: nat, maxCu: nat, maxMessageBytes: nat)

  predicate Small(plan: ChunkPlan, lim: Limits) {
    plan.estimates.estCu < lim.minCuThreshold && plan.estimates.estMsgBytes <= ER_SMALL_MESSAGE_BYTES
  }

  /** The group may take `c`: it is small, starts with the same actor, clashes with nothing in the group, and stays within limits. */
  predicate Takes(group: ChunkPlan, c: ChunkPlan, lim: Limits)
    requires group.intents != []
  {
    && c.intents != []
    && Small(c, lim)
    && c.intents[0].actor == group.intents[0].actor
    && Apart(group.intents, c.intents)
    && group.estimates.estCu + c.estimates.estCu <= lim.maxCu
    && group.estimates.estMsgBytes + c.estimates.estMsgBytes <= lim.maxMessageBytes
  }

  function AddEstimates(a: ChunkEstimates, b: ChunkEstimates): ChunkEstimates {
    ChunkEstimates(a.estCu + b.estCu, a.estMsgBytes + b.estMsgBytes, a.altRo + b.altRo, a.altWr + b.altWr)
  }

  function Join(group: ChunkPlan, c: ChunkPlan): ChunkPlan {
    ChunkPlan(group.index, group.intents + c.intents, AddEstimates(group.estimates, c.estimates), group.mergedIndices + [c.index])
  }

  /** Extends `group` with the leading plans of `rest` that it takes, and says how many. */
  function Absorb(group: ChunkPlan, rest: seq<ChunkPlan>, lim: Limits): (r: (ChunkPlan, nat))
    requires group.intents != []
    ensures r.1 <= |rest|
    decreases |rest|
  {
    if rest == [] || !Takes(group, rest[0], lim) then (group, 0)
    else
      var (g, k) := Absorb(Join(group, rest[0]), rest[1..], lim);
      (g, k + 1)
  }

  function Cleared(plan: ChunkPlan): ChunkPlan {
    plan.(mergedIndices := [])
  }

  function Merge(plans: seq<ChunkPlan>, lim: Limits): seq<ChunkPlan>
    decreases |plans|
  {
    if plans == [] then []
    else
      var head, rest := plans[0], plans[1..];
      if head.intents == [] then [head] + Merge(rest, lim)
      else if !Small(head, lim) then [Cleared(head)] + Merge(rest, lim)
      else
        var (g, k) := Absorb(Cleared(head), rest, lim);
        [g] + Merge(rest[k..], lim)
  }

  function LimitsOf(minCuThreshold: nat, safety: SafetyMargins): Limits {
    Limits(minCuThreshold, safety.maxChunkCu, safety.MaxMessageBytesWithSigners(1))
  }

  // ---------------------------------------------------------------------------
  // Merging as it runs
  // ---------------------------------------------------------------------------

  /** Grows the group that starts with `plans[i]`; `j` is where it stops. */
  method GrowGroup(plans: seq<ChunkPlan>, i: nat, lim: Limits) returns (group: ChunkPlan, j: nat)
    requires i < |plans| && plans[i].intents != [] && Small(plans[i], lim)
    ensures i < j <= |plans|
    ensures Absorb(Cleared(plans[i]), plans[i + 1..], lim) == (group, j - i - 1)
  {
    var head := plans[i];
    var combinedIntents, combined := head.intents, head.estimates;
    var mergedIndices: seq<nat> := [];
    var actor := head.intents[0].actor;
    var accessMap := BuildAccessMap(combinedIntents);
    j := i + 1;
    ghost var cur := Cleared(head);
    while j < |plans|
      invariant i < j <= |plans|
      invariant cur == ChunkPlan(head.index, combinedIntents, combined, mergedIndices)
      invariant cur.intents != [] && cur.intents[0].actor == actor
      invariant Summarises(accessMap, combinedIntents)
      invariant Grown(plans, i, j, cur, lim)
      decreases |plans| - j
    {
      var c := plans[j];
      if c.intents == [] {
        break;
      }
      if c.estimates.estCu >= lim.minCuThreshold || c.estimates.estMsgBytes > ER_SMALL_MESSAGE_BYTES {
        break;
      }
      if c.intents[0].actor != actor {
        break;
      }
      var ok, accessMap' := CanMergeIntents(accessMap, combinedIntents, c.intents);
      CollisionMeansNotApart(accessMap, combinedIntents, c.intents);
      if !ok {
        break;
      }
      var newCu := combined.estCu + c.estimates.estCu;
      if newCu > lim.maxCu {
        break;
      }
      var newMsg := combined.estMsgBytes + c.estimates.estMsgBytes;
      if newMsg > lim.maxMessageBytes {
        break;
      }
      accessMap := accessMap';
      combinedIntents := combinedIntents + c.intents;
      combined := ChunkEstimates(newCu, newMsg, combined.altRo + c.estimates.altRo, combined.altWr + c.estimates.altWr);
      mergedIndices := mergedIndices + [c.index];
      cur := Join(cur, c);
      j := j + 1;
    }
    group := ChunkPlan(head.index, combinedIntents, combined, mergedIndices);
  }

  /** Growing from `plans[i]` has reached the group `cur`, with `plans[j]` next. */
  ghost predicate Grown(plans: seq<ChunkPlan>, i: nat, j: nat, cur: ChunkPlan, lim: Limits)
    requires i < j <= |plans| && plans[i].intents != [] && cur.intents != []
  {
    var (g, k) := Absorb(cur, plans[j..], lim);
    Absorb(Cleared(plans[i]), plans[i + 1..], lim) == (g, k + (j - i - 1))
  }

  /** One turn of the merging loop: the plan or group that `plans[i]` becomes, and where the next turn starts. */
  method MergeOne(plans: seq<ChunkPlan>, i: nat, lim: Limits) returns (out: ChunkPlan, j: nat)
    requires i < |plans|
    ensures i < j <= |plans|
    ensures Merge(plans[i..], lim) == [out] + Merge(plans[j..], lim)
  {
    var head := plans[i];
    if head.intents == [] {
      return head, i + 1;
    }
    if head.estimates.estCu < lim.minCuThreshold && head.estimates.estMsgBytes <= ER_SMALL_MESSAGE_BYTES {
      out, j := GrowGroup(plans, i, lim);
      MergeTurn(plans, i, lim, out, j - i - 1);
      if out.mergedIndices != [] {
        return out, j;
      }
    }
    return head.(mergedIndices := []), i + 1;
  }

  method MergeSmallChunkPlans(plans: seq<ChunkPlan>, minCuThreshold: nat, safety: SafetyMargins) returns (merged: seq<ChunkPlan>)
    ensures merged == Merge(plans, LimitsOf(minCuThreshold, safety))
  {
    var lim := LimitsOf(minCuThreshold, safety);
    merged := [];
    var i := 0;
    while i < |plans|
      invariant i <= |plans|
      invariant merged + Merge(plans[i..], lim) == Merge(plans, lim)
      decreases |plans| - i
    {
      var out, j := MergeOne(plans, i, lim);
      merged := merged + [out];
      i := j;
    }
  }

  /** A small plan that absorbed nothing goes out alone. */
  lemma MergeTurn(plans: seq<ChunkPlan>, i: nat, lim: Limits, g: ChunkPlan, k: nat)
    requires i < |plans| && plans[i].intents != [] && Small(plans[i], lim) && i + 1 + k <= |plans|
    requires Absorb(Cleared(plans[i]), plans[i + 1..], lim) == (g, k)
    ensures Merge(plans[i..], lim) ==
      if g.mergedIndices != [] then [g] + Merge(plans[i + 1 + k..], lim) else [Cleared(plans[i])] + Merge(plans[i + 1..], lim)
  {
    AbsorbedIndices(Cleared(plans[i]), plans[i + 1..], lim);
  }

  lemma {:induction false} AbsorbedIndices(group: ChunkPlan, rest: seq<ChunkPlan>, lim: Limits)
    requires group.intents != []
    ensures var (g, k) := Absorb(group, rest, lim); |g.mergedIndices| == |group.mergedIndices| + k && (k == 0 ==> g == group)
    decreases |rest|
  {
    if rest != [] && Takes(group, rest[0], lim) {
      AbsorbedIndices(Join(group, rest[0]), rest[1..], lim);
    }
  }
}
