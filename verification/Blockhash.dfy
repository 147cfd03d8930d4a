/** Leasing blockhashes: one manager shared by many threads. */
module Blockhash {
  import opened Types

  datatype RefreshReason = Initial | Manual | AgeExceeded | Quota | LayerBoundary | ValidationFailed

  datatype BlockhashLease = BlockhashLease(hash: int, lastValidBlockHeight: nat, fetchedAt: nat, reason: RefreshReason)

  datatype LeaseOutcome = Success | StaleDetected

  datatype LeaseError = FetchFailed | ValidityCheckFailed

  /** A `maxAge` of zero means no age limit. */
  datatype Policy = Policy(maxAge: nat, refreshEvery: nat)

  datatype BlockhashState = BlockhashState(lease: BlockhashLease, usesSinceRefresh: nat)

  /** What the state mutex guards. */
  datatype Inner = Inner(current: Option<BlockhashState>, pending: Option<RefreshReason>)

  const DEFAULT_HASH: int := 0

  // ---------------------------------------------------------------------------
  // The critical sections, as functions of the guarded state
  // ---------------------------------------------------------------------------

  function CheckPolicy(policy: Policy, state: BlockhashState, now: nat): Option<RefreshReason> {
    if policy.maxAge > 0 && now - state.lease.fetchedAt > policy.maxAge then Some(AgeExceeded)
    else if state.usesSinceRefresh >= policy.refreshEvery then Some(Quota)
    else None
  }

  /** First section: takes the pending reason, or asks the policy. */
  function Decide(policy: Policy, inner: Inner, now: nat): (Inner, Option<RefreshReason>) {
    if inner.pending.Some? then (inner.(pending := None), inner.pending)
    else if inner.current.Some? then (inner, CheckPolicy(policy, inner.current.value, now))
    else (inner, Some(Initial))
  }

  function Install(lease: BlockhashLease): Inner {
    Inner(Some(BlockhashState(lease, 0)), None)
  }

  /** The lease handed out when there is no current blockhash after all. */
  function ZeroLease(now: nat): BlockhashLease {
    BlockhashLease(DEFAULT_HASH, 0, now, Initial)
  }

  /** Second section: counts a use of the current blockhash; the flag says whether its validity is to be checked. */
  function Issue(inner: Inner, now: nat, preCheck: bool): (Inner, BlockhashLease, bool) {
    if inner.current.None? then (inner.(pending := Some(Initial)), ZeroLease(now), false)
    else
      var uses := inner.current.value.usesSinceRefresh + 1;
      var lease := inner.current.value.lease;
      (inner.(current := Some(BlockhashState(lease, uses))), lease, preCheck && uses > 1)
  }

  function Invalidate(reason: RefreshReason): Inner {
    Inner(None, Some(reason))
  }

  // ---------------------------------------------------------------------------
  // A call that runs alone
  // ---------------------------------------------------------------------------

  /** The answer to a fetch: hash and height unless it failed, and the time from the lease's timestamp to the next policy check. */
  datatype FetchAnswer = FetchAnswer(result: Option<(int, nat)>, latency: nat)

  datatype ValidityAnswer = StillValid | NoLongerValid | CheckError

  /** What the RPC node answers, by number of the request. */
  datatype World = World(fetch: nat -> FetchAnswer, validity: nat -> ValidityAnswer)

  datatype Lone = Lone(inner: Inner, now: nat, fetches: nat, checks: nat)

  datatype Turn = Again(next: Lone) | Done(result: Result<BlockhashLease, LeaseError>, last: Lone)

  const ANTI_SPIN: nat := 25

  /** One turn of the leasing loop. A taken reason stays taken even if the fetch fails. */
  function OneTurn(policy: Policy, preCheck: bool, w: World, s: Lone): Turn {
    var (inner, need) := Decide(policy, s.inner, s.now);
    if need.Some? then
      var answer := w.fetch(s.fetches);
      match answer.result
      case None => Done(Err(FetchFailed), s.(inner := inner, fetches := s.fetches + 1))
      case Some((hash, height)) =>
        Again(Lone(Install(BlockhashLease(hash, height, s.now, need.value)), s.now + answer.latency, s.fetches + 1, s.checks))
    else
      var (inner', lease, needsCheck) := Issue(inner, s.now, preCheck);
      if !needsCheck then Done(Ok(lease), s.(inner := inner'))
      else
        match w.validity(s.checks)
        case StillValid => Done(Ok(lease), s.(inner := inner', checks := s.checks + 1))
        case NoLongerValid => Again(Lone(Invalidate(ValidationFailed), s.now + ANTI_SPIN, s.fetches, s.checks + 1))
        case CheckError => Done(Err(ValidityCheckFailed), s.(inner := inner', checks := s.checks + 1))
  }

  function Turns(policy: Policy, preCheck: bool, w: World, s: Lone, n: nat): Turn {
    if n == 0 then Again(s)
    else
      match Turns(policy, preCheck, w, s, n - 1)
      case Again(next) => OneTurn(policy, preCheck, w, next)
      case Done(r, last) => Done(r, last)
  }

  /** Successful fetches return before the lease they bring is too old. */
  ghost predicate Prompt(policy: Policy, w: World) {
    policy.maxAge == 0 || forall i :: w.fetch(i).result.Some? ==> w.fetch(i).latency <= policy.maxAge
  }

  /** A lone call on a prompt node ends within three turns, with at most one fetch and one validity check. An Ok
      lease is the one just fetched, or the manager's current one, which was within policy; an error is the node's. */
  lemma LoneLeaseEnds(policy: Policy, preCheck: bool, w: World, s: Lone)
    requires policy.refreshEvery >= 1 && Prompt(policy, w)
    ensures var t := Turns(policy, preCheck, w, s, 3);
      && t.Done?
      && s.fetches <= t.last.fetches <= s.fetches + 1 && s.checks <= t.last.checks <= s.checks + 1
      && match t.result
         case Ok(lease) =>
           || (t.last.fetches == s.fetches + 1 && w.fetch(s.fetches).result == Some((lease.hash, lease.lastValidBlockHeight)))
           || (t.last.fetches == s.fetches && s.inner.current.Some? && lease == s.inner.current.value.lease
               && CheckPolicy(policy, s.inner.current.value, s.now) == None)
         case Err(FetchFailed) => t.last.fetches == s.fetches + 1 && w.fetch(s.fetches).result == None
         case Err(ValidityCheckFailed) => t.last.checks == s.checks + 1 && w.validity(s.checks) == CheckError
  {
    var t1 := Turns(policy, preCheck, w, s, 1);
    assert t1 == OneTurn(policy, preCheck, w, s) by {
      assert Turns(policy, preCheck, w, s, 0) == Again(s);
    }
    if t1.Again? {
      var n1 := t1.next;
      var t2 := Turns(policy, preCheck, w, s, 2);
      assert t2 == OneTurn(policy, preCheck, w, n1);
      if n1.fetches == s.fetches + 1 {
        FreshLeaseIsIssued(policy, preCheck, w, n1);
      } else {
        assert n1.inner == Invalidate(ValidationFailed);
        if t2.Again? {
          FreshLeaseIsIssued(policy, preCheck, w, t2.next);
        }
      }
    }
  }

  /** Right after a prompt fetch the lease is issued unchecked. */
  lemma FreshLeaseIsIssued(policy: Policy, preCheck: bool, w: World, s: Lone)
    requires policy.refreshEvery >= 1 && s.inner.pending == None && s.inner.current.Some?
    requires s.inner.current.value.usesSinceRefresh == 0
    requires policy.maxAge == 0 || s.now - s.inner.current.value.lease.fetchedAt <= policy.maxAge
    ensures var t := OneTurn(policy, preCheck, w, s);
      t.Done? && t.result == Ok(s.inner.current.value.lease) && t.last.fetches == s.fetches && t.last.checks == s.checks
  {
  }

  // ---- when a lone call ends, on every node ----

  /** The first turn asks for a refresh: a reason is pending, nothing is current, or the policy demands one. */
  predicate WillRefresh(policy: Policy, s: Lone) {
    s.inner.pending.Some? || s.inner.current.None? || CheckPolicy(policy, s.inner.current.value, s.now).Some?
  }

  /** The first turn returns: its fetch fails, or it needs none and is not told that its blockhash is invalid. */
  predicate FirstTurnEnds(policy: Policy, preCheck: bool, w: World, s: Lone) {
    if WillRefresh(policy, s) then w.fetch(s.fetches).result.None?
    else !(preCheck && s.inner.current.value.usesSinceRefresh >= 1) || w.validity(s.checks) != NoLongerValid
  }

  /** This fetch ends the call it belongs to: it fails, or its lease is still young when the policy is asked again. */
  predicate EndsCall(policy: Policy, w: World, i: nat) {
    w.fetch(i).result.None? || policy.maxAge == 0 || w.fetch(i).latency <= policy.maxAge
  }

  /** Some number of turns ends the call. */
  ghost predicate Ends(policy: Policy, preCheck: bool, w: World, s: Lone) {
    exists n :: Turns(policy, preCheck, w, s, n).Done?
  }

  lemma {:induction false} TurnsShift(policy: Policy, preCheck: bool, w: World, s: Lone, next: Lone, n: nat)
    requires OneTurn(policy, preCheck, w, s) == Again(next)
    ensures Turns(policy, preCheck, w, s, n + 1) == Turns(policy, preCheck, w, next, n)
  {
    if n == 0 {
      assert Turns(policy, preCheck, w, s, 0) == Again(s);
    } else {
      TurnsShift(policy, preCheck, w, s, next, n - 1);
    }
  }

  /** A call ends if its first turn does, or if what is left after it does. */
  lemma EndsAfterTurn(policy: Policy, preCheck: bool, w: World, s: Lone)
    ensures var t := OneTurn(policy, preCheck, w, s);
      t.Done? || Ends(policy, preCheck, w, t.next) ==> Ends(policy, preCheck, w, s)
  {
    var t := OneTurn(policy, preCheck, w, s);
    if t.Done? {
      assert Turns(policy, preCheck, w, s, 0) == Again(s);
      assert Turns(policy, preCheck, w, s, 1).Done?;
    } else if Ends(policy, preCheck, w, t.next) {
      var n :| Turns(policy, preCheck, w, t.next, n).Done?;
      TurnsShift(policy, preCheck, w, s, t.next, n);
    }
  }

  /** A call that refreshes goes on to a fetch that ends it, if there is one. */
  lemma {:induction false} ReachesEndingFetch(policy: Policy, preCheck: bool, w: World, s: Lone, i: nat)
    requires policy.refreshEvery >= 1 && WillRefresh(policy, s) && s.fetches <= i && EndsCall(policy, w, i)
    ensures Ends(policy, preCheck, w, s)
    decreases i - s.fetches
  {
    var t := OneTurn(policy, preCheck, w, s);
    EndsAfterTurn(policy, preCheck, w, s);
    if t.Again? {
      EndsAfterTurn(policy, preCheck, w, t.next);
      if EndsCall(policy, w, s.fetches) {
        FreshLeaseIsIssued(policy, preCheck, w, t.next);
      } else {
        ReachesEndingFetch(policy, preCheck, w, t.next, i);
      }
    }
  }

  /** Without such a fetch every turn leads to another refresh. */
  lemma {:induction false} NeverEnds(policy: Policy, preCheck: bool, w: World, s: Lone, n: nat)
    requires policy.refreshEvery >= 1 && !FirstTurnEnds(policy, preCheck, w, s)
    requires forall i: nat | i >= s.fetches :: !EndsCall(policy, w, i)
    ensures var t := Turns(policy, preCheck, w, s, n);
      t.Again? && t.next.fetches >= s.fetches && (n > 0 ==> WillRefresh(policy, t.next))
  {
    if n > 0 {
      NeverEnds(policy, preCheck, w, s, n - 1);
      var before := Turns(policy, preCheck, w, s, n - 1).next;
      assert n == 1 ==> before == s;
      assert !EndsCall(policy, w, before.fetches);
    }
  }

  /** On every node, a lone call ends exactly when its first turn returns, or some later fetch fails or is no slower
      than the age limit, or there is no age limit. */
  lemma LoneLeaseEndsExactly(policy: Policy, preCheck: bool, w: World, s: Lone)
    requires policy.refreshEvery >= 1
    ensures Ends(policy, preCheck, w, s)
       <==> (policy.maxAge == 0 || FirstTurnEnds(policy, preCheck, w, s)
             || exists i: nat :: i >= s.fetches && (w.fetch(i).result.None? || w.fetch(i).latency <= policy.maxAge))
  {
    EndsAfterTurn(policy, preCheck, w, s);
    assert FirstTurnEnds(policy, preCheck, w, s) <==> OneTurn(policy, preCheck, w, s).Done?;
    if FirstTurnEnds(policy, preCheck, w, s) {
      assert Turns(policy, preCheck, w, s, 0) == Again(s);
      assert Turns(policy, preCheck, w, s, 1).Done?;
    } else if i: nat :| i >= s.fetches && EndsCall(policy, w, i) {
      ReachesEndingFetch(policy, preCheck, w, if WillRefresh(policy, s) then s else OneTurn(policy, preCheck, w, s).next, i);
      assert policy.maxAge == 0 || w.fetch(i).result.None? || w.fetch(i).latency <= policy.maxAge;
    } else {
      assert !EndsCall(policy, w, s.fetches);
      forall n ensures Turns(policy, preCheck, w, s, n).Again? {
        NeverEnds(policy, preCheck, w, s, n);
      }
      forall i: nat | i >= s.fetches ensures w.fetch(i).result.Some? && w.fetch(i).latency > policy.maxAge {
        assert !EndsCall(policy, w, i);
      }
    }
  }

  // ---------------------------------------------------------------------------
  // The manager as it runs
  // ---------------------------------------------------------------------------

  class BlockhashManager {
    const policy: Policy
    const preCheck: bool
    var current: Option<BlockhashState>
    var pendingRefresh: Option<RefreshReason>
    var refreshInFlight: bool

    function State(): Inner
      reads this
    {
      Inner(current, pendingRefresh)
    }

    constructor (policy: Policy, preCheck: bool)
      ensures this.policy == policy.(refreshEvery := if policy.refreshEvery == 0 then 1 else policy.refreshEvery)
      ensures this.preCheck == preCheck
      ensures State() == Inner(None, Some(Initial)) && !refreshInFlight
    {
      this.policy := if policy.refreshEvery == 0 then policy.(refreshEvery := 1) else policy;
      this.preCheck := preCheck;
      current, pendingRefresh, refreshInFlight := None, Some(Initial), false;
    }

    method DecideRefresh(now: nat) returns (need: Option<RefreshReason>)
      modifies `pendingRefresh
      ensures (State(), need) == Decide(policy, old(State()), now)
    {
      if pendingRefresh.Some? {
        need := pendingRefresh;
        pendingRefresh := None;
      } else if current.Some? {
        need := CheckPolicy(policy, current.value, now);
      } else {
        need := Some(Initial);
      }
    }

    method IssueLease(now: nat) returns (lease: BlockhashLease, needsCheck: bool)
      modifies `current, `pendingRefresh
      ensures (State(), lease, needsCheck) == Issue(old(State()), now, preCheck)
    {
      if current.None? {
        pendingRefresh := Some(Initial);
        return ZeroLease(now), false;
      }
      current := Some(current.value.(usesSinceRefresh := current.value.usesSinceRefresh + 1));
      lease := current.value.lease;
      needsCheck := preCheck && current.value.usesSinceRefresh > 1;
    }

    method RecordOutcome(outcome: LeaseOutcome)
      modifies `current, `pendingRefresh
      ensures State() == if outcome == StaleDetected then Invalidate(Manual) else old(State())
    {
      if outcome == StaleDetected {
        current, pendingRefresh := None, Some(Manual);
      }
    }

    method MarkLayerBoundary()
      modifies `pendingRefresh
      ensures State() == old(State()).(pending := Some(LayerBoundary))
    {
      pendingRefresh := Some(LayerBoundary);
    }

    /** A refresh under the flag: fetches with the time taken before the request, then installs. */
    method Refresh(w: World, reason: RefreshReason, now: nat, fetches: nat) returns (r: Result<nat, LeaseError>)
      requires !refreshInFlight
      modifies this
      ensures !refreshInFlight
      ensures var answer := w.fetch(fetches);
        match answer.result
        case None => r == Err(FetchFailed) && State() == old(State())
        case Some((hash, height)) =>
          r == Ok(now + answer.latency) && State() == Install(BlockhashLease(hash, height, now, reason))
    {
      refreshInFlight := true;
      var answer := w.fetch(fetches);
      match answer.result {
        case None =>
          refreshInFlight := false;
          return Err(FetchFailed);
        case Some((hash, height)) =>
          current := Some(BlockhashState(BlockhashLease(hash, height, now, reason), 0));
          pendingRefresh := None;
          refreshInFlight := false;
          return Ok(now + answer.latency);
      }
    }

    /** A call with no other thread about, on a node where it ends, within `bound` turns. */
    method Lease(w: World, start: nat, ghost bound: nat) returns (r: Result<BlockhashLease, LeaseError>, ghost end: Lone)
      requires !refreshInFlight && Turns(policy, preCheck, w, Lone(State(), start, 0, 0), bound).Done?
      modifies this
      ensures !refreshInFlight
      ensures Turns(policy, preCheck, w, Lone(old(State()), start, 0, 0), bound) == Done(r, end) && end.inner == State()
    {
      ghost var s := Lone(State(), start, 0, 0);
      var now: nat, fetches: nat, checks: nat := start, 0, 0;
      ghost var n := 0;
      while true
        invariant n <= bound && !refreshInFlight
        invariant Turns(policy, preCheck, w, s, n) == Again(Lone(State(), now, fetches, checks))
        decreases bound - n
      {
        ghost var before := Lone(State(), now, fetches, checks);
        n := n + 1;
        var need := DecideRefresh(now);
        if need.Some? {
          var refreshed := Refresh(w, need.value, now, fetches);
          fetches := fetches + 1;
          if refreshed.Err? {
            TurnsStay(policy, preCheck, w, s, n, bound);
            return Err(refreshed.error), Lone(State(), now, fetches, checks);
          }
          now := refreshed.value;
          continue;
        }
        var lease, needsCheck := IssueLease(now);
        if !needsCheck {
          TurnsStay(policy, preCheck, w, s, n, bound);
          return Ok(lease), Lone(State(), now, fetches, checks);
        }
        var valid := w.validity(checks);
        checks := checks + 1;
        if valid == StillValid {
          TurnsStay(policy, preCheck, w, s, n, bound);
          return Ok(lease), Lone(State(), now, fetches, checks);
        } else if valid == CheckError {
          TurnsStay(policy, preCheck, w, s, n, bound);
          return Err(ValidityCheckFailed), Lone(State(), now, fetches, checks);
        }
        now := now + ANTI_SPIN;
        current, pendingRefresh := None, Some(ValidationFailed);
      }
    }
  }

  /** Once the call is done, further turns change nothing. */
  lemma {:induction false} TurnsStay(policy: Policy, preCheck: bool, w: World, s: Lone, n: nat, bound: nat)
    requires n <= bound && Turns(policy, preCheck, w, s, n).Done?
    ensures Turns(policy, preCheck, w, s, bound) == Turns(policy, preCheck, w, s, n)
    decreases bound - n
  {
    if n < bound { TurnsStay(policy, preCheck, w, s, n + 1, bound); }
  }
}
