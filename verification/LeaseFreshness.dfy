/** What a layer boundary or an invalidation guarantees about the leases decided after it. */
module LeaseFreshness {
  import opened Types
  import opened Blockhash
  import opened LeaseProtocol

  // ---------------------------------------------------------------------------
  // Old and new fetches
  // ---------------------------------------------------------------------------

  /** The policy would hand out the current blockhash. */
  predicate Usable(c: Config, s: Sys) {
    s.inner.current.Some? && CheckPolicy(c.policy, s.inner.current.value, s.now).None?
  }

  predicate InFlight(pc: Pc) {
    pc.Fetching? || pc.Installing?
  }

  function Since(pc: Pc): nat
    requires InFlight(pc)
  {
    if pc.Fetching? then pc.since else pc.lease.fetchedAt
  }

  /** The policy would hand out a blockhash whose fetch began at `since`, were it stored now. */
  predicate UsableSince(c: Config, since: nat, now: nat) {
    c.policy.refreshEvery >= 1 && (c.policy.maxAge == 0 || now - since <= c.policy.maxAge)
  }

  predicate UsableInFlight(c: Config, s: Sys, t: nat) {
    t < |s.pcs| && InFlight(s.pcs[t]) && UsableSince(c, Since(s.pcs[t]), s.now)
  }

  /** Something fetched, or being fetched, at this moment could still be handed out. */
  ghost predicate OldUsable(c: Config, s: Sys) {
    Usable(c, s) || exists t :: UsableInFlight(c, s, t)
  }

  /** The blockhash stored last in the run comes of a fetch that the run began. */
  predicate BegunIn(run: seq<Action>) {
    if run == [] then false
    else
      match run[|run| - 1]
      case Store(t) => TryFlag(t) in run[..|run| - 1]
      case _ => BegunIn(run[..|run| - 1])
  }

  /** A thread that made its decision in the run is about to take a lease from a fetch that began before the run. */
  ghost predicate TakesOldLease(c: Config, s: Sys, run: seq<Action>, t: nat) {
    && Possible(c, s, run) && DecideStep(t) in run
    && var s' := After(c, s, run);
       t < |s'.pcs| && s'.pcs[t].Issuing? && s'.inner.current.Some? && !BegunIn(run)
  }

  // ---------------------------------------------------------------------------
  // What a run keeps when nothing old can be handed out
  // ---------------------------------------------------------------------------

  predicate OldInFlight(run: seq<Action>, s: Sys, t: nat) {
    t < |s.pcs| && InFlight(s.pcs[t]) && TryFlag(t) !in run
  }

  ghost predicate NothingOld(c: Config, run: seq<Action>, s: Sys) {
    && (forall t: nat | OldInFlight(run, s, t) :: !UsableSince(c, Since(s.pcs[t]), s.now))
    && (Usable(c, s) ==> BegunIn(run))
    && (BegunIn(run) ==> forall t: nat :: !OldInFlight(run, s, t))
    && (forall t | 0 <= t < |s.pcs| && s.pcs[t].Issuing? && DecideStep(t) in run ::
          (s.inner.current.Some? ==> BegunIn(run)) && forall u: nat :: !OldInFlight(run, s, u))
  }

  lemma OneHolder(s: Sys, t: nat, u: nat)
    requires FlagInv(s) && t < |s.pcs| && u < |s.pcs| && HoldsFlag(s.pcs[t]) && HoldsFlag(s.pcs[u])
    ensures t == u
  {
    if t < u {
      CountAtLeastTwo(HoldsFlag, s.pcs, t, u);
    } else if u < t {
      CountAtLeastTwo(HoldsFlag, s.pcs, u, t);
    }
  }

  lemma RunSnoc(run: seq<Action>, a: Action)
    ensures (run + [a])[..|run|] == run
    ensures forall x :: x in run + [a] <==> x in run || x == a
    ensures BegunIn(run + [a]) <==> if a.Store? then TryFlag(a.t) in run else BegunIn(run)
  {
    assert (run + [a])[..|run|] == run;
  }

  lemma StoreKeepsNew(c: Config, s: Sys, run: seq<Action>, t: nat)
    requires Enabled(s, Store(t)) && FlagInv(s) && NothingOld(c, run, s)
    ensures NothingOld(c, run + [Store(t)], Apply(c, s, Store(t)))
  {
    var s', run' := Apply(c, s, Store(t)), run + [Store(t)];
    RunSnoc(run, Store(t));
    forall u: nat ensures !OldInFlight(run', s', u) {
      if u < |s.pcs| && u != t && InFlight(s.pcs[u]) {
        OneHolder(s, t, u);
      }
    }
    if TryFlag(t) !in run {
      assert OldInFlight(run, s, t);
    }
  }

  lemma TryFlagKeepsNew(c: Config, s: Sys, run: seq<Action>, t: nat)
    requires Enabled(s, TryFlag(t)) && FlagInv(s) && NothingOld(c, run, s)
    ensures NothingOld(c, run + [TryFlag(t)], Apply(c, s, TryFlag(t)))
  {
    var s', run' := Apply(c, s, TryFlag(t)), run + [TryFlag(t)];
    RunSnoc(run, TryFlag(t));
    forall u: nat | OldInFlight(run', s', u) ensures OldInFlight(run, s, u) && s'.pcs[u] == s.pcs[u] {}
  }

  lemma DecideKeepsNew(c: Config, s: Sys, run: seq<Action>, t: nat)
    requires Enabled(s, DecideStep(t)) && NothingOld(c, run, s)
    ensures NothingOld(c, run + [DecideStep(t)], Apply(c, s, DecideStep(t)))
  {
    var s', run' := Apply(c, s, DecideStep(t)), run + [DecideStep(t)];
    RunSnoc(run, DecideStep(t));
    forall u: nat ensures OldInFlight(run', s', u) <==> OldInFlight(run, s, u) {}
  }

  lemma OutsideKeepsNew(c: Config, s: Sys, run: seq<Action>, a: Action)
    requires (a.Stale? || a.Boundary? || a.Tick?) && NothingOld(c, run, s)
    ensures NothingOld(c, run + [a], Apply(c, s, a))
  {
    RunSnoc(run, a);
    forall u: nat ensures OldInFlight(run + [a], Apply(c, s, a), u) <==> OldInFlight(run, s, u) {}
  }

  lemma StepKeepsNew(c: Config, s: Sys, run: seq<Action>, a: Action)
    requires Enabled(s, a) && FlagInv(s) && NothingOld(c, run, s)
    ensures NothingOld(c, run + [a], Apply(c, s, a))
  {
    if a.Store? {
      StoreKeepsNew(c, s, run, a.t);
    } else if a.TryFlag? {
      TryFlagKeepsNew(c, s, run, a.t);
    } else if a.DecideStep? {
      DecideKeepsNew(c, s, run, a.t);
    } else if a.Stale? || a.Boundary? || a.Tick? {
      OutsideKeepsNew(c, s, run, a);
    } else {
      var s', run' := Apply(c, s, a), run + [a];
      RunSnoc(run, a);
      forall u: nat | OldInFlight(run', s', u) ensures OldInFlight(run, s, u) && Since(s'.pcs[u]) == Since(s.pcs[u]) {}
    }
  }

  lemma {:induction false} RunKeepsNew(c: Config, s: Sys, run: seq<Action>)
    requires Possible(c, s, run) && FlagInv(s) && !OldUsable(c, s)
    ensures NothingOld(c, run, After(c, s, run)) && FlagInv(After(c, s, run))
    decreases |run|
  {
    if run == [] {
      forall t: nat | OldInFlight(run, s, t) ensures !UsableSince(c, Since(s.pcs[t]), s.now) {
        assert !UsableInFlight(c, s, t);
      }
    } else {
      var front, a := run[..|run| - 1], run[|run| - 1];
      SplitRun(c, s, run);
      RunKeepsNew(c, s, front);
      StepKeepsNew(c, After(c, s, front), front, a);
      FlagKept(c, After(c, s, front), a);
      assert run == front + [a];
    }
  }

  // ---------------------------------------------------------------------------
  // Runs that hand out something old
  // ---------------------------------------------------------------------------

  /** An idle thread asks, if need be in vain, and then decides on the blockhash that is current. */
  lemma UseCurrent(c: Config, s: Sys, t: nat) returns (run: seq<Action>)
    requires t < |s.pcs| && s.pcs[t].Idle? && Usable(c, s)
    ensures TakesOldLease(c, s, run, t)
  {
    run := [Call(t)];
    OneMore(c, s, [], Call(t));
    OneMore(c, s, run, DecideStep(t));
    run := run + [DecideStep(t)];
    if After(c, s, run).pcs[t].NeedsRefresh? {
      var more := AskInVain(c, After(c, s, run), t);
      Concatenate(c, s, run, more);
      run := run + more;
      OneMore(c, s, run, DecideStep(t));
      run := run + [DecideStep(t)];
    }
    NoStores(run);
  }

  /** The reason is gone: the flag is taken, or the fetch fails. */
  lemma AskInVain(c: Config, s: Sys, t: nat) returns (run: seq<Action>)
    requires t < |s.pcs| && s.pcs[t].NeedsRefresh?
    ensures Possible(c, s, run) && (forall a | a in run :: !a.Store?)
    ensures var s' := After(c, s, run); s'.inner == s.inner && s'.now == s.now && |s'.pcs| == |s.pcs| && s'.pcs[t].Deciding?
  {
    OneMore(c, s, [], TryFlag(t));
    run := [TryFlag(t)];
    if !s.inFlight {
      OneMore(c, s, run, FetchErr(t));
      run := run + [FetchErr(t)];
      OneMore(c, s, run, FailRelease(t));
      run := run + [FailRelease(t)];
      OneMore(c, s, run, Call(t));
      run := run + [Call(t)];
    }
  }

  lemma {:induction false} NoStores(run: seq<Action>)
    requires forall a | a in run :: !a.Store?
    ensures !BegunIn(run)
  {
    if run != [] {
      NoStores(run[..|run| - 1]);
    }
  }

  /** The thread whose fetch is under way stores what it fetched and decides on it. */
  lemma UseInFlight(c: Config, s: Sys, t: nat) returns (run: seq<Action>)
    requires UsableInFlight(c, s, t)
    ensures TakesOldLease(c, s, run, t) && After(c, s, run).inner.pending == None
  {
    run := [];
    if s.pcs[t].Fetching? {
      OneMore(c, s, [], FetchOk(t, 7, 1));
      run := [FetchOk(t, 7, 1)];
    }
    OneMore(c, s, run, Store(t));
    RunSnoc(run, Store(t));
    run := run + [Store(t)];
    OneMore(c, s, run, Release(t));
    RunSnoc(run, Release(t));
    run := run + [Release(t)];
    OneMore(c, s, run, DecideStep(t));
    RunSnoc(run, DecideStep(t));
    run := run + [DecideStep(t)];
  }

  // ---------------------------------------------------------------------------
  // What a mark guarantees
  // ---------------------------------------------------------------------------

  /** From any state with a caller yet to come: every lease decided from then on comes of a fetch begun from then on
      exactly when the policy would hand out neither the current blockhash nor one whose fetch is under way.
      A pending reason plays no part. */
  lemma NewLeasesExactly(c: Config, s: Sys, idle: nat)
    requires FlagInv(s) && idle < |s.pcs| && s.pcs[idle].Idle?
    ensures (forall run, t :: !TakesOldLease(c, s, run, t)) <==> !OldUsable(c, s)
  {
    if !OldUsable(c, s) {
      forall run, t ensures !TakesOldLease(c, s, run, t) {
        if Possible(c, s, run) {
          RunKeepsNew(c, s, run);
        }
      }
    } else if Usable(c, s) {
      var run := UseCurrent(c, s, idle);
    } else {
      var t :| UsableInFlight(c, s, t);
      var run := UseInFlight(c, s, t);
    }
  }

  /** After an invalidation only a fetch that was under way can bring an old lease. */
  lemma InvalidationHoldsExactly(c: Config, s: Sys, idle: nat)
    requires FlagInv(s) && idle < |s.pcs| && s.pcs[idle].Idle?
    ensures (forall run, t :: !TakesOldLease(c, Apply(c, s, Stale), run, t)) <==> forall t :: !UsableInFlight(c, s, t)
  {
    var s' := Apply(c, s, Stale);
    NewLeasesExactly(c, s', idle);
    assert forall t :: UsableInFlight(c, s', t) <==> UsableInFlight(c, s, t);
  }

  /** A layer boundary guarantees nothing that did not hold without it. */
  lemma BoundaryHoldsExactly(c: Config, s: Sys, idle: nat)
    requires FlagInv(s) && idle < |s.pcs| && s.pcs[idle].Idle?
    ensures (forall run, t :: !TakesOldLease(c, Apply(c, s, Boundary), run, t)) <==> !OldUsable(c, s)
  {
    var s' := Apply(c, s, Boundary);
    NewLeasesExactly(c, s', idle);
    assert forall t :: UsableInFlight(c, s', t) <==> UsableInFlight(c, s, t);
  }

  /** A boundary that falls while a lone thread's fetch is under way is forgotten: the blockhash whose fetch began before it
      is handed out, and nothing is pending. */
  lemma BoundaryIsForgotten(policy: Policy, preCheck: bool) returns (before: seq<Action>, after: seq<Action>)
    requires policy.refreshEvery >= 1
    ensures var c := Config(policy, preCheck);
      && Possible(c, Init(1), before) && Enabled(After(c, Init(1), before), FetchErr(0))
      && var s := Apply(c, After(c, Init(1), before), Boundary);
         s.inner.pending == Some(LayerBoundary) && TakesOldLease(c, s, after, 0) && After(c, s, after).inner.pending == None
  {
    var c := Config(policy, preCheck);
    before := [];
    OneMore(c, Init(1), before, Call(0));
    before := before + [Call(0)];
    OneMore(c, Init(1), before, DecideStep(0));
    before := before + [DecideStep(0)];
    OneMore(c, Init(1), before, TryFlag(0));
    before := before + [TryFlag(0)];
    var s := Apply(c, After(c, Init(1), before), Boundary);
    after := UseInFlight(c, s, 0);
  }
}
