/** Many threads leasing at once: every atomic step of every thread, in any order. */
module LeaseProtocol {
  import opened Types
  import opened Blockhash

  /** Where a thread is in its call. */
  datatype Pc =
    | Idle
    | Deciding                           // before the first critical section
    | NeedsRefresh(reason: RefreshReason) // before taking the refresh flag
    | Fetching(reason: RefreshReason, since: nat) // holds the flag, request under way
    | Installing(lease: BlockhashLease)  // holds the flag, before storing the lease
    | Releasing                          // holds the flag, lease stored
    | Failing                            // holds the flag, fetch failed
    | Issuing                            // before the second critical section
    | Checking(leased: BlockhashLease)   // lease taken, validity request under way
    | Dropping                           // told the lease is no longer valid

  /** `handedOut[k]` is how many times the k-th installed blockhash was handed out. */
  datatype Sys = Sys(inner: Inner, inFlight: bool, pcs: seq<Pc>, now: nat, handedOut: seq<nat>)

  datatype Config = Config(policy: Policy, preCheck: bool)

  datatype Action =
    | Call(t: nat) | DecideStep(t: nat) | TryFlag(t: nat)
    | FetchOk(t: nat, hash: int, height: nat) | FetchErr(t: nat) | FailRelease(t: nat)
    | Store(t: nat) | Release(t: nat) | IssueStep(t: nat)
    | CheckDone(t: nat) | CheckInvalid(t: nat) | Drop(t: nat)
    | Stale | Boundary | Tick

  function Init(threads: nat): Sys {
    Sys(Inner(None, Some(Initial)), false, seq(threads, _ => Idle), 0, [])
  }

  predicate HoldsFlag(pc: Pc) {
    pc.Fetching? || pc.Installing? || pc.Releasing? || pc.Failing?
  }

  predicate Enabled(s: Sys, a: Action) {
    if a.Stale? || a.Boundary? || a.Tick? then true
    else
      && a.t < |s.pcs|
      && match a
         case Call(t) => s.pcs[t].Idle?
         case DecideStep(t) => s.pcs[t].Deciding?
         case TryFlag(t) => s.pcs[t].NeedsRefresh?
         case FetchOk(t, _, _) => s.pcs[t].Fetching?
         case FetchErr(t) => s.pcs[t].Fetching?
         case FailRelease(t) => s.pcs[t].Failing?
         case Store(t) => s.pcs[t].Installing?
         case Release(t) => s.pcs[t].Releasing?
         case IssueStep(t) => s.pcs[t].Issuing?
         case CheckDone(t) => s.pcs[t].Checking?
         case CheckInvalid(t) => s.pcs[t].Checking?
         case Drop(t) => s.pcs[t].Dropping?
  }

  function Goto(s: Sys, t: nat, pc: Pc): Sys
    requires t < |s.pcs|
  {
    s.(pcs := s.pcs[t := pc])
  }

  function Apply(c: Config, s: Sys, a: Action): Sys
    requires Enabled(s, a)
  {
    match a
    case Call(t) => Goto(s, t, Deciding)
    case DecideStep(t) =>
      var (inner, need) := Decide(c.policy, s.inner, s.now);
      Goto(s.(inner := inner), t, if need.Some? then NeedsRefresh(need.value) else Issuing)
    case TryFlag(t) =>
      if s.inFlight then Goto(s, t, Deciding)
      else Goto(s.(inFlight := true), t, Fetching(s.pcs[t].reason, s.now))
    case FetchOk(t, hash, height) =>
      Goto(s, t, Installing(BlockhashLease(hash, height, s.pcs[t].since, s.pcs[t].reason)))
    case FetchErr(t) => Goto(s, t, Failing)
    case FailRelease(t) => Goto(s.(inFlight := false), t, Idle)
    case Store(t) => Goto(s.(inner := Install(s.pcs[t].lease), handedOut := s.handedOut + [0]), t, Releasing)
    case Release(t) => Goto(s.(inFlight := false), t, Deciding)
    case IssueStep(t) =>
      var (inner, lease, needsCheck) := Issue(s.inner, s.now, c.preCheck);
      Goto(s.(inner := inner, handedOut := Count1(s.inner, s.handedOut)), t, if needsCheck then Checking(lease) else Idle)
    case CheckDone(t) => Goto(s, t, Idle)
    case CheckInvalid(t) => Goto(s, t, Dropping)
    case Drop(t) => Goto(s.(inner := Invalidate(ValidationFailed)), t, Deciding)
    case Stale => s.(inner := Invalidate(Manual))
    case Boundary => s.(inner := s.inner.(pending := Some(LayerBoundary)))
    case Tick => s.(now := s.now + 1)
  }

  /** The current blockhash is the one installed last; handing it out counts there. */
  function Count1(inner: Inner, handedOut: seq<nat>): seq<nat> {
    if inner.current.Some? && handedOut != [] then handedOut[|handedOut| - 1 := handedOut[|handedOut| - 1] + 1] else handedOut
  }

  // ---------------------------------------------------------------------------
  // Runs
  // ---------------------------------------------------------------------------

  predicate Possible(c: Config, s: Sys, run: seq<Action>)
    decreases |run|
  {
    run == [] || (Enabled(s, run[0]) && Possible(c, Apply(c, s, run[0]), run[1..]))
  }

  function After(c: Config, s: Sys, run: seq<Action>): Sys
    requires Possible(c, s, run)
    decreases |run|
  {
    if run == [] then s else After(c, Apply(c, s, run[0]), run[1..])
  }

  // ---------------------------------------------------------------------------
  // Counting threads
  // ---------------------------------------------------------------------------

  function CountIf(p: Pc -> bool, pcs: seq<Pc>): (n: nat)
    ensures n <= |pcs|
  {
    if pcs == [] then 0 else (if p(pcs[0]) then 1 else 0) + CountIf(p, pcs[1..])
  }

  lemma {:induction false} CountMoved(p: Pc -> bool, pcs: seq<Pc>, t: nat, pc: Pc)
    requires t < |pcs|
    ensures CountIf(p, pcs[t := pc]) == CountIf(p, pcs) - (if p(pcs[t]) then 1 else 0) + (if p(pc) then 1 else 0)
  {
    if t == 0 {
      assert pcs[0 := pc][1..] == pcs[1..];
    } else {
      CountMoved(p, pcs[1..], t - 1, pc);
      assert pcs[t := pc][1..] == pcs[1..][t - 1 := pc];
    }
  }

  lemma {:induction false} CountAtLeastOne(p: Pc -> bool, pcs: seq<Pc>, t: nat)
    requires t < |pcs| && p(pcs[t])
    ensures CountIf(p, pcs) >= 1
  {
    if t > 0 { CountAtLeastOne(p, pcs[1..], t - 1); }
  }

  lemma {:induction false} CountAtLeastTwo(p: Pc -> bool, pcs: seq<Pc>, t: nat, u: nat)
    requires t < u < |pcs| && p(pcs[t]) && p(pcs[u])
    ensures CountIf(p, pcs) >= 2
  {
    if t == 0 {
      CountAtLeastOne(p, pcs[1..], u - 1);
    } else {
      CountAtLeastTwo(p, pcs[1..], t - 1, u - 1);
    }
  }

  lemma {:induction false} NoneAtStart(p: Pc -> bool, threads: nat)
    requires !p(Idle)
    ensures CountIf(p, seq(threads, _ => Idle)) == 0
  {
    if threads > 0 {
      NoneAtStart(p, threads - 1);
      assert seq(threads, _ => Idle)[1..] == seq(threads - 1, _ => Idle);
    }
  }

  predicate IsIssuing(pc: Pc) {
    pc.Issuing?
  }

  // ---------------------------------------------------------------------------
  // What every step keeps
  // ---------------------------------------------------------------------------

  /** The most often one installed blockhash can be handed out. */
  function MostUses(c: Config, threads: nat): int {
    c.policy.refreshEvery + threads - 1
  }

  /** The flag is up exactly while one thread refreshes. */
  ghost predicate FlagInv(s: Sys) {
    CountIf(HoldsFlag, s.pcs) == if s.inFlight then 1 else 0
  }

  /** Uses so far and threads about to use stay within the bound together. */
  ghost predicate UsesInv(c: Config, s: Sys) {
    && (forall k | 0 <= k < |s.handedOut| :: s.handedOut[k] <= MostUses(c, |s.pcs|))
    && (s.inner.current.Some? ==>
          && s.handedOut != []
          && s.handedOut[|s.handedOut| - 1] == s.inner.current.value.usesSinceRefresh
          && s.inner.current.value.usesSinceRefresh + CountIf(IsIssuing, s.pcs) <= MostUses(c, |s.pcs|))
  }

  lemma FlagKept(c: Config, s: Sys, a: Action)
    requires Enabled(s, a) && FlagInv(s)
    ensures FlagInv(Apply(c, s, a))
  {
    if !(a.Stale? || a.Boundary? || a.Tick?) {
      Moved(c, s, a, HoldsFlag);
      if HoldsFlag(s.pcs[a.t]) { CountAtLeastOne(HoldsFlag, s.pcs, a.t); }
    }
  }

  lemma Moved(c: Config, s: Sys, a: Action, p: Pc -> bool)
    requires Enabled(s, a) && !(a.Stale? || a.Boundary? || a.Tick?)
    ensures var pcs := Apply(c, s, a).pcs;
      |pcs| == |s.pcs| && CountIf(p, pcs) == CountIf(p, s.pcs) - (if p(s.pcs[a.t]) then 1 else 0) + (if p(pcs[a.t]) then 1 else 0)
  {
    CountMoved(p, s.pcs, a.t, Apply(c, s, a).pcs[a.t]);
  }

  lemma IssueKeepsUses(c: Config, s: Sys, t: nat)
    requires c.policy.refreshEvery >= 1 && Enabled(s, IssueStep(t)) && UsesInv(c, s)
    ensures UsesInv(c, Apply(c, s, IssueStep(t)))
  {
    Moved(c, s, IssueStep(t), IsIssuing);
    CountAtLeastOne(IsIssuing, s.pcs, t);
  }

  lemma StoreKeepsUses(c: Config, s: Sys, t: nat)
    requires c.policy.refreshEvery >= 1 && Enabled(s, Store(t)) && UsesInv(c, s)
    ensures UsesInv(c, Apply(c, s, Store(t)))
  {
    Moved(c, s, Store(t), IsIssuing);
  }

  lemma UsesKept(c: Config, s: Sys, a: Action)
    requires c.policy.refreshEvery >= 1 && Enabled(s, a) && UsesInv(c, s)
    ensures UsesInv(c, Apply(c, s, a))
  {
    if a.IssueStep? {
      IssueKeepsUses(c, s, a.t);
    } else if a.Store? {
      StoreKeepsUses(c, s, a.t);
    } else if !(a.Stale? || a.Boundary? || a.Tick?) {
      Moved(c, s, a, IsIssuing);
    }
  }

  lemma {:induction false} InvariantsHold(c: Config, s: Sys, run: seq<Action>)
    requires c.policy.refreshEvery >= 1 && Possible(c, s, run) && FlagInv(s) && UsesInv(c, s)
    ensures var s' := After(c, s, run); FlagInv(s') && UsesInv(c, s') && |s'.pcs| == |s.pcs|
    decreases |run|
  {
    if run != [] {
      FlagKept(c, s, run[0]);
      UsesKept(c, s, run[0]);
      InvariantsHold(c, Apply(c, s, run[0]), run[1..]);
    }
  }

  /** In every interleaving of any number of threads, at most one is between taking and releasing the refresh flag. */
  lemma OneRefresher(c: Config, threads: nat, run: seq<Action>, t: nat, u: nat)
    requires c.policy.refreshEvery >= 1 && Possible(c, Init(threads), run) && t < u < threads
    ensures var pcs := After(c, Init(threads), run).pcs;
      |pcs| == threads && !(HoldsFlag(pcs[t]) && HoldsFlag(pcs[u]))
  {
    NoneAtStart(HoldsFlag, threads);
    InvariantsHold(c, Init(threads), run);
    var pcs := After(c, Init(threads), run).pcs;
    if HoldsFlag(pcs[t]) && HoldsFlag(pcs[u]) {
      CountAtLeastTwo(HoldsFlag, pcs, t, u);
    }
  }

  /** In every interleaving, no installed blockhash is handed out more often than the quota plus the other threads. */
  lemma UsesBounded(c: Config, threads: nat, run: seq<Action>, k: nat)
    requires c.policy.refreshEvery >= 1 && Possible(c, Init(threads), run)
    requires k < |After(c, Init(threads), run).handedOut|
    ensures After(c, Init(threads), run).handedOut[k] <= c.policy.refreshEvery + threads - 1
  {
    NoneAtStart(HoldsFlag, threads);
    InvariantsHold(c, Init(threads), run);
  }

  // ---------------------------------------------------------------------------
  // The bound is reached
  // ---------------------------------------------------------------------------

  lemma {:induction false} Concatenate(c: Config, s: Sys, a: seq<Action>, b: seq<Action>)
    requires Possible(c, s, a) && Possible(c, After(c, s, a), b)
    ensures Possible(c, s, a + b) && After(c, s, a + b) == After(c, After(c, s, a), b)
    decreases |a|
  {
    if a == [] {
      assert a + b == b;
    } else {
      Concatenate(c, Apply(c, s, a[0]), a[1..], b);
      assert (a + b)[1..] == a[1..] + b;
    }
  }

  lemma {:induction false} OneMore(c: Config, s: Sys, a: seq<Action>, x: Action)
    requires Possible(c, s, a) && Enabled(After(c, s, a), x)
    ensures Possible(c, s, a + [x]) && After(c, s, a + [x]) == Apply(c, After(c, s, a), x)
  {
    assert [x][1..] == [];
    Concatenate(c, s, a, [x]);
  }

  /** One blockhash installed just now and used `uses` times; the threads are as given. */
  ghost predicate Fresh(s: Sys, uses: nat, pcs: seq<Pc>) {
    && s.pcs == pcs && !s.inFlight && s.inner.pending == None && s.inner.current.Some?
    && s.inner.current.value.usesSinceRefresh == uses && s.inner.current.value.lease.fetchedAt == s.now
    && s.handedOut == [uses]
  }

  /** The first `k` threads are at `first`, the others at `rest`. */
  function Split(threads: nat, k: nat, first: Pc, rest: Pc): (pcs: seq<Pc>)
    ensures |pcs| == threads
  {
    seq(threads, i => if i < k then first else rest)
  }

  lemma NextSplit(threads: nat, k: nat, first: Pc, rest: Pc)
    requires k < threads
    ensures Split(threads, k, first, rest)[k := first] == Split(threads, k + 1, first, rest)
  {
  }

  lemma FirstInstall(c: Config, threads: nat) returns (run: seq<Action>)
    requires threads >= 1
    ensures Possible(c, Init(threads), run)
    ensures Fresh(After(c, Init(threads), run), 0, Split(threads, 1, Deciding, Idle))
  {
    var s := Init(threads);
    run := [];
    run := run + [Call(0)];
    OneMore(c, s, [], Call(0));
    OneMore(c, s, run, DecideStep(0));
    run := run + [DecideStep(0)];
    OneMore(c, s, run, TryFlag(0));
    run := run + [TryFlag(0)];
    OneMore(c, s, run, FetchOk(0, 7, 1));
    run := run + [FetchOk(0, 7, 1)];
    OneMore(c, s, run, Store(0));
    run := run + [Store(0)];
    OneMore(c, s, run, Release(0));
    run := run + [Release(0)];
    assert After(c, s, run).pcs == Split(threads, 1, Deciding, Idle);
  }

  /** A thread counts its use and, if it has to check the lease, finds it valid. */
  lemma IssueOne(c: Config, s: Sys, uses: nat, t: nat) returns (run: seq<Action>)
    requires t < |s.pcs| && s.pcs[t].Issuing? && Fresh(s, uses, s.pcs)
    ensures Possible(c, s, run) && Fresh(After(c, s, run), uses + 1, s.pcs[t := Idle])
  {
    run := [IssueStep(t)];
    OneMore(c, s, [], IssueStep(t));
    if After(c, s, run).pcs[t].Checking? {
      OneMore(c, s, run, CheckDone(t));
      run := run + [CheckDone(t)];
    }
  }

  /** Thread 0 leases again and again. */
  lemma {:induction false} UseRepeatedly(c: Config, s: Sys, threads: nat, uses: nat) returns (run: seq<Action>)
    requires threads >= 1 && uses < c.policy.refreshEvery
    requires Fresh(s, 0, Split(threads, 1, Deciding, Idle))
    ensures Possible(c, s, run) && Fresh(After(c, s, run), uses, Split(threads, 1, Deciding, Idle))
    decreases uses
  {
    if uses == 0 {
      run := [];
    } else {
      run := UseRepeatedly(c, s, threads, uses - 1);
      var more := UseOnce(c, After(c, s, run), threads, uses - 1);
      Concatenate(c, s, run, more);
      run := run + more;
    }
  }

  lemma UseOnce(c: Config, s: Sys, threads: nat, uses: nat) returns (run: seq<Action>)
    requires threads >= 1 && uses < c.policy.refreshEvery && Fresh(s, uses, Split(threads, 1, Deciding, Idle))
    ensures Possible(c, s, run) && Fresh(After(c, s, run), uses + 1, Split(threads, 1, Deciding, Idle))
  {
    OneMore(c, s, [], DecideStep(0));
    var s1 := After(c, s, [DecideStep(0)]);
    var issue := IssueOne(c, s1, uses, 0);
    Concatenate(c, s, [DecideStep(0)], issue);
    run := [DecideStep(0)] + issue;
    OneMore(c, s, run, Call(0));
    run := run + [Call(0)];
    assert After(c, s, run).pcs == Split(threads, 1, Deciding, Idle);
  }

  /** The first `k` threads come up to the first critical section. */
  lemma {:induction false} CallAll(c: Config, s: Sys, threads: nat, uses: nat, k: nat) returns (run: seq<Action>)
    requires 1 <= k <= threads && Fresh(s, uses, Split(threads, 1, Deciding, Idle))
    ensures Possible(c, s, run) && Fresh(After(c, s, run), uses, Split(threads, k, Deciding, Idle))
    decreases k
  {
    if k == 1 {
      run := [];
    } else {
      run := CallAll(c, s, threads, uses, k - 1);
      OneMore(c, s, run, Call(k - 1));
      run := run + [Call(k - 1)];
    }
  }

  lemma {:induction false} DecideAll(c: Config, s: Sys, threads: nat, uses: nat, k: nat) returns (run: seq<Action>)
    requires k <= threads && uses < c.policy.refreshEvery && Fresh(s, uses, Split(threads, 0, Issuing, Deciding))
    ensures Possible(c, s, run) && Fresh(After(c, s, run), uses, Split(threads, k, Issuing, Deciding))
    decreases k
  {
    if k == 0 {
      run := [];
    } else {
      run := DecideAll(c, s, threads, uses, k - 1);
      OneMore(c, s, run, DecideStep(k - 1));
      run := run + [DecideStep(k - 1)];
    }
  }

  lemma {:induction false} IssueAll(c: Config, s: Sys, threads: nat, uses: nat, k: nat) returns (run: seq<Action>)
    requires k <= threads && Fresh(s, uses, Split(threads, 0, Idle, Issuing))
    ensures Possible(c, s, run) && Fresh(After(c, s, run), uses + k, Split(threads, k, Idle, Issuing))
    decreases k
  {
    if k == 0 {
      run := [];
    } else {
      run := IssueAll(c, s, threads, uses, k - 1);
      var more := IssueOne(c, After(c, s, run), uses + k - 1, k - 1);
      Concatenate(c, s, run, more);
      run := run + more;
      NextSplit(threads, k - 1, Idle, Issuing);
    }
  }

  /** For every quota and every number of threads, with or without validity checks, some interleaving hands one blockhash out
      exactly that often. */
  lemma BoundIsReached(c: Config, threads: nat)
    requires c.policy.refreshEvery >= 1 && threads >= 1
    ensures exists run :: Possible(c, Init(threads), run) && After(c, Init(threads), run).handedOut == [c.policy.refreshEvery + threads - 1]
  {
    var run := FullUse(c, threads);
  }

  lemma {:induction false} FullUse(c: Config, threads: nat) returns (run: seq<Action>)
    requires c.policy.refreshEvery >= 1 && threads >= 1
    ensures Possible(c, Init(threads), run)
    ensures Fresh(After(c, Init(threads), run), c.policy.refreshEvery + threads - 1, Split(threads, threads, Idle, Issuing))
  {
    var s0, uses := Init(threads), c.policy.refreshEvery - 1;
    var a := FirstInstall(c, threads);
    var s1 := After(c, s0, a);
    var b := UseRepeatedly(c, s1, threads, uses);
    Concatenate(c, s0, a, b);
    var s2 := After(c, s0, a + b);
    var d := UseTogether(c, s2, threads, uses);
    Concatenate(c, s0, a + b, d);
    run := a + b + d;
  }

  /** All threads decide that no refresh is due before any of them counts its use. */
  lemma UseTogether(c: Config, s: Sys, threads: nat, uses: nat) returns (run: seq<Action>)
    requires threads >= 1 && uses < c.policy.refreshEvery && Fresh(s, uses, Split(threads, 1, Deciding, Idle))
    ensures Possible(c, s, run) && Fresh(After(c, s, run), uses + threads, Split(threads, threads, Idle, Issuing))
  {
    var d := CallAll(c, s, threads, uses, threads);
    var s1 := After(c, s, d);
    assert Split(threads, threads, Deciding, Idle) == Split(threads, 0, Issuing, Deciding);
    var e := DecideAll(c, s1, threads, uses, threads);
    var s2 := After(c, s1, e);
    assert Split(threads, threads, Issuing, Deciding) == Split(threads, 0, Idle, Issuing);
    var f := IssueAll(c, s2, threads, uses, threads);
    Concatenate(c, s1, e, f);
    Concatenate(c, s, d, e + f);
    run := d + (e + f);
  }

  // ---------------------------------------------------------------------------
  // When a lease is the zero lease
  // ---------------------------------------------------------------------------

  datatype Change = Unchanged | Stored | Cleared

  /** What the last action of a run that touches the current blockhash does to it. */
  function LastChange(run: seq<Action>): Change {
    if run == [] then Unchanged
    else
      match run[|run| - 1]
      case Store(_) => Stored
      case Drop(_) => Cleared
      case Stale => Cleared
      case _ => LastChange(run[..|run| - 1])
  }

  lemma {:induction false} SplitRun(c: Config, s: Sys, run: seq<Action>)
    requires Possible(c, s, run) && run != []
    ensures var front := run[..|run| - 1];
      && Possible(c, s, front) && Enabled(After(c, s, front), run[|run| - 1])
      && After(c, s, run) == Apply(c, After(c, s, front), run[|run| - 1])
    decreases |run|
  {
    if |run| > 1 {
      SplitRun(c, Apply(c, s, run[0]), run[1..]);
      assert run[1..][..|run| - 2] == run[..|run| - 1][1..];
    }
  }

  lemma {:induction false} CurrentAfter(c: Config, s: Sys, run: seq<Action>)
    requires Possible(c, s, run)
    ensures After(c, s, run).inner.current.None? <==>
      match LastChange(run)
      case Unchanged => s.inner.current.None?
      case Stored => false
      case Cleared => true
    decreases |run|
  {
    if run != [] {
      SplitRun(c, s, run);
      CurrentAfter(c, s, run[..|run| - 1]);
    }
  }

  /** Between the two critical sections of a thread, other threads act as in `between`. The thread then gets the
      zero lease exactly when the last of them to touch the current blockhash invalidated it. */
  lemma ZeroLeaseExactly(c: Config, s: Sys, t: nat, between: seq<Action>)
    requires Enabled(s, DecideStep(t)) && Apply(c, s, DecideStep(t)).pcs[t].Issuing?
    requires Possible(c, Apply(c, s, DecideStep(t)), between)
    ensures var s2 := After(c, Apply(c, s, DecideStep(t)), between);
      var (_, lease, _) := Issue(s2.inner, s2.now, c.preCheck);
      if LastChange(between) == Cleared then lease == ZeroLease(s2.now)
      else s2.inner.current.Some? && lease == s2.inner.current.value.lease
  {
    CurrentAfter(c, Apply(c, s, DecideStep(t)), between);
  }

  /** Between a lone thread's two sections a lease is reported stale: it takes the zero lease. */
  lemma ZeroLeaseIsTaken(policy: Policy, preCheck: bool) returns (run: seq<Action>)
    requires policy.refreshEvery >= 1
    ensures var c := Config(policy, preCheck);
      && Possible(c, Init(1), run) && Enabled(After(c, Init(1), run), IssueStep(0))
      && var s := After(c, Init(1), run); Issue(s.inner, s.now, preCheck).1 == ZeroLease(s.now)
  {
    var c := Config(policy, preCheck);
    run := FirstInstall(c, 1);
    OneMore(c, Init(1), run, DecideStep(0));
    run := run + [DecideStep(0)];
    OneMore(c, Init(1), run, Stale);
    run := run + [Stale];
  }

  /** `lease` was stored by some step of the run. */
  ghost predicate StoredIn(c: Config, s: Sys, run: seq<Action>, lease: BlockhashLease)
    requires Possible(c, s, run)
    decreases |run|
  {
    run != [] &&
    ((run[0].Store? && s.pcs[run[0].t].lease == lease) || StoredIn(c, Apply(c, s, run[0]), run[1..], lease))
  }

  /** Whatever is current was stored during the run, or was current at its start. */
  lemma {:induction false} CurrentWasStored(c: Config, s: Sys, run: seq<Action>)
    requires Possible(c, s, run) && After(c, s, run).inner.current.Some?
    ensures var lease := After(c, s, run).inner.current.value.lease;
      StoredIn(c, s, run, lease) || (s.inner.current.Some? && s.inner.current.value.lease == lease)
    decreases |run|
  {
    if run != [] {
      CurrentWasStored(c, Apply(c, s, run[0]), run[1..]);
    }
  }

  // ---------------------------------------------------------------------------
  // Where leases come from
  // ---------------------------------------------------------------------------

  /** Some fetch of the run succeeded with this hash and height. */
  ghost predicate Fetched(run: seq<Action>, lease: BlockhashLease) {
    exists i :: 0 <= i < |run| && run[i].FetchOk? && run[i].hash == lease.hash && run[i].height == lease.lastValidBlockHeight
  }

  /** Every lease that is current, about to be stored or being checked was fetched during the run. */
  ghost predicate AllFetched(run: seq<Action>, s: Sys) {
    && (s.inner.current.Some? ==> Fetched(run, s.inner.current.value.lease))
    && (forall t | 0 <= t < |s.pcs| && s.pcs[t].Installing? :: Fetched(run, s.pcs[t].lease))
    && (forall t | 0 <= t < |s.pcs| && s.pcs[t].Checking? :: Fetched(run, s.pcs[t].leased))
  }

  lemma FetchedStays(run: seq<Action>, a: Action)
    ensures forall lease {:trigger Fetched(run + [a], lease)} | Fetched(run, lease) :: Fetched(run + [a], lease)
    ensures a.FetchOk? ==> forall lease: BlockhashLease {:trigger Fetched(run + [a], lease)} |
      lease.hash == a.hash && lease.lastValidBlockHeight == a.height :: Fetched(run + [a], lease)
  {
    assert (run + [a])[|run|] == a;
    forall lease: BlockhashLease | Fetched(run, lease) ensures Fetched(run + [a], lease) {
      var i :| 0 <= i < |run| && run[i].FetchOk? && run[i].hash == lease.hash && run[i].height == lease.lastValidBlockHeight;
      assert (run + [a])[i] == run[i];
    }
  }

  lemma FetchedKept(c: Config, s: Sys, run: seq<Action>, a: Action)
    requires Enabled(s, a) && AllFetched(run, s)
    ensures AllFetched(run + [a], Apply(c, s, a))
  {
    FetchedStays(run, a);
  }

  lemma {:induction false} LeasesWereFetched(c: Config, threads: nat, run: seq<Action>)
    requires Possible(c, Init(threads), run)
    ensures AllFetched(run, After(c, Init(threads), run))
    decreases |run|
  {
    if run != [] {
      var front, a := run[..|run| - 1], run[|run| - 1];
      SplitRun(c, Init(threads), run);
      LeasesWereFetched(c, threads, front);
      FetchedKept(c, After(c, Init(threads), front), front, a);
      assert run == front + [a];
    }
  }

  /** From the start, over all interleavings: the lease a thread takes in its second section was fetched by some thread,
      unless the last change to the current blockhash since the thread's first section was an invalidation; then it
      takes the zero lease, and takes it unchecked. */
  lemma LeaseWasFetchedExactly(c: Config, threads: nat, before: seq<Action>, t: nat, between: seq<Action>)
    requires Possible(c, Init(threads), before)
    requires var s := After(c, Init(threads), before);
      && Enabled(s, DecideStep(t)) && Apply(c, s, DecideStep(t)).pcs[t].Issuing?
      && Possible(c, Apply(c, s, DecideStep(t)), between)
    ensures var s2 := After(c, Apply(c, After(c, Init(threads), before), DecideStep(t)), between);
      var (_, lease, needsCheck) := Issue(s2.inner, s2.now, c.preCheck);
      if LastChange(between) == Cleared then lease == ZeroLease(s2.now) && !needsCheck
      else Fetched(before + [DecideStep(t)] + between, lease)
  {
    var s := After(c, Init(threads), before);
    OneMore(c, Init(threads), before, DecideStep(t));
    Concatenate(c, Init(threads), before + [DecideStep(t)], between);
    LeasesWereFetched(c, threads, before + [DecideStep(t)] + between);
    CurrentAfter(c, Apply(c, s, DecideStep(t)), between);
    ZeroLeaseExactly(c, s, t, between);
  }

  /** A lease that passed its validity check was fetched. */
  lemma CheckedLeaseWasFetched(c: Config, threads: nat, run: seq<Action>, t: nat)
    requires Possible(c, Init(threads), run) && Enabled(After(c, Init(threads), run), CheckDone(t))
    ensures Fetched(run, After(c, Init(threads), run).pcs[t].leased)
  {
    LeasesWereFetched(c, threads, run);
  }
}
