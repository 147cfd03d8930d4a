/** The router's circuit breaker, driven by requests that come one after another. */
module Circuit {
  import opened Types
  import opened Integers

  datatype Breaker = Breaker(failures: nat, trippedUntil: Option<int>)

  const CLOSED := Breaker(0, None)

  /** One request: when it starts, when its answer is in, and whether the router, if asked, answers it well. */
  datatype Request = Request(start: int, end: int, ok: bool)

  datatype Limits = Limits(threshold: nat, cooldown: nat)

  // ---------------------------------------------------------------------------
  // One request
  // ---------------------------------------------------------------------------

  predicate Refuses(b: Breaker, now: int) {
    b.trippedUntil.Some? && now < b.trippedUntil.value
  }

  /** The breaker after it let a request pass: an expired trip is forgotten with its failures. */
  function Admit(b: Breaker): Breaker {
    if b.trippedUntil.Some? then CLOSED else b
  }

  function Fail(limits: Limits, b: Breaker, now: int): Breaker {
    if limits.threshold == 0 then b
    else
      var failures := if b.failures < U32_MAX then b.failures + 1 else U32_MAX;
      if failures >= limits.threshold then Breaker(failures, Some(now + limits.cooldown)) else b.(failures := failures)
  }

  function Step(limits: Limits, b: Breaker, r: Request): Breaker {
    if limits.threshold == 0 || Refuses(b, r.start) then b
    else if r.ok then CLOSED
    else Fail(limits, Admit(b), r.end)
  }

  class CircuitState {
    var failures: nat
    var trippedUntil: Option<int>

    function Value(): Breaker
      reads this
    {
      Breaker(failures, trippedUntil)
    }

    constructor ()
      ensures Value() == CLOSED
    {
      failures, trippedUntil := 0, None;
    }

    method RecordFailure(limits: Limits, now: int) returns (until: Option<int>)
      modifies this
      ensures Value() == Fail(limits, old(Value()), now)
      ensures until == if limits.threshold > 0 && failures >= limits.threshold then Some(now + limits.cooldown) else None
    {
      if limits.threshold == 0 {
        return None;
      }
      failures := if failures < U32_MAX then failures + 1 else U32_MAX;
      if failures >= limits.threshold {
        trippedUntil := Some(now + limits.cooldown);
        return trippedUntil;
      }
      return None;
    }

    method Reset() returns (wasActive: bool)
      modifies this
      ensures Value() == CLOSED && (wasActive <==> old(failures) > 0 || old(trippedUntil).Some?)
    {
      wasActive := failures > 0 || trippedUntil.Some?;
      failures, trippedUntil := 0, None;
    }

    method IsTripped(now: int) returns (until: Option<int>)
      modifies this
      ensures until == if Refuses(old(Value()), now) then old(trippedUntil) else None
      ensures Value() == if Refuses(old(Value()), now) then old(Value()) else Admit(old(Value()))
    {
      if trippedUntil.Some? {
        if now < trippedUntil.value {
          return trippedUntil;
        }
        trippedUntil, failures := None, 0;
      }
      return None;
    }
  }

  datatype Reply = Answered | Failed | Refused

  /** One request to a URL; the breaker guards the router's origin only. */
  method PostJson(circuit: CircuitState, limits: Limits, sameOrigin: bool, r: Request) returns (reply: Reply)
    modifies circuit
    ensures reply == if sameOrigin && limits.threshold > 0 && Refuses(old(circuit.Value()), r.start) then Refused
                     else if r.ok then Answered else Failed
    ensures circuit.Value() == if sameOrigin then Step(limits, old(circuit.Value()), r) else old(circuit.Value())
  {
    var applyCircuit := sameOrigin && limits.threshold > 0;
    if applyCircuit {
      var until := circuit.IsTripped(r.start);
      if until.Some? {
        return Refused;
      }
    }
    reply := if r.ok then Answered else Failed;
    if applyCircuit {
      if r.ok {
        var _ := circuit.Reset();
      } else {
        var _ := circuit.RecordFailure(limits, r.end);
      }
    }
  }

  // ---------------------------------------------------------------------------
  // Runs
  // ---------------------------------------------------------------------------

  /** Requests follow each other: none starts before the one before it has ended. */
  predicate Sequential(requests: seq<Request>) {
    && (forall i | 0 <= i < |requests| :: requests[i].start <= requests[i].end)
    && (forall i | 0 <= i < |requests| - 1 :: requests[i].end <= requests[i + 1].start)
  }

  /** A request that reached the router, and whether its failure tripped the breaker. */
  datatype Send = Send(start: int, end: int, ok: bool, trips: bool)

  function After(limits: Limits, requests: seq<Request>): Breaker {
    if requests == [] then CLOSED
    else Step(limits, After(limits, requests[..|requests| - 1]), requests[|requests| - 1])
  }

  /** What the router sees of a run. */
  function Sends(limits: Limits, requests: seq<Request>): seq<Send> {
    if requests == [] then []
    else
      var n := |requests| - 1;
      var r, b := requests[n], After(limits, requests[..n]);
      var before := Sends(limits, requests[..n]);
      if limits.threshold > 0 && Refuses(b, r.start) then before
      else before + [Send(r.start, r.end, r.ok, !r.ok && Step(limits, b, r).trippedUntil.Some?)]
  }

  /** How many sends in a row have failed at the end of `sends`. */
  function FailedInARow(sends: seq<Send>): (n: nat)
    ensures n <= |sends|
  {
    if sends == [] || sends[|sends| - 1].ok then 0 else 1 + FailedInARow(sends[..|sends| - 1])
  }

  /** The failures in a row since the last of them that made up a multiple of the threshold. */
  function Phase(threshold: nat, sends: seq<Send>): (p: nat)
    requires threshold > 0
    ensures p < threshold
  {
    if sends == [] || sends[|sends| - 1].ok then 0
    else
      var p := Phase(threshold, sends[..|sends| - 1]) + 1;
      if p == threshold then 0 else p
  }

  lemma {:induction false} PhaseIsRemainder(threshold: nat, sends: seq<Send>)
    requires threshold > 0
    ensures Phase(threshold, sends) == FailedInARow(sends) % threshold
  {
    if sends == [] || sends[|sends| - 1].ok {
      MultipleRemainder(0, threshold, 0);
    } else {
      var front := sends[..|sends| - 1];
      PhaseIsRemainder(threshold, front);
      NextQuotient(FailedInARow(front), threshold);
      assert FailedInARow(sends) == FailedInARow(front) + 1;
    }
  }

  predicate EndsFailed(sends: seq<Send>) {
    sends != [] && !sends[|sends| - 1].ok
  }

  /** What the breaker holds is determined by what the router has seen. */
  ghost predicate Reflects(limits: Limits, b: Breaker, sends: seq<Send>)
    requires limits.threshold > 0
  {
    var phase := Phase(limits.threshold, sends);
    if EndsFailed(sends) && phase == 0
    then b == Breaker(limits.threshold, Some(sends[|sends| - 1].end + limits.cooldown))
    else b == Breaker(phase, None)
  }

  lemma {:induction false} MultipleRemainder(q: int, d: nat, m: nat)
    requires m < d
    ensures (q * d + m) % d == m && (q * d + m) / d == q
  {
    var a := q * d + m;
    var k := q - a / d;
    assert a == a / d * d + a % d;
    assert k * d == q * d - a / d * d;
    assert k >= 1 ==> k * d >= d;
    assert k <= -1 ==> k * d + d <= 0;
  }

  lemma {:induction false} RunReflects(limits: Limits, requests: seq<Request>)
    requires 0 < limits.threshold <= U32_MAX
    ensures Reflects(limits, After(limits, requests), Sends(limits, requests))
  {
    if requests != [] {
      var n := |requests| - 1;
      RunReflects(limits, requests[..n]);
    }
  }

  /** A send trips the breaker exactly when it fails and the failures in a row are a multiple of the threshold. */
  lemma {:induction false} TripsExactly(limits: Limits, requests: seq<Request>, k: nat)
    requires 0 < limits.threshold <= U32_MAX && k < |Sends(limits, requests)|
    ensures var sends := Sends(limits, requests);
      sends[k].trips <==> !sends[k].ok && FailedInARow(sends[..k + 1]) % limits.threshold == 0
  {
    var n := |requests| - 1;
    var sends, front := Sends(limits, requests), Sends(limits, requests[..n]);
    if k < |front| {
      TripsExactly(limits, requests[..n], k);
      assert sends[..k + 1] == front[..k + 1];
    } else {
      RunReflects(limits, requests[..n]);
      assert sends[..k + 1] == sends;
      PhaseIsRemainder(limits.threshold, sends);
    }
  }

  /** Sends are a part of the requests, in order. */
  lemma {:induction false} SendsAreOrdered(limits: Limits, requests: seq<Request>)
    requires Sequential(requests)
    ensures var sends := Sends(limits, requests);
      && (forall i | 0 <= i < |sends| :: sends[i].start <= sends[i].end)
      && (forall i, j | 0 <= i < j < |sends| :: sends[i].end <= sends[j].start)
      && (sends != [] ==> requests != [] && sends[|sends| - 1].end <= requests[|requests| - 1].end)
  {
    if requests != [] {
      SendsAreOrdered(limits, requests[..|requests| - 1]);
    }
  }

  /** After a send trips the breaker no send starts before the cooldown is over. */
  lemma {:induction false} QuietAfterTrip(limits: Limits, requests: seq<Request>, i: nat, j: nat)
    requires 0 < limits.threshold <= U32_MAX && Sequential(requests)
    requires i < j < |Sends(limits, requests)| && Sends(limits, requests)[i].trips
    ensures Sends(limits, requests)[j].start >= Sends(limits, requests)[i].end + limits.cooldown
  {
    var n := |requests| - 1;
    var sends, front := Sends(limits, requests), Sends(limits, requests[..n]);
    SendsAreOrdered(limits, requests);
    assert sends[..|front|] == front;
    if j < |front| {
      QuietAfterTrip(limits, requests[..n], i, j);
    } else if i < |front| - 1 {
      QuietAfterTrip(limits, requests[..n], i, |front| - 1);
    } else {
      RunReflects(limits, requests[..n]);
      TripsExactly(limits, requests[..n], i);
      assert front[..i + 1] == front;
      PhaseIsRemainder(limits.threshold, front);
    }
  }

  /** Among as many failing sends in a row as the threshold, one trips. */
  lemma SomeSendTrips(limits: Limits, requests: seq<Request>, i: nat) returns (k: nat)
    requires 0 < limits.threshold <= U32_MAX && i + limits.threshold <= |Sends(limits, requests)|
    requires forall m | i <= m < i + limits.threshold :: !Sends(limits, requests)[m].ok
    ensures i <= k < i + limits.threshold && Sends(limits, requests)[k].trips
  {
    var sends, t := Sends(limits, requests), limits.threshold;
    var row := FailedInARow(sends[..i]);
    k := i + (t - 1 - row % t);
    RowGrows(sends, i, k + 1);
    NextMultiple(row, t);
    TripsExactly(limits, requests, k);
  }

  lemma {:induction false} NextMultiple(row: nat, t: nat)
    requires t > 0
    ensures (row + (t - row % t)) % t == 0
  {
    assert row == row / t * t + row % t;
    MultipleRemainder(row / t + 1, t, 0);
  }

  lemma {:induction false} RowGrows(sends: seq<Send>, i: nat, j: nat)
    requires i <= j <= |sends| && forall m | i <= m < j :: !sends[m].ok
    ensures FailedInARow(sends[..j]) == FailedInARow(sends[..i]) + (j - i)
  {
    if i < j {
      RowGrows(sends, i, j - 1);
      assert sends[..j][..j - 1] == sends[..j - 1];
    }
  }

  /** `x` taken `times` times. */
  function Repeated(times: nat, x: nat): nat {
    if times == 0 then 0 else Repeated(times - 1, x) + x
  }

  lemma {:induction false} RepeatedIsProduct(times: nat, x: nat)
    ensures Repeated(times, x) == times * x
  {
    if times > 0 {
      RepeatedIsProduct(times - 1, x);
    }
  }

  /** Failing sends drift apart: each `threshold` of them take up a cooldown. */
  lemma {:induction false} FailuresDrift(limits: Limits, requests: seq<Request>, i: nat, rounds: nat, j: nat)
    requires 0 < limits.threshold <= U32_MAX && Sequential(requests)
    requires j == i + Repeated(rounds, limits.threshold) && j < |Sends(limits, requests)|
    requires forall m | i <= m < j :: !Sends(limits, requests)[m].ok
    ensures Sends(limits, requests)[j].start >= Sends(limits, requests)[i].start + Repeated(rounds, limits.cooldown)
  {
    if rounds > 0 {
      var t := limits.threshold;
      FailuresDrift(limits, requests, i, rounds - 1, j - t);
      SendsAreOrdered(limits, requests);
      var k := SomeSendTrips(limits, requests, j - t);
      QuietAfterTrip(limits, requests, k, j);
    }
  }

  /** Sends `i` to `j` all fail, and all start within `length` after `from`. */
  ghost predicate FailWithin(sends: seq<Send>, i: nat, j: nat, from: int, length: nat) {
    i <= j < |sends| && forall m | i <= m <= j :: !sends[m].ok && from <= sends[m].start <= from + length
  }

  lemma RoundsBound(limits: Limits, requests: seq<Request>, i: nat, j: nat, from: int, length: nat, rounds: nat, f: nat)
    requires 0 < limits.threshold <= U32_MAX && Sequential(requests)
    requires FailWithin(Sends(limits, requests), i, j, from, length) && Repeated(rounds, limits.cooldown) > length
    requires f == i + Repeated(rounds, limits.threshold)
    ensures j < f
  {
    if f <= j {
      FailuresDrift(limits, requests, i, rounds, f);
    }
  }

  /** In any window, the sends of a stretch that only fails are at most `threshold` per cooldown begun. */
  lemma WindowBound(limits: Limits, requests: seq<Request>, i: nat, j: nat, from: int, length: nat)
    requires 0 < limits.threshold <= U32_MAX && limits.cooldown > 0 && Sequential(requests)
    requires FailWithin(Sends(limits, requests), i, j, from, length)
    ensures j - i + 1 <= (length / limits.cooldown + 1) * limits.threshold
  {
    var rounds := length / limits.cooldown + 1;
    RepeatedIsProduct(rounds, limits.cooldown);
    RepeatedIsProduct(rounds, limits.threshold);
    RoundsBound(limits, requests, i, j, from, length, rounds, i + Repeated(rounds, limits.threshold));
  }

  // ---- the bound is reached ----

  /** The place of request `i` in its round of `threshold`. */
  function Place(limits: Limits, i: nat): (p: nat)
    requires limits.threshold > 0
    ensures p < limits.threshold
  {
    if i == 0 then 0
    else
      var p := Place(limits, i - 1) + 1;
      if p == limits.threshold then 0 else p
  }

  /** When the round of request `i` starts: one cooldown after the round before. */
  function RoundStart(limits: Limits, i: nat): nat
    requires limits.threshold > 0
  {
    if i == 0 then 0 else RoundStart(limits, i - 1) + (if Place(limits, i) == 0 then limits.cooldown else 0)
  }

  lemma {:induction false} NextQuotient(i: nat, t: nat)
    requires t > 0
    ensures (i + 1) % t == if i % t + 1 == t then 0 else i % t + 1
    ensures (i + 1) / t == if i % t + 1 == t then i / t + 1 else i / t
  {
    var q, m := i / t, i % t;
    assert i == q * t + m;
    if m + 1 == t {
      MultipleRemainder(q + 1, t, 0);
    } else {
      MultipleRemainder(q, t, m + 1);
    }
  }

  /** Bursts of `threshold` failing requests, one cooldown apart. */
  function Bursts(limits: Limits, count: nat): seq<Request>
    requires limits.threshold > 0
  {
    seq(count, i requires 0 <= i => Request(RoundStart(limits, i), RoundStart(limits, i), false))
  }

  /** `sends` are the sends of `n` burst requests. */
  ghost predicate AreBurstSends(limits: Limits, sends: seq<Send>, n: nat)
    requires limits.threshold > 0
  {
    && |sends| == n && Phase(limits.threshold, sends) == Place(limits, n)
    && forall i | 0 <= i < n :: !sends[i].ok && sends[i].start == sends[i].end == RoundStart(limits, i)
  }

  lemma {:induction false} BurstsAreSent(limits: Limits, n: nat)
    requires 0 < limits.threshold <= U32_MAX
    ensures AreBurstSends(limits, Sends(limits, Bursts(limits, n)), n)
  {
    if n > 0 {
      var m := n - 1;
      assert Bursts(limits, n)[..m] == Bursts(limits, m);
      BurstsAreSent(limits, m);
      RunReflects(limits, Bursts(limits, m));
    }
  }

  /** `p` further into a round that starts at `base`. */
  lemma {:induction false} WithinRound(limits: Limits, base: nat, p: nat)
    requires p < limits.threshold && Place(limits, base) == 0
    ensures Place(limits, base + p) == p && RoundStart(limits, base + p) == RoundStart(limits, base)
  {
    if p > 0 {
      WithinRound(limits, base, p - 1);
    }
  }

  lemma {:induction false} AtRound(limits: Limits, rounds: nat)
    requires limits.threshold > 0
    ensures var base := Repeated(rounds, limits.threshold);
      Place(limits, base) == 0 && RoundStart(limits, base) == Repeated(rounds, limits.cooldown)
  {
    if rounds > 0 {
      AtRound(limits, rounds - 1);
      WithinRound(limits, Repeated(rounds - 1, limits.threshold), limits.threshold - 1);
    }
  }

  lemma {:induction false} RoundStartsGrow(limits: Limits, i: nat, j: nat)
    requires limits.threshold > 0 && i <= j
    ensures RoundStart(limits, i) <= RoundStart(limits, j)
  {
    if i < j {
      RoundStartsGrow(limits, i, j - 1);
    }
  }

  lemma BurstsFollow(limits: Limits, rounds: nat)
    requires limits.threshold > 0
    ensures Sequential(Bursts(limits, Repeated(rounds + 1, limits.threshold)))
    ensures forall i: nat | i < Repeated(rounds + 1, limits.threshold) :: RoundStart(limits, i) <= Repeated(rounds, limits.cooldown)
  {
    var base := Repeated(rounds, limits.threshold);
    var n := base + limits.threshold;
    forall i: nat | i < n - 1 ensures RoundStart(limits, i) <= RoundStart(limits, i + 1) {
      RoundStartsGrow(limits, i, i + 1);
    }
    AtRound(limits, rounds);
    WithinRound(limits, base, limits.threshold - 1);
    forall i: nat | i < n ensures RoundStart(limits, i) <= RoundStart(limits, n - 1) {
      RoundStartsGrow(limits, i, n - 1);
    }
  }

  /** The bound is tight: some run has that many failing sends in a window of any whole number of cooldowns. */
  lemma WindowBoundIsReached(limits: Limits, rounds: nat) returns (requests: seq<Request>)
    requires 0 < limits.threshold <= U32_MAX && limits.cooldown > 0
    ensures Sequential(requests)
    ensures |Sends(limits, requests)| == (rounds * limits.cooldown / limits.cooldown + 1) * limits.threshold
    ensures FailWithin(Sends(limits, requests), 0, |Sends(limits, requests)| - 1, 0, rounds * limits.cooldown)
  {
    var n := Repeated(rounds + 1, limits.threshold);
    requests := Bursts(limits, n);
    BurstsAreSent(limits, n);
    BurstsFollow(limits, rounds);
    RepeatedIsProduct(rounds, limits.cooldown);
    RepeatedIsProduct(rounds + 1, limits.threshold);
    MultipleRemainder(rounds, limits.cooldown, 0);
  }
}
