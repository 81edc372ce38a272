/** The heartbeat's failure counter over every sequence of outcomes and inbound messages. */
module HeartbeatSpec {

  // Inner pongs are inbound messages recorded while handleFailure runs: before OnTimeout looks at
  // the counter, or after it and before handleFailure returns.
  datatype Event = Success | Failure(pongBefore: bool, pongAfter: bool) | Pong

  datatype Beat = Beat(
    failures: int,
    timeouts: nat,      // OnTimeout calls
    reconnects: nat,    // OnReconnect calls
    closed: bool)       // the control connection's OnTimeout has called Close

  const START := Beat(0, 0, 0, false)

  function Fail(max: int, b: Beat, pongBefore: bool, pongAfter: bool): Beat {
    var failures := b.failures + 1;
    var seen := if pongBefore then 0 else failures;
    Beat(if failures >= max || pongAfter then 0 else seen,
         b.timeouts + 1,
         if failures >= max then b.reconnects + 1 else b.reconnects,
         b.closed || seen >= max)
  }

  function Step(max: int, b: Beat, ev: Event): Beat {
    match ev
    case Success => b.(failures := 0)
    case Pong => b.(failures := 0)
    case Failure(before, after) => Fail(max, b, before, after)
  }

  function Run(max: int, evs: seq<Event>): Beat {
    if evs == [] then START else Step(max, Run(max, evs[..|evs| - 1]), evs[|evs| - 1])
  }

  // A limit below one acts like one: every failure reaches it.
  function Limit(max: int): nat { if max < 1 then 1 else max }

  /** Between calls the counter is below the limit. */
  lemma {:induction false} CounterBelowLimit(max: int, evs: seq<Event>)
    ensures 0 <= Run(max, evs).failures < Limit(max)
    ensures Run(max, evs).failures + 1 <= Limit(max)   // the counter inside a next handleFailure
  {
    if evs != [] {
      CounterBelowLimit(max, evs[..|evs| - 1]);
    }
  }

  // ---- health ----

  // When the peer was last heard of: the start, successes and messages, in the order recorded.
  predicate Rising(contacts: seq<int>) {
    forall i, j :: 0 <= i < j < |contacts| ==> contacts[i] <= contacts[j]
  }

  predicate HeardWithin(contacts: seq<int>, now: int, window: int) {
    exists i :: 0 <= i < |contacts| && now - contacts[i] < window
  }

  // ---- reconnects ----

  function Longer(runs: seq<nat>): (r: seq<nat>)
    requires runs != []
    ensures r != []
  {
    runs[|runs| - 1 := runs[|runs| - 1] + 1]
  }

  predicate InnerPong(ev: Event) {
    ev.Failure? && (ev.pongBefore || ev.pongAfter)
  }

  /** Lengths of the maximal runs of failures, the last one still open. A message ends a run, also one
      that lands while a failure is handled: that failure is the last of its run. */
  function FailureRuns(evs: seq<Event>): (r: seq<nat>)
    ensures r != []
  {
    if evs == [] then [0]
    else
      var r := FailureRuns(evs[..|evs| - 1]);
      var ev := evs[|evs| - 1];
      if InnerPong(ev) then Longer(r) + [0] else if ev.Failure? then Longer(r) else r + [0]
  }

  function Floors(runs: seq<nat>, limit: nat): nat
    requires limit >= 1
  {
    if runs == [] then 0 else Floors(runs[..|runs| - 1], limit) + runs[|runs| - 1] / limit
  }

  lemma NextMultiple(n: nat, limit: nat)
    requires limit >= 1
    ensures (n + 1) / limit == n / limit + (if n % limit == limit - 1 then 1 else 0)
    ensures (n + 1) % limit == (if n % limit == limit - 1 then 0 else n % limit + 1)
  {
    var q, m := n / limit, n % limit;
    assert n == q * limit + m;
    if m == limit - 1 {
      assert n + 1 == (q + 1) * limit;
      Divide(q + 1, 0, limit);
    } else {
      Divide(q, m + 1, limit);
    }
  }

  lemma Divide(q: nat, r: nat, limit: nat)
    requires r < limit
    ensures (q * limit + r) / limit == q && (q * limit + r) % limit == r
  {
    var n := q * limit + r;
    var d := n / limit;
    assert n == d * limit + n % limit;
    Cancel(d, q, limit);
    Cancel(q, d, limit);
  }

  lemma Cancel(a: nat, b: nat, limit: nat)
    ensures a * limit < b * limit + limit ==> a <= b
  {
    if a > b {
      assert a * limit == b * limit + limit + (a - b - 1) * limit;
    }
  }

  lemma FloorsLonger(runs: seq<nat>, limit: nat)
    requires limit >= 1 && runs != []
    ensures var n := runs[|runs| - 1];
      Floors(Longer(runs), limit) == Floors(runs, limit) + (if n % limit == limit - 1 then 1 else 0)
  {
    var last := |runs| - 1;
    NextMultiple(runs[last], limit);
    assert Longer(runs)[..last] == runs[..last];
  }

  lemma FloorsNew(runs: seq<nat>, limit: nat)
    requires limit >= 1
    ensures Floors(runs + [0], limit) == Floors(runs, limit)
  {
    assert (runs + [0])[..|runs|] == runs;
    Divide(0, 0, limit);
  }

  // What one failure does, for a counter below the limit.
  lemma FailCounts(max: int, b: Beat, ev: Event)
    requires 0 <= b.failures < Limit(max) && ev.Failure?
    ensures var full := b.failures == Limit(max) - 1;
      && Step(max, b, ev).reconnects == b.reconnects + (if full then 1 else 0)
      && Step(max, b, ev).failures == (if full || InnerPong(ev) then 0 else b.failures + 1)
  {
  }

  /** OnReconnect runs once per full limit in each maximal run of failures. */
  lemma {:induction false} ReconnectsCountRuns(max: int, evs: seq<Event>)
    ensures Run(max, evs).reconnects == Floors(FailureRuns(evs), Limit(max))
    ensures Run(max, evs).failures == FailureRuns(evs)[|FailureRuns(evs)| - 1] % Limit(max)
  {
    var m := Limit(max);
    Divide(0, 0, m);
    if evs == [] {
      FloorsNew([], m);
      assert [] + [0] == FailureRuns(evs);
    } else {
      var n := |evs| - 1;
      ReconnectsCountRuns(max, evs[..n]);
      var r := FailureRuns(evs[..n]);
      var k := r[|r| - 1];
      if evs[n].Failure? {
        FailCounts(max, Run(max, evs[..n]), evs[n]);
        NextMultiple(k, m);
        FloorsLonger(r, m);
        FloorsNew(Longer(r), m);
      } else {
        FloorsNew(r, m);
      }
    }
  }

  function FailuresIn(evs: seq<Event>): nat {
    if evs == [] then 0 else FailuresIn(evs[..|evs| - 1]) + if evs[|evs| - 1].Failure? then 1 else 0
  }

  /** OnTimeout runs in every failure, whatever the counter is. */
  lemma {:induction false} TimeoutsCountFailures(max: int, evs: seq<Event>)
    ensures Run(max, evs).timeouts == FailuresIn(evs)
  {
    if evs != [] {
      TimeoutsCountFailures(max, evs[..|evs| - 1]);
    }
  }

  // ---- closing the control connection ----

  // The last `max` events are failures with no message between them, none recorded while one was
  // being handled; only after the check of the last one may a message land.
  predicate FailedThrough(max: nat, evs: seq<Event>) {
    && max <= |evs|
    && (forall i :: |evs| - max <= i < |evs| ==> evs[i].Failure? && !evs[i].pongBefore)
    && (forall i :: |evs| - max <= i < |evs| - 1 ==> !evs[i].pongAfter)
  }

  predicate SomePrefixFailedThrough(max: nat, evs: seq<Event>) {
    exists n :: 0 <= n <= |evs| && FailedThrough(max, evs[..n])
  }

  // A positive counter is a suffix of clean failures of that length.
  lemma {:induction false} CounterIsSuffix(max: nat, evs: seq<Event>)
    requires max >= 1
    ensures 0 <= Run(max, evs).failures <= |evs|
    ensures forall i :: |evs| - Run(max, evs).failures <= i < |evs| ==>
      evs[i].Failure? && !evs[i].pongBefore && !evs[i].pongAfter
  {
    if evs != [] {
      CounterIsSuffix(max, evs[..|evs| - 1]);
    }
  }

  lemma {:induction false} ClosingNeedsFailures(max: nat, evs: seq<Event>)
    requires max >= 1 && Run(max, evs).closed
    ensures SomePrefixFailedThrough(max, evs)
  {
    if evs != [] {
      var n := |evs| - 1;
      if Run(max, evs[..n]).closed {
        ClosingNeedsFailures(max, evs[..n]);
        var k :| 0 <= k <= n && FailedThrough(max, evs[..n][..k]);
        assert evs[..n][..k] == evs[..k];
      } else {
        CounterIsSuffix(max, evs[..n]);
        CounterBelowLimit(max, evs[..n]);
        assert evs[..|evs|] == evs;
        assert FailedThrough(max, evs);
      }
    }
  }

  lemma {:induction false} ClosedStays(max: nat, evs: seq<Event>, n: nat)
    requires n <= |evs| && Run(max, evs[..n]).closed
    ensures Run(max, evs).closed
    decreases |evs|
  {
    if n < |evs| {
      assert evs[..|evs| - 1][..n] == evs[..n];
      ClosedStays(max, evs[..|evs| - 1], n);
    } else {
      assert evs[..n] == evs;
    }
  }

  // After k clean failures the counter has grown by k or the connection has been closed.
  lemma {:induction false} CleanFailuresCount(max: nat, evs: seq<Event>, k: nat)
    requires max >= 1 && k <= |evs| && k < max
    requires forall i :: |evs| - k <= i < |evs| ==> evs[i].Failure? && !evs[i].pongBefore && !evs[i].pongAfter
    ensures Run(max, evs).closed || Run(max, evs).failures >= k
  {
    if k > 0 {
      CleanFailuresCount(max, evs[..|evs| - 1], k - 1);
    } else {
      CounterBelowLimit(max, evs);
    }
  }

  lemma FailuresClose(max: nat, evs: seq<Event>)
    requires max >= 1 && FailedThrough(max, evs)
    ensures Run(max, evs).closed
  {
    CleanFailuresCount(max, evs[..|evs| - 1], max - 1);
  }

  /** The heartbeat has closed the control connection exactly when at some point `max` heartbeats in
      a row had failed with no success, no message between them and none during their handling. */
  lemma ClosedIff(max: nat, evs: seq<Event>)
    requires max >= 1
    ensures Run(max, evs).closed <==> SomePrefixFailedThrough(max, evs)
  {
    if Run(max, evs).closed {
      ClosingNeedsFailures(max, evs);
    }
    if SomePrefixFailedThrough(max, evs) {
      var n :| 0 <= n <= |evs| && FailedThrough(max, evs[..n]);
      FailuresClose(max, evs[..n]);
      ClosedStays(max, evs, n);
    }
  }
}
