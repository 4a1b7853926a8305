/** The health-check loop of a connection (health.go:66-108), with the ticker,
    the `select` and the per-probe context taken away: the loop is driven by a
    sequence of events, each either a tick carrying the outcome of that tick's
    probe or the arrival of the quit signal. */
module HealthMonitor {
  import opened HealthOptions

  /** Outcome of one `c.ping`: no error, the `ErrInvalidConnectionState`
      sentinel, or any other error (a timeout among them). */
  datatype ProbeResult = Success | InvalidConnection | OtherFailure

  /** What the `select` hands the loop: a tick, whose probe had the given
      outcome, or the closed quit channel. */
  datatype Event = Tick(result: ProbeResult) | Quit

  /** Calls the loop makes on its connection: a probe, a
      `connectionError("healthCheck", …)` report, a `close` with the
      "health check failure" reason. */
  datatype Effect = Ping | ConnectionError | Close

  /** Why the loop is no longer running, if it is not. */
  datatype Status = Running | QuitReceived | ConnectionInvalid | ClosedUnhealthy

  /** The loop's state: the `consecutiveFailures` counter, whether and how it
      ended, and the calls it has made so far, oldest first. */
  datatype Monitor = Monitor(failures: int, status: Status, effects: seq<Effect>)

  const Start := Monitor(0, Running, [])

  function Max(a: int, b: int): int {
    if a < b then b else a
  }

  /** One turn of the loop for a running monitor, `threshold` being
      `FailuresToClose`. Calls are only appended to the log, a probe is made
      exactly on a tick, a close is made exactly when the turn ends the loop
      on the failure path, and a loop that keeps running has either just seen
      a success (counter 0) or one more ordinary failure. */
  function Step(threshold: int, m: Monitor, e: Event): (r: Monitor)
    requires m.status == Running
    ensures |m.effects| <= |r.effects| && r.effects[..|m.effects|] == m.effects
    ensures |r.effects| > |m.effects| <==> e.Tick?
    ensures Close in r.effects[|m.effects|..] <==> r.status == ClosedUnhealthy
    ensures r.status == Running ==>
              r.failures == if e == Tick(Success) then 0 else m.failures + 1
  {
    match e
    case Quit => m.(status := QuitReceived)
    case Tick(Success) => m.(failures := 0, effects := m.effects + [Ping])
    case Tick(InvalidConnection) => m.(status := ConnectionInvalid, effects := m.effects + [Ping])
    case Tick(OtherFailure) =>
      var n := m.failures + 1;
      if n >= threshold then Monitor(n, ClosedUnhealthy, m.effects + [Ping, ConnectionError, Close])
      else Monitor(n, Running, m.effects + [Ping, ConnectionError])
  }

  /** The state after the loop has been offered `events`; once it has ended,
      later events are not consumed. The counter stays within
      max(`FailuresToClose`, 1), is below it while the loop runs and equals it
      exactly when the loop closes the connection. */
  function Run(threshold: int, events: seq<Event>): (m: Monitor)
    ensures 0 <= m.failures <= Max(threshold, 1)
    ensures m.status == Running ==> m.failures < Max(threshold, 1)
    ensures m.status == ClosedUnhealthy ==> m.failures == Max(threshold, 1)
    decreases |events|
  {
    if events == [] then Start
    else
      var before := Run(threshold, events[..|events| - 1]);
      if before.status != Running then before
      else Step(threshold, before, events[|events| - 1])
  }

  /** The loop calls `close` only on the exit that closes the connection,
      at most once, and as its last call. */
  lemma {:induction false} CloseOnceAndLast(threshold: int, events: seq<Event>)
    ensures Close in Run(threshold, events).effects <==> Run(threshold, events).status == ClosedUnhealthy
    ensures var log := Run(threshold, events).effects;
            Close in log ==> log[|log| - 1] == Close && Close !in log[..|log| - 1]
    decreases |events|
  {
    if events != [] {
      CloseOnceAndLast(threshold, events[..|events| - 1]);
    }
  }

  /** The events that do not end the loop by themselves. */
  predicate IsProbeOutcome(e: Event) {
    e == Tick(Success) || e == Tick(OtherFailure)
  }

  predicate OnlyProbeOutcomes(events: seq<Event>) {
    forall i :: 0 <= i < |events| ==> IsProbeOutcome(events[i])
  }

  /** Length of the run of non-sentinel probe failures at the end of `events`. */
  function TrailingFailures(events: seq<Event>): nat {
    if events == [] then 0
    else if events[|events| - 1] == Tick(OtherFailure) then TrailingFailures(events[..|events| - 1]) + 1
    else 0
  }

  /** The first `k` events hold no quit and no sentinel, and end with a
      failure streak long enough to close the connection. */
  predicate StreakReachedAt(threshold: int, events: seq<Event>, k: int) {
    0 <= k <= |events| && OnlyProbeOutcomes(events[..k]) && TrailingFailures(events[..k]) >= Max(threshold, 1)
  }

  /** While the loop runs, every event it consumed was a probe outcome and
      the counter is the length of the trailing failure streak; a quit or a
      sentinel ending is always caused by such an event. */
  lemma {:induction false} RunCountsTrailingFailures(threshold: int, events: seq<Event>)
    ensures Run(threshold, events).status == Running ==>
              OnlyProbeOutcomes(events) && Run(threshold, events).failures == TrailingFailures(events)
    ensures Run(threshold, events).status in {QuitReceived, ConnectionInvalid} ==> !OnlyProbeOutcomes(events)
    decreases |events|
  {
    if events != [] {
      var prefix := events[..|events| - 1];
      RunCountsTrailingFailures(threshold, prefix);
      assert forall i :: 0 <= i < |prefix| ==> prefix[i] == events[i];
    }
  }

  /** Extending the events by one keeps every shorter prefix as it was. */
  lemma StreakReachedInPrefix(threshold: int, events: seq<Event>, k: int)
    requires 0 <= k < |events|
    ensures StreakReachedAt(threshold, events, k) == StreakReachedAt(threshold, events[..|events| - 1], k)
  {
    assert events[..k] == events[..|events| - 1][..k];
  }

  lemma OnlyProbeOutcomesSnoc(events: seq<Event>)
    requires events != []
    ensures OnlyProbeOutcomes(events) <==>
              OnlyProbeOutcomes(events[..|events| - 1]) && IsProbeOutcome(events[|events| - 1])
  {
    var prefix := events[..|events| - 1];
    assert forall i :: 0 <= i < |prefix| ==> prefix[i] == events[i];
  }

  /** A close is always preceded by a streak long enough to cause it. */
  lemma {:induction false} CloseImpliesStreak(threshold: int, events: seq<Event>)
    requires Run(threshold, events).status == ClosedUnhealthy
    ensures exists k :: StreakReachedAt(threshold, events, k)
    decreases |events|
  {
    var n := |events|;
    var prefix := events[..n - 1];
    if Run(threshold, prefix).status == ClosedUnhealthy {
      CloseImpliesStreak(threshold, prefix);
      var k :| StreakReachedAt(threshold, prefix, k);
      StreakReachedInPrefix(threshold, events, k);
    } else {
      RunCountsTrailingFailures(threshold, prefix);
      OnlyProbeOutcomesSnoc(events);
      assert events[..n] == events;
      assert StreakReachedAt(threshold, events, n);
    }
  }

  /** A streak long enough, free of quits and sentinels, always closes. */
  lemma StreakImpliesClose(threshold: int, events: seq<Event>, k: int)
    requires StreakReachedAt(threshold, events, k)
    ensures Run(threshold, events).status == ClosedUnhealthy
  {
    RunCountsTrailingFailures(threshold, events[..k]);
    EndedRunIsFinal(threshold, events, k);
  }

  /** The loop closes the connection exactly when some prefix of the events,
      free of quits and sentinels, ends in a streak of max(`FailuresToClose`, 1)
      failures. */
  lemma CloseIffStreakReached(threshold: int, events: seq<Event>)
    ensures Run(threshold, events).status == ClosedUnhealthy <==>
              exists k :: StreakReachedAt(threshold, events, k)
  {
    if Run(threshold, events).status == ClosedUnhealthy {
      CloseImpliesStreak(threshold, events);
    }
    if k :| StreakReachedAt(threshold, events, k) {
      StreakImpliesClose(threshold, events, k);
    }
  }

  /** Once the loop has ended, further events change nothing. */
  lemma {:induction false} EndedRunIsFinal(threshold: int, events: seq<Event>, k: nat)
    requires k <= |events|
    requires Run(threshold, events[..k]).status != Running
    ensures Run(threshold, events) == Run(threshold, events[..k])
    decreases |events| - k
  {
    if k < |events| {
      assert events[..k + 1][..k] == events[..k];
      EndedRunIsFinal(threshold, events, k + 1);
    } else {
      assert events[..k] == events;
    }
  }

  /** A quit ends a running loop at once: no probe, no report, no close, and
      the counter as it was. */
  lemma QuitEndsQuietly(threshold: int, events: seq<Event>)
    requires Run(threshold, events).status == Running
    ensures Run(threshold, events + [Quit]) == Run(threshold, events).(status := QuitReceived)
  {
    assert (events + [Quit])[..|events|] == events;
  }

  /** A quit that arrives before any tick ends the loop with no probe, no
      report and no close. */
  lemma QuitBeforeTickEndsQuietly(threshold: int, rest: seq<Event>)
    ensures Run(threshold, [Quit] + rest) == Monitor(0, QuitReceived, [])
  {
    var events := [Quit] + rest;
    EndedRunIsFinal(threshold, events, 1);
    assert events[..1] == [Quit];
  }

  /** A successful probe resets the counter to zero and the loop goes on. */
  lemma SuccessResetsCounter(threshold: int, events: seq<Event>)
    requires Run(threshold, events).status == Running
    ensures Run(threshold, events + [Tick(Success)]).failures == 0
    ensures Run(threshold, events + [Tick(Success)]).status == Running
    ensures Run(threshold, events + [Tick(Success)]).effects == Run(threshold, events).effects + [Ping]
  {
    assert (events + [Tick(Success)])[..|events|] == events;
  }

  /** The sentinel ends the loop with the counter unchanged and nothing done
      after the probe: no report and no close. */
  lemma SentinelEndsQuietly(threshold: int, events: seq<Event>)
    requires Run(threshold, events).status == Running
    ensures Run(threshold, events + [Tick(InvalidConnection)]).failures == Run(threshold, events).failures
    ensures Run(threshold, events + [Tick(InvalidConnection)]).status == ConnectionInvalid
    ensures Run(threshold, events + [Tick(InvalidConnection)]).effects == Run(threshold, events).effects + [Ping]
  {
    assert (events + [Tick(InvalidConnection)])[..|events|] == events;
  }

  /** Any other failure is reported once and counted; the connection is
      closed, and the loop ends, exactly when the new count reaches
      `FailuresToClose`. */
  lemma FailureReportsAndCounts(threshold: int, events: seq<Event>)
    requires Run(threshold, events).status == Running
    ensures Run(threshold, events + [Tick(OtherFailure)]).failures == Run(threshold, events).failures + 1
    ensures Run(threshold, events + [Tick(OtherFailure)]).effects ==
              Run(threshold, events).effects + [Ping, ConnectionError] +
              (if Run(threshold, events).failures + 1 >= threshold then [Close] else [])
    ensures Run(threshold, events + [Tick(OtherFailure)]).status ==
              if Run(threshold, events).failures + 1 >= threshold then ClosedUnhealthy else Running
  {
    assert (events + [Tick(OtherFailure)])[..|events|] == events;
  }

  /** With `FailuresToClose` = 3, the probes fail, fail, succeed, fail, fail,
      fail: the counter goes 1, 2, 0, 1, 2, 3, the loop is still running (so
      has not closed) after the fifth probe, and closes the connection after
      the sixth. */
  lemma ThreeFailuresScenario()
    ensures Run(3, [Tick(OtherFailure)]).failures == 1
    ensures Run(3, [Tick(OtherFailure), Tick(OtherFailure)]).failures == 2
    ensures Run(3, [Tick(OtherFailure), Tick(OtherFailure), Tick(Success)]).failures == 0
    ensures Run(3, [Tick(OtherFailure), Tick(OtherFailure), Tick(Success),
                    Tick(OtherFailure)]).failures == 1
    ensures Run(3, [Tick(OtherFailure), Tick(OtherFailure), Tick(Success),
                    Tick(OtherFailure), Tick(OtherFailure)]).failures == 2
    ensures Run(3, [Tick(OtherFailure), Tick(OtherFailure), Tick(Success),
                    Tick(OtherFailure), Tick(OtherFailure)]).status == Running
    ensures Run(3, [Tick(OtherFailure), Tick(OtherFailure), Tick(Success),
                    Tick(OtherFailure), Tick(OtherFailure), Tick(OtherFailure)]).failures == 3
    ensures Run(3, [Tick(OtherFailure), Tick(OtherFailure), Tick(Success),
                    Tick(OtherFailure), Tick(OtherFailure), Tick(OtherFailure)]).status == ClosedUnhealthy
  {
    var fail, ok := Tick(OtherFailure), Tick(Success);
    assert Run(3, [fail]).failures == 1 && Run(3, [fail]).status == Running by {
      FailureReportsAndCounts(3, []);
      assert [] + [fail] == [fail];
    }
    assert Run(3, [fail, fail]).failures == 2 && Run(3, [fail, fail]).status == Running by {
      FailureReportsAndCounts(3, [fail]);
      assert [fail] + [fail] == [fail, fail];
    }
    assert Run(3, [fail, fail, ok]).failures == 0 && Run(3, [fail, fail, ok]).status == Running by {
      SuccessResetsCounter(3, [fail, fail]);
      assert [fail, fail] + [ok] == [fail, fail, ok];
    }
    assert Run(3, [fail, fail, ok, fail]).failures == 1 &&
           Run(3, [fail, fail, ok, fail]).status == Running by {
      FailureReportsAndCounts(3, [fail, fail, ok]);
      assert [fail, fail, ok] + [fail] == [fail, fail, ok, fail];
    }
    assert Run(3, [fail, fail, ok, fail, fail]).failures == 2 &&
           Run(3, [fail, fail, ok, fail, fail]).status == Running by {
      FailureReportsAndCounts(3, [fail, fail, ok, fail]);
      assert [fail, fail, ok, fail] + [fail] == [fail, fail, ok, fail, fail];
    }
    assert Run(3, [fail, fail, ok, fail, fail, fail]).failures == 3 &&
           Run(3, [fail, fail, ok, fail, fail, fail]).status == ClosedUnhealthy by {
      FailureReportsAndCounts(3, [fail, fail, ok, fail, fail]);
      assert [fail, fail, ok, fail, fail] + [fail] == [fail, fail, ok, fail, fail, fail];
    }
  }

  /** The loop of `healthCheck` on the events offered to it. The ticker can
      only be created with a positive period, so the loop is started only for
      enabled options. */
  method HealthCheck(opts: Options, events: seq<Event>) returns (m: Monitor)
    requires Enabled(opts)
    ensures m == Run(opts.failuresToClose as int, events)
  {
    ghost var threshold := opts.failuresToClose as int;
    var consecutiveFailures: int64 := 0;
    var effects: seq<Effect> := [];
    var i := 0;
    while i < |events|
      invariant 0 <= i <= |events|
      invariant Run(threshold, events[..i]) == Monitor(consecutiveFailures as int, Running, effects)
    {
      var e := events[i];
      assert events[..i + 1][..i] == events[..i];
      i := i + 1;
      match e {
        case Quit =>
          m := Monitor(consecutiveFailures as int, QuitReceived, effects);
          EndedRunIsFinal(threshold, events, i);
          return;
        case Tick(result) =>
          effects := effects + [Ping];
          if result == Success {
            consecutiveFailures := 0;
            continue;
          }
          if result == InvalidConnection {
            m := Monitor(consecutiveFailures as int, ConnectionInvalid, effects);
            EndedRunIsFinal(threshold, events, i);
            return;
          }
          effects := effects + [ConnectionError];
          consecutiveFailures := consecutiveFailures + 1;
          if consecutiveFailures >= opts.failuresToClose {
            effects := effects + [Close];
            m := Monitor(consecutiveFailures as int, ClosedUnhealthy, effects);
            EndedRunIsFinal(threshold, events, i);
            return;
          }
      }
    }
    assert events[..i] == events;
    m := Monitor(consecutiveFailures as int, Running, effects);
  }
}
