# TChannel connection health checks, in Dafny

A model of the active health checks of a TChannel connection (`health.go`):
the `HealthCheckOptions` record with its enable switch and default filling,
the `healthCheck` loop that pings the connection on every tick, counts
consecutive failures and closes the connection once they reach
`FailuresToClose`, and `stophealthCheck`, which closes the loop's quit
channel exactly once however often it is called.

- `options.dfy`, module `HealthOptions`: `Options` (the three fields, as Go
  64-bit integers; durations in nanoseconds, so `time.Second` is
  1 000 000 000), `Enabled`, `WithDefaults` and their properties.
- `monitor.dfy`, module `HealthMonitor`: the loop with its ticker, `select`
  and per-probe context taken away. It is driven by a sequence of events,
  each a `Tick` carrying the outcome of that tick's ping (`Success`, the
  `ErrInvalidConnectionState` sentinel, or any other failure) or a `Quit`
  (the quit channel found closed). The calls the loop makes on its
  connection (ping, `connectionError`, `close`) are recorded as a log of
  effects. `Run` is the loop as a function of the events; `HealthCheck` is
  the loop itself, a `while` loop over a 64-bit counter with Go's `continue`
  and `return`, proved to compute `Run`. The lemmas state the properties of
  `Run`: the counter is the trailing failure streak, the connection is
  closed exactly when a streak of max(`FailuresToClose`, 1) failures occurs
  before any quit or sentinel, at most once, and as the last call.
- `stop.dfy`, module `HealthStop`: `Stop` is one call of `stophealthCheck`
  on the stop flag and the number of times the quit channel was closed;
  `Connection.StopHealthCheck` is the same call on a connection object whose
  fields it updates, with `Swap(true)` as a test-and-set and the channel
  close allowed only while the channel is open (Go panics otherwise).

Notes on behaviour the model makes explicit:
- Only zero counts as unset in `withDefaults`: a negative `Timeout` or
  `FailuresToClose` is kept. With `FailuresToClose` at or below 1 the first
  non-sentinel failure closes the connection, which is why the bounds speak
  of max(`FailuresToClose`, 1).
- The counter is a Go `int`; the model keeps it as a 64-bit value and the
  loop's proof shows that `consecutiveFailures++` never overflows, since the
  counter stays below max(`FailuresToClose`, 1) while the loop runs.
- `HealthCheck` requires `Enabled(opts)`: `time.NewTicker` panics on a
  period that is not positive, and the connection starts the loop only for
  enabled options.

## Model

| member | source | states |
|---|---|---|
| HealthOptions.EnabledOnlyByInterval | health.go:52-54 | checks are enabled exactly when the interval is positive, whatever the timeout and the failure threshold |
| HealthOptions.Enabled | health.go:52-54 | true exactly when the interval is positive |
| HealthOptions.WithDefaults | health.go:56-64 | the interval is kept; a zero timeout becomes one second and a zero threshold becomes 5; any non-zero value, negative ones included, is kept; neither field is zero afterwards |
| HealthOptions.WithDefaultsIdempotent | health.go:56-64 | filling in defaults twice gives the same options as once |
| HealthOptions.WithDefaultsFixedPoints | health.go:56-64 | the options are returned unchanged exactly when both the timeout and the threshold are non-zero |
| HealthOptions.WithDefaultsKeepsEnabled | health.go:52-64 | filling in defaults never switches health checks on or off |
| HealthMonitor.Step | health.go:76-106 | one turn of the running loop for one event: calls are only appended, a ping is made exactly on a tick, a close exactly when the turn ends the loop on the failure path, and a loop still running has the counter reset to 0 after a success or raised by one after an ordinary failure |
| HealthMonitor.Run | health.go:74-107 | the counter stays between 0 and max(FailuresToClose, 1), is below that bound while the loop runs and equals it when the loop closes the connection |
| HealthMonitor.CloseOnceAndLast | health.go:98-106 | the log holds a close call exactly when the loop ended by closing the connection; that close is the loop's last call and occurs only once |
| HealthMonitor.RunCountsTrailingFailures | health.go:74-100 | while the loop runs, every event so far was a success or an ordinary failure and the counter equals the length of the trailing run of failures; a quit or sentinel exit is always caused by such an event |
| HealthMonitor.CloseIffStreakReached | health.go:98-106 | the loop closes the connection if and only if some prefix of the events, with no quit and no sentinel, ends in max(FailuresToClose, 1) consecutive failures |
| HealthMonitor.CloseImpliesStreak | health.go:98-105 | whenever the loop has closed the connection, some prefix of the events without quit or sentinel ends in max(FailuresToClose, 1) consecutive failures |
| HealthMonitor.StreakImpliesClose | health.go:98-105 | a prefix without quit or sentinel that ends in max(FailuresToClose, 1) consecutive failures always makes the loop close the connection |
| HealthMonitor.EndedRunIsFinal | health.go:79-105 | once the loop has returned, later events change neither the counter nor the calls made |
| HealthMonitor.QuitEndsQuietly | health.go:76-79 | a quit ends a running loop with no probe, no error report and no close, the counter unchanged |
| HealthMonitor.QuitBeforeTickEndsQuietly | health.go:74-79 | a quit before the first tick ends the loop having made no call at all |
| HealthMonitor.SuccessResetsCounter | health.go:86-89 | a successful ping sets the counter to exactly 0 and the loop keeps running |
| HealthMonitor.SentinelEndsQuietly | health.go:92-96 | the invalid-connection sentinel ends the loop with the counter unchanged and no report and no close after the ping |
| HealthMonitor.FailureReportsAndCounts | health.go:98-106 | any other failure reports exactly one connection error, adds one to the counter, and closes and ends the loop if and only if the new count is at least FailuresToClose |
| HealthMonitor.ThreeFailuresScenario | health.go:74-106 | with threshold 3, the probes fail, fail, succeed, fail, fail, fail give counter values 1, 2, 0, 1, 2, 3; the loop is still running after the fifth probe and closes the connection after the sixth |
| HealthMonitor.HealthCheck | health.go:68-108 | the loop over a 64-bit counter, with its early returns, computes exactly the state Run gives for the same events |
| HealthStop.Stop | health.go:110-118 | after a call the flag is set; the first call closes the quit channel once more, any later call changes nothing |
| HealthStop.StopIdempotent | health.go:110-118 | any number N of calls, N at least 1, has the effect of a single call |
| HealthStop.StopClosesQuitOnce | health.go:110-118 | on a connection never stopped, N at least 1 calls leave the flag set and the quit channel closed exactly once |
| HealthStop.Connection.SwapStopped | health.go:111 | the flag is set and its previous value is returned |
| HealthStop.Connection.CloseQuit | health.go:117 | the quit channel is closed, which is allowed only while it is still open |
| HealthStop.Connection.StopHealthCheck | health.go:110-118 | the connection's flag and channel change as Stop says, and the channel never gets closed twice |

## Left out

- The ticker, its `Stop`, and the `select` between a tick and the quit channel: real-time scheduling is replaced by the event sequence, which also fixes the order the `select` would pick when both are ready.
- The per-probe `context.WithTimeout` and its `defer cancel()`: the `Timeout` field is carried in `Options` but has no effect in the model. As written, each deferred cancel is released only when the whole loop returns, so one pending cancel accumulates per probe; a sequential model of the loop's calls cannot observe this.
- `c.ping` itself: a network round trip whose only modelled part is its three-way outcome.
- What `connectionError`, `close`, `LogFields`, `ErrField`, `fmt.Errorf` and `c.log.Debug` do: logging and connection teardown live outside this file; the first two are recorded only as effects, the debug log line of `stophealthCheck` not at all.
- The atomicity of `healthCheckStopped.Swap` and callers racing `stophealthCheck` against each other or against the loop's own exit: calls are modelled one after the other.
- The link between the stop latch and the loop: a `Quit` event stands for the loop finding the quit channel closed; the model does not derive the event sequence from calls to `stophealthCheck`.
- Whether the connection applies `withDefaults` before it reads its options, and the check that it starts the loop only when enabled: both happen in connection code that is not part of this model.
- The `connID` parameter of `healthCheck`: it exists for stack traces and has no behavioural effect.
