/** Stopping the health checks of a connection (health.go:110-118): a flag
    swapped to true guards the single close of the quit channel. */
module HealthStop {

  /** The stop flag and how many times the quit channel has been closed. */
  datatype Latch = Latch(stopped: bool, quitCloses: nat)

  /** One call to `stophealthCheck`: the first call sets the flag and closes
      the channel; any later call finds the flag set and does nothing. */
  function Stop(l: Latch): (r: Latch)
    ensures r.stopped
    ensures l.stopped ==> r == l
    ensures !l.stopped ==> r.quitCloses == l.quitCloses + 1
  {
    if l.stopped then l else Latch(true, l.quitCloses + 1)
  }

  /** `n` calls to `stophealthCheck`, one after the other. */
  function StopTimes(l: Latch, n: nat): Latch {
    if n == 0 then l else Stop(StopTimes(l, n - 1))
  }

  /** Any number of calls, one or more, has the effect of a single call. */
  lemma {:induction false} StopIdempotent(l: Latch, n: nat)
    requires n >= 1
    ensures StopTimes(l, n) == Stop(l)
  {
    if n > 1 {
      StopIdempotent(l, n - 1);
    }
  }

  /** On a connection whose checks were never stopped, one or more calls
      leave the flag set and the quit channel closed exactly once. */
  lemma StopClosesQuitOnce(n: nat)
    requires n >= 1
    ensures StopTimes(Latch(false, 0), n) == Latch(true, 1)
  {
    StopIdempotent(Latch(false, 0), n);
  }

  /** The part of a connection that `stophealthCheck` touches. */
  class Connection {
    var healthCheckStopped: bool
    var quitCloses: nat

    function State(): Latch
      reads this
    {
      Latch(healthCheckStopped, quitCloses)
    }

    /** The quit channel has been closed once if the flag is set, and not at
        all otherwise. */
    ghost predicate Valid()
      reads this
    {
      quitCloses == if healthCheckStopped then 1 else 0
    }

    constructor ()
      ensures Valid() && State() == Latch(false, 0)
    {
      healthCheckStopped := false;
      quitCloses := 0;
    }

    /** `healthCheckStopped.Swap(true)`: sets the flag and returns its
        previous value. */
    method SwapStopped() returns (previous: bool)
      modifies this`healthCheckStopped
      ensures previous == old(healthCheckStopped) && healthCheckStopped
    {
      previous := healthCheckStopped;
      healthCheckStopped := true;
    }

    /** `close(healthCheckQuit)`; closing a channel that is already closed
        panics, so it may be called only while the channel is open. */
    method CloseQuit()
      requires quitCloses == 0
      modifies this`quitCloses
      ensures quitCloses == 1
    {
      quitCloses := quitCloses + 1;
    }

    method StopHealthCheck()
      requires Valid()
      modifies this
      ensures Valid()
      ensures State() == Stop(old(State()))
    {
      var alreadyStopped := SwapStopped();
      if alreadyStopped {
        return;
      }
      CloseQuit();
    }
  }
}
