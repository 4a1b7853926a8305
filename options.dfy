/** Health-check configuration of a TChannel connection: the options record,
    the enable switch and the filling-in of defaults (health.go:30-64). */
module HealthOptions {

  /** Go's 64-bit signed integer: the representation of both `time.Duration`
      and `int` on the platforms the transport runs on. */
  newtype int64 = x: int | -0x8000_0000_0000_0000 <= x < 0x8000_0000_0000_0000

  /** `time.Second`, a duration counted in nanoseconds. */
  const Second: int64 := 1_000_000_000

  const DefaultTimeout: int64 := Second
  const DefaultFailuresToClose: int64 := 5

  /** `HealthCheckOptions`: the period between probes, the deadline of one
      probe (both in nanoseconds) and the length of the failure streak that
      closes the connection. */
  datatype Options = Options(interval: int64, timeout: int64, failuresToClose: int64)

  /** Health checks run only when a positive period is configured. */
  predicate Enabled(o: Options)
    ensures Enabled(o) <==> 0 < o.interval
  {
    o.interval > 0
  }

  /** A copy of `o` in which an unset (zero) timeout and an unset (zero)
      failure threshold are replaced by their defaults. Only the value zero
      counts as unset: negative values are kept as they are. */
  function WithDefaults(o: Options): (r: Options)
    ensures r.interval == o.interval
    ensures r.timeout != 0 && r.failuresToClose != 0
    ensures o.timeout != 0 ==> r.timeout == o.timeout
    ensures o.timeout == 0 ==> r.timeout == DefaultTimeout
    ensures o.failuresToClose != 0 ==> r.failuresToClose == o.failuresToClose
    ensures o.failuresToClose == 0 ==> r.failuresToClose == DefaultFailuresToClose
  {
    var withTimeout := if o.timeout == 0 then o.(timeout := DefaultTimeout) else o;
    if withTimeout.failuresToClose == 0
    then withTimeout.(failuresToClose := DefaultFailuresToClose)
    else withTimeout
  }

  /** Whether checks are enabled depends on the interval alone. */
  lemma EnabledOnlyByInterval(o: Options, timeout: int64, failuresToClose: int64)
    ensures Enabled(o) <==> o.interval > 0
    ensures Enabled(o.(timeout := timeout, failuresToClose := failuresToClose)) == Enabled(o)
  {
  }

  /** Filling in defaults never switches health checks on or off. */
  lemma WithDefaultsKeepsEnabled(o: Options)
    ensures Enabled(WithDefaults(o)) == Enabled(o)
  {
  }

  /** Filling in defaults a second time changes nothing. */
  lemma WithDefaultsIdempotent(o: Options)
    ensures WithDefaults(WithDefaults(o)) == WithDefaults(o)
  {
  }

  /** The options left untouched are exactly those with both defaults already set. */
  lemma WithDefaultsFixedPoints(o: Options)
    ensures WithDefaults(o) == o <==> o.timeout != 0 && o.failuresToClose != 0
  {
  }
}
