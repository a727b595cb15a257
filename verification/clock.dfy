/** `System.DateTime` as a tick count (100 ns units since 0001-01-01) with
    the range checks of its `Add*` methods and of the conversion of a
    local time to `DateTimeOffset`. The time-zone kind of a value is not
    carried; callers say which kind a time has. */
module Clock {
  import opened Prelude

  const TicksPerSecond: int := 10_000_000
  const TicksPerMinute: int := 60 * TicksPerSecond

  /** Ticks of `DateTime.MaxValue`, 9999-12-31 23:59:59.9999999. */
  const MaxTicks: int := 3_155_378_975_999_999_999

  type DateTime = t: int | 0 <= t <= MaxTicks

  /** `DateTime.MinValue`, also the default of a DateTime field. */
  const MinValue: DateTime := 0

  /** 1970-01-01 00:00:00 UTC. */
  const UnixEpoch: DateTime := 621_355_968_000_000_000

  const OutOfRangeError :=
    Exception(ArgumentOutOfRange, "The added or subtracted value results in an un-representable DateTime. (Parameter 'value')")

  /** Moves `t` by `delta` ticks; leaving the representable range throws. */
  function AddTicks(t: DateTime, delta: int): (r: Result<DateTime>)
    ensures r.Ok? <==> 0 <= t + delta <= MaxTicks
    ensures r.Ok? ==> r.value - t == delta
    ensures r.Thrown? ==> r.error.kind == ArgumentOutOfRange
  {
    if 0 <= t + delta <= MaxTicks then Ok(t + delta) else Thrown(OutOfRangeError)
  }

  /** `t.AddSeconds(s)` for a whole number of seconds. */
  function AddSeconds(t: DateTime, s: int): Result<DateTime> {
    AddTicks(t, s * TicksPerSecond)
  }

  /** `t.AddMinutes(m)` for a whole number of minutes. */
  function AddMinutes(t: DateTime, m: int): Result<DateTime> {
    AddTicks(t, m * TicksPerMinute)
  }

  const OffsetOutOfRangeError :=
    Exception(ArgumentOutOfRange, "The UTC time represented when the offset is applied must be between year 0 and 10,000. (Parameter 'offset')")

  /** The implicit conversion to `DateTimeOffset` of a DateTime whose kind
      is not UTC: `t` is read as local time in a zone `offset` ticks ahead
      of UTC, and the UTC instant that denotes must itself be a DateTime. */
  function LocalToOffset(t: DateTime, offset: int): (r: Result<DateTime>)
    ensures r.Ok? <==> 0 <= t - offset <= MaxTicks
    ensures r.Ok? ==> r.value == t
    ensures r.Thrown? ==> r.error.kind == ArgumentOutOfRange
  {
    if 0 <= t - offset <= MaxTicks then Ok(t) else Thrown(OffsetOutOfRangeError)
  }

  /** `DateTime.MinValue` of local kind converts exactly when the zone is
      not ahead of UTC (zones lie within 14 hours of it). */
  lemma MinValueLocal(offset: int)
    requires -14 * 60 * TicksPerMinute <= offset <= 14 * 60 * TicksPerMinute
    ensures LocalToOffset(MinValue, offset).Thrown? <==> offset > 0
  {
  }

  /** Whole seconds from the Unix epoch to `t`, rounded down. */
  function UnixSeconds(t: DateTime): int {
    (t - UnixEpoch) / TicksPerSecond
  }

  /** Seconds since the epoch that land inside the DateTime range. */
  predicate UnixSecondsInRange(s: int) {
    0 <= UnixEpoch + s * TicksPerSecond <= MaxTicks
  }

  /** Every DateTime, rounded down to its second, is still a DateTime: its
      epoch seconds are in range and come back as `t` minus the sub-second
      ticks. */
  lemma UnixSecondsOfDateTime(t: DateTime)
    ensures UnixSecondsInRange(UnixSeconds(t))
    ensures AddSeconds(UnixEpoch, UnixSeconds(t)) == Ok(t - (t - UnixEpoch) % TicksPerSecond)
  {
    var s := UnixSeconds(t);
    assert UnixEpoch + s * TicksPerSecond == t - (t - UnixEpoch) % TicksPerSecond;
    assert UnixEpoch % TicksPerSecond == 0;
  }
}
