/** Instants, durations and their proto forms, and the microsecond columns derived from them. */
module Timestamps {
  import opened Wrappers

  /** time.Time: nanoseconds since the Unix epoch (location and monotonic reading left out). */
  type Instant = int

  /** time.Time{}: midnight, 1 January of year 1. */
  const ZERO_INSTANT: Instant := -62_135_596_800 * NANOS_PER_SECOND
  const NANOS_PER_SECOND := 1_000_000_000

  /** timestamppb.Timestamp. */
  datatype Timestamp = Timestamp(seconds: int, nanos: int)

  /** timestamppb.New. */
  function NewTimestamp(t: Instant): Timestamp {
    Timestamp(t / NANOS_PER_SECOND, t % NANOS_PER_SECOND)
  }

  /** Timestamp.AsTime. */
  function AsTime(ts: Timestamp): Instant {
    ts.seconds * NANOS_PER_SECOND + ts.nanos
  }

  /** timestampOrNil: the zero time is stored as no timestamp. */
  function TimestampOrNil(t: Instant): Option<Timestamp> {
    if t == ZERO_INSTANT then None else Some(NewTimestamp(t))
  }

  /** timeFromProto. */
  function TimeFromProto(ts: Option<Timestamp>): Instant {
    match ts case None => ZERO_INSTANT case Some(x) => AsTime(x)
  }

  /** Every instant, down to the nanosecond, survives storage; so does its absence. Before the
      epoch the seconds are rounded down, and the nanos are never negative. */
  lemma {:induction false} InstantRoundTrip(t: Instant)
    ensures TimeFromProto(TimestampOrNil(t)) == t
    ensures TimestampOrNil(t).None? <==> t == ZERO_INSTANT
    ensures AsTime(NewTimestamp(t)) == t && 0 <= NewTimestamp(t).nanos < 1_000_000_000
  {
  }

  /** durationpb.Duration. */
  datatype Duration = Duration(seconds: int, nanos: int)

  /** durationToProto: Go division truncates, so seconds and nanos share the sign. */
  function DurationToProto(d: int): Option<Duration> {
    if d == 0 then None
    else if d > 0 then Some(Duration(d / NANOS_PER_SECOND, d % NANOS_PER_SECOND))
    else Some(Duration(-(-d / NANOS_PER_SECOND), -(-d % NANOS_PER_SECOND)))
  }

  /** Duration.AsDuration, which reads an absent duration as zero. */
  function AsDuration(d: Option<Duration>): int {
    match d case None => 0 case Some(x) => x.seconds * NANOS_PER_SECOND + x.nanos
  }

  /** Every duration comes back; seconds and nanos never have opposite signs. */
  lemma {:induction false} DurationRoundTrip(d: int)
    ensures AsDuration(DurationToProto(d)) == d
    ensures DurationToProto(d).None? <==> d == 0
    ensures d > 0 ==> DurationToProto(d).value.seconds >= 0 && 0 <= DurationToProto(d).value.nanos < 1_000_000_000
    ensures d < 0 ==> DurationToProto(d).value.seconds <= 0 && -1_000_000_000 < DurationToProto(d).value.nanos <= 0
  {
  }

  // The stored columns

  /** The generated timestamp column: whole seconds plus nanos floored to microseconds. */
  function Column(ts: Timestamp): int {
    ts.seconds * 1_000_000 + ts.nanos / 1_000
  }

  /** after.Truncate(time.Microsecond), in microseconds. */
  function TruncateMicros(t: Instant): int {
    t / 1_000
  }

  lemma {:induction false} ColumnFloors(ts: Timestamp)
    ensures Column(ts) == TruncateMicros(AsTime(ts))
  {
  }
}
