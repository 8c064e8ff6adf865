/** The two clock-time codecs of the system agree: the ingest script turns a GTFS `HH:MM:SS`
    string into seconds past midnight (scripts/ingest-static.ts), and the departure service turns
    seconds past midnight back into `HH:MM:SS` (packages/api/src/services/sse-departures.ts). */
module TimeRoundTrip {
  import opened Decimal
  import IngestStatic
  import SseDepartures
  import HotCache

  /** Formatting and then parsing gives back the seconds, for every non-negative input,
      including hours of 24 and more. */
  lemma SecondsRoundTrip(s: int)
    requires s >= 0
    ensures IngestStatic.TimeToSeconds(SseDepartures.SecondsToTimeString(s)) == s
  {
    var h: nat, m: nat, sec: nat := s / 3600, (s % 3600) / 60, s % 60;
    FieldsOfSeconds(s, h, m, sec);
    ParseFields(SseDepartures.SecondsToTimeString(s), h, m, sec);
  }

  /** The formatted string of `s` is the padded quotient and remainders of `s`. */
  lemma FieldsOfSeconds(s: int, h: nat, m: nat, sec: nat)
    requires s >= 0 && h == s / 3600 && m == (s % 3600) / 60 && sec == s % 60
    ensures h * 3600 + m * 60 + sec == s
    ensures SseDepartures.SecondsToTimeString(s) == SseDepartures.Field(h) + ":" + SseDepartures.Field(m) + ":" + SseDepartures.Field(sec)
  {
    SseDepartures.HmsOfSeconds(s);
    SseDepartures.SecondsSplit(s);
    SseDepartures.JoinNatFields(h, m, sec);
  }

  /** A canonical time string: zero-padded hours (any number of them), and two-digit minutes and
      seconds below 60. */
  ghost predicate Canonical(t: string) {
    exists h: nat, m: nat, sec: nat | m < 60 && sec < 60 ::
      t == SseDepartures.Field(h) + ":" + SseDepartures.Field(m) + ":" + SseDepartures.Field(sec)
  }

  /** Parsing and then formatting gives back a canonical string: the string of any hours, and
      minutes and seconds below 60, parses to a non-negative `n` that formats to the same string. */
  lemma CanonicalRoundTrip(t: string, h: nat, m: nat, sec: nat, n: int)
    requires m < 60 && sec < 60
    requires t == SseDepartures.Field(h) + ":" + SseDepartures.Field(m) + ":" + SseDepartures.Field(sec)
    requires n == IngestStatic.TimeToSeconds(t)
    ensures n >= 0
    ensures SseDepartures.SecondsToTimeString(n) == t
  {
    ParseFields(t, h, m, sec);
    FormatFields(t, n, h, m, sec);
  }

  lemma ParseFields(t: string, h: nat, m: nat, sec: nat)
    requires t == SseDepartures.Field(h) + ":" + SseDepartures.Field(m) + ":" + SseDepartures.Field(sec)
    ensures IngestStatic.TimeToSeconds(t) == h * 3600 + m * 60 + sec
  {
    var x, y, z := SseDepartures.Field(h), SseDepartures.Field(m), SseDepartures.Field(sec);
    IngestStatic.TimeToSecondsOfFields(x, y, z);
  }

  lemma FormatFields(t: string, n: int, h: nat, m: nat, sec: nat)
    requires m < 60 && sec < 60 && n == h * 3600 + m * 60 + sec
    requires t == SseDepartures.Field(h) + ":" + SseDepartures.Field(m) + ":" + SseDepartures.Field(sec)
    ensures SseDepartures.SecondsToTimeString(n) == t
  {
    SseDepartures.HmsDecomposition(n, h, m, sec);
    SseDepartures.JoinNatFields(h, m, sec);
  }

  /** Every formatted non-negative time is canonical. */
  lemma FormattedIsCanonical(s: int)
    requires s >= 0
    ensures Canonical(SseDepartures.SecondsToTimeString(s))
  {
    SseDepartures.TimeStringFields(s);
  }

  /** The real-time string of a departure is its scheduled string moved by the delay: read back
      as seconds, the two differ by exactly `delaySeconds`. */
  lemma RealtimeMinusScheduled(row: SseDepartures.StopTimeRow, delays: map<string, HotCache.TripDelay>)
    requires row.departureTime >= 0
    requires row.departureTime + SseDepartures.DelayFor(delays, row.tripId) >= 0
    ensures var d := SseDepartures.ToDeparture(row, delays);
            IngestStatic.TimeToSeconds(d.scheduledDeparture) == row.departureTime
            && (d.realtimeDeparture.Some? ==>
                  IngestStatic.TimeToSeconds(d.realtimeDeparture.value) - IngestStatic.TimeToSeconds(d.scheduledDeparture)
                  == d.delaySeconds)
  {
    var d := SseDepartures.ToDeparture(row, delays);
    SseDepartures.DepartureTimes(row, delays);
    ReadBack(row.departureTime, d.scheduledDeparture);
    if d.realtimeDeparture.Some? {
      ShiftedReadBack(row.departureTime, SseDepartures.DelayFor(delays, row.tripId), d.realtimeDeparture.value);
    }
  }

  /** `SecondsRoundTrip` for a string already known to be the formatted value. */
  lemma ReadBack(x: int, t: string)
    requires x >= 0 && t == SseDepartures.SecondsToTimeString(x)
    ensures IngestStatic.TimeToSeconds(t) == x
  {
    SecondsRoundTrip(x);
  }

  lemma ShiftedReadBack(seconds: int, delay: int, t: string)
    requires seconds + delay >= 0 && t == SseDepartures.ShiftedTime(seconds, delay)
    ensures IngestStatic.TimeToSeconds(t) == seconds + delay
  {
    ReadBack(SseDepartures.Shift(seconds, delay), t);
  }
}
