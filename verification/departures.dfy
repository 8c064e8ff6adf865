/** Departure reconciliation (packages/api/src/services/sse-departures.ts): the scheduled
    stop-times of one stop inside a time window are merged with the cached trip delays, each delay
    is mapped to a status, and the result is fingerprinted for change detection. */
module SseDepartures {
  import opened Wrappers
  import opened Decimal
  import opened Seqs
  import HotCache

  // ---------------------------------------------------------------------------
  // secondsToTimeString
  // ---------------------------------------------------------------------------

  /** JavaScript's `a % b` for b > 0: the remainder takes the sign of `a`. */
  function TruncRem(a: int, b: int): (r: int)
    requires b > 0
    ensures a >= 0 ==> r == a % b
    ensures -b < r < b
  {
    if a >= 0 then a % b else -((-a) % b)
  }

  /** Three numeric fields joined by colons, each rendered by `toString()` and `padStart(2, "0")`. */
  function JoinFields(h: int, m: int, s: int): string
  {
    PadStart2(IntToString(h)) + ":" + PadStart2(IntToString(m)) + ":" + PadStart2(IntToString(s))
  }

  /** Seconds past midnight as `HH:MM:SS`. Hours are not wrapped at 24. JavaScript semantics
      are followed for negative input too: `Math.floor` for the quotient, a truncating `%`. */
  function SecondsToTimeString(seconds: int): (t: string)
    ensures |t| >= 8
  {
    // Math.floor(seconds / 3600): Dafny's division by a positive divisor already rounds down.
    JoinFields(seconds / 3600, TruncRem(seconds, 3600) / 60, TruncRem(seconds, 60))
  }

  /** Two-digit (at least) zero-padded decimal field. */
  function Field(n: nat): (s: string)
    ensures |s| >= 2 && IsDigits(s) && Value(s) == n
    ensures n < 100 ==> |s| == 2
  {
    PadStart2Value(NatToString(n));
    NatToStringLength(n);
    PadStart2(NatToString(n))
  }

  /** For s >= 0 the string is hours, minutes and seconds, each zero-padded to at least two
      digits, minutes and seconds in [0, 59], and together they add up to `s`. */
  lemma TimeStringFields(s: int)
    requires s >= 0
    ensures exists h: nat, m: nat, sec: nat ::
              && m < 60 && sec < 60 && h * 3600 + m * 60 + sec == s && h == s / 3600
              && SecondsToTimeString(s) == Field(h) + ":" + Field(m) + ":" + Field(sec)
  {
    var h: nat, m: nat, sec: nat := s / 3600, (s % 3600) / 60, s % 60;
    HmsOfSeconds(s);
    SecondsSplit(s);
    JoinNatFields(h, m, sec);
    assert SecondsToTimeString(s) == Field(h) + ":" + Field(m) + ":" + Field(sec);
  }

  /** The three fields of a non-negative number of seconds add back up to it. */
  lemma HmsOfSeconds(s: int)
    requires s >= 0
    ensures (s % 3600) / 60 < 60 && s % 60 < 60
    ensures (s / 3600) * 3600 + ((s % 3600) / 60) * 60 + s % 60 == s
  {
    var q, r := s / 3600, s % 3600;
    DivMod60(r, r / 60, r % 60);
    DivMod60(s, 60 * q + r / 60, r % 60);
  }

  /** For s >= 0 JavaScript's remainders agree with Dafny's. */
  lemma SecondsSplit(s: int)
    requires s >= 0
    ensures SecondsToTimeString(s) == JoinFields(s / 3600, (s % 3600) / 60, s % 60)
  {
  }

  /** Hours, minutes and seconds come back out of their total. */
  lemma HmsDecomposition(s: int, h: nat, m: nat, sec: nat)
    requires m < 60 && sec < 60 && s == h * 3600 + m * 60 + sec
    ensures SecondsToTimeString(s) == JoinFields(h, m, sec)
  {
    SecondsSplit(s);
    DivMod3600(s, h, m * 60 + sec);
    DivMod60(m * 60 + sec, m, sec);
    DivMod60(s, h * 60 + m, sec);
  }

  lemma DivMod3600(a: int, q: int, r: int)
    requires 0 <= r < 3600 && a == q * 3600 + r
    ensures a / 3600 == q && a % 3600 == r
  {
  }

  lemma DivMod60(a: int, q: int, r: int)
    requires 0 <= r < 60 && a == q * 60 + r
    ensures a / 60 == q && a % 60 == r
  {
  }

  lemma JoinNatFields(h: nat, m: nat, sec: nat)
    ensures JoinFields(h, m, sec) == Field(h) + ":" + Field(m) + ":" + Field(sec)
  {
  }

  /** Up to 99 hours the string is exactly eight characters with colons at 2 and 5. */
  lemma TimeStringShape(s: int)
    requires 0 <= s < 360000
    ensures |SecondsToTimeString(s)| == 8
    ensures SecondsToTimeString(s)[2] == ':' && SecondsToTimeString(s)[5] == ':'
  {
    var h: nat, m: nat, sec: nat := s / 3600, (s % 3600) / 60, s % 60;
    assert h < 100 && m < 60 && sec < 60;
    SecondsSplit(s);
    JoinNatFields(h, m, sec);
    var x, y, z := Field(h), Field(m), Field(sec);
    ColonLayout(x, y, z);
  }

  lemma ColonLayout(x: string, y: string, z: string)
    requires |x| == 2 && |y| == 2 && |z| == 2
    ensures |x + ":" + y + ":" + z| == 8
    ensures (x + ":" + y + ":" + z)[2] == ':' && (x + ":" + y + ":" + z)[5] == ':'
  {
  }

  /** The formatter's fixed points: midnight, one hour one minute one second, and 25 hours for an
      after-midnight trip of the previous service day (hours are not wrapped at 24). */
  lemma TimeStringExamples()
    ensures SecondsToTimeString(0) == "00:00:00"
    ensures SecondsToTimeString(3661) == "01:01:01"
    ensures SecondsToTimeString(90000) == "25:00:00"
  {
    TimeStringMidnight();
    TimeStringOneOneOne();
    TimeString25(90000);
  }

  lemma TimeStringMidnight()
    ensures SecondsToTimeString(0) == "00:00:00"
  {
    HmsDecomposition(0, 0, 0, 0);
    JoinNatFields(0, 0, 0);
    FieldOneDigit(0);
  }

  lemma TimeStringOneOneOne()
    ensures SecondsToTimeString(3661) == "01:01:01"
  {
    HmsDecomposition(3661, 1, 1, 1);
    JoinNatFields(1, 1, 1);
    FieldOneDigit(1);
  }

  lemma TimeString25(s: int)
    requires s == 90000
    ensures SecondsToTimeString(s) == "25:00:00"
  {
    HmsDecomposition(s, 25, 0, 0);
    JoinNatFields(25, 0, 0);
    FieldTwoDigits(25);
    FieldOneDigit(0);
  }

  lemma FieldTwoDigits(n: nat)
    requires 10 <= n < 100
    ensures Field(n) == [DigitChar(n / 10), DigitChar(n % 10)]
  {
    assert NatToString(n) == NatToString(n / 10) + [DigitChar(n % 10)];
  }

  lemma FieldOneDigit(n: nat)
    requires n < 10
    ensures Field(n) == ['0', DigitChar(n)]
  {
  }

  // ---------------------------------------------------------------------------
  // getStatus
  // ---------------------------------------------------------------------------

  /** `CANCELLED` is declared but no delay maps to it. */
  datatype DepartureStatus = OnTime | Delayed | Early | Cancelled

  /** More than a minute late is delayed, more than a minute early is early. */
  function GetStatus(delaySeconds: int): (s: DepartureStatus)
    ensures s == Delayed <==> delaySeconds > 60
    ensures s == Early <==> delaySeconds < -60
    ensures s == OnTime <==> -60 <= delaySeconds <= 60
    ensures s != Cancelled
  {
    if delaySeconds > 60 then Delayed
    else if delaySeconds < -60 then Early
    else OnTime
  }

  /** The boundaries: 60 and -60 are still on time, 61 and -61 are not. */
  lemma StatusBoundaries()
    ensures GetStatus(60) == OnTime && GetStatus(-60) == OnTime
    ensures GetStatus(61) == Delayed && GetStatus(-61) == Early
    ensures GetStatus(0) == OnTime
  {
  }

  // ---------------------------------------------------------------------------
  // The schedule query: filter, order, limit
  // ---------------------------------------------------------------------------

  /** A stop-time joined to its trip and route (the inner joins). */
  datatype StopTimeRow = StopTimeRow(
    tripId: string,
    stopId: string,
    departureTime: int,
    stopHeadsign: Option<string>,
    routeId: string,
    tripHeadsign: Option<string>,
    routeShortName: Option<string>,
    serviceId: string)

  /** A weekly service calendar row; `days[0]` is Sunday as in `Date.getDay()`. Dates are day
      ordinals, compared as the database compares dates. */
  datatype CalendarRow = CalendarRow(days: seq<bool>, startDate: int, endDate: int)

  /** The service runs on the given day of week and date. */
  predicate ServiceActive(calendar: map<string, CalendarRow>, serviceId: string, dayOfWeek: nat, today: int) {
    && serviceId in calendar
    && dayOfWeek < |calendar[serviceId].days|
    && calendar[serviceId].days[dayOfWeek]
    && calendar[serviceId].startDate <= today <= calendar[serviceId].endDate
  }

  /** The query's parameters: stop, window start, window end, calendar day. */
  datatype Query = Query(stopId: string, now: int, endTime: int, dayOfWeek: nat, today: int)

  /** The WHERE clause. */
  predicate Matches(q: Query, calendar: map<string, CalendarRow>, row: StopTimeRow) {
    && row.stopId == q.stopId
    && q.now <= row.departureTime <= q.endTime
    && ServiceActive(calendar, row.serviceId, q.dayOfWeek, q.today)
  }

  predicate SortedByDeparture(rows: seq<StopTimeRow>) {
    forall i, j | 0 <= i < j < |rows| :: rows[i].departureTime <= rows[j].departureTime
  }

  /** Inserts `r` before the first row that departs later. */
  function Insert(r: StopTimeRow, rows: seq<StopTimeRow>): (out: seq<StopTimeRow>)
    requires SortedByDeparture(rows)
    ensures SortedByDeparture(out)
    ensures multiset(out) == multiset(rows) + multiset{r}
  {
    if |rows| == 0 then [r]
    else if r.departureTime <= rows[0].departureTime then [r] + rows
    else
      var rest := Insert(r, rows[1..]);
      InsertHead(r, rows, rest);
      [rows[0]] + rest
  }

  lemma InsertHead(r: StopTimeRow, rows: seq<StopTimeRow>, rest: seq<StopTimeRow>)
    requires |rows| > 0 && SortedByDeparture(rows) && rows[0].departureTime < r.departureTime
    requires SortedByDeparture(rest) && multiset(rest) == multiset(rows[1..]) + multiset{r}
    ensures SortedByDeparture([rows[0]] + rest)
    ensures multiset([rows[0]] + rest) == multiset(rows) + multiset{r}
  {
    assert rows == [rows[0]] + rows[1..];
    forall k | 0 <= k < |rest|
      ensures rows[0].departureTime <= rest[k].departureTime
    {
      assert rest[k] in multiset(rest);
      if rest[k] != r {
        assert rest[k] in multiset(rows[1..]);
        var j :| 0 <= j < |rows[1..]| && rows[1..][j] == rest[k];
        assert rows[j + 1] == rest[k];
      }
    }
    var out := [rows[0]] + rest;
    forall i, j | 0 <= i < j < |out|
      ensures out[i].departureTime <= out[j].departureTime
    {
      if i > 0 { assert out[i] == rest[i - 1] && out[j] == rest[j - 1]; }
      else { assert out[j] == rest[j - 1]; }
    }
  }

  /** ORDER BY departure_time: a permutation in ascending departure order (insertion sort). */
  function SortByDeparture(rows: seq<StopTimeRow>): (out: seq<StopTimeRow>)
    ensures SortedByDeparture(out)
    ensures multiset(out) == multiset(rows)
  {
    if |rows| == 0 then []
    else
      assert rows == [rows[0]] + rows[1..];
      Insert(rows[0], SortByDeparture(rows[1..]))
  }

  /** The rows the query returns: matching rows in departure order, at most `limit` of them. */
  function SelectRows(rows: seq<StopTimeRow>, calendar: map<string, CalendarRow>, q: Query, limit: nat): (r: seq<StopTimeRow>)
    ensures |r| <= limit
    ensures forall x | x in r :: x in rows && Matches(q, calendar, x)
  {
    var matching := Matching(rows, calendar, q);
    var sorted := SortByDeparture(matching);
    assert forall x | x in sorted :: x in matching by {
      forall x | x in sorted ensures x in matching { assert x in multiset(sorted); }
    }
    Take(sorted, limit)
  }

  /** The rows the WHERE clause keeps, in table order. */
  function Matching(rows: seq<StopTimeRow>, calendar: map<string, CalendarRow>, q: Query): (m: seq<StopTimeRow>)
    ensures forall r | r in m :: r in rows && Matches(q, calendar, r)
    ensures forall r :: multiset(m)[r] == if Matches(q, calendar, r) then multiset(rows)[r] else 0
  {
    FilterMultiset(rows, r => Matches(q, calendar, r));
    Filter(rows, r => Matches(q, calendar, r))
  }

  /** Every selected row satisfies the WHERE clause and is a row of the table. */
  lemma SelectRowsMatch(rows: seq<StopTimeRow>, calendar: map<string, CalendarRow>, q: Query, limit: nat)
    ensures forall r | r in SelectRows(rows, calendar, q, limit) :: r in rows && Matches(q, calendar, r)
  {
    var sorted := SortByDeparture(Matching(rows, calendar, q));
    var sel := SelectRows(rows, calendar, q, limit);
    forall r | r in sel
      ensures r in rows && Matches(q, calendar, r)
    {
      assert r in sorted;
      assert r in multiset(sorted);
    }
  }

  /** The selection ascends by departure time and holds min(limit, #matching) rows, each as often
      as it matches at most. */
  lemma SelectRowsOrderAndCount(rows: seq<StopTimeRow>, calendar: map<string, CalendarRow>, q: Query, limit: nat)
    ensures SortedByDeparture(SelectRows(rows, calendar, q, limit))
    ensures |SelectRows(rows, calendar, q, limit)| == Min(limit, |Matching(rows, calendar, q)|)
    ensures multiset(SelectRows(rows, calendar, q, limit)) <= multiset(Matching(rows, calendar, q))
  {
    var matching := Matching(rows, calendar, q);
    var sorted := SortByDeparture(matching);
    SameLength(sorted, matching);
    TakeOfSorted(sorted, limit);
  }

  /** Sequences with equal multisets have equal lengths. */
  lemma SameLength(a: seq<StopTimeRow>, b: seq<StopTimeRow>)
    requires multiset(a) == multiset(b)
    ensures |a| == |b|
  {
    assert |a| == |multiset(a)|;
    assert |b| == |multiset(b)|;
  }

  /** A prefix of a sorted sequence is sorted and takes each row at most as often. */
  lemma TakeOfSorted(sorted: seq<StopTimeRow>, n: nat)
    requires SortedByDeparture(sorted)
    ensures SortedByDeparture(Take(sorted, n))
    ensures multiset(Take(sorted, n)) <= multiset(sorted)
  {
    var sel := Take(sorted, n);
    assert sorted == sel + sorted[|sel|..];
    assert multiset(sorted) == multiset(sel) + multiset(sorted[|sel|..]);
  }

  /** When no more rows match than the limit allows, every matching row is selected, each as
      often as it matches. */
  lemma SelectRowsAllWhenFew(rows: seq<StopTimeRow>, calendar: map<string, CalendarRow>, q: Query, limit: nat)
    requires |Matching(rows, calendar, q)| <= limit
    ensures multiset(SelectRows(rows, calendar, q, limit)) == multiset(Matching(rows, calendar, q))
  {
    var sorted := SortByDeparture(Matching(rows, calendar, q));
    assert |sorted| == |multiset(sorted)| == |Matching(rows, calendar, q)|;
  }

  /** Top-k: no matching row the limit leaves out departs before a selected one. */
  lemma SelectRowsEarliest(rows: seq<StopTimeRow>, calendar: map<string, CalendarRow>, q: Query, limit: nat)
    ensures var sel := SelectRows(rows, calendar, q, limit);
            forall r | r in multiset(Matching(rows, calendar, q)) - multiset(sel) ::
              forall k | 0 <= k < |sel| :: sel[k].departureTime <= r.departureTime
  {
    var matching := Matching(rows, calendar, q);
    SortedPrefixEarliest(SortByDeparture(matching), limit);
  }

  /** In a sorted sequence the first `n` entries depart no later than any entry after them. */
  lemma SortedPrefixEarliest(sorted: seq<StopTimeRow>, n: nat)
    requires SortedByDeparture(sorted)
    ensures var sel := Take(sorted, n);
            forall r | r in multiset(sorted) - multiset(sel) ::
              forall k | 0 <= k < |sel| :: sel[k].departureTime <= r.departureTime
  {
    var sel := Take(sorted, n);
    var rest := sorted[|sel|..];
    assert sorted == sel + rest;
    assert multiset(sorted) == multiset(sel) + multiset(rest);
    forall r | r in multiset(sorted) - multiset(sel)
      ensures forall k | 0 <= k < |sel| :: sel[k].departureTime <= r.departureTime
    {
      assert r in multiset(rest);
      var j :| 0 <= j < |rest| && rest[j] == r;
      assert sorted[|sel| + j] == r;
    }
  }

  // ---------------------------------------------------------------------------
  // Reconciliation
  // ---------------------------------------------------------------------------

  datatype Departure = Departure(
    tripId: string,
    routeId: string,
    routeShortName: string,
    tripHeadsign: string,
    scheduledDeparture: string,
    realtimeDeparture: Option<string>,
    delaySeconds: int,
    status: DepartureStatus)

  /** The delay the cache reports for a trip, 0 when it reports none. */
  function DelayFor(delays: map<string, HotCache.TripDelay>, tripId: string): int {
    if tripId in delays then delays[tripId].delaySeconds else 0
  }

  /** The departure time moved by the delay. */
  function Shift(seconds: int, delay: int): int {
    seconds + delay
  }

  /** The time string of `seconds` moved by `delay`. */
  function ShiftedTime(seconds: int, delay: int): string {
    SecondsToTimeString(Shift(seconds, delay))
  }

  /** One output departure from a selected row and the batch of cached delays. */
  function ToDeparture(row: StopTimeRow, delays: map<string, HotCache.TripDelay>): (d: Departure)
    ensures d.tripId == row.tripId && d.routeId == row.routeId
    ensures d.delaySeconds == DelayFor(delays, row.tripId)
    ensures d.status == GetStatus(d.delaySeconds)
    ensures d.realtimeDeparture.None? <==> d.delaySeconds == 0
  {
    var delaySeconds := DelayFor(delays, row.tripId);
    Departure(
      row.tripId,
      row.routeId,
      row.routeShortName.GetOr(""),
      row.stopHeadsign.GetOr(row.tripHeadsign.GetOr("")),
      SecondsToTimeString(row.departureTime),
      if delaySeconds != 0 then Some(ShiftedTime(row.departureTime, delaySeconds)) else None,
      delaySeconds,
      GetStatus(delaySeconds))
  }

  /** The scheduled string formats the row's departure time; the real-time one, when present,
      formats the departure time plus the delay. */
  lemma DepartureTimes(row: StopTimeRow, delays: map<string, HotCache.TripDelay>)
    ensures ToDeparture(row, delays).scheduledDeparture == SecondsToTimeString(row.departureTime)
    ensures ToDeparture(row, delays).realtimeDeparture.Some? ==>
              ToDeparture(row, delays).realtimeDeparture.value == ShiftedTime(row.departureTime, DelayFor(delays, row.tripId))
  {
  }

  /** The stop's own headsign wins over the trip's, then the empty string; a missing route short
      name is the empty string. */
  lemma HeadsignFallback(row: StopTimeRow, delays: map<string, HotCache.TripDelay>)
    ensures row.stopHeadsign.Some? ==> ToDeparture(row, delays).tripHeadsign == row.stopHeadsign.value
    ensures row.stopHeadsign.None? && row.tripHeadsign.Some? ==> ToDeparture(row, delays).tripHeadsign == row.tripHeadsign.value
    ensures row.stopHeadsign.None? && row.tripHeadsign.None? ==> ToDeparture(row, delays).tripHeadsign == ""
    ensures row.routeShortName.None? ==> ToDeparture(row, delays).routeShortName == ""
    ensures row.routeShortName.Some? ==> ToDeparture(row, delays).routeShortName == row.routeShortName.value
  {
  }

  /** A trip without a cached delay is reported on time with no real-time value. */
  lemma AbsentDelayIsOnTime(row: StopTimeRow, delays: map<string, HotCache.TripDelay>)
    requires row.tripId !in delays
    ensures ToDeparture(row, delays).delaySeconds == 0
    ensures ToDeparture(row, delays).status == OnTime
    ensures ToDeparture(row, delays).realtimeDeparture.None?
  {
  }

  /** The departure list: one entry per selected row, same order. */
  function BuildDepartures(rows: seq<StopTimeRow>, delays: map<string, HotCache.TripDelay>): (ds: seq<Departure>)
    ensures |ds| == |rows|
    ensures forall i | 0 <= i < |rows| :: ds[i] == ToDeparture(rows[i], delays)
  {
    seq(|rows|, i requires 0 <= i < |rows| => ToDeparture(rows[i], delays))
  }

  // ---------------------------------------------------------------------------
  // generateHash
  // ---------------------------------------------------------------------------

  /** The part of a departure the fingerprint sees. */
  datatype Fingerprint = Fingerprint(tripId: string, delaySeconds: int, status: DepartureStatus)

  function Project(ds: seq<Departure>): (ps: seq<Fingerprint>)
    ensures |ps| == |ds|
    ensures forall i | 0 <= i < |ds| :: ps[i] == Fingerprint(ds[i].tripId, ds[i].delaySeconds, ds[i].status)
  {
    seq(|ds|, i requires 0 <= i < |ds| => Fingerprint(ds[i].tripId, ds[i].delaySeconds, ds[i].status))
  }

  /** `generateHash`: the first 8 characters of `digest` applied to the projected sequence.
      `digest` stands for JSON serialisation followed by the MD5 hex digest; nothing is assumed
      about it beyond being a function. */
  function GenerateHash(ds: seq<Departure>, digest: seq<Fingerprint> -> string): (h: string)
    ensures |h| == Min(8, |digest(Project(ds))|)
    ensures h <= digest(Project(ds))
  {
    Take(digest(Project(ds)), 8)
  }

  /** The hash depends on the ordered (tripId, delaySeconds, status) sequence only: departures
      that agree on those fields hash alike, whatever their other fields. */
  lemma HashDependsOnlyOnProjection(a: seq<Departure>, b: seq<Departure>, digest: seq<Fingerprint> -> string)
    requires |a| == |b|
    requires forall i | 0 <= i < |a| ::
               a[i].tripId == b[i].tripId && a[i].delaySeconds == b[i].delaySeconds && a[i].status == b[i].status
    ensures GenerateHash(a, digest) == GenerateHash(b, digest)
  {
    assert Project(a) == Project(b);
  }

  /** The projection is order-sensitive: swapping two departures that differ in a projected field
      changes what is hashed. */
  lemma ProjectionOrderSensitive(ds: seq<Departure>, i: nat, j: nat)
    requires i < j < |ds|
    requires Fingerprint(ds[i].tripId, ds[i].delaySeconds, ds[i].status) != Fingerprint(ds[j].tripId, ds[j].delaySeconds, ds[j].status)
    ensures Project(ds[i := ds[j]][j := ds[i]]) != Project(ds)
  {
    var swapped := ds[i := ds[j]][j := ds[i]];
    assert Project(swapped)[i] != Project(ds)[i];
  }

  // ---------------------------------------------------------------------------
  // fetchDeparturesForSSE
  // ---------------------------------------------------------------------------

  /** Everything the service reads from its surroundings: the service-day clock (seconds past
      midnight, day of week, date), the wall clock for the timestamp, and the cache clock. */
  datatype Clock = Clock(nowSeconds: int, dayOfWeek: nat, today: int, nowMillis: int, cacheNow: int)

  datatype DeparturesData = DeparturesData(stopId: string, departures: seq<Departure>, timestamp: int, hash: string)

  /** The query for a stop over [now, now + timeRange] on the clock's service day. */
  function WindowQuery(stopId: string, timeRangeSeconds: int, clock: Clock): Query {
    Query(stopId, clock.nowSeconds, clock.nowSeconds + timeRangeSeconds, clock.dayOfWeek, clock.today)
  }

  /** `fetchDeparturesForSSE`: select the stop's rows in [now, now + timeRange], batch-read their
      delays from the cache, build the departures and hash them. */
  function FetchDeparturesForSse(
    stopId: string, limit: nat, timeRangeSeconds: int, clock: Clock,
    rows: seq<StopTimeRow>, calendar: map<string, CalendarRow>,
    cache: HotCache.Store, digest: seq<Fingerprint> -> string): (data: DeparturesData)
    ensures data.stopId == stopId && data.timestamp == clock.nowMillis
    ensures data.hash == GenerateHash(data.departures, digest)
    ensures var selected := SelectRows(rows, calendar, WindowQuery(stopId, timeRangeSeconds, clock), limit);
            && |data.departures| == |selected| <= limit
            && forall i | 0 <= i < |selected| ::
                 && data.departures[i].tripId == selected[i].tripId
                 && data.departures[i].delaySeconds == CachedDelay(cache, selected[i].tripId, clock.cacheNow)
    ensures var selected := SelectRows(rows, calendar, WindowQuery(stopId, timeRangeSeconds, clock), limit);
            forall i | 0 <= i < |data.departures| && i < |selected| ::
              var delay := CachedDelay(cache, selected[i].tripId, clock.cacheNow);
              && data.departures[i].status == GetStatus(delay)
              && data.departures[i].scheduledDeparture == SecondsToTimeString(selected[i].departureTime)
              && (data.departures[i].realtimeDeparture.None? <==> delay == 0)
              && (delay != 0 ==> data.departures[i].realtimeDeparture == Some(ShiftedTime(selected[i].departureTime, delay)))
              && data.departures[i].routeId == selected[i].routeId
              && data.departures[i].tripHeadsign == selected[i].stopHeadsign.GetOr(selected[i].tripHeadsign.GetOr(""))
              && data.departures[i].routeShortName == selected[i].routeShortName.GetOr("")
  {
    var q := WindowQuery(stopId, timeRangeSeconds, clock);
    var selected := SelectRows(rows, calendar, q, limit);
    BatchDelaysAgree(selected, cache, clock.cacheNow);
    var delays := HotCache.GetTripDelays(cache, TripIds(selected), clock.cacheNow);
    var departures := BuildDepartures(selected, delays);
    DeparturesData(stopId, departures, clock.nowMillis, GenerateHash(departures, digest))
  }

  /** The parameter defaults of `fetchDeparturesForSSE`: twenty departures over two hours. */
  const DEFAULT_LIMIT: nat := 20
  const DEFAULT_TIME_RANGE: int := 7200

  /** Some row of `rows` runs `tripId` from `stopId` inside [lo, hi]. */
  predicate FromWindow(rows: seq<StopTimeRow>, tripId: string, stopId: string, lo: int, hi: int) {
    exists r | r in rows :: r.tripId == tripId && r.stopId == stopId && lo <= r.departureTime <= hi
  }

  /** `fetchDeparturesForSSE(stopId)` with both defaults taken: at most twenty departures, each
      from a row of the stop departing within the next two hours. */
  function FetchDeparturesDefault(
    stopId: string, clock: Clock,
    rows: seq<StopTimeRow>, calendar: map<string, CalendarRow>,
    cache: HotCache.Store, digest: seq<Fingerprint> -> string): (data: DeparturesData)
    ensures data == FetchDeparturesForSse(stopId, DEFAULT_LIMIT, DEFAULT_TIME_RANGE, clock, rows, calendar, cache, digest)
    ensures data.stopId == stopId && |data.departures| <= 20
    ensures forall i | 0 <= i < |data.departures| ::
              FromWindow(rows, data.departures[i].tripId, stopId, clock.nowSeconds, clock.nowSeconds + 7200)
  {
    var data := FetchDeparturesForSse(stopId, DEFAULT_LIMIT, DEFAULT_TIME_RANGE, clock, rows, calendar, cache, digest);
    DeparturesInWindow(stopId, DEFAULT_LIMIT, DEFAULT_TIME_RANGE, clock, rows, calendar, data);
    data
  }

  /** Every departure comes from a row of the stop inside the query window. */
  lemma DeparturesInWindow(
    stopId: string, limit: nat, timeRangeSeconds: int, clock: Clock,
    rows: seq<StopTimeRow>, calendar: map<string, CalendarRow>, data: DeparturesData)
    requires var selected := SelectRows(rows, calendar, WindowQuery(stopId, timeRangeSeconds, clock), limit);
             && |data.departures| == |selected|
             && forall i | 0 <= i < |selected| :: data.departures[i].tripId == selected[i].tripId
    ensures forall i | 0 <= i < |data.departures| ::
              FromWindow(rows, data.departures[i].tripId, stopId, clock.nowSeconds, clock.nowSeconds + timeRangeSeconds)
  {
    var q := WindowQuery(stopId, timeRangeSeconds, clock);
    var selected := SelectRows(rows, calendar, q, limit);
    SelectRowsMatch(rows, calendar, q, limit);
    forall i | 0 <= i < |data.departures|
      ensures FromWindow(rows, data.departures[i].tripId, stopId, clock.nowSeconds, clock.nowSeconds + timeRangeSeconds)
    {
      assert selected[i] in selected;
      assert selected[i] in rows && Matches(q, calendar, selected[i]);
    }
  }

  /** The trip ids of the selected rows, in order. */
  function TripIds(rows: seq<StopTimeRow>): (ids: seq<string>)
    ensures |ids| == |rows|
    ensures forall i | 0 <= i < |rows| :: ids[i] == rows[i].tripId
  {
    seq(|rows|, i requires 0 <= i < |rows| => rows[i].tripId)
  }

  /** The delay the cache holds for a trip at `now`, 0 when it holds none. */
  function CachedDelay(cache: HotCache.Store, tripId: string, now: int): int {
    match HotCache.GetTripDelay(cache, tripId, now)
    case Some(d) => d.delaySeconds
    case None => 0
  }

  /** The batch lookup gives every selected trip the delay a single lookup would give. */
  lemma BatchDelaysAgree(rows: seq<StopTimeRow>, cache: HotCache.Store, now: int)
    ensures forall i | 0 <= i < |rows| ::
              DelayFor(HotCache.GetTripDelays(cache, TripIds(rows), now), rows[i].tripId) == CachedDelay(cache, rows[i].tripId, now)
  {
    var ids := TripIds(rows);
    var delays := HotCache.GetTripDelays(cache, ids, now);
    forall i | 0 <= i < |rows|
      ensures DelayFor(delays, rows[i].tripId) == CachedDelay(cache, rows[i].tripId, now)
    {
      assert ids[i] == rows[i].tripId;
    }
  }
}
