# nz-transit-app real-time core, modelled in Dafny

This project models the real-time reconciliation pipeline of the nz-transit-app (Metlink, Wellington).
It covers five parts:

- **Feed normalisation** (`GtfsRealtime`, realtime.dfy). GTFS-Realtime trip updates, vehicle positions and service alerts become cache writes plus a count. The cause, effect and vehicle-status codes map to names. `syncGtfsRealtime` runs the three feeds independently, so one feed's failure becomes one labelled error and never suppresses the others.
- **Hot-state cache** (`HotCache`, cache.dfy). The Redis key scheme and TTL constants, typed set/get pairs and the batch delay lookup. The store is a map from key to (value, expiry) read against an explicit clock in seconds.
- **Departure reconciliation** (`SseDepartures`, departures.dfy):
  - the stop-times query, as a pure filter, sort and take over joined rows;
  - the merge with cached delays, and the delay-to-status mapping;
  - the `HH:MM:SS` formatter, whose hours run past 24;
  - the change-detection fingerprint, with the MD5 digest as a function parameter.
- **Static-ingest helpers** (`IngestStatic`, ingest.dfy). Date reformatting, boolean and integer parsing with JavaScript's `parseInt`, `H:M:S` to seconds, record filtering and batch slicing.
- **Cron endpoint** (`CronRoute`, cron.dfy). The bearer-token check, then two syncs summed into one response and an HTTP status.

`TimeRoundTrip` (roundtrip.dfy) connects the ingest parser to the departure formatter. The support modules are `Wrappers` (Option), `Seqs` (filter, flatten, take) and `Decimal` (JavaScript `toString()`, `padStart(2, "0")` and digit-string values).

I/O is replaced by parameters:

- the fetched feed documents (`Fetched`), already decoded;
- the clocks: `SyncClock` for a sync, and `Clock` for the service day, wall clock and cache clock;
- the database rows and calendar;
- the MD5-of-JSON digest;
- the environment variables of the cron route (`Env`).

Three behaviours of the code are worth stating up front:

- Unmapped cause, effect and vehicle-status codes give an absent field, not an "unknown" variant.
- A departure carries no stop sequence.
- No real-time signal ever produces the `CANCELLED` status.

## Model

| member | source | states |
|---|---|---|
| GtfsRealtime.CauseFromCode | packages/api/src/services/gtfs-realtime.ts:145-158 | a cause is found exactly for codes 1 to 12, and the one found carries that code |
| GtfsRealtime.CauseCodeRoundTrip | packages/api/src/services/gtfs-realtime.ts:145-158 | each cause is reached from its own code and from no other code (the table is a bijection onto 1..12) |
| GtfsRealtime.EffectFromCode | packages/api/src/services/gtfs-realtime.ts:160-170 | an effect is found exactly for codes 1 to 9, and the one found carries that code |
| GtfsRealtime.EffectCodeRoundTrip | packages/api/src/services/gtfs-realtime.ts:160-170 | each effect is reached from its own code and from no other |
| GtfsRealtime.VehicleStatusFromCode | packages/api/src/services/gtfs-realtime.ts:172-176 | a status is found exactly for codes 0, 1 and 2, and the one found carries that code |
| GtfsRealtime.VehicleStatusRoundTrip | packages/api/src/services/gtfs-realtime.ts:172-176 | INCOMING_AT, STOPPED_AT and IN_TRANSIT_TO are reached from 0, 1 and 2 respectively and from nothing else |
| GtfsRealtime.MapCause | packages/api/src/services/gtfs-realtime.ts:331 | the alert's cause is present iff the code is present and in 1..12, and then it is the name of the cause whose code it is |
| GtfsRealtime.MapEffect | packages/api/src/services/gtfs-realtime.ts:332 | the alert's effect is present iff the code is present and in 1..9, and then it is the name of the effect whose code it is |
| GtfsRealtime.MapVehicleStatus | packages/api/src/services/gtfs-realtime.ts:279-282 | the vehicle status is present iff the code is present and in 0..2, and then it is the status whose code it is; absent and unmapped codes give undefined |
| GtfsRealtime.DeriveDelayChain | packages/api/src/services/gtfs-realtime.ts:228-234 | a present non-zero trip delay wins; otherwise the first stop-time update's departure delay, then its arrival delay, then 0; with no stop-time updates the delay is 0 |
| GtfsRealtime.ZeroDepartureDelayStops | packages/api/src/services/gtfs-realtime.ts:232-233 | an explicit departure delay of 0 is used and the arrival delay is not consulted |
| GtfsRealtime.DeriveDelay | packages/api/src/services/gtfs-realtime.ts:228-234 | a present non-zero trip delay is the result; otherwise the result is 0, the trip delay, or the first stop-time update's departure or arrival delay (the order is pinned down by DeriveDelayChain) |
| GtfsRealtime.DelayWrite | packages/api/src/services/gtfs-realtime.ts:236-245 | a trip update is written under `delay:` + its trip id, holding that trip id, the derived delay and the feed timestamp, with the 60-second trip-delay TTL |
| GtfsRealtime.ProcessTripUpdates | packages/api/src/services/gtfs-realtime.ts:219-250 | entities without a truthy trip id are skipped; the others give one write each, in feed order; the count equals the number of writes and of kept entities |
| GtfsRealtime.VehiclePositionOf | packages/api/src/services/gtfs-realtime.ts:269-283 | the cached position keeps the vehicle id; tripId and routeId are the trip descriptor's, or "" when the descriptor or the field is absent; latitude, longitude, bearing, speed and stop sequence are copied; the timestamp is feed seconds times 1000 when truthy, else the sync time; status codes 0, 1, 2 give IncomingAt, StoppedAt, InTransitTo and the status is present iff the code maps |
| GtfsRealtime.VehicleWrite | packages/api/src/services/gtfs-realtime.ts:285-288 | a vehicle is written under `vehicle:` + its id, holding the position built from the entity at the sync time, with the 60-second vehicle TTL |
| GtfsRealtime.ProcessVehiclePositions | packages/api/src/services/gtfs-realtime.ts:261-293 | entities lacking a truthy vehicle id or a position are skipped; the others give one write each, in feed order; the count equals the number of writes |
| GtfsRealtime.FirstEnglish | packages/api/src/services/gtfs-realtime.ts:362-364 | the index found is the first translation whose language is "en" or "EN", or the list length when there is none |
| GtfsRealtime.GetTranslatedText | packages/api/src/services/gtfs-realtime.ts:356-369 | undefined iff the string or its translation list is missing or empty; otherwise the first English text when one exists, else the first entry's text |
| GtfsRealtime.TextOr | packages/api/src/services/gtfs-realtime.ts:329-330 | a non-empty text is kept; absent or empty text gives the fallback ("Service Alert" for the header, "" for the description) |
| GtfsRealtime.AffectedRouteIds | packages/api/src/services/gtfs-realtime.ts:313-321 | the list is exactly the route ids of the informed entities whose route id is truthy, in their order and with repetitions: the i-th id belongs to the i-th such entity |
| GtfsRealtime.AffectedRouteIdsComplete | packages/api/src/services/gtfs-realtime.ts:316-318 | every truthy route id of an informed entity is listed |
| GtfsRealtime.AffectedStopIds | packages/api/src/services/gtfs-realtime.ts:313-321 | the list is exactly the stop ids of the informed entities whose stop id is truthy, in their order and with repetitions: the i-th id belongs to the i-th such entity |
| GtfsRealtime.AffectedStopIdsComplete | packages/api/src/services/gtfs-realtime.ts:316-319 | every truthy stop id of an informed entity is listed |
| GtfsRealtime.NonEmptyOrAbsent | packages/api/src/services/gtfs-realtime.ts:333-334 | an empty id list is stored as undefined, a non-empty one as is |
| GtfsRealtime.ServiceAlertOf | packages/api/src/services/gtfs-realtime.ts:327-337 | the alert keeps the entity id; the header is the translated header, or "Service Alert" when that is absent or empty; the description is the translated description or ""; the cause and effect are the names the cause and effect tables give for the codes (absent when a code is absent or unmapped); the affected routes and stops are the truthy ids, absent when there are none; the active period is the first period's start and end, absent when there is no period |
| GtfsRealtime.AlertWrite | packages/api/src/services/gtfs-realtime.ts:339-342 | an alert is written under `alert:` + its entity id, holding the alert built from the entity, with the 300-second alert TTL |
| GtfsRealtime.CollectAlerts | packages/api/src/services/gtfs-realtime.ts:306-346 | one write and one collected id per alert-bearing entity, in feed order; the count equals both lengths |
| GtfsRealtime.ProcessServiceAlerts | packages/api/src/services/gtfs-realtime.ts:299-354 | the alert writes come first, then `alerts:active` is written with TTL 300; that list holds exactly the alert ids in feed order, and its length is the returned count |
| GtfsRealtime.TripUpdateWritesInNamespace | packages/api/src/services/gtfs-realtime.ts:242 | the trip-update feed writes only `delay:` keys |
| GtfsRealtime.VehicleWritesInNamespace | packages/api/src/services/gtfs-realtime.ts:285 | the vehicle feed writes only `vehicle:` keys |
| GtfsRealtime.AlertWritesInNamespace | packages/api/src/services/gtfs-realtime.ts:339-351 | the alert feed writes only `alert:` keys and `alerts:active` |
| GtfsRealtime.ErrorsOf | packages/api/src/services/gtfs-realtime.ts:398-411 | a failed feed contributes exactly one error, its label followed by the message; a counted feed contributes none |
| GtfsRealtime.SyncGtfsRealtime | packages/api/src/services/gtfs-realtime.ts:387-422 | success iff no error iff all three feeds counted; a failed feed reports 0, the others report their own counts; the errors are trip, vehicle and alert errors in that order |
| GtfsRealtime.SyncAll | packages/api/src/services/gtfs-realtime.ts:396-421 | a full sync succeeds iff all three fetches succeeded; each fetched feed's count is the number of its usable entities |
| GtfsRealtime.SyncAllReport | packages/api/src/services/gtfs-realtime.ts:396-421 | a full sync's report is `syncGtfsRealtime` over what each feed kept or the error its fetch raised |
| GtfsRealtime.SyncIsolation | packages/api/src/services/gtfs-realtime.ts:396-412 | after a full sync every `delay:`, `vehicle:` and alert key reads as if only its own feed had run |
| GtfsRealtime.SyncTrips | packages/api/src/services/gtfs-realtime.ts:396-400 | a fetched trip feed counts its entities with a truthy trip id; a failed fetch leaves the store as it was and reports its message |
| GtfsRealtime.SyncVehicles | packages/api/src/services/gtfs-realtime.ts:402-406 | a fetched vehicle feed counts its entities with a vehicle id and a position; a failed fetch leaves the store as it was and reports its message |
| GtfsRealtime.SyncAlerts | packages/api/src/services/gtfs-realtime.ts:408-412 | a fetched alert feed counts its alert-bearing entities; a failed fetch leaves the store as it was and reports its message |
| GtfsRealtime.SyncTripsReadBack | packages/api/src/services/gtfs-realtime.ts:236-245 | after the trip step, each trip written last under its id reads back, within 60 seconds, as its own trip id, derived delay and feed timestamp |
| GtfsRealtime.SyncVehiclesReadBack | packages/api/src/services/gtfs-realtime.ts:269-288 | after the vehicle step, each vehicle written last under its id reads back, within 60 seconds, as the position built from its entity |
| GtfsRealtime.SyncAlertsReadBack | packages/api/src/services/gtfs-realtime.ts:327-342 | after the alert step, each alert written last under its id reads back, within 300 seconds, as the alert built from its entity |
| GtfsRealtime.SyncAlertsIndex | packages/api/src/services/gtfs-realtime.ts:344-351 | after the alert step, `alerts:active` reads back, within 300 seconds, as the ids of all alert-bearing entities in feed order |
| GtfsRealtime.VehicleStepFrame | packages/api/src/services/gtfs-realtime.ts:402-406 | the vehicle step treats two stores that agree on a key alike on that key |
| GtfsRealtime.AlertStepFrame | packages/api/src/services/gtfs-realtime.ts:408-412 | the alert step treats two stores that agree on a key alike on that key |
| GtfsRealtime.VehicleFeedFailureIsolated | packages/api/src/services/gtfs-realtime.ts:396-421 | when only the vehicle fetch fails: no success, the single error "Vehicle positions: " + message, and positive counts for the other two feeds |
| GtfsRealtime.OneFailedFeed | packages/api/src/services/gtfs-realtime.ts:404-406 | a single failed vehicle feed yields exactly its one labelled error |
| HotCache.NamespaceOfBuilder | packages/db/src/redis.ts:41-53 | a key is in the `delay:`, `vehicle:` or `alert:` namespace iff the matching builder produces it from some id |
| HotCache.NamespacesDisjoint | packages/db/src/redis.ts:38-56 | the three namespaces do not overlap, and `alerts:active` is in none of them |
| HotCache.KeysInjective | packages/db/src/redis.ts:41-53 | every key builder is injective in its id |
| HotCache.KeysDisjoint | packages/db/src/redis.ts:38-56 | keys from different builders never coincide, and none equals `alerts:active` |
| HotCache.Set | packages/db/src/redis.ts:135-137 | a write with TTL `ttl` is live through `now + ttl - 1` and gone at `now + ttl`; it adds the key and leaves every other entry unchanged |
| HotCache.Get | packages/db/src/redis.ts:148-149 | a read finds a value iff the key holds a live entry, and then it is that entry's value |
| HotCache.SetThenGet | packages/db/src/redis.ts:130-150 | reading a key back before its TTL elapses gives the written value; from the TTL on it gives null |
| HotCache.SetFrame | packages/db/src/redis.ts:130-138 | a write leaves reads of every other key unchanged |
| HotCache.ApplyWrites | packages/api/src/services/gtfs-realtime.ts:221-248 | a loop of writes adds exactly the written keys and leaves unwritten entries unchanged |
| HotCache.ApplyWritesElsewhere | packages/api/src/services/gtfs-realtime.ts:221-248 | a key that no write names reads the same after the loop |
| HotCache.ApplyWritesPointwise | packages/api/src/services/gtfs-realtime.ts:221-248 | the same write loop maps two stores that agree on a key to stores that agree on it |
| HotCache.ApplyWritesLastWins | packages/api/src/services/gtfs-realtime.ts:221-248 | the last write to a key decides its value and expiry |
| HotCache.ApplyWritesReadBack | packages/api/src/services/gtfs-realtime.ts:221-248 | a write that no later write of the loop overrides reads back as its value until its TTL runs out |
| HotCache.SetVehiclePosition | packages/db/src/redis.ts:130-138 | the position reads back by its vehicle id, and every other key is untouched |
| HotCache.GetVehiclePosition | packages/db/src/redis.ts:143-150 | null when no live entry is stored |
| HotCache.VehiclePositionOverwrite | packages/db/src/redis.ts:130-138 | a second position for the same vehicle replaces the first |
| HotCache.SetTripDelay | packages/db/src/redis.ts:155-161 | writing a delay leaves every other key untouched |
| HotCache.GetTripDelay | packages/db/src/redis.ts:166-171 | null when no live entry is stored; a delay returned is the one stored under the trip's key |
| HotCache.TripDelayRoundTrip | packages/db/src/redis.ts:155-171 | `setTripDelay` then `getTripDelay` for the same trip gives the delay back within 60 seconds and null afterwards |
| HotCache.SetStopDepartures | packages/db/src/redis.ts:196-205 | the departures read back for the stop, and every other key is untouched |
| HotCache.GetStopDepartures | packages/db/src/redis.ts:210-217 | null when no live entry is stored |
| HotCache.SetPreservesWellFormed | packages/db/src/redis.ts:130-205 | writes through the key builders keep every key holding the kind of value its name announces |
| HotCache.GetTripDelayExact | packages/db/src/redis.ts:166-171 | in a well-formed store `getTripDelay` is null exactly when nothing live is stored, and a returned delay belongs to the trip asked for |
| HotCache.GetTripDelays | packages/db/src/redis.ts:176-191 | the result's keys are among the trip ids; `tripIds[i]` is present iff its own lookup is non-null, and then it maps to that delay |
| SseDepartures.TruncRem | packages/api/src/services/sse-departures.ts:49-50 | JavaScript's `%` agrees with the mathematical remainder for a non-negative dividend and stays strictly inside (-b, b) |
| SseDepartures.SecondsToTimeString | packages/api/src/services/sse-departures.ts:47-52 | the string has at least eight characters (its fields and round trip are in TimeStringFields and TimeRoundTrip.SecondsRoundTrip) |
| SseDepartures.Field | packages/api/src/services/sse-departures.ts:51 | a padded field is a digit string of at least two characters whose value is the number, exactly two below 100 |
| SseDepartures.TimeStringFields | packages/api/src/services/sse-departures.ts:47-52 | for s >= 0 the string is three padded fields: hours s / 3600, unwrapped, then minutes and seconds below 60, which add back up to s |
| SseDepartures.HmsOfSeconds | packages/api/src/services/sse-departures.ts:48-50 | the three fields of a non-negative second count are below 60 (minutes, seconds) and add back up to it |
| SseDepartures.HmsDecomposition | packages/api/src/services/sse-departures.ts:47-52 | hours, minutes below 60 and seconds below 60 format to exactly those three fields |
| SseDepartures.TimeStringShape | packages/api/src/services/sse-departures.ts:47-52 | below 100 hours the string has eight characters, with colons at positions 2 and 5 |
| SseDepartures.TimeStringExamples | packages/api/src/services/sse-departures.ts:47-52 | 0 gives "00:00:00", 3661 gives "01:01:01", and 90000 gives "25:00:00" |
| SseDepartures.FieldTwoDigits | packages/api/src/services/sse-departures.ts:51 | a two-digit number is written as its tens digit followed by its units digit |
| SseDepartures.FieldOneDigit | packages/api/src/services/sse-departures.ts:51 | a one-digit number is written with a leading zero |
| SseDepartures.GetStatus | packages/api/src/services/sse-departures.ts:80-84 | DELAYED iff the delay exceeds 60, EARLY iff it is below -60, ON_TIME otherwise; never CANCELLED |
| SseDepartures.StatusBoundaries | packages/api/src/services/sse-departures.ts:80-84 | 60 and -60 are ON_TIME, 61 is DELAYED, -61 is EARLY |
| SseDepartures.Insert | packages/api/src/services/sse-departures.ts:153 | inserting into a sorted list keeps it sorted and adds exactly that row |
| SseDepartures.SortByDeparture | packages/api/src/services/sse-departures.ts:153 | the ordering is ascending by departure time and a permutation of its input |
| SseDepartures.Matching | packages/api/src/services/sse-departures.ts:143-152 | the rows kept are exactly the table rows satisfying the WHERE clause, each as many times as the table holds it |
| SseDepartures.SelectRows | packages/api/src/services/sse-departures.ts:143-154 | at most `limit` rows, each a table row satisfying the WHERE clause (order, count and earliest-first are in the lemmas below) |
| SseDepartures.SelectRowsMatch | packages/api/src/services/sse-departures.ts:143-154 | every selected row is a table row for the stop, departing in [now, now + range], on an active service day |
| SseDepartures.SelectRowsOrderAndCount | packages/api/src/services/sse-departures.ts:153-154 | the selection ascends by departure time, has min(limit, #matching) rows, and is a sub-multiset of the matching rows |
| SseDepartures.SelectRowsAllWhenFew | packages/api/src/services/sse-departures.ts:153-154 | when no more than `limit` rows match, every matching row is selected, with its multiplicity |
| SseDepartures.SelectRowsEarliest | packages/api/src/services/sse-departures.ts:153-154 | no matching row left out by the limit departs before a selected row |
| SseDepartures.SortedPrefixEarliest | packages/api/src/services/sse-departures.ts:153-154 | the first n entries of a sorted list depart no later than any entry after them |
| SseDepartures.ToDeparture | packages/api/src/services/sse-departures.ts:161-179 | a departure keeps its row's trip and route; its delay is the cached one, or 0 when the trip has none; its status is that delay's status; the real-time time is null iff the delay is 0 |
| SseDepartures.DepartureTimes | packages/api/src/services/sse-departures.ts:164-175 | the scheduled time formats the departure time; the real-time time formats the departure time plus the delay |
| SseDepartures.HeadsignFallback | packages/api/src/services/sse-departures.ts:169-170 | the headsign is the stop headsign, else the trip headsign, else ""; a missing route short name is "" |
| SseDepartures.AbsentDelayIsOnTime | packages/api/src/services/sse-departures.ts:162-163 | a trip absent from the delay map has delay 0, status ON_TIME and no real-time time |
| SseDepartures.BuildDepartures | packages/api/src/services/sse-departures.ts:161-179 | one departure per selected row, in the same order |
| SseDepartures.Project | packages/api/src/services/sse-departures.ts:100-106 | the fingerprint keeps exactly tripId, delaySeconds and status of each departure, in order |
| SseDepartures.GenerateHash | packages/api/src/services/sse-departures.ts:99-108 | the hash is exactly the first min(8, length) characters of the digest of the projection |
| SseDepartures.HashDependsOnlyOnProjection | packages/api/src/services/sse-departures.ts:99-108 | departures that agree on tripId, delaySeconds and status, position by position, hash alike whatever their other fields |
| SseDepartures.ProjectionOrderSensitive | packages/api/src/services/sse-departures.ts:100-106 | swapping two departures whose projected fields differ changes what is hashed |
| SseDepartures.FetchDeparturesForSse | packages/api/src/services/sse-departures.ts:118-187 | the response names the stop, is stamped with the wall clock, and carries the hash of its own departures; there is one departure per selected row (at most `limit`), in order, with that row's trip and route, the delay a single `getTripDelay` lookup gives (0 when none) and that delay's status; the scheduled time is the row's departure time formatted; the real-time time is null iff the delay is 0, and otherwise the departure time plus the delay formatted; the headsign and route short name follow the `??` fallbacks |
| SseDepartures.FetchDeparturesDefault | packages/api/src/services/sse-departures.ts:118-128 | called with the stop id alone, the fetch uses limit 20 and a 7200-second range: at most twenty departures, each from a row of that stop departing between now and two hours from now |
| SseDepartures.DeparturesInWindow | packages/api/src/services/sse-departures.ts:127-152 | every departure's trip comes from a row of the requested stop whose departure lies inside [now, now + timeRange] |
| SseDepartures.TripIds | packages/api/src/services/sse-departures.ts:157 | the trip ids of the selected rows, one per row, in order |
| SseDepartures.BatchDelaysAgree | packages/api/src/services/sse-departures.ts:157-163 | the batch lookup gives every selected trip the same delay a single lookup would |
| IngestStatic.Slice | scripts/ingest-static.ts:164 | `slice` clamps both ends to the length |
| IngestStatic.FormatDate | scripts/ingest-static.ts:162-165 | an 8-character date becomes 10 characters with dashes at 4 and 7 and the other characters copied in order |
| IngestStatic.FormatDateRoundTrip | scripts/ingest-static.ts:162-165 | removing the two dashes gives the GTFS date back |
| IngestStatic.ParseBoolean | scripts/ingest-static.ts:167-169 | true iff the field is exactly "1" |
| IngestStatic.ParseIntOfDigits | scripts/ingest-static.ts:173 | `parseInt` of a digit string is its decimal value |
| IngestStatic.ParseInt | scripts/ingest-static.ts:173 | a number is produced only when the text holds a digit, and a negative one only when it holds a minus sign |
| IngestStatic.ParseIntOfText | scripts/ingest-static.ts:173 | white space, an optional sign, a run of digits and then anything not starting with a digit parse to the run's decimal value, negated after "-" |
| IngestStatic.ParseIntNaN | scripts/ingest-static.ts:173 | when no digit follows the white space and the optional sign, the result is NaN |
| IngestStatic.TrimStartSkips | scripts/ingest-static.ts:173 | only the leading white space is skipped |
| IngestStatic.ParseIntOrNull | scripts/ingest-static.ts:171-175 | undefined and "" give null; any other input gives what `parseInt` gives, NaN as null |
| IngestStatic.ParseIntOrNullOfNumber | scripts/ingest-static.ts:171-175 | the decimal text of a number parses back to that number |
| IngestStatic.ParseIntOrNullNonNumeric | scripts/ingest-static.ts:171-175 | text that starts with neither a digit, a sign nor whitespace gives null |
| IngestStatic.ToNull | scripts/ingest-static.ts:262-265 | undefined, null and "" give null; anything else is kept unchanged |
| IngestStatic.IndexOf | scripts/ingest-static.ts:268 | the first occurrence of the separator |
| IngestStatic.Split | scripts/ingest-static.ts:268 | at least one piece, and no piece contains the separator |
| IngestStatic.SplitJoin | scripts/ingest-static.ts:268 | joining the pieces back with the separator gives the input |
| IngestStatic.SplitFirst | scripts/ingest-static.ts:268 | splitting at a separator peels off the text before it |
| IngestStatic.SplitThree | scripts/ingest-static.ts:268 | three colon-free pieces joined by colons split back into those pieces |
| IngestStatic.TimeToSeconds | scripts/ingest-static.ts:267-273 | a value without a colon is read as hours alone (fields in TimeToSecondsOfFields, missing parts in TimeToSecondsHoursOnly) |
| IngestStatic.TimeToSecondsOfFields | scripts/ingest-static.ts:267-273 | "H:M:S" with digit fields gives H*3600 + M*60 + S, with H not limited to 23 |
| IngestStatic.TimeToSecondsHoursOnly | scripts/ingest-static.ts:268-272 | missing minutes and seconds count as 0 |
| IngestStatic.TimeToSecondsNonNumericMinutes | scripts/ingest-static.ts:269-272 | a non-numeric component counts as 0 |
| IngestStatic.FilterRecords | scripts/ingest-static.ts:275-290 | the records passing the predicate, in order; the skipped count is input length minus output length, which is the number failing |
| IngestStatic.FilterRecordsMembership | scripts/ingest-static.ts:281-285 | a record is kept iff it is an input record that passes the predicate |
| IngestStatic.BatchInsert | scripts/ingest-static.ts:194-215 | ceil(n / 5000) batches are announced; outside dry runs the inserted batches concatenate back to the input, number exactly that, and each holds 1 to 5000 records, all but the last exactly 5000; a dry run inserts nothing |
| TimeRoundTrip.SecondsRoundTrip | scripts/ingest-static.ts:267-273 | for s >= 0 parsing the formatted time of s gives s back (formatter at packages/api/src/services/sse-departures.ts:47-52) |
| TimeRoundTrip.CanonicalRoundTrip | scripts/ingest-static.ts:267-273 | a canonical time string (any zero-padded hours, minutes and seconds below 60) parses to a non-negative count that formats back to the same string |
| TimeRoundTrip.FormattedIsCanonical | packages/api/src/services/sse-departures.ts:47-52 | every formatted non-negative time is canonical |
| TimeRoundTrip.ParseFields | scripts/ingest-static.ts:267-273 | three padded fields joined by colons parse to h*3600 + m*60 + s |
| TimeRoundTrip.FormatFields | packages/api/src/services/sse-departures.ts:47-52 | the sum of hours, minutes and seconds formats to those padded fields |
| TimeRoundTrip.RealtimeMinusScheduled | packages/api/src/services/sse-departures.ts:164-175 | the scheduled string parses back to the departure time, and the real-time string minus the scheduled one is exactly the delay |
| TimeRoundTrip.ReadBack | packages/api/src/services/sse-departures.ts:171 | a formatted non-negative time parses back to itself |
| TimeRoundTrip.ShiftedReadBack | packages/api/src/services/sse-departures.ts:174 | the shifted real-time string parses back to the departure time plus the delay |
| CronRoute.IsAuthorized | apps/web/src/app/api/cron/gtfs-realtime/route.ts:23-38 | without a truthy secret, accepted iff NODE_ENV is "development"; with one, accepted iff the header is exactly "Bearer " + secret |
| CronRoute.AuthorizedOutsideDevelopment | apps/web/src/app/api/cron/gtfs-realtime/route.ts:28-37 | outside development an accepted request carried the non-empty configured secret |
| CronRoute.EmptySecretRejects | apps/web/src/app/api/cron/gtfs-realtime/route.ts:32-35 | outside development an empty secret counts as missing and rejects everything, even the header "Bearer " |
| CronRoute.SecretEnforcedInDevelopment | apps/web/src/app/api/cron/gtfs-realtime/route.ts:28-37 | a configured secret is enforced in development too |
| CronRoute.AllErrors | apps/web/src/app/api/cron/gtfs-realtime/route.ts:71 | the combined errors are empty iff every result has none, and contain every result's errors |
| CronRoute.AllErrorsSound | apps/web/src/app/api/cron/gtfs-realtime/route.ts:71 | every combined error comes from one of the results |
| CronRoute.SumsOfConcat | apps/web/src/app/api/cron/gtfs-realtime/route.ts:62-72 | each total and the duration are additive over concatenated result lists |
| CronRoute.Aggregate | apps/web/src/app/api/cron/gtfs-realtime/route.ts:62-85 | `syncs` counts the results; success iff no result has errors; errors are omitted iff success, else all errors (non-empty); totals and duration are the sums over the results |
| CronRoute.Status | apps/web/src/app/api/cron/gtfs-realtime/route.ts:42-44 | 401 iff unauthorized, 207 iff errors are reported, 200 iff a report has none |
| CronRoute.StatusOfAggregate | apps/web/src/app/api/cron/gtfs-realtime/route.ts:90-92 | for an aggregated report the status is 200 iff success and 207 iff not |
| CronRoute.TwoSyncTotals | apps/web/src/app/api/cron/gtfs-realtime/route.ts:62-83 | for two results the totals and duration are pairwise sums and the errors are the first result's followed by the second's |
| CronRoute.TwoSyncSuccess | apps/web/src/app/api/cron/gtfs-realtime/route.ts:71-75 | two results aggregate to success iff neither has errors |
| CronRoute.Cron | apps/web/src/app/api/cron/gtfs-realtime/route.ts:40-92 | a rejected request answers Unauthorized and leaves the cache untouched; an accepted one reports exactly two syncs and leaves the cache as the second sync left it, run on the cache the first sync left |
| CronRoute.CronKeepsDelaysWhenSecondTripsFail | apps/web/src/app/api/cron/gtfs-realtime/route.ts:50-58 | when the second sync's trip-update fetch fails, every `delay:` key reads after the invocation as the first sync left it |
| CronRoute.CronDelaysFromSecondSync | apps/web/src/app/api/cron/gtfs-realtime/route.ts:58 | when the second sync fetches trip updates, each trip written last under its id reads back within 60 seconds as the second sync's delay, whatever the first sync did (packages/api/src/services/gtfs-realtime.ts:236-245) |
| CronRoute.SyncSuccess | packages/api/src/services/gtfs-realtime.ts:414-415 | a sync has no errors iff all three of its fetches succeeded |
| CronRoute.CronStatus | apps/web/src/app/api/cron/gtfs-realtime/route.ts:40-92 | an accepted invocation answers 200 iff all six feed fetches succeeded, and 207 otherwise |

## Left out

- Network I/O is left out: `fetchGtfsRt`, the API key, and JSON decoding of feeds. Feeds arrive as decoded `Fetched` values, and a failed fetch (or a missing API key) is a `FetchError` with its message.
- The Upstash client and the lazy `getRedis` singleton are replaced by the `Store` map. So is JSON stringify/parse of cached values, which are stored as data. A Redis write that fails part-way through a feed is not modelled: the model's writes always succeed.
- `getTripDelays` on an empty id list issues an `MGET` with no keys. How the client library treats that is not visible in this code, so the model returns the empty map.
- The Drizzle/Postgres query is modelled as a filter over joined rows plus a calendar map. Dates are integer ordinals. The SQL order among rows with equal departure times is unspecified; the model's stable insertion sort is one admissible order.
- MD5 and `JSON.stringify` are the function parameter `digest`. Nothing is assumed about them, so no collision-freedom is claimed.
- The time-zone clock helpers (`getCurrentTimeSeconds`, `getCurrentDateString`, `getCurrentDayOfWeek`), `Date.now()` and the ISO timestamp become the fields of `Clock`, `SyncClock` and a timestamp parameter.
- Each `SET ... EX` starts its TTL when it is issued, after the awaits before it. The model applies all writes of one sync at the single cache instant `SyncClock.cacheNow`, so every entry of a sync expires at `cacheNow + TTL`. The read-back windows of the sync lemmas are measured from that instant, and the model does not say how much later a later feed's entries expire.
- Latitudes, longitudes, bearings and speeds are `real`; floating-point rounding is not modelled.
- SseDepartures.SecondsToTimeString: defined for every integer with JavaScript's floor and truncating `%`. Its properties are proved only for s >= 0, because a negative time gives strings such as "-1:-1:-1" that no one relies on.
- IngestStatic.ParseInt: models the decimal digits only. JavaScript's double-precision rounding of very long digit strings is not modelled, and "-0" gives 0 where JavaScript gives negative zero.
- The 30-second `setTimeout` between the two syncs is left out (a timer). The two syncs' clocks are separate parameters.
- The `console` logging and the progress output of `batchInsert` are left out (output only).
- The 500 branch of the cron route (route.ts:93-105) is not modelled: `syncGtfsRealtime` catches each feed's error itself, so within this model nothing reaches it.
- The SSE route, the pub/sub channel names, the QStash route and all UI, tRPC and configuration files are outside the modelled core.
- The download, unzip, CSV streaming and table truncation of the ingest script are file and database I/O.
- The `CANCELLED` departure status is declared but never produced by `getStatus`; the model keeps the constructor and proves it unreachable from `GetStatus`.
