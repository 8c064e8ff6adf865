/** The cron endpoint (apps/web/src/app/api/cron/gtfs-realtime/route.ts): a bearer-token check,
    then two syncs per invocation whose results are summed into one report. */
module CronRoute {
  import opened Wrappers
  import opened GtfsRealtime
  import HotCache
  import Seqs

  // ---------------------------------------------------------------------------
  // isAuthorized
  // ---------------------------------------------------------------------------

  /** The two environment variables the endpoint reads. */
  datatype Env = Env(cronSecret: Option<string>, nodeEnv: Option<string>)

  /** JavaScript truthiness of an optional string: present and non-empty. */
  predicate Truthy(v: Option<string>) {
    v.Some? && v.value != ""
  }

  /** Without a configured secret only a development server lets requests in; with one, the
      Authorization header must be exactly `Bearer <secret>`. */
  function IsAuthorized(authHeader: Option<string>, env: Env): (ok: bool)
    ensures !Truthy(env.cronSecret) ==> (ok <==> env.nodeEnv == Some("development"))
    ensures Truthy(env.cronSecret) ==> (ok <==> authHeader == Some("Bearer " + env.cronSecret.value))
  {
    if env.nodeEnv == Some("development") && !Truthy(env.cronSecret) then true
    else if !Truthy(env.cronSecret) then false
    else authHeader == Some("Bearer " + env.cronSecret.value)
  }

  /** Outside development an accepted request always carried the configured secret. */
  lemma AuthorizedOutsideDevelopment(authHeader: Option<string>, env: Env)
    requires env.nodeEnv != Some("development")
    requires IsAuthorized(authHeader, env)
    ensures env.cronSecret.Some? && env.cronSecret.value != ""
    ensures authHeader == Some("Bearer " + env.cronSecret.value)
  {
  }

  /** An empty secret counts as missing: outside development it rejects every request, even one
      whose header is the bare `Bearer ` it would otherwise have to match. */
  lemma EmptySecretRejects(authHeader: Option<string>, nodeEnv: Option<string>)
    requires nodeEnv != Some("development")
    ensures !IsAuthorized(authHeader, Env(Some(""), nodeEnv))
    ensures !IsAuthorized(Some("Bearer "), Env(Some(""), nodeEnv))
  {
  }

  /** A configured secret is enforced even on a development server. */
  lemma SecretEnforcedInDevelopment(authHeader: Option<string>, secret: string)
    requires secret != ""
    ensures IsAuthorized(authHeader, Env(Some(secret), Some("development"))) <==> authHeader == Some("Bearer " + secret)
  {
  }

  // ---------------------------------------------------------------------------
  // Aggregation of the sync results
  // ---------------------------------------------------------------------------

  function SumTripUpdates(rs: seq<SyncResult>): (n: nat)
    ensures |rs| == 0 ==> n == 0
  {
    if |rs| == 0 then 0 else SumTripUpdates(rs[..|rs| - 1]) + rs[|rs| - 1].tripUpdates
  }

  function SumVehiclePositions(rs: seq<SyncResult>): (n: nat)
    ensures |rs| == 0 ==> n == 0
  {
    if |rs| == 0 then 0 else SumVehiclePositions(rs[..|rs| - 1]) + rs[|rs| - 1].vehiclePositions
  }

  function SumServiceAlerts(rs: seq<SyncResult>): (n: nat)
    ensures |rs| == 0 ==> n == 0
  {
    if |rs| == 0 then 0 else SumServiceAlerts(rs[..|rs| - 1]) + rs[|rs| - 1].serviceAlerts
  }

  function SumDurations(rs: seq<SyncResult>): (n: int)
    ensures |rs| == 0 ==> n == 0
  {
    if |rs| == 0 then 0 else SumDurations(rs[..|rs| - 1]) + rs[|rs| - 1].duration
  }

  /** Every sum is additive over concatenated result lists, so the totals of one invocation do
      not depend on how its syncs are grouped. */
  lemma {:induction false} SumsOfConcat(a: seq<SyncResult>, b: seq<SyncResult>)
    ensures SumTripUpdates(a + b) == SumTripUpdates(a) + SumTripUpdates(b)
    ensures SumVehiclePositions(a + b) == SumVehiclePositions(a) + SumVehiclePositions(b)
    ensures SumServiceAlerts(a + b) == SumServiceAlerts(a) + SumServiceAlerts(b)
    ensures SumDurations(a + b) == SumDurations(a) + SumDurations(b)
    decreases |b|
  {
    if |b| == 0 {
      assert a + b == a;
    } else {
      var init := b[..|b| - 1];
      SumsOfConcat(a, init);
      assert (a + b)[..|a + b| - 1] == a + init;
      assert (a + b)[|a + b| - 1] == b[|b| - 1];
    }
  }

  /** `flatMap` of the errors: every result's errors, in result order. The list is empty exactly
      when no result reported an error. */
  function AllErrors(rs: seq<SyncResult>): (es: seq<string>)
    ensures |es| == 0 <==> forall i | 0 <= i < |rs| :: rs[i].errors == []
    ensures forall i | 0 <= i < |rs| :: forall e | e in rs[i].errors :: e in es
  {
    if |rs| == 0 then []
    else
      var init := rs[..|rs| - 1];
      var es := AllErrors(init) + rs[|rs| - 1].errors;
      assert forall i | 0 <= i < |init| :: init[i] == rs[i];
      es
  }

  /** Every error in the aggregate comes from one of the results. */
  lemma {:induction false} AllErrorsSound(rs: seq<SyncResult>, e: string)
    requires e in AllErrors(rs)
    ensures exists i | 0 <= i < |rs| :: e in rs[i].errors
  {
    var init := rs[..|rs| - 1];
    if e in AllErrors(init) {
      AllErrorsSound(init, e);
      var i :| 0 <= i < |init| && e in init[i].errors;
      assert rs[i] == init[i];
    } else {
      assert e in rs[|rs| - 1].errors;
    }
  }

  datatype Totals = Totals(tripUpdates: nat, vehiclePositions: nat, serviceAlerts: nat)

  /** The JSON body of the response. `errors` is left out (None) when there are none; the ISO
      timestamp is supplied by the caller. */
  datatype CronResponse =
    | Unauthorized
    | Report(success: bool, syncs: nat, totals: Totals, duration: int, errors: Option<seq<string>>, timestamp: string)

  /** The report over all sync results of one invocation. */
  function Aggregate(rs: seq<SyncResult>, timestamp: string): (r: CronResponse)
    ensures r.Report? && r.syncs == |rs| && r.timestamp == timestamp
    ensures r.success <==> forall i | 0 <= i < |rs| :: rs[i].errors == []
    ensures r.errors.None? <==> r.success
    ensures r.errors.Some? ==> r.errors.value == AllErrors(rs) && |r.errors.value| > 0
    ensures r.totals == Totals(SumTripUpdates(rs), SumVehiclePositions(rs), SumServiceAlerts(rs))
    ensures r.duration == SumDurations(rs)
  {
    var errors := AllErrors(rs);
    Report(
      |errors| == 0,
      |rs|,
      Totals(SumTripUpdates(rs), SumVehiclePositions(rs), SumServiceAlerts(rs)),
      SumDurations(rs),
      if |errors| > 0 then Some(errors) else None,
      timestamp)
  }

  /** The HTTP status: 401 when rejected, 207 (multi-status) when a sync reported errors,
      200 otherwise. */
  function Status(r: CronResponse): (code: int)
    ensures code == 401 <==> r.Unauthorized?
    ensures code == 207 <==> r.Report? && r.errors.Some?
    ensures code == 200 <==> r.Report? && r.errors.None?
  {
    match r
    case Unauthorized => 401
    case Report(_, _, _, _, errors, _) => if errors.Some? then 207 else 200
  }

  /** For an aggregated report the status agrees with `success`. */
  lemma StatusOfAggregate(rs: seq<SyncResult>, timestamp: string)
    ensures Status(Aggregate(rs, timestamp)) == 200 <==> Aggregate(rs, timestamp).success
    ensures Status(Aggregate(rs, timestamp)) == 207 <==> !Aggregate(rs, timestamp).success
  {
  }

  /** Two results: the totals are the pairwise sums and the errors are the first result's errors
      followed by the second's. */
  lemma TwoSyncTotals(r1: SyncResult, r2: SyncResult, timestamp: string)
    ensures var r := Aggregate([r1, r2], timestamp);
            && r.totals == Totals(r1.tripUpdates + r2.tripUpdates, r1.vehiclePositions + r2.vehiclePositions,
                                  r1.serviceAlerts + r2.serviceAlerts)
            && r.duration == r1.duration + r2.duration
            && (r.errors.Some? ==> r.errors.value == r1.errors + r2.errors)
            && r.syncs == 2
  {
    var rs := [r1, r2];
    assert rs[..1] == [r1];
    assert [r1][..0] == [];
    assert AllErrors([r1]) == r1.errors;
    assert SumTripUpdates([r1]) == r1.tripUpdates && SumVehiclePositions([r1]) == r1.vehiclePositions;
    assert SumServiceAlerts([r1]) == r1.serviceAlerts && SumDurations([r1]) == r1.duration;
    assert AllErrors(rs) == r1.errors + r2.errors;
  }

  // ---------------------------------------------------------------------------
  // GET
  // ---------------------------------------------------------------------------

  /** The three feed documents one sync fetches. */
  datatype Fetches = Fetches(trips: Fetched, vehicles: Fetched, alerts: Fetched)

  function RunSync(store: HotCache.Store, f: Fetches, clock: SyncClock): (HotCache.Store, SyncResult)
  {
    SyncAll(store, f.trips, f.vehicles, f.alerts, clock)
  }

  /** The handler: reject without touching the cache, or run the first sync, then (after the
      pause) the second against the cache the first left behind, and report both. */
  function Cron(store: HotCache.Store, authHeader: Option<string>, env: Env,
                first: Fetches, firstClock: SyncClock, second: Fetches, secondClock: SyncClock,
                timestamp: string): (r: (HotCache.Store, CronResponse))
    ensures !IsAuthorized(authHeader, env) ==> r.0 == store && r.1 == Unauthorized
    ensures IsAuthorized(authHeader, env) ==> r.1.Report? && r.1.syncs == 2
    ensures IsAuthorized(authHeader, env) ==>
              r.0 == RunSync(RunSync(store, first, firstClock).0, second, secondClock).0
  {
    if !IsAuthorized(authHeader, env) then (store, Unauthorized)
    else
      var (s1, result1) := RunSync(store, first, firstClock);
      var (s2, result2) := RunSync(s1, second, secondClock);
      (s2, Aggregate([result1, result2], timestamp))
  }

  predicate AllFetched(f: Fetches) {
    f.trips.Feed? && f.vehicles.Feed? && f.alerts.Feed?
  }

  /** An authorized invocation answers 200 exactly when all six feed fetches succeeded, and 207
      otherwise. */
  lemma CronStatus(store: HotCache.Store, authHeader: Option<string>, env: Env,
                   first: Fetches, firstClock: SyncClock, second: Fetches, secondClock: SyncClock,
                   timestamp: string)
    requires IsAuthorized(authHeader, env)
    ensures var r := Cron(store, authHeader, env, first, firstClock, second, secondClock, timestamp).1;
            && (Status(r) == 200 <==> AllFetched(first) && AllFetched(second))
            && (Status(r) == 207 <==> !(AllFetched(first) && AllFetched(second)))
  {
    var s1 := RunSync(store, first, firstClock).0;
    var result1 := RunSync(store, first, firstClock).1;
    var result2 := RunSync(s1, second, secondClock).1;
    CronReport(store, authHeader, env, first, firstClock, second, secondClock, timestamp);
    SyncSuccess(store, first, firstClock);
    SyncSuccess(s1, second, secondClock);
    StatusOfAggregate([result1, result2], timestamp);
    TwoSyncSuccess(result1, result2, timestamp);
  }

  /** An authorized invocation reports the aggregate of the two syncs, the second run against the
      cache the first left behind. */
  lemma CronReport(store: HotCache.Store, authHeader: Option<string>, env: Env,
                   first: Fetches, firstClock: SyncClock, second: Fetches, secondClock: SyncClock,
                   timestamp: string)
    requires IsAuthorized(authHeader, env)
    ensures var s1 := RunSync(store, first, firstClock).0;
            Cron(store, authHeader, env, first, firstClock, second, secondClock, timestamp).1
            == Aggregate([RunSync(store, first, firstClock).1, RunSync(s1, second, secondClock).1], timestamp)
  {
  }

  /** When the second sync's trip-update fetch fails, every `delay:` key reads after the
      invocation exactly as the first sync left it: the later vehicle and alert steps never
      write there. */
  lemma CronKeepsDelaysWhenSecondTripsFail(store: HotCache.Store, authHeader: Option<string>, env: Env,
                                          first: Fetches, firstClock: SyncClock, second: Fetches, secondClock: SyncClock,
                                          timestamp: string, k: string, at: int)
    requires IsAuthorized(authHeader, env)
    requires second.trips.FetchError? && HotCache.IsDelayKey(k)
    ensures HotCache.Get(Cron(store, authHeader, env, first, firstClock, second, secondClock, timestamp).0, k, at)
            == HotCache.Get(RunSync(store, first, firstClock).0, k, at)
  {
    var s1 := RunSync(store, first, firstClock).0;
    TripKeyIsolated(s1, second.trips, second.vehicles, second.alerts, secondClock, k, at);
  }

  /** When the second sync fetches trip updates, a trip written last under its id reads back,
      within the 60-second TTL, as the second sync's delay for it, whatever the first sync did. */
  lemma CronDelaysFromSecondSync(store: HotCache.Store, authHeader: Option<string>, env: Env,
                                 first: Fetches, firstClock: SyncClock, es: seq<FeedEntity>, vehicles: Fetched,
                                 alerts: Fetched, secondClock: SyncClock, timestamp: string, i: nat, at: int)
    requires IsAuthorized(authHeader, env)
    requires var f := Seqs.Filter(es, HasTripId);
             i < |f| && forall j | i < j < |f| :: TripIdOf(f[j]) != TripIdOf(f[i])
    requires secondClock.cacheNow <= at < secondClock.cacheNow + HotCache.TRIP_DELAY_TTL
    ensures var e := Seqs.Filter(es, HasTripId)[i];
            var s := Cron(store, authHeader, env, first, firstClock, Fetches(Feed(es), vehicles, alerts), secondClock, timestamp).0;
            HotCache.GetTripDelay(s, TripIdOf(e), at)
              == Some(HotCache.TripDelay(TripIdOf(e), DeriveDelay(e.tripUpdate.value), secondClock.tripStamp))
  {
    var s1 := RunSync(store, first, firstClock).0;
    var e := Seqs.Filter(es, HasTripId)[i];
    var s := Cron(store, authHeader, env, first, firstClock, Fetches(Feed(es), vehicles, alerts), secondClock, timestamp).0;
    var afterTrips := SyncTrips(s1, Feed(es), secondClock).0;
    assert s == SyncAll(s1, Feed(es), vehicles, alerts, secondClock).0;
    TripKeyIsolated(s1, Feed(es), vehicles, alerts, secondClock, HotCache.DelayKey(TripIdOf(e)), at);
    SameTripDelay(s, afterTrips, TripIdOf(e), at);
    SyncTripsReadBack(s1, es, secondClock, i, at);
  }

  /** `getTripDelay` looks at the trip's key only. */
  lemma SameTripDelay(a: HotCache.Store, b: HotCache.Store, tripId: string, at: int)
    requires HotCache.Get(a, HotCache.DelayKey(tripId), at) == HotCache.Get(b, HotCache.DelayKey(tripId), at)
    ensures HotCache.GetTripDelay(a, tripId, at) == HotCache.GetTripDelay(b, tripId, at)
  {
  }

  lemma TwoSyncSuccess(r1: SyncResult, r2: SyncResult, timestamp: string)
    ensures Aggregate([r1, r2], timestamp).success <==> r1.errors == [] && r2.errors == []
  {
    var rs := [r1, r2];
    assert rs[0] == r1 && rs[1] == r2;
  }

  /** A sync's result has no errors exactly when its three fetches succeeded. */
  lemma SyncSuccess(store: HotCache.Store, f: Fetches, clock: SyncClock)
    ensures RunSync(store, f, clock).1.errors == [] <==> AllFetched(f)
  {
  }
}
