/** The hot-state cache (packages/db/src/redis.ts): key naming, TTLs, and typed set/get over a
    key-value store whose entries expire. The store is a map from key to (value, expiry) read
    against an explicit clock in seconds; values are kept as data rather than as JSON text. */
module HotCache {
  import opened Wrappers

  // ---------------------------------------------------------------------------
  // Cached entity shapes
  // ---------------------------------------------------------------------------

  /** Latest delay of one trip; positive is late, negative is early. */
  datatype TripDelay = TripDelay(tripId: string, delaySeconds: int, timestamp: int)

  datatype VehicleStatus = IncomingAt | StoppedAt | InTransitTo

  datatype VehiclePosition = VehiclePosition(
    vehicleId: string,
    tripId: string,
    routeId: string,
    latitude: real,
    longitude: real,
    bearing: Option<real>,
    speed: Option<real>,
    timestamp: int,
    currentStopSequence: Option<int>,
    currentStatus: Option<VehicleStatus>)

  datatype ServiceAlert = ServiceAlert(
    alertId: string,
    headerText: string,
    descriptionText: string,
    cause: Option<string>,
    effect: Option<string>,
    affectedRoutes: Option<seq<string>>,
    affectedStops: Option<seq<string>>,
    activePeriodStart: Option<int>,
    activePeriodEnd: Option<int>)

  datatype CachedStatus = CachedOnTime | CachedDelayed | CachedEarly | CachedCancelled

  datatype CachedDeparture = CachedDeparture(
    tripId: string,
    routeId: string,
    routeShortName: string,
    tripHeadsign: string,
    scheduledDeparture: string,
    realtimeDeparture: Option<string>,
    delaySeconds: int,
    status: CachedStatus)

  /** What a key can hold. */
  datatype CachedValue =
    | DelayValue(delay: TripDelay)
    | VehicleValue(position: VehiclePosition)
    | AlertValue(alert: ServiceAlert)
    | AlertIdsValue(ids: seq<string>)
    | DeparturesValue(departures: seq<CachedDeparture>)

  // ---------------------------------------------------------------------------
  // Keys and TTLs
  // ---------------------------------------------------------------------------

  function VehicleKey(vehicleId: string): string { "vehicle:" + vehicleId }
  function DelayKey(tripId: string): string { "delay:" + tripId }
  function StopDeparturesKey(stopId: string): string { "stop:" + stopId + ":departures" }
  function AlertKey(alertId: string): string { "alert:" + alertId }
  const ACTIVE_ALERTS_KEY: string := "alerts:active"

  const VEHICLE_POSITION_TTL: nat := 60
  const TRIP_DELAY_TTL: nat := 60
  const STOP_DEPARTURES_TTL: nat := 30
  const SERVICE_ALERT_TTL: nat := 300

  /** Key namespaces, by prefix. */
  predicate IsDelayKey(key: string) { "delay:" <= key }
  predicate IsVehicleKey(key: string) { "vehicle:" <= key }
  predicate IsAlertKey(key: string) { "alert:" <= key }

  /** A key is in a namespace exactly when that family's builder produces it. */
  lemma NamespaceOfBuilder(key: string)
    ensures IsDelayKey(key) <==> exists id :: key == DelayKey(id)
    ensures IsVehicleKey(key) <==> exists id :: key == VehicleKey(id)
    ensures IsAlertKey(key) <==> exists id :: key == AlertKey(id)
  {
    if IsDelayKey(key) { assert key == DelayKey(key[6..]); }
    if IsVehicleKey(key) { assert key == VehicleKey(key[8..]); }
    if IsAlertKey(key) { assert key == AlertKey(key[6..]); }
  }

  /** No key lies in two of the namespaces, and the active-alerts key lies in none. */
  lemma NamespacesDisjoint(key: string)
    ensures !(IsDelayKey(key) && IsVehicleKey(key))
    ensures !(IsDelayKey(key) && IsAlertKey(key))
    ensures !(IsVehicleKey(key) && IsAlertKey(key))
    ensures !IsDelayKey(ACTIVE_ALERTS_KEY) && !IsVehicleKey(ACTIVE_ALERTS_KEY) && !IsAlertKey(ACTIVE_ALERTS_KEY)
  {
    if IsDelayKey(key) { assert key[0] == 'd'; }
    if IsVehicleKey(key) { assert key[0] == 'v'; }
    assert ACTIVE_ALERTS_KEY[5] == 's';
  }

  /** The key of a prefix-built family determines the id. */
  lemma PrefixInjective(prefix: string, a: string, b: string)
    requires prefix + a == prefix + b
    ensures a == b
  {
    assert a == (prefix + a)[|prefix|..];
    assert b == (prefix + b)[|prefix|..];
  }

  /** Each key builder is injective in its id. */
  lemma KeysInjective(a: string, b: string)
    ensures DelayKey(a) == DelayKey(b) ==> a == b
    ensures VehicleKey(a) == VehicleKey(b) ==> a == b
    ensures AlertKey(a) == AlertKey(b) ==> a == b
    ensures StopDeparturesKey(a) == StopDeparturesKey(b) ==> a == b
  {
    if DelayKey(a) == DelayKey(b) { PrefixInjective("delay:", a, b); }
    if VehicleKey(a) == VehicleKey(b) { PrefixInjective("vehicle:", a, b); }
    if AlertKey(a) == AlertKey(b) { PrefixInjective("alert:", a, b); }
    if StopDeparturesKey(a) == StopDeparturesKey(b) {
      var ka := StopDeparturesKey(a);
      var kb := StopDeparturesKey(b);
      assert |a| == |b|;
      assert a == ka[5..5 + |a|];
      assert b == kb[5..5 + |b|];
    }
  }

  /** The prefixes keep the key families apart from each other and from the active-alerts key. */
  lemma KeysDisjoint(a: string, b: string)
    ensures DelayKey(a) != VehicleKey(b)
    ensures DelayKey(a) != AlertKey(b)
    ensures DelayKey(a) != StopDeparturesKey(b)
    ensures VehicleKey(a) != AlertKey(b)
    ensures VehicleKey(a) != StopDeparturesKey(b)
    ensures AlertKey(a) != StopDeparturesKey(b)
    ensures DelayKey(a) != ACTIVE_ALERTS_KEY
    ensures VehicleKey(a) != ACTIVE_ALERTS_KEY
    ensures AlertKey(a) != ACTIVE_ALERTS_KEY
    ensures StopDeparturesKey(a) != ACTIVE_ALERTS_KEY
  {
    assert DelayKey(a)[0] == 'd';
    assert VehicleKey(b)[0] == 'v' && VehicleKey(a)[0] == 'v';
    assert AlertKey(b)[0] == 'a' && AlertKey(a)[0] == 'a';
    assert StopDeparturesKey(b)[0] == 's' && StopDeparturesKey(a)[0] == 's';
    assert AlertKey(a)[5] == ':' && ACTIVE_ALERTS_KEY[5] == 's';
  }

  // ---------------------------------------------------------------------------
  // The store
  // ---------------------------------------------------------------------------

  /** A stored value and the clock reading (seconds) at which it disappears. */
  datatype Entry = Entry(value: CachedValue, expiresAt: int)

  type Store = map<string, Entry>

  predicate Live(store: Store, key: string, now: int) {
    key in store && now < store[key].expiresAt
  }

  /** `SET key value EX ttl`: unconditional overwrite that (re)starts the expiry. */
  function Set(store: Store, key: string, value: CachedValue, ttl: nat, now: int): (s: Store)
    ensures Live(s, key, now + ttl - 1) && !Live(s, key, now + ttl)
    ensures s.Keys == store.Keys + {key}
    ensures forall k | k in store && k != key :: s[k] == store[k]
  {
    store[key := Entry(value, now + ttl)]
  }

  /** `GET key`: the value when present and not yet expired. */
  function Get(store: Store, key: string, now: int): (r: Option<CachedValue>)
    ensures r.Some? <==> Live(store, key, now)
    ensures r.Some? ==> r.value == store[key].value
  {
    if Live(store, key, now) then Some(store[key].value) else None
  }

  /** A value written with `ttl` is read back from `now` until just before `now + ttl`, and is
      gone from then on. */
  lemma SetThenGet(store: Store, key: string, value: CachedValue, ttl: nat, now: int, later: int)
    requires now <= later
    ensures later < now + ttl ==> Get(Set(store, key, value, ttl, now), key, later) == Some(value)
    ensures later >= now + ttl ==> Get(Set(store, key, value, ttl, now), key, later) == None
  {
  }

  /** Writing one key leaves the reading of every other key unchanged. */
  lemma SetFrame(store: Store, key: string, value: CachedValue, ttl: nat, now: int, other: string, at: int)
    requires other != key
    ensures Get(Set(store, key, value, ttl, now), other, at) == Get(store, other, at)
  {
  }

  /** One buffered write of a sync cycle. */
  datatype Write = Write(key: string, value: CachedValue, ttl: nat)

  /** Performs the writes in order, all at clock `now`. */
  function ApplyWrites(store: Store, writes: seq<Write>, now: int): (s: Store)
    ensures s.Keys == store.Keys + set w | w in writes :: w.key
    ensures forall k | k in store && (forall w | w in writes :: w.key != k) :: s[k] == store[k]
    decreases |writes|
  {
    if |writes| == 0 then store
    else ApplyWrites(Set(store, writes[0].key, writes[0].value, writes[0].ttl, now), writes[1..], now)
  }

  /** A batch that never writes `k` leaves its reading unchanged. */
  lemma ApplyWritesElsewhere(store: Store, writes: seq<Write>, now: int, k: string, at: int)
    requires forall w | w in writes :: w.key != k
    ensures Get(ApplyWrites(store, writes, now), k, at) == Get(store, k, at)
  {
  }

  /** Applying the same batch to two stores that read alike on `k` keeps them alike on `k`. */
  lemma {:induction false} ApplyWritesPointwise(a: Store, b: Store, writes: seq<Write>, now: int, k: string, at: int)
    requires Get(a, k, at) == Get(b, k, at)
    ensures Get(ApplyWrites(a, writes, now), k, at) == Get(ApplyWrites(b, writes, now), k, at)
    decreases |writes|
  {
    if |writes| > 0 {
      var w := writes[0];
      ApplyWritesPointwise(Set(a, w.key, w.value, w.ttl, now), Set(b, w.key, w.value, w.ttl, now), writes[1..], now, k, at);
    }
  }

  /** After a batch of writes, a written key holds the LAST write to it (last write wins). */
  lemma {:induction false} ApplyWritesLastWins(store: Store, writes: seq<Write>, now: int, i: nat)
    requires i < |writes|
    requires forall j | i < j < |writes| :: writes[j].key != writes[i].key
    ensures ApplyWrites(store, writes, now)[writes[i].key] == Entry(writes[i].value, now + writes[i].ttl)
    decreases |writes|
  {
    if i == 0 {
      LastWinsHead(store, writes, now);
    } else {
      var s1 := Set(store, writes[0].key, writes[0].value, writes[0].ttl, now);
      assert writes[1..][i - 1] == writes[i];
      ApplyWritesLastWins(s1, writes[1..], now, i - 1);
    }
  }

  /** The first write of a batch survives when no later write has its key. */
  lemma LastWinsHead(store: Store, writes: seq<Write>, now: int)
    requires |writes| > 0
    requires forall j | 0 < j < |writes| :: writes[j].key != writes[0].key
    ensures ApplyWrites(store, writes, now)[writes[0].key] == Entry(writes[0].value, now + writes[0].ttl)
  {
    var s1 := Set(store, writes[0].key, writes[0].value, writes[0].ttl, now);
    var rest := writes[1..];
    assert forall w | w in rest :: w.key != writes[0].key by {
      forall w | w in rest ensures w.key != writes[0].key {
        var j :| 0 <= j < |rest| && rest[j] == w;
        assert writes[j + 1] == w;
      }
    }
    assert ApplyWrites(store, writes, now) == ApplyWrites(s1, rest, now);
  }

  /** A write that no later write of the batch overrides reads back until its TTL runs out. */
  lemma ApplyWritesReadBack(store: Store, writes: seq<Write>, now: int, i: nat, at: int)
    requires i < |writes|
    requires forall j | i < j < |writes| :: writes[j].key != writes[i].key
    requires now <= at < now + writes[i].ttl
    ensures Get(ApplyWrites(store, writes, now), writes[i].key, at) == Some(writes[i].value)
  {
    ApplyWritesLastWins(store, writes, now, i);
  }

  // ---------------------------------------------------------------------------
  // Typed accessors
  // ---------------------------------------------------------------------------

  function SetVehiclePosition(store: Store, position: VehiclePosition, now: int): (s: Store)
    ensures GetVehiclePosition(s, position.vehicleId, now) == Some(position)
    ensures forall k | k != VehicleKey(position.vehicleId) :: Get(s, k, now) == Get(store, k, now)
  {
    Set(store, VehicleKey(position.vehicleId), VehicleValue(position), VEHICLE_POSITION_TTL, now)
  }

  /** `getVehiclePosition`: null when nothing (live) is stored. */
  function GetVehiclePosition(store: Store, vehicleId: string, now: int): (r: Option<VehiclePosition>)
    ensures !Live(store, VehicleKey(vehicleId), now) ==> r.None?
  {
    match Get(store, VehicleKey(vehicleId), now)
    case Some(VehicleValue(p)) => Some(p)
    case _ => None
  }

  function SetTripDelay(store: Store, delay: TripDelay, now: int): (s: Store)
    ensures forall k | k != DelayKey(delay.tripId) :: Get(s, k, now) == Get(store, k, now)
  {
    Set(store, DelayKey(delay.tripId), DelayValue(delay), TRIP_DELAY_TTL, now)
  }

  /** `getTripDelay`: null when nothing (live) is stored. */
  function GetTripDelay(store: Store, tripId: string, now: int): (r: Option<TripDelay>)
    ensures !Live(store, DelayKey(tripId), now) ==> r.None?
    ensures r.Some? ==> store[DelayKey(tripId)].value == DelayValue(r.value)
  {
    match Get(store, DelayKey(tripId), now)
    case Some(DelayValue(d)) => Some(d)
    case _ => None
  }

  /** `setTripDelay` then `getTripDelay` of the same trip before the TTL runs out gives the delay
      back; from the TTL on it gives null. */
  lemma TripDelayRoundTrip(store: Store, delay: TripDelay, now: int, later: int)
    requires now <= later
    ensures later < now + TRIP_DELAY_TTL ==>
              GetTripDelay(SetTripDelay(store, delay, now), delay.tripId, later) == Some(delay)
    ensures later >= now + TRIP_DELAY_TTL ==>
              GetTripDelay(SetTripDelay(store, delay, now), delay.tripId, later) == None
  {
  }

  /** Overwriting a vehicle position replaces the previous one under the same key. */
  lemma VehiclePositionOverwrite(store: Store, p: VehiclePosition, q: VehiclePosition, now: int, later: int)
    requires p.vehicleId == q.vehicleId && now <= later < now + VEHICLE_POSITION_TTL
    ensures GetVehiclePosition(SetVehiclePosition(SetVehiclePosition(store, p, now), q, later), p.vehicleId, later) == Some(q)
  {
  }

  function SetStopDepartures(store: Store, stopId: string, departures: seq<CachedDeparture>, now: int): (s: Store)
    ensures GetStopDepartures(s, stopId, now) == Some(departures)
    ensures forall k | k != StopDeparturesKey(stopId) :: Get(s, k, now) == Get(store, k, now)
  {
    Set(store, StopDeparturesKey(stopId), DeparturesValue(departures), STOP_DEPARTURES_TTL, now)
  }

  function GetStopDepartures(store: Store, stopId: string, now: int): (r: Option<seq<CachedDeparture>>)
    ensures !Live(store, StopDeparturesKey(stopId), now) ==> r.None?
  {
    match Get(store, StopDeparturesKey(stopId), now)
    case Some(DeparturesValue(ds)) => Some(ds)
    case _ => None
  }

  // ---------------------------------------------------------------------------
  // Well-formedness: every key holds the kind of value its name announces
  // ---------------------------------------------------------------------------

  ghost predicate Conforms(key: string, value: CachedValue) {
    match value
    case DelayValue(d) => key == DelayKey(d.tripId)
    case VehicleValue(p) => key == VehicleKey(p.vehicleId)
    case AlertValue(a) => key == AlertKey(a.alertId)
    case AlertIdsValue(_) => key == ACTIVE_ALERTS_KEY
    case DeparturesValue(_) => exists stopId :: key == StopDeparturesKey(stopId)
  }

  ghost predicate WellFormed(store: Store) {
    forall k | k in store :: Conforms(k, store[k].value)
  }

  lemma SetPreservesWellFormed(store: Store, key: string, value: CachedValue, ttl: nat, now: int)
    requires WellFormed(store) && Conforms(key, value)
    ensures WellFormed(Set(store, key, value, ttl, now))
  {
  }

  /** In a well-formed store a live `delay:` key always decodes: `getTripDelay` is null exactly
      when nothing live is stored, and the delay it returns belongs to the trip asked for. */
  lemma GetTripDelayExact(store: Store, tripId: string, now: int)
    requires WellFormed(store)
    ensures GetTripDelay(store, tripId, now).Some? <==> Live(store, DelayKey(tripId), now)
    ensures GetTripDelay(store, tripId, now).Some? ==> GetTripDelay(store, tripId, now).value.tripId == tripId
  {
    var k := DelayKey(tripId);
    if k in store {
      match store[k].value
      case DelayValue(d) => KeysInjective(d.tripId, tripId);
      case VehicleValue(p) => KeysDisjoint(tripId, p.vehicleId);
      case AlertValue(a) => KeysDisjoint(tripId, a.alertId);
      case AlertIdsValue(_) => KeysDisjoint(tripId, tripId);
      case DeparturesValue(_) =>
        var stopId :| k == StopDeparturesKey(stopId);
        KeysDisjoint(tripId, stopId);
    }
  }

  // ---------------------------------------------------------------------------
  // Batch lookup
  // ---------------------------------------------------------------------------

  /** `getTripDelays`: one `MGET` over the delay keys of `tripIds`; the i-th reply, when non-null,
      is recorded under `tripIds[i]` (later indices overwrite earlier, as `Map.set` does). */
  function GetTripDelays(store: Store, tripIds: seq<string>, now: int): (delays: map<string, TripDelay>)
    ensures forall t | t in delays :: t in tripIds
    ensures forall i | 0 <= i < |tripIds| ::
              (tripIds[i] in delays <==> GetTripDelay(store, tripIds[i], now).Some?)
    ensures forall i | 0 <= i < |tripIds| && tripIds[i] in delays ::
              delays[tripIds[i]] == GetTripDelay(store, tripIds[i], now).value
  {
    if |tripIds| == 0 then map[]
    else
      var prefix := tripIds[..|tripIds| - 1];
      var last := tripIds[|tripIds| - 1];
      var earlier := GetTripDelays(store, prefix, now);
      assert forall i | 0 <= i < |prefix| :: prefix[i] == tripIds[i];
      assert forall t | t in prefix :: t in tripIds;
      match GetTripDelay(store, last, now)
      case Some(d) => earlier[last := d]
      case None => earlier
  }
}
