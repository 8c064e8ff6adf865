/** Feed normalisation (packages/api/src/services/gtfs-realtime.ts): the three GTFS-Realtime
    feeds, already fetched and decoded, are turned into cache writes, and the composite sync keeps
    each feed's failure to itself. */
module GtfsRealtime {
  import opened Wrappers
  import opened Seqs
  import opened HotCache

  // ---------------------------------------------------------------------------
  // Decoded feed entities (only the fields the normaliser reads)
  // ---------------------------------------------------------------------------

  datatype TripDescriptor = TripDescriptor(tripId: Option<string>, routeId: Option<string>)

  datatype StopTimeEvent = StopTimeEvent(delay: Option<int>)

  datatype StopTimeUpdate = StopTimeUpdate(arrival: Option<StopTimeEvent>, departure: Option<StopTimeEvent>)

  datatype TripUpdate = TripUpdate(
    trip: Option<TripDescriptor>,
    stopTimeUpdate: Option<seq<StopTimeUpdate>>,
    delay: Option<int>)

  datatype Position = Position(latitude: real, longitude: real, bearing: Option<real>, speed: Option<real>)

  datatype VehicleDescriptor = VehicleDescriptor(id: Option<string>)

  datatype VehicleUpdate = VehicleUpdate(
    trip: Option<TripDescriptor>,
    vehicle: Option<VehicleDescriptor>,
    position: Option<Position>,
    currentStopSequence: Option<int>,
    currentStatus: Option<int>,
    timestamp: Option<int>)

  datatype Translation = Translation(text: string, language: Option<string>)

  datatype TranslatedString = TranslatedString(translation: Option<seq<Translation>>)

  datatype EntitySelector = EntitySelector(routeId: Option<string>, stopId: Option<string>)

  datatype TimeRange = TimeRange(start: Option<int>, end: Option<int>)

  datatype Alert = Alert(
    activePeriod: Option<seq<TimeRange>>,
    informedEntity: Option<seq<EntitySelector>>,
    cause: Option<int>,
    effect: Option<int>,
    headerText: Option<TranslatedString>,
    descriptionText: Option<TranslatedString>)

  datatype FeedEntity = FeedEntity(
    id: string,
    tripUpdate: Option<TripUpdate>,
    vehicle: Option<VehicleUpdate>,
    alert: Option<Alert>)

  // ---------------------------------------------------------------------------
  // Enumerations of the GTFS Realtime reference (Alert.Cause, Alert.Effect, VehicleStopStatus)
  // ---------------------------------------------------------------------------

  datatype AlertCause =
    | UnknownCause | OtherCause | TechnicalProblem | Strike | Demonstration | Accident
    | Holiday | Weather | Maintenance | Construction | PoliceActivity | MedicalEmergency
  {
    /** The numeric value on the wire. */
    function Code(): int {
      match this
      case UnknownCause => 1      case OtherCause => 2       case TechnicalProblem => 3
      case Strike => 4            case Demonstration => 5    case Accident => 6
      case Holiday => 7           case Weather => 8          case Maintenance => 9
      case Construction => 10     case PoliceActivity => 11  case MedicalEmergency => 12
    }

    /** The name stored in the cache. */
    function Name(): string {
      match this
      case UnknownCause => "UNKNOWN_CAUSE"          case OtherCause => "OTHER_CAUSE"
      case TechnicalProblem => "TECHNICAL_PROBLEM"  case Strike => "STRIKE"
      case Demonstration => "DEMONSTRATION"         case Accident => "ACCIDENT"
      case Holiday => "HOLIDAY"                     case Weather => "WEATHER"
      case Maintenance => "MAINTENANCE"             case Construction => "CONSTRUCTION"
      case PoliceActivity => "POLICE_ACTIVITY"      case MedicalEmergency => "MEDICAL_EMERGENCY"
    }
  }

  /** `CAUSE_MAP[code]`: only the codes 1 to 12 are mapped. */
  function CauseFromCode(code: int): (r: Option<AlertCause>)
    ensures r.Some? <==> 1 <= code <= 12
    ensures r.Some? ==> r.value.Code() == code
  {
    if code == 1 then Some(UnknownCause) else if code == 2 then Some(OtherCause)
    else if code == 3 then Some(TechnicalProblem) else if code == 4 then Some(Strike)
    else if code == 5 then Some(Demonstration) else if code == 6 then Some(Accident)
    else if code == 7 then Some(Holiday) else if code == 8 then Some(Weather)
    else if code == 9 then Some(Maintenance) else if code == 10 then Some(Construction)
    else if code == 11 then Some(PoliceActivity) else if code == 12 then Some(MedicalEmergency)
    else None
  }

  /** Every cause is reached from its own code and from no other. */
  lemma CauseCodeRoundTrip(c: AlertCause, code: int)
    ensures CauseFromCode(code) == Some(c) <==> code == c.Code()
  {
  }

  datatype AlertEffect =
    | NoService | ReducedService | SignificantDelays | Detour | AdditionalService
    | ModifiedService | OtherEffect | UnknownEffect | StopMoved
  {
    function Code(): int {
      match this
      case NoService => 1          case ReducedService => 2   case SignificantDelays => 3
      case Detour => 4             case AdditionalService => 5 case ModifiedService => 6
      case OtherEffect => 7        case UnknownEffect => 8    case StopMoved => 9
    }

    function Name(): string {
      match this
      case NoService => "NO_SERVICE"                  case ReducedService => "REDUCED_SERVICE"
      case SignificantDelays => "SIGNIFICANT_DELAYS"  case Detour => "DETOUR"
      case AdditionalService => "ADDITIONAL_SERVICE"  case ModifiedService => "MODIFIED_SERVICE"
      case OtherEffect => "OTHER_EFFECT"              case UnknownEffect => "UNKNOWN_EFFECT"
      case StopMoved => "STOP_MOVED"
    }
  }

  /** `EFFECT_MAP[code]`: only the codes 1 to 9 are mapped. */
  function EffectFromCode(code: int): (r: Option<AlertEffect>)
    ensures r.Some? <==> 1 <= code <= 9
    ensures r.Some? ==> r.value.Code() == code
  {
    if code == 1 then Some(NoService) else if code == 2 then Some(ReducedService)
    else if code == 3 then Some(SignificantDelays) else if code == 4 then Some(Detour)
    else if code == 5 then Some(AdditionalService) else if code == 6 then Some(ModifiedService)
    else if code == 7 then Some(OtherEffect) else if code == 8 then Some(UnknownEffect)
    else if code == 9 then Some(StopMoved)
    else None
  }

  lemma EffectCodeRoundTrip(e: AlertEffect, code: int)
    ensures EffectFromCode(code) == Some(e) <==> code == e.Code()
  {
  }

  /** `VehicleStopStatus` numbering on the wire. */
  function VehicleStatusCode(s: VehicleStatus): int {
    match s
    case IncomingAt => 0
    case StoppedAt => 1
    case InTransitTo => 2
  }

  /** `VEHICLE_STATUS_MAP[code]`: only 0, 1 and 2 are mapped. */
  function VehicleStatusFromCode(code: int): (r: Option<VehicleStatus>)
    ensures r.Some? <==> 0 <= code <= 2
    ensures r.Some? ==> VehicleStatusCode(r.value) == code
  {
    if code == 0 then Some(IncomingAt)
    else if code == 1 then Some(StoppedAt)
    else if code == 2 then Some(InTransitTo)
    else None
  }

  lemma VehicleStatusRoundTrip(s: VehicleStatus, code: int)
    ensures VehicleStatusFromCode(code) == Some(s) <==> code == VehicleStatusCode(s)
  {
  }

  /** The absent-or-code lookups the normaliser performs. */
  function MapCause(code: Option<int>): (r: Option<string>)
    ensures r.Some? <==> code.Some? && 1 <= code.value <= 12
    ensures r.Some? ==> exists c: AlertCause :: c.Code() == code.value && c.Name() == r.value
  {
    match code
    case None => None
    case Some(c) => match CauseFromCode(c) case Some(v) => Some(v.Name()) case None => None
  }

  function MapEffect(code: Option<int>): (r: Option<string>)
    ensures r.Some? <==> code.Some? && 1 <= code.value <= 9
    ensures r.Some? ==> exists x: AlertEffect :: x.Code() == code.value && x.Name() == r.value
  {
    match code
    case None => None
    case Some(c) => match EffectFromCode(c) case Some(v) => Some(v.Name()) case None => None
  }

  function MapVehicleStatus(code: Option<int>): (r: Option<VehicleStatus>)
    ensures r.Some? <==> code.Some? && 0 <= code.value <= 2
    ensures r.Some? ==> VehicleStatusCode(r.value) == code.value
  {
    match code
    case None => None
    case Some(c) => VehicleStatusFromCode(c)
  }

  // ---------------------------------------------------------------------------
  // Trip updates
  // ---------------------------------------------------------------------------

  /** `entity.tripUpdate?.trip?.tripId` is truthy: present and non-empty. */
  predicate HasTripId(e: FeedEntity) {
    && e.tripUpdate.Some?
    && e.tripUpdate.value.trip.Some?
    && e.tripUpdate.value.trip.value.tripId.Some?
    && e.tripUpdate.value.trip.value.tripId.value != ""
  }

  /** The trip's delay: the trip-level delay unless absent or zero, then the first stop-time
      update's departure delay, then its arrival delay, then zero. */
  function DeriveDelay(tu: TripUpdate): (d: int)
    ensures tu.delay.Some? && tu.delay.value != 0 ==> d == tu.delay.value
    ensures || d == 0 || d == tu.delay.GetOr(0)
            || (&& tu.stopTimeUpdate.Some? && |tu.stopTimeUpdate.value| > 0
                && (|| tu.stopTimeUpdate.value[0].departure == Some(StopTimeEvent(Some(d)))
                    || tu.stopTimeUpdate.value[0].arrival == Some(StopTimeEvent(Some(d)))))
  {
    var tripLevel := tu.delay.GetOr(0);
    if tripLevel == 0 && tu.stopTimeUpdate.Some? && |tu.stopTimeUpdate.value| > 0 then
      var first := tu.stopTimeUpdate.value[0];
      match first.departure
      case Some(StopTimeEvent(Some(d))) => d
      case _ =>
        match first.arrival
        case Some(StopTimeEvent(Some(a))) => a
        case _ => 0
    else tripLevel
  }

  /** The fallback chain of the delay derivation, case by case. */
  lemma DeriveDelayChain(tu: TripUpdate)
    ensures tu.delay.Some? && tu.delay.value != 0 ==> DeriveDelay(tu) == tu.delay.value
    ensures ((tu.delay.None? || tu.delay == Some(0)) && (tu.stopTimeUpdate.None? || |tu.stopTimeUpdate.value| == 0))
              ==> DeriveDelay(tu) == 0
    ensures (tu.delay.None? || tu.delay == Some(0)) && tu.stopTimeUpdate.Some? && |tu.stopTimeUpdate.value| > 0 ==>
              var first := tu.stopTimeUpdate.value[0];
              && (first.departure.Some? && first.departure.value.delay.Some? ==>
                    DeriveDelay(tu) == first.departure.value.delay.value)
              && ((first.departure.None? || first.departure.value.delay.None?) &&
                  first.arrival.Some? && first.arrival.value.delay.Some? ==>
                    DeriveDelay(tu) == first.arrival.value.delay.value)
              && ((first.departure.None? || first.departure.value.delay.None?) &&
                  (first.arrival.None? || first.arrival.value.delay.None?) ==>
                    DeriveDelay(tu) == 0)
  {
  }

  /** An explicit departure delay of zero is used as is; the arrival delay is not consulted. */
  lemma ZeroDepartureDelayStops(tu: TripUpdate, arrivalDelay: int)
    requires tu.delay.None?
    requires tu.stopTimeUpdate == Some([StopTimeUpdate(Some(StopTimeEvent(Some(arrivalDelay))), Some(StopTimeEvent(Some(0))))])
    ensures DeriveDelay(tu) == 0
  {
  }

  /** The trip id of a usable trip-update entity. */
  function TripIdOf(e: FeedEntity): string
    requires HasTripId(e)
  {
    e.tripUpdate.value.trip.value.tripId.value
  }

  /** The write for one usable trip-update entity. */
  function DelayWrite(e: FeedEntity, timestamp: int): (w: Write)
    requires HasTripId(e)
    ensures IsDelayKey(w.key) && w.ttl == TRIP_DELAY_TTL
    ensures w.key == DelayKey(TripIdOf(e))
    ensures w.value == DelayValue(TripDelay(TripIdOf(e), DeriveDelay(e.tripUpdate.value), timestamp))
  {
    var tripId := TripIdOf(e);
    Write(DelayKey(tripId), DelayValue(TripDelay(tripId, DeriveDelay(e.tripUpdate.value), timestamp)), TRIP_DELAY_TTL)
  }

  /** The cache writes of one sync of a feed and the count the sync reports. */
  datatype Processed = Processed(writes: seq<Write>, count: nat)

  /** `processTripUpdates` after the fetch: one delay write per entity that names a trip, in feed
      order; the count is the number of writes. */
  function ProcessTripUpdates(entities: seq<FeedEntity>, timestamp: int): (r: Processed)
    ensures r.count == |r.writes| == |Filter(entities, HasTripId)|
    ensures forall i | 0 <= i < |r.writes| :: r.writes[i] == DelayWrite(Filter(entities, HasTripId)[i], timestamp)
  {
    if |entities| == 0 then Processed([], 0)
    else
      var rest := ProcessTripUpdates(entities[1..], timestamp);
      if HasTripId(entities[0]) then Processed([DelayWrite(entities[0], timestamp)] + rest.writes, rest.count + 1)
      else rest
  }

  // ---------------------------------------------------------------------------
  // Vehicle positions
  // ---------------------------------------------------------------------------

  /** `entity.vehicle?.vehicle?.id` is truthy and `entity.vehicle.position` is present. */
  predicate HasVehicle(e: FeedEntity) {
    && e.vehicle.Some?
    && e.vehicle.value.vehicle.Some?
    && e.vehicle.value.vehicle.value.id.Some?
    && e.vehicle.value.vehicle.value.id.value != ""
    && e.vehicle.value.position.Some?
  }

  function TripField(trip: Option<TripDescriptor>, routeField: bool): string {
    match trip
    case None => ""
    case Some(t) => if routeField then t.routeId.GetOr("") else t.tripId.GetOr("")
  }

  /** The cached position of one usable vehicle entity; `syncTime` is the sync's own clock in
      milliseconds, used when the feed gives no (or a zero) timestamp. */
  function VehiclePositionOf(e: FeedEntity, syncTime: int): (p: VehiclePosition)
    requires HasVehicle(e)
    ensures p.vehicleId == e.vehicle.value.vehicle.value.id.value
    ensures e.vehicle.value.trip.None? ==> p.tripId == "" && p.routeId == ""
    ensures e.vehicle.value.trip.Some? ==>
              && p.tripId == e.vehicle.value.trip.value.tripId.GetOr("")
              && p.routeId == e.vehicle.value.trip.value.routeId.GetOr("")
    ensures var pos := e.vehicle.value.position.value;
            && p.latitude == pos.latitude && p.longitude == pos.longitude
            && p.bearing == pos.bearing && p.speed == pos.speed
    ensures p.currentStopSequence == e.vehicle.value.currentStopSequence
    ensures p.timestamp == (if e.vehicle.value.timestamp.Some? && e.vehicle.value.timestamp.value != 0
                            then e.vehicle.value.timestamp.value * 1000 else syncTime)
    ensures p.currentStatus.Some? <==> e.vehicle.value.currentStatus.Some? && 0 <= e.vehicle.value.currentStatus.value <= 2
    ensures e.vehicle.value.currentStatus == Some(0) ==> p.currentStatus == Some(IncomingAt)
    ensures e.vehicle.value.currentStatus == Some(1) ==> p.currentStatus == Some(StoppedAt)
    ensures e.vehicle.value.currentStatus == Some(2) ==> p.currentStatus == Some(InTransitTo)
  {
    var v := e.vehicle.value;
    var pos := v.position.value;
    VehiclePosition(
      v.vehicle.value.id.value,
      TripField(v.trip, false),
      TripField(v.trip, true),
      pos.latitude,
      pos.longitude,
      pos.bearing,
      pos.speed,
      match v.timestamp case Some(t) => (if t != 0 then t * 1000 else syncTime) case None => syncTime,
      v.currentStopSequence,
      MapVehicleStatus(v.currentStatus))
  }

  function VehicleWrite(e: FeedEntity, syncTime: int): (w: Write)
    requires HasVehicle(e)
    ensures IsVehicleKey(w.key) && w.ttl == VEHICLE_POSITION_TTL
    ensures w.key == VehicleKey(e.vehicle.value.vehicle.value.id.value)
    ensures w.value == VehicleValue(VehiclePositionOf(e, syncTime))
  {
    var p := VehiclePositionOf(e, syncTime);
    Write(VehicleKey(p.vehicleId), VehicleValue(p), VEHICLE_POSITION_TTL)
  }

  /** `processVehiclePositions` after the fetch: one write per entity with a vehicle id and a
      position, in feed order; the count is the number of writes. */
  function ProcessVehiclePositions(entities: seq<FeedEntity>, syncTime: int): (r: Processed)
    ensures r.count == |r.writes| == |Filter(entities, HasVehicle)|
    ensures forall i | 0 <= i < |r.writes| :: r.writes[i] == VehicleWrite(Filter(entities, HasVehicle)[i], syncTime)
  {
    if |entities| == 0 then Processed([], 0)
    else
      var rest := ProcessVehiclePositions(entities[1..], syncTime);
      if HasVehicle(entities[0]) then Processed([VehicleWrite(entities[0], syncTime)] + rest.writes, rest.count + 1)
      else rest
  }

  // ---------------------------------------------------------------------------
  // Service alerts
  // ---------------------------------------------------------------------------

  predicate IsEnglish(t: Translation) {
    t.language == Some("en") || t.language == Some("EN")
  }

  /** Index of the first English translation, or |ts| when there is none. */
  function FirstEnglish(ts: seq<Translation>): (i: nat)
    ensures i <= |ts|
    ensures i < |ts| ==> IsEnglish(ts[i])
    ensures forall j | 0 <= j < i :: !IsEnglish(ts[j])
  {
    if |ts| == 0 then 0
    else if IsEnglish(ts[0]) then 0
    else 1 + FirstEnglish(ts[1..])
  }

  /** `getTranslatedText`: nothing for a missing or empty translation list; otherwise the text of
      the first English ("en" or "EN") entry, falling back to the first entry. */
  function GetTranslatedText(s: Option<TranslatedString>): (r: Option<string>)
    ensures r.None? <==> s.None? || s.value.translation.None? || |s.value.translation.value| == 0
    ensures r.Some? ==>
              var ts := s.value.translation.value;
              || (exists i | 0 <= i < |ts| :: IsEnglish(ts[i]) && r.value == ts[i].text
                                             && forall j | 0 <= j < i :: !IsEnglish(ts[j]))
              || ((forall i | 0 <= i < |ts| :: !IsEnglish(ts[i])) && r.value == ts[0].text)
  {
    match s
    case None => None
    case Some(TranslatedString(None)) => None
    case Some(TranslatedString(Some(ts))) =>
      if |ts| == 0 then None
      else
        var i := FirstEnglish(ts);
        if i < |ts| then Some(ts[i].text) else Some(ts[0].text)
  }

  /** `x || fallback` on an optional string: the fallback for absent and for empty text. */
  function TextOr(x: Option<string>, fallback: string): (r: string)
    ensures x.Some? && x.value != "" ==> r == x.value
    ensures x.None? || x == Some("") ==> r == fallback
  {
    match x
    case Some(t) => if t != "" then t else fallback
    case None => fallback
  }

  /** `ie.routeId` is truthy: present and non-empty. */
  predicate RouteTruthy(ie: EntitySelector) {
    ie.routeId.Some? && ie.routeId.value != ""
  }

  /** The truthy `routeId`s of the informed entities, in order and with repetitions: the i-th
      listed id is the id of the i-th informed entity that has a truthy one. */
  function AffectedRouteIds(ies: seq<EntitySelector>): (r: seq<string>)
    ensures |r| == |Filter(ies, RouteTruthy)| <= |ies|
    ensures forall i | 0 <= i < |r| :: Filter(ies, RouteTruthy)[i].routeId == Some(r[i])
    ensures forall x | x in r :: x != "" && exists i | 0 <= i < |ies| :: ies[i].routeId == Some(x)
  {
    if |ies| == 0 then []
    else
      var rest := AffectedRouteIds(ies[1..]);
      assert forall i | 0 <= i < |ies[1..]| :: ies[1..][i] == ies[i + 1];
      match ies[0].routeId
      case Some(x) => if x != "" then [x] + rest else rest
      case None => rest
  }

  /** `ie.stopId` is truthy: present and non-empty. */
  predicate StopTruthy(ie: EntitySelector) {
    ie.stopId.Some? && ie.stopId.value != ""
  }

  /** The truthy `stopId`s of the informed entities, in order and with repetitions: the i-th
      listed id is the id of the i-th informed entity that has a truthy one. */
  function AffectedStopIds(ies: seq<EntitySelector>): (r: seq<string>)
    ensures |r| == |Filter(ies, StopTruthy)| <= |ies|
    ensures forall i | 0 <= i < |r| :: Filter(ies, StopTruthy)[i].stopId == Some(r[i])
    ensures forall x | x in r :: x != "" && exists i | 0 <= i < |ies| :: ies[i].stopId == Some(x)
  {
    if |ies| == 0 then []
    else
      var rest := AffectedStopIds(ies[1..]);
      assert forall i | 0 <= i < |ies[1..]| :: ies[1..][i] == ies[i + 1];
      match ies[0].stopId
      case Some(x) => if x != "" then [x] + rest else rest
      case None => rest
  }

  /** Every truthy route id of an informed entity is listed. */
  lemma {:induction false} AffectedRouteIdsComplete(ies: seq<EntitySelector>, i: nat)
    requires i < |ies| && ies[i].routeId.Some? && ies[i].routeId.value != ""
    ensures ies[i].routeId.value in AffectedRouteIds(ies)
  {
    if i > 0 {
      assert ies[1..][i - 1] == ies[i];
      AffectedRouteIdsComplete(ies[1..], i - 1);
    }
  }

  /** Every truthy stop id of an informed entity is listed. */
  lemma {:induction false} AffectedStopIdsComplete(ies: seq<EntitySelector>, i: nat)
    requires i < |ies| && ies[i].stopId.Some? && ies[i].stopId.value != ""
    ensures ies[i].stopId.value in AffectedStopIds(ies)
  {
    if i > 0 {
      assert ies[1..][i - 1] == ies[i];
      AffectedStopIdsComplete(ies[1..], i - 1);
    }
  }

  /** An empty list is stored as absent. */
  function NonEmptyOrAbsent(xs: seq<string>): (r: Option<seq<string>>)
    ensures r.None? <==> |xs| == 0
    ensures r.Some? ==> r.value == xs
  {
    if |xs| > 0 then Some(xs) else None
  }

  predicate HasAlert(e: FeedEntity) {
    e.alert.Some?
  }

  /** The cached alert built from one alert-bearing entity. */
  function ServiceAlertOf(e: FeedEntity): (a: ServiceAlert)
    requires HasAlert(e)
    ensures a.alertId == e.id
    ensures a.headerText != ""
    ensures a.cause.Some? <==> e.alert.value.cause.Some? && 1 <= e.alert.value.cause.value <= 12
    ensures a.effect.Some? <==> e.alert.value.effect.Some? && 1 <= e.alert.value.effect.value <= 9
    ensures a.cause == MapCause(e.alert.value.cause) && a.effect == MapEffect(e.alert.value.effect)
    ensures var t := GetTranslatedText(e.alert.value.headerText);
            a.headerText == if t.Some? && t.value != "" then t.value else "Service Alert"
    ensures var t := GetTranslatedText(e.alert.value.descriptionText);
            a.descriptionText == if t.Some? then t.value else ""
    ensures var ies := e.alert.value.informedEntity.GetOr([]);
            && a.affectedRoutes == NonEmptyOrAbsent(AffectedRouteIds(ies))
            && a.affectedStops == NonEmptyOrAbsent(AffectedStopIds(ies))
    ensures var ps := e.alert.value.activePeriod;
            if ps.Some? && |ps.value| > 0
            then a.activePeriodStart == ps.value[0].start && a.activePeriodEnd == ps.value[0].end
            else a.activePeriodStart.None? && a.activePeriodEnd.None?
  {
    var al := e.alert.value;
    var ies := al.informedEntity.GetOr([]);
    var firstPeriod := match al.activePeriod
      case Some(ps) => if |ps| > 0 then Some(ps[0]) else None
      case None => None;
    ServiceAlert(
      e.id,
      TextOr(GetTranslatedText(al.headerText), "Service Alert"),
      TextOr(GetTranslatedText(al.descriptionText), ""),
      MapCause(al.cause),
      MapEffect(al.effect),
      NonEmptyOrAbsent(AffectedRouteIds(ies)),
      NonEmptyOrAbsent(AffectedStopIds(ies)),
      match firstPeriod case Some(p) => p.start case None => None,
      match firstPeriod case Some(p) => p.end case None => None)
  }

  function AlertWrite(e: FeedEntity): (w: Write)
    requires HasAlert(e)
    ensures IsAlertKey(w.key) && w.ttl == SERVICE_ALERT_TTL
    ensures w.key == AlertKey(e.id) && w.value == AlertValue(ServiceAlertOf(e))
  {
    Write(AlertKey(e.id), AlertValue(ServiceAlertOf(e)), SERVICE_ALERT_TTL)
  }

  /** The per-alert writes and the ids collected along the way. */
  datatype AlertBatch = AlertBatch(writes: seq<Write>, alertIds: seq<string>, count: nat)

  /** One write per alert, in order. */
  function AlertWrites(alerts: seq<FeedEntity>): (r: seq<Write>)
    requires forall e | e in alerts :: HasAlert(e)
    ensures |r| == |alerts|
    ensures forall i | 0 <= i < |r| :: r[i] == AlertWrite(alerts[i])
  {
    seq(|alerts|, i requires 0 <= i < |alerts| => AlertWrite(alerts[i]))
  }

  function AlertIds(alerts: seq<FeedEntity>): (r: seq<string>)
    ensures |r| == |alerts|
    ensures forall i | 0 <= i < |r| :: r[i] == alerts[i].id
  {
    if |alerts| == 0 then [] else [alerts[0].id] + AlertIds(alerts[1..])
  }

  function CollectAlerts(entities: seq<FeedEntity>): (r: AlertBatch)
    ensures r.count == |r.alertIds| == |r.writes| == |Filter(entities, HasAlert)|
    ensures forall i | 0 <= i < |r.writes| ::
              r.writes[i] == AlertWrite(Filter(entities, HasAlert)[i]) && r.alertIds[i] == Filter(entities, HasAlert)[i].id
  {
    var alerts := Filter(entities, HasAlert);
    AlertBatch(AlertWrites(alerts), AlertIds(alerts), |alerts|)
  }

  /** `processServiceAlerts` after the fetch: one write per alert-bearing entity, in feed order,
      then the active-alerts index rewritten to exactly their ids; the count is the number of
      alerts, which is also the length of the index. */
  function ProcessServiceAlerts(entities: seq<FeedEntity>): (r: Processed)
    ensures |r.writes| == r.count + 1
    ensures r.count == |Filter(entities, HasAlert)|
    ensures forall i | 0 <= i < r.count :: r.writes[i] == AlertWrite(Filter(entities, HasAlert)[i])
    ensures r.writes[r.count].key == ACTIVE_ALERTS_KEY && r.writes[r.count].ttl == SERVICE_ALERT_TTL
    ensures r.writes[r.count].value.AlertIdsValue?
    ensures |r.writes[r.count].value.ids| == r.count
    ensures forall i | 0 <= i < r.count :: r.writes[r.count].value.ids[i] == Filter(entities, HasAlert)[i].id
  {
    var batch := CollectAlerts(entities);
    Processed(batch.writes + [Write(ACTIVE_ALERTS_KEY, AlertIdsValue(batch.alertIds), SERVICE_ALERT_TTL)], batch.count)
  }

  // ---------------------------------------------------------------------------
  // Namespaces: each feed writes only its own keys
  // ---------------------------------------------------------------------------

  lemma TripUpdateWritesInNamespace(entities: seq<FeedEntity>, timestamp: int)
    ensures forall w | w in ProcessTripUpdates(entities, timestamp).writes :: IsDelayKey(w.key)
  {
  }

  lemma VehicleWritesInNamespace(entities: seq<FeedEntity>, syncTime: int)
    ensures forall w | w in ProcessVehiclePositions(entities, syncTime).writes :: IsVehicleKey(w.key)
  {
  }

  lemma AlertWritesInNamespace(entities: seq<FeedEntity>)
    ensures forall w | w in ProcessServiceAlerts(entities).writes :: IsAlertKey(w.key) || w.key == ACTIVE_ALERTS_KEY
  {
  }

  // ---------------------------------------------------------------------------
  // syncGtfsRealtime
  // ---------------------------------------------------------------------------

  /** How one feed's processing ended: its count, or the message of the error it raised. */
  datatype FeedOutcome = Counted(count: nat) | Failed(message: string)

  datatype SyncResult = SyncResult(
    success: bool,
    tripUpdates: nat,
    vehiclePositions: nat,
    serviceAlerts: nat,
    errors: seq<string>,
    duration: int)

  const TRIP_UPDATES_LABEL: string := "Trip updates: "
  const VEHICLE_POSITIONS_LABEL: string := "Vehicle positions: "
  const SERVICE_ALERTS_LABEL: string := "Service alerts: "

  function CountOf(o: FeedOutcome): nat {
    match o
    case Counted(n) => n
    case Failed(_) => 0
  }

  function ErrorsOf(o: FeedOutcome, prefix: string): (r: seq<string>)
    ensures |r| == if o.Failed? then 1 else 0
    ensures o.Failed? ==> r[0] == prefix + o.message
  {
    match o
    case Counted(_) => []
    case Failed(msg) => [prefix + msg]
  }

  /** `syncGtfsRealtime` over the three feeds' outcomes: every feed runs whatever the others did;
      a failing feed adds one labelled error and reports 0; `success` iff no error. */
  function SyncGtfsRealtime(trip: FeedOutcome, vehicle: FeedOutcome, alert: FeedOutcome, duration: int): (r: SyncResult)
    ensures r.success <==> r.errors == []
    ensures r.success <==> trip.Counted? && vehicle.Counted? && alert.Counted?
    ensures r.tripUpdates == (if trip.Counted? then trip.count else 0)
    ensures r.vehiclePositions == (if vehicle.Counted? then vehicle.count else 0)
    ensures r.serviceAlerts == (if alert.Counted? then alert.count else 0)
    ensures r.errors == ErrorsOf(trip, TRIP_UPDATES_LABEL) + ErrorsOf(vehicle, VEHICLE_POSITIONS_LABEL)
                        + ErrorsOf(alert, SERVICE_ALERTS_LABEL)
    ensures r.duration == duration
  {
    var errors := ErrorsOf(trip, TRIP_UPDATES_LABEL) + ErrorsOf(vehicle, VEHICLE_POSITIONS_LABEL)
                  + ErrorsOf(alert, SERVICE_ALERTS_LABEL);
    SyncResult(|errors| == 0, CountOf(trip), CountOf(vehicle), CountOf(alert), errors, duration)
  }

  /** A feed document as the fetch delivered it, or the error the fetch raised. */
  datatype Fetched = Feed(entities: seq<FeedEntity>) | FetchError(message: string)

  /** Clock readings of one sync: the two processing timestamps (ms), the cache clock (s) and the
      elapsed time the result reports. */
  datatype SyncClock = SyncClock(tripStamp: int, vehicleStamp: int, cacheNow: int, duration: int)

  /** One feed's step of a sync: process the fetched entities and apply their writes. */
  function SyncTrips(store: Store, trips: Fetched, clock: SyncClock): (r: (Store, FeedOutcome))
    ensures trips.Feed? ==> r.1 == Counted(|Filter(trips.entities, HasTripId)|)
    ensures trips.FetchError? ==> r == (store, Failed(trips.message))
  {
    match trips
    case Feed(es) =>
      var p := ProcessTripUpdates(es, clock.tripStamp);
      (ApplyWrites(store, p.writes, clock.cacheNow), Counted(p.count))
    case FetchError(m) => (store, Failed(m))
  }

  function SyncVehicles(store: Store, vehicles: Fetched, clock: SyncClock): (r: (Store, FeedOutcome))
    ensures vehicles.Feed? ==> r.1 == Counted(|Filter(vehicles.entities, HasVehicle)|)
    ensures vehicles.FetchError? ==> r == (store, Failed(vehicles.message))
  {
    match vehicles
    case Feed(es) =>
      var p := ProcessVehiclePositions(es, clock.vehicleStamp);
      (ApplyWrites(store, p.writes, clock.cacheNow), Counted(p.count))
    case FetchError(m) => (store, Failed(m))
  }

  function SyncAlerts(store: Store, alerts: Fetched, clock: SyncClock): (r: (Store, FeedOutcome))
    ensures alerts.Feed? ==> r.1 == Counted(|Filter(alerts.entities, HasAlert)|)
    ensures alerts.FetchError? ==> r == (store, Failed(alerts.message))
  {
    match alerts
    case Feed(es) =>
      var p := ProcessServiceAlerts(es);
      (ApplyWrites(store, p.writes, clock.cacheNow), Counted(p.count))
    case FetchError(m) => (store, Failed(m))
  }

  /** After a trip-update sync, the i-th usable entity's trip reads back that entity's delay,
      stamped with the sync time, until the TTL runs out, unless a later entity names the same
      trip (the last update of a trip wins). */
  lemma SyncTripsReadBack(store: Store, es: seq<FeedEntity>, clock: SyncClock, i: nat, at: int)
    requires var f := Filter(es, HasTripId);
             i < |f| && forall j | i < j < |f| :: TripIdOf(f[j]) != TripIdOf(f[i])
    requires clock.cacheNow <= at < clock.cacheNow + TRIP_DELAY_TTL
    ensures var e := Filter(es, HasTripId)[i];
            GetTripDelay(SyncTrips(store, Feed(es), clock).0, TripIdOf(e), at)
              == Some(TripDelay(TripIdOf(e), DeriveDelay(e.tripUpdate.value), clock.tripStamp))
  {
    var f := Filter(es, HasTripId);
    var p := ProcessTripUpdates(es, clock.tripStamp);
    forall j | i < j < |p.writes|
      ensures p.writes[j].key != p.writes[i].key
    {
      KeysInjective(TripIdOf(f[j]), TripIdOf(f[i]));
    }
    ApplyWritesReadBack(store, p.writes, clock.cacheNow, i, at);
  }

  /** The vehicle id of a usable vehicle entity. */
  function VehicleIdOf(e: FeedEntity): string
    requires HasVehicle(e)
  {
    e.vehicle.value.vehicle.value.id.value
  }

  /** After a vehicle sync, the i-th usable entity's vehicle reads back that entity's position
      until the TTL runs out, unless a later entity reports the same vehicle. */
  lemma SyncVehiclesReadBack(store: Store, es: seq<FeedEntity>, clock: SyncClock, i: nat, at: int)
    requires var f := Filter(es, HasVehicle);
             i < |f| && forall j | i < j < |f| :: VehicleIdOf(f[j]) != VehicleIdOf(f[i])
    requires clock.cacheNow <= at < clock.cacheNow + VEHICLE_POSITION_TTL
    ensures var e := Filter(es, HasVehicle)[i];
            GetVehiclePosition(SyncVehicles(store, Feed(es), clock).0, VehicleIdOf(e), at)
              == Some(VehiclePositionOf(e, clock.vehicleStamp))
  {
    var f := Filter(es, HasVehicle);
    var p := ProcessVehiclePositions(es, clock.vehicleStamp);
    forall j | i < j < |p.writes|
      ensures p.writes[j].key != p.writes[i].key
    {
      KeysInjective(VehicleIdOf(f[j]), VehicleIdOf(f[i]));
    }
    ApplyWritesReadBack(store, p.writes, clock.cacheNow, i, at);
  }

  /** After an alert sync, the i-th alert reads back as built from its entity until the TTL runs
      out, unless a later entity carries the same id. */
  lemma SyncAlertsReadBack(store: Store, es: seq<FeedEntity>, clock: SyncClock, i: nat, at: int)
    requires var f := Filter(es, HasAlert);
             i < |f| && forall j | i < j < |f| :: f[j].id != f[i].id
    requires clock.cacheNow <= at < clock.cacheNow + SERVICE_ALERT_TTL
    ensures var e := Filter(es, HasAlert)[i];
            Get(SyncAlerts(store, Feed(es), clock).0, AlertKey(e.id), at) == Some(AlertValue(ServiceAlertOf(e)))
  {
    var f := Filter(es, HasAlert);
    var p := ProcessServiceAlerts(es);
    forall j | i < j < |p.writes|
      ensures p.writes[j].key != p.writes[i].key
    {
      if j < p.count {
        KeysInjective(f[j].id, f[i].id);
      } else {
        KeysDisjoint(f[i].id, f[i].id);
      }
    }
    ApplyWritesReadBack(store, p.writes, clock.cacheNow, i, at);
  }

  /** After an alert sync, the active-alerts index reads exactly the alert ids of the feed, in
      feed order and with repetitions, until the TTL runs out. */
  lemma SyncAlertsIndex(store: Store, es: seq<FeedEntity>, clock: SyncClock, at: int)
    requires clock.cacheNow <= at < clock.cacheNow + SERVICE_ALERT_TTL
    ensures Get(SyncAlerts(store, Feed(es), clock).0, ACTIVE_ALERTS_KEY, at)
              == Some(AlertIdsValue(AlertIds(Filter(es, HasAlert))))
  {
    var p := ProcessServiceAlerts(es);
    ApplyWritesReadBack(store, p.writes, clock.cacheNow, p.count, at);
  }

  /** One full sync against the cache: the three feed steps in the order trip updates, vehicle
      positions, service alerts, each run whatever the previous ones did. */
  function SyncAll(store: Store, trips: Fetched, vehicles: Fetched, alerts: Fetched, clock: SyncClock): (r: (Store, SyncResult))
    ensures r.1.success <==> trips.Feed? && vehicles.Feed? && alerts.Feed?
    ensures trips.Feed? ==> r.1.tripUpdates == |Filter(trips.entities, HasTripId)|
    ensures vehicles.Feed? ==> r.1.vehiclePositions == |Filter(vehicles.entities, HasVehicle)|
    ensures alerts.Feed? ==> r.1.serviceAlerts == |Filter(alerts.entities, HasAlert)|
  {
    var (s1, o1) := SyncTrips(store, trips, clock);
    var (s2, o2) := SyncVehicles(s1, vehicles, clock);
    var (s3, o3) := SyncAlerts(s2, alerts, clock);
    (s3, SyncGtfsRealtime(o1, o2, o3, clock.duration))
  }

  /** The feeds write disjoint namespaces, so after a full sync every key reads as if only its
      own feed had been synced: a failing or misbehaving feed cannot touch another's entries. */
  lemma SyncIsolation(store: Store, trips: Fetched, vehicles: Fetched, alerts: Fetched, clock: SyncClock, k: string, at: int)
    ensures IsDelayKey(k) ==>
              Get(SyncAll(store, trips, vehicles, alerts, clock).0, k, at) == Get(SyncTrips(store, trips, clock).0, k, at)
    ensures IsVehicleKey(k) ==>
              Get(SyncAll(store, trips, vehicles, alerts, clock).0, k, at) == Get(SyncVehicles(store, vehicles, clock).0, k, at)
    ensures IsAlertKey(k) || k == ACTIVE_ALERTS_KEY ==>
              Get(SyncAll(store, trips, vehicles, alerts, clock).0, k, at) == Get(SyncAlerts(store, alerts, clock).0, k, at)
  {
    if IsDelayKey(k) { TripKeyIsolated(store, trips, vehicles, alerts, clock, k, at); }
    if IsVehicleKey(k) { VehicleKeyIsolated(store, trips, vehicles, alerts, clock, k, at); }
    if IsAlertKey(k) || k == ACTIVE_ALERTS_KEY { AlertKeyIsolated(store, trips, vehicles, alerts, clock, k, at); }
  }

  lemma TripKeyIsolated(store: Store, trips: Fetched, vehicles: Fetched, alerts: Fetched, clock: SyncClock, k: string, at: int)
    requires IsDelayKey(k)
    ensures Get(SyncAll(store, trips, vehicles, alerts, clock).0, k, at) == Get(SyncTrips(store, trips, clock).0, k, at)
  {
    NamespacesDisjoint(k);
    var s1 := SyncTrips(store, trips, clock).0;
    var s2 := SyncVehicles(s1, vehicles, clock).0;
    if vehicles.Feed? {
      VehicleWritesInNamespace(vehicles.entities, clock.vehicleStamp);
      ApplyWritesElsewhere(s1, ProcessVehiclePositions(vehicles.entities, clock.vehicleStamp).writes, clock.cacheNow, k, at);
    }
    if alerts.Feed? {
      AlertWritesInNamespace(alerts.entities);
      ApplyWritesElsewhere(s2, ProcessServiceAlerts(alerts.entities).writes, clock.cacheNow, k, at);
    }
  }

  lemma VehicleKeyIsolated(store: Store, trips: Fetched, vehicles: Fetched, alerts: Fetched, clock: SyncClock, k: string, at: int)
    requires IsVehicleKey(k)
    ensures Get(SyncAll(store, trips, vehicles, alerts, clock).0, k, at) == Get(SyncVehicles(store, vehicles, clock).0, k, at)
  {
    NamespacesDisjoint(k);
    var s1 := SyncTrips(store, trips, clock).0;
    var s2 := SyncVehicles(s1, vehicles, clock).0;
    if trips.Feed? {
      TripUpdateWritesInNamespace(trips.entities, clock.tripStamp);
      ApplyWritesElsewhere(store, ProcessTripUpdates(trips.entities, clock.tripStamp).writes, clock.cacheNow, k, at);
    }
    if vehicles.Feed? { VehicleWritesInNamespace(vehicles.entities, clock.vehicleStamp); }
    VehicleStepFrame(store, s1, vehicles, clock, k, at);
    if alerts.Feed? {
      AlertWritesInNamespace(alerts.entities);
      ApplyWritesElsewhere(s2, ProcessServiceAlerts(alerts.entities).writes, clock.cacheNow, k, at);
    }
  }

  lemma AlertKeyIsolated(store: Store, trips: Fetched, vehicles: Fetched, alerts: Fetched, clock: SyncClock, k: string, at: int)
    requires IsAlertKey(k) || k == ACTIVE_ALERTS_KEY
    ensures Get(SyncAll(store, trips, vehicles, alerts, clock).0, k, at) == Get(SyncAlerts(store, alerts, clock).0, k, at)
  {
    NamespacesDisjoint(k);
    var s1 := SyncTrips(store, trips, clock).0;
    var s2 := SyncVehicles(s1, vehicles, clock).0;
    if trips.Feed? {
      TripUpdateWritesInNamespace(trips.entities, clock.tripStamp);
      ApplyWritesElsewhere(store, ProcessTripUpdates(trips.entities, clock.tripStamp).writes, clock.cacheNow, k, at);
    }
    if vehicles.Feed? {
      VehicleWritesInNamespace(vehicles.entities, clock.vehicleStamp);
      ApplyWritesElsewhere(s1, ProcessVehiclePositions(vehicles.entities, clock.vehicleStamp).writes, clock.cacheNow, k, at);
    }
    if alerts.Feed? { AlertWritesInNamespace(alerts.entities); }
    AlertStepFrame(store, s2, alerts, clock, k, at);
  }

  /** Two stores that read alike on `k` still read alike after the same vehicle step. */
  lemma VehicleStepFrame(a: Store, b: Store, vehicles: Fetched, clock: SyncClock, k: string, at: int)
    requires Get(a, k, at) == Get(b, k, at)
    ensures Get(SyncVehicles(a, vehicles, clock).0, k, at) == Get(SyncVehicles(b, vehicles, clock).0, k, at)
  {
    if vehicles.Feed? {
      ApplyWritesPointwise(a, b, ProcessVehiclePositions(vehicles.entities, clock.vehicleStamp).writes, clock.cacheNow, k, at);
    }
  }

  /** Two stores that read alike on `k` still read alike after the same alert step. */
  lemma AlertStepFrame(a: Store, b: Store, alerts: Fetched, clock: SyncClock, k: string, at: int)
    requires Get(a, k, at) == Get(b, k, at)
    ensures Get(SyncAlerts(a, alerts, clock).0, k, at) == Get(SyncAlerts(b, alerts, clock).0, k, at)
  {
    if alerts.Feed? {
      ApplyWritesPointwise(a, b, ProcessServiceAlerts(alerts.entities).writes, clock.cacheNow, k, at);
    }
  }

  /** A vehicle feed that fails while the other two deliver usable entities: the sync reports
      failure with exactly one error, naming vehicle positions, and positive counts for the others. */
  lemma VehicleFeedFailureIsolated(store: Store, trips: seq<FeedEntity>, alerts: seq<FeedEntity>, message: string, clock: SyncClock)
    requires exists e | e in trips :: HasTripId(e)
    requires exists e | e in alerts :: HasAlert(e)
    ensures var r := SyncAll(store, Feed(trips), FetchError(message), Feed(alerts), clock).1;
            && !r.success
            && r.errors == [VEHICLE_POSITIONS_LABEL + message]
            && r.tripUpdates > 0 && r.vehiclePositions == 0 && r.serviceAlerts > 0
  {
    var t :| t in trips && HasTripId(t);
    var a :| a in alerts && HasAlert(a);
    FilterKeepsAll(trips, HasTripId, t);
    FilterKeepsAll(alerts, HasAlert, a);
    SyncAllReport(store, Feed(trips), FetchError(message), Feed(alerts), clock);
    OneFailedFeed(|Filter(trips, HasTripId)|, message, |Filter(alerts, HasAlert)|, clock.duration);
  }

  /** Only the vehicle feed failed: one error, naming it. */
  lemma OneFailedFeed(trips: nat, message: string, alerts: nat, duration: int)
    ensures SyncGtfsRealtime(Counted(trips), Failed(message), Counted(alerts), duration).errors
            == [VEHICLE_POSITIONS_LABEL + message]
  {
    assert ErrorsOf(Counted(trips), TRIP_UPDATES_LABEL) == [] && ErrorsOf(Counted(alerts), SERVICE_ALERTS_LABEL) == [];
  }

  /** What a feed contributes to the report: the number of entities it keeps, or its error. */
  function OutcomeOf(f: Fetched, keep: FeedEntity -> bool): FeedOutcome {
    match f
    case Feed(es) => Counted(|Filter(es, keep)|)
    case FetchError(m) => Failed(m)
  }

  /** The report of a full sync is `syncGtfsRealtime` over the three feeds' outcomes. */
  lemma SyncAllReport(store: Store, trips: Fetched, vehicles: Fetched, alerts: Fetched, clock: SyncClock)
    ensures SyncAll(store, trips, vehicles, alerts, clock).1
            == SyncGtfsRealtime(OutcomeOf(trips, HasTripId), OutcomeOf(vehicles, HasVehicle), OutcomeOf(alerts, HasAlert),
                                clock.duration)
  {
  }
}
