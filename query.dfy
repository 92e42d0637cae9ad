/**
 * Query parameters of the two endpoints.  Each fetch function first writes all of its
 * filter arguments into one dict and then keeps only the entries that are not `None`.
 * Enumerated filter values (zone type, status, severity, ...) are carried as the strings
 * they are sent as.
 */
module Query {
  import opened Errors

  /** A query-parameter value as sent: text, a boolean, an integer, or a timestamp (kept opaque). */
  datatype Param = PText(text: string) | PFlag(flag: bool) | PCount(count: int) | PInstant(instant: int)

  type Params = map<string, Param>

  /** One HTTP GET: the URL and its query parameters. */
  datatype Request = Request(url: string, params: Params)

  const ZonesUrl := "https://api.weather.gov/zones"
  const AlertsUrl := "https://api.weather.gov/alerts/active/"

  /** The entries of `slots` that hold a value, with that value unchanged. */
  function Present(slots: map<string, Option<Param>>): (params: Params)
    ensures forall k :: k in params <==> k in slots && slots[k].Some?
    ensures forall k :: k in params ==> slots[k] == Some(params[k])
  {
    map k | k in slots && slots[k].Some? :: slots[k].value
  }

  function TextSlot(o: Option<string>): Option<Param> {
    match o
    case None => None
    case Some(s) => Some(PText(s))
  }

  function CountSlot(o: Option<int>): Option<Param> {
    match o
    case None => None
    case Some(n) => Some(PCount(n))
  }

  function InstantSlot(o: Option<int>): Option<Param> {
    match o
    case None => None
    case Some(t) => Some(PInstant(t))
  }

  // ---------------------------------------------------------------------------
  // The zones endpoint

  /** The arguments of the zone fetch; `includeGeometry` is a plain boolean and never absent. */
  datatype ZoneQuery = ZoneQuery(
    id: Option<string>,
    area: Option<string>,
    region: Option<string>,
    zoneType: Option<string>,
    point: Option<string>,
    includeGeometry: bool,
    limit: Option<int>,
    effective: Option<int>)

  /** The defaults: area "MT", type "public", geometry requested, nothing else. */
  const DefaultZoneQuery := ZoneQuery(None, Some("MT"), None, Some("public"), None, true, None, None)

  function ZoneSlots(q: ZoneQuery): map<string, Option<Param>> {
    map[
      "id" := TextSlot(q.id),
      "area" := TextSlot(q.area),
      "region" := TextSlot(q.region),
      "type" := TextSlot(q.zoneType),
      "point" := TextSlot(q.point),
      "include_geometry" := Some(PFlag(q.includeGeometry)),
      "limit" := CountSlot(q.limit),
      "effective" := InstantSlot(q.effective)]
  }

  /** The parameters sent: the slots that hold a value, with that value. */
  function ZoneParams(q: ZoneQuery): (p: Params)
    ensures forall k :: k in p <==> k in ZoneSlots(q) && ZoneSlots(q)[k].Some?
    ensures forall k :: k in p ==> ZoneSlots(q)[k] == Some(p[k])
  {
    Present(ZoneSlots(q))
  }

  /** Each zone argument is sent iff it is not `None`, with its value, and nothing else is sent. */
  lemma ZoneParamsContents(q: ZoneQuery)
    ensures var p := ZoneParams(q);
      && p.Keys <= {"id", "area", "region", "type", "point", "include_geometry", "limit", "effective"}
      && ("id" in p <==> q.id.Some?) && (q.id.Some? ==> p["id"] == PText(q.id.value))
      && ("area" in p <==> q.area.Some?) && (q.area.Some? ==> p["area"] == PText(q.area.value))
      && ("region" in p <==> q.region.Some?) && (q.region.Some? ==> p["region"] == PText(q.region.value))
      && ("type" in p <==> q.zoneType.Some?) && (q.zoneType.Some? ==> p["type"] == PText(q.zoneType.value))
      && ("point" in p <==> q.point.Some?) && (q.point.Some? ==> p["point"] == PText(q.point.value))
      && "include_geometry" in p && p["include_geometry"] == PFlag(q.includeGeometry)
      && ("limit" in p <==> q.limit.Some?) && (q.limit.Some? ==> p["limit"] == PCount(q.limit.value))
      && ("effective" in p <==> q.effective.Some?) && (q.effective.Some? ==> p["effective"] == PInstant(q.effective.value))
  {
    var slots := ZoneSlots(q);
    TextSent(slots, "id", q.id);
    TextSent(slots, "area", q.area);
    TextSent(slots, "region", q.region);
    TextSent(slots, "type", q.zoneType);
    TextSent(slots, "point", q.point);
    assert slots["include_geometry"] == Some(PFlag(q.includeGeometry));
    assert slots["limit"] == CountSlot(q.limit);
    assert slots["effective"] == InstantSlot(q.effective);
  }

  /** Falsy values that are not `None` are still sent: `include_geometry=False` and `limit=0`. */
  lemma ZoneParamsKeepFalsy(q: ZoneQuery)
    requires !q.includeGeometry && q.limit == Some(0)
    ensures ZoneParams(q)["include_geometry"] == PFlag(false)
    ensures ZoneParams(q)["limit"] == PCount(0)
  {
  }

  /** With every default the zone request carries exactly area, type and include_geometry. */
  lemma DefaultZoneParams()
    ensures ZoneParams(DefaultZoneQuery)
      == map["area" := PText("MT"), "type" := PText("public"), "include_geometry" := PFlag(true)]
  {
    var p := ZoneParams(DefaultZoneQuery);
    assert p.Keys == {"area", "type", "include_geometry"};
  }

  // ---------------------------------------------------------------------------
  // The active-alerts endpoint

  datatype AlertQuery = AlertQuery(
    status: Option<string>,
    messageType: Option<string>,
    event: Option<string>,
    code: Option<string>,
    area: Option<string>,
    point: Option<string>,
    region: Option<string>,
    regionType: Option<string>,
    zone: Option<string>,
    urgency: Option<string>,
    severity: Option<string>,
    certainty: Option<string>,
    limit: Option<int>)

  /** The defaults: no filter except a limit of 500. */
  const DefaultAlertQuery := AlertQuery(None, None, None, None, None, None, None, None, None, None, None, None, Some(500))

  /** The query the alert reconciliation sends: the zone filter and otherwise the defaults. */
  function ZoneAlertQuery(zones: string): AlertQuery {
    DefaultAlertQuery.(zone := Some(zones))
  }

  function AlertSlots(q: AlertQuery): map<string, Option<Param>> {
    map[
      "status" := TextSlot(q.status),
      "message_type" := TextSlot(q.messageType),
      "event" := TextSlot(q.event),
      "code" := TextSlot(q.code),
      "area" := TextSlot(q.area),
      "point" := TextSlot(q.point),
      "region" := TextSlot(q.region),
      "region_type" := TextSlot(q.regionType),
      "zone" := TextSlot(q.zone),
      "urgency" := TextSlot(q.urgency),
      "severity" := TextSlot(q.severity),
      "certainty" := TextSlot(q.certainty),
      "limit" := CountSlot(q.limit)]
  }

  /** The parameters sent: the slots that hold a value, with that value. */
  function AlertParams(q: AlertQuery): (p: Params)
    ensures forall k :: k in p <==> k in AlertSlots(q) && AlertSlots(q)[k].Some?
    ensures forall k :: k in p ==> AlertSlots(q)[k] == Some(p[k])
  {
    Present(AlertSlots(q))
  }

  /** Each alert argument is sent iff it is not `None`, with its value, and nothing else is sent. */
  lemma AlertParamsContents(q: AlertQuery)
    ensures var p := AlertParams(q);
      && p.Keys <= AlertSlots(q).Keys
      && ("status" in p <==> q.status.Some?) && (q.status.Some? ==> p["status"] == PText(q.status.value))
      && ("message_type" in p <==> q.messageType.Some?) && (q.messageType.Some? ==> p["message_type"] == PText(q.messageType.value))
      && ("event" in p <==> q.event.Some?) && (q.event.Some? ==> p["event"] == PText(q.event.value))
      && ("code" in p <==> q.code.Some?) && (q.code.Some? ==> p["code"] == PText(q.code.value))
      && ("area" in p <==> q.area.Some?) && (q.area.Some? ==> p["area"] == PText(q.area.value))
      && ("point" in p <==> q.point.Some?) && (q.point.Some? ==> p["point"] == PText(q.point.value))
      && ("region" in p <==> q.region.Some?) && (q.region.Some? ==> p["region"] == PText(q.region.value))
      && ("region_type" in p <==> q.regionType.Some?) && (q.regionType.Some? ==> p["region_type"] == PText(q.regionType.value))
      && ("zone" in p <==> q.zone.Some?) && (q.zone.Some? ==> p["zone"] == PText(q.zone.value))
      && ("urgency" in p <==> q.urgency.Some?) && (q.urgency.Some? ==> p["urgency"] == PText(q.urgency.value))
      && ("severity" in p <==> q.severity.Some?) && (q.severity.Some? ==> p["severity"] == PText(q.severity.value))
      && ("certainty" in p <==> q.certainty.Some?) && (q.certainty.Some? ==> p["certainty"] == PText(q.certainty.value))
      && ("limit" in p <==> q.limit.Some?) && (q.limit.Some? ==> p["limit"] == PCount(q.limit.value))
  {
    var slots := AlertSlots(q);
    TextSent(slots, "status", q.status);
    TextSent(slots, "message_type", q.messageType);
    TextSent(slots, "event", q.event);
    TextSent(slots, "code", q.code);
    TextSent(slots, "area", q.area);
    TextSent(slots, "point", q.point);
    TextSent(slots, "region", q.region);
    TextSent(slots, "region_type", q.regionType);
    TextSent(slots, "zone", q.zone);
    TextSent(slots, "urgency", q.urgency);
    TextSent(slots, "severity", q.severity);
    TextSent(slots, "certainty", q.certainty);
    assert slots["limit"] == CountSlot(q.limit);
  }

  lemma TextSent(slots: map<string, Option<Param>>, k: string, o: Option<string>)
    requires k in slots && slots[k] == TextSlot(o)
    ensures k in Present(slots) <==> o.Some?
    ensures o.Some? ==> Present(slots)[k] == PText(o.value)
  {
  }

  /** The reconciliation's alert request carries exactly the zone filter and the limit 500. */
  lemma ZoneAlertParams(zones: string)
    ensures AlertParams(ZoneAlertQuery(zones)) == map["zone" := PText(zones), "limit" := PCount(500)]
  {
    var p := AlertParams(ZoneAlertQuery(zones));
    assert p.Keys == {"zone", "limit"};
  }
}
