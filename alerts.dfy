/**
 * Active alerts and their reconciliation with the zone table: the zone ids become the
 * alert query's zone filter, each alert's properties are cut down to a fixed field set,
 * each alert becomes one row per zone it names, and the rows are left-merged with the
 * zones' name and geometry on the zone URL.
 */
module Alerts {
  import opened Errors
  import opened Frames
  import opened Query
  import opened Text

  /** An alert feature of the active-alerts endpoint; only its properties are used. */
  datatype AlertFeature = AlertFeature(properties: map<string, Value>)

  /** The properties every reconciled row carries. */
  const BaseFields: set<string> := {
    "affectedZones", "onset", "ends", "severity", "certainty",
    "event", "headline", "description", "instruction"
  }

  /** The zone columns the alerts are merged with; `@id` is a zone's URL. */
  const ZoneColumns: set<string> := {"@id", "name", "geometry"}

  /** The columns of the rows before the merge: `affectedZones` is called `@id`. */
  const PreJoinColumns: set<string> := BaseFields - {"affectedZones"} + {"@id"}

  /**
   * The active-alerts fetch for the query `q`: the one GET it issues and the endpoint's
   * answer to it.
   */
  function GetActiveAlerts(q: AlertQuery, endpoint: Params -> seq<AlertFeature>): (r: (Request, seq<AlertFeature>))
    ensures r.0.url == AlertsUrl
    ensures forall k :: k in r.0.params <==> k in AlertSlots(q) && AlertSlots(q)[k].Some?
    ensures forall k :: k in r.0.params ==> AlertSlots(q)[k] == Some(r.0.params[k])
    ensures r.1 == endpoint(r.0.params)
  {
    var request := Request(AlertsUrl, AlertParams(q));
    (request, endpoint(request.params))
  }

  // ---------------------------------------------------------------------------
  // The zone filter

  /** The `col` cells of `rows`, in order, provided every one of them is text. */
  function ColumnTexts(rows: seq<Row>, col: string): (r: Result<seq<string>>)
    ensures r.Success? <==> forall i :: 0 <= i < |rows| ==> col in rows[i] && rows[i][col].Text?
    ensures r.Failure? ==> r.error == NotText
    ensures r.Success? ==> |r.value| == |rows| && forall i :: 0 <= i < |rows| ==> r.value[i] == rows[i][col].text
  {
    if rows == [] then Success([])
    else if col in rows[0] && rows[0][col].Text? then
      match ColumnTexts(rows[1..], col)
      case Failure(e) => Failure(e)
      case Success(rest) => Success([rows[0][col].text] + rest)
    else Failure(NotText)
  }

  /** The zone table's `id` column, in table order. */
  function ZoneIds(zones: Table): (r: Result<seq<string>>)
    ensures "id" !in zones.columns ==> r == Failure(MissingColumns({"id"}))
    ensures "id" in zones.columns ==> r == ColumnTexts(zones.rows, "id")
  {
    if "id" in zones.columns then ColumnTexts(zones.rows, "id") else Failure(MissingColumns({"id"}))
  }

  /** The zone filter is the ids joined by commas; when no id holds a comma, splitting it gives the ids back. */
  lemma ZoneFilterRoundTrip(zones: Table)
    requires ZoneIds(zones).Success? && zones.rows != []
    requires forall i :: 0 <= i < |zones.rows| ==> ',' !in zones.rows[i]["id"].text
    ensures Split(Join(ZoneIds(zones).value, ','), ',') == ZoneIds(zones).value
  {
    SplitJoin(ZoneIds(zones).value, ',');
  }

  // ---------------------------------------------------------------------------
  // Projection and the per-alert frames

  /**
   * `{x: props.get(x, None) for x in fields}`: the properties cut down to `fields`, an absent
   * property becoming null.
   */
  function Project(props: map<string, Value>, fields: set<string>): (m: map<string, Value>)
    ensures m.Keys == fields
  {
    map x | x in fields :: if x in props then props[x] else Null
  }

  /** A projection is the selection of the present properties, padded with nulls for the absent ones. */
  lemma ProjectPadded(props: map<string, Value>, fields: set<string>)
    ensures Project(props, fields) == Restrict(props, fields) + NullCells(fields - props.Keys)
  {
    var m := Project(props, fields);
    var padded := Restrict(props, fields) + NullCells(fields - props.Keys);
    assert m.Keys == padded.Keys;
    assert forall x :: x in m ==> m[x] == padded[x];
  }

  /** Every projected alert has exactly the nine base fields, each the property's value or null. */
  lemma ProjectedFields(props: map<string, Value>)
    ensures Project(props, BaseFields).Keys == BaseFields
    ensures forall x :: x in BaseFields ==>
      Project(props, BaseFields)[x] == if x in props then props[x] else Null
  {
  }

  /** The frame of each alert, in order; the first alert whose frame cannot be built decides the error. */
  function AlertFrames(alerts: seq<AlertFeature>, fields: set<string>): (r: Result<seq<Table>>)
    ensures r.Success? ==> |r.value| == |alerts|
    ensures r.Success? ==> forall i :: 0 <= i < |alerts| ==>
      FromColumns(Project(alerts[i].properties, fields)) == Success(r.value[i])
    ensures (forall i :: 0 <= i < |alerts| ==> FromColumns(Project(alerts[i].properties, fields)).Success?)
      ==> r.Success?
  {
    if alerts == [] then Success([])
    else
      var frames :- AlertFrames(alerts[..|alerts| - 1], fields);
      var frame :- FromColumns(Project(alerts[|alerts| - 1].properties, fields));
      Success(frames + [frame])
  }

  /** One more alert: its frame is appended, or its error ends the sequence. */
  lemma FramesStep(alerts: seq<AlertFeature>, i: nat, fields: set<string>, frames: seq<Table>)
    requires i < |alerts| && AlertFrames(alerts[..i], fields) == Success(frames)
    ensures AlertFrames(alerts[..i + 1], fields) ==
      match FromColumns(Project(alerts[i].properties, fields))
      case Failure(e) => Failure(e)
      case Success(f) => Success(frames + [f])
  {
    assert alerts[..i + 1][..i] == alerts[..i];
    assert alerts[..i + 1][i] == alerts[i];
  }

  /** Once a prefix of the alerts fails, the whole sequence fails the same way. */
  lemma {:induction false} FramesFailureExtends(alerts: seq<AlertFeature>, k: nat, fields: set<string>)
    requires 0 < k <= |alerts|
    requires AlertFrames(alerts[..k], fields).Failure?
    ensures AlertFrames(alerts, fields) == AlertFrames(alerts[..k], fields)
    decreases |alerts|
  {
    if k < |alerts| {
      var front := alerts[..|alerts| - 1];
      assert front[..k] == alerts[..k];
      FramesFailureExtends(front, k, fields);
    } else {
      assert alerts[..k] == alerts;
    }
  }

  // ---------------------------------------------------------------------------
  // Reconciliation

  /**
   * The reconciled table: the alert frames concatenated, `affectedZones` renamed to `@id`,
   * and the rows left-merged with the zones' `@id`, `name` and `geometry`.
   */
  function Reconcile(zones: Table, alerts: seq<AlertFeature>): (r: Result<Table>)
    ensures r.Success? ==> r.value.columns == PreJoinColumns + ZoneColumns
  {
    var frames :- AlertFrames(alerts, BaseFields);
    assert forall i :: 0 <= i < |frames| ==> frames[i].columns == BaseFields;
    Combine(zones, frames)
  }

  /**
   * The steps after the per-alert frames: stack, rename `affectedZones` to `@id`, merge.
   * Stacking fails first, on no frames; then the zone selection, on missing zone columns.
   */
  function Combine(zones: Table, frames: seq<Table>): (r: Result<Table>)
    ensures frames == [] ==> r == Failure(NothingToConcatenate)
    ensures frames != [] && !(ZoneColumns <= zones.columns) ==> r == Failure(MissingColumns(ZoneColumns - zones.columns))
    ensures r.Success? ==> ZoneColumns <= r.value.columns
    ensures (forall i :: 0 <= i < |frames| ==> frames[i].columns == BaseFields) && r.Success? ==>
      r.value.columns == PreJoinColumns + ZoneColumns
  {
    UniformFrameColumns(frames);
    var stacked :- Concat(frames);
    var renamed := RenameColumn(stacked, "affectedZones", "@id");
    var reduced :- Select(zones, ZoneColumns);
    LeftMerge(renamed, reduced, "@id")
  }

  lemma UniformFrameColumns(frames: seq<Table>)
    ensures frames != [] && (forall i :: 0 <= i < |frames| ==> frames[i].columns == BaseFields) ==>
      AllColumns(frames) == BaseFields
  {
    if frames != [] && forall i :: 0 <= i < |frames| ==> frames[i].columns == BaseFields {
      AllColumnsUniform(frames, BaseFields);
    }
  }

  /**
   * Fetches the active alerts for the zones in `zones` and reconciles them with it.
   * `extraFields` are the caller's additional field names; `alertsEndpoint` answers the
   * alert query with its features; `requests` lists the GETs issued.
   */
  method GetActiveAlertsFromZones(zones: Table, extraFields: seq<string>, alertsEndpoint: Params -> seq<AlertFeature>)
    returns (result: Result<Table>, requests: seq<Request>)
    ensures match ZoneIds(zones)
      case Failure(e) => result == Failure(e) && requests == []
      case Success(ids) =>
        var params := AlertParams(ZoneAlertQuery(Join(ids, ',')));
        && requests == [Request(AlertsUrl, params)]
        && result == if extraFields == [] then Reconcile(zones, alertsEndpoint(params))
                     else Failure(NoSuchMethod("up"))
  {
    requests := [];
    var ids := ZoneIds(zones);
    if ids.Failure? {
      return Failure(ids.error), requests;
    }
    var q := ZoneAlertQuery(Join(ids.value, ','));
    var fetched := GetActiveAlerts(q, alertsEndpoint);
    var alerts := fetched.1;
    requests := [fetched.0];
    var fields := BaseFields;
    if |extraFields| > 0 {
      // the first extra field already fails: a set has no method `up`
      return Failure(NoSuchMethod("up")), requests;
    }
    var frames: seq<Table> := [];
    for i := 0 to |alerts|
      invariant AlertFrames(alerts[..i], fields) == Success(frames)
    {
      var frame := FromColumns(Project(alerts[i].properties, fields));
      FramesStep(alerts, i, fields, frames);
      if frame.Failure? {
        FramesFailureExtends(alerts, i + 1, fields);
        return Failure(frame.error), requests;
      }
      frames := frames + [frame.value];
    }
    assert alerts[..|alerts|] == alerts;
    result := Combine(zones, frames);
  }

  // ---------------------------------------------------------------------------
  // The fan-out, stated explicitly

  /** The zones an alert names, when `affectedZones` is a list. */
  function AffectedZones(props: map<string, Value>): seq<Value> {
    if "affectedZones" in props && props["affectedZones"].Items? then props["affectedZones"].items else []
  }

  /** The alert shape the endpoint delivers: `affectedZones` a list, the other base fields scalars. */
  ghost predicate Fans(props: map<string, Value>) {
    && "affectedZones" in props && props["affectedZones"].Items?
    && forall k :: k in BaseFields && k != "affectedZones" && k in props ==> !props[k].Items?
  }

  /** The row an alert contributes for zone `z`. */
  function PreJoinRow(props: map<string, Value>, z: Value): Row {
    (Project(props, BaseFields) - {"affectedZones"})["@id" := z]
  }

  function AlertRows(props: map<string, Value>): (rows: seq<Row>)
    ensures |rows| == |AffectedZones(props)|
  {
    var zs := AffectedZones(props);
    seq(|zs|, j requires 0 <= j < |zs| => PreJoinRow(props, zs[j]))
  }

  /** All pre-merge rows: alert by alert, and zone by zone within an alert. */
  function PreJoinRows(alerts: seq<AlertFeature>): seq<Row> {
    if alerts == [] then [] else AlertRows(alerts[0].properties) + PreJoinRows(alerts[1..])
  }

  /** The total number of zones the alerts name. */
  function ZoneCount(alerts: seq<AlertFeature>): nat {
    if alerts == [] then 0 else |AffectedZones(alerts[0].properties)| + ZoneCount(alerts[1..])
  }

  /** Each pre-merge row carries its zone as `@id` and the alert's other base fields unchanged. */
  lemma PreJoinRowFields(props: map<string, Value>, z: Value)
    ensures PreJoinRow(props, z).Keys == PreJoinColumns
    ensures PreJoinRow(props, z)["@id"] == z
    ensures forall k :: k in BaseFields && k != "affectedZones" ==>
      PreJoinRow(props, z)[k] == if k in props then props[k] else Null
  {
  }

  /** There are as many pre-merge rows as zone mentions. */
  lemma {:induction false} PreJoinCount(alerts: seq<AlertFeature>)
    ensures |PreJoinRows(alerts)| == ZoneCount(alerts)
  {
    if alerts != [] {
      PreJoinCount(alerts[1..]);
    }
  }

  /** Zone `j` of alert `a` lands after the zones of all earlier alerts. */
  lemma {:induction false} PreJoinRowAt(alerts: seq<AlertFeature>, a: nat, j: nat)
    requires a < |alerts| && j < |AffectedZones(alerts[a].properties)|
    ensures ZoneCount(alerts[..a]) + j < |PreJoinRows(alerts)|
    ensures PreJoinRows(alerts)[ZoneCount(alerts[..a]) + j]
         == PreJoinRow(alerts[a].properties, AffectedZones(alerts[a].properties)[j])
    decreases a
  {
    PreJoinCount(alerts);
    var first := AlertRows(alerts[0].properties);
    if a == 0 {
      assert alerts[..0] == [];
    } else {
      var rest := alerts[1..];
      assert rest[a - 1] == alerts[a];
      PreJoinRowAt(rest, a - 1, j);
      assert alerts[..a][0] == alerts[0];
      assert alerts[..a][1..] == rest[..a - 1];
      var x := ZoneCount(rest[..a - 1]) + j;
      assert ZoneCount(alerts[..a]) + j == |first| + x;
      assert PreJoinRows(alerts) == first + PreJoinRows(rest);
      assert PreJoinRows(alerts)[|first| + x] == PreJoinRows(rest)[x];
    }
  }

  /** An alert that names no zone contributes no row. */
  lemma EmptyAlertNoRows(alert: AlertFeature, others: seq<AlertFeature>)
    requires AffectedZones(alert.properties) == []
    ensures PreJoinRows([alert] + others) == PreJoinRows(others)
  {
    assert ([alert] + others)[1..] == others;
  }

  // ---------------------------------------------------------------------------
  // From the frames to the pre-merge rows

  function FanRows(props: map<string, Value>): (rows: seq<Row>)
    ensures |rows| == |AffectedZones(props)|
  {
    var zs := AffectedZones(props);
    seq(|zs|, j requires 0 <= j < |zs| => Project(props, BaseFields)["affectedZones" := zs[j]])
  }

  /** An alert of the delivered shape becomes a frame with one row per zone it names. */
  lemma FanFrame(props: map<string, Value>)
    requires Fans(props)
    ensures FromColumns(Project(props, BaseFields)) == Success(Table(BaseFields, FanRows(props)))
  {
    var data := Project(props, BaseFields);
    var zs := AffectedZones(props);
    FanLengths(props);
    var t := FromColumns(data).value;
    FromColumnsCells(data);
    assert {|t.rows|} == {|zs|};
    assert |t.rows| == |zs|;
    forall j | 0 <= j < |zs|
      ensures t.rows[j] == FanRows(props)[j]
    {
      var expected := FanRows(props)[j];
      assert t.rows[j].Keys == BaseFields == expected.Keys;
      forall k | k in BaseFields
        ensures t.rows[j][k] == expected[k]
      {
        if k != "affectedZones" {
          assert !data[k].Items?;
        }
      }
    }
    assert t.rows == FanRows(props);
  }

  /** Of a delivered alert's projection only `affectedZones` is a list. */
  lemma FanLengths(props: map<string, Value>)
    requires Fans(props)
    ensures Project(props, BaseFields).Keys == BaseFields
    ensures Project(props, BaseFields)["affectedZones"] == Items(AffectedZones(props))
    ensures ListLengths(Project(props, BaseFields)) == {|AffectedZones(props)|}
  {
    var data := Project(props, BaseFields);
    forall k | k in data && data[k].Items?
      ensures k == "affectedZones"
    {
    }
  }

  function FanFrames(alerts: seq<AlertFeature>): (ts: seq<Table>)
    ensures |ts| == |alerts|
  {
    seq(|alerts|, i requires 0 <= i < |alerts| => Table(BaseFields, FanRows(alerts[i].properties)))
  }

  lemma FanFramesAll(alerts: seq<AlertFeature>)
    requires forall i :: 0 <= i < |alerts| ==> Fans(alerts[i].properties)
    ensures AlertFrames(alerts, BaseFields) == Success(FanFrames(alerts))
  {
    var frames := FanFrames(alerts);
    forall i | 0 <= i < |alerts|
      ensures FromColumns(Project(alerts[i].properties, BaseFields)) == Success(frames[i])
    {
      FanFrame(alerts[i].properties);
    }
    AlertFramesAre(alerts, BaseFields, frames);
  }

  /** Frames that each alert builds are what the alert frames are. */
  lemma AlertFramesAre(alerts: seq<AlertFeature>, fields: set<string>, frames: seq<Table>)
    requires |frames| == |alerts|
    requires forall i :: 0 <= i < |alerts| ==> FromColumns(Project(alerts[i].properties, fields)) == Success(frames[i])
    ensures AlertFrames(alerts, fields) == Success(frames)
  {
    var r := AlertFrames(alerts, fields);
    assert r.Success?;
    forall i | 0 <= i < |alerts|
      ensures r.value[i] == frames[i]
    {
      assert FromColumns(Project(alerts[i].properties, fields)) == Success(r.value[i]);
    }
    assert r.value == frames;
  }

  function RenameRows(rows: seq<Row>): (out: seq<Row>)
    ensures |out| == |rows|
  {
    seq(|rows|, i requires 0 <= i < |rows| => RenameKey(rows[i], "affectedZones", "@id"))
  }

  lemma {:induction false} RenamedFanRows(alerts: seq<AlertFeature>)
    ensures RenameRows(Flatten(FanFrames(alerts))) == PreJoinRows(alerts)
  {
    if alerts != [] {
      var p := alerts[0].properties;
      var tail := Flatten(FanFrames(alerts[1..]));
      assert FanFrames(alerts)[1..] == FanFrames(alerts[1..]);
      assert Flatten(FanFrames(alerts)) == FanRows(p) + tail;
      RenamedFanRows(alerts[1..]);
      RenameRowsAppend(FanRows(p), tail);
      RenamedAlertRows(p);
    }
  }

  lemma RenameRowsAppend(a: seq<Row>, b: seq<Row>)
    ensures RenameRows(a + b) == RenameRows(a) + RenameRows(b)
  {
    assert forall i :: 0 <= i < |a| ==> (a + b)[i] == a[i];
    assert forall i :: |a| <= i < |a| + |b| ==> (a + b)[i] == b[i - |a|];
  }

  /** Renaming one alert's frame rows gives that alert's pre-merge rows. */
  lemma RenamedAlertRows(p: map<string, Value>)
    ensures RenameRows(FanRows(p)) == AlertRows(p)
  {
    forall j | 0 <= j < |AffectedZones(p)|
      ensures RenameRows(FanRows(p))[j] == AlertRows(p)[j]
    {
      var z := AffectedZones(p)[j];
      assert RenameKey(Project(p, BaseFields)["affectedZones" := z], "affectedZones", "@id") == PreJoinRow(p, z);
    }
  }

  function ReducedZones(zones: Table): Table
    requires ZoneColumns <= zones.columns
  {
    Select(zones, ZoneColumns).value
  }

  /** Reconciling alerts of the delivered shape is the left merge of the pre-merge rows with the zones. */
  lemma ReconcileMerges(zones: Table, alerts: seq<AlertFeature>)
    requires alerts != [] && forall i :: 0 <= i < |alerts| ==> Fans(alerts[i].properties)
    requires ZoneColumns <= zones.columns
    ensures Reconcile(zones, alerts)
         == Success(Table(PreJoinColumns + ZoneColumns, MergeRows(PreJoinRows(alerts), ReducedZones(zones), "@id")))
  {
    FanFramesAll(alerts);
    ReconcileFanFrames(zones, alerts);
  }

  lemma ReconcileFanFrames(zones: Table, alerts: seq<AlertFeature>)
    requires alerts != []
    requires AlertFrames(alerts, BaseFields) == Success(FanFrames(alerts))
    requires ZoneColumns <= zones.columns
    ensures Reconcile(zones, alerts)
         == Success(Table(PreJoinColumns + ZoneColumns, MergeRows(PreJoinRows(alerts), ReducedZones(zones), "@id")))
  {
    FanFramesUniform(alerts);
    RenamedFanRows(alerts);
    ReconcileFromFrames(zones, alerts, FanFrames(alerts), PreJoinRows(alerts));
  }

  lemma FanFramesUniform(alerts: seq<AlertFeature>)
    ensures forall i :: 0 <= i < |alerts| ==> FanFrames(alerts)[i].columns == BaseFields && WellFormed(FanFrames(alerts)[i])
  {
    forall i | 0 <= i < |alerts|
      ensures WellFormed(FanFrames(alerts)[i])
    {
      var t := FanFrames(alerts)[i];
      ProjectedFields(alerts[i].properties);
      forall j | 0 <= j < |t.rows|
        ensures t.rows[j].Keys == BaseFields
      {
      }
    }
  }

  lemma ReconcileFromFrames(zones: Table, alerts: seq<AlertFeature>, frames: seq<Table>, pre: seq<Row>)
    requires AlertFrames(alerts, BaseFields) == Success(frames) && frames != []
    requires forall i :: 0 <= i < |frames| ==> frames[i].columns == BaseFields && WellFormed(frames[i])
    requires RenameRows(Flatten(frames)) == pre
    requires ZoneColumns <= zones.columns
    ensures Reconcile(zones, alerts)
         == Success(Table(PreJoinColumns + ZoneColumns, MergeRows(pre, ReducedZones(zones), "@id")))
  {
    ConcatUniform(frames, BaseFields);
    var renamed := RenameColumn(Table(BaseFields, Flatten(frames)), "affectedZones", "@id");
    assert renamed == Table(PreJoinColumns, pre);
  }

  // ---------------------------------------------------------------------------
  // The reconciled table

  /** The merged zone columns never come from the alert side. */
  lemma AnnotateCells(l: Row, reduced: Table)
    requires WellFormed(reduced) && reduced.columns == ZoneColumns
    requires l.Keys == PreJoinColumns
    ensures Annotate(l, reduced, "@id").Keys == PreJoinColumns + ZoneColumns
    ensures forall k :: k in l ==> Annotate(l, reduced, "@id")[k] == l[k]
    ensures match Lookup(l, reduced.rows, "@id")
      case None => Annotate(l, reduced, "@id")["name"] == Null && Annotate(l, reduced, "@id")["geometry"] == Null
      case Some(m) =>
        && "name" in m && "geometry" in m
        && Annotate(l, reduced, "@id")["name"] == m["name"] && Annotate(l, reduced, "@id")["geometry"] == m["geometry"]
  {
    assert "name" !in PreJoinColumns && "geometry" !in PreJoinColumns && "@id" in PreJoinColumns;
    match Lookup(l, reduced.rows, "@id")
    case None =>
      assert Annotate(l, reduced, "@id") == l + NullCells(ZoneColumns - {"@id"});
    case Some(m) =>
      assert m in Matches(l, reduced.rows, "@id");
      var n :| 0 <= n < |reduced.rows| && reduced.rows[n] == m;
      assert m.Keys == ZoneColumns;
      assert Annotate(l, reduced, "@id") == l + (m - {"@id"});
  }

  lemma ReducedUnique(zones: Table)
    requires ZoneColumns <= zones.columns && WellFormed(zones)
    requires UniqueKeys(zones.rows, "@id")
    ensures WellFormed(ReducedZones(zones)) && ReducedZones(zones).columns == ZoneColumns
    ensures UniqueKeys(ReducedZones(zones).rows, "@id")
    ensures |ReducedZones(zones).rows| == |zones.rows|
    ensures forall n, k :: 0 <= n < |zones.rows| && k in ZoneColumns ==> ReducedZones(zones).rows[n][k] == zones.rows[n][k]
  {
    SelectCells(zones, ZoneColumns);
  }

  /** Reconciling keeps every alert-zone pairing, whether or not a zone matches it. */
  lemma {:induction false} ReconcileKeepsEveryPairing(zones: Table, alerts: seq<AlertFeature>)
    requires alerts != [] && forall i :: 0 <= i < |alerts| ==> Fans(alerts[i].properties)
    requires ZoneColumns <= zones.columns
    ensures Reconcile(zones, alerts).Success?
    ensures |Reconcile(zones, alerts).value.rows| >= ZoneCount(alerts)
  {
    ReconcileMerges(zones, alerts);
    PreJoinCount(alerts);
    MergeKeepsEveryRow(PreJoinRows(alerts), ReducedZones(zones), "@id");
  }

  /** With unique zone URLs there is exactly one reconciled row per alert-zone pairing. */
  lemma {:induction false} ReconcileRowCount(zones: Table, alerts: seq<AlertFeature>)
    requires alerts != [] && forall i :: 0 <= i < |alerts| ==> Fans(alerts[i].properties)
    requires ZoneColumns <= zones.columns && WellFormed(zones) && UniqueKeys(zones.rows, "@id")
    ensures Reconcile(zones, alerts).Success?
    ensures Reconcile(zones, alerts).value.columns == PreJoinColumns + ZoneColumns
    ensures |Reconcile(zones, alerts).value.rows| == ZoneCount(alerts)
  {
    ReconcileMerges(zones, alerts);
    PreJoinCount(alerts);
    ReducedUnique(zones);
    MergeUnique(PreJoinRows(alerts), ReducedZones(zones), "@id");
  }

  /**
   * `row` is the reconciled row for zone `z` of an alert with properties `props`: it has the
   * merged columns, carries `z` as `@id` and the alert's fields unchanged, and has the name
   * and geometry of the zone with that URL, or nulls when there is none.
   */
  ghost predicate PairingRow(zones: Table, props: map<string, Value>, z: Value, row: Row)
    requires WellFormed(zones) && ZoneColumns <= zones.columns
  {
    && row.Keys == PreJoinColumns + ZoneColumns
    && row["@id"] == z
    && (forall k :: k in BaseFields && k != "affectedZones" ==> row[k] == if k in props then props[k] else Null)
    && (forall n :: 0 <= n < |zones.rows| && zones.rows[n]["@id"] == z ==>
          row["name"] == zones.rows[n]["name"] && row["geometry"] == zones.rows[n]["geometry"])
    && ((forall n :: 0 <= n < |zones.rows| ==> zones.rows[n]["@id"] != z) ==>
          row["name"] == Null && row["geometry"] == Null)
  }

  /** The reconciled row for zone `j` of alert `a` sits after the rows of all earlier alerts. */
  lemma {:induction false} ReconciledRowAt(zones: Table, alerts: seq<AlertFeature>, a: nat, j: nat)
    requires alerts != [] && forall i :: 0 <= i < |alerts| ==> Fans(alerts[i].properties)
    requires ZoneColumns <= zones.columns && WellFormed(zones) && UniqueKeys(zones.rows, "@id")
    requires a < |alerts| && j < |AffectedZones(alerts[a].properties)|
    ensures Reconcile(zones, alerts).Success?
    ensures ZoneCount(alerts[..a]) + j < |Reconcile(zones, alerts).value.rows|
    ensures PairingRow(zones, alerts[a].properties, AffectedZones(alerts[a].properties)[j],
                       Reconcile(zones, alerts).value.rows[ZoneCount(alerts[..a]) + j])
  {
    ReconcileMerges(zones, alerts);
    ReconciledRowFromMerge(zones, alerts, a, j, Reconcile(zones, alerts).value);
  }

  lemma ReconciledRowFromMerge(zones: Table, alerts: seq<AlertFeature>, a: nat, j: nat, t: Table)
    requires ZoneColumns <= zones.columns && WellFormed(zones) && UniqueKeys(zones.rows, "@id")
    requires t == Table(PreJoinColumns + ZoneColumns, MergeRows(PreJoinRows(alerts), ReducedZones(zones), "@id"))
    requires a < |alerts| && j < |AffectedZones(alerts[a].properties)|
    ensures ZoneCount(alerts[..a]) + j < |t.rows|
    ensures PairingRow(zones, alerts[a].properties, AffectedZones(alerts[a].properties)[j], t.rows[ZoneCount(alerts[..a]) + j])
  {
    PreJoinRowAt(alerts, a, j);
    var props := alerts[a].properties;
    var z := AffectedZones(props)[j];
    var pre := PreJoinRows(alerts);
    var idx := ZoneCount(alerts[..a]) + j;
    PreJoinRowFields(props, z);
    assert pre[idx] == PreJoinRow(props, z);
    MergedRowAt(zones, pre, idx);
    var row := t.rows[idx];
    assert row == MergeRows(pre, ReducedZones(zones), "@id")[idx];
    assert pre[idx]["@id"] == z;
    forall k | k in BaseFields && k != "affectedZones"
      ensures row[k] == if k in props then props[k] else Null
    {
      assert k in pre[idx];
    }
    assert row.Keys == PreJoinColumns + ZoneColumns;
    assert row["@id"] == z;
    assert forall n :: 0 <= n < |zones.rows| && zones.rows[n]["@id"] == z ==>
      row["name"] == zones.rows[n]["name"] && row["geometry"] == zones.rows[n]["geometry"];
    assert (forall n :: 0 <= n < |zones.rows| ==> zones.rows[n]["@id"] != z) ==>
      row["name"] == Null && row["geometry"] == Null;
    assert PairingRow(zones, props, z, row);
  }

  /** Row `idx` of the merge of pre-merge rows with unique zones: the pre-merge row plus its zone's cells. */
  lemma MergedRowAt(zones: Table, pre: seq<Row>, idx: nat)
    requires ZoneColumns <= zones.columns && WellFormed(zones) && UniqueKeys(zones.rows, "@id")
    requires idx < |pre| && pre[idx].Keys == PreJoinColumns
    ensures |MergeRows(pre, ReducedZones(zones), "@id")| == |pre|
    ensures var row := MergeRows(pre, ReducedZones(zones), "@id")[idx];
      && row.Keys == PreJoinColumns + ZoneColumns
      && (forall k :: k in pre[idx] ==> row[k] == pre[idx][k])
      && (forall n :: 0 <= n < |zones.rows| && zones.rows[n]["@id"] == pre[idx]["@id"] ==>
            row["name"] == zones.rows[n]["name"] && row["geometry"] == zones.rows[n]["geometry"])
      && ((forall n :: 0 <= n < |zones.rows| ==> zones.rows[n]["@id"] != pre[idx]["@id"]) ==>
            row["name"] == Null && row["geometry"] == Null)
  {
    ReducedUnique(zones);
    var reduced := ReducedZones(zones);
    MergeUnique(pre, reduced, "@id");
    var l := pre[idx];
    AnnotateCells(l, reduced);
    forall n | 0 <= n < |zones.rows| && zones.rows[n]["@id"] == l["@id"]
      ensures Lookup(l, reduced.rows, "@id") == Some(reduced.rows[n])
    {
      LookupUnique(l, reduced.rows, "@id", n);
    }
    if forall n :: 0 <= n < |zones.rows| ==> zones.rows[n]["@id"] != l["@id"] {
      NoMatches(l, reduced.rows, "@id");
    }
  }

  /** No alerts at all: there is nothing to concatenate. */
  lemma ReconcileNoAlerts(zones: Table)
    ensures Reconcile(zones, []) == Failure(NothingToConcatenate)
  {
  }

  /** An alert that has no `affectedZones` and only scalar fields cannot become a frame. */
  lemma ReconcileScalarAlertFails(zones: Table, alerts: seq<AlertFeature>, k: nat)
    requires k < |alerts|
    requires forall i :: 0 <= i < k ==> FromColumns(Project(alerts[i].properties, BaseFields)).Success?
    requires forall x :: x in BaseFields && x in alerts[k].properties ==> !alerts[k].properties[x].Items?
    ensures Reconcile(zones, alerts) == Failure(ScalarsNeedIndex)
  {
    var data := Project(alerts[k].properties, BaseFields);
    assert ListLengths(data) == {};
    assert alerts[..k + 1][..k] == alerts[..k];
    var prefix := AlertFrames(alerts[..k], BaseFields);
    assert prefix.Success?;
    FramesFailureExtends(alerts, k + 1, BaseFields);
  }

  /** A zone table without `@id`, `name` or `geometry` fails at the column selection. */
  lemma ReconcileMissingZoneColumns(zones: Table, alerts: seq<AlertFeature>)
    requires alerts != [] && forall i :: 0 <= i < |alerts| ==> Fans(alerts[i].properties)
    requires !(ZoneColumns <= zones.columns)
    ensures Reconcile(zones, alerts) == Failure(MissingColumns(ZoneColumns - zones.columns))
  {
    FanFramesAll(alerts);
  }

  /**
   * A table of one zone and one alert for that zone and for an unknown one: two rows,
   * the first with the zone's name and geometry, the second with nulls, both carrying
   * the alert's fields.
   */
  lemma KnownAndUnknownZone(zones: Table, props: map<string, Value>, other: Value)
    requires WellFormed(zones) && ZoneColumns <= zones.columns && |zones.rows| == 1
    requires Fans(props) && AffectedZones(props) == [zones.rows[0]["@id"], other]
    requires other != zones.rows[0]["@id"]
    ensures Reconcile(zones, [AlertFeature(props)]).Success?
    ensures var rows := Reconcile(zones, [AlertFeature(props)]).value.rows;
      && |rows| == 2 && rows[0].Keys == rows[1].Keys == PreJoinColumns + ZoneColumns
      && rows[0]["@id"] == zones.rows[0]["@id"] && rows[1]["@id"] == other
      && rows[0]["name"] == zones.rows[0]["name"] && rows[0]["geometry"] == zones.rows[0]["geometry"]
      && rows[1]["name"] == Null && rows[1]["geometry"] == Null
      && forall k :: k in BaseFields && k != "affectedZones" ==>
           rows[0][k] == rows[1][k] == if k in props then props[k] else Null
  {
    var alerts := [AlertFeature(props)];
    var t := Table(PreJoinColumns + ZoneColumns, MergeRows(PreJoinRows(alerts), ReducedZones(zones), "@id"));
    ReconcileMerges(zones, alerts);
    assert alerts[..0] == [];
    assert UniqueKeys(zones.rows, "@id");
    OneAlertRowCount(zones, props, t);
    KnownZoneRow(zones, props, t);
    UnknownZoneRow(zones, props, other, t);
  }

  /** One alert gives one merged row per zone it names, however many that is. */
  lemma OneAlertRowCount(zones: Table, props: map<string, Value>, t: Table)
    requires WellFormed(zones) && ZoneColumns <= zones.columns && UniqueKeys(zones.rows, "@id")
    requires t == Table(PreJoinColumns + ZoneColumns, MergeRows(PreJoinRows([AlertFeature(props)]), ReducedZones(zones), "@id"))
    ensures |t.rows| == |AffectedZones(props)|
  {
    var alerts := [AlertFeature(props)];
    assert alerts[1..] == [];
    PreJoinCount(alerts);
    ReducedUnique(zones);
    MergeUnique(PreJoinRows(alerts), ReducedZones(zones), "@id");
  }

  /** The merged row of the alert's first zone, which is the table's one zone. */
  lemma KnownZoneRow(zones: Table, props: map<string, Value>, t: Table)
    requires WellFormed(zones) && ZoneColumns <= zones.columns && |zones.rows| == 1
    requires 0 < |AffectedZones(props)| && AffectedZones(props)[0] == zones.rows[0]["@id"]
    requires t == Table(PreJoinColumns + ZoneColumns, MergeRows(PreJoinRows([AlertFeature(props)]), ReducedZones(zones), "@id"))
    ensures 0 < |t.rows| && t.rows[0].Keys == PreJoinColumns + ZoneColumns
    ensures t.rows[0]["@id"] == zones.rows[0]["@id"]
    ensures t.rows[0]["name"] == zones.rows[0]["name"] && t.rows[0]["geometry"] == zones.rows[0]["geometry"]
    ensures forall k :: k in BaseFields && k != "affectedZones" ==> t.rows[0][k] == if k in props then props[k] else Null
  {
    var alerts := [AlertFeature(props)];
    assert alerts[..0] == [];
    assert UniqueKeys(zones.rows, "@id");
    ReconciledRowFromMerge(zones, alerts, 0, 0, t);
    assert ZoneCount(alerts[..0]) == 0;
    assert PairingRow(zones, props, zones.rows[0]["@id"], t.rows[0]);
  }

  /** The merged row of the alert's second zone, which the table does not have. */
  lemma UnknownZoneRow(zones: Table, props: map<string, Value>, other: Value, t: Table)
    requires WellFormed(zones) && ZoneColumns <= zones.columns && |zones.rows| == 1
    requires 1 < |AffectedZones(props)| && AffectedZones(props)[1] == other && other != zones.rows[0]["@id"]
    requires t == Table(PreJoinColumns + ZoneColumns, MergeRows(PreJoinRows([AlertFeature(props)]), ReducedZones(zones), "@id"))
    ensures 1 < |t.rows| && t.rows[1].Keys == PreJoinColumns + ZoneColumns
    ensures t.rows[1]["@id"] == other
    ensures t.rows[1]["name"] == Null && t.rows[1]["geometry"] == Null
    ensures forall k :: k in BaseFields && k != "affectedZones" ==> t.rows[1][k] == if k in props then props[k] else Null
  {
    var alerts := [AlertFeature(props)];
    assert alerts[..0] == [];
    assert UniqueKeys(zones.rows, "@id");
    assert forall n :: 0 <= n < |zones.rows| ==> zones.rows[n]["@id"] != other by {
      forall n | 0 <= n < |zones.rows| ensures zones.rows[n]["@id"] != other {
        assert n == 0;
      }
    }
    ReconciledRowFromMerge(zones, alerts, 0, 1, t);
    assert ZoneCount(alerts[..0]) == 0;
    assert PairingRow(zones, props, other, t.rows[1]);
  }
}
