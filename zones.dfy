/**
 * The zone fetch.  One bulk request to the zones endpoint; if geometry was requested but
 * the first feature came back without any, the endpoint is taken to have dropped the
 * geometry, and every feature is fetched again from its own URL.
 */
module Zones {
  import opened Errors
  import opened Frames
  import opened Query

  /** A GeoJSON feature of the zones endpoint: its own URL, its geometry if any, its properties. */
  datatype ZoneFeature = ZoneFeature(id: string, geometry: Option<Geometry>, properties: map<string, Value>)

  function GeometryCell(g: Option<Geometry>): Value {
    match g
    case None => Null
    case Some(s) => Shape(s)
  }

  /** The row a GeoJSON reader makes of one feature: its properties plus a geometry column. */
  function FeatureRow(f: ZoneFeature): Row {
    f.properties["geometry" := GeometryCell(f.geometry)]
  }

  function FeatureRows(fs: seq<ZoneFeature>): (rows: seq<Row>)
    ensures |rows| == |fs|
  {
    seq(|fs|, i requires 0 <= i < |fs| => FeatureRow(fs[i]))
  }

  /** Every property name some feature has. */
  function PropertyNames(fs: seq<ZoneFeature>): set<string> {
    set i, k | 0 <= i < |fs| && k in fs[i].properties :: k
  }

  /** The columns of a read feature collection: every property name, and the geometry. */
  function FeatureColumns(fs: seq<ZoneFeature>): (cols: set<string>)
    ensures cols == PropertyNames(fs) + {"geometry"}
    ensures forall i :: 0 <= i < |fs| ==> FeatureRow(fs[i]).Keys <= cols
  {
    if fs == [] then {"geometry"}
    else
      var cols := FeatureRow(fs[0]).Keys + FeatureColumns(fs[1..]);
      assert forall i :: 1 <= i < |fs| ==> fs[i] == fs[1..][i - 1];
      PropertyNamesCons(fs);
      cols
  }

  lemma PropertyNamesCons(fs: seq<ZoneFeature>)
    requires fs != []
    ensures PropertyNames(fs) == fs[0].properties.Keys + PropertyNames(fs[1..])
  {
    forall k | k in PropertyNames(fs)
      ensures k in fs[0].properties.Keys + PropertyNames(fs[1..])
    {
      var i :| 0 <= i < |fs| && k in fs[i].properties;
      if i > 0 {
        assert fs[1..][i - 1] == fs[i];
      }
    }
    forall k | k in PropertyNames(fs[1..])
      ensures k in PropertyNames(fs)
    {
      var i :| 0 <= i < |fs[1..]| && k in fs[1..][i].properties;
      assert fs[i + 1] == fs[1..][i];
    }
  }

  /**
   * A feature collection read as a table: one row per feature, in order, holding the
   * feature's properties and its geometry; properties other features have are null.
   */
  function ReadFeatures(fs: seq<ZoneFeature>): (t: Table)
    ensures WellFormed(t) && |t.rows| == |fs|
    ensures t.columns == PropertyNames(fs) + {"geometry"}
    ensures forall i :: 0 <= i < |fs| ==> t.columns >= fs[i].properties.Keys
    ensures forall i, k :: 0 <= i < |fs| && k in t.columns && k != "geometry" && k !in fs[i].properties ==>
      t.rows[i][k] == Null
    ensures forall i :: 0 <= i < |fs| ==> t.rows[i]["geometry"] == GeometryCell(fs[i].geometry)
    ensures forall i, k :: 0 <= i < |fs| && k in fs[i].properties && k != "geometry" ==>
      t.rows[i][k] == fs[i].properties[k]
  {
    var cols := FeatureColumns(fs);
    Table(cols, WidenRows(FeatureRows(fs), cols))
  }

  /** The defect workaround applies when geometry was requested and the first feature has none. */
  predicate NeedsRecovery(includeGeometry: bool, bulk: seq<ZoneFeature>): (b: bool)
    requires bulk != []
    ensures b ==> includeGeometry
    ensures b <==> includeGeometry && GeometryCell(bulk[0].geometry) == Null
  {
    bulk[0].geometry.None? && includeGeometry
  }

  /** Each bulk feature fetched again from its own URL, in bulk order. */
  function Recovered(bulk: seq<ZoneFeature>, fetch: string -> ZoneFeature): (fs: seq<ZoneFeature>)
    ensures |fs| == |bulk|
  {
    seq(|bulk|, i requires 0 <= i < |bulk| => fetch(bulk[i].id))
  }

  /** One parameterless GET per bulk feature, against that feature's URL, in bulk order. */
  function FollowUps(bulk: seq<ZoneFeature>): (rs: seq<Request>)
    ensures |rs| == |bulk|
    ensures forall i :: 0 <= i < |bulk| ==> rs[i] == Request(bulk[i].id, map[])
  {
    seq(|bulk|, i requires 0 <= i < |bulk| => Request(bulk[i].id, map[]))
  }

  /**
   * The zone table made from the bulk features: an error when there are none (the first
   * feature is looked at before anything else), the re-fetched features when the
   * workaround applies, and the bulk features otherwise.
   */
  function ZoneTable(q: ZoneQuery, bulk: seq<ZoneFeature>, fetch: string -> ZoneFeature): (r: Result<Table>)
    ensures r.Failure? <==> bulk == []
    ensures r.Failure? ==> r.error == NoFeatures
    ensures r.Success? ==> WellFormed(r.value) && |r.value.rows| == |bulk|
  {
    if bulk == [] then Failure(NoFeatures)
    else if NeedsRecovery(q.includeGeometry, bulk) then Success(ReadFeatures(Recovered(bulk, fetch)))
    else Success(ReadFeatures(bulk))
  }

  /** The tables a single-feature read gives, one per feature. */
  function Singles(fs: seq<ZoneFeature>): (ts: seq<Table>)
    ensures |ts| == |fs|
    ensures forall i :: 0 <= i < |fs| ==> WellFormed(ts[i]) && ts[i].rows == [FeatureRow(fs[i])]
  {
    assert forall i :: 0 <= i < |fs| ==> ReadFeatures([fs[i]]).rows == [FeatureRow(fs[i])] by {
      forall i | 0 <= i < |fs| {
        SingleRead(fs[i]);
      }
    }
    seq(|fs|, i requires 0 <= i < |fs| => ReadFeatures([fs[i]]))
  }

  /**
   * Fetches the zones for `q`.  `zonesEndpoint` answers the bulk query with its features;
   * `zoneEndpoint` answers a GET of one feature's URL with that feature.  `requests` lists
   * the GETs issued, in order.
   */
  method GetZones(q: ZoneQuery, zonesEndpoint: Params -> seq<ZoneFeature>, zoneEndpoint: string -> ZoneFeature)
    returns (result: Result<Table>, requests: seq<Request>)
    ensures var bulk := zonesEndpoint(ZoneParams(q));
      && result == ZoneTable(q, bulk, zoneEndpoint)
      && requests == [Request(ZonesUrl, ZoneParams(q))]
                     + (if bulk != [] && NeedsRecovery(q.includeGeometry, bulk) then FollowUps(bulk) else [])
  {
    var params := ZoneParams(q);
    var bulk := zonesEndpoint(params);
    requests := [Request(ZonesUrl, params)];
    if |bulk| == 0 {
      return Failure(NoFeatures), requests;
    }
    if bulk[0].geometry.None? && q.includeGeometry {
      var frames: seq<Table> := [];
      for i := 0 to |bulk|
        invariant frames == Singles(Recovered(bulk[..i], zoneEndpoint))
        invariant requests == [Request(ZonesUrl, params)] + FollowUps(bulk[..i])
      {
        var zone := zoneEndpoint(bulk[i].id);
        FollowUpsStep(bulk, i);
        RecoveredStep(bulk, i, zoneEndpoint);
        requests := requests + [Request(bulk[i].id, map[])];
        frames := frames + [ReadFeatures([zone])];
      }
      assert bulk[..|bulk|] == bulk;
      ConcatSingles(Recovered(bulk, zoneEndpoint));
      result := Concat(frames);
    } else {
      result := Success(ReadFeatures(bulk));
    }
  }

  lemma FollowUpsStep(bulk: seq<ZoneFeature>, i: nat)
    requires i < |bulk|
    ensures FollowUps(bulk[..i + 1]) == FollowUps(bulk[..i]) + [Request(bulk[i].id, map[])]
  {
  }

  lemma RecoveredStep(bulk: seq<ZoneFeature>, i: nat, fetch: string -> ZoneFeature)
    requires i < |bulk|
    ensures Singles(Recovered(bulk[..i + 1], fetch))
         == Singles(Recovered(bulk[..i], fetch)) + [ReadFeatures([fetch(bulk[i].id)])]
  {
    var before := Recovered(bulk[..i], fetch);
    var after := Recovered(bulk[..i + 1], fetch);
    assert after == before + [fetch(bulk[i].id)];
    assert forall j :: 0 <= j < |before| ==> after[j] == before[j];
  }

  /** Concatenating the one-feature tables is reading all the features at once. */
  lemma {:induction false} ConcatSingles(fs: seq<ZoneFeature>)
    requires fs != []
    ensures Concat(Singles(fs)) == Success(ReadFeatures(fs))
  {
    var cols := FeatureColumns(fs);
    SinglesColumns(fs);
    SinglesRows(fs, cols);
  }

  lemma SingleColumns(f: ZoneFeature)
    ensures FeatureColumns([f]) == FeatureRow(f).Keys
  {
    assert [f][1..] == [];
  }

  lemma {:induction false} SinglesColumns(fs: seq<ZoneFeature>)
    requires fs != []
    ensures AllColumns(Singles(fs)) == FeatureColumns(fs)
  {
    SingleColumns(fs[0]);
    assert Singles(fs)[1..] == Singles(fs[1..]);
    if |fs| > 1 {
      SinglesColumns(fs[1..]);
    } else {
      assert fs[1..] == [];
    }
  }

  lemma {:induction false} SinglesRows(fs: seq<ZoneFeature>, cols: set<string>)
    ensures StackRows(Singles(fs), cols) == WidenRows(FeatureRows(fs), cols)
  {
    if fs != [] {
      var ts := Singles(fs);
      var f := fs[0];
      assert ts[0].rows == [FeatureRow(f)];
      assert ts[1..] == Singles(fs[1..]);
      SinglesRows(fs[1..], cols);
      assert FeatureRows(fs) == [FeatureRow(f)] + FeatureRows(fs[1..]);
      WidenRowsAppend([FeatureRow(f)], FeatureRows(fs[1..]), cols);
      assert StackRows(ts, cols) == WidenRows(ts[0].rows, cols) + StackRows(ts[1..], cols);
    }
  }

  /** Reading a single feature gives its row as it is. */
  lemma SingleRead(f: ZoneFeature)
    ensures ReadFeatures([f]).rows == [FeatureRow(f)]
  {
    SingleColumns(f);
    WidenOwnKeys(FeatureRow(f));
  }

  // ---------------------------------------------------------------------------
  // What the zone table holds

  /** On the workaround path row `i` is the feature fetched from bulk feature `i`'s URL. */
  lemma RecoveredRowsInOrder(q: ZoneQuery, bulk: seq<ZoneFeature>, fetch: string -> ZoneFeature)
    requires bulk != [] && NeedsRecovery(q.includeGeometry, bulk)
    ensures var t := ZoneTable(q, bulk, fetch).value;
      && |t.rows| == |bulk|
      && forall i :: 0 <= i < |bulk| ==>
        && t.rows[i]["geometry"] == GeometryCell(fetch(bulk[i].id).geometry)
        && forall k :: k in fetch(bulk[i].id).properties && k != "geometry" ==>
             t.rows[i][k] == fetch(bulk[i].id).properties[k]
  {
    var rec := Recovered(bulk, fetch);
    assert forall i :: 0 <= i < |bulk| ==> rec[i] == fetch(bulk[i].id);
  }

  /** Off the workaround path the table is the bulk body read as it is. */
  lemma BulkRowsUnchanged(q: ZoneQuery, bulk: seq<ZoneFeature>, fetch: string -> ZoneFeature)
    requires bulk != [] && !NeedsRecovery(q.includeGeometry, bulk)
    ensures ZoneTable(q, bulk, fetch) == Success(ReadFeatures(bulk))
  {
  }

  /** If every re-fetched feature has a geometry, so does every row of the recovered table. */
  lemma RecoveredGeometryPresent(q: ZoneQuery, bulk: seq<ZoneFeature>, fetch: string -> ZoneFeature)
    requires bulk != [] && NeedsRecovery(q.includeGeometry, bulk)
    requires forall i :: 0 <= i < |bulk| ==> fetch(bulk[i].id).geometry.Some?
    ensures var t := ZoneTable(q, bulk, fetch).value;
      forall i :: 0 <= i < |t.rows| ==> t.rows[i]["geometry"].Shape?
  {
    RecoveredRowsInOrder(q, bulk, fetch);
  }

  /**
   * Only the first feature is inspected: a bulk answer whose first feature has a
   * geometry and whose second has none is used as it is, leaving a row without geometry.
   */
  lemma OnlyFirstFeatureInspected(g: Geometry, fetch: string -> ZoneFeature)
    ensures var bulk := [ZoneFeature("a", Some(g), map[]), ZoneFeature("b", None, map[])];
      var t := ZoneTable(DefaultZoneQuery, bulk, fetch).value;
      t.rows[1]["geometry"] == Null
  {
  }
}
