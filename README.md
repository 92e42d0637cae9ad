# nws-spatial retrieval and reconciliation, modelled in Dafny

This project models the retrieval-and-reconciliation pipeline of `nws_spatial/get.py`, which
works against the National Weather Service API:

- **Query parameters** (`query.dfy`). `get_zones` and `get_active_alerts` write all of their
  filter arguments into one dict and send only the entries that are not `None`. Falsy values
  such as `include_geometry=False` or `limit=0` are still sent.
- **Zone fetch** (`zones.dfy`). One bulk request goes to `https://api.weather.gov/zones`. Then
  the first feature is inspected. If it has no geometry and geometry was requested, every bulk
  feature is fetched again from its own URL, and the single-feature tables are concatenated in
  bulk order. Otherwise the bulk body is read as it is. An empty bulk answer fails at
  `features[0]`, whatever `include_geometry` is.
- **Reconciliation** (`alerts.dfy`). The zone ids are joined with commas into the `zone` filter
  of one alert request, sent with a limit of 500. Each alert's properties are projected onto
  nine fixed fields, with absent ones null, and each alert becomes a frame with one row per
  zone in its `affectedZones` list. The frames are concatenated, `affectedZones` is renamed to
  `@id`, and the rows are left-merged with the zone table cut down to `@id`, `name` and
  `geometry`. Any extra field argument fails, as the code is written: `set` has no method `up`.
- **Table operations** (`frames.dfy`). This module states the row behaviour of the pandas
  operations the pipeline uses:
  - `DataFrame(dict)` broadcasts scalars over the list-valued columns. A dict of scalars only
    is a `ValueError`, and so are lists of different lengths.
  - `concat` takes the union of the columns and pads with nulls; `concat([])` is an error.
  - `rename`, column selection (a missing column is a `KeyError`) and the left merge on one key.
- `text.dfy` models `",".join` and `str.split`; `errors.dfy` holds the `Result` type and one
  error constructor per exception the modelled paths raise. The other exceptions the code can
  raise are listed under "Left out".

HTTP is modelled as function parameters. `zonesEndpoint` and `alertsEndpoint` answer a query
with their features, and `zoneEndpoint` answers a feature URL with that feature. The two
methods, `Zones.GetZones` and `Alerts.GetActiveAlertsFromZones`, also return the list of
requests they issue. Each method's result is proved equal to a function of its inputs:
`Zones.ZoneTable` for the first and `Alerts.Reconcile` for the second.

Two behaviours of the code are modelled as written:

- The comment at `get.py:35-36` says every zone has to be queried for its geometry, but line 37
  looks only at the first bulk feature. A missing geometry further down goes through
  unrecovered (`Zones.OnlyFirstFeatureInspected`).
- `default_args.up(arg)` at `get.py:103` raises `AttributeError` on the first extra field,
  because a `set` has no method `up`. The extra fields are never added.

## Model

| member | source | states |
|---|---|---|
| Query.Present | nws_spatial/get.py:30 | a key is sent iff its slot holds a value, and the sent value is that value unchanged |
| Query.ZoneParams | nws_spatial/get.py:30 | the zone request's parameters are exactly the argument slots that hold a value, each with that value |
| Query.ZoneParamsContents | nws_spatial/get.py:19-30 | each zone parameter is sent iff its argument is not `None`, with the argument's value; `include_geometry` is always sent; no other key is sent |
| Query.ZoneParamsKeepFalsy | nws_spatial/get.py:25-30 | `include_geometry=False` and `limit=0` are still sent |
| Query.DefaultZoneParams | nws_spatial/get.py:11-30 | with the defaults, exactly `area=MT`, `type=public` and `include_geometry=True` are sent |
| Query.AlertParams | nws_spatial/get.py:82 | the alert request's parameters are exactly the argument slots that hold a value, each with that value |
| Query.AlertParamsContents | nws_spatial/get.py:66-82 | each of the thirteen alert parameters is sent iff it is not `None`, with its value; no other key is sent |
| Query.ZoneAlertParams | nws_spatial/get.py:64-95 | the reconciliation's alert request carries exactly the zone filter and `limit=500` |
| Text.Join | nws_spatial/get.py:94 | the join starts with the first part |
| Text.JoinSeparators | nws_spatial/get.py:94 | joining separator-free parts puts exactly one separator between neighbours, and none for no parts |
| Text.Split | nws_spatial/get.py:94 | splitting gives at least one piece, and no piece contains the separator |
| Text.JoinSplit | nws_spatial/get.py:94 | joining the pieces of a split gives the string back, so any two splits of one string agree |
| Text.SplitJoin | nws_spatial/get.py:94 | splitting a comma join of comma-free parts gives the parts back, in order |
| Text.SplitJoinNothing | nws_spatial/get.py:94 | joining no ids gives "", which splits into one empty piece, so the round trip needs an id |
| Frames.Concat | nws_spatial/get.py:110 | fails iff there are no tables (`NothingToConcatenate`); otherwise the columns are the union, every row has exactly them, and the rows are as many as all tables' rows |
| Frames.ConcatUniform | nws_spatial/get.py:110 | concatenating well-formed tables with one shared column set gives their rows one table after the other |
| Frames.FromColumns | nws_spatial/get.py:108 | an empty dict is the empty frame; a non-empty dict succeeds iff its list-valued entries share one length; all-scalar dicts give `ScalarsNeedIndex`, unequal lists `LengthMismatch`; the frame has the dict's keys and, for a non-empty dict, that many rows |
| Frames.FromColumnsCells | nws_spatial/get.py:107-108 | row `i` holds entry `i` of every list and every scalar unchanged |
| Frames.RenameColumn | nws_spatial/get.py:111-115 | the row count is kept; an absent column changes nothing; otherwise `from` is replaced by `to` among the columns |
| Frames.RenameColumnCells | nws_spatial/get.py:111-115 | renaming moves each row's `from` cell to `to` and leaves the other cells alone |
| Frames.Select | nws_spatial/get.py:116 | succeeds iff every named column exists, failing with exactly the missing ones; keeps the row count |
| Frames.SelectCells | nws_spatial/get.py:116 | the selected cells of every row are unchanged |
| Frames.Matches | nws_spatial/get.py:118 | the matches are rows of the right table whose key equals the left row's key, and every right row carrying the left row's key is among them |
| Frames.MergeRow | nws_spatial/get.py:118 | a left row becomes one row per match, or one row when nothing matches; each keeps the left row's columns and its key |
| Frames.MergeRows | nws_spatial/get.py:118 | the merge of the left rows has at least as many rows, and none only when there are no left rows |
| Frames.LeftMerge | nws_spatial/get.py:117-119 | succeeds iff the key is a column of both tables, failing with `MissingColumns({key})`; the columns are the union |
| Frames.MergeKeepsEveryRow | nws_spatial/get.py:118 | a left merge never has fewer rows than its left table |
| Frames.MergeUnique | nws_spatial/get.py:118 | with unique right keys, row `i` of the merge is left row `i` annotated with its one match, or with nulls |
| Frames.MergeRowSingle | nws_spatial/get.py:118 | with unique right keys one left row merges into exactly one row |
| Frames.MergeRowsWellFormed | nws_spatial/get.py:118 | every merged row has the columns of both tables |
| Frames.MatchesAtMostOne | nws_spatial/get.py:118 | with unique right keys a left row has at most one match |
| Frames.LookupUnique | nws_spatial/get.py:118 | with unique right keys the right row carrying the left row's key is the one it is merged with |
| Zones.ReadFeatures | nws_spatial/get.py:42-46 | one row per feature, in order; the columns are exactly the property names of all features plus `geometry`; each row holds its feature's properties and geometry cell (null when absent), and null for the properties other features have |
| Zones.NeedsRecovery | nws_spatial/get.py:37 | the workaround applies iff geometry was requested and the first bulk feature's geometry cell is null |
| Zones.Singles | nws_spatial/get.py:42-43 | one table per fetched feature, in order, each holding exactly that feature's row |
| Zones.Recovered | nws_spatial/get.py:40-43 | one re-fetched feature per bulk feature |
| Zones.FollowUps | nws_spatial/get.py:40-41 | follow-up request `i` is a GET of bulk feature `i`'s own URL |
| Zones.ZoneTable | nws_spatial/get.py:37-46 | fails iff the bulk answer is empty (`NoFeatures`); otherwise a well-formed table with one row per bulk feature |
| Zones.GetZones | nws_spatial/get.py:9-48 | the result is `ZoneTable` of the bulk answer; the requests are the bulk query, then one GET per bulk feature exactly on the recovery path |
| Zones.ConcatSingles | nws_spatial/get.py:42-44 | concatenating the one-feature tables equals reading all the features at once |
| Zones.RecoveredRowsInOrder | nws_spatial/get.py:38-44 | on the recovery path row `i` holds the geometry and properties fetched from bulk feature `i`'s URL |
| Zones.BulkRowsUnchanged | nws_spatial/get.py:45-46 | off the recovery path the table is the bulk body read as it is |
| Zones.RecoveredGeometryPresent | nws_spatial/get.py:37-44 | on the recovery path, if every fetched feature has geometry, every row has geometry |
| Zones.OnlyFirstFeatureInspected | nws_spatial/get.py:37 | a bulk answer whose second feature lacks geometry is used as it is, leaving that row without geometry |
| Alerts.ColumnTexts | nws_spatial/get.py:94 | succeeds iff every row has the column as text (else `NotText`), giving those texts in row order |
| Alerts.ZoneIds | nws_spatial/get.py:94 | a zone table without an `id` column fails with `MissingColumns({"id"})`; otherwise the ids are the `id` column's texts in row order, and a non-text id fails (`ColumnTexts`) |
| Alerts.ZoneFilterRoundTrip | nws_spatial/get.py:94-95 | when no id contains a comma, splitting the zone filter on commas gives the ids back in table order |
| Alerts.GetActiveAlerts | nws_spatial/get.py:51-91 | one GET of the active-alerts URL carrying exactly the arguments that are not `None`, with their values; the answer is the endpoint's answer to that request |
| Alerts.Project | nws_spatial/get.py:107 | a projection has exactly the requested fields |
| Alerts.ProjectPadded | nws_spatial/get.py:107 | a projection is the selection of the present properties padded with nulls for the absent ones |
| Alerts.ProjectedFields | nws_spatial/get.py:97-107 | a projected alert has exactly the nine base fields, each the property's value or null |
| Alerts.AlertFrames | nws_spatial/get.py:105-108 | on success there is one frame per alert, each built from that alert's projection; if every alert's frame can be built, all are |
| Alerts.FramesStep | nws_spatial/get.py:105-108 | one more alert appends its frame, or its error becomes the result |
| Alerts.FramesFailureExtends | nws_spatial/get.py:105-108 | once a prefix of the alerts fails, the whole sequence fails with the same error |
| Alerts.GetActiveAlertsFromZones | nws_spatial/get.py:93-120 | an id error comes before any request; otherwise exactly one alert request with the comma-joined ids; then `NoSuchMethod("up")` for any extra field, and `Reconcile` of the answer without one |
| Alerts.Reconcile | nws_spatial/get.py:105-119 | a reconciled table has exactly the pre-merge columns and `@id`, `name`, `geometry` |
| Alerts.Combine | nws_spatial/get.py:110-119 | no frames fail with `NothingToConcatenate`; then a zone table missing `@id`, `name` or `geometry` fails with exactly the missing columns; a result has the zone columns, and exactly the pre-merge ones besides when every frame has the base fields |
| Alerts.AlertRows | nws_spatial/get.py:105-110 | an alert gives one row per zone it names |
| Alerts.PreJoinRowFields | nws_spatial/get.py:107-115 | a pre-merge row has the eight non-zone base fields plus `@id`, holds the zone as `@id` and the alert's fields unchanged |
| Alerts.PreJoinCount | nws_spatial/get.py:105-110 | the pre-merge rows are as many as the zone mentions over all alerts |
| Alerts.PreJoinRowAt | nws_spatial/get.py:105-110 | zone `j` of alert `a` is the row after all zones of earlier alerts: rows go by alert, then by zone |
| Alerts.EmptyAlertNoRows | nws_spatial/get.py:106-110 | an alert that names no zone contributes no row |
| Alerts.FanRows | nws_spatial/get.py:107-108 | an alert's frame has one row per zone it names |
| Alerts.FanFrame | nws_spatial/get.py:107-108 | an alert whose `affectedZones` is a list and whose other fields are scalars becomes a frame with one row per zone, each the projection with that zone |
| Alerts.FanFramesAll | nws_spatial/get.py:105-108 | for such alerts all frames are built, and they are the fan-out frames |
| Alerts.AlertFramesAre | nws_spatial/get.py:105-108 | frames that the alerts build one by one are the alert frames |
| Alerts.RenamedAlertRows | nws_spatial/get.py:111-115 | renaming one alert's frame rows gives that alert's pre-merge rows |
| Alerts.RenamedFanRows | nws_spatial/get.py:110-115 | renaming `affectedZones` to `@id` in the stacked frames gives the pre-merge rows |
| Alerts.ReconcileMerges | nws_spatial/get.py:105-119 | for such alerts and a zone table with `@id`, `name` and `geometry`, the result is the left merge of the pre-merge rows with the reduced zones |
| Alerts.ReconcileFromFrames | nws_spatial/get.py:110-119 | uniform frames whose renamed rows are the pre-merge rows lead to exactly that merge |
| Alerts.AnnotateCells | nws_spatial/get.py:116-119 | a merged row keeps the alert cells and takes name and geometry from its matching zone, or nulls |
| Alerts.ReducedUnique | nws_spatial/get.py:116 | the reduced zone table has exactly `@id`, `name` and `geometry`, the same rows and cells, and still unique URLs |
| Alerts.ReconcileKeepsEveryPairing | nws_spatial/get.py:105-119 | reconciling succeeds and never has fewer rows than alert-zone pairings |
| Alerts.ReconcileRowCount | nws_spatial/get.py:105-119 | with unique zone URLs there is exactly one row per alert-zone pairing |
| Alerts.ReconciledRowAt | nws_spatial/get.py:105-119 | the row of zone `j` of alert `a` sits after all earlier pairings and is a `PairingRow`: it has the merged columns, the zone as `@id`, the alert's fields unchanged, and the matching zone's name and geometry, or nulls when none matches |
| Alerts.MergedRowAt | nws_spatial/get.py:116-119 | a merged row has both column sets, the pre-merge cells, and its zone's name and geometry or nulls |
| Alerts.ReconcileNoAlerts | nws_spatial/get.py:110 | no alerts fail with `NothingToConcatenate` |
| Alerts.ReconcileScalarAlertFails | nws_spatial/get.py:107-108 | the first alert with no list-valued field fails the whole reconciliation with `ScalarsNeedIndex` |
| Alerts.ReconcileMissingZoneColumns | nws_spatial/get.py:116 | a zone table missing `@id`, `name` or `geometry` fails with exactly the missing columns |
| Alerts.KnownAndUnknownZone | nws_spatial/get.py:111-119 | one zone and an alert for it and for an unknown zone: two rows, the first with the zone's name and geometry, the second with nulls, both with the alert's fields |
| Alerts.OneAlertRowCount | nws_spatial/get.py:111-119 | one alert gives as many merged rows as zones it names |
| Alerts.KnownZoneRow | nws_spatial/get.py:111-119 | scenario: with a one-zone table and one alert whose first zone is that zone, row 0 carries the zone's name and geometry and the alert's fields (the general fact is `ReconciledRowAt`) |
| Alerts.UnknownZoneRow | nws_spatial/get.py:111-119 | scenario: with a one-zone table and one alert whose second zone is a different one, row 1 carries null name and geometry and the alert's fields (the general fact is `ReconciledRowAt`) |

## Left out

- HTTP I/O (`httpx.get`, redirect following, transport errors, status codes): the endpoints are function parameters and always answer.
- An error answer without `features` (a `KeyError` in the code) is not modelled; the endpoints return feature sequences.
- The other `KeyError`s of the code are not modelled either: a feature without `geometry` (line 37) or without `id` (line 41), and an alert without `properties` (line 107). The feature datatypes always have these members.
- Decoding errors of `r.json()` and `gpd.read_file` are not modelled: the endpoints answer with decoded features.
- GeoJSON parsing by `gpd.read_file`: a feature becomes a row of its properties plus `geometry`, and geometries are opaque values. The feature's top-level `id` does not become a column.
- The `schemas` module is not part of this model; enumerated filter values are the strings they are sent as.
- `effective` is a `datetime`; it is an opaque integer here, because only whether it is `None` matters.
- Column order and the row index: a table's columns are a set, and `ignore_index` has no counterpart.
- The merge's suffixes for overlapping non-key columns, and renaming onto an existing column. Neither arises here, because the only shared column is the key `@id`.
- Frames.FromColumns: treats any `Items` value as a list column; dict or nested values are not distinguished.
- pandas' treatment of missing values in a merge key: `Null` matches `Null` here, like pandas' NaN keys.
- Lines 122-124 (fetching and plotting at import time) are I/O and plotting.
- `main.py` is not part of this model (argument parsing, file output, template rendering).
- Alerts.ReconcileMerges and the lemmas after it: they assume the delivered alert shape (`affectedZones` a list, the other base fields scalars). Other shapes are covered only by `Alerts.ReconcileScalarAlertFails` and the general `Alerts.AlertFrames` contract.
