/** scripts/fetch_bls_data.py: one request for the national series, a strict flattening of
    the response (nothing unless the status is REQUEST_SUCCEEDED), and a sort of the rows
    by (Industry, Metric, Year, Period) before they are written. Rows of this script have
    no `State` column. */
module BlsFetch {
  import opened Optional
  import opened Order
  import opened BlsApi

  /** `process_data` exactly as written: `not json_data` is true for a failed request
      (`None`), and the error report that follows then calls `.get` on `None`, which raises. */
  function StrictRowsAsWritten(json: Option<Response>, meta: map<string, SeriesDef>): (r: Result<seq<Row>>)
    ensures json.None? <==> r.Crash?
    ensures json.Some? && json.value.status != Some(Succeeded) ==> r == Ok([])
  {
    if json.None? then Crash("AttributeError: 'NoneType' object has no attribute 'get'")
    else if !Truthy(json.value) || json.value.status != Some(Succeeded) then Ok([])
    else Ok(FlatRows(SeriesList(json.value), meta, false))
  }

  /** `process_data` as its guard intends: a failed request, an empty body or a status other
      than REQUEST_SUCCEEDED all yield no rows. */
  function StrictRows(json: Option<Response>, meta: map<string, SeriesDef>): (rows: seq<Row>)
    ensures json.None? || json.value.status != Some(Succeeded) ==> rows == []
    ensures json.Some? && json.value.status == Some(Succeeded) ==> |rows| == PointCount(SeriesList(json.value))
    ensures forall r :: r in rows ==> r.state.None?
  {
    if json.None? || !Truthy(json.value) || json.value.status != Some(Succeeded) then []
    else
      FlatRowsCount(SeriesList(json.value), meta, false);
      FlatRowsMetadata(SeriesList(json.value), meta, false);
      FlatRows(SeriesList(json.value), meta, false)
  }

  /** The two agree wherever the request did not fail. */
  lemma StrictRowsAgree(json: Option<Response>, meta: map<string, SeriesDef>)
    requires json.Some?
    ensures StrictRowsAsWritten(json, meta) == Ok(StrictRows(json, meta))
  {
  }

  /** A failed request crashes the script as written instead of reporting "No data to save". */
  lemma FailedRequestCrashes(meta: map<string, SeriesDef>)
    ensures StrictRowsAsWritten(None, meta).Crash?
    ensures StrictRows(None, meta) == []
  {
  }

  /** The nested loop of `process_data`, with the corrected guard. */
  method ProcessData(json: Option<Response>, meta: map<string, SeriesDef>) returns (rows: seq<Row>)
    ensures rows == StrictRows(json, meta)
  {
    if json.None? || !Truthy(json.value) || json.value.status != Some(Succeeded) {
      return [];
    }
    rows := FlattenSeries(SeriesList(json.value), meta, false);
  }

  /** The sort key of `main`: the four fields compared as strings. */
  function RowKey(r: Row): seq<KeyPart> {
    [S(r.industry), S(r.metric), S(r.year), S(r.period)]
  }

  datatype Outcome = NoDataToSave | Saved(rows: seq<Row>)

  /** `main` after the request: flatten the response, and if there are rows, sort them by
      (Industry, Metric, Year, Period) and write them. */
  method Run(json: Option<Response>, meta: map<string, SeriesDef>) returns (outcome: Outcome)
    ensures outcome.NoDataToSave? <==> StrictRows(json, meta) == []
    ensures outcome.Saved? ==> SortedBy(outcome.rows, RowKey)
    ensures outcome.Saved? ==> multiset(outcome.rows) == multiset(StrictRows(json, meta))
  {
    var rows := ProcessData(json, meta);
    if rows == [] {
      return NoDataToSave;
    }
    rows := SortBy(rows, RowKey);
    outcome := Saved(rows);
  }
}
