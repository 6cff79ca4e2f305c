/** The BLS public data API as the fetch scripts see it: the decoded JSON body of a
    response, the series definitions that annotate it, the flattening of a response into
    one row per data point (`process_data` in archive/fetch_remaining_data.py and
    archive/fetch_information_industry.py, which are identical), and the batch loop of
    their `main`. The HTTP request itself is a function parameter `fetch` from a batch of
    series IDs to the decoded body, `None` when the request raised. */
module BlsApi {
  import opened Optional
  import opened Text
  import opened Batching

  /** A footnote object; an empty object is falsy and is skipped. */
  type Footnote = map<string, string>

  /** One observation. `year`, `period`, `periodName` and `value` are read with `item[...]`,
      so they are always present; a missing `footnotes` list reads as empty. */
  datatype DataPoint = DataPoint(year: string, period: string, periodName: string, value: string,
                                 footnotes: seq<Footnote>)

  /** A series object; a missing `data` list reads as empty. */
  datatype Series = Series(seriesId: string, data: seq<DataPoint>)

  /** The `Results` object; `series` is `None` when the key is absent. */
  datatype Results = Results(series: Option<seq<Series>>)

  /** The decoded body. A key that is absent is `None`; `otherKeys` says whether the object
      has keys besides `status` and `Results` (such as `message`), which makes it truthy. */
  datatype Response = Response(status: Option<string>, results: Option<Results>, otherKeys: bool)

  const Succeeded: string := "REQUEST_SUCCEEDED"
  const Unknown: string := "Unknown"

  /** Python's truth value of a dict: it is falsy exactly when it is empty. */
  predicate Truthy(r: Response) {
    r.status.Some? || r.results.Some? || r.otherKeys
  }

  /** `json_data.get('Results', {}).get('series', [])` */
  function SeriesList(r: Response): (s: seq<Series>)
    ensures r.results.None? ==> s == []
    ensures r.results.Some? && r.results.value.series.None? ==> s == []
  {
    match r.results
    case Some(Results(Some(s))) => s
    case _ => []
  }

  /** One entry of a series definition list. `state` is `None` where the definition has no
      `state` key (the definitions of fetch_bls_data.py). */
  datatype SeriesDef = SeriesDef(id: string, industry: string, metric: string, source: string,
                                 unit: string, state: Option<string>)

  /** `{item['id']: item for item in defs}`: keyed by series ID, and a later definition of
      the same ID replaces an earlier one. */
  function MetaDict(defs: seq<SeriesDef>): map<string, SeriesDef> {
    if defs == [] then map[]
    else MetaDict(defs[..|defs| - 1])[defs[|defs| - 1].id := defs[|defs| - 1]]
  }

  /** Every defined ID is a key; each key maps to one of its definitions, and an ID defined
      only once maps to that definition. */
  lemma {:induction false} MetaDictSpec(defs: seq<SeriesDef>)
    ensures forall i :: 0 <= i < |defs| ==> defs[i].id in MetaDict(defs)
    ensures forall id :: id in MetaDict(defs) ==>
              exists i :: 0 <= i < |defs| && defs[i].id == id && MetaDict(defs)[id] == defs[i]
    ensures forall i :: 0 <= i < |defs| && (forall j :: i < j < |defs| ==> defs[j].id != defs[i].id) ==>
              MetaDict(defs)[defs[i].id] == defs[i]
  {
    if defs != [] {
      var init := defs[..|defs| - 1];
      MetaDictSpec(init);
      assert forall i :: 0 <= i < |init| ==> init[i] == defs[i];
    }
  }

  /** The texts of the truthy footnotes, `''` for one without a `text` key. */
  function FootnoteTexts(fs: seq<Footnote>): (t: seq<string>)
    ensures |t| <= |fs|
    ensures (forall i :: 0 <= i < |fs| ==> fs[i] == map[]) ==> t == []
  {
    if fs == [] then []
    else (if fs[0] == map[] then [] else [Get(fs[0], "text").GetOr("")]) + FootnoteTexts(fs[1..])
  }

  /** `"; ".join(f.get('text', '') for f in footnotes if f)` */
  function FootnoteText(fs: seq<Footnote>): string {
    Join(FootnoteTexts(fs), "; ")
  }

  /** A single truthy footnote contributes its text alone, without separators. */
  lemma FootnoteTextSingle(fs: seq<Footnote>, k: nat)
    requires k < |fs| && fs[k] != map[]
    requires forall i :: 0 <= i < |fs| && i != k ==> fs[i] == map[]
    ensures FootnoteText(fs) == Get(fs[k], "text").GetOr("")
  {
    FootnoteTextsSingle(fs, k);
  }

  lemma {:induction false} FootnoteTextsSingle(fs: seq<Footnote>, k: nat)
    requires k < |fs| && fs[k] != map[]
    requires forall i :: 0 <= i < |fs| && i != k ==> fs[i] == map[]
    ensures FootnoteTexts(fs) == [Get(fs[k], "text").GetOr("")]
  {
    if k == 0 {
      assert FootnoteTexts(fs[1..]) == [];
    } else {
      FootnoteTextsSingle(fs[1..], k - 1);
    }
  }

  /** One output row. `state` is `None` for the rows of fetch_bls_data.py, which have no
      `State` column. */
  datatype Row = Row(seriesId: string, state: Option<string>, industry: string, metric: string,
                     source: string, unit: string, year: string, period: string,
                     periodName: string, value: string, footnotes: string)

  /** The row for one data point: the metadata fields come from the definition of the
      series, or are 'Unknown' when the series ID has none. */
  function MakeRow(id: string, info: Option<SeriesDef>, withState: bool, p: DataPoint): Row {
    Row(id,
        if !withState then None
        else if info.Some? && info.value.state.Some? then info.value.state
        else Some(Unknown),
        if info.Some? then info.value.industry else Unknown,
        if info.Some? then info.value.metric else Unknown,
        if info.Some? then info.value.source else Unknown,
        if info.Some? then info.value.unit else Unknown,
        p.year, p.period, p.periodName, p.value, FootnoteText(p.footnotes))
  }

  function SeriesRows(s: Series, meta: map<string, SeriesDef>, withState: bool): seq<Row> {
    seq(|s.data|, i requires 0 <= i < |s.data| => MakeRow(s.seriesId, Get(meta, s.seriesId), withState, s.data[i]))
  }

  /** The rows of a list of series, series by series and point by point. */
  function FlatRows(series: seq<Series>, meta: map<string, SeriesDef>, withState: bool): seq<Row> {
    if series == [] then []
    else FlatRows(series[..|series| - 1], meta, withState) + SeriesRows(series[|series| - 1], meta, withState)
  }

  function PointCount(series: seq<Series>): nat {
    if series == [] then 0 else PointCount(series[..|series| - 1]) + |series[|series| - 1].data|
  }

  /** One row per data point: a series without data contributes nothing. */
  lemma {:induction false} FlatRowsCount(series: seq<Series>, meta: map<string, SeriesDef>, withState: bool)
    ensures |FlatRows(series, meta, withState)| == PointCount(series)
  {
    if series != [] {
      FlatRowsCount(series[..|series| - 1], meta, withState);
    }
  }

  /** The metadata of every row is that of its series' definition, or 'Unknown' for a
      series ID without one. */
  lemma {:induction false} FlatRowsMetadata(series: seq<Series>, meta: map<string, SeriesDef>, withState: bool)
    ensures forall r :: r in FlatRows(series, meta, withState) ==>
      (r.seriesId in meta ==> r.industry == meta[r.seriesId].industry && r.metric == meta[r.seriesId].metric &&
                              r.source == meta[r.seriesId].source && r.unit == meta[r.seriesId].unit) &&
      (r.seriesId !in meta ==> r.industry == Unknown && r.metric == Unknown && r.source == Unknown &&
                               r.unit == Unknown && (withState ==> r.state == Some(Unknown))) &&
      (r.seriesId in meta && withState ==>
         r.state == if meta[r.seriesId].state.Some? then meta[r.seriesId].state else Some(Unknown)) &&
      (!withState ==> r.state == None)
  {
    if series != [] {
      FlatRowsMetadata(series[..|series| - 1], meta, withState);
    }
  }

  /** The rows `process_data` of the archive scripts returns. */
  function ProcessedRows(json: Option<Response>, meta: map<string, SeriesDef>): seq<Row> {
    if json.None? || !Truthy(json.value) then [] else FlatRows(SeriesList(json.value), meta, true)
  }

  lemma FlatRowsStep(series: seq<Series>, k: nat, meta: map<string, SeriesDef>, withState: bool)
    requires k < |series|
    ensures FlatRows(series[..k + 1], meta, withState) ==
              FlatRows(series[..k], meta, withState) + SeriesRows(series[k], meta, withState)
  {
    assert series[..k + 1][..k] == series[..k];
  }

  lemma SeriesRowsStep(s: Series, j: nat, meta: map<string, SeriesDef>, withState: bool)
    requires j < |s.data|
    ensures SeriesRows(s, meta, withState)[..j + 1] ==
              SeriesRows(s, meta, withState)[..j] + [MakeRow(s.seriesId, Get(meta, s.seriesId), withState, s.data[j])]
  {
  }

  /** The nested loop of `process_data`: one row per data point, series by series. */
  method FlattenSeries(series: seq<Series>, meta: map<string, SeriesDef>, withState: bool)
    returns (rows: seq<Row>)
    ensures rows == FlatRows(series, meta, withState)
  {
    rows := [];
    var k := 0;
    while k < |series|
      invariant 0 <= k <= |series|
      invariant rows == FlatRows(series[..k], meta, withState)
    {
      var s := series[k];
      var info := Get(meta, s.seriesId);
      ghost var before := rows;
      var j := 0;
      while j < |s.data|
        invariant 0 <= j <= |s.data|
        invariant rows == before + SeriesRows(s, meta, withState)[..j]
      {
        SeriesRowsStep(s, j, meta, withState);
        rows := rows + [MakeRow(s.seriesId, info, withState, s.data[j])];
        j := j + 1;
      }
      assert SeriesRows(s, meta, withState)[..j] == SeriesRows(s, meta, withState);
      FlatRowsStep(series, k, meta, withState);
      k := k + 1;
    }
    assert series[..k] == series;
  }

  /** `process_data` of archive/fetch_remaining_data.py and archive/fetch_information_industry.py:
      nothing for a failed request or an empty body; otherwise every data point of every
      returned series, whatever the status says (a failed status is only reported). */
  method ProcessData(json: Option<Response>, meta: map<string, SeriesDef>) returns (rows: seq<Row>)
    ensures json.None? || !Truthy(json.value) ==> rows == []
    ensures json.Some? && Truthy(json.value) ==> rows == FlatRows(SeriesList(json.value), meta, true)
    ensures rows == ProcessedRows(json, meta)
  {
    if json.None? || !Truthy(json.value) {
      return [];
    }
    rows := FlattenSeries(SeriesList(json.value), meta, true);
  }

  /** The rows collected over a list of batches, in batch order. */
  function BatchRows(batches: seq<seq<string>>, fetch: seq<string> -> Option<Response>,
                     meta: map<string, SeriesDef>): seq<Row>
  {
    if batches == [] then []
    else BatchRows(batches[..|batches| - 1], fetch, meta) + ProcessedRows(fetch(batches[|batches| - 1]), meta)
  }

  lemma BatchRowsAppend(batches: seq<seq<string>>, batch: seq<string>,
                        fetch: seq<string> -> Option<Response>, meta: map<string, SeriesDef>)
    ensures BatchRows(batches + [batch], fetch, meta) ==
              BatchRows(batches, fetch, meta) + ProcessedRows(fetch(batch), meta)
  {
    assert (batches + [batch])[..|batches|] == batches;
  }

  /** The batch loop of the archive scripts' `main`: the IDs are requested in consecutive
      slices of `size`, each response is flattened, and the rows are collected in order. */
  method FetchInBatches(ids: seq<string>, size: nat, fetch: seq<string> -> Option<Response>,
                        meta: map<string, SeriesDef>)
    returns (rows: seq<Row>, requested: seq<seq<string>>)
    requires size > 0
    ensures requested == Batches(ids, size)
    ensures Flatten(requested) == ids
    ensures rows == BatchRows(requested, fetch, meta)
  {
    rows, requested := [], [];
    var i := 0;
    while i < |ids|
      invariant 0 <= i <= |ids|
      invariant requested + Batches(ids[i..], size) == Batches(ids, size)
      invariant rows == BatchRows(requested, fetch, meta)
    {
      var hi := BatchEnd(|ids|, i, size);
      var batch := ids[i..hi];
      BatchStep(requested, ids, i, size);
      var result := ProcessData(fetch(batch), meta);
      BatchRowsAppend(requested, batch, fetch, meta);
      requested := requested + [batch];
      rows := rows + result;
      i := hi;
    }
    assert ids[i..] == [];
    assert requested + [] == requested;
    BatchesCover(ids, size);
  }
}
