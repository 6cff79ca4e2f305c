/** scripts/fetch_state_controls.py: LAUS series IDs for every state and variable, the batch
    loop that turns the API's data points into monthly records, and the derivation of the
    labour-force participation rate and the final sort. The request is a function parameter
    `fetch` from a batch of IDs to the map from series ID to data points, `None` when the
    request failed or its status was not REQUEST_SUCCEEDED; `float()` is the parameter
    `toFloat`. */
module StateControls {
  import opened Optional
  import opened Text
  import opened Order
  import opened Batching

  /** `STATE_FIPS` in its dict order: the 50 states, the District of Columbia, and 'Total'. */
  const StateFips: seq<(string, string)> := [
    ("Alabama", "01"), ("Alaska", "02"), ("Arizona", "04"), ("Arkansas", "05"),
    ("California", "06"), ("Colorado", "08"), ("Connecticut", "09"), ("Delaware", "10"),
    ("District of Columbia", "11"), ("Florida", "12"), ("Georgia", "13"), ("Hawaii", "15"),
    ("Idaho", "16"), ("Illinois", "17"), ("Indiana", "18"), ("Iowa", "19"), ("Kansas", "20"),
    ("Kentucky", "21"), ("Louisiana", "22"), ("Maine", "23"), ("Maryland", "24"),
    ("Massachusetts", "25"), ("Michigan", "26"), ("Minnesota", "27"), ("Mississippi", "28"),
    ("Missouri", "29"), ("Montana", "30"), ("Nebraska", "31"), ("Nevada", "32"),
    ("New Hampshire", "33"), ("New Jersey", "34"), ("New Mexico", "35"), ("New York", "36"),
    ("North Carolina", "37"), ("North Dakota", "38"), ("Ohio", "39"), ("Oklahoma", "40"),
    ("Oregon", "41"), ("Pennsylvania", "42"), ("Rhode Island", "44"), ("South Carolina", "45"),
    ("South Dakota", "46"), ("Tennessee", "47"), ("Texas", "48"), ("Utah", "49"),
    ("Vermont", "50"), ("Virginia", "51"), ("Washington", "53"), ("West Virginia", "54"),
    ("Wisconsin", "55"), ("Wyoming", "56"), ("Total", "00")
  ]

  /** `SERIES_SUFFIXES` in its dict order. */
  const SeriesSuffixes: seq<(string, string)> := [
    ("unemployment_rate", "03"), ("labor_force", "06"), ("employment", "05"), ("population", "00")
  ]

  const Zeros: string := "00000000000"

  /** The LAUS series ID of a state and a measure: "LASST", the FIPS code, 11 zeros and the
      measure's suffix. */
  function SeriesId(fips: string, suffix: string): (id: string)
    ensures |id| == 7 + |Zeros| + |fips| + |suffix| - 2
    ensures id[..5] == "LASST" && id[5..5 + |fips|] == fips && id[|id| - |suffix|..] == suffix
  {
    "LASST" + fips + Zeros + suffix
  }

  /** With 2-character FIPS codes and suffixes, an ID is 20 characters long and determines
      both of them. */
  lemma SeriesIdInjective(f1: string, s1: string, f2: string, s2: string)
    requires |f1| == |f2| == |s1| == |s2| == 2
    requires SeriesId(f1, s1) == SeriesId(f2, s2)
    ensures |SeriesId(f1, s1)| == 20
    ensures f1 == f2 && s1 == s2
  {
    var id := SeriesId(f1, s1);
    assert id[5..7] == f1 && id[5..7] == f2;
    assert id[18..] == s1 && id[18..] == s2;
  }

  /** An entry of the dict `build_series_ids` returns: the key (state, variable) and its ID. */
  datatype Entry = Entry(state: string, variable: string, id: string)

  function StateEntries(state: (string, string), suffixes: seq<(string, string)>): (es: seq<Entry>)
    ensures |es| == |suffixes|
    ensures forall j :: 0 <= j < |es| ==>
              es[j] == Entry(state.0, suffixes[j].0, SeriesId(state.1, suffixes[j].1))
  {
    seq(|suffixes|, j requires 0 <= j < |suffixes| =>
      Entry(state.0, suffixes[j].0, SeriesId(state.1, suffixes[j].1)))
  }

  /** The entries for `states` x `suffixes`, state by state, each state's variables in order. */
  function Entries(states: seq<(string, string)>, suffixes: seq<(string, string)>): seq<Entry> {
    if states == [] then []
    else Entries(states[..|states| - 1], suffixes) + StateEntries(states[|states| - 1], suffixes)
  }

  /** One entry per (state, variable) pair: |states| x |suffixes| of them, each for some state
      and some variable of the tables. */
  lemma {:induction false} EntriesShape(states: seq<(string, string)>, suffixes: seq<(string, string)>)
    ensures |Entries(states, suffixes)| == |states| * |suffixes|
    ensures forall e :: e in Entries(states, suffixes) ==>
              exists i, j :: 0 <= i < |states| && 0 <= j < |suffixes| &&
                e == Entry(states[i].0, suffixes[j].0, SeriesId(states[i].1, suffixes[j].1))
  {
    if states != [] {
      var n := |states| - 1;
      EntriesShape(states[..n], suffixes);
      assert |states| * |suffixes| == n * |suffixes| + |suffixes|;
      forall e | e in Entries(states, suffixes)
        ensures exists i, j :: 0 <= i < |states| && 0 <= j < |suffixes| &&
                  e == Entry(states[i].0, suffixes[j].0, SeriesId(states[i].1, suffixes[j].1))
      {
        if e in Entries(states[..n], suffixes) {
          var i, j :| 0 <= i < n && 0 <= j < |suffixes| &&
            e == Entry(states[..n][i].0, suffixes[j].0, SeriesId(states[..n][i].1, suffixes[j].1));
          assert states[..n][i] == states[i];
        } else {
          var j :| 0 <= j < |suffixes| && e == StateEntries(states[n], suffixes)[j];
          assert e == Entry(states[n].0, suffixes[j].0, SeriesId(states[n].1, suffixes[j].1));
        }
      }
    }
  }

  /** The tables give 52 x 4 = 208 IDs. */
  lemma EntryCount()
    ensures |Entries(StateFips, SeriesSuffixes)| == 208
  {
    EntriesShape(StateFips, SeriesSuffixes);
  }

  /** Different (state, variable) keys never share an ID, as long as the FIPS codes and the
      suffixes are distinct 2-character codes and each code belongs to one name. */
  lemma IdsDetermineKeys(states: seq<(string, string)>, suffixes: seq<(string, string)>, e1: Entry, e2: Entry)
    requires forall i :: 0 <= i < |states| ==> |states[i].1| == 2
    requires forall j :: 0 <= j < |suffixes| ==> |suffixes[j].1| == 2
    requires forall i, k :: 0 <= i < k < |states| ==> states[i].1 != states[k].1
    requires forall j, k :: 0 <= j < k < |suffixes| ==> suffixes[j].1 != suffixes[k].1
    requires e1 in Entries(states, suffixes) && e2 in Entries(states, suffixes)
    requires e1.id == e2.id
    ensures e1 == e2
  {
    EntriesShape(states, suffixes);
    var i1, j1 :| 0 <= i1 < |states| && 0 <= j1 < |suffixes| &&
      e1 == Entry(states[i1].0, suffixes[j1].0, SeriesId(states[i1].1, suffixes[j1].1));
    var i2, j2 :| 0 <= i2 < |states| && 0 <= j2 < |suffixes| &&
      e2 == Entry(states[i2].0, suffixes[j2].0, SeriesId(states[i2].1, suffixes[j2].1));
    SeriesIdInjective(states[i1].1, suffixes[j1].1, states[i2].1, suffixes[j2].1);
  }

  /** `build_series_ids`: the nested loop over states and variables. */
  method BuildSeriesIds() returns (mapping: seq<Entry>)
    ensures mapping == Entries(StateFips, SeriesSuffixes)
  {
    mapping := BuildEntries(StateFips, SeriesSuffixes);
  }

  /** The nested loop of `build_series_ids`, state by state and measure by measure. */
  method BuildEntries(states: seq<(string, string)>, suffixes: seq<(string, string)>) returns (mapping: seq<Entry>)
    ensures mapping == Entries(states, suffixes)
  {
    mapping := [];
    var i := 0;
    while i < |states|
      invariant 0 <= i <= |states|
      invariant mapping == Entries(states[..i], suffixes)
    {
      var j := 0;
      while j < |suffixes|
        invariant 0 <= j <= |suffixes|
        invariant mapping == Entries(states[..i], suffixes) + StateEntries(states[i], suffixes)[..j]
      {
        assert StateEntries(states[i], suffixes)[..j + 1] ==
               StateEntries(states[i], suffixes)[..j] + [StateEntries(states[i], suffixes)[j]];
        mapping := mapping + [Entry(states[i].0, suffixes[j].0, SeriesId(states[i].1, suffixes[j].1))];
        j := j + 1;
      }
      assert StateEntries(states[i], suffixes)[..j] == StateEntries(states[i], suffixes);
      assert states[..i + 1][..i] == states[..i];
      i := i + 1;
    }
    assert states[..i] == states;
  }

  /** One data point as `fetch_bls_data` hands it on: `year` and `period` are read with
      `datapoint[...]`, `value` with `datapoint.get('value')`. */
  datatype LausPoint = LausPoint(year: string, period: string, value: Option<string>)

  /** One long-format record. The `Date` column is the first day of (`year`, `month`). */
  datatype Record = Record(year: int, month: int, state: string, variable: string, value: real,
                           seriesId: string)

  /** The parsing of one data point for one series: `Ok(None)` where the loop `continue`s,
      `Crash` where `int()` or `pd.Timestamp` raises. */
  function ParsePoint(e: Entry, p: LausPoint, toFloat: string -> Option<real>): (r: Result<Option<Record>>)
    ensures ParseNat(p.year).None? ==> r.Crash?
    ensures ParseNat(p.year).Some? && !StartsWith(p.period, "M") ==> r == Ok(None)
    ensures r.Ok? && r.value.Some? ==>
              StartsWith(p.period, "M") && ParseNat(p.year) == Some(r.value.value.year) &&
              ParseNat(p.period[1..]) == Some(r.value.value.month) && 1 <= r.value.value.month <= 12 &&
              p.value.Some? && p.value.value != "" && p.value.value != "-" &&
              toFloat(p.value.value) == Some(r.value.value.value) &&
              r.value.value.state == e.state && r.value.value.variable == e.variable &&
              r.value.value.seriesId == e.id
    ensures r.Ok? && r.value.None? && StartsWith(p.period, "M") ==>
              p.value.None? || p.value.value == "" || p.value.value == "-" || toFloat(p.value.value).None?
  {
    var year := ParseNat(p.year);
    if year.None? then Crash("ValueError: invalid literal for int()")
    else if !StartsWith(p.period, "M") then Ok(None)
    else
      var month := ParseNat(p.period[1..]);
      if month.None? then Crash("ValueError: invalid literal for int()")
      else if p.value.None? || p.value.value == "" || p.value.value == "-" then Ok(None)
      else
        var v := toFloat(p.value.value);
        if v.None? then Ok(None)
        else if !(1 <= month.value <= 12) then Crash("ValueError: month must be in 1..12")
        else Ok(Some(Record(year.value, month.value, e.state, e.variable, v.value, e.id)))
  }

  /** The records of one series' data points, in order; the first crash ends the loop. */
  function PointRecords(e: Entry, points: seq<LausPoint>, toFloat: string -> Option<real>): Result<seq<Record>> {
    if points == [] then Ok([])
    else
      var prev := PointRecords(e, points[..|points| - 1], toFloat);
      var last := ParsePoint(e, points[|points| - 1], toFloat);
      if prev.Crash? then prev
      else if last.Crash? then Crash(last.reason)
      else Ok(prev.value + (if last.value.Some? then [last.value.value] else []))
  }

  /** The records one successful batch yields: every entry of the mapping, in order, whose
      ID came back with at least one data point. */
  function BatchRecords(mapping: seq<Entry>, results: map<string, seq<LausPoint>>,
                        toFloat: string -> Option<real>): Result<seq<Record>>
  {
    if mapping == [] then Ok([])
    else
      var prev := BatchRecords(mapping[..|mapping| - 1], results, toFloat);
      var e := mapping[|mapping| - 1];
      if prev.Crash? then prev
      else if e.id !in results || results[e.id] == [] then prev
      else
        var more := PointRecords(e, results[e.id], toFloat);
        if more.Crash? then more else Ok(prev.value + more.value)
  }

  /** Appends the outcome of a later step to that of an earlier one: the first crash wins. */
  function Then<T>(a: Result<seq<T>>, b: Result<seq<T>>): Result<seq<T>> {
    if a.Crash? then a else if b.Crash? then b else Ok(a.value + b.value)
  }

  /** The records of all batches in order; a batch whose request failed adds nothing. */
  function AllRecords(batches: seq<seq<string>>, mapping: seq<Entry>,
                      fetch: seq<string> -> Option<map<string, seq<LausPoint>>>,
                      toFloat: string -> Option<real>): Result<seq<Record>>
  {
    if batches == [] then Ok([])
    else
      var results := fetch(batches[|batches| - 1]);
      Then(AllRecords(batches[..|batches| - 1], mapping, fetch, toFloat),
           if results.None? then Ok([]) else BatchRecords(mapping, results.value, toFloat))
  }

  lemma ThenAssociative<T>(a: Result<seq<T>>, b: Result<seq<T>>, c: Result<seq<T>>)
    ensures Then(Then(a, b), c) == Then(a, Then(b, c))
  {
    if a.Ok? && b.Ok? && c.Ok? {
      assert (a.value + b.value) + c.value == a.value + (b.value + c.value);
    }
  }

  /** Processing a list of batches is processing its two halves one after the other. */
  lemma {:induction false} AllRecordsSplit(a: seq<seq<string>>, b: seq<seq<string>>, mapping: seq<Entry>,
                                           fetch: seq<string> -> Option<map<string, seq<LausPoint>>>,
                                           toFloat: string -> Option<real>)
    ensures AllRecords(a + b, mapping, fetch, toFloat) ==
              Then(AllRecords(a, mapping, fetch, toFloat), AllRecords(b, mapping, fetch, toFloat))
    decreases |b|
  {
    if b == [] {
      assert a + b == a;
      var r := AllRecords(a, mapping, fetch, toFloat);
      assert r.Ok? ==> r.value + [] == r.value;
    } else {
      var n := |b| - 1;
      assert (a + b)[..|a + b| - 1] == a + b[..n];
      AllRecordsSplit(a, b[..n], mapping, fetch, toFloat);
      var results := fetch(b[n]);
      ThenAssociative(AllRecords(a, mapping, fetch, toFloat), AllRecords(b[..n], mapping, fetch, toFloat),
                      if results.None? then Ok([]) else BatchRecords(mapping, results.value, toFloat));
    }
  }

  /** A batch whose request fails is skipped: the result is that of the batches before it
      followed by that of the batches after it, which still run. */
  lemma FailedBatchSkipped(batches: seq<seq<string>>, k: nat, mapping: seq<Entry>,
                           fetch: seq<string> -> Option<map<string, seq<LausPoint>>>,
                           toFloat: string -> Option<real>)
    requires k < |batches| && fetch(batches[k]).None?
    ensures AllRecords(batches, mapping, fetch, toFloat) ==
              Then(AllRecords(batches[..k], mapping, fetch, toFloat),
                   AllRecords(batches[k + 1..], mapping, fetch, toFloat))
  {
    assert batches == (batches[..k] + [batches[k]]) + batches[k + 1..];
    AllRecordsSplit(batches[..k] + [batches[k]], batches[k + 1..], mapping, fetch, toFloat);
    AllRecordsSplit(batches[..k], [batches[k]], mapping, fetch, toFloat);
    assert [batches[k]][..0] == [];
    var r := AllRecords(batches[..k], mapping, fetch, toFloat);
    assert r.Ok? ==> r.value + [] == r.value;
  }

  lemma {:induction false} PointRecordsCrash(e: Entry, points: seq<LausPoint>, j: nat, toFloat: string -> Option<real>)
    requires j <= |points| && PointRecords(e, points[..j], toFloat).Crash?
    ensures PointRecords(e, points, toFloat) == PointRecords(e, points[..j], toFloat)
    decreases |points|
  {
    if j < |points| {
      var n := |points| - 1;
      assert points[..n][..j] == points[..j];
      PointRecordsCrash(e, points[..n], j, toFloat);
    } else {
      assert points[..j] == points;
    }
  }

  lemma {:induction false} BatchRecordsCrash(mapping: seq<Entry>, results: map<string, seq<LausPoint>>, k: nat,
                                             toFloat: string -> Option<real>)
    requires k <= |mapping| && BatchRecords(mapping[..k], results, toFloat).Crash?
    ensures BatchRecords(mapping, results, toFloat) == BatchRecords(mapping[..k], results, toFloat)
    decreases |mapping|
  {
    if k < |mapping| {
      var n := |mapping| - 1;
      assert mapping[..n][..k] == mapping[..k];
      BatchRecordsCrash(mapping[..n], results, k, toFloat);
    } else {
      assert mapping[..k] == mapping;
    }
  }

  lemma BatchRecordsStep(mapping: seq<Entry>, results: map<string, seq<LausPoint>>, k: nat,
                         toFloat: string -> Option<real>)
    requires k < |mapping| && BatchRecords(mapping[..k], results, toFloat).Ok?
    ensures var e := mapping[k];
            BatchRecords(mapping[..k + 1], results, toFloat) ==
              if e.id !in results || results[e.id] == [] then BatchRecords(mapping[..k], results, toFloat)
              else Then(BatchRecords(mapping[..k], results, toFloat), PointRecords(e, results[e.id], toFloat))
  {
    assert mapping[..k + 1][..k] == mapping[..k];
  }

  lemma PointRecordsStep(e: Entry, points: seq<LausPoint>, j: nat, toFloat: string -> Option<real>)
    requires j < |points| && PointRecords(e, points[..j], toFloat).Ok?
    ensures var p := ParsePoint(e, points[j], toFloat);
            PointRecords(e, points[..j + 1], toFloat) ==
              if p.Crash? then Crash(p.reason)
              else Ok(PointRecords(e, points[..j], toFloat).value + (if p.value.Some? then [p.value.value] else []))
  {
    assert points[..j + 1][..j] == points[..j];
  }

  /** The loop over one series' data points. */
  method ParsePoints(e: Entry, points: seq<LausPoint>, toFloat: string -> Option<real>)
    returns (r: Result<seq<Record>>)
    ensures r == PointRecords(e, points, toFloat)
  {
    var records: seq<Record> := [];
    var j := 0;
    while j < |points|
      invariant 0 <= j <= |points|
      invariant PointRecords(e, points[..j], toFloat) == Ok(records)
    {
      var p := ParsePoint(e, points[j], toFloat);
      PointRecordsStep(e, points, j, toFloat);
      if p.Crash? {
        PointRecordsCrash(e, points, j + 1, toFloat);
        return Crash(p.reason);
      }
      if p.value.Some? {
        records := records + [p.value.value];
      } else {
        assert records + [] == records;
      }
      j := j + 1;
    }
    assert points[..j] == points;
    return Ok(records);
  }

  /** The loop over one batch's results: mapping entries in order, then their data points. */
  method ParseBatch(mapping: seq<Entry>, results: map<string, seq<LausPoint>>, toFloat: string -> Option<real>)
    returns (r: Result<seq<Record>>)
    ensures r == BatchRecords(mapping, results, toFloat)
  {
    var records: seq<Record> := [];
    var k := 0;
    while k < |mapping|
      invariant 0 <= k <= |mapping|
      invariant BatchRecords(mapping[..k], results, toFloat) == Ok(records)
    {
      BatchRecordsStep(mapping, results, k, toFloat);
      var e := mapping[k];
      if e.id !in results || results[e.id] == [] {
        k := k + 1;
        continue;
      }
      var more := ParsePoints(e, results[e.id], toFloat);
      if more.Crash? {
        BatchRecordsCrash(mapping, results, k + 1, toFloat);
        return more;
      }
      records := records + more.value;
      k := k + 1;
    }
    assert mapping[..k] == mapping;
    return Ok(records);
  }

  lemma AllRecordsAppend(batches: seq<seq<string>>, batch: seq<string>, mapping: seq<Entry>,
                         fetch: seq<string> -> Option<map<string, seq<LausPoint>>>,
                         toFloat: string -> Option<real>)
    ensures AllRecords(batches + [batch], mapping, fetch, toFloat) ==
              Then(AllRecords(batches, mapping, fetch, toFloat),
                   if fetch(batch).None? then Ok([]) else BatchRecords(mapping, fetch(batch).value, toFloat))
  {
    assert (batches + [batch])[..|batches|] == batches;
  }

  /** The batch loop of `fetch_all_states` over a given mapping. */
  method FetchInBatches(mapping: seq<Entry>, size: nat, fetch: seq<string> -> Option<map<string, seq<LausPoint>>>,
                        toFloat: string -> Option<real>)
    returns (r: Result<seq<Record>>, requested: seq<seq<string>>)
    requires size > 0
    ensures requested <= Batches(EntryIds(mapping), size)
    ensures r == AllRecords(requested, mapping, fetch, toFloat)
    ensures r == AllRecords(Batches(EntryIds(mapping), size), mapping, fetch, toFloat)
    ensures r.Ok? ==> requested == Batches(EntryIds(mapping), size)
    ensures r.Crash? ==> requested != []
    ensures r.Crash? && requested != [] ==>
              AllRecords(requested[..|requested| - 1], mapping, fetch, toFloat).Ok?
  {
    var ids := EntryIds(mapping);
    var records: seq<Record> := [];
    requested := [];
    var i := 0;
    while i < |ids|
      invariant 0 <= i <= |ids|
      invariant requested + Batches(ids[i..], size) == Batches(ids, size)
      invariant AllRecords(requested, mapping, fetch, toFloat) == Ok(records)
    {
      var hi := BatchEnd(|ids|, i, size);
      var batch := ids[i..hi];
      BatchStep(requested, ids, i, size);
      AllRecordsAppend(requested, batch, mapping, fetch, toFloat);
      var results := fetch(batch);
      requested := requested + [batch];
      if results.None? {
        assert records + [] == records;
        i := hi;
        continue;
      }
      var parsed := ParseBatch(mapping, results.value, toFloat);
      if parsed.Crash? {
        r := Crash(parsed.reason);
        CrashPersists(requested, Batches(ids[hi..], size), mapping, fetch, toFloat);
        assert requested + Batches(ids[hi..], size) == Batches(ids, size);
        return;
      }
      records := records + parsed.value;
      i := hi;
    }
    assert ids[i..] == [];
    assert requested + [] == requested;
    r := Ok(records);
  }

  /** `fetch_all_states`: the IDs of `build_series_ids`, in batches of 50 with an API key and
      25 without. */
  method FetchAllStates(hasApiKey: bool, fetch: seq<string> -> Option<map<string, seq<LausPoint>>>,
                        toFloat: string -> Option<real>)
    returns (r: Result<seq<Record>>, requested: seq<seq<string>>)
    ensures requested <= Batches(EntryIds(Entries(StateFips, SeriesSuffixes)), BatchSize(hasApiKey))
    ensures r == AllRecords(Batches(EntryIds(Entries(StateFips, SeriesSuffixes)), BatchSize(hasApiKey)),
                            Entries(StateFips, SeriesSuffixes), fetch, toFloat)
    ensures r.Ok? ==> requested == Batches(EntryIds(Entries(StateFips, SeriesSuffixes)), BatchSize(hasApiKey))
  {
    var mapping := BuildSeriesIds();
    r, requested := FetchInBatches(mapping, BatchSize(hasApiKey), fetch, toFloat);
  }

  /** Once a batch has crashed, later batches do not change the outcome. */
  lemma CrashPersists(a: seq<seq<string>>, b: seq<seq<string>>, mapping: seq<Entry>,
                      fetch: seq<string> -> Option<map<string, seq<LausPoint>>>,
                      toFloat: string -> Option<real>)
    requires AllRecords(a, mapping, fetch, toFloat).Crash?
    ensures AllRecords(a + b, mapping, fetch, toFloat) == AllRecords(a, mapping, fetch, toFloat)
  {
    AllRecordsSplit(a, b, mapping, fetch, toFloat);
  }

  /** `list(series_mapping.values())` */
  function EntryIds(mapping: seq<Entry>): (ids: seq<string>)
    ensures |ids| == |mapping| && forall k :: 0 <= k < |mapping| ==> ids[k] == mapping[k].id
  {
    seq(|mapping|, k requires 0 <= k < |mapping| => mapping[k].id)
  }

  /** One row of the wide table after the pivot (whose mechanics are not modelled): one cell
      per variable, `None` where the pivot left NaN. */
  datatype WideRow = WideRow(year: int, month: int, state: string, unemploymentRate: Option<real>,
                             laborForce: Option<real>, employment: Option<real>, population: Option<real>)

  /** A row of the output, with the derived participation rate. */
  datatype ControlRow = ControlRow(year: int, month: int, state: string, unemploymentRate: Option<real>,
                                   lfpr: Option<real>, laborForce: Option<real>, employment: Option<real>,
                                   population: Option<real>)

  /** The output table; `hasLfpr` says whether it has an `LFPR` column. */
  datatype ControlTable = ControlTable(hasLfpr: bool, rows: seq<ControlRow>)

  /** `labor_force / population * 100` for one row: missing when either input is missing. */
  function Lfpr(row: WideRow): (r: Option<real>)
    ensures r.Some? <==> row.laborForce.Some? && row.population.Some? && row.population.value != 0.0
    ensures r.Some? ==> r.value * row.population.value == row.laborForce.value * 100.0
  {
    if row.laborForce.Some? && row.population.Some? && row.population.value != 0.0
    then Some(row.laborForce.value / row.population.value * 100.0)
    else None
  }

  /** A labour force between zero and the population gives a rate between 0 and 100. */
  lemma LfprBounds(row: WideRow)
    requires row.laborForce.Some? && row.population.Some?
    requires 0.0 <= row.laborForce.value <= row.population.value && row.population.value > 0.0
    ensures Lfpr(row).Some? && 0.0 <= Lfpr(row).value <= 100.0
  {
    var lf, pop := row.laborForce.value, row.population.value;
    assert lf / pop <= 1.0 by {
      assert lf / pop * pop == lf;
    }
  }

  function WithLfpr(row: WideRow, hasLfpr: bool): ControlRow {
    ControlRow(row.year, row.month, row.state, row.unemploymentRate,
               if hasLfpr then Lfpr(row) else None, row.laborForce, row.employment, row.population)
  }

  /** The sort key of `sort_values(['Date', 'State'])`: the date is ordered by (year, month). */
  function ControlKey(r: ControlRow): seq<KeyPart> {
    [I(r.year), I(r.month), S(r.state)]
  }

  /** `reshape_and_calculate` after the pivot: LFPR only when both the `labor_force` and the
      `population` columns exist, then every row, sorted by (Date, State). */
  function ReshapeAndCalculate(wide: seq<WideRow>, hasLaborForce: bool, hasPopulation: bool): ControlTable {
    var hasLfpr := hasLaborForce && hasPopulation;
    ControlTable(hasLfpr, SortBy(LfprRows(wide, hasLfpr), ControlKey))
  }

  function LfprRows(wide: seq<WideRow>, hasLfpr: bool): seq<ControlRow> {
    seq(|wide|, i requires 0 <= i < |wide| => WithLfpr(wide[i], hasLfpr))
  }

  /** The table is sorted by date (year, then month) and then state, holds one row per wide
      row, and its LFPR column exists exactly when both the labor force and the population
      columns do. */
  lemma ReshapeAndCalculateSpec(wide: seq<WideRow>, hasLaborForce: bool, hasPopulation: bool)
    ensures var t := ReshapeAndCalculate(wide, hasLaborForce, hasPopulation);
      (t.hasLfpr <==> hasLaborForce && hasPopulation) &&
      SortedBy(t.rows, ControlKey) &&
      multiset(t.rows) == multiset(LfprRows(wide, t.hasLfpr)) &&
      forall r :: r in t.rows ==>
        (r.lfpr.Some? ==> t.hasLfpr) &&
        (t.hasLfpr ==> r.lfpr == Lfpr(WideRow(r.year, r.month, r.state, r.unemploymentRate,
                                              r.laborForce, r.employment, r.population)))
  {
    var hasLfpr := hasLaborForce && hasPopulation;
    var rows := LfprRows(wide, hasLfpr);
    var sorted := SortBy(rows, ControlKey);
    assert ReshapeAndCalculate(wide, hasLaborForce, hasPopulation) == ControlTable(hasLfpr, sorted);
    forall r | r in sorted
      ensures (r.lfpr.Some? ==> hasLfpr) &&
              (hasLfpr ==> r.lfpr == Lfpr(WideRow(r.year, r.month, r.state, r.unemploymentRate,
                                                  r.laborForce, r.employment, r.population)))
    {
      assert r in multiset(sorted);
      LfprRowFacts(wide, hasLfpr, r);
    }
  }

  lemma LfprRowFacts(wide: seq<WideRow>, hasLfpr: bool, r: ControlRow)
    requires r in multiset(LfprRows(wide, hasLfpr))
    ensures r.lfpr.Some? ==> hasLfpr
    ensures hasLfpr ==> r.lfpr == Lfpr(WideRow(r.year, r.month, r.state, r.unemploymentRate,
                                               r.laborForce, r.employment, r.population))
  {
    var rows := LfprRows(wide, hasLfpr);
    assert r in rows;
    var i :| 0 <= i < |rows| && rows[i] == r;
    assert r == WithLfpr(wide[i], hasLfpr);
  }
}
