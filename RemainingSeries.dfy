/** archive/fetch_remaining_data.py: the series definitions for five industries (national
    CES and JOLTS series, and state CES series), the IDs still missing from the existing data
    file, and the batch loop that fetches them. The existing IDs, read from the CSV file, are
    the parameter `existing`; the presence of an API key is `hasApiKey`. */
module RemainingSeries {
  import opened Optional
  import opened Batching
  import opened BlsApi

  datatype Industry = Industry(cesCode: string, joltsCode: string, name: string, joltsName: string)
  datatype Metric = Metric(code: string, name: string, unit: string)

  /** FIPS code and name of the 50 states and the District of Columbia, in the order of
      the script's dictionary. */
  const States: seq<(string, string)> := [
    ("01", "Alabama"), ("02", "Alaska"), ("04", "Arizona"), ("05", "Arkansas"),
    ("06", "California"), ("08", "Colorado"), ("09", "Connecticut"), ("10", "Delaware"),
    ("11", "District of Columbia"), ("12", "Florida"), ("13", "Georgia"), ("15", "Hawaii"),
    ("16", "Idaho"), ("17", "Illinois"), ("18", "Indiana"), ("19", "Iowa"), ("20", "Kansas"),
    ("21", "Kentucky"), ("22", "Louisiana"), ("23", "Maine"), ("24", "Maryland"),
    ("25", "Massachusetts"), ("26", "Michigan"), ("27", "Minnesota"), ("28", "Mississippi"),
    ("29", "Missouri"), ("30", "Montana"), ("31", "Nebraska"), ("32", "Nevada"),
    ("33", "New Hampshire"), ("34", "New Jersey"), ("35", "New Mexico"), ("36", "New York"),
    ("37", "North Carolina"), ("38", "North Dakota"), ("39", "Ohio"), ("40", "Oklahoma"),
    ("41", "Oregon"), ("42", "Pennsylvania"), ("44", "Rhode Island"), ("45", "South Carolina"),
    ("46", "South Dakota"), ("47", "Tennessee"), ("48", "Texas"), ("49", "Utah"),
    ("50", "Vermont"), ("51", "Virginia"), ("53", "Washington"), ("54", "West Virginia"),
    ("55", "Wisconsin"), ("56", "Wyoming")
  ]

  const Industries: seq<Industry> := [
    Industry("00000000", "000000", "Total Nonfarm", "Total Nonfarm"),
    Industry("51000000", "510000", "Information", "Information"),
    Industry("60540000", "540000", "Professional, Scientific, and Technical Services",
             "Professional and Business Services"),
    Industry("55520000", "520000", "Finance and Insurance", "Finance and Insurance"),
    Industry("70000000", "700000", "Leisure and Hospitality", "Leisure and Hospitality")
  ]

  const MetricsCes: seq<Metric> := [
    Metric("01", "All Employees", "Thousands"),
    Metric("02", "Avg Weekly Hours", "Hours"),
    Metric("03", "Avg Hourly Earnings", "Dollars")
  ]

  const MetricsJolts: seq<Metric> := [
    Metric("JOL", "Job Openings", "Level"),
    Metric("HIL", "Hires", "Level")
  ]

  /** National CES series: "CES" + industry code + metric code. */
  function CesDef(ind: Industry, met: Metric): (d: SeriesDef)
    ensures |d.id| >= 3 && d.id[..3] == "CES" && d.source == "CES" && d.state == Some("Total")
    ensures |ind.cesCode| == 8 && |met.code| == 2 ==> |d.id| == 13
  {
    SeriesDef("CES" + ind.cesCode + met.code, ind.name, met.name, "CES", met.unit, Some("Total"))
  }

  /** National JOLTS series: "JTS" + JOLTS industry code + eight zeros + metric code, under
      the JOLTS name of the industry. */
  function JoltsDef(ind: Industry, met: Metric): (d: SeriesDef)
    ensures |d.id| >= 3 && d.id[..3] == "JTS" && d.source == "JOLTS" && d.state == Some("Total")
    ensures d.industry == ind.joltsName
    ensures |ind.joltsCode| == 6 && |met.code| == 3 ==> |d.id| == 20
  {
    SeriesDef("JTS" + ind.joltsCode + "00000000" + met.code, ind.joltsName, met.name, "JOLTS", met.unit,
              Some("Total"))
  }

  /** State CES series: "SMS" + FIPS code + "00000" (statewide) + industry code + metric code. */
  function StateDef(st: (string, string), ind: Industry, met: Metric): (d: SeriesDef)
    ensures |d.id| >= 3 && d.id[..3] == "SMS" && d.source == "CES" && d.state == Some(st.1)
    ensures |st.0| == 2 && |ind.cesCode| == 8 && |met.code| == 2 ==> |d.id| == 20
  {
    SeriesDef("SMS" + st.0 + "00000" + ind.cesCode + met.code, ind.name, met.name, "CES", met.unit, Some(st.1))
  }

  function CesPart(ind: Industry): seq<SeriesDef> {
    seq(|MetricsCes|, j requires 0 <= j < |MetricsCes| => CesDef(ind, MetricsCes[j]))
  }

  function JoltsPart(ind: Industry): seq<SeriesDef> {
    seq(|MetricsJolts|, j requires 0 <= j < |MetricsJolts| => JoltsDef(ind, MetricsJolts[j]))
  }

  /** The national definitions: per industry, its CES metrics and then its JOLTS metrics. */
  function NationalDefs(inds: seq<Industry>): seq<SeriesDef> {
    if inds == [] then []
    else NationalDefs(inds[..|inds| - 1]) + CesPart(inds[|inds| - 1]) + JoltsPart(inds[|inds| - 1])
  }

  function StateIndustryDefs(st: (string, string), ind: Industry): seq<SeriesDef> {
    seq(|MetricsCes|, j requires 0 <= j < |MetricsCes| => StateDef(st, ind, MetricsCes[j]))
  }

  function StateBlock(st: (string, string), inds: seq<Industry>): seq<SeriesDef> {
    if inds == [] then []
    else StateBlock(st, inds[..|inds| - 1]) + StateIndustryDefs(st, inds[|inds| - 1])
  }

  /** The state definitions: per state, per industry, its CES metrics. */
  function StateDefs(states: seq<(string, string)>, inds: seq<Industry>): seq<SeriesDef> {
    if states == [] then []
    else StateDefs(states[..|states| - 1], inds) + StateBlock(states[|states| - 1], inds)
  }

  /** What `generate_series_def` returns. */
  function SeriesDefs(): seq<SeriesDef> {
    NationalDefs(Industries) + StateDefs(States, Industries)
  }

  lemma {:induction false} NationalDefsCount(inds: seq<Industry>)
    ensures |NationalDefs(inds)| == 5 * |inds|
  {
    if inds != [] {
      NationalDefsCount(inds[..|inds| - 1]);
    }
  }

  lemma {:induction false} StateBlockCount(st: (string, string), inds: seq<Industry>)
    ensures |StateBlock(st, inds)| == 3 * |inds|
  {
    if inds != [] {
      StateBlockCount(st, inds[..|inds| - 1]);
    }
  }

  lemma {:induction false} StateDefsCount(states: seq<(string, string)>, inds: seq<Industry>)
    ensures |StateDefs(states, inds)| == |states| * (3 * |inds|)
  {
    if states != [] {
      var n := |states| - 1;
      StateDefsCount(states[..n], inds);
      StateBlockCount(states[n], inds);
      assert |StateDefs(states, inds)| == |StateDefs(states[..n], inds)| + |StateBlock(states[n], inds)|;
      MulSucc(n, 3 * |inds|);
    }
  }

  lemma MulSucc(n: nat, k: nat)
    ensures (n + 1) * k == n * k + k
  {
  }

  /** 5 x (3 + 2) national and 51 x 5 x 3 state definitions: 790 in all. */
  lemma SeriesDefCount()
    ensures |SeriesDefs()| == 790
  {
    NationalDefsCount(Industries);
    StateDefsCount(States, Industries);
  }

  /** Every national definition is a CES or a JOLTS definition of one of the industries. */
  lemma {:induction false} NationalDefsShape(inds: seq<Industry>)
    ensures forall d :: d in NationalDefs(inds) ==>
              exists ind, met :: ind in inds &&
                ((met in MetricsCes && d == CesDef(ind, met)) || (met in MetricsJolts && d == JoltsDef(ind, met)))
  {
    if inds != [] {
      var n := |inds| - 1;
      NationalDefsShape(inds[..n]);
      forall d | d in NationalDefs(inds)
        ensures exists ind, met :: ind in inds &&
                  ((met in MetricsCes && d == CesDef(ind, met)) || (met in MetricsJolts && d == JoltsDef(ind, met)))
      {
        if d in NationalDefs(inds[..n]) {
          var ind, met :| ind in inds[..n] &&
            ((met in MetricsCes && d == CesDef(ind, met)) || (met in MetricsJolts && d == JoltsDef(ind, met)));
          assert ind in inds;
        } else if d in CesPart(inds[n]) {
          var j :| 0 <= j < |MetricsCes| && d == CesPart(inds[n])[j];
          assert MetricsCes[j] in MetricsCes && d == CesDef(inds[n], MetricsCes[j]);
        } else {
          assert d in JoltsPart(inds[n]);
          var j :| 0 <= j < |MetricsJolts| && d == JoltsPart(inds[n])[j];
          assert MetricsJolts[j] in MetricsJolts && d == JoltsDef(inds[n], MetricsJolts[j]);
        }
      }
    }
  }

  lemma {:induction false} StateBlockShape(st: (string, string), inds: seq<Industry>)
    ensures forall d :: d in StateBlock(st, inds) ==>
              exists ind, met :: ind in inds && met in MetricsCes && d == StateDef(st, ind, met)
  {
    if inds != [] {
      var n := |inds| - 1;
      StateBlockShape(st, inds[..n]);
      forall d | d in StateBlock(st, inds)
        ensures exists ind, met :: ind in inds && met in MetricsCes && d == StateDef(st, ind, met)
      {
        if d in StateBlock(st, inds[..n]) {
          var ind, met :| ind in inds[..n] && met in MetricsCes && d == StateDef(st, ind, met);
          assert ind in inds;
        } else {
          var j :| 0 <= j < |MetricsCes| && d == StateIndustryDefs(st, inds[n])[j];
          assert MetricsCes[j] in MetricsCes && d == StateDef(st, inds[n], MetricsCes[j]);
        }
      }
    }
  }

  /** Every state definition is the CES definition of a state, an industry and a metric. */
  lemma {:induction false} StateDefsShape(states: seq<(string, string)>, inds: seq<Industry>)
    ensures forall d :: d in StateDefs(states, inds) ==>
              exists st, ind, met :: st in states && ind in inds && met in MetricsCes && d == StateDef(st, ind, met)
  {
    if states != [] {
      var n := |states| - 1;
      StateDefsShape(states[..n], inds);
      StateBlockShape(states[n], inds);
      forall d | d in StateDefs(states, inds)
        ensures exists st, ind, met :: st in states && ind in inds && met in MetricsCes && d == StateDef(st, ind, met)
      {
        if d in StateDefs(states[..n], inds) {
          var st, ind, met :| st in states[..n] && ind in inds && met in MetricsCes && d == StateDef(st, ind, met);
          assert st in states;
        } else {
          var ind, met :| ind in inds && met in MetricsCes && d == StateDef(states[n], ind, met);
          assert states[n] in states;
        }
      }
    }
  }

  /** The first half of `generate_series_def`: for each industry, its CES and JOLTS metrics. */
  method AppendNational(inds: seq<Industry>) returns (defs: seq<SeriesDef>)
    ensures defs == NationalDefs(inds)
  {
    defs := [];
    var i := 0;
    while i < |inds|
      invariant 0 <= i <= |inds|
      invariant defs == NationalDefs(inds[..i])
    {
      var ind := inds[i];
      var j := 0;
      while j < |MetricsCes|
        invariant 0 <= j <= |MetricsCes|
        invariant defs == NationalDefs(inds[..i]) + CesPart(ind)[..j]
      {
        assert CesPart(ind)[..j + 1] == CesPart(ind)[..j] + [CesDef(ind, MetricsCes[j])];
        defs := defs + [CesDef(ind, MetricsCes[j])];
        j := j + 1;
      }
      j := 0;
      while j < |MetricsJolts|
        invariant 0 <= j <= |MetricsJolts|
        invariant defs == NationalDefs(inds[..i]) + CesPart(ind) + JoltsPart(ind)[..j]
      {
        assert JoltsPart(ind)[..j + 1] == JoltsPart(ind)[..j] + [JoltsDef(ind, MetricsJolts[j])];
        defs := defs + [JoltsDef(ind, MetricsJolts[j])];
        j := j + 1;
      }
      assert inds[..i + 1][..i] == inds[..i];
      i := i + 1;
    }
    assert inds[..i] == inds;
  }

  /** The loops over industries and CES metrics for one state. */
  method AppendStateBlock(st: (string, string), inds: seq<Industry>) returns (defs: seq<SeriesDef>)
    ensures defs == StateBlock(st, inds)
  {
    defs := [];
    var i := 0;
    while i < |inds|
      invariant 0 <= i <= |inds|
      invariant defs == StateBlock(st, inds[..i])
    {
      var ind := inds[i];
      var j := 0;
      while j < |MetricsCes|
        invariant 0 <= j <= |MetricsCes|
        invariant defs == StateBlock(st, inds[..i]) + StateIndustryDefs(st, ind)[..j]
      {
        assert StateIndustryDefs(st, ind)[..j + 1] == StateIndustryDefs(st, ind)[..j] + [StateDef(st, ind, MetricsCes[j])];
        defs := defs + [StateDef(st, ind, MetricsCes[j])];
        j := j + 1;
      }
      assert inds[..i + 1][..i] == inds[..i];
      i := i + 1;
    }
    assert inds[..i] == inds;
  }

  /** The loop of `generate_series_def` over the states. */
  method AppendStates(states: seq<(string, string)>, inds: seq<Industry>, national: seq<SeriesDef>)
    returns (defs: seq<SeriesDef>)
    ensures defs == national + StateDefs(states, inds)
  {
    defs := national;
    var s := 0;
    while s < |states|
      invariant 0 <= s <= |states|
      invariant defs == national + StateDefs(states[..s], inds)
    {
      var block := AppendStateBlock(states[s], inds);
      defs := defs + block;
      assert states[..s + 1][..s] == states[..s];
      s := s + 1;
    }
    assert states[..s] == states;
  }

  /** `generate_series_def`: the national definitions, then, state by state, the state ones. */
  method GenerateSeriesDef() returns (defs: seq<SeriesDef>)
    ensures defs == SeriesDefs()
  {
    var national := AppendNational(Industries);
    defs := AppendStates(States, Industries, national);
  }

  /** `[sid for sid in all_ids if sid not in existing_ids]` */
  function MissingIds(all: seq<string>, existing: set<string>): (m: seq<string>)
    ensures forall x :: x in m <==> x in all && x !in existing
    ensures forall x :: multiset(m)[x] == if x in existing then 0 else multiset(all)[x]
  {
    if all == [] then []
    else
      var rest := MissingIds(all[..|all| - 1], existing);
      var x := all[|all| - 1];
      assert all == all[..|all| - 1] + [x];
      if x in existing then rest else rest + [x]
  }

  /** The filter keeps the original order: it commutes with concatenation. */
  lemma {:induction false} MissingIdsConcat(a: seq<string>, b: seq<string>, existing: set<string>)
    ensures MissingIds(a + b, existing) == MissingIds(a, existing) + MissingIds(b, existing)
    decreases |b|
  {
    if b == [] {
      assert a + b == a;
    } else {
      var n := |b| - 1;
      assert (a + b)[..|a + b| - 1] == a + b[..n];
      assert (a + b)[|a + b| - 1] == b[n];
      MissingIdsConcat(a, b[..n], existing);
      var ra, rb := MissingIds(a, existing), MissingIds(b[..n], existing);
      if b[n] !in existing {
        assert ra + (rb + [b[n]]) == (ra + rb) + [b[n]];
      }
    }
  }

  function DefIds(defs: seq<SeriesDef>): (ids: seq<string>)
    ensures |ids| == |defs| && forall k :: 0 <= k < |defs| ==> ids[k] == defs[k].id
  {
    seq(|defs|, k requires 0 <= k < |defs| => defs[k].id)
  }

  /** `main`: nothing is fetched when no ID is missing; otherwise the missing IDs are fetched
      in batches and the rows of every batch are collected (and appended to the data file)
      in order. */
  method FetchMissing(existing: set<string>, hasApiKey: bool, fetch: seq<string> -> Option<Response>)
    returns (newRows: seq<Row>, requested: seq<seq<string>>)
    ensures MissingIds(DefIds(SeriesDefs()), existing) == [] ==> requested == [] && newRows == []
    ensures requested == Batches(MissingIds(DefIds(SeriesDefs()), existing), BatchSize(hasApiKey))
    ensures Flatten(requested) == MissingIds(DefIds(SeriesDefs()), existing)
    ensures newRows == BatchRows(requested, fetch, MetaDict(SeriesDefs()))
  {
    var seriesDef := GenerateSeriesDef();
    var meta := MetaDict(seriesDef);
    var missing := MissingIds(DefIds(seriesDef), existing);
    if missing == [] {
      return [], [];
    }
    newRows, requested := FetchInBatches(missing, BatchSize(hasApiKey), fetch, meta);
  }
}
