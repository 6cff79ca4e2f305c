/** archive/fetch_information_industry.py: the series definitions of the Information
    industry (one national CES series, two JOLTS series and one CES series per state) and the
    batch loop that fetches them. It shares the state table, the ID formats and the flattening
    of responses with archive/fetch_remaining_data.py. */
module InformationSeries {
  import opened Optional
  import opened Batching
  import opened BlsApi
  import opened RemainingSeries

  /** `INFORMATION_INDUSTRY`: CES/SMS series use supersector code 50, JOLTS uses 510000. */
  const InformationIndustry: Industry := Industry("50000000", "510000", "Information", "Information")

  /** The one CES metric fetched. */
  const AllEmployees: Metric := Metric("01", "All Employees", "Thousands")

  function StateInformationDefs(states: seq<(string, string)>): (defs: seq<SeriesDef>)
    ensures |defs| == |states|
    ensures forall i :: 0 <= i < |states| ==> defs[i] == StateDef(states[i], InformationIndustry, AllEmployees)
  {
    seq(|states|, i requires 0 <= i < |states| => StateDef(states[i], InformationIndustry, AllEmployees))
  }

  /** What `generate_information_series` returns for a state table. */
  function InformationDefs(states: seq<(string, string)>): seq<SeriesDef> {
    [CesDef(InformationIndustry, AllEmployees)] + JoltsPart(InformationIndustry) + StateInformationDefs(states)
  }

  /** One CES, two JOLTS (JOL, HIL) and one state definition per state: 54 for the 51 states,
      with the IDs CES5000000001, JTS51000000000000JOL, JTS51000000000000HIL and
      "SMS" + FIPS + "00000" + "50000000" + "01". */
  lemma InformationDefsShape()
    ensures |InformationDefs(States)| == 54
    ensures InformationDefs(States)[0].id == "CES5000000001"
    ensures InformationDefs(States)[1].id == "JTS51000000000000JOL"
    ensures InformationDefs(States)[2].id == "JTS51000000000000HIL"
    ensures forall i :: 0 <= i < |States| ==>
              InformationDefs(States)[3 + i].id == "SMS" + States[i].0 + "00000" + "50000000" + "01" &&
              InformationDefs(States)[3 + i].state == Some(States[i].1)
  {
    InformationDefsFor(States);
  }

  /** The same layout for any state table. */
  lemma InformationDefsFor(states: seq<(string, string)>)
    ensures |InformationDefs(states)| == 3 + |states|
    ensures InformationDefs(states)[0].id == "CES5000000001"
    ensures InformationDefs(states)[1].id == "JTS51000000000000JOL"
    ensures InformationDefs(states)[2].id == "JTS51000000000000HIL"
    ensures forall i :: 0 <= i < |states| ==>
              InformationDefs(states)[3 + i].id == "SMS" + states[i].0 + "00000" + "50000000" + "01" &&
              InformationDefs(states)[3 + i].state == Some(states[i].1)
  {
    var defs := InformationDefs(states);
    var national := [CesDef(InformationIndustry, AllEmployees)] + JoltsPart(InformationIndustry);
    NationalInformationIds();
    assert defs == national + StateInformationDefs(states);
    forall i | 0 <= i < |states|
      ensures defs[3 + i] == StateDef(states[i], InformationIndustry, AllEmployees)
    {
      assert defs[3 + i] == StateInformationDefs(states)[i];
    }
  }

  /** The national part: the CES series and the two JOLTS series. */
  lemma NationalInformationIds()
    ensures var national := [CesDef(InformationIndustry, AllEmployees)] + JoltsPart(InformationIndustry);
      |national| == 3 && national[0].id == "CES5000000001" &&
      national[1].id == "JTS51000000000000JOL" && national[2].id == "JTS51000000000000HIL"
  {
    assert JoltsPart(InformationIndustry)[0] == JoltsDef(InformationIndustry, MetricsJolts[0]);
    assert JoltsPart(InformationIndustry)[1] == JoltsDef(InformationIndustry, MetricsJolts[1]);
  }

  /** The loops of `generate_information_series` for a state table. */
  method GenerateFor(states: seq<(string, string)>) returns (defs: seq<SeriesDef>)
    ensures defs == InformationDefs(states)
  {
    defs := [CesDef(InformationIndustry, AllEmployees)];
    var j := 0;
    while j < |MetricsJolts|
      invariant 0 <= j <= |MetricsJolts|
      invariant defs == [CesDef(InformationIndustry, AllEmployees)] + JoltsPart(InformationIndustry)[..j]
    {
      assert JoltsPart(InformationIndustry)[..j + 1] ==
             JoltsPart(InformationIndustry)[..j] + [JoltsDef(InformationIndustry, MetricsJolts[j])];
      defs := defs + [JoltsDef(InformationIndustry, MetricsJolts[j])];
      j := j + 1;
    }
    var s := 0;
    while s < |states|
      invariant 0 <= s <= |states|
      invariant defs == [CesDef(InformationIndustry, AllEmployees)] + JoltsPart(InformationIndustry) +
                        StateInformationDefs(states)[..s]
    {
      assert StateInformationDefs(states)[..s + 1] ==
             StateInformationDefs(states)[..s] + [StateDef(states[s], InformationIndustry, AllEmployees)];
      defs := defs + [StateDef(states[s], InformationIndustry, AllEmployees)];
      s := s + 1;
    }
  }

  /** `generate_information_series` */
  method GenerateInformationSeries() returns (defs: seq<SeriesDef>)
    ensures defs == InformationDefs(States)
  {
    defs := GenerateFor(States);
  }

  /** `main`: every ID, in batches of 50 with an API key and 25 without; the rows of all
      batches are collected in order. */
  method FetchInformation(hasApiKey: bool, fetch: seq<string> -> Option<Response>)
    returns (allRows: seq<Row>, requested: seq<seq<string>>)
    ensures requested == Batches(DefIds(InformationDefs(States)), BatchSize(hasApiKey))
    ensures Flatten(requested) == DefIds(InformationDefs(States))
    ensures allRows == BatchRows(requested, fetch, MetaDict(InformationDefs(States)))
  {
    var seriesDef := GenerateInformationSeries();
    var meta := MetaDict(seriesDef);
    allRows, requested := FetchInBatches(DefIds(seriesDef), BatchSize(hasApiKey), fetch, meta);
  }
}
