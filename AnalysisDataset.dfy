/** scripts/build_analysis_dataset.py: the state × industry × month panel of BLS employment
    with the difference-in-differences flags. `pd.to_numeric(errors='coerce')` and `np.log`
    are the parameters `toNumeric` and `ln`. */
module AnalysisDataset {
  import opened Optional
  import opened Text
  import opened Order

  /** ILO generative-AI exposure by industry. */
  const IloExposureScores: map<string, real> := map[
    "Information" := 0.52,
    "Professional, Scientific, and Technical Services" := 0.48,
    "Finance and Insurance" := 0.50,
    "Leisure and Hospitality" := 0.28,
    "Total Nonfarm" := 0.38
  ]

  const HighExposureThreshold: real := 0.45

  const TeleworkScores: map<string, real> := map[
    "Information" := 0.72,
    "Professional, Scientific, and Technical Services" := 0.68,
    "Finance and Insurance" := 0.76,
    "Leisure and Hospitality" := 0.04,
    "Total Nonfarm" := 0.37
  ]

  const RoutineTaskIndex: map<string, real> := map[
    "Information" := 0.35,
    "Professional, Scientific, and Technical Services" := 0.25,
    "Finance and Insurance" := 0.55,
    "Leisure and Hospitality" := 0.45,
    "Total Nonfarm" := 0.50
  ]

  const SkillIntensity: map<string, real> := map[
    "Information" := 0.58,
    "Professional, Scientific, and Technical Services" := 0.72,
    "Finance and Insurance" := 0.52,
    "Leisure and Hospitality" := 0.12,
    "Total Nonfarm" := 0.38
  ]

  const AutomationRiskPreAi: map<string, real> := map[
    "Information" := 0.25,
    "Professional, Scientific, and Technical Services" := 0.18,
    "Finance and Insurance" := 0.43,
    "Leisure and Hospitality" := 0.75,
    "Total Nonfarm" := 0.47
  ]

  /** A row of bls_employment_data.csv. */
  datatype EmploymentRow = EmploymentRow(seriesId: string, state: string, industry: string, metric: string,
                                         year: int, period: string, periodName: string, value: string)

  /** `Period.str.replace('M', '').astype(int)`; `None` where the conversion raises. */
  function Month(period: string): Option<nat> {
    ParseNat(RemoveAll(period, 'M'))
  }

  /** A BLS monthly period `M` followed by digits is the month those digits spell. */
  lemma MonthOfPeriod(digits: string)
    requires digits != [] && AllDigits(digits)
    ensures Month("M" + digits) == Some(DigitsValue(digits))
  {
    assert ("M" + digits)[1..] == digits;
    assert RemoveAll("M" + digits, 'M') == RemoveAll(digits, 'M');
  }

  /** `Year * 100 + Month` */
  function YearMonth(year: int, month: nat): (ym: int)
    ensures 1 <= month <= 12 ==> ym / 100 == year && ym % 100 == month
  {
    year * 100 + month
  }

  /** `(Year >= 2023).astype(int)` */
  function Post(year: int): (p: int)
    ensures p == 0 || p == 1
    ensures p == 1 <==> year >= 2023
  {
    if year >= 2023 then 1 else 0
  }

  /** `(Industry.map(ILO) >= 0.45).astype(int)`: an industry without a score compares false. */
  function HighExposure(industry: string): (h: int)
    ensures h == 0 || h == 1
    ensures h == 1 <==> industry in IloExposureScores && IloExposureScores[industry] >= HighExposureThreshold
  {
    match Get(IloExposureScores, industry)
    case Some(score) => if score >= HighExposureThreshold then 1 else 0
    case None => 0
  }

  /** `HighExposure * Post` */
  function Treat(industry: string, year: int): (t: int)
    ensures t == 0 || t == 1
    ensures t == 1 <==> HighExposure(industry) == 1 && Post(year) == 1
  {
    HighExposure(industry) * Post(year)
  }

  /** Information, professional services and finance are the treated industries; leisure
      and the economy-wide total are controls. */
  lemma ExposureGroups()
    ensures HighExposure("Information") == 1
    ensures HighExposure("Professional, Scientific, and Technical Services") == 1
    ensures HighExposure("Finance and Insurance") == 1
    ensures HighExposure("Leisure and Hospitality") == 0
    ensures HighExposure("Total Nonfarm") == 0
  {
  }

  /** A row of the analysis panel. */
  datatype AnalysisRow = AnalysisRow(
    year: int, month: nat, yearMonth: int, period: string, periodName: string,
    state: string, industry: string, seriesId: string,
    employment: Option<real>, logEmployment: Option<real>,
    post: int, highExposure: int, treat: int,
    aiExposureScore: Option<real>, teleworkability: Option<real>, routineTaskIndex: Option<real>,
    skillIntensity: Option<real>, automationRiskPreAi: Option<real>)

  /** `np.log(x) if x > 0 else np.nan` */
  function LogEmployment(e: Option<real>, ln: real -> real): Option<real> {
    if e.Some? && e.value > 0.0 then Some(ln(e.value)) else None
  }

  /** The derived columns of one row, given its month. */
  function AnalysisRowOf(r: EmploymentRow, month: nat, toNumeric: string -> Option<real>, ln: real -> real): AnalysisRow {
    var e := toNumeric(r.value);
    AnalysisRow(r.year, month, YearMonth(r.year, month), r.period, r.periodName,
                r.state, r.industry, r.seriesId,
                e, LogEmployment(e, ln),
                Post(r.year), HighExposure(r.industry), Treat(r.industry, r.year),
                Get(IloExposureScores, r.industry), Get(TeleworkScores, r.industry),
                Get(RoutineTaskIndex, r.industry), Get(SkillIntensity, r.industry),
                Get(AutomationRiskPreAi, r.industry))
  }

  /** `sort_values(['State', 'Industry', 'Date'])`; the date is the first of the month. */
  function PanelKey(a: AnalysisRow): seq<KeyPart> {
    [S(a.state), S(a.industry), I(a.year), I(a.month)]
  }

  function IsAllEmployees(r: EmploymentRow): Option<EmploymentRow> {
    if r.metric == "All Employees" then Some(r) else None
  }

  predicate MonthsParse(rows: seq<EmploymentRow>) {
    forall i :: 0 <= i < |rows| ==> Month(rows[i].period).Some?
  }

  predicate MonthsValid(rows: seq<EmploymentRow>)
    requires MonthsParse(rows)
  {
    forall i :: 0 <= i < |rows| ==> 1 <= Month(rows[i].period).value <= 12
  }

  function Derived(rows: seq<EmploymentRow>, toNumeric: string -> Option<real>, ln: real -> real): (d: seq<AnalysisRow>)
    requires MonthsParse(rows)
    ensures |d| == |rows|
  {
    seq(|rows|, i requires 0 <= i < |rows| && MonthsParse(rows) =>
          AnalysisRowOf(rows[i], Month(rows[i].period).value, toNumeric, ln))
  }

  /** `create_analysis_panel`: the "All Employees" rows, with the month parsed (a period that
      does not convert raises), a date built (a month outside 1–12 raises), the flags and
      controls added, sorted by state, industry and date. */
  function CreateAnalysisPanel(rows: seq<EmploymentRow>, toNumeric: string -> Option<real>, ln: real -> real)
    : Result<seq<AnalysisRow>>
  {
    var emp := FilterMap(rows, IsAllEmployees);
    if !MonthsParse(emp) then Crash("ValueError: invalid literal for int()")
    else if !MonthsValid(emp) then Crash("DateParseError: month must be in 1..12")
    else Ok(SortBy(Derived(emp, toNumeric, ln), PanelKey))
  }

  /** The "All Employees" filter keeps exactly the rows of that metric. */
  lemma AllEmployeesMembers(rows: seq<EmploymentRow>)
    ensures forall r :: r in FilterMap(rows, IsAllEmployees) <==> r in rows && r.metric == "All Employees"
  {
    FilterMapMembers(rows, IsAllEmployees);
    forall r | r in rows && r.metric == "All Employees"
      ensures r in FilterMap(rows, IsAllEmployees)
    {
      var i :| 0 <= i < |rows| && rows[i] == r;
      assert IsAllEmployees(rows[i]) == Some(r);
    }
  }

  /** The panel is built exactly when every "All Employees" period is a month from 1 to 12. */
  lemma CreateAnalysisPanelSucceeds(rows: seq<EmploymentRow>, toNumeric: string -> Option<real>, ln: real -> real)
    ensures CreateAnalysisPanel(rows, toNumeric, ln).Ok? <==>
              forall i :: 0 <= i < |rows| && rows[i].metric == "All Employees" ==>
                Month(rows[i].period).Some? && 1 <= Month(rows[i].period).value <= 12
  {
    var emp := FilterMap(rows, IsAllEmployees);
    AllEmployeesMembers(rows);
    assert forall i :: 0 <= i < |emp| ==> emp[i] in emp;
    forall i | 0 <= i < |rows| && rows[i].metric == "All Employees"
      ensures rows[i] in emp
    {
    }
  }

  /** Row `a` of the panel is derived from an "All Employees" input row. */
  predicate FromAllEmployeesRow(rows: seq<EmploymentRow>, a: AnalysisRow, toNumeric: string -> Option<real>, ln: real -> real) {
    exists r :: r in rows && r.metric == "All Employees" && Month(r.period).Some? &&
      a == AnalysisRowOf(r, Month(r.period).value, toNumeric, ln)
  }

  /** A built panel holds one row per "All Employees" input row, each derived from its input
      row, sorted by state, industry and date; each row's year and month round-trip through
      `YearMonth`. */
  lemma CreateAnalysisPanelRows(rows: seq<EmploymentRow>, toNumeric: string -> Option<real>, ln: real -> real)
    requires CreateAnalysisPanel(rows, toNumeric, ln).Ok?
    ensures var emp := FilterMap(rows, IsAllEmployees);
            var out := CreateAnalysisPanel(rows, toNumeric, ln).value;
            |out| == |emp| &&
            SortedBy(out, PanelKey) &&
            multiset(out) == multiset(Derived(emp, toNumeric, ln)) &&
            (forall k :: 0 <= k < |out| ==> out[k].yearMonth / 100 == out[k].year && out[k].yearMonth % 100 == out[k].month) &&
            (forall k :: 0 <= k < |out| ==> FromAllEmployeesRow(rows, out[k], toNumeric, ln))
  {
    var emp := FilterMap(rows, IsAllEmployees);
    var d := Derived(emp, toNumeric, ln);
    var out := SortBy(d, PanelKey);
    forall k | 0 <= k < |out|
      ensures out[k].yearMonth / 100 == out[k].year && out[k].yearMonth % 100 == out[k].month
      ensures FromAllEmployeesRow(rows, out[k], toNumeric, ln)
    {
      assert out[k] in multiset(d);
      var j :| 0 <= j < |d| && d[j] == out[k];
      DerivedRowFacts(rows, toNumeric, ln, j);
    }
  }

  /** Each derived row comes from its "All Employees" row and its year and month round-trip. */
  lemma DerivedRowFacts(rows: seq<EmploymentRow>, toNumeric: string -> Option<real>, ln: real -> real, j: nat)
    requires CreateAnalysisPanel(rows, toNumeric, ln).Ok?
    requires j < |FilterMap(rows, IsAllEmployees)|
    ensures var a := Derived(FilterMap(rows, IsAllEmployees), toNumeric, ln)[j];
            a.yearMonth / 100 == a.year && a.yearMonth % 100 == a.month &&
            FromAllEmployeesRow(rows, a, toNumeric, ln)
  {
    var emp := FilterMap(rows, IsAllEmployees);
    AllEmployeesMembers(rows);
    assert emp[j] in emp;
    var m := Month(emp[j].period).value;
    assert 1 <= m <= 12;
    assert Derived(emp, toNumeric, ln)[j] == AnalysisRowOf(emp[j], m, toNumeric, ln);
  }
}
