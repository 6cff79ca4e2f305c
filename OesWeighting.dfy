/** scripts/fetch_occupation_data.py: the cleaning of one OES research-estimates sheet into
    (Year, State, NAICS, SOC, Employment, SOC_Major) rows, and the employment-weighted industry
    scores: per (Year, State, Industry) group, each SOC major group's share of employment times
    its score, summed. The NAICS → industry table and the score tables are parameters;
    `pd.to_numeric(..., errors='coerce')` is the parameter `toNumeric`. */
module OesWeighting {
  import opened Optional
  import opened Text
  import opened Order
  import opened RealSums
  import opened Dicts

  /** `str(col).strip().upper()` */
  function NormalizeHeader(h: string): string {
    Upper(Strip(h))
  }

  /** `next((col for col in columns if a in col or b in col), None)`: the first header that
      contains either substring. */
  function FirstContaining(headers: seq<string>, a: string, b: string): (r: Option<nat>)
    ensures r.Some? ==> r.value < |headers| && (Contains(headers[r.value], a) || Contains(headers[r.value], b))
    ensures r.Some? ==> forall k :: 0 <= k < r.value ==> !Contains(headers[k], a) && !Contains(headers[k], b)
    ensures r.None? ==> forall k :: 0 <= k < |headers| ==> !Contains(headers[k], a) && !Contains(headers[k], b)
  {
    if headers == [] then None
    else if Contains(headers[0], a) || Contains(headers[0], b) then Some(0)
    else
      var rest := FirstContaining(headers[1..], a, b);
      assert forall k :: 1 <= k < |headers| ==> headers[k] == headers[1..][k - 1];
      if rest.None? then None else Some(rest.value + 1)
  }

  /** The positions of the four columns the parse needs. */
  datatype Columns = Columns(state: nat, naics: nat, occ: nat, emp: nat)

  /** The column sniffing of `parse_oes_file`; `None` when any of the four is not found. */
  function FindColumns(headers: seq<string>): (c: Option<Columns>)
    ensures c.Some? <==> FirstContaining(headers, "STATE", "AREA").Some? &&
                         FirstContaining(headers, "NAICS", "INDUSTRY").Some? &&
                         FirstContaining(headers, "OCC_CODE", "SOC").Some? &&
                         FirstContaining(headers, "TOT_EMP", "EMPLOYMENT").Some?
    ensures c.Some? ==> c.value == Columns(FirstContaining(headers, "STATE", "AREA").value,
                                           FirstContaining(headers, "NAICS", "INDUSTRY").value,
                                           FirstContaining(headers, "OCC_CODE", "SOC").value,
                                           FirstContaining(headers, "TOT_EMP", "EMPLOYMENT").value)
  {
    var s := FirstContaining(headers, "STATE", "AREA");
    var n := FirstContaining(headers, "NAICS", "INDUSTRY");
    var o := FirstContaining(headers, "OCC_CODE", "SOC");
    var e := FirstContaining(headers, "TOT_EMP", "EMPLOYMENT");
    if s.None? || n.None? || o.None? || e.None? then None
    else Some(Columns(s.value, n.value, o.value, e.value))
  }

  /** A sheet row: one cell per column as text, `None` for an empty cell. */
  type RawRow = seq<Option<string>>

  function Cell(row: RawRow, k: nat): Option<string> {
    if k < |row| then row[k] else None
  }

  /** A cleaned row. `state` is `None` where the cell was empty. */
  datatype OesRow = OesRow(year: int, state: Option<string>, naics: string, soc: string,
                           employment: real, socMajor: string)

  /** The cleaning of one row: dropped when the SOC or employment cell is empty, when the
      employment is not numeric or not positive; `SOC_Major` is the first two characters of the
      SOC code and the NAICS code is stripped (an empty NAICS cell reads "nan"). */
  function CleanRow(row: RawRow, c: Columns, year: int, toNumeric: string -> Option<real>): Option<OesRow> {
    var soc := Cell(row, c.occ);
    var emp := Cell(row, c.emp);
    if soc.None? || emp.None? then None
    else
      var e := toNumeric(emp.value);
      if e.None? || e.value <= 0.0 then None
      else Some(OesRow(year, Cell(row, c.state), Strip(Cell(row, c.naics).GetOr("nan")), soc.value, e.value,
                       Take(soc.value, 2)))
  }

  /** A row survives the cleaning exactly when its SOC and employment cells are present and
      the employment reads as a positive number. */
  lemma CleanRowSpec(row: RawRow, c: Columns, year: int, toNumeric: string -> Option<real>)
    ensures var r := CleanRow(row, c, year, toNumeric);
            (r.Some? <==> Cell(row, c.occ).Some? && Cell(row, c.emp).Some? &&
                          toNumeric(Cell(row, c.emp).value).Some? && toNumeric(Cell(row, c.emp).value).value > 0.0) &&
            (r.Some? ==> r.value.year == year && r.value.soc == Cell(row, c.occ).value &&
                         r.value.socMajor == Take(r.value.soc, 2) && r.value.state == Cell(row, c.state) &&
                         r.value.employment == toNumeric(Cell(row, c.emp).value).value > 0.0 &&
                         r.value.naics == Strip(Cell(row, c.naics).GetOr("nan")) &&
                         Strip(r.value.naics) == r.value.naics)
  {
    var soc := Cell(row, c.occ);
    var emp := Cell(row, c.emp);
    if soc.Some? && emp.Some? && toNumeric(emp.value).Some? && toNumeric(emp.value).value > 0.0 {
      var naics := Strip(Cell(row, c.naics).GetOr("nan"));
      StripIdempotent(Cell(row, c.naics).GetOr("nan"));
      assert CleanRow(row, c, year, toNumeric) ==
             Some(OesRow(year, Cell(row, c.state), naics, soc.value, toNumeric(emp.value).value, Take(soc.value, 2)));
    } else {
      assert CleanRow(row, c, year, toNumeric).None?;
    }
  }

  /** The kept rows, in sheet order. */
  function CleanRows(rows: seq<RawRow>, c: Columns, year: int, toNumeric: string -> Option<real>): seq<OesRow> {
    FilterMap(rows, row => CleanRow(row, c, year, toNumeric))
  }

  /** `parse_oes_file` after the sheet is read: the headers are normalised and sniffed, an
      empty table results when a column is missing, and the rows are cleaned. Every row kept
      has a SOC code, a positive employment, its major group and a stripped NAICS code. */
  function ParseOes(headers: seq<string>, rows: seq<RawRow>, year: int, toNumeric: string -> Option<real>)
    : (out: seq<OesRow>)
    ensures FindColumns(seq(|headers|, k requires 0 <= k < |headers| => NormalizeHeader(headers[k]))).None? ==> out == []
    ensures |out| <= |rows|
    ensures forall x :: x in out ==>
              x.year == year && x.employment > 0.0 && x.socMajor == Take(x.soc, 2) && Strip(x.naics) == x.naics
  {
    var normalized := seq(|headers|, k requires 0 <= k < |headers| => NormalizeHeader(headers[k]));
    match FindColumns(normalized)
    case None => []
    case Some(c) =>
      var out := CleanRows(rows, c, year, toNumeric);
      FilterMapMembers(rows, row => CleanRow(row, c, year, toNumeric));
      assert forall x :: x in out ==> x.year == year && x.employment > 0.0 && x.socMajor == Take(x.soc, 2) &&
                                      Strip(x.naics) == x.naics by {
        forall x | x in out
          ensures x.year == year && x.employment > 0.0 && x.socMajor == Take(x.soc, 2) && Strip(x.naics) == x.naics
        {
          var i :| 0 <= i < |rows| && CleanRow(rows[i], c, year, toNumeric) == Some(x);
          CleanRowSpec(rows[i], c, year, toNumeric);
        }
      }
      out
  }

  /** A cleaned row whose NAICS code maps to an industry and whose state is present, as the
      groupby of `calculate_industry_exposure_scores` sees it. */
  datatype IndustryRow = IndustryRow(year: int, state: string, industry: string, major: string, employment: real)

  /** `oes_data['NAICS'].map(NAICS_TO_INDUSTRY)` then `dropna(subset=['Industry'])`; the
      groupby then drops rows whose state is missing. */
  function ToIndustryRow(r: OesRow, naicsToIndustry: map<string, string>): Option<IndustryRow> {
    if r.naics in naicsToIndustry && r.state.Some? then
      Some(IndustryRow(r.year, r.state.value, naicsToIndustry[r.naics], r.socMajor, r.employment))
    else None
  }

  function ToIndustryRows(rows: seq<OesRow>, naicsToIndustry: map<string, string>): seq<IndustryRow> {
    FilterMap(rows, r => ToIndustryRow(r, naicsToIndustry))
  }

  /** Only rows whose NAICS code is exactly a key of the table reach the aggregation, each with
      its industry; employment stays positive. */
  lemma ToIndustryRowsSpec(rows: seq<OesRow>, naicsToIndustry: map<string, string>)
    ensures forall x :: x in ToIndustryRows(rows, naicsToIndustry) <==>
              exists i :: 0 <= i < |rows| && rows[i].naics in naicsToIndustry && rows[i].state.Some? &&
                          x == IndustryRow(rows[i].year, rows[i].state.value, naicsToIndustry[rows[i].naics],
                                           rows[i].socMajor, rows[i].employment)
    ensures (forall i :: 0 <= i < |rows| ==> rows[i].employment > 0.0) ==>
              forall x :: x in ToIndustryRows(rows, naicsToIndustry) ==> x.employment > 0.0
  {
    FilterMapMembers(rows, r => ToIndustryRow(r, naicsToIndustry));
  }

  /** A (Year, State, Industry) group key. */
  datatype GroupKey = GroupKey(year: int, state: string, industry: string)

  function KeyOf(r: IndustryRow): GroupKey {
    GroupKey(r.year, r.state, r.industry)
  }

  /** groupby orders groups by key. */
  function GroupOrder(k: GroupKey): seq<KeyPart> {
    [I(k.year), S(k.state), S(k.industry)]
  }

  function Keys(rows: seq<IndustryRow>): (ks: seq<GroupKey>)
    ensures |ks| == |rows|
    ensures forall i :: 0 <= i < |rows| ==> ks[i] == KeyOf(rows[i])
  {
    seq(|rows|, i requires 0 <= i < |rows| => KeyOf(rows[i]))
  }

  /** The groups of `groupby(['Year', 'State', 'Industry'])`, in key order. */
  function GroupKeys(rows: seq<IndustryRow>): (ks: seq<GroupKey>)
    ensures SortedBy(ks, GroupOrder)
    ensures forall k :: k in ks <==> exists i :: 0 <= i < |rows| && KeyOf(rows[i]) == k
    ensures forall i, j :: 0 <= i < j < |ks| ==> ks[i] != ks[j]
  {
    var d := Dedup(Keys(rows));
    var ks := SortBy(d, GroupOrder);
    assert forall k :: k in ks <==> k in d by {
      forall k
        ensures k in ks <==> k in d
      {
        assert k in ks <==> k in multiset(ks);
        assert k in d <==> k in multiset(d);
      }
    }
    DistinctPermutation(d, ks);
    ks
  }

  /** The rows of one group, in row order. */
  function GroupOf(rows: seq<IndustryRow>, g: GroupKey): (r: seq<IndustryRow>)
    ensures forall x :: x in r <==> x in rows && KeyOf(x) == g
  {
    if rows == [] then []
    else
      var n := |rows| - 1;
      GroupOf(rows[..n], g) + (if KeyOf(rows[n]) == g then [rows[n]] else [])
  }

  /** The SOC major groups of a group, each once, in order of appearance. */
  function Majors(grows: seq<IndustryRow>): seq<string> {
    Dedup(MajorColumn(grows))
  }

  /** The summed employment of one major group (the first `groupby(...).sum()`). */
  function MajorEmployment(grows: seq<IndustryRow>, m: string): real {
    if grows == [] then 0.0
    else
      var n := |grows| - 1;
      MajorEmployment(grows[..n], m) + (if grows[n].major == m then grows[n].employment else 0.0)
  }

  function MajorEmployments(grows: seq<IndustryRow>): (e: seq<real>)
    ensures |e| == |Majors(grows)|
    ensures forall k :: 0 <= k < |e| ==> e[k] == MajorEmployment(grows, Majors(grows)[k])
  {
    var ms := Majors(grows);
    seq(|ms|, k requires 0 <= k < |ms| => MajorEmployment(grows, ms[k]))
  }

  /** `Total_Employment`: the second `sum`, over the major groups. */
  function TotalEmployment(grows: seq<IndustryRow>): real {
    Sum(MajorEmployments(grows))
  }

  /** The plain sum of the employment of the rows. */
  function RowEmployment(grows: seq<IndustryRow>): real {
    if grows == [] then 0.0 else RowEmployment(grows[..|grows| - 1]) + grows[|grows| - 1].employment
  }

  predicate AllPositive(grows: seq<IndustryRow>) {
    forall i :: 0 <= i < |grows| ==> grows[i].employment > 0.0
  }

  lemma {:induction false} RowEmploymentPositive(grows: seq<IndustryRow>)
    requires grows != [] && AllPositive(grows)
    ensures RowEmployment(grows) > 0.0
  {
    var n := |grows| - 1;
    if n > 0 {
      RowEmploymentPositive(grows[..n]);
    }
  }

  lemma {:induction false} SumAddAt(s: seq<real>, k: nat, e: real)
    requires k < |s|
    ensures Sum(s[k := s[k] + e]) == Sum(s) + e
  {
    if k > 0 {
      SumAddAt(s[1..], k - 1, e);
      assert s[k := s[k] + e][1..] == s[1..][k - 1 := s[1..][k - 1] + e];
    }
  }

  /** Summing per major group and then over the groups gives the plain sum of the rows: the
      group total is the group's employment. */
  lemma {:induction false} TotalIsRowSum(grows: seq<IndustryRow>)
    ensures TotalEmployment(grows) == RowEmployment(grows)
  {
    if grows != [] {
      var n := |grows| - 1;
      TotalIsRowSum(grows[..n]);
      assert grows == grows[..n] + [grows[n]];
      TotalStep(grows[..n], grows[n]);
    }
  }

  function MajorColumn(grows: seq<IndustryRow>): seq<string> {
    seq(|grows|, i requires 0 <= i < |grows| => grows[i].major)
  }

  lemma MajorsStep(init: seq<IndustryRow>, r: IndustryRow)
    ensures Majors(init + [r]) == if r.major in Majors(init) then Majors(init) else Majors(init) + [r.major]
  {
    var col := MajorColumn(init + [r]);
    assert col[..|init|] == MajorColumn(init);
    assert col[|col| - 1] == r.major;
  }

  lemma MajorEmploymentStep(init: seq<IndustryRow>, r: IndustryRow, m: string)
    ensures MajorEmployment(init + [r], m) == MajorEmployment(init, m) + (if r.major == m then r.employment else 0.0)
  {
    assert (init + [r])[..|init|] == init;
  }

  /** Adding a row adds its employment to the group total. */
  lemma TotalStep(init: seq<IndustryRow>, r: IndustryRow)
    ensures TotalEmployment(init + [r]) == TotalEmployment(init) + r.employment
  {
    MajorsStep(init, r);
    if r.major in Majors(init) {
      TotalStepKnown(init, r);
    } else {
      TotalStepNew(init, r);
    }
  }

  lemma TotalStepKnown(init: seq<IndustryRow>, r: IndustryRow)
    requires r.major in Majors(init)
    requires Majors(init + [r]) == Majors(init)
    ensures TotalEmployment(init + [r]) == TotalEmployment(init) + r.employment
  {
    var ms := Majors(init);
    var es := MajorEmployments(init);
    var es' := MajorEmployments(init + [r]);
    var k :| 0 <= k < |ms| && ms[k] == r.major;
    forall j | 0 <= j < |ms|
      ensures es'[j] == es[k := es[k] + r.employment][j]
    {
      MajorEmploymentStep(init, r, ms[j]);
    }
    assert es' == es[k := es[k] + r.employment];
    SumAddAt(es, k, r.employment);
  }

  lemma TotalStepNew(init: seq<IndustryRow>, r: IndustryRow)
    requires r.major !in Majors(init)
    requires Majors(init + [r]) == Majors(init) + [r.major]
    ensures TotalEmployment(init + [r]) == TotalEmployment(init) + r.employment
  {
    var ms := Majors(init);
    var es := MajorEmployments(init);
    var es' := MajorEmployments(init + [r]);
    forall j | 0 <= j < |ms|
      ensures es'[j] == es[j]
    {
      MajorEmploymentStep(init, r, ms[j]);
    }
    MajorEmploymentStep(init, r, r.major);
    forall i | 0 <= i < |init|
      ensures init[i].major != r.major
    {
      assert MajorColumn(init)[i] in MajorColumn(init);
    }
    MajorEmploymentAbsent(init, r.major);
    assert es' == es + [r.employment];
    SumConcat(es, [r.employment]);
  }

  lemma {:induction false} MajorEmploymentAbsent(grows: seq<IndustryRow>, m: string)
    requires forall i :: 0 <= i < |grows| ==> grows[i].major != m
    ensures MajorEmployment(grows, m) == 0.0
  {
    if grows != [] {
      MajorEmploymentAbsent(grows[..|grows| - 1], m);
    }
  }

  lemma {:induction false} MajorEmploymentNonNegative(grows: seq<IndustryRow>, m: string)
    requires AllPositive(grows)
    ensures MajorEmployment(grows, m) >= 0.0
  {
    if grows != [] {
      MajorEmploymentNonNegative(grows[..|grows| - 1], m);
    }
  }

  /** Each major group's share of the group employment. */
  function Shares(grows: seq<IndustryRow>): (sh: seq<real>)
    requires grows != [] && AllPositive(grows)
    ensures |sh| == |Majors(grows)|
    ensures TotalEmployment(grows) > 0.0
    ensures forall k :: 0 <= k < |sh| ==> sh[k] == MajorEmployment(grows, Majors(grows)[k]) / TotalEmployment(grows)
  {
    TotalIsRowSum(grows);
    RowEmploymentPositive(grows);
    var es := MajorEmployments(grows);
    seq(|es|, k requires 0 <= k < |es| => es[k] / TotalEmployment(grows))
  }

  /** The shares of a group are non-negative and sum to 1. */
  lemma SharesSumToOne(grows: seq<IndustryRow>)
    requires grows != [] && AllPositive(grows)
    ensures Sum(Shares(grows)) == 1.0
    ensures forall k :: 0 <= k < |Shares(grows)| ==> Shares(grows)[k] >= 0.0
  {
    var es := MajorEmployments(grows);
    var t := TotalEmployment(grows);
    var sh := Shares(grows);
    SumScaled(es, sh, t);
    DivSelf(Sum(es), t);
    forall k | 0 <= k < |sh|
      ensures sh[k] >= 0.0
    {
      MajorEmploymentNonNegative(grows, Majors(grows)[k]);
      NonNegativeQuotient(es[k], t);
    }
  }

  lemma DivSelf(s: real, t: real)
    requires t > 0.0 && s == t
    ensures s / t == 1.0
  {
  }

  lemma NonNegativeQuotient(a: real, t: real)
    requires a >= 0.0 && t > 0.0
    ensures a / t >= 0.0
  {
  }

  /** `(group['Share'] * group['Score']).sum()` for one score table: a major group without a
      score has a missing product, which the sum skips; the shares are not renormalised. */
  function Measure(majors: seq<string>, shares: seq<real>, scores: map<string, real>): real
    requires |majors| == |shares|
  {
    if majors == [] then 0.0
    else (if majors[0] in scores then shares[0] * scores[majors[0]] else 0.0) + Measure(majors[1..], shares[1..], scores)
  }

  /** The part of the employment held by major groups that have a score. */
  function ScoredShare(majors: seq<string>, shares: seq<real>, scores: map<string, real>): real
    requires |majors| == |shares|
  {
    if majors == [] then 0.0
    else (if majors[0] in scores then shares[0] else 0.0) + ScoredShare(majors[1..], shares[1..], scores)
  }

  /** With scores in `[lo, hi]`, a measure lies between `lo` and `hi` times the scored share. */
  lemma MeasureBounds(majors: seq<string>, shares: seq<real>, scores: map<string, real>, lo: real, hi: real)
    requires |majors| == |shares|
    requires forall k :: 0 <= k < |shares| ==> shares[k] >= 0.0
    requires forall k :: 0 <= k < |majors| && majors[k] in scores ==> lo <= scores[majors[k]] <= hi
    ensures lo * ScoredShare(majors, shares, scores) <= Measure(majors, shares, scores) <= hi * ScoredShare(majors, shares, scores)
  {
    MeasureLower(majors, shares, scores, lo);
    MeasureUpper(majors, shares, scores, hi);
  }

  lemma {:induction false} MeasureLower(majors: seq<string>, shares: seq<real>, scores: map<string, real>, lo: real)
    requires |majors| == |shares|
    requires forall k :: 0 <= k < |shares| ==> shares[k] >= 0.0
    requires forall k :: 0 <= k < |majors| && majors[k] in scores ==> lo <= scores[majors[k]]
    ensures lo * ScoredShare(majors, shares, scores) <= Measure(majors, shares, scores)
  {
    if majors != [] {
      assert forall k :: 0 <= k < |shares| - 1 ==> shares[1..][k] == shares[k + 1];
      assert forall k :: 0 <= k < |majors| - 1 ==> majors[1..][k] == majors[k + 1];
      MeasureLower(majors[1..], shares[1..], scores, lo);
      var sw, t := ScoredShare(majors[1..], shares[1..], scores), Measure(majors[1..], shares[1..], scores);
      if majors[0] in scores {
        var w0, c0 := shares[0], scores[majors[0]];
        assert ScoredShare(majors, shares, scores) == w0 + sw;
        assert Measure(majors, shares, scores) == w0 * c0 + t;
        LowerStep(w0, c0, sw, t, lo);
      } else {
        assert ScoredShare(majors, shares, scores) == sw;
        assert Measure(majors, shares, scores) == t;
      }
    }
  }

  lemma {:induction false} MeasureUpper(majors: seq<string>, shares: seq<real>, scores: map<string, real>, hi: real)
    requires |majors| == |shares|
    requires forall k :: 0 <= k < |shares| ==> shares[k] >= 0.0
    requires forall k :: 0 <= k < |majors| && majors[k] in scores ==> scores[majors[k]] <= hi
    ensures Measure(majors, shares, scores) <= hi * ScoredShare(majors, shares, scores)
  {
    if majors != [] {
      assert forall k :: 0 <= k < |shares| - 1 ==> shares[1..][k] == shares[k + 1];
      assert forall k :: 0 <= k < |majors| - 1 ==> majors[1..][k] == majors[k + 1];
      MeasureUpper(majors[1..], shares[1..], scores, hi);
      var sw, t := ScoredShare(majors[1..], shares[1..], scores), Measure(majors[1..], shares[1..], scores);
      if majors[0] in scores {
        var w0, c0 := shares[0], scores[majors[0]];
        assert ScoredShare(majors, shares, scores) == w0 + sw;
        assert Measure(majors, shares, scores) == w0 * c0 + t;
        UpperStep(w0, c0, sw, t, hi);
      } else {
        assert ScoredShare(majors, shares, scores) == sw;
        assert Measure(majors, shares, scores) == t;
      }
    }
  }

  lemma LowerStep(w0: real, c0: real, sw: real, t: real, lo: real)
    requires 0.0 <= w0 && lo <= c0 && lo * sw <= t
    ensures lo * (w0 + sw) <= w0 * c0 + t
  {
    assert 0.0 <= w0 * (c0 - lo);
  }

  lemma UpperStep(w0: real, c0: real, sw: real, t: real, hi: real)
    requires 0.0 <= w0 && c0 <= hi && t <= hi * sw
    ensures w0 * c0 + t <= hi * (w0 + sw)
  {
    assert 0.0 <= w0 * (hi - c0);
  }

  /** The scored share is at most the whole, and is the whole when every major group has a score. */
  lemma {:induction false} ScoredShareBounds(majors: seq<string>, shares: seq<real>, scores: map<string, real>)
    requires |majors| == |shares|
    requires forall k :: 0 <= k < |shares| ==> shares[k] >= 0.0
    ensures 0.0 <= ScoredShare(majors, shares, scores) <= Sum(shares)
    ensures (forall k :: 0 <= k < |majors| ==> majors[k] in scores) ==> ScoredShare(majors, shares, scores) == Sum(shares)
  {
    if majors != [] {
      ScoredShareBounds(majors[1..], shares[1..], scores);
    }
  }

  /** One output row: the group key, one measure per score table, and the group employment. */
  datatype IndustryScore = IndustryScore(year: int, state: string, industry: string, measures: seq<real>,
                                         totalEmployment: real)

  lemma GroupFacts(rows: seq<IndustryRow>, g: GroupKey)
    requires AllPositive(rows) && g in Keys(rows)
    ensures GroupOf(rows, g) != [] && AllPositive(GroupOf(rows, g))
  {
    var i :| 0 <= i < |rows| && Keys(rows)[i] == g;
    assert rows[i] in GroupOf(rows, g);
    forall k | 0 <= k < |GroupOf(rows, g)|
      ensures GroupOf(rows, g)[k].employment > 0.0
    {
      assert GroupOf(rows, g)[k] in rows;
    }
  }

  /** The row of one group: each measure over the group's major groups and shares. */
  function GroupScore(rows: seq<IndustryRow>, g: GroupKey, tables: seq<map<string, real>>): (r: IndustryScore)
    requires AllPositive(rows) && g in Keys(rows)
  {
    GroupFacts(rows, g);
    var grows := GroupOf(rows, g);
    var ms := Majors(grows);
    var sh := Shares(grows);
    IndustryScore(g.year, g.state, g.industry,
                  seq(|tables|, t requires 0 <= t < |tables| => Measure(ms, sh, tables[t])),
                  TotalEmployment(grows))
  }

  /** What `calculate_industry_exposure_scores` returns for rows already mapped to
      industries: one row per distinct (Year, State, Industry), in key order, whose total is
      the group's employment. */
  function IndustryScores(rows: seq<IndustryRow>, tables: seq<map<string, real>>): (r: seq<IndustryScore>)
    requires AllPositive(rows)
    ensures |r| == |GroupKeys(rows)|
    ensures forall k :: 0 <= k < |r| ==>
              GroupKey(r[k].year, r[k].state, r[k].industry) == GroupKeys(rows)[k] &&
              |r[k].measures| == |tables| &&
              r[k].totalEmployment == RowEmployment(GroupOf(rows, GroupKeys(rows)[k]))
  {
    var ks := GroupKeys(rows);
    GroupKeysOfRows(rows);
    forall k | 0 <= k < |ks|
      ensures TotalEmployment(GroupOf(rows, ks[k])) == RowEmployment(GroupOf(rows, ks[k]))
    {
      TotalIsRowSum(GroupOf(rows, ks[k]));
    }
    ScoresOfKeys(rows, ks, tables)
  }

  /** Every key of the list is the key of some row. */
  predicate KeysOfRows(rows: seq<IndustryRow>, keys: seq<GroupKey>) {
    forall k :: 0 <= k < |keys| ==> keys[k] in Keys(rows)
  }

  /** The rows of the given groups, in the order of the keys. */
  function ScoresOfKeys(rows: seq<IndustryRow>, keys: seq<GroupKey>, tables: seq<map<string, real>>)
    : seq<IndustryScore>
    requires AllPositive(rows) && KeysOfRows(rows, keys)
  {
    seq(|keys|, k requires 0 <= k < |keys| => GroupScore(rows, keys[k], tables))
  }

  lemma GroupKeysOfRows(rows: seq<IndustryRow>)
    ensures KeysOfRows(rows, GroupKeys(rows))
  {
    forall k | 0 <= k < |GroupKeys(rows)|
      ensures GroupKeys(rows)[k] in Keys(rows)
    {
      GroupKeyIn(rows, k);
    }
  }

  /** Scores in `[0, 1]` give a measure in `[0, 1]`; when every major group has a score in
      `[lo, hi]`, the measure lies in `[lo, hi]`. */
  lemma GroupMeasureBounds(grows: seq<IndustryRow>, scores: map<string, real>, lo: real, hi: real)
    requires grows != [] && AllPositive(grows)
    requires forall m :: m in scores ==> lo <= scores[m] <= hi
    ensures var v := Measure(Majors(grows), Shares(grows), scores);
            (0.0 <= lo && hi <= 1.0 ==> 0.0 <= v <= 1.0) &&
            ((forall m :: m in Majors(grows) ==> m in scores) ==> lo <= v <= hi)
  {
    SharesSumToOne(grows);
    SharedMeasureBounds(Majors(grows), Shares(grows), scores, lo, hi);
  }

  /** The bounds for any shares that are non-negative and sum to 1. */
  lemma SharedMeasureBounds(ms: seq<string>, sh: seq<real>, scores: map<string, real>, lo: real, hi: real)
    requires |ms| == |sh| && Sum(sh) == 1.0
    requires forall k :: 0 <= k < |sh| ==> sh[k] >= 0.0
    requires forall m :: m in scores ==> lo <= scores[m] <= hi
    ensures var v := Measure(ms, sh, scores);
            (0.0 <= lo && hi <= 1.0 ==> 0.0 <= v <= 1.0) &&
            ((forall m :: m in ms ==> m in scores) ==> lo <= v <= hi)
  {
    var v := Measure(ms, sh, scores);
    MeasureBounds(ms, sh, scores, lo, hi);
    ScoredShareBounds(ms, sh, scores);
    var w := ScoredShare(ms, sh, scores);
    if 0.0 <= lo && hi <= 1.0 {
      UnitBounds(lo, hi, w, v);
    }
    if forall m :: m in ms ==> m in scores {
      assert forall j :: 0 <= j < |ms| ==> ms[j] in scores;
      assert w == 1.0;
    }
  }

  lemma UnitBounds(lo: real, hi: real, w: real, v: real)
    requires 0.0 <= lo && hi <= 1.0 && 0.0 <= w <= 1.0
    requires lo * w <= v <= hi * w
    ensures 0.0 <= v <= 1.0
  {
    assert 0.0 <= lo * w;
    assert hi * w <= 1.0 * w;
  }

  /** The same bounds for every measure of every output row. */
  lemma IndustryScoresBounds(rows: seq<IndustryRow>, tables: seq<map<string, real>>, k: nat, t: nat, lo: real, hi: real)
    requires AllPositive(rows)
    requires k < |GroupKeys(rows)| && t < |tables|
    requires forall m :: m in tables[t] ==> lo <= tables[t][m] <= hi
    ensures var v := IndustryScores(rows, tables)[k].measures[t];
            (0.0 <= lo && hi <= 1.0 ==> 0.0 <= v <= 1.0) &&
            ((forall m :: m in Majors(GroupOf(rows, GroupKeys(rows)[k])) ==> m in tables[t]) ==> lo <= v <= hi)
  {
    var g := GroupKeys(rows)[k];
    assert g in GroupKeys(rows);
    var i :| 0 <= i < |rows| && KeyOf(rows[i]) == g;
    assert Keys(rows)[i] == g;
    GroupFacts(rows, g);
    GroupMeasureBounds(GroupOf(rows, g), tables[t], lo, hi);
    assert IndustryScores(rows, tables)[k] == GroupScore(rows, g, tables);
  }

  /** `calculate_industry_exposure_scores`: the cleaned rows of all sheets are mapped to
      industries, then the loop over groups computes one row per group with one measure per
      score table. */
  function ExposureScores(oes: seq<OesRow>, naicsToIndustry: map<string, string>, tables: seq<map<string, real>>)
    : seq<IndustryScore>
    requires forall i :: 0 <= i < |oes| ==> oes[i].employment > 0.0
  {
    ToIndustryRowsPositive(oes, naicsToIndustry);
    IndustryScores(ToIndustryRows(oes, naicsToIndustry), tables)
  }

  /** The body of the loop over groups: one measure per score table, then the row. */
  method ScoreGroup(rows: seq<IndustryRow>, g: GroupKey, tables: seq<map<string, real>>) returns (r: IndustryScore)
    requires AllPositive(rows) && g in Keys(rows)
    ensures r == GroupScore(rows, g, tables)
  {
    GroupFacts(rows, g);
    var group := GroupOf(rows, g);
    var majors := Majors(group);
    var shares := Shares(group);
    var measures := [];
    var t := 0;
    while t < |tables|
      invariant 0 <= t <= |tables|
      invariant measures == GroupScore(rows, g, tables).measures[..t]
    {
      measures := measures + [Measure(majors, shares, tables[t])];
      t := t + 1;
    }
    r := IndustryScore(g.year, g.state, g.industry, measures, TotalEmployment(group));
  }

  /** The loop over the groups, in key order. */
  method ScoreGroups(rows: seq<IndustryRow>, tables: seq<map<string, real>>) returns (results: seq<IndustryScore>)
    requires AllPositive(rows)
    ensures results == IndustryScores(rows, tables)
  {
    GroupKeysOfRows(rows);
    results := ScoreKeys(rows, GroupKeys(rows), tables);
  }

  method ScoreKeys(rows: seq<IndustryRow>, keys: seq<GroupKey>, tables: seq<map<string, real>>)
    returns (results: seq<IndustryScore>)
    requires AllPositive(rows) && KeysOfRows(rows, keys)
    ensures results == ScoresOfKeys(rows, keys, tables)
  {
    ghost var all := ScoresOfKeys(rows, keys, tables);
    results := [];
    var k := 0;
    while k < |keys|
      invariant 0 <= k <= |keys|
      invariant results == all[..k]
    {
      var r := ScoreGroup(rows, keys[k], tables);
      assert all[k] == r;
      PrefixSnoc(all, k);
      results := results + [r];
      k := k + 1;
    }
    PrefixAll(all);
  }

  /** Every group key is the key of some row. */
  lemma GroupKeyIn(rows: seq<IndustryRow>, k: nat)
    requires k < |GroupKeys(rows)|
    ensures GroupKeys(rows)[k] in Keys(rows)
  {
    var g := GroupKeys(rows)[k];
    assert g in GroupKeys(rows);
    var i :| 0 <= i < |rows| && KeyOf(rows[i]) == g;
    assert Keys(rows)[i] == g;
  }

  lemma ToIndustryRowsPositive(oes: seq<OesRow>, naicsToIndustry: map<string, string>)
    requires forall i :: 0 <= i < |oes| ==> oes[i].employment > 0.0
    ensures AllPositive(ToIndustryRows(oes, naicsToIndustry))
  {
    var rows := ToIndustryRows(oes, naicsToIndustry);
    ToIndustryRowsSpec(oes, naicsToIndustry);
    assert forall i :: 0 <= i < |rows| ==> rows[i] in rows;
  }

  /** `calculate_industry_exposure_scores` on a cleaned sheet: the per-group rows. When no row
      maps to an industry, `results` stays empty, `pd.DataFrame([])` has no columns, and the
      summary's `result_df['Year']` raises `KeyError`. */
  method CalculateIndustryExposureScores(oes: seq<OesRow>, naicsToIndustry: map<string, string>,
                                         tables: seq<map<string, real>>)
    returns (results: Result<seq<IndustryScore>>)
    requires forall i :: 0 <= i < |oes| ==> oes[i].employment > 0.0
    ensures results.Crash? <==> ToIndustryRows(oes, naicsToIndustry) == []
    ensures results.Ok? ==> results.value == ExposureScores(oes, naicsToIndustry, tables) && results.value != []
  {
    var rows := ToIndustryRows(oes, naicsToIndustry);
    ToIndustryRowsPositive(oes, naicsToIndustry);
    var scored := ScoreGroups(rows, tables);
    if scored == [] {
      NoGroupsNoRows(rows);
      return Crash("KeyError: 'Year'");
    }
    results := Ok(scored);
  }

  /** There are no groups exactly when there are no rows. */
  lemma NoGroupsNoRows(rows: seq<IndustryRow>)
    ensures GroupKeys(rows) == [] <==> rows == []
  {
    if rows != [] {
      assert KeyOf(rows[0]) in GroupKeys(rows);
    }
  }
}
