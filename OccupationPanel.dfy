/** scripts/build_occupation_panel.py: standardising the headers of one OES sheet, cleaning
    the stacked panel, and the `Post` flag. A sheet is a list of column names and rows that
    map a column name to a cell. pandas' `to_numeric(errors='coerce')`, `astype(str)` and
    `np.log` are the parameters `toNumeric`, `toText` and `ln`. */
module OccupationPanel {
  import opened Optional
  import opened Text

  datatype Cell = Int(i: int) | Num(x: real) | Text(s: string) | Empty

  type Row = map<string, Cell>

  datatype Table = Table(columns: seq<string>, rows: seq<Row>)

  function CellOf(r: Row, col: string): Cell {
    Get(r, col).GetOr(Empty)
  }

  /** `str(col).lower().strip()` */
  function HeaderKey(col: string): string {
    Strip(Lower(col))
  }

  /** The branches of the header classification, in the order they are tried: a canonical
      name and the exact keys that select it. */
  const Rules: seq<(string, seq<string>)> := [
    ("State_Code", ["area", "st", "state", "area_fips", "st_fips"]),
    ("State", ["area_name", "state_name", "area_title", "st_name"]),
    ("Industry_Code", ["naics", "i_group", "industry", "naics_code"]),
    ("Industry", ["naics_title", "industry_title", "naics_desc", "i_group_title"]),
    ("Occupation_Code", ["occ_code", "occ code", "prim_state", "o_group"]),
    ("Occupation", ["occ_title", "occ title", "occupation_title", "o_group_title"]),
    ("Employment", ["tot_emp", "total_emp", "employment", "emp", "jobs_1000"]),
    ("Annual_Mean_Wage", ["a_mean", "annual_mean", "mean_annual", "a_mean_wage"]),
    ("Hourly_Mean_Wage", ["h_mean", "hourly_mean", "mean_hourly", "h_mean_wage"])
  ]

  /** The `if`/`elif` chain: the canonical name of the first branch listing the key. */
  function FirstRule(rules: seq<(string, seq<string>)>, key: string): Option<string> {
    if rules == [] then None
    else if key in rules[0].1 then Some(rules[0].0)
    else FirstRule(rules[1..], key)
  }

  /** The first branch that lists the key decides; a key no branch lists maps to nothing. */
  lemma {:induction false} FirstRuleSpec(rules: seq<(string, seq<string>)>, key: string)
    ensures FirstRule(rules, key).None? <==> forall i :: 0 <= i < |rules| ==> key !in rules[i].1
    ensures FirstRule(rules, key).Some? ==>
              exists i :: 0 <= i < |rules| && key in rules[i].1 && rules[i].0 == FirstRule(rules, key).value &&
                          forall j :: 0 <= j < i ==> key !in rules[j].1
  {
    if rules != [] && key !in rules[0].1 {
      FirstRuleSpec(rules[1..], key);
      assert forall i :: 1 <= i < |rules| ==> rules[i] == rules[1..][i - 1];
      if FirstRule(rules, key).Some? {
        var i :| 0 <= i < |rules| - 1 && key in rules[1..][i].1 && rules[1..][i].0 == FirstRule(rules, key).value &&
                 forall j :: 0 <= j < i ==> key !in rules[1..][j].1;
        assert rules[i + 1] == rules[1..][i];
      }
    }
  }

  /** The canonical name of a raw column under the sheet's rules. */
  const ClassifyHeader: string -> Option<string> := col => FirstRule(Rules, HeaderKey(col))

  /** `col_mapping` after the loop: canonical name → raw column, a later column replacing
      an earlier one with the same canonical name. */
  function ColMapping(classify: string -> Option<string>, cols: seq<string>): map<string, string> {
    if cols == [] then map[]
    else
      var m := ColMapping(classify, cols[..|cols| - 1]);
      var col := cols[|cols| - 1];
      match classify(col)
      case Some(k) => m[k := col]
      case None => m
  }

  /** `col_mapping.keys()`: the canonical names in the order they were first assigned. */
  function KeyOrder(classify: string -> Option<string>, cols: seq<string>): seq<string> {
    if cols == [] then []
    else
      var o := KeyOrder(classify, cols[..|cols| - 1]);
      match classify(cols[|cols| - 1])
      case Some(k) => if k in o then o else o + [k]
      case None => o
  }

  /** The mapped names are those some column is classified under. */
  lemma {:induction false} ColMappingKeys(classify: string -> Option<string>, cols: seq<string>)
    ensures forall k :: k in ColMapping(classify, cols) <==> exists i :: 0 <= i < |cols| && classify(cols[i]) == Some(k)
  {
    if cols != [] {
      var n := |cols| - 1;
      ColMappingKeys(classify, cols[..n]);
      assert forall i :: 0 <= i < n ==> cols[..n][i] == cols[i];
    }
  }

  /** Each name's raw column is the LAST column classified under it. */
  lemma {:induction false} ColMappingLast(classify: string -> Option<string>, cols: seq<string>, k: string)
    requires k in ColMapping(classify, cols)
    ensures exists i :: 0 <= i < |cols| && ColMapping(classify, cols)[k] == cols[i] && classify(cols[i]) == Some(k) &&
                        forall j :: i < j < |cols| ==> classify(cols[j]) != Some(k)
  {
    var n := |cols| - 1;
    var init := cols[..n];
    ColMappingStep(classify, cols, k);
    if classify(cols[n]) != Some(k) {
      ColMappingLast(classify, init, k);
      var i :| 0 <= i < n && ColMapping(classify, init)[k] == init[i] && classify(init[i]) == Some(k) &&
               forall j :: i < j < n ==> classify(init[j]) != Some(k);
      forall j | i < j < |cols|
        ensures classify(cols[j]) != Some(k)
      {
        if j < n {
          assert init[j] == cols[j];
        }
      }
      assert init[i] == cols[i];
    }
  }

  /** The last column decides a name's entry if it is classified under it; otherwise the
      entry is that of the columns before it. */
  lemma ColMappingStep(classify: string -> Option<string>, cols: seq<string>, k: string)
    requires cols != []
    ensures var n := |cols| - 1;
      if classify(cols[n]) == Some(k) then k in ColMapping(classify, cols) && ColMapping(classify, cols)[k] == cols[n]
      else (k in ColMapping(classify, cols) <==> k in ColMapping(classify, cols[..n])) &&
           (k in ColMapping(classify, cols) ==> ColMapping(classify, cols)[k] == ColMapping(classify, cols[..n])[k])
  {
  }

  /** The key order lists exactly the mapped names, once each. */
  lemma {:induction false} KeyOrderSpec(classify: string -> Option<string>, cols: seq<string>)
    ensures forall k :: k in KeyOrder(classify, cols) <==> k in ColMapping(classify, cols)
    ensures forall a, b :: 0 <= a < b < |KeyOrder(classify, cols)| ==> KeyOrder(classify, cols)[a] != KeyOrder(classify, cols)[b]
  {
    if cols != [] {
      KeyOrderSpec(classify, cols[..|cols| - 1]);
    }
  }

  /** The loop of `parse_oes_dataframe` that fills `col_mapping`. */
  method BuildColMapping(classify: string -> Option<string>, cols: seq<string>) returns (mapping: map<string, string>, order: seq<string>)
    ensures mapping == ColMapping(classify, cols) && order == KeyOrder(classify, cols)
  {
    mapping, order := map[], [];
    var i := 0;
    while i < |cols|
      invariant 0 <= i <= |cols|
      invariant mapping == ColMapping(classify, cols[..i]) && order == KeyOrder(classify, cols[..i])
    {
      assert cols[..i + 1][..i] == cols[..i];
      var canonical := classify(cols[i]);
      if canonical.Some? {
        var k := canonical.value;
        mapping := mapping[k := cols[i]];
        if k !in order {
          order := order + [k];
        }
      }
      i := i + 1;
    }
    assert cols[..i] == cols;
  }

  /** A row of the standardised sheet: each canonical name takes the cell of its raw column. */
  function Renamed(r: Row, mapping: map<string, string>, keep: seq<string>): Row {
    map k | k in keep :: if k in mapping then CellOf(r, mapping[k]) else CellOf(r, k)
  }

  /** The standardisation of `parse_oes_dataframe` under a list of rules. With no mapped
      column the sheet comes back whole with `Year` set; otherwise it keeps the mapped
      canonical columns, in key order, and `Year`. */
  function ParseWith(classify: string -> Option<string>, t: Table, year: int): Table {
    var mapping := ColMapping(classify, t.columns);
    if mapping == map[] then
      Table(if "Year" in t.columns then t.columns else t.columns + ["Year"],
            seq(|t.rows|, i requires 0 <= i < |t.rows| => t.rows[i]["Year" := Int(year)]))
    else
      var keep := KeyOrder(classify, t.columns) + ["Year"];
      Table(keep, seq(|t.rows|, i requires 0 <= i < |t.rows| => Renamed(t.rows[i], mapping, keep)))
  }

  /** `parse_oes_dataframe` */
  function ParseOesDataframe(t: Table, year: int): Table {
    ParseWith(ClassifyHeader, t, year)
  }

  /** Row count is kept; with nothing mapped every row is the raw row with `Year` set;
      otherwise the columns are exactly the mapped names and `Year`, and each row holds the
      raw row's cell of the column mapped to each name and its own `Year`. */
  lemma ParseWithSpec(classify: string -> Option<string>, t: Table, year: int)
    requires forall c :: classify(c) != Some("Year")
    ensures |ParseWith(classify, t, year).rows| == |t.rows|
    ensures ColMapping(classify, t.columns) == map[] ==>
              forall i :: 0 <= i < |t.rows| ==> ParseWith(classify, t, year).rows[i] == t.rows[i]["Year" := Int(year)]
    ensures ColMapping(classify, t.columns) != map[] ==>
              var out := ParseWith(classify, t, year);
              (forall c :: c in out.columns <==> c in ColMapping(classify, t.columns) || c == "Year") &&
              (forall i, c :: 0 <= i < |t.rows| && c in ColMapping(classify, t.columns) ==>
                 c in out.rows[i] && out.rows[i][c] == CellOf(t.rows[i], ColMapping(classify, t.columns)[c])) &&
              (forall i :: 0 <= i < |t.rows| ==> "Year" in out.rows[i] && out.rows[i]["Year"] == CellOf(t.rows[i], "Year"))
  {
    if ColMapping(classify, t.columns) != map[] {
      ParseWithMapped(classify, t, year);
    }
  }

  lemma ParseWithMapped(classify: string -> Option<string>, t: Table, year: int)
    requires forall c :: classify(c) != Some("Year")
    requires ColMapping(classify, t.columns) != map[]
    ensures var out := ParseWith(classify, t, year);
            var mapping := ColMapping(classify, t.columns);
            (forall c :: c in out.columns <==> c in mapping || c == "Year") &&
            (forall i, c :: 0 <= i < |t.rows| && c in mapping ==>
               c in out.rows[i] && out.rows[i][c] == CellOf(t.rows[i], mapping[c])) &&
            (forall i :: 0 <= i < |t.rows| ==> "Year" in out.rows[i] && out.rows[i]["Year"] == CellOf(t.rows[i], "Year"))
  {
    var mapping := ColMapping(classify, t.columns);
    var keep := KeyOrder(classify, t.columns) + ["Year"];
    var out := ParseWith(classify, t, year);
    YearUnmapped(classify, t.columns);
    KeyOrderSpec(classify, t.columns);
    assert out.columns == keep;
    forall i | 0 <= i < |t.rows|
      ensures (forall c :: c in mapping ==> c in out.rows[i] && out.rows[i][c] == CellOf(t.rows[i], mapping[c])) &&
              "Year" in out.rows[i] && out.rows[i]["Year"] == CellOf(t.rows[i], "Year")
    {
      assert out.rows[i] == Renamed(t.rows[i], mapping, keep);
      RenamedCells(t.rows[i], mapping, keep);
    }
  }

  /** A renamed row holds, under each mapped name, the cell of its raw column, and under a
      kept name that is not mapped, its own cell. */
  lemma RenamedCells(r: Row, mapping: map<string, string>, keep: seq<string>)
    requires forall c :: c in mapping ==> c in keep
    requires "Year" in keep && "Year" !in mapping
    ensures forall c :: c in mapping ==> c in Renamed(r, mapping, keep) && Renamed(r, mapping, keep)[c] == CellOf(r, mapping[c])
    ensures "Year" in Renamed(r, mapping, keep) && Renamed(r, mapping, keep)["Year"] == CellOf(r, "Year")
  {
  }

  lemma YearUnmapped(classify: string -> Option<string>, cols: seq<string>)
    requires forall c :: classify(c) != Some("Year")
    ensures "Year" !in ColMapping(classify, cols)
  {
    ColMappingKeys(classify, cols);
  }

  lemma NeverYear(key: string)
    ensures FirstRule(Rules, key) != Some("Year")
  {
    FirstRuleSpec(Rules, key);
    assert forall i :: 0 <= i < |Rules| ==> Rules[i].0 != "Year";
  }

  /** The sheet's own rules never produce `Year`, so the standardisation keeps it. */
  lemma ParseOesSpec(t: Table, year: int)
    ensures |ParseOesDataframe(t, year).rows| == |t.rows|
    ensures ColMapping(ClassifyHeader, t.columns) == map[] ==>
              forall i :: 0 <= i < |t.rows| ==> ParseOesDataframe(t, year).rows[i] == t.rows[i]["Year" := Int(year)]
    ensures ColMapping(ClassifyHeader, t.columns) != map[] ==>
              forall i :: 0 <= i < |t.rows| ==>
                "Year" in ParseOesDataframe(t, year).rows[i] && ParseOesDataframe(t, year).rows[i]["Year"] == CellOf(t.rows[i], "Year")
  {
    forall c
      ensures ClassifyHeader(c) != Some("Year")
    {
      NeverYear(HeaderKey(c));
    }
    ParseWithSpec(ClassifyHeader, t, year);
  }

  /** `Post = (Year >= 2023).astype(int)`. `Year` is always the integer the parse sets; the
      other cells are given 0 only so that the function is total. */
  const PostTreatmentYear: int := 2023

  function PostFlag(year: Cell): (p: int)
    ensures p == 0 || p == 1
    ensures year.Int? ==> (p == 1 <==> year.i >= PostTreatmentYear)
  {
    match year
    case Int(y) => if y >= PostTreatmentYear then 1 else 0
    case Num(x) => if x >= PostTreatmentYear as real then 1 else 0
    case _ => 0
  }

  /** The employment step: rows whose coerced employment is missing or not positive are
      dropped, and the survivors hold the coerced number. */
  function EmploymentStep(toNumeric: Cell -> Option<real>): Row -> Option<Row> {
    r => var e := toNumeric(CellOf(r, "Employment"));
         if e.Some? && e.value > 0.0 then Some(r["Employment" := Num(e.value)]) else None
  }

  /** The aggregate step: rows whose occupation code, as text, ends in "0000" are dropped. */
  function AggregateStep(toText: Cell -> string): Row -> Option<Row> {
    r => if EndsWith(toText(CellOf(r, "Occupation_Code")), "0000") then None else Some(r)
  }

  /** The rows left after the two filters of `clean_and_filter_panel`. */
  function FilteredRows(t: Table, toNumeric: Cell -> Option<real>, toText: Cell -> string): seq<Row> {
    var afterEmp := if "Employment" in t.columns then FilterMap(t.rows, EmploymentStep(toNumeric)) else t.rows;
    if "Occupation_Code" in t.columns then FilterMap(afterEmp, AggregateStep(toText)) else afterEmp
  }

  function WithLog(r: Row, ln: real -> real): Row {
    r["LogEmployment" := match CellOf(r, "Employment") case Num(x) => Num(ln(x)) case _ => Empty]
  }

  /** `clean_and_filter_panel`. Each filter runs only when its column exists; the log of
      employment is taken unconditionally, so a panel without `Employment` raises. */
  function CleanAndFilterPanel(t: Table, toNumeric: Cell -> Option<real>, toText: Cell -> string,
                               ln: real -> real): Result<Table>
  {
    var afterOcc := FilteredRows(t, toNumeric, toText);
    if "Employment" !in t.columns then Crash("KeyError: 'Employment'")
    else
      Ok(Table(if "LogEmployment" in t.columns then t.columns else t.columns + ["LogEmployment"],
               seq(|afterOcc|, i requires 0 <= i < |afterOcc| => WithLog(afterOcc[i], ln))))
  }

  /** The rows that survive both filters, as one step. */
  function Keep(toNumeric: Cell -> Option<real>, toText: Cell -> string, hasOcc: bool): Row -> Option<Row> {
    r => var e := EmploymentStep(toNumeric)(r);
         if e.None? then None else if hasOcc then AggregateStep(toText)(e.value) else e
  }

  /** Row `i` has employment that coerces to a positive number and, when the panel has
      occupation codes, a code that is not an aggregate. */
  predicate Survives(t: Table, toNumeric: Cell -> Option<real>, toText: Cell -> string, i: nat)
    requires i < |t.rows|
  {
    var e := toNumeric(CellOf(t.rows[i], "Employment"));
    e.Some? && e.value > 0.0 &&
    ("Occupation_Code" in t.columns ==> !EndsWith(toText(CellOf(t.rows[i], "Occupation_Code")), "0000"))
  }

  /** `r` is row `i` of the panel as cleaning leaves it: a survivor, holding its coerced
      employment and the log of it. */
  predicate CleanedFrom(t: Table, toNumeric: Cell -> Option<real>, toText: Cell -> string, ln: real -> real,
                        i: nat, r: Row)
    requires i < |t.rows|
  {
    Survives(t, toNumeric, toText, i) &&
    var e := toNumeric(CellOf(t.rows[i], "Employment")).value;
    r == t.rows[i]["Employment" := Num(e)]["LogEmployment" := Num(ln(e))]
  }

  /** The combined step keeps exactly the surviving rows, with their coerced employment. */
  lemma KeepSpec(t: Table, toNumeric: Cell -> Option<real>, toText: Cell -> string, i: nat)
    requires i < |t.rows|
    ensures var kept := Keep(toNumeric, toText, "Occupation_Code" in t.columns)(t.rows[i]);
            (kept.Some? <==> Survives(t, toNumeric, toText, i)) &&
            (kept.Some? ==> kept.value == t.rows[i]["Employment" := Num(toNumeric(CellOf(t.rows[i], "Employment")).value)])
  {
    var row := t.rows[i];
    var e := toNumeric(CellOf(row, "Employment"));
    var step := EmploymentStep(toNumeric)(row);
    assert step == if e.Some? && e.value > 0.0 then Some(row["Employment" := Num(e.value)]) else None;
    if step.Some? {
      var r := step.value;
      assert CellOf(r, "Occupation_Code") == CellOf(row, "Occupation_Code");
      assert AggregateStep(toText)(r) == if EndsWith(toText(CellOf(r, "Occupation_Code")), "0000") then None else Some(r);
    }
  }

  /** Cleaning fails exactly when there is no `Employment` column. Otherwise it only removes
      rows, keeping the survivors in order, and keeps every row whose employment coerces to
      a positive number and (when the column exists) whose code is not an aggregate; each
      survivor holds its coerced employment and the log of it. */
  lemma CleanAndFilterSpec(t: Table, toNumeric: Cell -> Option<real>, toText: Cell -> string, ln: real -> real)
      returns (idx: seq<nat>)
    ensures CleanAndFilterPanel(t, toNumeric, toText, ln).Crash? <==> "Employment" !in t.columns
    ensures CleanAndFilterPanel(t, toNumeric, toText, ln).Ok? ==>
              var out := CleanAndFilterPanel(t, toNumeric, toText, ln).value.rows;
              |idx| == |out| &&
              (forall k, l :: 0 <= k < l < |idx| ==> idx[k] < idx[l]) &&
              (forall k :: 0 <= k < |idx| ==> idx[k] < |t.rows| && CleanedFrom(t, toNumeric, toText, ln, idx[k], out[k])) &&
              (forall i :: 0 <= i < |t.rows| && Survives(t, toNumeric, toText, i) ==> i in idx)
  {
    if "Employment" in t.columns {
      var keep := Keep(toNumeric, toText, "Occupation_Code" in t.columns);
      var rows := FilteredRows(t, toNumeric, toText);
      var out := CleanAndFilterPanel(t, toNumeric, toText, ln).value.rows;
      FilteredAsOneStep(t, toNumeric, toText);
      idx := FilterMapIndices(t.rows, keep);
      assert |out| == |rows| && forall k :: 0 <= k < |rows| ==> out[k] == WithLog(rows[k], ln);
      forall k | 0 <= k < |idx|
        ensures CleanedFrom(t, toNumeric, toText, ln, idx[k], out[k])
      {
        KeepSpec(t, toNumeric, toText, idx[k]);
      }
      forall i | 0 <= i < |t.rows| && Survives(t, toNumeric, toText, i)
        ensures i in idx
      {
        KeepSpec(t, toNumeric, toText, i);
      }
    } else {
      idx := [];
    }
  }

  /** With an `Employment` column the two filters are one step that keeps a row, with its
      coerced employment, when both would. */
  lemma FilteredAsOneStep(t: Table, toNumeric: Cell -> Option<real>, toText: Cell -> string)
    requires "Employment" in t.columns
    ensures FilteredRows(t, toNumeric, toText) == FilterMap(t.rows, Keep(toNumeric, toText, "Occupation_Code" in t.columns))
  {
    var keep := Keep(toNumeric, toText, "Occupation_Code" in t.columns);
    if "Occupation_Code" in t.columns {
      FilterMapThen(t.rows, EmploymentStep(toNumeric), AggregateStep(toText), keep);
    } else {
      assert forall x :: EmploymentStep(toNumeric)(x) == keep(x);
      FilterMapSame(t.rows, EmploymentStep(toNumeric), keep);
    }
  }

  /** Two pointwise-equal steps keep the same rows. */
  lemma {:induction false} FilterMapSame<T, U>(s: seq<T>, f: T -> Option<U>, g: T -> Option<U>)
    requires forall x :: f(x) == g(x)
    ensures FilterMap(s, f) == FilterMap(s, g)
  {
    if s != [] {
      FilterMapSame(s[..|s| - 1], f, g);
    }
  }

  /** `add_treatment_variables`: every row gets `Post`, 1 exactly for years from 2023 on. */
  function AddTreatmentVariables(t: Table): (r: Table)
    ensures |r.rows| == |t.rows|
    ensures forall i :: 0 <= i < |t.rows| ==> r.rows[i] == t.rows[i]["Post" := Int(PostFlag(CellOf(t.rows[i], "Year")))]
  {
    Table(if "Post" in t.columns then t.columns else t.columns + ["Post"],
          seq(|t.rows|, i requires 0 <= i < |t.rows| => t.rows[i]["Post" := Int(PostFlag(CellOf(t.rows[i], "Year")))]))
  }
}
