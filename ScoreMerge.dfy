/** scripts/merge_occupation_scores.py: telework and pre-AI automation scores are attached to
    the occupation panel, by 7-character SOC code for 2015–2017 and by occupation title for
    2018 on (directly, or through a table of title aliases), and the two parts are stacked and
    sorted by (Year, Occupation). The alias table is a parameter. */
module ScoreMerge {
  import opened Optional
  import opened Text
  import opened Order
  import opened Dicts

  /** The two scores of one record, each `None` where the source had none. */
  datatype Scores = Scores(teleworkable: Option<real>, automationRisk: Option<real>)

  /** What an unmatched row gets: both scores missing, never 0. */
  const NoScores: Scores := Scores(None, None)

  /** A row of the score table: SOC code, title (`None` for codes only the automation source
      has) and scores. */
  datatype ScoreRow = ScoreRow(soc: string, title: Option<string>, scores: Scores)

  /** A row of the occupation panel; the occupation code and the title may be missing. */
  datatype PanelRow = PanelRow(code: Option<string>, occupation: Option<string>, year: int, scores: Scores)

  /** `normalize_occupation_name`: a missing name is "", any other name is lowercased and
      stripped. */
  function NormalizeName(name: Option<string>): string {
    if name.None? then "" else Strip(Lower(name.value))
  }

  /** A normalised name has no upper-case letter and no whitespace at either end, and
      normalising it again changes nothing. */
  lemma NormalizeNameIdempotent(name: Option<string>)
    ensures NoUpper(NormalizeName(name))
    ensures NormalizeName(name) == [] ||
            (!IsSpace(NormalizeName(name)[0]) && !IsSpace(NormalizeName(name)[|NormalizeName(name)| - 1]))
    ensures NormalizeName(Some(NormalizeName(name))) == NormalizeName(name)
  {
    var n := NormalizeName(name);
    if name.Some? {
      StrippedLowerNoUpper(name.value);
      StrippedEnds(Lower(name.value));
    }
    NormalizedFixed(n);
  }

  lemma StrippedEnds(s: string)
    ensures Strip(s) == [] || (!IsSpace(Strip(s)[0]) && !IsSpace(Strip(s)[|Strip(s)| - 1]))
  {
  }

  lemma NormalizedFixed(n: string)
    requires NoUpper(n)
    requires n == [] || (!IsSpace(n[0]) && !IsSpace(n[|n| - 1]))
    ensures NormalizeName(Some(n)) == n
  {
    LowerOfNoUpper(n);
    StripOfStripped(n);
  }

  lemma StrippedLowerNoUpper(s: string)
    ensures NoUpper(Strip(Lower(s)))
  {
    var l := Lower(s);
    assert NoUpper(l);
    NoUpperSlice(l, StripOffset(l), StripOffset(l) + |Strip(l)|);
  }

  /** The key `create_reverse_mapping` files an alias under. */
  function AliasKey(title: string): string {
    NormalizeName(Some(title))
  }

  /** All assignments `reverse[alias] = canonical` in table order. */
  function AliasPairs(mappings: seq<(string, seq<string>)>): seq<(string, string)> {
    KeyedPairs(mappings, AliasKey)
  }

  /** The dict `create_reverse_mapping` returns. */
  function ReverseMap(mappings: seq<(string, seq<string>)>): map<string, string> {
    LastWins(AliasPairs(mappings))
  }

  /** Every normalised alias maps to a canonical name it is listed under, and nothing else is
      a key. */
  lemma ReverseMapDomain(mappings: seq<(string, seq<string>)>)
    ensures forall alias :: alias in ReverseMap(mappings) <==>
              exists i, j :: 0 <= i < |mappings| && 0 <= j < |mappings[i].1| &&
                             AliasKey(mappings[i].1[j]) == alias
    ensures forall alias :: alias in ReverseMap(mappings) ==>
              exists i, j :: 0 <= i < |mappings| && 0 <= j < |mappings[i].1| &&
                             AliasKey(mappings[i].1[j]) == alias && ReverseMap(mappings)[alias] == mappings[i].0
  {
    ReverseMapSound(mappings);
    ReverseMapComplete(mappings);
  }

  lemma ReverseMapSound(mappings: seq<(string, seq<string>)>)
    ensures forall alias :: alias in ReverseMap(mappings) ==>
              exists i, j :: 0 <= i < |mappings| && 0 <= j < |mappings[i].1| &&
                             AliasKey(mappings[i].1[j]) == alias && ReverseMap(mappings)[alias] == mappings[i].0
  {
    var p := AliasPairs(mappings);
    var m := ReverseMap(mappings);
    LastWinsSpec(p);
    forall alias | alias in m
      ensures exists i, j :: 0 <= i < |mappings| && 0 <= j < |mappings[i].1| &&
                             AliasKey(mappings[i].1[j]) == alias && m[alias] == mappings[i].0
    {
      assert (alias, m[alias]) in p;
      KeyedPairsSound(mappings, AliasKey, (alias, m[alias]));
    }
  }

  lemma ReverseMapComplete(mappings: seq<(string, seq<string>)>)
    ensures forall i, j :: 0 <= i < |mappings| && 0 <= j < |mappings[i].1| ==>
              AliasKey(mappings[i].1[j]) in ReverseMap(mappings)
  {
    var p := AliasPairs(mappings);
    LastWinsSpec(p);
    forall i, j | 0 <= i < |mappings| && 0 <= j < |mappings[i].1|
      ensures AliasKey(mappings[i].1[j]) in ReverseMap(mappings)
    {
      KeyedPairsComplete(mappings, AliasKey, i, j);
      var k :| 0 <= k < |p| && p[k] == (AliasKey(mappings[i].1[j]), mappings[i].0);
    }
  }

  /** An alias listed again further down the table maps to the later canonical name. */
  lemma ReverseMapLaterWins(earlier: seq<(string, seq<string>)>, later: seq<(string, seq<string>)>, alias: string)
    requires alias in ReverseMap(later)
    ensures alias in ReverseMap(earlier + later)
    ensures ReverseMap(earlier + later)[alias] == ReverseMap(later)[alias]
  {
    KeyedPairsConcat(earlier, later, AliasKey);
    LastWinsConcat(AliasPairs(earlier), AliasPairs(later));
  }

  /** The inner loop of `create_reverse_mapping`: the titles of one canonical name are
      assigned to it one by one. */
  method AssignTitles(start: map<string, string>, entry: (string, seq<string>)) returns (reverse: map<string, string>)
    ensures reverse == start + LastWins(KeyedPairsOf(entry, AliasKey))
  {
    var pairs := KeyedPairsOf(entry, AliasKey);
    reverse := start;
    var j := 0;
    while j < |entry.1|
      invariant 0 <= j <= |entry.1|
      invariant reverse == start + LastWins(pairs[..j])
    {
      var normalized := NormalizeName(Some(entry.1[j]));
      AssignStep(start, entry, j);
      reverse := reverse[normalized := entry.0];
      j := j + 1;
    }
    UnionPrefixAll(start, pairs);
  }

  lemma AssignStep(start: map<string, string>, entry: (string, seq<string>), j: nat)
    requires j < |entry.1|
    ensures start + LastWins(KeyedPairsOf(entry, AliasKey)[..j + 1]) ==
            (start + LastWins(KeyedPairsOf(entry, AliasKey)[..j]))[NormalizeName(Some(entry.1[j])) := entry.0]
  {
    var pairs := KeyedPairsOf(entry, AliasKey);
    assert pairs[j] == (AliasKey(entry.1[j]), entry.0);
    UnionPrefixStep(start, pairs, j);
  }

  /** `create_reverse_mapping`: the nested loop over the alias table. */
  method CreateReverseMapping(mappings: seq<(string, seq<string>)>) returns (reverse: map<string, string>)
    ensures reverse == ReverseMap(mappings)
  {
    reverse := map[];
    var i := 0;
    while i < |mappings|
      invariant 0 <= i <= |mappings|
      invariant reverse == LastWins(AliasPairs(mappings[..i]))
    {
      reverse := AssignTitles(reverse, mappings[i]);
      LastWinsConcat(AliasPairs(mappings[..i]), KeyedPairsOf(mappings[i], AliasKey));
      KeyedPairsStep(mappings, i, AliasKey);
      i := i + 1;
    }
    assert mappings[..i] == mappings;
  }

  /** The (SOC code, scores) assignments of the score table, in row order. */
  function SocPairs(rows: seq<ScoreRow>): (p: seq<(string, Scores)>)
    ensures |p| == |rows|
    ensures forall i :: 0 <= i < |rows| ==> p[i] == (rows[i].soc, rows[i].scores)
  {
    seq(|rows|, i requires 0 <= i < |rows| => (rows[i].soc, rows[i].scores))
  }

  /** The (normalised title, scores) assignments of the score table, in row order. */
  function TitlePairs(rows: seq<ScoreRow>): (p: seq<(string, Scores)>)
    ensures |p| == |rows|
    ensures forall i :: 0 <= i < |rows| ==> p[i] == (NormalizeName(rows[i].title), rows[i].scores)
  {
    seq(|rows|, i requires 0 <= i < |rows| => (NormalizeName(rows[i].title), rows[i].scores))
  }

  /** The `scores_dict` loop of `match_on_soc_code`. */
  method ScoresBySoc(rows: seq<ScoreRow>) returns (d: map<string, Scores>)
    ensures d == LastWins(SocPairs(rows))
  {
    var pairs := SocPairs(rows);
    d := map[];
    var i := 0;
    while i < |rows|
      invariant 0 <= i <= |rows|
      invariant d == LastWins(pairs[..i])
    {
      assert pairs[i] == (rows[i].soc, rows[i].scores);
      LastWinsPrefixStep(pairs, i);
      d := d[rows[i].soc := rows[i].scores];
      i := i + 1;
    }
    assert pairs[..i] == pairs;
  }

  /** The `scores_by_title` loop of `match_on_occupation_name`. */
  method ScoresByTitle(rows: seq<ScoreRow>) returns (d: map<string, Scores>)
    ensures d == LastWins(TitlePairs(rows))
  {
    var pairs := TitlePairs(rows);
    d := map[];
    var i := 0;
    while i < |rows|
      invariant 0 <= i <= |rows|
      invariant d == LastWins(pairs[..i])
    {
      var title := NormalizeName(rows[i].title);
      assert pairs[i] == (title, rows[i].scores);
      LastWinsPrefixStep(pairs, i);
      d := d[title := rows[i].scores];
      i := i + 1;
    }
    assert pairs[..i] == pairs;
  }

  /** `match_on_soc_code` for one row: the scores of the score record of the first seven
      characters of the code, both missing when there is none. A missing code stays missing
      under `.str[:7]`, and `scores_dict.get` of it finds no record (every record has a code),
      so such a row gets both scores missing as well. */
  function SocMatch(row: PanelRow, bySoc: map<string, Scores>): (r: PanelRow)
    ensures r.code == row.code && r.occupation == row.occupation && r.year == row.year
    ensures row.code.None? ==> r.scores == NoScores
    ensures row.code.Some? && Take(row.code.value, 7) in bySoc ==> r.scores == bySoc[Take(row.code.value, 7)]
    ensures row.code.Some? && Take(row.code.value, 7) !in bySoc ==> r.scores == NoScores
  {
    match row.code
    case None => row.(scores := NoScores)
    case Some(c) => row.(scores := Get(bySoc, Take(c, 7)).GetOr(NoScores))
  }

  /** `get_scores`: a direct hit on the normalised title wins; otherwise the alias route, which
      needs the alias in the reverse table and the lowercased canonical name among the titles;
      otherwise both scores are missing. Either way both scores come from one score record. */
  function GetScores(occupation: Option<string>, byTitle: map<string, Scores>, reverse: map<string, string>)
    : (r: Scores)
    ensures NormalizeName(occupation) in byTitle ==> r == byTitle[NormalizeName(occupation)]
    ensures NormalizeName(occupation) !in byTitle ==>
              if NormalizeName(occupation) in reverse && Lower(reverse[NormalizeName(occupation)]) in byTitle
              then r == byTitle[Lower(reverse[NormalizeName(occupation)])]
              else r == NoScores
    ensures r == NoScores || exists t :: t in byTitle && r == byTitle[t]
  {
    var n := NormalizeName(occupation);
    if n in byTitle then byTitle[n]
    else if n in reverse && Lower(reverse[n]) in byTitle then byTitle[Lower(reverse[n])]
    else NoScores
  }

  function NameMatch(row: PanelRow, byTitle: map<string, Scores>, reverse: map<string, string>): PanelRow {
    row.(scores := GetScores(row.occupation, byTitle, reverse))
  }

  /** A row whose title is missing normalises to "" and so takes the scores of the last score
      record without a title, when there is one. */
  lemma MissingNameMatchesUntitled(rows: seq<ScoreRow>, reverse: map<string, string>, k: nat)
    requires k < |rows| && rows[k].title.None?
    requires forall j :: k < j < |rows| ==> NormalizeName(rows[j].title) != ""
    ensures GetScores(None, LastWins(TitlePairs(rows)), reverse) == rows[k].scores
  {
    var p := TitlePairs(rows);
    LastWinsSpec(p);
    assert p[k] == ("", rows[k].scores);
    assert forall j :: k < j < |p| ==> p[j].0 != p[k].0;
  }

  /** `panel_df[panel_df['Year'].isin([2015, 2016, 2017])]` */
  function CodeYears(rows: seq<PanelRow>): (r: seq<PanelRow>)
    ensures |r| <= |rows|
    ensures forall x :: x in r <==> x in rows && 2015 <= x.year <= 2017
  {
    if rows == [] then []
    else CodeYears(rows[..|rows| - 1]) + (if 2015 <= rows[|rows| - 1].year <= 2017 then [rows[|rows| - 1]] else [])
  }

  /** `panel_df[panel_df['Year'] >= 2018]` */
  function NameYears(rows: seq<PanelRow>): (r: seq<PanelRow>)
    ensures |r| <= |rows|
    ensures forall x :: x in r <==> x in rows && x.year >= 2018
  {
    if rows == [] then []
    else NameYears(rows[..|rows| - 1]) + (if rows[|rows| - 1].year >= 2018 then [rows[|rows| - 1]] else [])
  }

  /** The sort key `['Year', 'Occupation']`; a missing title sorts last within its year. */
  function YearOccupationKey(r: PanelRow): seq<KeyPart> {
    [I(r.year), if r.occupation.Some? then S(r.occupation.value) else Missing]
  }

  /** The 2015–2017 rows matched by code followed by the later rows matched by name. */
  function Stacked(panel: seq<PanelRow>, scoreRows: seq<ScoreRow>, mappings: seq<(string, seq<string>)>)
    : seq<PanelRow>
  {
    StackMatches(panel, LastWins(SocPairs(scoreRows)), LastWins(TitlePairs(scoreRows)), ReverseMap(mappings))
  }

  /** The split and the two matches, given the three lookup tables. */
  function StackMatches(panel: seq<PanelRow>, bySoc: map<string, Scores>, byTitle: map<string, Scores>,
                        reverse: map<string, string>): seq<PanelRow>
  {
    var early := CodeYears(panel);
    var late := NameYears(panel);
    seq(|early|, i requires 0 <= i < |early| => SocMatch(early[i], bySoc)) +
    seq(|late|, i requires 0 <= i < |late| => NameMatch(late[i], byTitle, reverse))
  }

  /** The split and the two matches: every stacked row is a panel row of 2015 or later,
      carrying the code match if it is from 2015–2017 and the name match if it is from 2018
      on; rows before 2015 are dropped, and every panel row from 2015 on is kept. */
  lemma StackedRouting(panel: seq<PanelRow>, scoreRows: seq<ScoreRow>, mappings: seq<(string, seq<string>)>)
    ensures |Stacked(panel, scoreRows, mappings)| == |CodeYears(panel)| + |NameYears(panel)|
    ensures forall r :: r in Stacked(panel, scoreRows, mappings) ==> r.year >= 2015
    ensures forall r :: r in Stacked(panel, scoreRows, mappings) && r.year <= 2017 ==>
              exists x :: x in panel && r == SocMatch(x, LastWins(SocPairs(scoreRows)))
    ensures forall r :: r in Stacked(panel, scoreRows, mappings) && r.year >= 2018 ==>
              exists x :: x in panel && r == NameMatch(x, LastWins(TitlePairs(scoreRows)), ReverseMap(mappings))
    ensures forall x :: x in panel && x.year >= 2015 ==>
              exists r :: r in Stacked(panel, scoreRows, mappings) &&
                          r.code == x.code && r.occupation == x.occupation && r.year == x.year
  {
    var bySoc := LastWins(SocPairs(scoreRows));
    var byTitle := LastWins(TitlePairs(scoreRows));
    var reverse := ReverseMap(mappings);
    StackSound(panel, bySoc, byTitle, reverse);
    StackComplete(panel, bySoc, byTitle, reverse);
  }

  /** Every stacked row is the code match (2015–2017) or the name match (2018 on) of a
      panel row. */
  lemma StackSound(panel: seq<PanelRow>, bySoc: map<string, Scores>, byTitle: map<string, Scores>,
                   reverse: map<string, string>)
    ensures |StackMatches(panel, bySoc, byTitle, reverse)| == |CodeYears(panel)| + |NameYears(panel)|
    ensures forall r :: r in StackMatches(panel, bySoc, byTitle, reverse) ==>
              r.year >= 2015 &&
              (r.year <= 2017 ==> exists x :: x in panel && r == SocMatch(x, bySoc)) &&
              (r.year >= 2018 ==> exists x :: x in panel && r == NameMatch(x, byTitle, reverse))
  {
    var early := CodeYears(panel);
    var late := NameYears(panel);
    var a := seq(|early|, i requires 0 <= i < |early| => SocMatch(early[i], bySoc));
    var b := seq(|late|, i requires 0 <= i < |late| => NameMatch(late[i], byTitle, reverse));
    assert StackMatches(panel, bySoc, byTitle, reverse) == a + b;
    CodeMatchesSound(panel, bySoc, a);
    NameMatchesSound(panel, byTitle, reverse, b);
  }

  lemma CodeMatchesSound(panel: seq<PanelRow>, bySoc: map<string, Scores>, a: seq<PanelRow>)
    requires a == seq(|CodeYears(panel)|, i requires 0 <= i < |CodeYears(panel)| => SocMatch(CodeYears(panel)[i], bySoc))
    ensures forall r :: r in a ==> 2015 <= r.year <= 2017 && exists x :: x in panel && r == SocMatch(x, bySoc)
  {
    var early := CodeYears(panel);
    forall r | r in a
      ensures 2015 <= r.year <= 2017 && exists x :: x in panel && r == SocMatch(x, bySoc)
    {
      var i :| 0 <= i < |early| && r == a[i];
      assert early[i] in early;
    }
  }

  lemma NameMatchesSound(panel: seq<PanelRow>, byTitle: map<string, Scores>, reverse: map<string, string>,
                         b: seq<PanelRow>)
    requires b == seq(|NameYears(panel)|, i requires 0 <= i < |NameYears(panel)| =>
                        NameMatch(NameYears(panel)[i], byTitle, reverse))
    ensures forall r :: r in b ==> r.year >= 2018 && exists x :: x in panel && r == NameMatch(x, byTitle, reverse)
  {
    var late := NameYears(panel);
    forall r | r in b
      ensures r.year >= 2018 && exists x :: x in panel && r == NameMatch(x, byTitle, reverse)
    {
      var i :| 0 <= i < |late| && r == b[i];
      assert late[i] in late;
    }
  }

  /** Every panel row from 2015 on reaches the stacked table with its code, title and year. */
  lemma StackComplete(panel: seq<PanelRow>, bySoc: map<string, Scores>, byTitle: map<string, Scores>,
                      reverse: map<string, string>)
    ensures forall x :: x in panel && x.year >= 2015 ==>
              exists r :: r in StackMatches(panel, bySoc, byTitle, reverse) &&
                          r.code == x.code && r.occupation == x.occupation && r.year == x.year
  {
    var early := CodeYears(panel);
    var late := NameYears(panel);
    var a := seq(|early|, i requires 0 <= i < |early| => SocMatch(early[i], bySoc));
    var b := seq(|late|, i requires 0 <= i < |late| => NameMatch(late[i], byTitle, reverse));
    var st := StackMatches(panel, bySoc, byTitle, reverse);
    assert st == a + b;
    forall x | x in panel && x.year >= 2015
      ensures exists r :: r in st && r.code == x.code && r.occupation == x.occupation && r.year == x.year
    {
      if x.year <= 2017 {
        assert x in early;
        var i :| 0 <= i < |early| && early[i] == x;
        assert a[i] in st;
      } else {
        assert x in late;
        var i :| 0 <= i < |late| && late[i] == x;
        assert b[i] in st;
      }
    }
  }

  /** The panel `main` saves: the stacked rows sorted by (Year, Occupation). With no row
      from 2018 on, `apply` over the empty name-matching part yields an empty Series and
      `scores['Teleworkable']` raises `KeyError`, so nothing is saved. */
  function MergedPanel(panel: seq<PanelRow>, scoreRows: seq<ScoreRow>, mappings: seq<(string, seq<string>)>)
    : (r: Result<seq<PanelRow>>)
    ensures r.Crash? <==> NameYears(panel) == []
    ensures r.Ok? ==> SortedBy(r.value, YearOccupationKey)
    ensures r.Ok? ==> multiset(r.value) == multiset(Stacked(panel, scoreRows, mappings))
  {
    if NameYears(panel) == [] then Crash("KeyError: 'Teleworkable'")
    else Ok(SortBy(Stacked(panel, scoreRows, mappings), YearOccupationKey))
  }

  /** `main` on loaded tables: build the reverse table and the two score dicts, split the
      panel by year, match each part, stack them and sort. */
  method MergeOccupationScores(panel: seq<PanelRow>, scoreRows: seq<ScoreRow>, mappings: seq<(string, seq<string>)>)
    returns (finalPanel: Result<seq<PanelRow>>)
    ensures finalPanel == MergedPanel(panel, scoreRows, mappings)
    ensures finalPanel.Crash? <==> NameYears(panel) == []
    ensures finalPanel.Ok? ==> SortedBy(finalPanel.value, YearOccupationKey)
    ensures finalPanel.Ok? ==> |finalPanel.value| == |CodeYears(panel)| + |NameYears(panel)|
  {
    var reverse := CreateReverseMapping(mappings);
    var early := CodeYears(panel);
    var late := NameYears(panel);
    var bySoc := ScoresBySoc(scoreRows);
    var merged1517 := seq(|early|, i requires 0 <= i < |early| => SocMatch(early[i], bySoc));
    if late == [] {
      return Crash("KeyError: 'Teleworkable'");
    }
    var byTitle := ScoresByTitle(scoreRows);
    var merged1824 := seq(|late|, i requires 0 <= i < |late| => NameMatch(late[i], byTitle, reverse));
    assert merged1517 + merged1824 == StackMatches(panel, bySoc, byTitle, reverse);
    finalPanel := Ok(SortBy(merged1517 + merged1824, YearOccupationKey));
  }
}
