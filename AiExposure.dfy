/** scripts/update_ai_exposure_scores.py: ILO ISCO-08 exposure scores are carried to SOC codes
    through the ISCO–SOC crosswalk (a SOC score is the mean over its scored crosswalk rows),
    then attached to the occupation panel, first by the 7-character SOC code and then, for the
    rows still missing a score, by occupation name. The ILO score table is a parameter. */
module AiExposure {
  import opened Optional
  import opened Text
  import opened Order
  import opened RealSums
  import opened Dicts

  /** A crosswalk row as read: the ISCO code as text (`astype(str)`) and the SOC code, `None`
      where the cell is empty. */
  datatype RawCrosswalkRow = RawCrosswalkRow(isco: string, soc: Option<string>)
  datatype CrosswalkRow = CrosswalkRow(isco: string, soc: Option<string>)

  /** `load_crosswalk`: SOC codes are stripped and ISCO codes left-padded with '0' to four
      characters. */
  function NormalizeCrosswalkRow(r: RawCrosswalkRow): (c: CrosswalkRow)
    ensures |c.isco| == if |r.isco| < 4 then 4 else |r.isco|
    ensures |r.isco| >= 4 ==> c.isco == r.isco
    ensures r.soc.None? <==> c.soc.None?
    ensures c.soc.Some? ==> c.soc.value == Strip(r.soc.value)
  {
    CrosswalkRow(ZFill(r.isco, 4), if r.soc.Some? then Some(Strip(r.soc.value)) else None)
  }

  function LoadCrosswalk(raw: seq<RawCrosswalkRow>): (rows: seq<CrosswalkRow>)
    ensures |rows| == |raw|
    ensures forall i :: 0 <= i < |raw| ==> rows[i] == NormalizeCrosswalkRow(raw[i])
  {
    seq(|raw|, i requires 0 <= i < |raw| => NormalizeCrosswalkRow(raw[i]))
  }

  /** Loading is idempotent: a normalised crosswalk normalises to itself. */
  lemma LoadCrosswalkIdempotent(raw: seq<RawCrosswalkRow>)
    ensures var once := LoadCrosswalk(raw);
            LoadCrosswalk(seq(|once|, i requires 0 <= i < |once| => RawCrosswalkRow(once[i].isco, once[i].soc))) == once
  {
    forall i | 0 <= i < |raw| && raw[i].soc.Some?
      ensures Strip(Strip(raw[i].soc.value)) == Strip(raw[i].soc.value)
    {
      StripIdempotent(raw[i].soc.value);
    }
  }

  /** The ILO scores of the rows of one SOC code whose ISCO code is in the table, in row order. */
  function ScoresFor(rows: seq<CrosswalkRow>, ilo: map<string, real>, soc: string): (s: seq<real>)
    ensures forall x :: x in s ==> x in ilo.Values
  {
    if rows == [] then []
    else (if rows[0].soc == Some(soc) && rows[0].isco in ilo then [ilo[rows[0].isco]] else [])
         + ScoresFor(rows[1..], ilo, soc)
  }

  predicate Contributes(r: CrosswalkRow, ilo: map<string, real>, soc: string) {
    r.soc == Some(soc) && r.isco in ilo
  }

  lemma {:induction false} ScoresForConcat(a: seq<CrosswalkRow>, b: seq<CrosswalkRow>, ilo: map<string, real>, soc: string)
    ensures ScoresFor(a + b, ilo, soc) == ScoresFor(a, ilo, soc) + ScoresFor(b, ilo, soc)
  {
    if a == [] {
      assert a + b == b;
    } else {
      assert (a + b)[1..] == a[1..] + b;
      ScoresForConcat(a[1..], b, ilo, soc);
    }
  }

  /** The scores are exactly those of the contributing rows. */
  lemma {:induction false} ScoresForMembers(rows: seq<CrosswalkRow>, ilo: map<string, real>, soc: string)
    ensures ScoresFor(rows, ilo, soc) != [] <==> exists i :: 0 <= i < |rows| && Contributes(rows[i], ilo, soc)
    ensures forall x :: x in ScoresFor(rows, ilo, soc) ==>
              exists i :: 0 <= i < |rows| && Contributes(rows[i], ilo, soc) && ilo[rows[i].isco] == x
  {
    if rows != [] {
      ScoresForMembers(rows[1..], ilo, soc);
      forall i | 1 <= i < |rows| && Contributes(rows[i], ilo, soc)
        ensures ScoresFor(rows[1..], ilo, soc) != []
      {
        assert Contributes(rows[1..][i - 1], ilo, soc);
      }
      forall x | x in ScoresFor(rows[1..], ilo, soc)
        ensures exists i :: 0 <= i < |rows| && Contributes(rows[i], ilo, soc) && ilo[rows[i].isco] == x
      {
        var k :| 0 <= k < |rows[1..]| && Contributes(rows[1..][k], ilo, soc) && ilo[rows[1..][k].isco] == x;
        assert rows[k + 1] == rows[1..][k];
      }
    }
  }

  /** Reordering the crosswalk reorders the scores of each SOC code and nothing more. */
  lemma {:induction false} ScoresForPermutation(a: seq<CrosswalkRow>, b: seq<CrosswalkRow>, ilo: map<string, real>, soc: string)
    requires multiset(a) == multiset(b)
    ensures multiset(ScoresFor(a, ilo, soc)) == multiset(ScoresFor(b, ilo, soc))
    decreases |a|
  {
    if a != [] {
      assert a[0] in multiset(b);
      var j :| 0 <= j < |b| && b[j] == a[0];
      var rest := b[..j] + b[j + 1..];
      RemoveAt(b, j);
      assert a == [a[0]] + a[1..];
      assert multiset(a[1..]) == multiset(a) - multiset{a[0]};
      ScoresForPermutation(a[1..], rest, ilo, soc);
      ScoresForRemoveAt(b, j, ilo, soc);
      ScoresForConcat([a[0]], a[1..], ilo, soc);
    }
  }

  /** Taking one row out of the crosswalk takes its scores out of the list. */
  lemma ScoresForRemoveAt(b: seq<CrosswalkRow>, j: nat, ilo: map<string, real>, soc: string)
    requires j < |b|
    ensures multiset(ScoresFor(b, ilo, soc)) ==
              multiset(ScoresFor([b[j]], ilo, soc)) + multiset(ScoresFor(b[..j] + b[j + 1..], ilo, soc))
  {
    assert b == b[..j] + [b[j]] + b[j + 1..];
    ScoresForConcat(b[..j] + [b[j]], b[j + 1..], ilo, soc);
    ScoresForConcat(b[..j], [b[j]], ilo, soc);
    ScoresForConcat(b[..j], b[j + 1..], ilo, soc);
  }

  /** The SOC codes named anywhere in the crosswalk. */
  function SocCodes(rows: seq<CrosswalkRow>): set<string> {
    set i | 0 <= i < |rows| && rows[i].soc.Some? :: rows[i].soc.value
  }

  /** `create_soc_exposure_mapping`: group by SOC code, take the mean of the ILO scores of
      the group (unscored rows are skipped by the mean), and drop codes without any score. */
  function SocScores(rows: seq<CrosswalkRow>, ilo: map<string, real>): map<string, real> {
    map soc | soc in SocCodes(rows) && ScoresFor(rows, ilo, soc) != [] :: Mean(ScoresFor(rows, ilo, soc))
  }

  /** A SOC code has a score exactly when one of its crosswalk rows has a scored ISCO code;
      a code without one is absent, never 0. */
  lemma SocScoresDomain(rows: seq<CrosswalkRow>, ilo: map<string, real>, soc: string)
    ensures soc in SocScores(rows, ilo) <==> exists i :: 0 <= i < |rows| && Contributes(rows[i], ilo, soc)
  {
    ScoresForMembers(rows, ilo, soc);
    if exists i :: 0 <= i < |rows| && Contributes(rows[i], ilo, soc) {
      var i :| 0 <= i < |rows| && Contributes(rows[i], ilo, soc);
      assert soc in SocCodes(rows);
    }
  }

  /** A SOC score lies within any bounds of the ILO scores that contribute to it, hence
      between their minimum and maximum. */
  lemma SocScoreBounds(rows: seq<CrosswalkRow>, ilo: map<string, real>, soc: string, lo: real, hi: real)
    requires soc in SocScores(rows, ilo)
    requires forall i :: 0 <= i < |rows| && Contributes(rows[i], ilo, soc) ==> lo <= ilo[rows[i].isco] <= hi
    ensures lo <= SocScores(rows, ilo)[soc] <= hi
  {
    var s := ScoresFor(rows, ilo, soc);
    ScoresForMembers(rows, ilo, soc);
    forall k | 0 <= k < |s|
      ensures lo <= s[k] <= hi
    {
      assert s[k] in s;
    }
    MeanBounds(s, lo, hi);
  }

  /** The SOC scores do not depend on the order of the crosswalk rows. */
  lemma SocScoresOrderFree(a: seq<CrosswalkRow>, b: seq<CrosswalkRow>, ilo: map<string, real>)
    requires multiset(a) == multiset(b)
    ensures SocScores(a, ilo) == SocScores(b, ilo)
  {
    forall soc
      ensures soc in SocScores(a, ilo) <==> soc in SocScores(b, ilo)
      ensures soc in SocScores(a, ilo) ==> SocScores(a, ilo)[soc] == SocScores(b, ilo)[soc]
    {
      ScoresForPermutation(a, b, ilo, soc);
      var sa, sb := ScoresFor(a, ilo, soc), ScoresFor(b, ilo, soc);
      assert |sa| == |multiset(sa)| == |multiset(sb)| == |sb|;
      forall x | x in multiset(a)
        ensures x in multiset(b)
      {
      }
      forall i | 0 <= i < |a| && a[i].soc.Some?
        ensures a[i].soc.value in SocCodes(b)
      {
        assert a[i] in multiset(b);
        var j :| 0 <= j < |b| && b[j] == a[i];
      }
      forall i | 0 <= i < |b| && b[i].soc.Some?
        ensures b[i].soc.value in SocCodes(a)
      {
        assert b[i] in multiset(a);
        var j :| 0 <= j < |a| && a[j] == b[i];
      }
      assert SocCodes(a) == SocCodes(b);
      if sa != [] {
        MeanPermutation(sa, sb);
      }
    }
  }

  /** A row of the occupation panel: the code (`'11-1021.00'` style or a plain SOC code), the
      title, the year and the score, `None` where missing. */
  datatype PanelRow = PanelRow(code: Option<string>, occupation: Option<string>, year: int, score: Option<real>)

  /** The number of rows with a score (`notna().sum()`). */
  function CountScored(rows: seq<PanelRow>): (n: nat)
    ensures n <= |rows|
  {
    if rows == [] then 0
    else CountScored(rows[..|rows| - 1]) + (if rows[|rows| - 1].score.Some? then 1 else 0)
  }

  /** `df['SOC_Base'].map(score_dict)` for one row: the score of the first seven characters of
      the code; a missing code stays missing, since the SOC table has no missing key. */
  function CodeScore(code: Option<string>, socScores: map<string, real>): (r: Option<real>)
    ensures r.Some? <==> code.Some? && Take(code.value, 7) in socScores
    ensures r.Some? ==> r.value == socScores[Take(code.value, 7)]
  {
    if code.Some? then Get(socScores, Take(code.value, 7)) else None
  }

  /** Step 1: every row's score is replaced by the score of the first seven characters of
      its code, or `None` when the code is missing or that prefix has no score. */
  function CodeMatched(rows: seq<PanelRow>, socScores: map<string, real>): (r: seq<PanelRow>)
    ensures |r| == |rows|
    ensures forall i :: 0 <= i < |rows| ==>
              r[i] == rows[i].(score := CodeScore(rows[i].code, socScores))
  {
    seq(|rows|, i requires 0 <= i < |rows| => rows[i].(score := CodeScore(rows[i].code, socScores)))
  }

  /** The (name, score) pairs of the scored rows, in row order. */
  function ScoredPairs(rows: seq<PanelRow>): (p: seq<(Option<string>, real)>)
    ensures forall x :: x in p <==> exists i :: 0 <= i < |rows| && rows[i].score.Some? &&
                                        x == (rows[i].occupation, rows[i].score.value)
  {
    if rows == [] then []
    else
      var last := rows[|rows| - 1];
      var init := ScoredPairs(rows[..|rows| - 1]);
      assert forall i :: 0 <= i < |rows| - 1 ==> rows[..|rows| - 1][i] == rows[i];
      init + (if last.score.Some? then [(last.occupation, last.score.value)] else [])
  }

  /** Step 2: the name → score dictionary of the code-matched rows, built from their distinct
      (name, score) pairs (`drop_duplicates`) put into a dict in order (`to_dict`); where a
      name carries several scores, the pair that first appears latest wins. A missing name is
      the key `None`, which step 3's `map` matches again for rows whose name is missing, as
      pandas matches NaN to NaN. */
  function NameDict(matched: seq<PanelRow>): map<Option<string>, real> {
    LastWins(Dedup(ScoredPairs(matched)))
  }

  /** The dictionary holds exactly the names of the scored rows, each with one of that name's
      scores; a name with a single score keeps that score. */
  lemma NameDictSound(matched: seq<PanelRow>)
    ensures forall i :: 0 <= i < |matched| && matched[i].score.Some? ==> matched[i].occupation in NameDict(matched)
    ensures forall name :: name in NameDict(matched) ==>
              exists i :: 0 <= i < |matched| && matched[i].score == Some(NameDict(matched)[name]) &&
                          matched[i].occupation == name
    ensures forall i :: 0 <= i < |matched| && matched[i].score.Some? &&
                        (forall j :: 0 <= j < |matched| && matched[j].occupation == matched[i].occupation ==>
                                       matched[j].score == matched[i].score) ==>
              NameDict(matched)[matched[i].occupation] == matched[i].score.value
  {
    var p := ScoredPairs(matched);
    var d := Dedup(p);
    LastWinsSpec(d);
    forall i | 0 <= i < |matched| && matched[i].score.Some?
      ensures matched[i].occupation in NameDict(matched)
    {
      assert (matched[i].occupation, matched[i].score.value) in d;
    }
    forall name | name in NameDict(matched)
      ensures exists i :: 0 <= i < |matched| && matched[i].score == Some(NameDict(matched)[name]) &&
                          matched[i].occupation == name
    {
      assert (name, NameDict(matched)[name]) in p;
    }
  }

  /** Where a name carries several scores, the dictionary keeps the (name, score) pair whose
      first appearance comes latest: every pair of that name appears no later than any
      occurrence of the kept one. */
  lemma NameDictPrecedence(matched: seq<PanelRow>)
    ensures forall name, k, j ::
              name in NameDict(matched) && 0 <= k < |ScoredPairs(matched)| && 0 <= j < |ScoredPairs(matched)| &&
              ScoredPairs(matched)[k] == (name, NameDict(matched)[name]) && ScoredPairs(matched)[j].0 == name
              ==> ScoredPairs(matched)[j] in ScoredPairs(matched)[..k + 1]
  {
    var p := ScoredPairs(matched);
    forall name, k, j | name in NameDict(matched) && 0 <= k < |p| && 0 <= j < |p| &&
                        p[k] == (name, NameDict(matched)[name]) && p[j].0 == name
      ensures p[j] in p[..k + 1]
    {
      LatestFirstAppearanceWins(p, name, k, j);
    }
  }

  /** `to_dict` after `drop_duplicates`, for one pair of the winning key. */
  lemma LatestFirstAppearanceWins<K(!new), V(!new)>(p: seq<(K, V)>, name: K, k: nat, j: nat)
    requires name in LastWins(Dedup(p)) && k < |p| && j < |p|
    requires p[k] == (name, LastWins(Dedup(p))[name]) && p[j].0 == name
    ensures p[j] in p[..k + 1]
  {
    DedupOrder(p);
    KeptPairLatest(p, Dedup(p), name, k, j);
  }

  /** The same, given the two facts about `Dedup` it rests on. */
  lemma KeptPairLatest<K(!new), V(!new)>(p: seq<(K, V)>, d: seq<(K, V)>, name: K, k: nat, j: nat)
    requires forall x :: x in d <==> x in p
    requires forall a, b, m :: 0 <= a < b < |d| && 0 <= m < |p| && p[m] == d[b] ==> d[a] in p[..m]
    requires name in LastWins(d) && k < |p| && j < |p|
    requires p[k] == (name, LastWins(d)[name]) && p[j].0 == name
    ensures p[j] in p[..k + 1]
  {
    var i := LastWinsLast(d, name);
    assert p[j] in p;
    var i' :| 0 <= i' < |d| && d[i'] == p[j];
    if i' == i {
      assert p[..k + 1][k] == p[j];
    } else {
      assert i' < i && p[k] == d[i];
      var m :| 0 <= m < k && p[..k][m] == d[i'];
      assert p[..k + 1][m] == p[j];
    }
  }

  /** Step 3: rows still missing a score take the score of their name, if any. */
  function NameFilled(rows: seq<PanelRow>, names: map<Option<string>, real>): (r: seq<PanelRow>)
    ensures |r| == |rows|
    ensures forall i :: 0 <= i < |rows| && rows[i].score.Some? ==> r[i] == rows[i]
    ensures forall i :: 0 <= i < |rows| && rows[i].score.None? ==>
              r[i].score == Get(names, rows[i].occupation) &&
              r[i].code == rows[i].code && r[i].occupation == rows[i].occupation && r[i].year == rows[i].year
  {
    seq(|rows|, i requires 0 <= i < |rows| =>
      if rows[i].score.None? then rows[i].(score := Get(names, rows[i].occupation)) else rows[i])
  }

  /** The panel `update_occupation_panel` saves. The name fallback never overwrites a code
      match and only fills rows still missing; a row stays missing exactly when neither its
      code prefix nor its name has a score. Codes, names and years are unchanged. */
  function UpdatedPanel(rows: seq<PanelRow>, socScores: map<string, real>): (out: seq<PanelRow>)
    ensures |out| == |rows|
    ensures forall i :: 0 <= i < |rows| ==>
              out[i].code == rows[i].code && out[i].occupation == rows[i].occupation && out[i].year == rows[i].year
    ensures forall i :: 0 <= i < |rows| && rows[i].code.Some? && Take(rows[i].code.value, 7) in socScores ==>
              out[i].score == Some(socScores[Take(rows[i].code.value, 7)])
    ensures forall i :: 0 <= i < |rows| && (rows[i].code.None? || Take(rows[i].code.value, 7) !in socScores) ==>
              out[i].score == Get(NameDict(CodeMatched(rows, socScores)), rows[i].occupation)
  {
    var matched := CodeMatched(rows, socScores);
    NameFilled(matched, NameDict(matched))
  }

  /** A row the name fallback fills carries a score some code-matched row of the same name has. */
  lemma NameFillFromMatchedRow(rows: seq<PanelRow>, socScores: map<string, real>, i: nat)
    requires i < |rows| && (rows[i].code.None? || Take(rows[i].code.value, 7) !in socScores)
    requires UpdatedPanel(rows, socScores)[i].score.Some?
    ensures exists j :: 0 <= j < |rows| && rows[j].code.Some? && Take(rows[j].code.value, 7) in socScores &&
                        rows[j].occupation == rows[i].occupation &&
                        UpdatedPanel(rows, socScores)[i].score == Some(socScores[Take(rows[j].code.value, 7)])
  {
    var matched := CodeMatched(rows, socScores);
    NameDictSound(matched);
    var j :| 0 <= j < |matched| && matched[j].score == Some(NameDict(matched)[rows[i].occupation]) &&
             matched[j].occupation == rows[i].occupation;
  }

  lemma {:induction false} CountScoredStep(rows: seq<PanelRow>, i: nat)
    requires i < |rows|
    ensures CountScored(rows[..i + 1]) == CountScored(rows[..i]) + (if rows[i].score.Some? then 1 else 0)
  {
    assert rows[..i + 1][..i] == rows[..i];
  }

  /** Filling never loses a score: the count of scored rows can only grow. */
  lemma {:induction false} FillAddsScores(rows: seq<PanelRow>, names: map<Option<string>, real>)
    ensures CountScored(NameFilled(rows, names)) >= CountScored(rows)
  {
    if rows != [] {
      var n := |rows|;
      var f := NameFilled(rows, names);
      assert f[..n - 1] == NameFilled(rows[..n - 1], names);
      FillAddsScores(rows[..n - 1], names);
    }
  }

  /** Step 1 of `update_occupation_panel`: the code match, with the number of rows matched. */
  method MatchOnCode(rows: seq<PanelRow>, socScores: map<string, real>)
    returns (matched: seq<PanelRow>, matchedSoc: nat)
    ensures matched == CodeMatched(rows, socScores)
    ensures matchedSoc == CountScored(matched)
  {
    matched := [];
    matchedSoc := 0;
    var i := 0;
    while i < |rows|
      invariant 0 <= i <= |rows|
      invariant matched == CodeMatched(rows, socScores)[..i]
      invariant matchedSoc == CountScored(matched)
    {
      var row := rows[i].(score := CodeScore(rows[i].code, socScores));
      CountScoredStep(matched + [row], i);
      assert (matched + [row])[..i] == matched;
      matched := matched + [row];
      if row.score.Some? {
        matchedSoc := matchedSoc + 1;
      }
      i := i + 1;
    }
  }

  /** Step 3 of `update_occupation_panel`: the name fill of the rows still missing, with the
      number of scored rows afterwards. */
  method FillByName(matched: seq<PanelRow>, names: map<Option<string>, real>)
    returns (out: seq<PanelRow>, totalMatched: nat)
    ensures out == NameFilled(matched, names)
    ensures totalMatched == CountScored(out)
  {
    out := [];
    totalMatched := 0;
    var i := 0;
    while i < |matched|
      invariant 0 <= i <= |matched|
      invariant out == NameFilled(matched, names)[..i]
      invariant totalMatched == CountScored(out)
    {
      var row := if matched[i].score.None? then matched[i].(score := Get(names, matched[i].occupation)) else matched[i];
      ghost var full := NameFilled(matched, names);
      assert row == full[i];
      PrefixSnoc(full, i);
      CountScoredStep(full, i);
      out := out + [row];
      if row.score.Some? {
        totalMatched := totalMatched + 1;
      }
      i := i + 1;
    }
    PrefixAll(NameFilled(matched, names));
  }

  /** `update_occupation_panel` on a loaded panel: step 1 rewrites every score by code and
      counts the matches, step 2 builds the name dictionary, step 3 fills the rows still
      missing, and the coverage counts are taken on the result. */
  method UpdateOccupationPanel(rows: seq<PanelRow>, socScores: map<string, real>)
    returns (out: seq<PanelRow>, matchedSoc: nat, matchedByName: nat, totalMatched: nat, totalUnmatched: nat)
    ensures out == UpdatedPanel(rows, socScores)
    ensures |out| == |rows|
    ensures matchedSoc == CountScored(CodeMatched(rows, socScores))
    ensures totalMatched == CountScored(out)
    ensures matchedByName == totalMatched - matchedSoc
    ensures totalMatched + totalUnmatched == |rows|
  {
    var matched;
    matched, matchedSoc := MatchOnCode(rows, socScores);
    var names := NameDict(matched);
    out, totalMatched := FillByName(matched, names);
    FillAddsScores(matched, names);
    matchedByName := totalMatched - matchedSoc;
    totalUnmatched := |out| - totalMatched;
  }
}
