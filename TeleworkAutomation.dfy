/** scripts/fetch_telework_automation_data.py: collapsing the Dingel–Neiman O*NET
    teleworkability table to SOC codes, the Frey–Osborne automation table, and their outer
    merge on the SOC code. The download is a parameter: `None` when it raised. */
module TeleworkAutomation {
  import opened Optional
  import opened Text
  import opened Order
  import opened RealSums
  import opened Dicts

  /** One row of the downloaded CSV: `onetsoccode`, `title` (missing cells are `None`) and
      the 0/1 `teleworkable` flag. */
  datatype OnetRow = OnetRow(onetsoccode: string, title: Option<string>, teleworkable: real)

  /** `onetsoccode.str[:7]`: the base SOC code `XX-XXXX`. */
  function SocCode(r: OnetRow): string {
    Take(r.onetsoccode, 7)
  }

  function SocCodes(rows: seq<OnetRow>): (cs: seq<string>)
    ensures |cs| == |rows| && forall i :: 0 <= i < |rows| ==> cs[i] == SocCode(rows[i])
  {
    seq(|rows|, i requires 0 <= i < |rows| => SocCode(rows[i]))
  }

  function SocKey(soc: string): seq<KeyPart> {
    [S(soc)]
  }

  /** The group keys of `groupby('SOC_Code')`: each code once, in sorted order. */
  function GroupCodes(codes: seq<string>): (r: seq<string>)
    ensures SortedBy(r, SocKey)
    ensures forall c :: c in r <==> c in codes
    ensures forall i, j :: 0 <= i < j < |r| ==> r[i] != r[j]
  {
    var d := Dedup(codes);
    var r := SortBy(d, SocKey);
    DistinctPermutation(d, r);
    assert forall c :: c in r <==> c in d by {
      forall c
        ensures c in r <==> c in d
      {
        assert c in r <==> c in multiset(r);
        assert c in d <==> c in multiset(d);
      }
    }
    r
  }

  function FlagOf(soc: string): OnetRow -> Option<real> {
    r => if SocCode(r) == soc then Some(r.teleworkable) else None
  }

  /** The flags of the O*NET rows whose SOC code is `soc`, in row order. */
  function GroupFlags(rows: seq<OnetRow>, soc: string): seq<real> {
    FilterMap(rows, FlagOf(soc))
  }

  function TitleOf(soc: string): OnetRow -> Option<string> {
    r => if SocCode(r) == soc then r.title else None
  }

  /** `'title': 'first'`: the first non-missing title of the group. */
  function FirstTitle(rows: seq<OnetRow>, soc: string): Option<string> {
    var ts := FilterMap(rows, TitleOf(soc));
    if ts == [] then None else Some(ts[0])
  }

  /** `(mean >= 0.5).astype(int)` */
  function Threshold(mean: real): (t: int)
    ensures t == 0 || t == 1
    ensures t == 1 <==> mean >= 0.5
  {
    if mean >= 0.5 then 1 else 0
  }

  /** A SOC code's teleworkability table row. */
  datatype TeleworkRow = TeleworkRow(soc: string, title: Option<string>, teleworkable: int)

  lemma {:induction false} GroupFlagsMembers(rows: seq<OnetRow>, soc: string)
    ensures forall x :: x in GroupFlags(rows, soc) <==>
              exists i :: 0 <= i < |rows| && SocCode(rows[i]) == soc && rows[i].teleworkable == x
  {
    FilterMapMembers(rows, FlagOf(soc));
  }

  lemma GroupFlagsNonEmpty(rows: seq<OnetRow>, soc: string)
    requires soc in SocCodes(rows)
    ensures GroupFlags(rows, soc) != []
  {
    var i :| 0 <= i < |rows| && SocCodes(rows)[i] == soc;
    GroupFlagsMembers(rows, soc);
    assert rows[i].teleworkable in GroupFlags(rows, soc);
  }

  /** The row of one group: its code, first title and thresholded mean flag. */
  function GroupRow(rows: seq<OnetRow>, soc: string): TeleworkRow
    requires soc in SocCodes(rows)
  {
    GroupFlagsNonEmpty(rows, soc);
    TeleworkRow(soc, FirstTitle(rows, soc), Threshold(Mean(GroupFlags(rows, soc))))
  }

  /** The `groupby('SOC_Code').agg(...)` and threshold of `fetch_dingel_neiman_teleworkability`. */
  function Aggregate(rows: seq<OnetRow>): seq<TeleworkRow> {
    var cs := GroupCodes(SocCodes(rows));
    seq(|cs|, i requires 0 <= i < |cs| => GroupRow(rows, cs[i]))
  }

  /** One row per distinct SOC code, in sorted code order, with a binary flag that is 1
      exactly when the group's mean O*NET flag is at least 0.5. */
  lemma AggregateSpec(rows: seq<OnetRow>)
    ensures forall soc :: soc in SocCodes(rows) <==> exists k :: 0 <= k < |Aggregate(rows)| && Aggregate(rows)[k].soc == soc
    ensures forall k, l :: 0 <= k < l < |Aggregate(rows)| ==> Aggregate(rows)[k].soc != Aggregate(rows)[l].soc
    ensures forall k :: 0 < k < |Aggregate(rows)| ==> KeyLe(SocKey(Aggregate(rows)[k - 1].soc), SocKey(Aggregate(rows)[k].soc))
    ensures forall k :: 0 <= k < |Aggregate(rows)| ==>
              var g := GroupFlags(rows, Aggregate(rows)[k].soc);
              g != [] && Aggregate(rows)[k].title == FirstTitle(rows, Aggregate(rows)[k].soc) &&
              (Aggregate(rows)[k].teleworkable == 0 || Aggregate(rows)[k].teleworkable == 1) &&
              (Aggregate(rows)[k].teleworkable == 1 <==> Mean(g) >= 0.5)
  {
    AggregateCodes(rows);
    AggregateRows(rows);
  }

  lemma AggregateCodes(rows: seq<OnetRow>)
    ensures forall soc :: soc in SocCodes(rows) <==> exists k :: 0 <= k < |Aggregate(rows)| && Aggregate(rows)[k].soc == soc
    ensures forall k, l :: 0 <= k < l < |Aggregate(rows)| ==> Aggregate(rows)[k].soc != Aggregate(rows)[l].soc
    ensures forall k :: 0 < k < |Aggregate(rows)| ==> KeyLe(SocKey(Aggregate(rows)[k - 1].soc), SocKey(Aggregate(rows)[k].soc))
  {
    var cs := GroupCodes(SocCodes(rows));
    var a := Aggregate(rows);
    assert forall k :: 0 <= k < |a| ==> a[k].soc == cs[k];
    forall soc | soc in SocCodes(rows)
      ensures exists k :: 0 <= k < |a| && a[k].soc == soc
    {
      var k :| 0 <= k < |cs| && cs[k] == soc;
      assert a[k].soc == soc;
    }
  }

  lemma AggregateRows(rows: seq<OnetRow>)
    ensures forall k :: 0 <= k < |Aggregate(rows)| ==>
              var g := GroupFlags(rows, Aggregate(rows)[k].soc);
              g != [] && Aggregate(rows)[k].title == FirstTitle(rows, Aggregate(rows)[k].soc) &&
              (Aggregate(rows)[k].teleworkable == 0 || Aggregate(rows)[k].teleworkable == 1) &&
              (Aggregate(rows)[k].teleworkable == 1 <==> Mean(g) >= 0.5)
  {
    var cs := GroupCodes(SocCodes(rows));
    var a := Aggregate(rows);
    forall k | 0 <= k < |a|
      ensures GroupFlags(rows, a[k].soc) != []
    {
      assert a[k] == GroupRow(rows, cs[k]);
      GroupFlagsNonEmpty(rows, cs[k]);
    }
  }

  /** A group whose O*NET rows agree keeps their verdict. */
  lemma UnanimousGroup(rows: seq<OnetRow>, soc: string)
    requires soc in SocCodes(rows)
    ensures (forall i :: 0 <= i < |rows| && SocCode(rows[i]) == soc ==> rows[i].teleworkable == 1.0) ==>
              GroupRow(rows, soc).teleworkable == 1
    ensures (forall i :: 0 <= i < |rows| && SocCode(rows[i]) == soc ==> rows[i].teleworkable == 0.0) ==>
              GroupRow(rows, soc).teleworkable == 0
  {
    var g := GroupFlags(rows, soc);
    GroupFlagsNonEmpty(rows, soc);
    GroupFlagsMembers(rows, soc);
    if forall i :: 0 <= i < |rows| && SocCode(rows[i]) == soc ==> rows[i].teleworkable == 1.0 {
      assert forall k :: 0 <= k < |g| ==> g[k] in g;
      MeanBounds(g, 1.0, 1.0);
    }
    if forall i :: 0 <= i < |rows| && SocCode(rows[i]) == soc ==> rows[i].teleworkable == 0.0 {
      assert forall k :: 0 <= k < |g| ==> g[k] in g;
      MeanBounds(g, 0.0, 0.0);
    }
  }

  /** The group's title is that of its first row with a title, and is missing only when no
      row of the group has one. */
  lemma FirstTitleSpec(rows: seq<OnetRow>, soc: string)
    ensures FirstTitle(rows, soc).None? <==>
              forall i :: 0 <= i < |rows| && SocCode(rows[i]) == soc ==> rows[i].title.None?
    ensures FirstTitle(rows, soc).Some? ==>
              exists i :: 0 <= i < |rows| && SocCode(rows[i]) == soc && rows[i].title == FirstTitle(rows, soc) &&
                          forall j :: 0 <= j < i && SocCode(rows[j]) == soc ==> rows[j].title.None?
  {
    var f := TitleOf(soc);
    var ts := FilterMap(rows, f);
    if ts == [] {
      FilterMapEmpty(rows, f);
      assert forall i :: 0 <= i < |rows| ==> f(rows[i]).None?;
    } else {
      FilterMapFirst(rows, f);
      var i :| 0 <= i < |rows| && f(rows[i]) == Some(ts[0]) && forall j :: 0 <= j < i ==> f(rows[j]).None?;
      assert SocCode(rows[i]) == soc && rows[i].title == Some(ts[0]);
    }
  }

  /** `fetch_dingel_neiman_teleworkability`: `None` when the download or parse raised. */
  function FetchTelework(download: Option<seq<OnetRow>>): (r: Option<seq<TeleworkRow>>)
    ensures r.None? <==> download.None?
    ensures r.Some? ==> r.value == Aggregate(download.value)
  {
    if download.None? then None else Some(Aggregate(download.value))
  }

  /** One row of the Frey–Osborne table. */
  datatype FreyRow = FreyRow(soc: string, probability: real)

  /** `create_frey_osborne_dataframe`: one row per item of the dict, in its order. */
  function FreyOsborne(data: seq<(string, real)>): (r: seq<FreyRow>)
    ensures |r| == |data|
    ensures forall i :: 0 <= i < |data| ==> r[i].soc == data[i].0 && r[i].probability == data[i].1
  {
    seq(|data|, i requires 0 <= i < |data| => FreyRow(data[i].0, data[i].1))
  }

  /** A row of the merged table; a score is `None` where its source lacks the code. */
  datatype Combined = Combined(soc: string, title: Option<string>, teleworkable: Option<int>,
                               automationRisk: Option<real>)

  function TelePairs(t: seq<TeleworkRow>): (p: seq<(string, TeleworkRow)>)
    ensures |p| == |t| && forall i :: 0 <= i < |t| ==> p[i] == (t[i].soc, t[i])
  {
    seq(|t|, i requires 0 <= i < |t| => (t[i].soc, t[i]))
  }

  function FreyPairs(f: seq<FreyRow>): (p: seq<(string, real)>)
    ensures |p| == |f| && forall i :: 0 <= i < |f| ==> p[i] == (f[i].soc, f[i].probability)
  {
    seq(|f|, i requires 0 <= i < |f| => (f[i].soc, f[i].probability))
  }

  function TeleSocs(t: seq<TeleworkRow>): (cs: seq<string>)
    ensures |cs| == |t| && forall i :: 0 <= i < |t| ==> cs[i] == t[i].soc
  {
    seq(|t|, i requires 0 <= i < |t| => t[i].soc)
  }

  function FreySocs(f: seq<FreyRow>): (cs: seq<string>)
    ensures |cs| == |f| && forall i :: 0 <= i < |f| ==> cs[i] == f[i].soc
  {
    seq(|f|, i requires 0 <= i < |f| => f[i].soc)
  }

  function MergedRow(tm: map<string, TeleworkRow>, fm: map<string, real>, soc: string): Combined {
    Combined(soc,
             if soc in tm then tm[soc].title else None,
             if soc in tm then Some(tm[soc].teleworkable) else None,
             Get(fm, soc))
  }

  /** `telework.merge(automation, on='SOC_Code', how='outer')` for two tables whose codes are
      unique: one row per code of either table, in sorted code order. */
  function OuterMerge(t: seq<TeleworkRow>, f: seq<FreyRow>): seq<Combined> {
    var cs := GroupCodes(TeleSocs(t) + FreySocs(f));
    var tm := LastWins(TelePairs(t));
    var fm := LastWins(FreyPairs(f));
    seq(|cs|, i requires 0 <= i < |cs| => MergedRow(tm, fm, cs[i]))
  }

  predicate UniqueTeleSocs(t: seq<TeleworkRow>) {
    forall i, j :: 0 <= i < j < |t| ==> t[i].soc != t[j].soc
  }

  predicate UniqueFreySocs(f: seq<FreyRow>) {
    forall i, j :: 0 <= i < j < |f| ==> f[i].soc != f[j].soc
  }

  /** A code's entry in the dict of the telework table is its unique row. */
  lemma TeleLookup(t: seq<TeleworkRow>, soc: string)
    requires UniqueTeleSocs(t)
    ensures soc in LastWins(TelePairs(t)) <==> soc in TeleSocs(t)
    ensures forall i :: 0 <= i < |t| && t[i].soc == soc ==> LastWins(TelePairs(t))[soc] == t[i]
  {
    var tp := TelePairs(t);
    LastWinsSpec(tp);
    if soc in TeleSocs(t) {
      var i :| 0 <= i < |t| && TeleSocs(t)[i] == soc;
      assert tp[i].0 == soc;
    }
  }

  lemma FreyLookup(f: seq<FreyRow>, soc: string)
    requires UniqueFreySocs(f)
    ensures soc in LastWins(FreyPairs(f)) <==> soc in FreySocs(f)
    ensures forall i :: 0 <= i < |f| && f[i].soc == soc ==> LastWins(FreyPairs(f))[soc] == f[i].probability
  {
    var fp := FreyPairs(f);
    LastWinsSpec(fp);
    if soc in FreySocs(f) {
      var i :| 0 <= i < |f| && FreySocs(f)[i] == soc;
      assert fp[i].0 == soc;
    }
  }

  /** The outer merge keeps every code of either table exactly once, in sorted order. */
  lemma OuterMergeCodes(t: seq<TeleworkRow>, f: seq<FreyRow>)
    ensures forall soc :: (soc in TeleSocs(t) || soc in FreySocs(f)) <==>
              exists k :: 0 <= k < |OuterMerge(t, f)| && OuterMerge(t, f)[k].soc == soc
    ensures forall k, l :: 0 <= k < l < |OuterMerge(t, f)| ==> OuterMerge(t, f)[k].soc != OuterMerge(t, f)[l].soc
    ensures forall k :: 0 < k < |OuterMerge(t, f)| ==> KeyLe(SocKey(OuterMerge(t, f)[k - 1].soc), SocKey(OuterMerge(t, f)[k].soc))
  {
    var cs := GroupCodes(TeleSocs(t) + FreySocs(f));
    var m := OuterMerge(t, f);
    assert forall k :: 0 <= k < |m| ==> m[k].soc == cs[k];
    forall soc | soc in TeleSocs(t) || soc in FreySocs(f)
      ensures exists k :: 0 <= k < |m| && m[k].soc == soc
    {
      assert soc in TeleSocs(t) + FreySocs(f);
      var k :| 0 <= k < |cs| && cs[k] == soc;
      assert m[k].soc == soc;
    }
    forall k | 0 <= k < |m|
      ensures m[k].soc in TeleSocs(t) || m[k].soc in FreySocs(f)
    {
      assert cs[k] in TeleSocs(t) + FreySocs(f);
    }
  }

  /** A score is missing exactly where its table lacks the code, and otherwise is that
      table's; a code only the automation table has gets no title. */
  lemma OuterMergeScores(t: seq<TeleworkRow>, f: seq<FreyRow>)
    requires UniqueTeleSocs(t) && UniqueFreySocs(f)
    ensures forall k, i :: 0 <= k < |OuterMerge(t, f)| && 0 <= i < |t| && t[i].soc == OuterMerge(t, f)[k].soc ==>
              OuterMerge(t, f)[k].teleworkable == Some(t[i].teleworkable) && OuterMerge(t, f)[k].title == t[i].title
    ensures forall k, i :: 0 <= k < |OuterMerge(t, f)| && 0 <= i < |f| && f[i].soc == OuterMerge(t, f)[k].soc ==>
              OuterMerge(t, f)[k].automationRisk == Some(f[i].probability)
    ensures forall k :: 0 <= k < |OuterMerge(t, f)| ==>
              (OuterMerge(t, f)[k].teleworkable.None? <==> OuterMerge(t, f)[k].soc !in TeleSocs(t)) &&
              (OuterMerge(t, f)[k].automationRisk.None? <==> OuterMerge(t, f)[k].soc !in FreySocs(f)) &&
              (OuterMerge(t, f)[k].soc !in TeleSocs(t) ==> OuterMerge(t, f)[k].title.None?)
  {
    var m := OuterMerge(t, f);
    forall k | 0 <= k < |m|
      ensures forall i :: 0 <= i < |t| && t[i].soc == m[k].soc ==> m[k].teleworkable == Some(t[i].teleworkable) && m[k].title == t[i].title
      ensures forall i :: 0 <= i < |f| && f[i].soc == m[k].soc ==> m[k].automationRisk == Some(f[i].probability)
      ensures m[k].teleworkable.None? <==> m[k].soc !in TeleSocs(t)
      ensures m[k].automationRisk.None? <==> m[k].soc !in FreySocs(f)
      ensures m[k].soc !in TeleSocs(t) ==> m[k].title.None?
    {
      TeleLookup(t, m[k].soc);
      FreyLookup(f, m[k].soc);
    }
  }

  /** `combined[...]` coverage buckets of `save_occupation_scores`. */
  predicate BothScores(c: Combined) { c.teleworkable.Some? && c.automationRisk.Some? }
  predicate TeleworkOnly(c: Combined) { c.teleworkable.Some? && c.automationRisk.None? }
  predicate AutomationOnly(c: Combined) { c.teleworkable.None? && c.automationRisk.Some? }

  /** Every merged row falls in exactly one coverage bucket: a code comes from one of the
      tables, so no row has neither score. */
  lemma CoverageBuckets(t: seq<TeleworkRow>, f: seq<FreyRow>)
    requires UniqueTeleSocs(t) && UniqueFreySocs(f)
    ensures forall k :: 0 <= k < |OuterMerge(t, f)| ==>
              var c := OuterMerge(t, f)[k];
              (BothScores(c) || TeleworkOnly(c) || AutomationOnly(c)) &&
              !(BothScores(c) && TeleworkOnly(c)) && !(BothScores(c) && AutomationOnly(c)) &&
              !(TeleworkOnly(c) && AutomationOnly(c))
  {
    OuterMergeCodes(t, f);
    OuterMergeScores(t, f);
    forall k | 0 <= k < |OuterMerge(t, f)|
      ensures OuterMerge(t, f)[k].teleworkable.Some? || OuterMerge(t, f)[k].automationRisk.Some?
    {
      var soc := OuterMerge(t, f)[k].soc;
      assert exists k' :: 0 <= k' < |OuterMerge(t, f)| && OuterMerge(t, f)[k'].soc == soc;
    }
  }

  /** `save_occupation_scores`: nothing is merged or saved unless both sources are
      available; the automation table is built from the dict's items. */
  function SaveOccupationScores(download: Option<seq<OnetRow>>, freyData: seq<(string, real)>): (r: Option<seq<Combined>>)
    ensures r.None? <==> download.None?
    ensures r.Some? ==> r.value == OuterMerge(Aggregate(download.value), FreyOsborne(freyData))
  {
    match FetchTelework(download)
    case None => None
    case Some(t) => Some(OuterMerge(t, FreyOsborne(freyData)))
  }

  /** The inputs of the merge have unique codes: the aggregated table by construction, the
      Frey–Osborne table because a dict's keys are distinct. */
  lemma SaveInputsUnique(rows: seq<OnetRow>, freyData: seq<(string, real)>)
    requires forall i, j :: 0 <= i < j < |freyData| ==> freyData[i].0 != freyData[j].0
    ensures UniqueTeleSocs(Aggregate(rows)) && UniqueFreySocs(FreyOsborne(freyData))
  {
    AggregateSpec(rows);
  }
}
