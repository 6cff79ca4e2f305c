/** scripts/archive/generate_occupation_weighted_scores.py: industry scores from fixed
    occupation-composition tables. For each industry and each score table,
    `sum(shares.get(occ, 0) * table.get(occ, 0) for occ in table.keys())`. The composition and
    score tables are parameters; a Python dict is its list of (key, value) items, in order,
    with distinct keys. */
module CompositionScores {

  /** The items of a dict from occupation group to a share or a score. */
  type Dict = seq<(string, real)>

  predicate DistinctKeys(d: Dict) {
    forall i, j :: 0 <= i < j < |d| ==> d[i].0 != d[j].0
  }

  predicate HasKey(d: Dict, k: string) {
    exists i :: 0 <= i < |d| && d[i].0 == k
  }

  /** `d.get(k, 0)` */
  function GetOrZero(d: Dict, k: string): real {
    if d == [] then 0.0
    else if d[0].0 == k then d[0].1
    else GetOrZero(d[1..], k)
  }

  /** `get` returns the value of the first item with the key, and 0 when there is none. */
  lemma {:induction false} GetOrZeroSpec(d: Dict, k: string)
    ensures !HasKey(d, k) ==> GetOrZero(d, k) == 0.0
    ensures HasKey(d, k) ==> exists i :: 0 <= i < |d| && d[i].0 == k && GetOrZero(d, k) == d[i].1 &&
                                         forall j :: 0 <= j < i ==> d[j].0 != k
  {
    if d != [] {
      GetOrZeroSpec(d[1..], k);
      if d[0].0 != k {
        if HasKey(d, k) {
          var i :| 0 <= i < |d| && d[i].0 == k;
          assert d[1..][i - 1].0 == k;
          var i' :| 0 <= i' < |d| - 1 && d[1..][i'].0 == k && GetOrZero(d[1..], k) == d[1..][i'].1 &&
                    forall j :: 0 <= j < i' ==> d[1..][j].0 != k;
          assert forall j :: 1 <= j < i' + 1 ==> d[j] == d[1..][j - 1];
          assert d[i' + 1] == d[1..][i'];
        } else {
          assert !HasKey(d[1..], k) by {
            forall i | 0 <= i < |d| - 1
              ensures d[1..][i].0 != k
            {
              assert d[1..][i] == d[i + 1];
            }
          }
        }
      }
    }
  }

  /** The generator sum over the listed occupation groups. */
  function WeightedOver(shares: Dict, table: Dict, occs: seq<string>): real {
    if occs == [] then 0.0
    else GetOrZero(shares, occs[0]) * GetOrZero(table, occs[0]) + WeightedOver(shares, table, occs[1..])
  }

  function Keys(d: Dict): (ks: seq<string>)
    ensures |ks| == |d| && forall i :: 0 <= i < |d| ==> ks[i] == d[i].0
  {
    seq(|d|, i requires 0 <= i < |d| => d[i].0)
  }

  /** One measure of one industry: over the keys of the score table, share (0 when the
      industry has none) times score. */
  function WeightedScore(shares: Dict, table: Dict): real {
    WeightedOver(shares, table, Keys(table))
  }

  /** A composition entry the score table does not list is ignored. */
  lemma {:induction false} ExtraShareIgnored(shares: Dict, table: Dict, occs: seq<string>, occ: string, share: real)
    requires !HasKey(shares, occ)
    requires forall i :: 0 <= i < |occs| ==> occs[i] != occ
    ensures WeightedOver(shares + [(occ, share)], table, occs) == WeightedOver(shares, table, occs)
  {
    if occs != [] {
      GetOrZeroAppend(shares, occ, share, occs[0]);
      ExtraShareIgnored(shares, table, occs[1..], occ, share);
    }
  }

  lemma {:induction false} GetOrZeroAppend(d: Dict, k: string, v: real, x: string)
    requires !HasKey(d, k)
    ensures GetOrZero(d + [(k, v)], x) == if x == k then v else GetOrZero(d, x)
  {
    if d == [] {
    } else {
      assert (d + [(k, v)])[1..] == d[1..] + [(k, v)];
      if d[0].0 != x {
        assert !HasKey(d[1..], k) by {
          forall i | 0 <= i < |d[1..]|
            ensures d[1..][i].0 != k
          {
            assert d[1..][i] == d[i + 1];
          }
        }
        GetOrZeroAppend(d[1..], k, v, x);
      } else {
        assert d[0].0 != k;
      }
    }
  }

  /** An occupation group the industry's composition lacks contributes 0. */
  lemma AbsentOccupationContributesZero(shares: Dict, table: Dict, occ: string, occs: seq<string>)
    requires !HasKey(shares, occ)
    ensures WeightedOver(shares, table, [occ] + occs) == WeightedOver(shares, table, occs)
  {
    GetOrZeroSpec(shares, occ);
    assert ([occ] + occs)[1..] == occs;
  }

  /** How many times `occ` is listed. */
  function Count(occs: seq<string>, occ: string): nat {
    if occs == [] then 0 else (if occs[0] == occ then 1 else 0) + Count(occs[1..], occ)
  }

  /** The score of `occ` once for every time the listed groups name it. */
  function Hits(table: Dict, occs: seq<string>, occ: string): real {
    if occs == [] then 0.0
    else (if occs[0] == occ then GetOrZero(table, occ) else 0.0) + Hits(table, occs[1..], occ)
  }

  /** Adding one composition entry adds its share times its score, once per listing. */
  lemma {:induction false} WeightedOverAppend(shares: Dict, table: Dict, occs: seq<string>, occ: string, share: real)
    requires !HasKey(shares, occ)
    ensures WeightedOver(shares + [(occ, share)], table, occs) ==
            WeightedOver(shares, table, occs) + share * Hits(table, occs, occ)
  {
    if occs != [] {
      var o := occs[0];
      var ext := shares + [(occ, share)];
      GetOrZeroAppend(shares, occ, share, o);
      WeightedOverAppend(shares, table, occs[1..], occ, share);
      var g := GetOrZero(table, o);
      var rest := Hits(table, occs[1..], occ);
      assert WeightedOver(ext, table, occs) == GetOrZero(ext, o) * g + WeightedOver(ext, table, occs[1..]);
      assert WeightedOver(shares, table, occs) == GetOrZero(shares, o) * g + WeightedOver(shares, table, occs[1..]);
      if o == occ {
        GetOrZeroSpec(shares, o);
        assert Hits(table, occs, occ) == g + rest;
        AppendedStep(GetOrZero(shares, o), g, share, rest);
      } else {
        assert Hits(table, occs, occ) == rest;
      }
    }
  }

  /** The arithmetic of one listed group that is the added entry's. */
  lemma AppendedStep(old0: real, g: real, share: real, rest: real)
    requires old0 == 0.0
    ensures share * g + share * rest == old0 * g + share * (g + rest)
  {
    MulAdd(share, g, rest);
  }

  lemma MulAdd(a: real, x: real, y: real)
    ensures a * (x + y) == a * x + a * y
  {
  }

  lemma {:induction false} HitsBounds(table: Dict, occs: seq<string>, occ: string)
    requires Count(occs, occ) <= 1
    requires 0.0 <= GetOrZero(table, occ) <= 1.0
    ensures 0.0 <= Hits(table, occs, occ) <= 1.0
  {
    if occs != [] {
      if occs[0] == occ {
        HitsAbsent(table, occs[1..], occ);
      } else {
        HitsBounds(table, occs[1..], occ);
      }
    }
  }

  lemma {:induction false} HitsAbsent(table: Dict, occs: seq<string>, occ: string)
    requires Count(occs, occ) == 0
    ensures Hits(table, occs, occ) == 0.0
  {
    if occs != [] {
      HitsAbsent(table, occs[1..], occ);
    }
  }

  lemma {:induction false} DistinctCount(d: Dict, occ: string)
    requires DistinctKeys(d)
    ensures Count(Keys(d), occ) <= 1
  {
    if d != [] {
      assert Keys(d)[1..] == Keys(d[1..]);
      DistinctCount(d[1..], occ);
      if d[0].0 == occ {
        AbsentCount(d[1..], occ);
      }
    }
  }

  lemma {:induction false} AbsentCount(d: Dict, occ: string)
    requires forall i :: 0 <= i < |d| ==> d[i].0 != occ
    ensures Count(Keys(d), occ) == 0
  {
    if d != [] {
      assert Keys(d)[1..] == Keys(d[1..]);
      AbsentCount(d[1..], occ);
    }
  }

  function SumShares(shares: Dict): real {
    if shares == [] then 0.0 else SumShares(shares[..|shares| - 1]) + shares[|shares| - 1].1
  }

  /** No renormalisation: with non-negative shares and scores in `[0, 1]`, a measure lies
      between 0 and the sum of the industry's shares. */
  lemma {:induction false} WeightedScoreBounds(shares: Dict, table: Dict)
    requires DistinctKeys(shares) && DistinctKeys(table)
    requires forall i :: 0 <= i < |shares| ==> shares[i].1 >= 0.0
    requires forall i :: 0 <= i < |table| ==> 0.0 <= table[i].1 <= 1.0
    ensures 0.0 <= WeightedScore(shares, table) <= SumShares(shares)
  {
    if shares == [] {
      EmptySharesZero(table, Keys(table));
    } else {
      var n := |shares| - 1;
      var init := shares[..n];
      var (occ, share) := shares[n];
      assert !HasKey(init, occ) by {
        forall i | 0 <= i < n
          ensures init[i].0 != occ
        {
          assert init[i] == shares[i];
        }
      }
      assert shares == init + [(occ, share)];
      assert forall i :: 0 <= i < n ==> init[i] == shares[i];
      WeightedScoreBounds(init, table);
      WeightedOverAppend(init, table, Keys(table), occ, share);
      DistinctCount(table, occ);
      var score := GetOrZero(table, occ);
      assert 0.0 <= score <= 1.0 by {
        GetOrZeroSpec(table, occ);
      }
      HitsBounds(table, Keys(table), occ);
      var h := Hits(table, Keys(table), occ);
      ScaledUnit(share, h);
      assert WeightedScore(shares, table) == WeightedScore(init, table) + share * h;
      assert SumShares(shares) == SumShares(init) + share;
    }
  }

  lemma ScaledUnit(share: real, h: real)
    requires 0.0 <= share && 0.0 <= h <= 1.0
    ensures 0.0 <= share * h <= share
  {
    assert 0.0 <= share * (1.0 - h);
  }

  lemma {:induction false} EmptySharesZero(table: Dict, occs: seq<string>)
    ensures WeightedOver([], table, occs) == 0.0
  {
    if occs != [] {
      EmptySharesZero(table, occs[1..]);
    }
  }

  /** One output row: the industry and one measure per score table, in table order. */
  datatype IndustryScores = IndustryScores(industry: string, measures: seq<real>)

  function ScoresOf(industry: string, shares: Dict, tables: seq<Dict>): (r: IndustryScores)
    ensures r.industry == industry && |r.measures| == |tables|
    ensures forall t :: 0 <= t < |tables| ==> r.measures[t] == WeightedScore(shares, tables[t])
  {
    IndustryScores(industry, seq(|tables|, t requires 0 <= t < |tables| => WeightedScore(shares, tables[t])))
  }

  /** `calculate_industry_scores`: one row per industry of the composition table, in table
      order, each measure computed by the same formula from its own table. */
  method CalculateIndustryScores(composition: seq<(string, Dict)>, tables: seq<Dict>)
    returns (results: seq<IndustryScores>)
    ensures |results| == |composition|
    ensures forall k :: 0 <= k < |composition| ==> results[k] == ScoresOf(composition[k].0, composition[k].1, tables)
  {
    results := [];
    var k := 0;
    while k < |composition|
      invariant 0 <= k <= |composition|
      invariant |results| == k
      invariant forall j :: 0 <= j < k ==> results[j] == ScoresOf(composition[j].0, composition[j].1, tables)
    {
      var (industry, shares) := composition[k];
      var measures := [];
      var t := 0;
      while t < |tables|
        invariant 0 <= t <= |tables|
        invariant |measures| == t
        invariant forall u :: 0 <= u < t ==> measures[u] == WeightedScore(shares, tables[u])
      {
        measures := measures + [WeightedScore(shares, tables[t])];
        t := t + 1;
      }
      results := results + [IndustryScores(industry, measures)];
      k := k + 1;
    }
  }
}
