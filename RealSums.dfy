/** Sums and means over real numbers, standing for pandas' `sum` and `mean`
    over float columns (with missing cells already dropped). */
module RealSums {

  function Sum(s: seq<real>): real {
    if s == [] then 0.0 else s[0] + Sum(s[1..])
  }

  lemma {:induction false} SumConcat(a: seq<real>, b: seq<real>)
    ensures Sum(a + b) == Sum(a) + Sum(b)
  {
    if a == [] {
      assert a + b == b;
    } else {
      assert (a + b)[1..] == a[1..] + b;
      SumConcat(a[1..], b);
    }
  }

  /** A sum does not depend on the order of its terms. */
  lemma {:induction false} SumPermutation(a: seq<real>, b: seq<real>)
    requires multiset(a) == multiset(b)
    ensures Sum(a) == Sum(b)
    decreases |a|
  {
    if a != [] {
      assert a[0] in multiset(b);
      var j :| 0 <= j < |b| && b[j] == a[0];
      var rest := b[..j] + b[j + 1..];
      RemoveAt(b, j);
      assert a == [a[0]] + a[1..];
      assert multiset(a[1..]) == multiset(a) - multiset{a[0]};
      SumPermutation(a[1..], rest);
      SumRemoveAt(b, j);
    }
  }

  lemma RemoveAt<T>(b: seq<T>, j: nat)
    requires j < |b|
    ensures multiset(b[..j] + b[j + 1..]) == multiset(b) - multiset{b[j]}
  {
    assert b == b[..j] + [b[j]] + b[j + 1..];
  }

  lemma SumRemoveAt(b: seq<real>, j: nat)
    requires j < |b|
    ensures Sum(b) == b[j] + Sum(b[..j] + b[j + 1..])
  {
    var pre, x, post := b[..j], b[j], b[j + 1..];
    assert b == (pre + [x]) + post;
    SumConcat(pre + [x], post);
    SumConcat(pre, [x]);
    assert [x][1..] == [];
    assert Sum([x]) == x;
    SumConcat(pre, post);
  }

  lemma {:induction false} SumBounds(s: seq<real>, lo: real, hi: real)
    requires forall i :: 0 <= i < |s| ==> lo <= s[i] <= hi
    ensures lo * |s| as real <= Sum(s) <= hi * |s| as real
  {
    if s != [] {
      SumBounds(s[1..], lo, hi);
    }
  }

  /** The arithmetic mean of a non-empty list of values. */
  function Mean(s: seq<real>): real
    requires s != []
  {
    Sum(s) / |s| as real
  }

  /** A mean lies between any lower and upper bound of its terms. */
  lemma MeanBounds(s: seq<real>, lo: real, hi: real)
    requires s != []
    requires forall i :: 0 <= i < |s| ==> lo <= s[i] <= hi
    ensures lo <= Mean(s) <= hi
  {
    SumBounds(s, lo, hi);
    var n := |s| as real;
    assert lo * n <= Sum(s) <= hi * n;
    assert lo == (lo * n) / n && hi == (hi * n) / n;
  }

  /** A mean does not depend on the order of its terms. */
  lemma MeanPermutation(a: seq<real>, b: seq<real>)
    requires a != [] && multiset(a) == multiset(b)
    ensures b != [] && Mean(a) == Mean(b)
  {
    assert |a| == |multiset(a)| == |b|;
    SumPermutation(a, b);
  }

  /** Dividing every term by the same non-zero total divides the sum by it. */
  lemma {:induction false} SumScaled(s: seq<real>, q: seq<real>, t: real)
    requires t != 0.0 && |q| == |s|
    requires forall i :: 0 <= i < |s| ==> q[i] == s[i] / t
    ensures Sum(q) == Sum(s) / t
  {
    if s != [] {
      SumScaled(s[1..], q[1..], t);
    }
  }
}
