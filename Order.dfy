/** The orderings that pandas' `sort_values`, `groupby` and outer `merge` impose on rows, and
    Python's `list.sort` on tuples: a lexicographic order over sort keys made of integers,
    strings (compared code point by code point) and missing values (placed last), and a
    sort that is proved to return an ordered permutation of its input. */
module Order {

  /** One component of a sort key. `Missing` is a NaN cell, which pandas places last. */
  datatype KeyPart = I(n: int) | S(s: string) | Missing

  /** Python's `<=` on strings: code point by code point, a proper prefix first. */
  predicate StrLe(a: string, b: string)
    decreases |a|
  {
    a == [] || (b != [] && (a[0] < b[0] || (a[0] == b[0] && StrLe(a[1..], b[1..]))))
  }

  function Rank(p: KeyPart): int {
    match p
    case I(_) => 0
    case S(_) => 1
    case Missing => 2
  }

  predicate PartLe(p: KeyPart, q: KeyPart) {
    if Rank(p) != Rank(q) then Rank(p) < Rank(q)
    else match p
      case I(x) => x <= q.n
      case S(x) => StrLe(x, q.s)
      case Missing => true
  }

  /** Lexicographic order on keys; a key that is a proper prefix of another comes first. */
  predicate KeyLe(a: seq<KeyPart>, b: seq<KeyPart>)
    decreases |a|
  {
    a == [] || (b != [] && PartLe(a[0], b[0]) &&
      (!PartLe(b[0], a[0]) || KeyLe(a[1..], b[1..])))
  }

  lemma {:induction false} StrLeTotal(a: string, b: string)
    ensures StrLe(a, b) || StrLe(b, a)
    decreases |a|
  {
    if a != [] && b != [] && a[0] == b[0] {
      StrLeTotal(a[1..], b[1..]);
    }
  }

  lemma {:induction false} StrLeAntisymmetric(a: string, b: string)
    requires StrLe(a, b) && StrLe(b, a)
    ensures a == b
    decreases |a|
  {
    if a != [] {
      StrLeAntisymmetric(a[1..], b[1..]);
    }
  }

  lemma PartLeTotal(p: KeyPart, q: KeyPart)
    ensures PartLe(p, q) || PartLe(q, p)
  {
    if p.S? && q.S? {
      StrLeTotal(p.s, q.s);
    }
  }

  lemma {:induction false} KeyLeTotal(a: seq<KeyPart>, b: seq<KeyPart>)
    ensures KeyLe(a, b) || KeyLe(b, a)
    decreases |a|
  {
    if a != [] && b != [] {
      PartLeTotal(a[0], b[0]);
      if PartLe(a[0], b[0]) && PartLe(b[0], a[0]) {
        KeyLeTotal(a[1..], b[1..]);
      }
    }
  }

  /** `s` is in non-decreasing key order: every element is at most its successor. */
  ghost predicate SortedBy<T>(s: seq<T>, key: T -> seq<KeyPart>) {
    forall i :: 0 < i < |s| ==> KeyLe(key(s[i - 1]), key(s[i]))
  }

  /** Places `x` before the first element whose key is not below it. */
  function Insert<T>(x: T, s: seq<T>, key: T -> seq<KeyPart>): (r: seq<T>)
    requires SortedBy(s, key)
    ensures SortedBy(r, key)
    ensures multiset(r) == multiset(s) + multiset{x}
    ensures |r| == |s| + 1
    ensures r != [] && (r[0] == x || (s != [] && r[0] == s[0]))
  {
    if s == [] then [x]
    else if KeyLe(key(x), key(s[0])) then [x] + s
    else
      KeyLeTotal(key(x), key(s[0]));
      var t := Insert(x, s[1..], key);
      assert s == [s[0]] + s[1..];
      [s[0]] + t
  }

  /** The rows of `s` reordered by `key`, as `sort_values` and `list.sort` do. */
  function SortBy<T>(s: seq<T>, key: T -> seq<KeyPart>): (r: seq<T>)
    ensures SortedBy(r, key)
    ensures multiset(r) == multiset(s)
    ensures |r| == |s|
  {
    if s == [] then []
    else
      assert s == [s[0]] + s[1..];
      Insert(s[0], SortBy(s[1..], key), key)
  }

  /** The first occurrence of each distinct element, in order of first appearance
      (pandas' `drop_duplicates`, and the key order of a dict filled in a loop). */
  function Dedup<T(==,!new)>(s: seq<T>): (r: seq<T>)
    ensures forall x :: x in r <==> x in s
    ensures forall i, j :: 0 <= i < j < |r| ==> r[i] != r[j]
    ensures |r| <= |s|
  {
    if s == [] then []
    else
      var t := Dedup(s[..|s| - 1]);
      if s[|s| - 1] in t then t else t + [s[|s| - 1]]
  }

  /** `Dedup` keeps the order of first appearance: an element that comes earlier in the
      result appears in `s` before every occurrence of a later one. */
  lemma {:induction false} DedupOrder<T(!new)>(s: seq<T>)
    ensures forall i, j, k :: 0 <= i < j < |Dedup(s)| && 0 <= k < |s| && s[k] == Dedup(s)[j] ==>
              Dedup(s)[i] in s[..k]
  {
    if s != [] {
      var n := |s| - 1;
      DedupOrder(s[..n]);
      FirstOccurrenceStep(s, Dedup(s[..n]));
    }
  }

  /** The order of `Dedup` survives one more element: an element of `t` appears in `s`
      before every occurrence of a later element, new or old. */
  lemma FirstOccurrenceStep<T>(s: seq<T>, t: seq<T>)
    requires |s| > 0
    requires forall x :: x in t <==> x in s[..|s| - 1]
    requires forall i, j, k :: 0 <= i < j < |t| && 0 <= k < |s| - 1 && s[k] == t[j] ==> t[i] in s[..k]
    ensures forall i, j, k :: 0 <= i < j < |t| && 0 <= k < |s| && s[k] == t[j] ==> t[i] in s[..k]
    ensures s[|s| - 1] !in t ==>
              forall i, k :: 0 <= i < |t| && 0 <= k < |s| && s[k] == s[|s| - 1] ==> t[i] in s[..k]
  {
    var n := |s| - 1;
    forall i, j, k | 0 <= i < j < |t| && 0 <= k < |s| && s[k] == t[j]
      ensures t[i] in s[..k]
    {
      if k == n {
        assert t[j] in t;
        var k' :| 0 <= k' < n && s[..n][k'] == t[j];
        assert t[i] in s[..k'];
        assert s[..k'] == s[..k][..k'];
      }
    }
    if s[n] !in t {
      forall i, k | 0 <= i < |t| && 0 <= k < |s| && s[k] == s[n]
        ensures t[i] in s[..k]
      {
        assert forall m :: 0 <= m < n ==> s[..n][m] == s[m] && s[m] != s[n];
        assert t[i] in t;
      }
    }
  }

  /** A sequence without repeated elements is its own `Dedup`. */
  lemma {:induction false} DedupOfDistinct<T(!new)>(s: seq<T>)
    requires forall i, j :: 0 <= i < j < |s| ==> s[i] != s[j]
    ensures Dedup(s) == s
  {
    if s != [] {
      DedupOfDistinct(s[..|s| - 1]);
      assert s == s[..|s| - 1] + [s[|s| - 1]];
    }
  }

  /** The number of occurrences of each element of a sequence without repetitions is at most one. */
  lemma {:induction false} DistinctCounts<T>(s: seq<T>)
    requires forall i, j :: 0 <= i < j < |s| ==> s[i] != s[j]
    ensures forall x :: multiset(s)[x] <= 1
  {
    if s != [] {
      var n := |s| - 1;
      DistinctCounts(s[..n]);
      assert s == s[..n] + [s[n]];
      assert s[n] !in multiset(s[..n]);
    }
  }

  /** A reordering of a sequence without repetitions has none either. */
  lemma DistinctPermutation<T>(s: seq<T>, r: seq<T>)
    requires forall i, j :: 0 <= i < j < |s| ==> s[i] != s[j]
    requires multiset(r) == multiset(s)
    ensures forall i, j :: 0 <= i < j < |r| ==> r[i] != r[j]
  {
    DistinctCounts(s);
    forall i, j | 0 <= i < j < |r|
      ensures r[i] != r[j]
    {
      var x := r[i];
      assert r == r[..j] + [r[j]] + r[j + 1..];
      assert r[..j][i] == x;
      assert multiset(r)[x] >= multiset(r[..j])[x] + multiset([r[j]])[x];
    }
  }
}
