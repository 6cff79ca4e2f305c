/** A Python dict filled by assignments `d[k] = v` in order, or by `dict(pairs)` /
    `set_index(...).to_dict()`: a later assignment to the same key replaces an earlier one. */
module Dicts {

  function LastWins<K(!new), V>(p: seq<(K, V)>): map<K, V> {
    if p == [] then map[] else LastWins(p[..|p| - 1])[p[|p| - 1].0 := p[|p| - 1].1]
  }

  /** The keys are those assigned, each value is one assigned to its key, and the last
      assignment to a key is the one that stays. */
  lemma {:induction false} LastWinsSpec<K(!new), V>(p: seq<(K, V)>)
    ensures forall k :: k in LastWins(p) <==> exists i :: 0 <= i < |p| && p[i].0 == k
    ensures forall k :: k in LastWins(p) ==> (k, LastWins(p)[k]) in p
    ensures forall i :: 0 <= i < |p| && (forall j :: i < j < |p| ==> p[j].0 != p[i].0) ==>
              LastWins(p)[p[i].0] == p[i].1
  {
    if p != [] {
      LastWinsSpec(p[..|p| - 1]);
      assert forall i :: 0 <= i < |p| - 1 ==> p[..|p| - 1][i] == p[i];
    }
  }

  /** Each key's value comes from the last assignment to that key. */
  lemma {:induction false} LastWinsLast<K(!new), V>(p: seq<(K, V)>, k: K) returns (i: nat)
    requires k in LastWins(p)
    ensures i < |p| && p[i] == (k, LastWins(p)[k])
    ensures forall j :: i < j < |p| ==> p[j].0 != k
  {
    var n := |p| - 1;
    if p[n].0 == k {
      i := n;
    } else {
      i := LastWinsLast(p[..n], k);
    }
  }

  /** One more assignment. */
  lemma LastWinsAppend<K(!new), V>(p: seq<(K, V)>, x: (K, V))
    ensures LastWins(p + [x]) == LastWins(p)[x.0 := x.1]
  {
    assert (p + [x])[..|p|] == p;
  }

  /** The loop step: one more assignment of a prefix. */
  lemma LastWinsPrefixStep<K(!new), V>(p: seq<(K, V)>, j: nat)
    requires j < |p|
    ensures LastWins(p[..j + 1]) == LastWins(p[..j])[p[j].0 := p[j].1]
  {
    assert p[..j + 1] == p[..j] + [p[j]];
    LastWinsAppend(p[..j], p[j]);
  }

  lemma UpdateOfUnion<K(!new), V>(a: map<K, V>, b: map<K, V>, k: K, v: V)
    ensures (a + b)[k := v] == a + b[k := v]
  {
  }

  /** Assigning the pairs of `p` one by one on top of `start`. */
  lemma UnionPrefixStep<K(!new), V>(start: map<K, V>, p: seq<(K, V)>, j: nat)
    requires j < |p|
    ensures start + LastWins(p[..j + 1]) == (start + LastWins(p[..j]))[p[j].0 := p[j].1]
  {
    LastWinsPrefixStep(p, j);
    UpdateOfUnion(start, LastWins(p[..j]), p[j].0, p[j].1);
  }

  lemma UnionPrefixAll<K(!new), V>(start: map<K, V>, p: seq<(K, V)>)
    ensures start + LastWins(p[..|p|]) == start + LastWins(p)
  {
    assert p[..|p|] == p;
  }

  /** The assignments of a later block override those of an earlier one: the dict of `p + q`
      is that of `p` updated with that of `q`. */
  lemma {:induction false} LastWinsConcat<K(!new), V>(p: seq<(K, V)>, q: seq<(K, V)>)
    ensures LastWins(p + q) == LastWins(p) + LastWins(q)
  {
    if q == [] {
      assert p + q == p;
    } else {
      var n := |q| - 1;
      LastWinsConcat(p, q[..n]);
      assert q == q[..n] + [q[n]];
      LastWinsConcatStep(p, q[..n], q[n]);
    }
  }

  lemma LastWinsConcatStep<K(!new), V>(p: seq<(K, V)>, q: seq<(K, V)>, e: (K, V))
    requires LastWins(p + q) == LastWins(p) + LastWins(q)
    ensures LastWins(p + (q + [e])) == LastWins(p) + LastWins(q + [e])
  {
    assert p + (q + [e]) == (p + q) + [e];
    LastWinsAppend(p + q, e);
    LastWinsAppend(q, e);
    UpdateOfUnion(LastWins(p), LastWins(q), e.0, e.1);
  }

  /** The assignments `d[key(x)] = owner` of a table that lists items under owners, for one
      entry of the table. */
  function KeyedPairsOf<A, B, C>(entry: (B, seq<A>), key: A -> C): (p: seq<(C, B)>)
    ensures |p| == |entry.1|
    ensures forall j :: 0 <= j < |entry.1| ==> p[j] == (key(entry.1[j]), entry.0)
  {
    seq(|entry.1|, j requires 0 <= j < |entry.1| => (key(entry.1[j]), entry.0))
  }

  /** The assignments of the whole table, entry by entry and item by item. */
  function KeyedPairs<A, B, C>(m: seq<(B, seq<A>)>, key: A -> C): seq<(C, B)> {
    if m == [] then [] else KeyedPairs(m[..|m| - 1], key) + KeyedPairsOf(m[|m| - 1], key)
  }

  lemma KeyedPairsSnoc<A, B, C>(m: seq<(B, seq<A>)>, e: (B, seq<A>), key: A -> C)
    ensures KeyedPairs(m + [e], key) == KeyedPairs(m, key) + KeyedPairsOf(e, key)
  {
    assert (m + [e])[..|m|] == m;
  }

  /** The loop step over the entries. */
  lemma KeyedPairsStep<A, B, C>(m: seq<(B, seq<A>)>, i: nat, key: A -> C)
    requires i < |m|
    ensures KeyedPairs(m[..i + 1], key) == KeyedPairs(m[..i], key) + KeyedPairsOf(m[i], key)
  {
    assert m[..i + 1][..i] == m[..i];
  }

  lemma ConcatAssoc<T>(x: seq<T>, y: seq<T>, z: seq<T>)
    ensures (x + y) + z == x + (y + z)
  {
  }

  /** The assignments of two tables one after the other are those of the joined table. */
  lemma {:induction false} KeyedPairsConcat<A, B, C>(a: seq<(B, seq<A>)>, b: seq<(B, seq<A>)>, key: A -> C)
    ensures KeyedPairs(a + b, key) == KeyedPairs(a, key) + KeyedPairs(b, key)
    decreases |b|
  {
    if b == [] {
      assert a + b == a;
    } else {
      var n := |b| - 1;
      KeyedPairsConcat(a, b[..n], key);
      assert b == b[..n] + [b[n]];
      KeyedPairsConcatStep(a, b[..n], b[n], key);
    }
  }

  lemma KeyedPairsConcatStep<A, B, C>(a: seq<(B, seq<A>)>, b: seq<(B, seq<A>)>, e: (B, seq<A>), key: A -> C)
    requires KeyedPairs(a + b, key) == KeyedPairs(a, key) + KeyedPairs(b, key)
    ensures KeyedPairs(a + (b + [e]), key) == KeyedPairs(a, key) + KeyedPairs(b + [e], key)
  {
    ConcatAssoc(a, b, [e]);
    KeyedPairsSnoc(a + b, e, key);
    KeyedPairsSnoc(b, e, key);
    ConcatAssoc(KeyedPairs(a, key), KeyedPairs(b, key), KeyedPairsOf(e, key));
  }

  /** Every item of every entry is assigned to its owner. */
  lemma {:induction false} KeyedPairsComplete<A, B, C>(m: seq<(B, seq<A>)>, key: A -> C, i: nat, j: nat)
    requires i < |m| && j < |m[i].1|
    ensures (key(m[i].1[j]), m[i].0) in KeyedPairs(m, key)
  {
    var n := |m| - 1;
    assert KeyedPairs(m, key) == KeyedPairs(m[..n], key) + KeyedPairsOf(m[n], key);
    if i == n {
      assert KeyedPairsOf(m[n], key)[j] == (key(m[i].1[j]), m[i].0);
    } else {
      KeyedPairsComplete(m[..n], key, i, j);
      assert m[..n][i] == m[i];
    }
  }

  /** Every assignment is that of an item of an entry to its owner. */
  lemma {:induction false} KeyedPairsSound<A, B, C>(m: seq<(B, seq<A>)>, key: A -> C, x: (C, B))
    requires x in KeyedPairs(m, key)
    ensures exists i, j :: 0 <= i < |m| && 0 <= j < |m[i].1| && x == (key(m[i].1[j]), m[i].0)
  {
    var n := |m| - 1;
    var init := m[..n];
    assert KeyedPairs(m, key) == KeyedPairs(init, key) + KeyedPairsOf(m[n], key);
    if x in KeyedPairs(init, key) {
      KeyedPairsSound(init, key, x);
      var i, j :| 0 <= i < |init| && 0 <= j < |init[i].1| && x == (key(init[i].1[j]), init[i].0);
      assert init[i] == m[i];
    } else {
      var j :| 0 <= j < |m[n].1| && KeyedPairsOf(m[n], key)[j] == x;
    }
  }

  /** Extending a prefix by one element. */
  lemma PrefixSnoc<T>(s: seq<T>, k: nat)
    requires k < |s|
    ensures s[..k + 1] == s[..k] + [s[k]]
  {
  }

  lemma PrefixAll<T>(s: seq<T>)
    ensures s[..|s|] == s
  {
  }
}
