/** Missing values and failures.
    A pandas NaN, a Python None and an absent dictionary key are all `None` here;
    a script that stops on an uncaught exception yields `Crash`. */
module Optional {

  datatype Option<+T> = None | Some(value: T) {
    function GetOr(default: T): T {
      match this
      case Some(v) => v
      case None => default
    }
  }

  /** The outcome of a step that may raise: its value, or the reason the script stops. */
  datatype Result<+T> = Ok(value: T) | Crash(reason: string)

  /** `d.get(k)` on a dictionary. */
  function Get<K, V>(m: map<K, V>, k: K): (r: Option<V>)
    ensures r.Some? <==> k in m
    ensures r.Some? ==> r.value == m[k]
  {
    if k in m then Some(m[k]) else None
  }

  /** The values of the elements `f` keeps, in order: a row-wise cleaning step whose
      dropped rows are those `f` maps to `None`. */
  function FilterMap<T, U>(s: seq<T>, f: T -> Option<U>): (r: seq<U>)
    ensures |r| <= |s|
  {
    if s == [] then []
    else
      var last := f(s[|s| - 1]);
      FilterMap(s[..|s| - 1], f) + (if last.Some? then [last.value] else [])
  }

  /** An element is in the result exactly when some input element maps to it. */
  lemma {:induction false} FilterMapMembers<T, U(!new)>(s: seq<T>, f: T -> Option<U>)
    ensures forall x :: x in FilterMap(s, f) <==> exists i :: 0 <= i < |s| && f(s[i]) == Some(x)
  {
    if s != [] {
      var n := |s| - 1;
      FilterMapMembers(s[..n], f);
      assert forall i :: 0 <= i < n ==> s[..n][i] == s[i];
    }
  }

  /** The first value kept comes from the first element `f` keeps. */
  lemma {:induction false} FilterMapFirst<T, U(!new)>(s: seq<T>, f: T -> Option<U>)
    requires FilterMap(s, f) != []
    ensures exists i :: 0 <= i < |s| && f(s[i]) == Some(FilterMap(s, f)[0]) &&
                        forall j :: 0 <= j < i ==> f(s[j]).None?
  {
    var n := |s| - 1;
    var pre := s[..n];
    var init := FilterMap(pre, f);
    assert FilterMap(s, f) == init + (if f(s[n]).Some? then [f(s[n]).value] else []);
    if init != [] {
      FilterMapFirst(pre, f);
      var i :| 0 <= i < n && f(pre[i]) == Some(init[0]) && forall j :: 0 <= j < i ==> f(pre[j]).None?;
      assert pre[i] == s[i];
      forall j | 0 <= j < i
        ensures f(s[j]).None?
      {
        assert pre[j] == s[j];
      }
    } else {
      FilterMapEmpty(pre, f);
      forall j | 0 <= j < n
        ensures f(s[j]).None?
      {
        assert pre[j] == s[j];
      }
    }
  }

  /** Nothing is kept only when `f` drops every element. */
  lemma {:induction false} FilterMapEmpty<T, U>(s: seq<T>, f: T -> Option<U>)
    requires FilterMap(s, f) == []
    ensures forall j :: 0 <= j < |s| ==> f(s[j]).None?
  {
    if s != [] {
      var n := |s| - 1;
      FilterMapEmpty(s[..n], f);
      assert forall i :: 0 <= i < n ==> s[..n][i] == s[i];
    }
  }

  lemma {:induction false} FilterMapConcat<T, U>(a: seq<T>, b: seq<T>, f: T -> Option<U>)
    ensures FilterMap(a + b, f) == FilterMap(a, f) + FilterMap(b, f)
  {
    if b == [] {
      assert a + b == a;
    } else {
      var n := |b| - 1;
      assert (a + b)[..|a + b| - 1] == a + b[..n];
      FilterMapConcat(a, b[..n], f);
    }
  }

  /** Two row-wise cleaning steps in a row are one step `h` that applies both. */
  lemma {:induction false} FilterMapThen<T, U, V>(s: seq<T>, f: T -> Option<U>, g: U -> Option<V>, h: T -> Option<V>)
    requires forall x :: h(x) == if f(x).Some? then g(f(x).value) else None
    ensures FilterMap(FilterMap(s, f), g) == FilterMap(s, h)
  {
    if s != [] {
      var n := |s| - 1;
      var last := f(s[n]);
      FilterMapThen(s[..n], f, g, h);
      FilterMapConcat(FilterMap(s[..n], f), if last.Some? then [last.value] else [], g);
      if last.Some? {
        assert [last.value][..0] == [];
      }
    }
  }

  /** The kept values are those of a strictly increasing selection of the input positions,
      and every position `f` keeps is selected: a cleaning step only removes elements and
      keeps the survivors in order. */
  lemma {:induction false} FilterMapIndices<T, U>(s: seq<T>, f: T -> Option<U>) returns (idx: seq<nat>)
    ensures |idx| == |FilterMap(s, f)|
    ensures forall k :: 0 <= k < |idx| ==> idx[k] < |s| && f(s[idx[k]]) == Some(FilterMap(s, f)[k])
    ensures forall k, l :: 0 <= k < l < |idx| ==> idx[k] < idx[l]
    ensures forall i :: 0 <= i < |s| && f(s[i]).Some? ==> i in idx
  {
    if s == [] {
      idx := [];
    } else {
      var n := |s| - 1;
      var init := FilterMapIndices(s[..n], f);
      assert forall i :: 0 <= i < n ==> s[..n][i] == s[i];
      if f(s[n]).Some? {
        idx := init + [n];
      } else {
        idx := init;
      }
    }
  }
}
