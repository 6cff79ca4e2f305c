/** Splitting a list of BLS series IDs into request batches, as
    `for i in range(0, len(ids), size): batch = ids[i:i + size]` does. */
module Batching {

  /** The BLS API accepts 50 series per request with a registration key and 25 without. */
  function BatchSize(hasApiKey: bool): (n: nat)
    ensures n == 50 || n == 25
    ensures hasApiKey <==> n == 50
  {
    if hasApiKey then 50 else 25
  }

  /** The batches `ids[i:i + size]` for `i = 0, size, 2 * size, ...` while `i < len(ids)`. */
  function Batches<T>(ids: seq<T>, size: nat): seq<seq<T>>
    requires size > 0
    decreases |ids|
  {
    if ids == [] then []
    else if |ids| <= size then [ids]
    else [ids[..size]] + Batches(ids[size..], size)
  }

  /** The end of the batch that starts at `i`. */
  function BatchEnd(n: nat, i: nat, size: nat): (hi: nat)
    requires i < n && size > 0
    ensures i < hi <= n && hi - i <= size
    ensures hi < n ==> hi == i + size
  {
    if i + size < n then i + size else n
  }

  /** Batching the IDs from `i` on yields `ids[i:i + size]` followed by the batches of the rest. */
  lemma BatchesFrom<T>(ids: seq<T>, i: nat, size: nat)
    requires i < |ids| && size > 0
    ensures Batches(ids[i..], size) ==
              [ids[i..BatchEnd(|ids|, i, size)]] + Batches(ids[BatchEnd(|ids|, i, size)..], size)
  {
    var hi := BatchEnd(|ids|, i, size);
    if hi < |ids| {
      assert ids[i..][..size] == ids[i..hi] && ids[i..][size..] == ids[hi..];
    } else {
      assert ids[i..] == ids[i..hi] && ids[hi..] == [];
    }
  }

  /** One turn of the batch loop: taking the batch at `i` keeps `done` followed by the
      batches still to come equal to all the batches. */
  lemma BatchStep<T>(done: seq<seq<T>>, ids: seq<T>, i: nat, size: nat)
    requires i < |ids| && size > 0
    requires done + Batches(ids[i..], size) == Batches(ids, size)
    ensures (done + [ids[i..BatchEnd(|ids|, i, size)]]) + Batches(ids[BatchEnd(|ids|, i, size)..], size) ==
              Batches(ids, size)
  {
    var hi := BatchEnd(|ids|, i, size);
    BatchesFrom(ids, i, size);
    var tail := Batches(ids[hi..], size);
    assert done + ([ids[i..hi]] + tail) == (done + [ids[i..hi]]) + tail;
  }

  function Flatten<T>(parts: seq<seq<T>>): seq<T> {
    if parts == [] then [] else parts[0] + Flatten(parts[1..])
  }

  lemma {:induction false} FlattenConcat<T>(a: seq<seq<T>>, b: seq<seq<T>>)
    ensures Flatten(a + b) == Flatten(a) + Flatten(b)
  {
    if a == [] {
      assert a + b == b;
    } else {
      assert (a + b)[1..] == a[1..] + b;
      FlattenConcat(a[1..], b);
    }
  }

  /** The batches cover the IDs exactly once and in order. */
  lemma {:induction false} BatchesCover<T>(ids: seq<T>, size: nat)
    requires size > 0
    ensures Flatten(Batches(ids, size)) == ids
    decreases |ids|
  {
    if |ids| > size {
      BatchesCover(ids[size..], size);
      assert ids == ids[..size] + ids[size..];
    } else if ids != [] {
      assert ids + [] == ids;
    }
  }

  /** Each batch is non-empty and holds at most `size` IDs; every batch but the last is full. */
  lemma {:induction false} BatchesSized<T>(ids: seq<T>, size: nat)
    requires size > 0
    ensures forall k :: 0 <= k < |Batches(ids, size)| ==> 0 < |Batches(ids, size)[k]| <= size
    ensures forall k :: 0 <= k < |Batches(ids, size)| - 1 ==> |Batches(ids, size)[k]| == size
    decreases |ids|
  {
    if |ids| > size {
      BatchesSized(ids[size..], size);
      var b := Batches(ids, size);
      assert b[1..] == Batches(ids[size..], size);
      assert forall k :: 1 <= k < |b| ==> b[k] == b[1..][k - 1];
    }
  }

  /** There are ceil(n / size) batches: the fewest whose total capacity holds all n IDs. */
  lemma {:induction false} BatchesCount<T>(ids: seq<T>, size: nat)
    requires size > 0
    ensures (|Batches(ids, size)| - 1) * size < |ids| <= |Batches(ids, size)| * size || ids == []
    ensures ids == [] <==> Batches(ids, size) == []
    decreases |ids|
  {
    if |ids| > size {
      var rest := ids[size..];
      BatchesCount(rest, size);
      var k := |Batches(rest, size)|;
      assert |Batches(ids, size)| == k + 1;
      assert (k + 1) * size == k * size + size;
    }
  }
}
