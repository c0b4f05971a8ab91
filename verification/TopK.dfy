/** Selecting the best scores. The two numpy primitives are known only by what
    they promise, so the result holds for every tie-breaking they may choose. */
module TopK {
  import opened Wrappers

  predicate InRange(ix: seq<nat>, n: nat) { forall a | 0 <= a < |ix| :: ix[a] < n }

  ghost predicate IsPermutation(p: seq<nat>, n: nat) {
    && |p| == n && InRange(p, n)
    && (forall a, b | 0 <= a < b < n :: p[a] != p[b])
    && (forall i: nat :: i in p <==> i < n)
  }

  /** `argpartition(scores, kth)`: nothing before position `kth` beats anything
      from it on. */
  ghost predicate IsArgPartition(scores: seq<real>, kth: nat, p: seq<nat>) {
    && IsPermutation(p, |scores|)
    && forall a, b | 0 <= a < kth <= b < |scores| :: scores[p[a]] <= scores[p[b]]
  }

  /** `argsort(values)`, ascending. */
  ghost predicate IsArgSort(values: seq<real>, p: seq<nat>) {
    && IsPermutation(p, |values|)
    && forall a, b | 0 <= a < b < |values| :: values[p[a]] <= values[p[b]]
  }

  /** The `m` best indices: distinct, best first, none beaten by one left out. */
  ghost predicate IsTop(scores: seq<real>, m: nat, ix: seq<nat>) {
    && |ix| == m
    && InRange(ix, |scores|)
    && (forall a, b | 0 <= a < b < m :: ix[a] != ix[b] && scores[ix[a]] >= scores[ix[b]])
    && (forall i: nat, a | i < |scores| && i !in ix && 0 <= a < m :: scores[i] <= scores[ix[a]])
  }

  /** Where `argpartition(scores, -k)[-k:]` starts after `k = min(k, n)`. Zero
      slices the whole array, and a negative `k` counts from the front, raising
      when it points past the end. */
  function Start(k: int, n: nat): Option<nat> {
    if k > 0 then Some(if k < n then n - k else 0)
    else if -k < n then Some(-k)
    else None
  }

  /** How many indices the slice keeps. */
  lemma StartsAt(k: int, n: nat)
    requires n > 0
    ensures k > 0 ==> Start(k, n).Some? && n - Start(k, n).value == if k < n then k else n
    ensures k <= 0 ==> (Start(k, n).Some? <==> n + k > 0) && (Start(k, n).Some? ==> n - Start(k, n).value == n + k)
  {
  }

  /** `part[argsort(scores[part])[::-1]]`. */
  function Select(part: seq<nat>, order: seq<nat>): (ix: seq<nat>)
    requires |order| == |part| && InRange(order, |part|)
    ensures |ix| == |part|
    ensures forall a | 0 <= a < |ix| :: ix[a] == part[order[|part| - 1 - a]]
  {
    seq(|part|, a requires 0 <= a < |part| => part[order[|part| - 1 - a]])
  }

  function At(scores: seq<real>, part: seq<nat>): (values: seq<real>)
    requires InRange(part, |scores|)
    ensures |values| == |part| && forall a | 0 <= a < |part| :: values[a] == scores[part[a]]
  {
    seq(|part|, a requires 0 <= a < |part| => scores[part[a]])
  }

  /** Partition, slice, sort, reverse gives the top: every left-out index is in
      the part sliced away. */
  lemma SelectIsTop(scores: seq<real>, start: nat, p: seq<nat>, order: seq<nat>)
    requires start <= |scores| && IsArgPartition(scores, start, p)
    requires IsArgSort(At(scores, p[start..]), order)
    ensures IsTop(scores, |scores| - start, Select(p[start..], order))
  {
    var part := p[start..];
    var ix := Select(part, order);
    forall i: nat, a | i < |scores| && i !in ix && 0 <= a < |part|
      ensures scores[i] <= scores[ix[a]]
    {
      LeftOutIsBefore(scores, start, p, order, i);
      var b :| 0 <= b < start && p[b] == i;
      assert ix[a] == p[start + order[|part| - 1 - a]];
    }
    SelectDescends(scores, part, order);
  }

  lemma SelectKeepsAll(part: seq<nat>, order: seq<nat>, c: nat)
    requires IsPermutation(order, |part|) && c < |part|
    ensures part[c] in Select(part, order)
  {
    assert c in order;
    var e :| 0 <= e < |order| && order[e] == c;
    assert Select(part, order)[|part| - 1 - e] == part[c];
  }

  lemma LeftOutIsBefore(scores: seq<real>, start: nat, p: seq<nat>, order: seq<nat>, i: nat)
    requires start <= |scores| && IsPermutation(p, |scores|) && IsPermutation(order, |scores| - start)
    requires i < |scores| && i !in Select(p[start..], order)
    ensures exists b :: 0 <= b < start && p[b] == i
  {
    var part := p[start..];
    assert i in p;
    var b :| 0 <= b < |p| && p[b] == i;
    if start <= b {
      SelectKeepsAll(part, order, b - start);
    }
  }

  lemma SelectDescends(scores: seq<real>, part: seq<nat>, order: seq<nat>)
    requires InRange(part, |scores|) && forall a, b | 0 <= a < b < |part| :: part[a] != part[b]
    requires IsArgSort(At(scores, part), order)
    ensures var ix := Select(part, order);
            && InRange(ix, |scores|)
            && forall a, b | 0 <= a < b < |ix| :: ix[a] != ix[b] && scores[ix[a]] >= scores[ix[b]]
  {
  }

  // ----- both primitives exist -----

  function Insert(scores: seq<real>, sorted: seq<nat>, x: nat): (r: seq<nat>)
    requires x < |scores| && InRange(sorted, |scores|)
    ensures |r| == |sorted| + 1 && InRange(r, |scores|) && forall i :: i in r <==> i == x || i in sorted
  {
    if sorted == [] || scores[x] <= scores[sorted[0]] then [x] + sorted
    else [sorted[0]] + Insert(scores, sorted[1..], x)
  }

  ghost predicate Ascending(scores: seq<real>, ix: seq<nat>) {
    && InRange(ix, |scores|)
    && forall a, b | 0 <= a < b < |ix| :: ix[a] != ix[b] && scores[ix[a]] <= scores[ix[b]]
  }

  lemma {:induction false} InsertAscending(scores: seq<real>, sorted: seq<nat>, x: nat)
    requires x < |scores| && Ascending(scores, sorted) && x !in sorted
    ensures Ascending(scores, Insert(scores, sorted, x))
  {
    if sorted != [] && !(scores[x] <= scores[sorted[0]]) {
      InsertAscending(scores, sorted[1..], x);
      var tail := Insert(scores, sorted[1..], x);
      forall b | 0 <= b < |tail|
        ensures sorted[0] != tail[b] && scores[sorted[0]] <= scores[tail[b]]
      {
        assert tail[b] in tail;
      }
    }
  }

  function SortIndices(scores: seq<real>, n: nat): (r: seq<nat>)
    requires n <= |scores|
    ensures |r| == n && InRange(r, |scores|) && forall i: nat :: i in r <==> i < n
  {
    if n == 0 then [] else Insert(scores, SortIndices(scores, n - 1), n - 1)
  }

  lemma {:induction false} SortIndicesAscending(scores: seq<real>, n: nat)
    requires n <= |scores|
    ensures Ascending(scores, SortIndices(scores, n))
  {
    if n > 0 {
      SortIndicesAscending(scores, n - 1);
      InsertAscending(scores, SortIndices(scores, n - 1), n - 1);
    }
  }

  method ArgSort(values: seq<real>) returns (p: seq<nat>)
    ensures IsArgSort(values, p)
  {
    SortIndicesAscending(values, |values|);
    p := SortIndices(values, |values|);
  }

  method ArgPartition(scores: seq<real>, kth: nat) returns (p: seq<nat>)
    ensures IsArgPartition(scores, kth, p)
  {
    p := ArgSort(scores);
  }

  /** `top_k_indices`; `None` is numpy's ValueError. For a positive `k` these
      are the best `min(k, n)` indices. */
  method TopKIndices(scores: seq<real>, k: int) returns (r: Option<seq<nat>>)
    ensures scores == [] ==> r == Some([])
    ensures scores != [] ==> (r.None? <==> Start(k, |scores|).None?)
    ensures scores != [] && r.Some? ==> IsTop(scores, |scores| - Start(k, |scores|).value, r.value)
    ensures var n := |scores|;
            scores != [] ==> && (k > 0 ==> r.Some? && |r.value| == if k < n then k else n)
                             && (k == 0 ==> r.Some? && |r.value| == n)
                             && (k < 0 ==> if n + k > 0 then r.Some? && |r.value| == n + k else r.None?)
  {
    if scores == [] {
      return Some([]);
    }
    StartsAt(k, |scores|);
    var start := Start(k, |scores|);
    if start.None? {
      return None;
    }
    var p := ArgPartition(scores, start.value);
    var part := p[start.value..];
    assert InRange(part, |scores|);
    var order := ArgSort(At(scores, part));
    SelectIsTop(scores, start.value, p, order);
    r := Some(Select(part, order));
  }
}
