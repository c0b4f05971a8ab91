/** `sorted` on real numbers. */
module RealSort {

  ghost predicate Ascending(xs: seq<real>) { forall i, j | 0 <= i < j < |xs| :: xs[i] <= xs[j] }

  function Insert(x: real, xs: seq<real>): (r: seq<real>)
    ensures |r| == |xs| + 1
    ensures forall y :: y in r <==> y == x || y in xs
  {
    if xs == [] || x <= xs[0] then [x] + xs else [xs[0]] + Insert(x, xs[1..])
  }

  function Sort(xs: seq<real>): (r: seq<real>)
    ensures |r| == |xs|
    ensures forall y :: y in r <==> y in xs
  {
    if xs == [] then []
    else
      assert forall y :: y in xs <==> y == xs[0] || y in xs[1..];
      Insert(xs[0], Sort(xs[1..]))
  }

  lemma {:induction false} InsertAscending(x: real, xs: seq<real>)
    requires Ascending(xs)
    ensures Ascending(Insert(x, xs))
  {
    if xs != [] && x > xs[0] {
      InsertAscending(x, xs[1..]);
      var r := Insert(x, xs[1..]);
      forall j | 0 <= j < |r|
        ensures xs[0] <= r[j]
      {
        assert r[j] in r;
      }
    }
  }

  lemma {:induction false} InsertElements(x: real, xs: seq<real>)
    ensures multiset(Insert(x, xs)) == multiset(xs) + multiset{x}
  {
    if xs != [] {
      assert xs == [xs[0]] + xs[1..];
      InsertElements(x, xs[1..]);
    }
  }

  lemma {:induction false} SortAscending(xs: seq<real>)
    ensures Ascending(Sort(xs))
    ensures multiset(Sort(xs)) == multiset(xs)
  {
    if xs != [] {
      assert xs == [xs[0]] + xs[1..];
      SortAscending(xs[1..]);
      InsertAscending(xs[0], Sort(xs[1..]));
      InsertElements(xs[0], Sort(xs[1..]));
    }
  }
}
