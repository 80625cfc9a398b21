/** `Array.prototype.filter` on values: the renderer uses it to clean the pasted
    lines, to pick the jobs Start All dispatches and to clear finished jobs. */
module Seqs {

  /** The negation of a test. */
  function Not<T>(p: T -> bool): T -> bool {
    x => !p(x)
  }

  /** The elements of `xs` that satisfy `p`, in their original order. */
  function Filter<T>(xs: seq<T>, p: T -> bool): (r: seq<T>)
    ensures |r| <= |xs|
    ensures forall i :: 0 <= i < |r| ==> r[i] in xs && p(r[i])
    ensures forall i :: 0 <= i < |xs| && p(xs[i]) ==> xs[i] in r
    decreases |xs|
  {
    if xs == [] then []
    else (if p(xs[0]) then [xs[0]] else []) + Filter(xs[1..], p)
  }

  /** Filtering distributes over concatenation, so the kept elements stay in
      their original relative order. */
  lemma {:induction false} FilterAppend<T>(a: seq<T>, b: seq<T>, p: T -> bool)
    ensures Filter(a + b, p) == Filter(a, p) + Filter(b, p)
    decreases |a|
  {
    if a == [] {
      assert a + b == b;
    } else {
      assert (a + b)[1..] == a[1..] + b;
      FilterAppend(a[1..], b, p);
    }
  }

  /** When every element passes, filtering returns the sequence unchanged. */
  lemma {:induction false} FilterAll<T>(xs: seq<T>, p: T -> bool)
    requires forall i :: 0 <= i < |xs| ==> p(xs[i])
    ensures Filter(xs, p) == xs
    decreases |xs|
  {
    if xs != [] {
      FilterAll(xs[1..], p);
    }
  }

  /** Filtering twice by the same test is filtering once. */
  lemma FilterIdempotent<T>(xs: seq<T>, p: T -> bool)
    ensures Filter(Filter(xs, p), p) == Filter(xs, p)
  {
    var r := Filter(xs, p);
    FilterAll(r, p);
  }

  /** Every element goes to exactly one side of the split by a test `p` and its
      negation `notP`: the two sides together are the input, counted with
      multiplicity. */
  lemma {:induction false} FilterPartition<T>(xs: seq<T>, p: T -> bool, notP: T -> bool)
    requires forall x :: notP(x) == !p(x)
    ensures multiset(Filter(xs, p)) + multiset(Filter(xs, notP)) == multiset(xs)
    ensures |Filter(xs, p)| + |Filter(xs, notP)| == |xs|
    decreases |xs|
  {
    if xs != [] {
      FilterPartition(xs[1..], p, notP);
      assert xs == [xs[0]] + xs[1..];
    }
  }

  /** Filtering one element more: the filter of the prefix plus that element
      when it passes. */
  lemma FilterSnoc<T>(xs: seq<T>, x: T, p: T -> bool)
    ensures Filter(xs + [x], p) == Filter(xs, p) + (if p(x) then [x] else [])
  {
    FilterAppend(xs, [x], p);
    assert Filter([x], p) == (if p(x) then [x] else []) + Filter([x][1..], p);
  }
}
