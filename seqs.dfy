/** Sequence facts used throughout: order-preserving filtering (JavaScript's
    `Array.prototype.filter` and push-if loops) and `Array.prototype.join`. */
module Seqs {

  /** `a` can be obtained from `b` by deleting elements, keeping the order. */
  ghost predicate IsSubsequence<T>(a: seq<T>, b: seq<T>)
    decreases |b|
  {
    if a == [] then true
    else if b == [] then false
    else (a[0] == b[0] && IsSubsequence(a[1..], b[1..])) || IsSubsequence(a, b[1..])
  }

  /** The elements of `xs` that satisfy `keep`, in their original order. */
  function Filter(xs: seq<string>, keep: string -> bool): (r: seq<string>)
    ensures forall x :: x in r <==> x in xs && keep(x)
    ensures |r| <= |xs|
  {
    if xs == [] then []
    else if keep(xs[0]) then [xs[0]] + Filter(xs[1..], keep)
    else Filter(xs[1..], keep)
  }

  /** A filter keeps the order of what it keeps. */
  lemma {:induction false} FilterIsSubsequence(xs: seq<string>, keep: string -> bool)
    ensures IsSubsequence(Filter(xs, keep), xs)
  {
    if xs != [] {
      FilterIsSubsequence(xs[1..], keep);
    }
  }

  lemma {:induction false} FilterAll(xs: seq<string>, keep: string -> bool)
    requires forall x :: x in xs ==> keep(x)
    ensures Filter(xs, keep) == xs
  {
    if xs != [] {
      FilterAll(xs[1..], keep);
    }
  }

  lemma FilterSingleton(x: string, keep: string -> bool)
    ensures Filter([x], keep) == if keep(x) then [x] else []
  {
    assert [x][1..] == [];
  }

  /** Filtering distributes over concatenation, so a filter can be computed
      one element at a time from the front. */
  lemma {:induction false} FilterAppend(xs: seq<string>, ys: seq<string>, keep: string -> bool)
    ensures Filter(xs + ys, keep) == Filter(xs, keep) + Filter(ys, keep)
  {
    if xs == [] {
      assert xs + ys == ys;
    } else {
      assert (xs + ys)[1..] == xs[1..] + ys;
      FilterAppend(xs[1..], ys, keep);
    }
  }

  /** Filtering a list extended by one element: the push-if step. */
  lemma FilterPush(xs: seq<string>, x: string, keep: string -> bool)
    ensures Filter(xs + [x], keep) == Filter(xs, keep) + if keep(x) then [x] else []
  {
    FilterAppend(xs, [x], keep);
    FilterSingleton(x, keep);
  }

  /** A filter over four elements, written out as four conditional pushes. */
  lemma FilterFour(a: string, b: string, c: string, d: string, keep: string -> bool)
    ensures Filter([a, b, c, d], keep) ==
      (if keep(a) then [a] else []) + (if keep(b) then [b] else []) +
      (if keep(c) then [c] else []) + (if keep(d) then [d] else [])
  {
    assert [a, b, c, d] == [a, b, c] + [d];
    FilterPush([a, b, c], d, keep);
    assert [a, b, c] == [a, b] + [c];
    FilterPush([a, b], c, keep);
    assert [a, b] == [a] + [b];
    FilterPush([a], b, keep);
    FilterSingleton(a, keep);
  }

  /** A filter over five elements, written out as five conditional pushes. */
  lemma FilterFive(a: string, b: string, c: string, d: string, e: string, keep: string -> bool)
    ensures Filter([a, b, c, d, e], keep) ==
      (if keep(a) then [a] else []) + (if keep(b) then [b] else []) +
      (if keep(c) then [c] else []) + (if keep(d) then [d] else []) +
      (if keep(e) then [e] else [])
  {
    assert [a, b, c, d, e] == [a, b, c, d] + [e];
    FilterPush([a, b, c, d], e, keep);
    FilterFour(a, b, c, d, keep);
  }

  /** A filter of a list without repeats has no repeats. */
  lemma {:induction false} FilterDistinct(xs: seq<string>, keep: string -> bool)
    requires Distinct(xs)
    ensures Distinct(Filter(xs, keep))
  {
    if xs != [] {
      FilterDistinct(xs[1..], keep);
      assert xs[0] !in xs[1..] by {
        forall k | 0 <= k < |xs[1..]| ensures xs[1..][k] != xs[0] {
          assert xs[1..][k] == xs[k + 1];
        }
      }
    }
  }

  /** A list without repeated elements. */
  ghost predicate Distinct<T>(xs: seq<T>) {
    forall i, j :: 0 <= i < j < |xs| ==> xs[i] != xs[j]
  }

  /** The combined length of a list of strings. */
  function TotalLength(xs: seq<string>): nat {
    if xs == [] then 0 else |xs[0]| + TotalLength(xs[1..])
  }

  /** `xs.join(sep)`: the elements separated by `sep`, "" for no elements. */
  function Join(xs: seq<string>, sep: string): (r: string)
    ensures xs == [] ==> r == ""
    ensures |xs| == 1 ==> r == xs[0]
    ensures xs != [] ==> |r| >= |xs[0]| && r[..|xs[0]|] == xs[0]
    ensures |xs| >= 2 ==> |r| >= |xs[0]| + |sep| && r[|xs[0]|..|xs[0]| + |sep|] == sep
    ensures xs != [] ==> |r| == TotalLength(xs) + (|xs| - 1) * |sep|
    decreases |xs|
  {
    if xs == [] then ""
    else if |xs| == 1 then xs[0]
    else xs[0] + sep + Join(xs[1..], sep)
  }
}
