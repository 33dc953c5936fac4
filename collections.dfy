/** Small shared vocabulary: an optional value and the order-preserving
    `Array.prototype.filter` that every list view in the application uses. */
module Collections {

  datatype Option<T> = None | Some(value: T)

  /** `xs` is obtained from `ys` by deleting elements, keeping the order of the rest. */
  predicate IsSubseq<T(==)>(xs: seq<T>, ys: seq<T>)
    decreases |ys|
  {
    if xs == [] then true
    else if ys == [] then false
    else if xs[0] == ys[0] then IsSubseq(xs[1..], ys[1..])
    else IsSubseq(xs, ys[1..])
  }

  /** A subsequence is no longer than the sequence, and one of the same length is the sequence itself. */
  lemma {:induction false} SubseqIsNoLonger<T>(xs: seq<T>, ys: seq<T>)
    requires IsSubseq(xs, ys)
    ensures |xs| <= |ys|
    ensures |xs| == |ys| ==> xs == ys
    decreases |ys|
  {
    if xs != [] {
      if xs[0] == ys[0] {
        SubseqIsNoLonger(xs[1..], ys[1..]);
        assert xs == [xs[0]] + xs[1..] && ys == [ys[0]] + ys[1..];
      } else {
        SubseqIsNoLonger(xs, ys[1..]);
      }
    }
  }

  /** `r` holds the elements of `xs` that satisfy `keep`, in their original
      order: every occurrence of a passing element, and nothing else. */
  predicate FilteredFrom<T(==)>(r: seq<T>, xs: seq<T>, keep: T -> bool) {
    && IsSubseq(r, xs)
    && multiset(r) <= multiset(xs)
    && (forall i :: 0 <= i < |r| ==> keep(r[i]))
    && (forall i :: 0 <= i < |xs| && keep(xs[i]) ==> xs[i] in r)
    && (forall y :: y in xs && keep(y) ==> multiset(r)[y] == multiset(xs)[y])
  }

  /** `Array.prototype.filter`: the elements of `xs` that satisfy `keep`, in
      their original order, with every occurrence of each of them. */
  function Filter<T>(xs: seq<T>, keep: T -> bool): (r: seq<T>)
    ensures IsSubseq(r, xs) && |r| <= |xs|
    ensures multiset(r) <= multiset(xs)
    ensures forall i :: 0 <= i < |r| ==> keep(r[i])
    ensures forall i :: 0 <= i < |xs| && keep(xs[i]) ==> xs[i] in r
    ensures forall y :: y in xs && keep(y) ==> multiset(r)[y] == multiset(xs)[y]
    decreases |xs|
  {
    if xs == [] then []
    else
      var rest := Filter(xs[1..], keep);
      var r := if keep(xs[0]) then [xs[0]] + rest else rest;
      FilterStep(xs, keep, rest, r);
      r
  }

  /** One step of `Filter`: the head is kept exactly when it passes. */
  lemma FilterStep<T>(xs: seq<T>, keep: T -> bool, rest: seq<T>, r: seq<T>)
    requires xs != [] && FilteredFrom(rest, xs[1..], keep)
    requires r == if keep(xs[0]) then [xs[0]] + rest else rest
    ensures FilteredFrom(r, xs, keep)
  {
    StepKeepsOrder(xs, keep, rest, r);
    StepKeepsCounts(xs, keep, rest, r);
  }

  /** The order and membership half of `FilterStep`. */
  lemma StepKeepsOrder<T>(xs: seq<T>, keep: T -> bool, rest: seq<T>, r: seq<T>)
    requires xs != [] && IsSubseq(rest, xs[1..])
    requires forall i :: 0 <= i < |rest| ==> keep(rest[i])
    requires forall i :: 0 <= i < |xs[1..]| && keep(xs[1..][i]) ==> xs[1..][i] in rest
    requires r == if keep(xs[0]) then [xs[0]] + rest else rest
    ensures IsSubseq(r, xs)
    ensures forall i :: 0 <= i < |r| ==> keep(r[i])
    ensures forall i :: 0 <= i < |xs| && keep(xs[i]) ==> xs[i] in r
  {
    assert forall i :: 1 <= i < |xs| ==> xs[i] == xs[1..][i - 1];
    if keep(xs[0]) {
      assert r[1..] == rest;
    }
  }

  /** The counting half of `FilterStep`. */
  lemma StepKeepsCounts<T>(xs: seq<T>, keep: T -> bool, rest: seq<T>, r: seq<T>)
    requires xs != [] && multiset(rest) <= multiset(xs[1..])
    requires forall y :: y in xs[1..] && keep(y) ==> multiset(rest)[y] == multiset(xs[1..])[y]
    requires r == if keep(xs[0]) then [xs[0]] + rest else rest
    ensures multiset(r) <= multiset(xs)
    ensures forall y :: y in xs && keep(y) ==> multiset(r)[y] == multiset(xs)[y]
  {
    assert xs == [xs[0]] + xs[1..];
    assert multiset(xs) == multiset{xs[0]} + multiset(xs[1..]);
    if keep(xs[0]) {
      assert multiset(r) == multiset{xs[0]} + multiset(rest);
    }
  }

  /** Filtering a list whose every element already passes the test changes
      nothing: every occurrence is kept, so the result is as long as the list. */
  lemma FilterKeepsAll<T>(xs: seq<T>, keep: T -> bool)
    requires forall i :: 0 <= i < |xs| ==> keep(xs[i])
    ensures Filter(xs, keep) == xs
  {
    var r := Filter(xs, keep);
    assert multiset(r) == multiset(xs) by {
      forall y
        ensures multiset(r)[y] == multiset(xs)[y]
      {
        if y in xs {
          var i :| 0 <= i < |xs| && xs[i] == y;
        }
      }
    }
    assert |r| == |multiset(r)| == |multiset(xs)| == |xs|;
    SubseqIsNoLonger(r, xs);
  }

  /** Two tests that agree on every element of the list select the same elements. */
  lemma {:induction false} FilterAgreeingTests<T>(xs: seq<T>, keep: T -> bool, keep': T -> bool)
    requires forall i :: 0 <= i < |xs| ==> keep(xs[i]) == keep'(xs[i])
    ensures Filter(xs, keep) == Filter(xs, keep')
    decreases |xs|
  {
    if xs != [] {
      assert forall i :: 0 <= i < |xs[1..]| ==> xs[1..][i] == xs[i + 1];
      FilterAgreeingTests(xs[1..], keep, keep');
    }
  }
}
