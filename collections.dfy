/** Sequence helpers shared by the ranking and fairness modules: the meaning of
    a stream `filter`, integer sums, ranges of positions and reindexing a
    sequence by a sequence of positions. */
module Collections {

  /** `xs.stream().filter(p)`: the elements of `xs` satisfying `p`, in order. */
  function Filter<T(!new)>(xs: seq<T>, p: T -> bool): (r: seq<T>)
    ensures |r| <= |xs|
    ensures forall x :: multiset(r)[x] == if p(x) then multiset(xs)[x] else 0
    ensures forall x :: x in r ==> x in xs && p(x)
  {
    if xs == [] then []
    else
      var rest := Filter(xs[1..], p);
      assert xs == [xs[0]] + xs[1..];
      if p(xs[0]) then [xs[0]] + rest else rest
  }

  /** Filtering by `p` and by `!p` splits `xs` into two disjoint parts. */
  lemma FilterPartition<T(!new)>(xs: seq<T>, p: T -> bool)
    ensures multiset(Filter(xs, p)) + multiset(Filter(xs, x => !p(x))) == multiset(xs)
    ensures |Filter(xs, p)| + |Filter(xs, x => !p(x))| == |xs|
  {
    var a, b := Filter(xs, p), Filter(xs, x => !p(x));
    assert multiset(a) + multiset(b) == multiset(xs) by {
      forall x ensures (multiset(a) + multiset(b))[x] == multiset(xs)[x] { }
    }
    assert |multiset(a) + multiset(b)| == |multiset(xs)|;
  }

  /** Two predicates that never hold together select at most `|xs|` elements. */
  lemma {:induction false} FilterDisjoint<T(!new)>(xs: seq<T>, p: T -> bool, q: T -> bool)
    requires forall x :: x in xs ==> !(p(x) && q(x))
    ensures |Filter(xs, p)| + |Filter(xs, q)| <= |xs|
  {
    if xs != [] {
      FilterDisjoint(xs[1..], p, q);
    }
  }

  /** A predicate implied by another selects at least as many elements. */
  lemma {:induction false} FilterMonotone<T(!new)>(xs: seq<T>, p: T -> bool, q: T -> bool)
    requires forall x :: x in xs && p(x) ==> q(x)
    ensures |Filter(xs, p)| <= |Filter(xs, q)|
  {
    if xs != [] {
      FilterMonotone(xs[1..], p, q);
    }
  }

  /** A predicate no element satisfies selects nothing. */
  lemma FilterNone<T(!new)>(xs: seq<T>, p: T -> bool)
    requires forall x :: x in xs ==> !p(x)
    ensures Filter(xs, p) == []
  {
  }

  /** The number of elements satisfying `p`, as `stream().filter(p).count()`. */
  function Count<T>(xs: seq<T>, p: T -> bool): (n: nat)
    ensures n <= |xs|
  {
    if xs == [] then 0 else (if p(xs[0]) then 1 else 0) + Count(xs[1..], p)
  }

  /** Counting is the length of the filtered sequence. */
  lemma {:induction false} CountIsFilterLength<T(!new)>(xs: seq<T>, p: T -> bool)
    ensures Count(xs, p) == |Filter(xs, p)|
  {
    if xs != [] {
      CountIsFilterLength(xs[1..], p);
    }
  }

  /** A predicate implied by another counts at most as many elements. */
  lemma CountMonotone<T(!new)>(xs: seq<T>, p: T -> bool, q: T -> bool)
    requires forall x :: x in xs && p(x) ==> q(x)
    ensures Count(xs, p) <= Count(xs, q)
  {
    CountIsFilterLength(xs, p);
    CountIsFilterLength(xs, q);
    FilterMonotone(xs, p, q);
  }

  /** The sum of a sequence of integers. */
  function Sum(xs: seq<int>): int
  {
    if xs == [] then 0 else xs[0] + Sum(xs[1..])
  }

  /** Removing the element at position `j` removes exactly its value from the sum. */
  lemma {:induction false} SumRemove(xs: seq<int>, j: nat)
    requires j < |xs|
    ensures Sum(xs) == xs[j] + Sum(xs[..j] + xs[j + 1..])
  {
    if j > 0 {
      SumRemove(xs[1..], j - 1);
      assert xs[1..][..j - 1] + xs[1..][j..] == (xs[..j] + xs[j + 1..])[1..];
    } else {
      assert xs[..0] + xs[1..] == xs[1..];
    }
  }

  /** The sum of a sequence depends only on its multiset of elements. */
  lemma {:induction false} SumOfPermutation(xs: seq<int>, ys: seq<int>)
    requires multiset(xs) == multiset(ys)
    ensures Sum(xs) == Sum(ys)
  {
    if xs == [] {
      assert |ys| == |multiset(ys)| == 0;
    } else {
      assert xs[0] in multiset(ys);
      var j :| 0 <= j < |ys| && ys[j] == xs[0];
      var rest := ys[..j] + ys[j + 1..];
      assert ys == ys[..j] + [ys[j]] + ys[j + 1..];
      assert xs == [xs[0]] + xs[1..];
      assert multiset(rest) == multiset(ys) - multiset{ys[j]};
      assert multiset(xs[1..]) == multiset(xs) - multiset{xs[0]};
      SumOfPermutation(xs[1..], rest);
      SumRemove(ys, j);
    }
  }

  /** The sum of the pointwise difference of two sequences. */
  lemma {:induction false} SumOfDifference(xs: seq<int>, ys: seq<int>, ds: seq<int>)
    requires |xs| == |ys| == |ds|
    requires forall i :: 0 <= i < |ds| ==> ds[i] == xs[i] - ys[i]
    ensures Sum(ds) == Sum(xs) - Sum(ys)
  {
    if ds != [] {
      SumOfDifference(xs[1..], ys[1..], ds[1..]);
    }
  }

  /** The positions `0 .. n-1` in increasing order. */
  function Range(n: nat): (r: seq<nat>)
    ensures |r| == n && forall k :: 0 <= k < n ==> r[k] == k
  {
    seq(n, k => k)
  }

  /** The ranks `1 .. n` in increasing order. */
  function Ranks(n: nat): (r: seq<int>)
    ensures |r| == n && forall k :: 0 <= k < n ==> r[k] == k + 1
  {
    seq(n, k => k + 1)
  }

  /** Every position of `ps` is a valid index into a sequence of length `n`. */
  predicate InBounds(ps: seq<nat>, n: nat)
  {
    forall k :: 0 <= k < |ps| ==> ps[k] < n
  }

  /** No position occurs twice. */
  predicate Distinct(ps: seq<nat>)
  {
    forall k, l :: 0 <= k < l < |ps| ==> ps[k] != ps[l]
  }

  /** `ps` lists every position `0 .. n-1` exactly once. */
  predicate IsPermutation(ps: seq<nat>, n: nat)
  {
    multiset(ps) == multiset(Range(n))
  }

  /** The sequence `xs[ps[0]], xs[ps[1]], ...`. */
  function Reindex<T>(xs: seq<T>, ps: seq<nat>): (r: seq<T>)
    requires InBounds(ps, |xs|)
    ensures |r| == |ps| && forall k :: 0 <= k < |ps| ==> r[k] == xs[ps[k]]
  {
    seq(|ps|, k requires 0 <= k < |ps| => xs[ps[k]])
  }

  lemma PermutationInBounds(ps: seq<nat>, n: nat)
    requires IsPermutation(ps, n)
    ensures InBounds(ps, n) && |ps| == n
  {
    forall k | 0 <= k < |ps| ensures ps[k] < n {
      assert ps[k] in multiset(Range(n));
    }
    assert |ps| == |multiset(ps)| == |multiset(Range(n))| == n;
  }

  lemma ReindexConcat<T>(xs: seq<T>, ps: seq<nat>, qs: seq<nat>)
    requires InBounds(ps, |xs|) && InBounds(qs, |xs|)
    ensures InBounds(ps + qs, |xs|)
    ensures Reindex(xs, ps + qs) == Reindex(xs, ps) + Reindex(xs, qs)
  {
  }

  /** Reindexing by a list of positions with the one at `j` taken out loses
      exactly the element that position selects. */
  lemma ReindexRemove<T>(xs: seq<T>, qs: seq<nat>, j: nat)
    requires InBounds(qs, |xs|) && j < |qs|
    ensures InBounds(qs[..j] + qs[j + 1..], |xs|)
    ensures multiset(Reindex(xs, qs)) == multiset{xs[qs[j]]} + multiset(Reindex(xs, qs[..j] + qs[j + 1..]))
  {
    var front, back := qs[..j], qs[j + 1..];
    assert InBounds(front, |xs|) && InBounds(back, |xs|);
    var f, b := Reindex(xs, front), Reindex(xs, back);
    var e := Reindex(xs, [qs[j]]);
    assert e == [xs[qs[j]]];
    ReindexConcat(xs, front, back);
    ReindexConcat(xs, front, [qs[j]]);
    ReindexConcat(xs, front + [qs[j]], back);
    assert front + [qs[j]] + back == qs;
    assert Reindex(xs, qs) == f + e + b;
    assert multiset(f + e + b) == multiset(f) + multiset(e) + multiset(b);
    assert multiset(f + b) == multiset(f) + multiset(b);
  }

  /** Taking one position out of a list takes one copy of it out of its
      multiset. */
  lemma MultisetRemove(qs: seq<nat>, j: nat)
    requires j < |qs|
    ensures multiset(qs[..j] + qs[j + 1..]) == multiset(qs) - multiset{qs[j]}
  {
    assert qs == qs[..j] + [qs[j]] + qs[j + 1..];
  }

  /** The first position contributes the first element. */
  lemma ReindexFirst<T>(xs: seq<T>, ps: seq<nat>)
    requires InBounds(ps, |xs|) && ps != []
    ensures InBounds(ps[1..], |xs|)
    ensures multiset(Reindex(xs, ps)) == multiset{xs[ps[0]]} + multiset(Reindex(xs, ps[1..]))
  {
    assert Reindex(xs, ps) == [xs[ps[0]]] + Reindex(xs, ps[1..]);
  }

  /** Reindexing by two sequences of positions with the same multiset gives
      two sequences with the same multiset. */
  lemma {:induction false} ReindexOfPermutation<T>(xs: seq<T>, ps: seq<nat>, qs: seq<nat>)
    requires InBounds(ps, |xs|) && InBounds(qs, |xs|)
    requires multiset(ps) == multiset(qs)
    ensures multiset(Reindex(xs, ps)) == multiset(Reindex(xs, qs))
  {
    if ps == [] {
      assert |qs| == |multiset(qs)| == 0;
    } else {
      assert ps[0] in multiset(qs);
      var j :| 0 <= j < |qs| && qs[j] == ps[0];
      var rest := qs[..j] + qs[j + 1..];
      ReindexRemove(xs, qs, j);
      ReindexFirst(xs, ps);
      MultisetRemove(qs, j);
      MultisetRemove(ps, 0);
      assert ps[..0] + ps[1..] == ps[1..];
      ReindexOfPermutation(xs, ps[1..], rest);
    }
  }

  /** Reindexing by a permutation of the positions preserves the multiset. */
  lemma ReindexIsPermutation<T>(xs: seq<T>, ps: seq<nat>)
    requires IsPermutation(ps, |xs|)
    ensures InBounds(ps, |xs|)
    ensures multiset(Reindex(xs, ps)) == multiset(xs)
  {
    PermutationInBounds(ps, |xs|);
    ReindexOfPermutation(xs, ps, Range(|xs|));
    assert Reindex(xs, Range(|xs|)) == xs;
  }
}
