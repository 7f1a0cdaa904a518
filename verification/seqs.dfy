/** Generic facts about the array operations the store and the forms use:
    `filter`, and order-preserving selection. */
module Seqs {

  /** `a` is obtained from `b` by deleting elements: the elements of `a` occur
      in `b` in the same relative order. Matching greedily is complete. */
  predicate IsSubseq<T(==)>(a: seq<T>, b: seq<T>)
    decreases |b|
  {
    if |a| == 0 then true
    else if |b| == 0 then false
    else if a[0] == b[0] then IsSubseq(a[1..], b[1..])
    else IsSubseq(a, b[1..])
  }

  /** How many elements of `xs` satisfy `p`. */
  function Count<T>(xs: seq<T>, p: T -> bool): (n: nat)
    ensures n <= |xs|
    decreases |xs|
  {
    if |xs| == 0 then 0
    else (if p(xs[0]) then 1 else 0) + Count(xs[1..], p)
  }

  /** `xs.filter(p)`. */
  function Filter<T>(xs: seq<T>, p: T -> bool): seq<T>
    decreases |xs|
  {
    if |xs| == 0 then []
    else if p(xs[0]) then [xs[0]] + Filter(xs[1..], p)
    else Filter(xs[1..], p)
  }

  /** What `filter` keeps: exactly the elements satisfying `p`, as many of
      them as there are, in their original relative order. */
  lemma {:induction false} FilterSpec<T>(xs: seq<T>, p: T -> bool)
    ensures var r := Filter(xs, p);
      && |r| == Count(xs, p)
      && (forall i :: 0 <= i < |r| ==> p(r[i]))
      && (forall i :: 0 <= i < |xs| && p(xs[i]) ==> xs[i] in r)
      && IsSubseq(r, xs)
    decreases |xs|
  {
    if |xs| > 0 {
      var rest := Filter(xs[1..], p);
      FilterSpec(xs[1..], p);
      assert forall i :: 1 <= i < |xs| ==> xs[i] == xs[1..][i - 1];
      if p(xs[0]) {
        assert ([xs[0]] + rest)[1..] == rest;
      } else {
        assert rest == [] || rest[0] != xs[0];
      }
    }
  }

  /** When every element passes, filtering changes nothing. */
  lemma {:induction false} FilterAll<T>(xs: seq<T>, p: T -> bool)
    ensures (forall i :: 0 <= i < |xs| ==> p(xs[i])) ==> Filter(xs, p) == xs
    decreases |xs|
  {
    if |xs| > 0 && forall i :: 0 <= i < |xs| ==> p(xs[i]) {
      FilterAll(xs[1..], p);
      assert xs == [xs[0]] + xs[1..];
    }
  }

  /** Appending one rejected element to a list that passes entirely and then
      filtering gives the list back. */
  lemma FilterDropsLast<T>(xs: seq<T>, x: T, p: T -> bool)
    requires forall i :: 0 <= i < |xs| ==> p(xs[i])
    requires !p(x)
    ensures Filter(xs + [x], p) == xs
  {
    FilterAppend(xs, [x], p);
    FilterAll(xs, p);
    assert [x] == [x] + [];
    FilterCons(x, [], p);
    assert xs + [] == xs;
  }

  /** Filtering twice by the same predicate is filtering once. */
  lemma FilterIdempotent<T>(xs: seq<T>, p: T -> bool)
    ensures Filter(Filter(xs, p), p) == Filter(xs, p)
  {
    FilterAll(Filter(xs, p), p);
  }

  /** No value occurs twice. */
  predicate NoDuplicates<T(==)>(xs: seq<T>) {
    forall i, j :: 0 <= i < j < |xs| ==> xs[i] != xs[j]
  }

  /** Deleting elements keeps only values that were there and cannot create
      a duplicate. */
  lemma {:induction false} SubseqKeeps<T>(a: seq<T>, b: seq<T>)
    requires IsSubseq(a, b)
    ensures forall x :: x in a ==> x in b
    ensures NoDuplicates(b) ==> NoDuplicates(a)
    decreases |b|
  {
    if |a| == 0 {
    } else if a[0] == b[0] {
      SubseqKeeps(a[1..], b[1..]);
      assert forall x :: x in a ==> x == a[0] || x in a[1..];
      if NoDuplicates(b) {
        assert NoDuplicates(b[1..]);
        assert b[0] !in b[1..];
        forall i, j | 0 <= i < j < |a|
          ensures a[i] != a[j]
        {
          assert a[j] == a[1..][j - 1];
          if i > 0 {
            assert a[i] == a[1..][i - 1];
          }
        }
      }
    } else {
      SubseqKeeps(a, b[1..]);
      assert NoDuplicates(b) ==> NoDuplicates(b[1..]);
    }
  }

  /** `xs.map(f)`. */
  function Map<T, U>(xs: seq<T>, f: T -> U): (r: seq<U>)
    ensures |r| == |xs|
    ensures forall i :: 0 <= i < |xs| ==> r[i] == f(xs[i])
  {
    seq(|xs|, i requires 0 <= i < |xs| => f(xs[i]))
  }

  /** `key` strictly increases along `xs`. */
  predicate Increasing<T>(xs: seq<T>, key: T -> int) {
    forall i, j :: 0 <= i < j < |xs| ==> key(xs[i]) < key(xs[j])
  }

  /** Deleting elements from a strictly increasing sequence leaves one. */
  lemma {:induction false} SubseqIncreasing<T>(a: seq<T>, b: seq<T>, key: T -> int)
    requires IsSubseq(a, b) && Increasing(b, key)
    ensures Increasing(a, key)
    decreases |b|
  {
    if |a| == 0 {
    } else if a[0] == b[0] {
      assert Increasing(b[1..], key);
      SubseqIncreasing(a[1..], b[1..], key);
      SubseqKeeps(a[1..], b[1..]);
      forall i, j | 0 <= i < j < |a|
        ensures key(a[i]) < key(a[j])
      {
        assert a[j] == a[1..][j - 1];
        if i > 0 {
          assert a[i] == a[1..][i - 1];
        } else {
          assert a[j] in b[1..];
        }
      }
    } else {
      assert Increasing(b[1..], key);
      SubseqIncreasing(a, b[1..], key);
    }
  }

  /** Filtering a sequence is filtering its first element and then the rest. */
  lemma FilterCons<T>(x: T, xs: seq<T>, p: T -> bool)
    ensures Filter([x] + xs, p) == (if p(x) then [x] else []) + Filter(xs, p)
  {
    assert ([x] + xs)[1..] == xs;
  }

  /** Mapping a sequence is mapping its first element and then the rest. */
  lemma MapCons<T, U>(x: T, xs: seq<T>, f: T -> U)
    ensures Map([x] + xs, f) == [f(x)] + Map(xs, f)
  {
    assert forall i :: 0 < i <= |xs| ==> ([x] + xs)[i] == xs[i - 1];
  }

  /** Filtering by `p` and then mapping by `f` is mapping and then filtering
      by a `q` that says of `f(x)` what `p` says of `x`. */
  lemma {:induction false} MapFilter<T, U>(xs: seq<T>, f: T -> U, p: T -> bool, q: U -> bool)
    requires forall x :: p(x) == q(f(x))
    ensures Map(Filter(xs, p), f) == Filter(Map(xs, f), q)
    decreases |xs|
  {
    if |xs| > 0 {
      var x, rest := xs[0], xs[1..];
      assert xs == [x] + rest;
      MapFilter(rest, f, p, q);
      MapCons(x, rest, f);
      FilterCons(x, rest, p);
      FilterCons(f(x), Map(rest, f), q);
      if p(x) {
        MapCons(x, Filter(rest, p), f);
      }
    }
  }

  /** `(a.concat(b)).filter(p)` is `a.filter(p).concat(b.filter(p))`. */
  lemma {:induction false} FilterAppend<T>(a: seq<T>, b: seq<T>, p: T -> bool)
    ensures Filter(a + b, p) == Filter(a, p) + Filter(b, p)
    decreases |a|
  {
    if |a| == 0 {
      assert a + b == b;
    } else {
      FilterAppend(a[1..], b, p);
      assert a + b == [a[0]] + (a[1..] + b);
      assert a == [a[0]] + a[1..];
      FilterCons(a[0], a[1..] + b, p);
      FilterCons(a[0], a[1..], p);
    }
  }
}
