/** Sequence helpers shared by the aggregation code: `Array.prototype.filter`, `find`, subsequences. */
module Seqs {
  import opened Wrappers

  /** `xs.filter(f)`: the elements satisfying `f`, in their original order. */
  function Filter<T>(xs: seq<T>, f: T -> bool): (r: seq<T>)
    ensures |r| <= |xs|
    ensures forall i :: 0 <= i < |r| ==> r[i] in xs && f(r[i])
    ensures forall i :: 0 <= i < |xs| && f(xs[i]) ==> xs[i] in r
  {
    if xs == [] then [] else (if f(xs[0]) then [xs[0]] else []) + Filter(xs[1..], f)
  }

  /** `a` is obtained from `b` by deleting elements, keeping the order. */
  ghost predicate Subseq<T>(a: seq<T>, b: seq<T>)
    decreases |b|
  {
    if a == [] then true
    else if b == [] then false
    else (a[0] == b[0] && Subseq(a[1..], b[1..])) || Subseq(a, b[1..])
  }

  /** Filtering keeps the order of what it keeps. */
  lemma {:induction false} FilterIsSubseq<T>(xs: seq<T>, f: T -> bool)
    ensures Subseq(Filter(xs, f), xs)
  {
    if xs != [] {
      FilterIsSubseq(xs[1..], f);
      var r := Filter(xs, f);
      if f(xs[0]) {
        assert r[0] == xs[0] && r[1..] == Filter(xs[1..], f);
      } else {
        assert r == Filter(xs[1..], f);
      }
    }
  }

  /** Filtering keeps every occurrence of a satisfying element and none of the others. */
  lemma {:induction false} FilterCounts<T>(xs: seq<T>, f: T -> bool)
    ensures forall x {:trigger multiset(xs)[x]} :: multiset(Filter(xs, f))[x] == if f(x) then multiset(xs)[x] else 0
  {
    if xs != [] {
      FilterCounts(xs[1..], f);
      var head := if f(xs[0]) then [xs[0]] else [];
      assert xs == [xs[0]] + xs[1..];
      assert multiset(xs) == multiset{xs[0]} + multiset(xs[1..]);
      assert multiset(Filter(xs, f)) == multiset(head) + multiset(Filter(xs[1..], f));
      forall x
        ensures multiset(Filter(xs, f))[x] == if f(x) then multiset(xs)[x] else 0
      {
        assert multiset(Filter(xs[1..], f))[x] == if f(x) then multiset(xs[1..])[x] else 0;
      }
    } else {
      assert Filter(xs, f) == [];
    }
  }

  lemma {:induction false} FilterAppend<T>(a: seq<T>, b: seq<T>, f: T -> bool)
    ensures Filter(a + b, f) == Filter(a, f) + Filter(b, f)
  {
    if a == [] {
      assert a + b == b;
    } else {
      assert (a + b)[0] == a[0] && (a + b)[1..] == a[1..] + b;
      FilterAppend(a[1..], b, f);
    }
  }

  /** Filtering a sequence extended by one element. */
  lemma FilterLast<T>(xs: seq<T>, x: T, f: T -> bool)
    ensures Filter(xs + [x], f) == if f(x) then Filter(xs, f) + [x] else Filter(xs, f)
  {
    FilterAppend(xs, [x], f);
    assert [x][1..] == [];
    assert Filter([x], f) == (if f(x) then [x] else []) + Filter([x][1..], f);
  }

  /** A filter that every element passes is the identity. */
  lemma {:induction false} FilterAll<T>(xs: seq<T>, f: T -> bool)
    requires forall i :: 0 <= i < |xs| ==> f(xs[i])
    ensures Filter(xs, f) == xs
  {
    if xs != [] {
      FilterAll(xs[1..], f);
    }
  }

  /** A filter that no element passes yields nothing. */
  lemma {:induction false} FilterNone<T>(xs: seq<T>, f: T -> bool)
    requires forall i :: 0 <= i < |xs| ==> !f(xs[i])
    ensures Filter(xs, f) == []
  {
    if xs != [] {
      FilterNone(xs[1..], f);
    }
  }

  /** Two filters that agree on every element of `xs` select the same subsequence. */
  lemma {:induction false} FilterCongruent<T>(xs: seq<T>, f: T -> bool, g: T -> bool)
    requires forall i :: 0 <= i < |xs| ==> f(xs[i]) == g(xs[i])
    ensures Filter(xs, f) == Filter(xs, g)
  {
    if xs != [] {
      FilterCongruent(xs[1..], f, g);
    }
  }

  /** `xs.find(f)`: the first element satisfying `f`, if any. */
  function Find<T>(xs: seq<T>, f: T -> bool): (r: Option<T>)
    ensures r.None? <==> forall i :: 0 <= i < |xs| ==> !f(xs[i])
    ensures r.Some? ==> exists i :: 0 <= i < |xs| && xs[i] == r.value && f(r.value)
                          && forall j :: 0 <= j < i ==> !f(xs[j])
  {
    if xs == [] then None
    else if f(xs[0]) then Some(xs[0])
    else
      var r := Find(xs[1..], f);
      assert r.Some? ==> exists i :: 0 <= i < |xs[1..]| && xs[1..][i] == r.value && f(r.value)
                          && forall j :: 0 <= j < i ==> !f(xs[1..][j]);
      assert forall i :: 1 <= i < |xs| ==> xs[i] == xs[1..][i - 1];
      r
  }

  /** Searching a list extended at the end finds the old match first. */
  lemma {:induction false} FindAppend<T>(xs: seq<T>, y: T, f: T -> bool)
    ensures Find(xs + [y], f) == if Find(xs, f).Some? then Find(xs, f) else if f(y) then Some(y) else None
  {
    if xs != [] {
      assert (xs + [y])[1..] == xs[1..] + [y];
      FindAppend(xs[1..], y, f);
    }
  }

  /** No element occurs twice. */
  predicate Distinct<T(==)>(xs: seq<T>) {
    forall i, j :: 0 <= i < j < |xs| ==> xs[i] != xs[j]
  }

  /** The position of the first element satisfying `f`, if any (a dictionary lookup by key). */
  function FindIndex<T>(xs: seq<T>, f: T -> bool): (r: Option<nat>)
    ensures r.None? <==> forall i :: 0 <= i < |xs| ==> !f(xs[i])
    ensures r.Some? ==> r.value < |xs| && f(xs[r.value]) && forall j :: 0 <= j < r.value ==> !f(xs[j])
  {
    if xs == [] then None
    else if f(xs[0]) then Some(0)
    else
      match FindIndex(xs[1..], f)
      case None => None
      case Some(k) => Some(k + 1)
  }

  /** `xs.reduce((acc, x) => acc + f(x), 0)` on integers. */
  function Sum<T>(xs: seq<T>, f: T -> int): int {
    if xs == [] then 0 else f(xs[0]) + Sum(xs[1..], f)
  }

  lemma {:induction false} SumAppend<T>(xs: seq<T>, y: T, f: T -> int)
    ensures Sum(xs + [y], f) == Sum(xs, f) + f(y)
  {
    if xs != [] {
      assert (xs + [y])[1..] == xs[1..] + [y];
      SumAppend(xs[1..], y, f);
    }
  }

  /** Replacing one element changes the sum by the difference of that element's terms. */
  lemma {:induction false} SumUpdate<T>(xs: seq<T>, k: nat, y: T, f: T -> int)
    requires k < |xs|
    ensures Sum(xs[k := y], f) == Sum(xs, f) - f(xs[k]) + f(y)
  {
    if k > 0 {
      assert xs[k := y][1..] == xs[1..][k - 1 := y];
      SumUpdate(xs[1..], k - 1, y, f);
    } else {
      assert xs[k := y][1..] == xs[1..];
    }
  }

  /** Filtering out only elements whose term is 0 leaves the sum unchanged. */
  lemma {:induction false} SumFilterZero<T>(xs: seq<T>, p: T -> bool, f: T -> int)
    requires forall i :: 0 <= i < |xs| && !p(xs[i]) ==> f(xs[i]) == 0
    ensures Sum(Filter(xs, p), f) == Sum(xs, f)
  {
    if xs != [] {
      SumFilterZero(xs[1..], p, f);
      if p(xs[0]) {
        assert ([xs[0]] + Filter(xs[1..], p))[1..] == Filter(xs[1..], p);
      } else {
        assert [] + Filter(xs[1..], p) == Filter(xs[1..], p);
      }
    }
  }
}
