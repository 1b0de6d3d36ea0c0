/**
 * JavaScript's relational operators on strings: lexicographic order on character codes.
 * The source compares calendar days written `YYYY-MM-DD`, for which this order is the
 * chronological one.
 */
module Lex {
  import Seqs

  /** `a <= b` on strings. */
  predicate Le(a: string, b: string)
    decreases |a|
  {
    if a == [] then true
    else if b == [] then false
    else if a[0] != b[0] then a[0] < b[0]
    else Le(a[1..], b[1..])
  }

  /** `a < b` on strings. */
  predicate Lt(a: string, b: string) {
    Le(a, b) && a != b
  }

  lemma {:induction false} LeReflexive(a: string)
    ensures Le(a, a)
  {
    if a != [] {
      LeReflexive(a[1..]);
    }
  }

  lemma {:induction false} LeAntisymmetric(a: string, b: string)
    requires Le(a, b) && Le(b, a)
    ensures a == b
  {
    if a != [] && b != [] {
      LeAntisymmetric(a[1..], b[1..]);
      assert a == [a[0]] + a[1..] && b == [b[0]] + b[1..];
    }
  }

  lemma {:induction false} LeTransitive(a: string, b: string, c: string)
    requires Le(a, b) && Le(b, c)
    ensures Le(a, c)
  {
    if a != [] && b != [] && c != [] && a[0] == b[0] && b[0] == c[0] {
      LeTransitive(a[1..], b[1..], c[1..]);
    }
  }

  lemma {:induction false} LeTotal(a: string, b: string)
    ensures Le(a, b) || Le(b, a)
  {
    if a != [] && b != [] && a[0] == b[0] {
      LeTotal(a[1..], b[1..]);
    }
  }

  /** Strings whose first `n` characters already compare strictly compare the same way. */
  lemma {:induction false} PrefixDecides(a: string, b: string, n: nat)
    requires n <= |a| && n <= |b| && Lt(a[..n], b[..n])
    ensures Lt(a, b)
  {
    assert a[..n][0] == a[0] && b[..n][0] == b[0];
    if a[0] == b[0] {
      assert a[..n][1..] == a[1..][..n - 1] && b[..n][1..] == b[1..][..n - 1];
      PrefixDecides(a[1..], b[1..], n - 1);
      assert a == [a[0]] + a[1..] && b == [b[0]] + b[1..];
    }
  }

  /** The keys of `xs` strictly ascend, so no two elements share a key. */
  predicate AscendingBy<T>(xs: seq<T>, key: T -> string) {
    forall i, j :: 0 <= i < j < |xs| ==> Lt(key(xs[i]), key(xs[j]))
  }

  /** Inserts `x` before the first element whose key is not below `x`'s. */
  function InsertBy<T>(x: T, xs: seq<T>, key: T -> string): (r: seq<T>)
    ensures multiset(r) == multiset(xs) + multiset{x}
  {
    if xs == [] then [x]
    else if Le(key(x), key(xs[0])) then [x] + xs
    else
      assert xs == [xs[0]] + xs[1..];
      [xs[0]] + InsertBy(x, xs[1..], key)
  }

  /**
   * `Array.prototype.sort` by a key compared in ascending order, written as an insertion
   * sort: the same multiset of elements.
   */
  function SortBy<T>(xs: seq<T>, key: T -> string): (r: seq<T>)
    ensures multiset(r) == multiset(xs)
  {
    if xs == [] then [] else
      assert xs == [xs[0]] + xs[1..];
      InsertBy(xs[0], SortBy(xs[1..], key), key)
  }

  /** An element below every key of an ascending sequence may go in front of it. */
  lemma ConsAscending<T>(y: T, t: seq<T>, key: T -> string)
    requires AscendingBy(t, key)
    requires forall k :: 0 <= k < |t| ==> Lt(key(y), key(t[k]))
    ensures AscendingBy([y] + t, key)
  {
    var r := [y] + t;
    forall i, j | 0 <= i < j < |r|
      ensures Lt(key(r[i]), key(r[j]))
    {
      assert r[j] == t[j - 1];
      if i > 0 {
        assert r[i] == t[i - 1];
      }
    }
  }

  /** Inserting behind the head keeps every element above the head. */
  lemma AboveHead<T>(x: T, xs: seq<T>, key: T -> string)
    requires xs != [] && AscendingBy(xs, key) && !Le(key(x), key(xs[0]))
    ensures forall k :: 0 <= k < |InsertBy(x, xs[1..], key)| ==> Lt(key(xs[0]), key(InsertBy(x, xs[1..], key)[k]))
  {
    var t := InsertBy(x, xs[1..], key);
    LeTotal(key(x), key(xs[0]));
    forall k | 0 <= k < |t|
      ensures Lt(key(xs[0]), key(t[k]))
    {
      assert t[k] in multiset(t);
      assert t[k] in multiset(xs[1..]) + multiset{x};
      if t[k] != x {
        assert t[k] in xs[1..];
        var m :| 0 <= m < |xs[1..]| && xs[1..][m] == t[k];
        assert xs[m + 1] == t[k];
      }
    }
  }

  lemma {:induction false} InsertAscending<T>(x: T, xs: seq<T>, key: T -> string)
    requires AscendingBy(xs, key)
    requires forall i :: 0 <= i < |xs| ==> key(xs[i]) != key(x)
    ensures AscendingBy(InsertBy(x, xs, key), key)
  {
    if xs != [] && !Le(key(x), key(xs[0])) {
      InsertAscending(x, xs[1..], key);
      AboveHead(x, xs, key);
      ConsAscending(xs[0], InsertBy(x, xs[1..], key), key);
    } else if xs != [] {
      forall k | 0 <= k < |xs|
        ensures Lt(key(x), key(xs[k]))
      {
        if k > 0 {
          LeTransitive(key(x), key(xs[0]), key(xs[k]));
        }
      }
      ConsAscending(x, xs, key);
    }
  }

  /** Sorting elements with pairwise distinct keys makes the keys strictly ascend. */
  lemma {:induction false} SortAscending<T>(xs: seq<T>, key: T -> string)
    requires forall i, j :: 0 <= i < j < |xs| ==> key(xs[i]) != key(xs[j])
    ensures AscendingBy(SortBy(xs, key), key)
  {
    if xs != [] {
      SortAscending(xs[1..], key);
      var s := SortBy(xs[1..], key);
      forall i | 0 <= i < |s|
        ensures key(s[i]) != key(xs[0])
      {
        assert s[i] in multiset(xs[1..]);
        var m :| 0 <= m < |xs[1..]| && xs[1..][m] == s[i];
        assert xs[m + 1] == s[i];
      }
      InsertAscending(xs[0], s, key);
    }
  }

  /** Insertion adds the inserted element's term to any integer sum. */
  lemma {:induction false} SumInsert<T>(x: T, xs: seq<T>, key: T -> string, f: T -> int)
    ensures Seqs.Sum(InsertBy(x, xs, key), f) == f(x) + Seqs.Sum(xs, f)
  {
    if xs != [] && !Le(key(x), key(xs[0])) {
      SumInsert(x, xs[1..], key, f);
      assert ([xs[0]] + InsertBy(x, xs[1..], key))[1..] == InsertBy(x, xs[1..], key);
    } else if xs != [] {
      assert ([x] + xs)[1..] == xs;
    }
  }

  /** Sorting does not change an integer sum over the elements. */
  lemma {:induction false} SumSort<T>(xs: seq<T>, key: T -> string, f: T -> int)
    ensures Seqs.Sum(SortBy(xs, key), f) == Seqs.Sum(xs, f)
  {
    if xs != [] {
      SumSort(xs[1..], key, f);
      SumInsert(xs[0], SortBy(xs[1..], key), key, f);
    }
  }
}
