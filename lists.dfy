/** Sequence helpers shared by the pages: Array.prototype.slice(0, n) and the
    first-appearance de-duplication that `new Set(...)` performs. */
module Lists {

  /** `s.slice(0, n)`: the first n elements, or all of them when there are fewer. */
  function Take<T>(s: seq<T>, n: nat): (r: seq<T>)
    ensures |r| == if |s| < n then |s| else n
    ensures forall i :: 0 <= i < |r| ==> r[i] == s[i]
  {
    if |s| < n then s else s[..n]
  }

  predicate Distinct<T(==)>(s: seq<T>) {
    forall i, j :: 0 <= i < j < |s| ==> s[i] != s[j]
  }

  /** The position of the element `s.find(pred)` returns: the first element that passes, and
      |s| when none does. */
  function FindIndex<T>(s: seq<T>, pred: T -> bool): (i: nat)
    ensures i <= |s|
    ensures i < |s| ==> pred(s[i])
    ensures forall k :: 0 <= k < i ==> !pred(s[k])
  {
    if s == [] then 0 else if pred(s[0]) then 0 else 1 + FindIndex(s[1..], pred)
  }

  /** Index of the first occurrence of x in s. */
  function FirstIndex<T(==)>(s: seq<T>, x: T): (i: nat)
    requires x in s
    ensures i < |s| && s[i] == x
    ensures forall k :: 0 <= k < i ==> s[k] != x
  {
    FindIndex(s, (y: T) => y == x)
  }

  /** Keep the first occurrence of every element, in order of first appearance. */
  function Dedup<T(==,!new)>(s: seq<T>): (r: seq<T>)
    ensures Distinct(r)
    ensures forall x :: x in r <==> x in s
    ensures |r| <= |s|
  {
    if s == [] then []
    else
      var d := Dedup(s[..|s| - 1]);
      var x := s[|s| - 1];
      assert forall y :: y in s <==> y in s[..|s| - 1] || y == x by {
        assert s == s[..|s| - 1] + [x];
      }
      if x in d then d else d + [x]
  }

  lemma {:induction false} DedupOfDistinct<T(!new)>(s: seq<T>)
    requires Distinct(s)
    ensures Dedup(s) == s
  {
    if s != [] {
      var p := s[..|s| - 1];
      DedupOfDistinct(p);
      assert s[|s| - 1] !in p;
      assert s == p + [s[|s| - 1]];
    }
  }

  /** Dedup lists elements in the order in which they first appear in s. */
  lemma {:induction false} DedupFirstAppearance<T(!new)>(s: seq<T>, i: nat, j: nat)
    requires i < j < |Dedup(s)|
    ensures Dedup(s)[i] in s && Dedup(s)[j] in s
    ensures FirstIndex(s, Dedup(s)[i]) < FirstIndex(s, Dedup(s)[j])
  {
    var p := s[..|s| - 1];
    var x := s[|s| - 1];
    var d := Dedup(p);
    assert s == p + [x];
    var a, b := Dedup(s)[i], Dedup(s)[j];
    FirstIndexPrefix(p, x, a);
    if j < |d| {
      DedupFirstAppearance(p, i, j);
      FirstIndexPrefix(p, x, b);
    } else {
      assert b == x && x !in p;
      assert FirstIndex(s, b) == |p| by {
        FirstIndexAt(s, |p|);
      }
    }
  }

  lemma FirstIndexPrefix<T>(p: seq<T>, x: T, y: T)
    requires y in p
    ensures FirstIndex(p + [x], y) == FirstIndex(p, y)
  {
    var i := FirstIndex(p, y);
    FirstIndexAt(p + [x], i);
  }

  /** An index holding y with no earlier y is the first index. */
  lemma FirstIndexAt<T>(s: seq<T>, i: nat)
    requires i < |s|
    requires forall k :: 0 <= k < i ==> s[k] != s[i]
    ensures FirstIndex(s, s[i]) == i
  {
  }

  /** `s.filter(keep)`: the elements that pass, in their original order. */
  function Filter<T(==,!new)>(s: seq<T>, keep: T -> bool): (r: seq<T>)
    ensures |r| <= |s|
    ensures forall i :: 0 <= i < |r| ==> r[i] in s && keep(r[i])
  {
    if s == [] then []
    else (if keep(s[0]) then [s[0]] else []) + Filter(s[1..], keep)
  }

  /** Every element of s that passes the test is kept. */
  lemma {:induction false} FilterKeepsPassing<T(!new)>(s: seq<T>, keep: T -> bool, x: T)
    requires x in s && keep(x)
    ensures x in Filter(s, keep)
  {
    if s[0] != x { FilterKeepsPassing(s[1..], keep, x); }
  }

  lemma {:induction false} FilterKeepsAll<T(!new)>(s: seq<T>, keep: T -> bool)
    requires forall i :: 0 <= i < |s| ==> keep(s[i])
    ensures Filter(s, keep) == s
  {
    if s != [] { FilterKeepsAll(s[1..], keep); }
  }

  lemma {:induction false} FilterConcat<T(!new)>(a: seq<T>, b: seq<T>, keep: T -> bool)
    ensures Filter(a + b, keep) == Filter(a, keep) + Filter(b, keep)
  {
    if a == [] {
      assert a + b == b;
    } else {
      assert (a + b)[0] == a[0] && (a + b)[1..] == a[1..] + b;
      FilterConcat(a[1..], b, keep);
    }
  }

  /** Filtering out the single position that fails the test is deleting that position. */
  lemma {:induction false} FilterDropsOne<T(!new)>(s: seq<T>, i: nat, keep: T -> bool)
    requires i < |s| && !keep(s[i])
    requires forall k :: 0 <= k < |s| && k != i ==> keep(s[k])
    ensures Filter(s, keep) == s[..i] + s[i + 1..]
  {
    var t := s[1..];
    if i == 0 {
      assert forall k :: 0 <= k < |t| ==> keep(t[k]) by {
        forall k | 0 <= k < |t| ensures keep(t[k]) { assert t[k] == s[k + 1]; }
      }
      FilterKeepsAll(t, keep);
    } else {
      assert forall k :: 0 <= k < |t| && k != i - 1 ==> keep(t[k]) by {
        forall k | 0 <= k < |t| && k != i - 1 ensures keep(t[k]) { assert t[k] == s[k + 1]; }
      }
      FilterDropsOne(t, i - 1, keep);
      assert s[..i] == [s[0]] + t[..i - 1];
      assert s[i + 1..] == t[i..];
    }
  }

  lemma FilterSingle<T(!new)>(x: T, keep: T -> bool)
    ensures Filter([x], keep) == if keep(x) then [x] else []
  {
    assert [x][1..] == [];
  }

  lemma {:induction false} FilterDistinct<T(!new)>(s: seq<T>, keep: T -> bool)
    requires Distinct(s)
    ensures Distinct(Filter(s, keep))
  {
    if s != [] {
      FilterDistinct(s[1..], keep);
      assert s[0] !in s[1..];
    }
  }

  /** Two filters in a row are one filter by the conjunction of the tests. */
  lemma {:induction false} FilterFilter<T(!new)>(s: seq<T>, p: T -> bool, q: T -> bool, pq: T -> bool)
    requires forall x :: pq(x) == (p(x) && q(x))
    ensures Filter(Filter(s, p), q) == Filter(s, pq)
  {
    if s != [] {
      var head := if p(s[0]) then [s[0]] else [];
      FilterConcat(head, Filter(s[1..], p), q);
      if p(s[0]) { FilterSingle(s[0], q); }
      FilterFilter(s[1..], p, q, pq);
    }
  }

  /** Filtering s by keep when cond holds, and not at all otherwise, is filtering by a test
      that passes everything when cond is false. */
  lemma FilterWhen<T(!new)>(s: seq<T>, cond: bool, keep: T -> bool, k: T -> bool)
    requires forall x :: k(x) == (!cond || keep(x))
    ensures (if cond then Filter(s, keep) else s) == Filter(s, k)
  {
    if cond { FilterSame(s, keep, k); } else { FilterKeepsAll(s, k); }
  }

  /** Tests that agree on every element filter alike. */
  lemma {:induction false} FilterSame<T(!new)>(s: seq<T>, p: T -> bool, q: T -> bool)
    requires forall x :: x in s ==> p(x) == q(x)
    ensures Filter(s, p) == Filter(s, q)
  {
    if s != [] { FilterSame(s[1..], p, q); }
  }

  /** a is what remains of b after deleting some of its elements: a keeps b's order. */
  predicate Subseq<T(==)>(a: seq<T>, b: seq<T>)
    decreases |b|
  {
    a == [] || (b != [] && ((a[0] == b[0] && Subseq(a[1..], b[1..])) || Subseq(a, b[1..])))
  }

  /** A filter keeps the order of its input. */
  lemma {:induction false} FilterSubseq<T(!new)>(s: seq<T>, keep: T -> bool)
    ensures Subseq(Filter(s, keep), s)
  {
    if s != [] {
      FilterSubseq(s[1..], keep);
      if keep(s[0]) {
        var r := Filter(s, keep);
        assert r[0] == s[0] && r[1..] == Filter(s[1..], keep);
      } else {
        assert Filter(s, keep) == Filter(s[1..], keep);
      }
    }
  }

  /** A prefix of an ordered selection is an ordered selection. */
  lemma {:induction false} TakeSubseq<T>(a: seq<T>, b: seq<T>, n: nat)
    requires Subseq(a, b)
    ensures Subseq(Take(a, n), b)
    decreases |b|
  {
    var t := Take(a, n);
    if t != [] {
      assert a != [] && t[0] == a[0] && t[1..] == Take(a[1..], n - 1);
      if a[0] == b[0] && Subseq(a[1..], b[1..]) {
        TakeSubseq(a[1..], b[1..], n - 1);
      } else {
        TakeSubseq(a, b[1..], n);
      }
    }
  }

  /** The first n of the elements of s that pass the test: an ordered selection from s,
      all passing, and every passing element when there are at most n of them. */
  lemma TakeFilter<T(!new)>(s: seq<T>, keep: T -> bool, n: nat)
    ensures var r := Take(Filter(s, keep), n);
      && |r| <= n
      && Subseq(r, s)
      && (forall i :: 0 <= i < |r| ==> r[i] in s && keep(r[i]))
      && (|Filter(s, keep)| <= n ==> forall x :: x in s && keep(x) ==> x in r)
  {
    FilterSubseq(s, keep);
    TakeSubseq(Filter(s, keep), s, n);
    var f := Filter(s, keep);
    if |f| <= n {
      assert Take(f, n) == f;
      forall x | x in s && keep(x) ensures x in f {
        FilterKeepsPassing(s, keep, x);
      }
    }
  }
}
