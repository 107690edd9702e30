/** Orderings on products used by the listing page and the home page, and the stable sort the
    pages rely on (Array.prototype.sort is stable): a functional insertion sort that specifies
    the result, and the in-place array version that the listing page runs. */
module ProductOrder {
  import opened Types
  import Text

  /** The listing page's five sort keys, plus the home page's best-offer order. */
  datatype SortKey = ByName | PriceLow | PriceHigh | ByRating | ByReviews | ByDiscount

  /** `(originalPrice ?? 0) - price`. */
  function Discount(p: Product): int {
    (if p.originalPrice.Some? then p.originalPrice.value else 0) - p.price
  }

  /** The comparator handed to sort: negative keeps a before b, positive puts b first. */
  function Compare(k: SortKey, a: Product, b: Product): int {
    match k
    case ByName => if Text.Less(a.name, b.name) then -1 else if Text.Less(b.name, a.name) then 1 else 0
    case PriceLow => a.price - b.price
    case PriceHigh => b.price - a.price
    case ByRating => b.rating - a.rating
    case ByReviews => b.reviews - a.reviews
    case ByDiscount => Discount(b) - Discount(a)
  }

  lemma CompareAntisymmetric(k: SortKey, a: Product, b: Product)
    ensures Compare(k, a, b) < 0 <==> Compare(k, b, a) > 0
    ensures Compare(k, a, b) == 0 <==> Compare(k, b, a) == 0
  {
    if k.ByName? { Text.LessTrichotomy(a.name, b.name); }
  }

  lemma CompareTransitive(k: SortKey, a: Product, b: Product, c: Product)
    requires Compare(k, a, b) <= 0 && Compare(k, b, c) <= 0
    ensures Compare(k, a, c) <= 0
  {
    if k.ByName? {
      Text.LessTrichotomy(a.name, b.name);
      Text.LessTrichotomy(b.name, c.name);
      Text.LessTrichotomy(a.name, c.name);
      if Text.Less(c.name, a.name) {
        if Text.Less(a.name, b.name) {
          Text.LessTransitive(c.name, a.name, b.name);
        } else if Text.Less(b.name, c.name) {
          Text.LessTransitive(b.name, c.name, a.name);
        }
      }
    }
  }

  lemma CompareReflexive(k: SortKey, a: Product)
    ensures Compare(k, a, a) == 0
  {
    if k.ByName? { Text.LessIrreflexive(a.name); }
  }

  /** What a comparator handed to sort must satisfy for the result to be well defined. */
  ghost predicate Consistent(cmp: (Product, Product) -> int) {
    && (forall a, b :: cmp(a, b) < 0 <==> cmp(b, a) > 0)
    && (forall a, b :: cmp(a, b) == 0 <==> cmp(b, a) == 0)
    && (forall a, b, c :: cmp(a, b) <= 0 && cmp(b, c) <= 0 ==> cmp(a, c) <= 0)
  }

  /** The comparator as the function value the pages pass to sort. */
  function Comparator(k: SortKey): (Product, Product) -> int {
    (a, b) => Compare(k, a, b)
  }

  /** Each of the six comparators is consistent. */
  lemma ComparatorConsistent(k: SortKey)
    ensures Consistent(Comparator(k))
  {
    var cmp := Comparator(k);
    forall a, b ensures cmp(a, b) < 0 <==> cmp(b, a) > 0 {
      CompareAntisymmetric(k, a, b);
    }
    forall a, b ensures cmp(a, b) == 0 <==> cmp(b, a) == 0 {
      CompareAntisymmetric(k, a, b);
    }
    forall a, b, c | cmp(a, b) <= 0 && cmp(b, c) <= 0 ensures cmp(a, c) <= 0 {
      CompareTransitive(k, a, b, c);
    }
  }

  /** Every earlier element compares at most zero against every later one. */
  ghost predicate Sorted(cmp: (Product, Product) -> int, s: seq<Product>) {
    forall i, j :: 0 <= i < j < |s| ==> cmp(s[i], s[j]) <= 0
  }

  /** Insert x into t after every element that compares at most zero against it. */
  function Insert(cmp: (Product, Product) -> int, t: seq<Product>, x: Product): (r: seq<Product>)
    ensures |r| == |t| + 1
  {
    if t == [] || cmp(t[|t| - 1], x) <= 0 then t + [x]
    else Insert(cmp, t[..|t| - 1], x) + [t[|t| - 1]]
  }

  /** Insertion adds exactly x. */
  lemma {:induction false} InsertPermutes(cmp: (Product, Product) -> int, t: seq<Product>, x: Product)
    ensures multiset(Insert(cmp, t, x)) == multiset(t) + multiset{x}
  {
    if t != [] && cmp(t[|t| - 1], x) > 0 {
      InsertPermutes(cmp, t[..|t| - 1], x);
      assert t == t[..|t| - 1] + [t[|t| - 1]];
    }
  }

  /** Stable sort: each element in input order is inserted into the sorted prefix. */
  function SortBy(cmp: (Product, Product) -> int, s: seq<Product>): (r: seq<Product>)
    ensures |r| == |s|
  {
    if s == [] then []
    else Insert(cmp, SortBy(cmp, s[..|s| - 1]), s[|s| - 1])
  }

  /** The sort is a permutation of its input. */
  lemma {:induction false} SortByPermutes(cmp: (Product, Product) -> int, s: seq<Product>)
    ensures multiset(SortBy(cmp, s)) == multiset(s)
  {
    if s != [] {
      SortByPermutes(cmp, s[..|s| - 1]);
      InsertPermutes(cmp, SortBy(cmp, s[..|s| - 1]), s[|s| - 1]);
      assert s == s[..|s| - 1] + [s[|s| - 1]];
    }
  }

  lemma {:induction false} InsertMembers(cmp: (Product, Product) -> int, t: seq<Product>, x: Product, y: Product)
    ensures y in Insert(cmp, t, x) <==> y == x || y in t
  {
    if t != [] && cmp(t[|t| - 1], x) > 0 {
      InsertMembers(cmp, t[..|t| - 1], x, y);
      assert t == t[..|t| - 1] + [t[|t| - 1]];
    }
  }

  /** Appending an element that every element compares at most zero against keeps order. */
  lemma SortedSnoc(cmp: (Product, Product) -> int, s: seq<Product>, y: Product)
    requires Sorted(cmp, s)
    requires forall i :: 0 <= i < |s| ==> cmp(s[i], y) <= 0
    ensures Sorted(cmp, s + [y])
  {
  }

  lemma {:induction false} InsertSorted(cmp: (Product, Product) -> int, t: seq<Product>, x: Product)
    requires Consistent(cmp) && Sorted(cmp, t)
    ensures Sorted(cmp, Insert(cmp, t, x))
  {
    if t == [] {
      assert Insert(cmp, t, x) == [x];
    } else {
      var t' := t[..|t| - 1];
      var last := t[|t| - 1];
      if cmp(last, x) <= 0 {
        forall i | 0 <= i < |t| ensures cmp(t[i], x) <= 0 {
          assert cmp(t[i], last) <= 0 || i == |t| - 1;
        }
        SortedSnoc(cmp, t, x);
      } else {
        assert Sorted(cmp, t');
        InsertSorted(cmp, t', x);
        var r' := Insert(cmp, t', x);
        forall i | 0 <= i < |r'| ensures cmp(r'[i], last) <= 0 {
          InsertMembers(cmp, t', x, r'[i]);
          if r'[i] != x {
            var m :| 0 <= m < |t'| && t'[m] == r'[i];
            assert t'[m] == t[m];
          }
        }
        SortedSnoc(cmp, r', last);
      }
    }
  }

  /** The sort's result is ordered by a consistent comparator. */
  lemma {:induction false} SortBySorted(cmp: (Product, Product) -> int, s: seq<Product>)
    requires Consistent(cmp)
    ensures Sorted(cmp, SortBy(cmp, s))
  {
    if s != [] {
      SortBySorted(cmp, s[..|s| - 1]);
      InsertSorted(cmp, SortBy(cmp, s[..|s| - 1]), s[|s| - 1]);
    }
  }

  /** The elements of s that tie with p, in order. */
  function Ties(cmp: (Product, Product) -> int, s: seq<Product>, p: Product): seq<Product> {
    if s == [] then []
    else Ties(cmp, s[..|s| - 1], p) + (if cmp(s[|s| - 1], p) == 0 then [s[|s| - 1]] else [])
  }

  lemma TiesSnoc(cmp: (Product, Product) -> int, s: seq<Product>, y: Product, p: Product)
    ensures Ties(cmp, s + [y], p) == Ties(cmp, s, p) + (if cmp(y, p) == 0 then [y] else [])
  {
    assert (s + [y])[..|s|] == s;
  }

  lemma {:induction false} InsertTies(cmp: (Product, Product) -> int, t: seq<Product>, x: Product, p: Product)
    requires Consistent(cmp)
    ensures Ties(cmp, Insert(cmp, t, x), p)
            == Ties(cmp, t, p) + (if cmp(x, p) == 0 then [x] else [])
  {
    if t == [] || cmp(t[|t| - 1], x) <= 0 {
      TiesSnoc(cmp, t, x, p);
    } else {
      var t' := t[..|t| - 1];
      var last := t[|t| - 1];
      InsertTies(cmp, t', x, p);
      TiesSnoc(cmp, Insert(cmp, t', x), last, p);
      TiesSnoc(cmp, t', last, p);
      assert t == t' + [last];
    }
  }

  /** Stability: for every product p, the elements tied with p keep their input order. */
  lemma {:induction false} SortByStable(cmp: (Product, Product) -> int, s: seq<Product>, p: Product)
    requires Consistent(cmp)
    ensures Ties(cmp, SortBy(cmp, s), p) == Ties(cmp, s, p)
  {
    if s != [] {
      SortByStable(cmp, s[..|s| - 1], p);
      InsertTies(cmp, SortBy(cmp, s[..|s| - 1]), s[|s| - 1], p);
    }
  }

  /** The sort's last step: the final element is inserted into the sorted rest. */
  lemma SortByStep(cmp: (Product, Product) -> int, s: seq<Product>, i: nat)
    requires i < |s|
    ensures SortBy(cmp, s[..i + 1]) == Insert(cmp, SortBy(cmp, s[..i]), s[i])
  {
    assert s[..i + 1][..i] == s[..i];
  }

  /** Inserting x lands it just after position j when t[j - 1] compares at most zero against x
      and every element from position j on compares greater. */
  lemma {:induction false} InsertPosition(cmp: (Product, Product) -> int, t: seq<Product>, x: Product, j: nat)
    requires j <= |t|
    requires j == 0 || cmp(t[j - 1], x) <= 0
    requires forall m :: j <= m < |t| ==> cmp(t[m], x) > 0
    ensures Insert(cmp, t, x) == t[..j] + [x] + t[j..]
  {
    if j < |t| {
      var t' := t[..|t| - 1];
      var last := t[|t| - 1];
      assert cmp(last, x) > 0;
      assert Insert(cmp, t, x) == Insert(cmp, t', x) + [last];
      assert t'[..j] == t[..j];
      InsertPosition(cmp, t', x, j);
      assert t[j..] == t'[j..] + [last];
    } else {
      assert t[..j] == t;
    }
  }

  /** `a.sort(cmp)` in place: insertion sort that shifts strictly greater elements right. */
  method SortInPlace(a: array<Product>, cmp: (Product, Product) -> int)
    modifies a
    ensures a[..] == SortBy(cmp, old(a[..]))
  {
    ghost var input := a[..];
    for i := 0 to a.Length
      invariant a[..i] == SortBy(cmp, input[..i])
      invariant a[i..] == input[i..]
    {
      SortByStep(cmp, input, i);
      InsertAt(a, i, cmp);
    }
    assert a[..] == a[..a.Length] && input == input[..a.Length];
  }

  /** Move a[i] left past every element of a[..i] that compares greater than it. */
  method InsertAt(a: array<Product>, i: nat, cmp: (Product, Product) -> int)
    requires i < a.Length
    modifies a
    ensures a[..i + 1] == Insert(cmp, old(a[..i]), old(a[i]))
    ensures a[i + 1..] == old(a[i + 1..])
  {
    var x := a[i];
    ghost var t := a[..i];
    var j := ShiftGreater(a, i, x, cmp);
    a[j] := x;
    assert a[..i + 1] == t[..j] + [x] + t[j..];
    assert a[i + 1..] == old(a[i + 1..]);
    InsertPosition(cmp, t, x, j);
  }

  /** Shift right by one place the run of elements just before position i that compare
      greater than x; j is where that run began. */
  method ShiftGreater(a: array<Product>, i: nat, x: Product, cmp: (Product, Product) -> int)
    returns (j: nat)
    requires i < a.Length
    modifies a
    ensures j <= i
    ensures forall m :: 0 <= m < j ==> a[m] == old(a[m])
    ensures forall m :: j < m <= i ==> a[m] == old(a[m - 1])
    ensures forall m :: i < m < a.Length ==> a[m] == old(a[m])
    ensures j == 0 || cmp(old(a[j - 1]), x) <= 0
    ensures forall m :: j <= m < i ==> cmp(old(a[m]), x) > 0
  {
    j := i;
    while j > 0 && cmp(a[j - 1], x) > 0
      invariant j <= i
      invariant forall m :: 0 <= m < j ==> a[m] == old(a[m])
      invariant forall m :: j < m <= i ==> a[m] == old(a[m - 1])
      invariant forall m :: i < m < a.Length ==> a[m] == old(a[m])
      invariant forall m :: j <= m < i ==> cmp(old(a[m]), x) > 0
    {
      a[j] := a[j - 1];
      j := j - 1;
    }
  }
}
