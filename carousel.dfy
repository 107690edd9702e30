/** The wrap-around index of the home page hero slides and of the product detail gallery. */
module Carousel {

  /** `(i + 1) % n`. */
  function NextIndex(i: nat, n: nat): (r: nat)
    requires n > 0
    ensures r < n
  {
    (i + 1) % n
  }

  /** `(i - 1 + n) % n`. */
  function PrevIndex(i: nat, n: nat): (r: nat)
    requires n > 0
    ensures r < n
  {
    (i - 1 + n) % n
  }

  /** From the last position Next wraps to the first, from the first Prev wraps to the last;
      elsewhere they move by one. */
  lemma Wraps(i: nat, n: nat)
    requires i < n
    ensures NextIndex(i, n) == if i == n - 1 then 0 else i + 1
    ensures PrevIndex(i, n) == if i == 0 then n - 1 else i - 1
  {
    if i == n - 1 {
      assert (i + 1) % n == n % n == 0;
    } else {
      assert (i + 1) % n == i + 1;
    }
    if i == 0 {
      assert (i - 1 + n) % n == n - 1;
    } else {
      assert (i - 1 + n) % n == ((i - 1) + n) % n == i - 1;
    }
  }

  /** Prev undoes Next and Next undoes Prev. */
  lemma PrevUndoesNext(i: nat, n: nat)
    requires i < n
    ensures PrevIndex(NextIndex(i, n), n) == i
    ensures NextIndex(PrevIndex(i, n), n) == i
  {
    Wraps(i, n);
    Wraps(NextIndex(i, n), n);
    Wraps(PrevIndex(i, n), n);
  }

  /** A position among `count` items, stepped forwards and backwards. */
  class Index {
    var current: nat
    const count: nat

    ghost predicate Valid()
      reads this
    {
      count > 0 && current < count
    }

    constructor (count: nat)
      requires count > 0
      ensures Valid() && current == 0 && this.count == count
    {
      this.count := count;
      current := 0;
    }

    method Next()
      requires Valid()
      modifies this
      ensures Valid() && current == NextIndex(old(current), count)
    {
      current := (current + 1) % count;
    }

    method Prev()
      requires Valid()
      modifies this
      ensures Valid() && current == PrevIndex(old(current), count)
    {
      current := (current - 1 + count) % count;
    }
  }
}
