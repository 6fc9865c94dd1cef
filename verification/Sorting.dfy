/** Sorting a sequence by a weak order; equal items may end up in any order. */
module Sorting {

  ghost predicate WeakOrder<T(!new)>(before: (T, T) -> bool) {
    && (forall a, b | before(a, b) :: !before(b, a))
    && (forall a, b, c | before(a, c) :: before(a, b) || before(b, c))
  }

  ghost predicate Sorted<T(!new)>(before: (T, T) -> bool, items: seq<T>) {
    forall i, j | 0 <= i < j < |items| :: !before(items[j], items[i])
  }

  /** Nothing of `items[..k]` belongs behind `x`, and everything from `k` on does. */
  ghost predicate Fits<T(!new)>(before: (T, T) -> bool, items: seq<T>, x: T, k: nat) {
    && k <= |items|
    && (forall i | 0 <= i < k :: !before(x, items[i]))
    && (forall i | k <= i < |items| :: !before(items[i], x))
  }

  lemma InsertedSorted<T(!new)>(before: (T, T) -> bool, items: seq<T>, x: T, k: nat)
    requires Sorted(before, items) && Fits(before, items, x, k)
    ensures Sorted(before, items[..k] + [x] + items[k..])
    ensures multiset(items[..k] + [x] + items[k..]) == multiset(items) + multiset{x}
  {
    var more := items[..k] + [x] + items[k..];
    assert items == items[..k] + items[k..];
    forall i, j | 0 <= i < j < |more| ensures !before(more[j], more[i]) {
      var a, b := if i < k then i else i - 1, if j < k then j else j - 1;
      if i != k && j != k {
        assert more[i] == items[a] && more[j] == items[b];
      }
    }
  }

  /** The smallest place behind which everything is greater fits. */
  lemma PlaceFits<T(!new)>(before: (T, T) -> bool, items: seq<T>, x: T, k: nat)
    requires WeakOrder(before) && Sorted(before, items) && k <= |items|
    requires forall i | k <= i < |items| :: before(x, items[i])
    requires k > 0 ==> !before(x, items[k - 1])
    ensures Fits(before, items, x, k)
  {
    forall i | 0 <= i < k ensures !before(x, items[i]) {
      if i < k - 1 {
        assert !before(items[k - 1], items[i]);
      }
    }
  }

  method Insert<T(!new)>(before: (T, T) -> bool, items: seq<T>, x: T) returns (more: seq<T>)
    requires WeakOrder(before) && Sorted(before, items)
    ensures Sorted(before, more) && multiset(more) == multiset(items) + multiset{x}
  {
    var k := |items|;
    while k > 0 && before(x, items[k - 1])
      invariant 0 <= k <= |items|
      invariant forall i | k <= i < |items| :: before(x, items[i])
    {
      k := k - 1;
    }
    PlaceFits(before, items, x, k);
    InsertedSorted(before, items, x, k);
    more := items[..k] + [x] + items[k..];
  }

  method Sort<T(!new)>(before: (T, T) -> bool, items: seq<T>) returns (sorted: seq<T>)
    requires WeakOrder(before)
    ensures Sorted(before, sorted) && multiset(sorted) == multiset(items)
  {
    sorted := [];
    for i := 0 to |items|
      invariant Sorted(before, sorted) && multiset(sorted) == multiset(items[..i])
    {
      assert items[..i + 1] == items[..i] + [items[i]];
      sorted := Insert(before, sorted, items[i]);
    }
    assert items[..|items|] == items;
  }
}
