/**
 * The persisted records of the app: a restaurant with its dishes, a dish with its taste tags.
 * `Date` values are compared only by their order, so a date is an integer timestamp.
 */
module Entities {
  import opened Wrappers

  type Bytes = seq<bv8>

  type Date = int

  /** A dish; `thumbnailImageData` exists only in the Shari variant and is None in Reviewer. */
  datatype Dish = Dish(id: string, name: string, date: Date, tastes: seq<string>, thumbnailImageData: Option<Bytes>)

  datatype Restaurant = Restaurant(id: string, name: string, date: Date, dishes: seq<Dish>)

  function DishDate(d: Dish): Date { d.date }

  function RestaurantDate(r: Restaurant): Date { r.date }
}

/**
 * Ordering by date: what `sorted(by: { $0.date < $1.date })` and a fetch descriptor sorted by
 * `\.date` produce. Neither fixes an order among equal dates; the order here is the model's
 * choice: insertion goes after equal dates and the sort is stable. "Ascending" and "a
 * permutation of the input" hold for any sort; `SortByAscending`, and the lemmas built on it
 * that a sorted list re-sorts to itself, rely on the model's tie order.
 */
module DateOrder {

  predicate SortedBy<T>(s: seq<T>, key: T -> int) {
    forall i, j :: 0 <= i < j < |s| ==> key(s[i]) <= key(s[j])
  }

  /** Inserts `x` after every leading element whose key is not greater than its own. */
  function InsertBy<T>(x: T, s: seq<T>, key: T -> int): (r: seq<T>)
    ensures |r| == |s| + 1
    ensures multiset(r) == multiset(s) + multiset{x}
  {
    if s == [] || key(x) < key(s[0]) then [x] + s
    else
      assert s == [s[0]] + s[1..];
      [s[0]] + InsertBy(x, s[1..], key)
  }

  /** The elements of `s` in ascending order of `key`. */
  function SortBy<T>(s: seq<T>, key: T -> int): (r: seq<T>)
    ensures |r| == |s|
    ensures multiset(r) == multiset(s)
  {
    if s == [] then []
    else
      assert s == s[..|s| - 1] + [s[|s| - 1]];
      InsertBy(s[|s| - 1], SortBy(s[..|s| - 1], key), key)
  }

  /** Inserting keeps every key at or above a bound that `x` and all of `s` respect. */
  lemma {:induction false} InsertByLowerBound<T>(x: T, s: seq<T>, key: T -> int, lo: int)
    requires lo <= key(x)
    requires forall k :: 0 <= k < |s| ==> lo <= key(s[k])
    ensures forall k :: 0 <= k < |InsertBy(x, s, key)| ==> lo <= key(InsertBy(x, s, key)[k])
  {
    if s != [] && key(s[0]) <= key(x) {
      InsertByLowerBound(x, s[1..], key, lo);
      assert InsertBy(x, s, key) == [s[0]] + InsertBy(x, s[1..], key);
    }
  }

  /** Inserting into an ascending sequence keeps it ascending. */
  lemma {:induction false} InsertBySorted<T>(x: T, s: seq<T>, key: T -> int)
    requires SortedBy(s, key)
    ensures SortedBy(InsertBy(x, s, key), key)
  {
    if s != [] && key(s[0]) <= key(x) {
      var tail := s[1..];
      assert forall k :: 0 <= k < |tail| ==> tail[k] == s[k + 1];
      InsertBySorted(x, tail, key);
      InsertByLowerBound(x, tail, key, key(s[0]));
      assert InsertBy(x, s, key) == [s[0]] + InsertBy(x, tail, key);
    }
  }

  /** Sorting yields an ascending sequence. */
  lemma {:induction false} SortBySorted<T>(s: seq<T>, key: T -> int)
    ensures SortedBy(SortBy(s, key), key)
  {
    if s != [] {
      SortBySorted(s[..|s| - 1], key);
      InsertBySorted(s[|s| - 1], SortBy(s[..|s| - 1], key), key);
    }
  }

  /** Removing an element keeps an ascending sequence ascending. */
  lemma RemoveAtSorted<T>(s: seq<T>, k: nat, key: T -> int)
    requires k < |s| && SortedBy(s, key)
    ensures SortedBy(s[..k] + s[k + 1..], key)
  {
    var r := s[..k] + s[k + 1..];
    forall i, j | 0 <= i < j < |r|
      ensures key(r[i]) <= key(r[j])
    {
      var i', j' := if i < k then i else i + 1, if j < k then j else j + 1;
      assert r[i] == s[i'] && r[j] == s[j'];
    }
  }

  /** An element whose key is not below any other's goes to the end. */
  lemma {:induction false} InsertByLast<T>(x: T, s: seq<T>, key: T -> int)
    requires forall k :: 0 <= k < |s| ==> key(s[k]) <= key(x)
    ensures InsertBy(x, s, key) == s + [x]
  {
    if s != [] {
      InsertByLast(x, s[1..], key);
      assert [s[0]] + (s[1..] + [x]) == s + [x];
    }
  }

  /** The prefix of an ascending sequence is ascending, and no key in it exceeds the last one. */
  lemma AscendingPrefix<T>(s: seq<T>, p: seq<T>, key: T -> int)
    requires s != [] && p == s[..|s| - 1] && SortedBy(s, key)
    ensures SortedBy(p, key)
    ensures forall k :: 0 <= k < |p| ==> key(p[k]) <= key(s[|s| - 1])
  {
    forall i, j | 0 <= i < j < |p|
      ensures key(p[i]) <= key(p[j])
    {
      assert p[i] == s[i] && p[j] == s[j];
    }
  }

  /** Sorting a non-empty sequence inserts its last element into the sorted rest. */
  lemma SortByUnfold<T>(s: seq<T>, key: T -> int)
    requires s != []
    ensures SortBy(s, key) == InsertBy(s[|s| - 1], SortBy(s[..|s| - 1], key), key)
  {
  }

  /** A non-empty sequence is its prefix followed by its last element. */
  lemma LastSplit<T>(s: seq<T>)
    requires s != []
    ensures s[..|s| - 1] + [s[|s| - 1]] == s
  {
  }

  /** Sorting an ascending sequence leaves it as it is: the order is stable. */
  lemma {:induction false} SortByAscending<T>(s: seq<T>, key: T -> int)
    requires SortedBy(s, key)
    ensures SortBy(s, key) == s
  {
    if s != [] {
      var p, x := s[..|s| - 1], s[|s| - 1];
      AscendingPrefix(s, p, key);
      SortByAscending(p, key);
      InsertByLast(x, p, key);
      SortByUnfold(s, key);
      LastSplit(s);
    }
  }
}
