/** `sorted(items, key=key, reverse=True)`: highest key first, equal keys in their original order. */
module Sorting {
  function Insert<T>(key: T -> real, item: T, sorted: seq<T>): seq<T> {
    if sorted == [] || key(sorted[0]) < key(item) then [item] + sorted
    else [sorted[0]] + Insert(key, item, sorted[1..])
  }

  function Sort<T>(key: T -> real, items: seq<T>): seq<T> {
    if items == [] then [] else Insert(key, items[|items| - 1], Sort(key, items[..|items| - 1]))
  }

  /** The items of one key, in order. */
  function WithKey<T>(key: T -> real, items: seq<T>, k: real): seq<T> {
    if items == [] then [] else (if key(items[0]) == k then [items[0]] else []) + WithKey(key, items[1..], k)
  }

  lemma {:induction false} WithKeyAppend<T>(key: T -> real, a: seq<T>, b: seq<T>, k: real)
    ensures WithKey(key, a + b, k) == WithKey(key, a, k) + WithKey(key, b, k)
  {
    if a == [] {
      assert a + b == b;
    } else {
      assert (a + b)[0] == a[0] && (a + b)[1..] == a[1..] + b;
      WithKeyAppend(key, a[1..], b, k);
      var first := if key(a[0]) == k then [a[0]] else [];
      assert WithKey(key, a, k) == first + WithKey(key, a[1..], k);
      assert WithKey(key, a + b, k) == first + WithKey(key, a[1..] + b, k);
    }
  }

  lemma {:induction false} InsertKeepsTies<T>(key: T -> real, item: T, sorted: seq<T>, k: real)
    requires Descending(key, sorted)
    ensures WithKey(key, Insert(key, item, sorted), k)
         == WithKey(key, sorted, k) + (if key(item) == k then [item] else [])
  {
    if sorted == [] || key(sorted[0]) < key(item) {
      if key(item) == k {
        NoneWithKey(key, sorted, k);
      }
      assert ([item] + sorted)[1..] == sorted;
    } else {
      var rest := sorted[1..];
      InsertKeepsTies(key, item, rest, k);
      assert ([sorted[0]] + Insert(key, item, rest))[1..] == Insert(key, item, rest);
    }
  }

  lemma {:induction false} NoneWithKey<T>(key: T -> real, items: seq<T>, k: real)
    requires forall i | 0 <= i < |items| :: key(items[i]) < k
    ensures WithKey(key, items, k) == []
  {
    if items != [] {
      NoneWithKey(key, items[1..], k);
    }
  }

  /** Sorting in reverse keeps items with the same key in their order. */
  lemma {:induction false} SortKeepsTies<T>(key: T -> real, items: seq<T>, k: real)
    ensures WithKey(key, Sort(key, items), k) == WithKey(key, items, k)
  {
    hide Insert;
    if items != [] {
      var front, last := items[..|items| - 1], items[|items| - 1];
      assert items == front + [last] && [last][1..] == [];
      SortKeepsTies(key, front, k);
      SortPermutes(key, front);
      InsertKeepsTies(key, last, Sort(key, front), k);
      WithKeyAppend(key, front, [last], k);
    }
  }

  predicate Descending<T>(key: T -> real, items: seq<T>) {
    forall i, j | 0 <= i < j < |items| :: key(items[i]) >= key(items[j])
  }

  lemma {:induction false} InsertAdds<T>(key: T -> real, item: T, sorted: seq<T>)
    ensures multiset(Insert(key, item, sorted)) == multiset(sorted) + multiset{item}
  {
    if sorted != [] && key(sorted[0]) >= key(item) {
      InsertAdds(key, item, sorted[1..]);
      assert sorted == [sorted[0]] + sorted[1..];
    }
  }

  predicate AllAtMost<T>(key: T -> real, items: seq<T>, top: real) {
    forall i | 0 <= i < |items| :: key(items[i]) <= top
  }

  lemma {:induction false} InsertAtMost<T>(key: T -> real, item: T, sorted: seq<T>, top: real)
    requires key(item) <= top && AllAtMost(key, sorted, top)
    ensures AllAtMost(key, Insert(key, item, sorted), top)
  {
    if sorted != [] && key(sorted[0]) >= key(item) {
      InsertAtMost(key, item, sorted[1..], top);
    }
  }

  lemma {:induction false} InsertDescending<T>(key: T -> real, item: T, sorted: seq<T>)
    requires Descending(key, sorted)
    ensures Descending(key, Insert(key, item, sorted))
  {
    if sorted != [] && key(sorted[0]) >= key(item) {
      InsertDescending(key, item, sorted[1..]);
      InsertAtMost(key, item, sorted[1..], key(sorted[0]));
    }
  }

  /** Sorting only reorders, highest key first. */
  lemma {:induction false} SortPermutes<T>(key: T -> real, items: seq<T>)
    ensures multiset(Sort(key, items)) == multiset(items)
    ensures Descending(key, Sort(key, items))
  {
    hide Insert, Descending;
    if items == [] {
      EmptyDescending(key);
    } else {
      var n := |items| - 1;
      SortPermutes(key, items[..n]);
      InsertAdds(key, items[n], Sort(key, items[..n]));
      InsertDescending(key, items[n], Sort(key, items[..n]));
      assert items == items[..n] + [items[n]];
    }
  }

  lemma EmptyDescending<T>(key: T -> real)
    ensures Descending(key, [])
  {
  }

  /** The same items. */
  lemma SortMembers<T>(key: T -> real, items: seq<T>)
    ensures forall x :: x in Sort(key, items) <==> x in items
  {
    SortPermutes(key, items);
    forall x
      ensures x in Sort(key, items) <==> x in items
    {
      assert x in multiset(Sort(key, items)) <==> x in multiset(items);
    }
  }

  /** Two items in descending order. */
  lemma SortPair<T>(key: T -> real, first: T, second: T)
    requires key(first) > key(second)
    ensures Sort(key, [first, second]) == [first, second] && Sort(key, [second, first]) == [first, second]
  {
    assert [first, second][..1] == [first] && [second, first][..1] == [second];
    SortOne(key, first);
    SortOne(key, second);
  }

  lemma SortOne<T>(key: T -> real, item: T)
    ensures Sort(key, [item]) == [item]
  {
    assert [item][..0] == [];
  }
}
