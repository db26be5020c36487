/** The document store's `sort({field: 1})` and `sort({field: -1})`, as a
    stable insertion sort by an integer key. A descending sort is a sort by
    the negated key. Under a strictly increasing clock no two records share
    a key, and SortedUnique shows that the result is then the only ordering
    with the promised order, whatever tie-breaking the store uses. */
module Sorting {
  import opened Seqs

  /** Non-decreasing by `key`. */
  predicate SortedBy<T>(s: seq<T>, key: T -> int)
  {
    forall i, j :: 0 <= i < j < |s| ==> key(s[i]) <= key(s[j])
  }

  /** Strictly increasing by `key`: no two elements share a key. */
  predicate StrictlySortedBy<T>(s: seq<T>, key: T -> int)
  {
    forall i, j :: 0 <= i < j < |s| ==> key(s[i]) < key(s[j])
  }

  /** Every key in `s` is at least `lo`. */
  predicate AtLeast<T>(s: seq<T>, lo: int, key: T -> int)
  {
    forall i :: 0 <= i < |s| ==> lo <= key(s[i])
  }

  /** Putting in front of a sorted sequence an element whose key is at most
      all of its keys keeps it sorted. */
  lemma ConsSorted<T>(x: T, s: seq<T>, key: T -> int)
    requires SortedBy(s, key) && AtLeast(s, key(x), key)
    ensures SortedBy([x] + s, key)
  {
    var r := [x] + s;
    forall i, j | 0 <= i < j < |r| ensures key(r[i]) <= key(r[j]) {
      assert r[j] == s[j - 1];
      if i > 0 {
        assert r[i] == s[i - 1];
      }
    }
  }

  /** Putting in front of a strictly sorted sequence an element whose key
      is below all of its keys keeps it strictly sorted. */
  lemma ConsStrictlySorted<T>(x: T, s: seq<T>, key: T -> int)
    requires StrictlySortedBy(s, key)
    requires forall i :: 0 <= i < |s| ==> key(x) < key(s[i])
    ensures StrictlySortedBy([x] + s, key)
  {
    var r := [x] + s;
    forall i, j | 0 <= i < j < |r| ensures key(r[i]) < key(r[j]) {
      assert r[j] == s[j - 1];
      if i > 0 {
        assert r[i] == s[i - 1];
      }
    }
  }

  /** Puts `x` into `s` before the first element whose key is not smaller
      than its own. */
  function Insert<T>(x: T, s: seq<T>, key: T -> int): seq<T>
  {
    if s == [] then [x]
    else if key(x) <= key(s[0]) then [x] + s
    else [s[0]] + Insert(x, s[1..], key)
  }

  /** A non-empty sequence holds its first element and the rest. */
  lemma FirstAndRest<T>(s: seq<T>)
    requires s != []
    ensures multiset(s) == multiset{s[0]} + multiset(s[1..])
  {
    assert s == [s[0]] + s[1..];
  }

  /** Inserting adds `x` and loses nothing. */
  lemma {:induction false} InsertPermutes<T>(x: T, s: seq<T>, key: T -> int)
    ensures multiset(Insert(x, s, key)) == multiset{x} + multiset(s)
  {
    if s != [] && key(x) > key(s[0]) {
      InsertPermutes(x, s[1..], key);
      FirstAndRest(s);
    }
  }

  /** Inserting an element with a key of at least `lo` keeps every key at
      least `lo`. */
  lemma {:induction false} InsertAtLeast<T>(x: T, s: seq<T>, lo: int, key: T -> int)
    requires AtLeast(s, lo, key) && lo <= key(x)
    ensures AtLeast(Insert(x, s, key), lo, key)
  {
    if s != [] && key(x) > key(s[0]) {
      var t := Insert(x, s[1..], key);
      InsertAtLeast(x, s[1..], lo, key);
      forall i | 1 <= i < |t| + 1 ensures lo <= key(([s[0]] + t)[i]) {
        assert ([s[0]] + t)[i] == t[i - 1];
      }
    }
  }

  /** Inserting into a sorted sequence keeps it sorted. */
  lemma {:induction false} InsertSorted<T>(x: T, s: seq<T>, key: T -> int)
    requires SortedBy(s, key)
    ensures SortedBy(Insert(x, s, key), key)
  {
    if s != [] {
      if key(x) <= key(s[0]) {
        ConsSorted(x, s, key);
      } else {
        InsertSorted(x, s[1..], key);
        InsertAtLeast(x, s[1..], key(s[0]), key);
        ConsSorted(s[0], Insert(x, s[1..], key), key);
      }
    }
  }

  /** The elements of `s` ordered by `key`, ascending. */
  function SortBy<T>(s: seq<T>, key: T -> int): (r: seq<T>)
    ensures SortedBy(r, key)
    ensures multiset(r) == multiset(s)
  {
    if s == [] then []
    else
      var t := SortBy(s[1..], key);
      InsertSorted(s[0], t, key);
      InsertPermutes(s[0], t, key);
      FirstAndRest(s);
      Insert(s[0], t, key)
  }

  /** Two sequences with the same multiset have the same members. */
  lemma PermutationSameMembers<T>(a: seq<T>, b: seq<T>)
    requires multiset(a) == multiset(b)
    ensures forall i :: 0 <= i < |a| ==> a[i] in b
    ensures forall i :: 0 <= i < |b| ==> b[i] in a
  {
    forall i | 0 <= i < |a| ensures a[i] in b {
      assert a[i] in multiset(a);
    }
    forall i | 0 <= i < |b| ensures b[i] in a {
      assert b[i] in multiset(b);
    }
  }

  /** Two orderings of the same elements by the same key start with the
      same element when the first of them has no ties. */
  lemma HeadsAgree<T>(a: seq<T>, b: seq<T>, key: T -> int)
    requires StrictlySortedBy(a, key) && SortedBy(b, key)
    requires multiset(a) == multiset(b) && a != []
    ensures b != [] && a[0] == b[0]
  {
    assert a[0] in multiset(b);
    var m :| 0 <= m < |b| && b[m] == a[0];
    assert b[0] in multiset(a);
    var k :| 0 <= k < |a| && a[k] == b[0];
    assert key(a[k]) <= key(a[0]);
    assert k == 0;
  }

  /** Two orderings of the same elements by the same key agree when one of
      them has no ties. */
  lemma {:induction false} SortedUnique<T>(a: seq<T>, b: seq<T>, key: T -> int)
    requires StrictlySortedBy(a, key) && SortedBy(b, key)
    requires multiset(a) == multiset(b)
    ensures a == b
  {
    if a == [] {
      assert |b| == |multiset(b)| == 0;
    } else {
      HeadsAgree(a, b, key);
      TailsPermute(a, b);
      SortedUnique(a[1..], b[1..], key);
      assert a == [a[0]] + a[1..] && b == [b[0]] + b[1..];
    }
  }

  /** Dropping the same first element from two permutations of each other
      leaves permutations of each other. */
  lemma TailsPermute<T>(a: seq<T>, b: seq<T>)
    requires multiset(a) == multiset(b) && a != [] && b != [] && a[0] == b[0]
    ensures multiset(a[1..]) == multiset(b[1..])
  {
    FirstAndRest(a);
    FirstAndRest(b);
    assert multiset(a[1..]) == multiset(a) - multiset{a[0]};
  }

  /** Sorting a sequence that already has strictly increasing keys changes
      nothing: ascending key order is then the original order. */
  lemma SortOfStrictlySortedIsIdentity<T>(s: seq<T>, key: T -> int)
    requires StrictlySortedBy(s, key)
    ensures SortBy(s, key) == s
  {
    SortedUnique(s, SortBy(s, key), key);
  }

  /** Sorting by the negated key a sequence whose keys strictly increase
      gives it back to front. */
  lemma SortDescendingIsReverse<T>(s: seq<T>, up: T -> int, down: T -> int)
    requires forall x :: down(x) == -up(x)
    requires StrictlySortedBy(s, up)
    ensures SortBy(s, down) == Reverse(s)
  {
    var r := Reverse(s);
    assert StrictlySortedBy(r, down) by {
      forall i, j | 0 <= i < j < |r|
        ensures down(r[i]) < down(r[j])
      {
        assert r[i] == s[|s| - 1 - i] && r[j] == s[|s| - 1 - j];
        assert up(s[|s| - 1 - j]) < up(s[|s| - 1 - i]);
      }
    }
    ReversePermutes(s);
    SortedUnique(r, SortBy(s, down), down);
  }
}
