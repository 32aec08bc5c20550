/** A stable insertion sort on sequences, ordered by an integer key.  It is
    the model of the database's `ORDER BY` on one integer column: rows with
    equal keys keep their table order. */
module Sorting {

  predicate SortedBy<T>(s: seq<T>, key: T -> int)
  {
    forall i, j :: 0 <= i < j < |s| ==> key(s[i]) <= key(s[j])
  }

  /** Inserts `x` after every element whose key is not larger than its own. */
  function Insert<T>(x: T, s: seq<T>, key: T -> int): (r: seq<T>)
    requires SortedBy(s, key)
    ensures |r| == |s| + 1
    ensures multiset(r) == multiset(s) + multiset{x}
    ensures SortedBy(r, key)
  {
    if |s| == 0 then [x]
    else if key(x) < key(s[0]) then [x] + s
    else
      var rest := Insert(x, s[1..], key);
      assert s == [s[0]] + s[1..];
      HeadBoundsInsertion(x, s, key, rest);
      [s[0]] + rest
  }

  /** Every element of `rest`, a permutation of `s[1..]` plus `x`, has a key
      at least that of `s[0]` when `x` does. */
  lemma HeadBoundsInsertion<T>(x: T, s: seq<T>, key: T -> int, rest: seq<T>)
    requires SortedBy(s, key) && |s| > 0
    requires key(s[0]) <= key(x)
    requires multiset(rest) == multiset(s[1..]) + multiset{x}
    ensures forall k :: 0 <= k < |rest| ==> key(s[0]) <= key(rest[k])
  {
    forall k | 0 <= k < |rest|
      ensures key(s[0]) <= key(rest[k])
    {
      var y := rest[k];
      assert y in multiset(rest);
      if y != x {
        assert y in multiset(s[1..]);
        var m := IndexOf(s[1..], y);
        assert s[m + 1] == y;
      }
    }
  }

  /** Sorts `s` by `key`; later elements go after earlier ones of equal key. */
  function SortBy<T>(s: seq<T>, key: T -> int): (r: seq<T>)
    ensures |r| == |s|
    ensures multiset(r) == multiset(s)
    ensures SortedBy(r, key)
  {
    if |s| == 0 then []
    else
      assert s == s[..|s| - 1] + [s[|s| - 1]];
      Insert(s[|s| - 1], SortBy(s[..|s| - 1], key), key)
  }

  /** The elements of `s` whose key is `k`, in their order in `s`. */
  function WithKey<T>(s: seq<T>, key: T -> int, k: int): (r: seq<T>)
    ensures |r| <= |s|
    ensures forall i :: 0 <= i < |r| ==> key(r[i]) == k
  {
    if |s| == 0 then []
    else (if key(s[0]) == k then [s[0]] else []) + WithKey(s[1..], key, k)
  }

  /** Filtering by key commutes with concatenation. */
  lemma {:induction false} WithKeyConcat<T>(a: seq<T>, b: seq<T>, key: T -> int, k: int)
    ensures WithKey(a + b, key, k) == WithKey(a, key, k) + WithKey(b, key, k)
    decreases |a|
  {
    if |a| > 0 {
      assert (a + b)[1..] == a[1..] + b;
      WithKeyConcat(a[1..], b, key, k);
    } else {
      assert a + b == b;
    }
  }

  /** A sequence whose keys all lie above `k` has no element with key `k`. */
  lemma {:induction false} WithKeyAbove<T>(s: seq<T>, key: T -> int, k: int)
    requires forall i :: 0 <= i < |s| ==> k < key(s[i])
    ensures WithKey(s, key, k) == []
    decreases |s|
  {
    if |s| > 0 {
      WithKeyAbove(s[1..], key, k);
    }
  }

  /** Inserting `x` puts it after every element of its own key. */
  lemma {:induction false} InsertWithKey<T>(x: T, s: seq<T>, key: T -> int, k: int)
    requires SortedBy(s, key)
    ensures WithKey(Insert(x, s, key), key, k) == WithKey(s, key, k) + (if key(x) == k then [x] else [])
    decreases |s|
  {
    if |s| == 0 {
    } else if key(x) < key(s[0]) {
      InsertInFront(x, s, key, k);
    } else {
      InsertWithKey(x, s[1..], key, k);
      InsertBehind(x, s, key, k);
    }
  }

  /** An element whose key is not smaller than the head's goes behind it:
      what holds for the tail holds for the whole sequence. */
  lemma InsertBehind<T>(x: T, s: seq<T>, key: T -> int, k: int)
    requires SortedBy(s, key) && |s| > 0 && key(s[0]) <= key(x)
    requires WithKey(Insert(x, s[1..], key), key, k) == WithKey(s[1..], key, k) + (if key(x) == k then [x] else [])
    ensures WithKey(Insert(x, s, key), key, k) == WithKey(s, key, k) + (if key(x) == k then [x] else [])
  {
    var rest := Insert(x, s[1..], key);
    var head := if key(s[0]) == k then [s[0]] else [];
    var tail := if key(x) == k then [x] else [];
    assert Insert(x, s, key) == [s[0]] + rest;
    assert ([s[0]] + rest)[1..] == rest;
    assert WithKey(Insert(x, s, key), key, k) == head + (WithKey(s[1..], key, k) + tail);
    assert WithKey(s, key, k) == head + WithKey(s[1..], key, k);
    Associative(head, WithKey(s[1..], key, k), tail);
  }

  /** Concatenation is associative. */
  lemma Associative<T>(a: seq<T>, b: seq<T>, c: seq<T>)
    ensures a + (b + c) == a + b + c
  {
  }

  /** An element with a smaller key than the head goes in front, before every
      element of its own key, of which there is then none. */
  lemma InsertInFront<T>(x: T, s: seq<T>, key: T -> int, k: int)
    requires SortedBy(s, key) && |s| > 0 && key(x) < key(s[0])
    ensures WithKey(Insert(x, s, key), key, k) == WithKey(s, key, k) + (if key(x) == k then [x] else [])
  {
    assert Insert(x, s, key) == [x] + s;
    assert ([x] + s)[1..] == s;
    if key(x) == k {
      WithKeyAbove(s, key, k);
    }
  }

  /** Stability: the elements of any one key come out of the sort in the
      order they had in the input. */
  lemma {:induction false} SortByIsStable<T>(s: seq<T>, key: T -> int, k: int)
    ensures WithKey(SortBy(s, key), key, k) == WithKey(s, key, k)
    decreases |s|
  {
    if |s| > 0 {
      var init := s[..|s| - 1];
      var last := s[|s| - 1];
      var tail := if key(last) == k then [last] else [];
      assert s == init + [last];
      assert SortBy(s, key) == Insert(last, SortBy(init, key), key);
      SortByIsStable(init, key, k);
      InsertWithKey(last, SortBy(init, key), key, k);
      WithKeyConcat(init, [last], key, k);
      assert [last][1..] == [];
      assert WithKey([last], key, k) == tail + [] == tail;
    }
  }

  /** In a sorted sequence an element with a strictly smaller key comes first. */
  lemma SmallerKeyComesFirst<T>(s: seq<T>, key: T -> int, i: int, j: int)
    requires SortedBy(s, key)
    requires 0 <= i < |s| && 0 <= j < |s|
    requires key(s[i]) < key(s[j])
    ensures i < j
  {
  }

  /** The position of an element that occurs in a sequence. */
  function IndexOf<T(==)>(s: seq<T>, x: T): (i: nat)
    requires x in s
    ensures i < |s| && s[i] == x
  {
    if s[0] == x then 0 else 1 + IndexOf(s[1..], x)
  }
}
