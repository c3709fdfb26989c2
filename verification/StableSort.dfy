/** Rust's stable `sort_by_key`, by its meaning: ordered keys, and ties in their original order. */
module StableSort {
  /** `x` goes before the first element of a larger key. */
  function Insert<T>(s: seq<T>, x: T, key: T -> int): seq<T> {
    if s == [] || key(s[|s| - 1]) <= key(x) then s + [x]
    else Insert(s[..|s| - 1], x, key) + [s[|s| - 1]]
  }

  function Sort<T>(s: seq<T>, key: T -> int): seq<T> {
    if s == [] then [] else Insert(Sort(s[..|s| - 1], key), s[|s| - 1], key)
  }

  ghost predicate Ordered<T>(s: seq<T>, key: T -> int) {
    forall i, j | 0 <= i <= j < |s| :: key(s[i]) <= key(s[j])
  }

  /** The elements of one key, in order. */
  function WithKey<T>(s: seq<T>, key: T -> int, k: int): seq<T> {
    if s == [] then []
    else WithKey(s[..|s| - 1], key, k) + (if key(s[|s| - 1]) == k then [s[|s| - 1]] else [])
  }

  lemma {:induction false} WithKeyOfLarger<T>(s: seq<T>, key: T -> int, k: int)
    requires forall i | 0 <= i < |s| :: key(s[i]) != k
    ensures WithKey(s, key, k) == []
  {
    if s != [] { WithKeyOfLarger(s[..|s| - 1], key, k); }
  }

  lemma {:induction false} InsertAddsOne<T>(s: seq<T>, x: T, key: T -> int)
    ensures multiset(Insert(s, x, key)) == multiset(s) + multiset{x}
  {
    if s != [] && key(s[|s| - 1]) > key(x) {
      var n := |s| - 1;
      InsertAddsOne(s[..n], x, key);
      assert s == s[..n] + [s[n]];
    }
  }

  lemma {:induction false} InsertIsBounded<T>(s: seq<T>, x: T, key: T -> int, bound: int)
    requires key(x) <= bound && forall i | 0 <= i < |s| :: key(s[i]) <= bound
    ensures forall i | 0 <= i < |Insert(s, x, key)| :: key(Insert(s, x, key)[i]) <= bound
  {
    if s != [] && key(s[|s| - 1]) > key(x) { InsertIsBounded(s[..|s| - 1], x, key, bound); }
  }

  lemma {:induction false} InsertKeepsOrder<T>(s: seq<T>, x: T, key: T -> int)
    requires Ordered(s, key)
    ensures Ordered(Insert(s, x, key), key)
  {
    if s != [] && key(s[|s| - 1]) > key(x) {
      var n := |s| - 1;
      InsertKeepsOrder(s[..n], x, key);
      InsertIsBounded(s[..n], x, key, key(s[n]));
    }
  }

  lemma {:induction false} InsertGoesLastOfItsKey<T>(s: seq<T>, x: T, key: T -> int, k: int)
    requires Ordered(s, key)
    ensures WithKey(Insert(s, x, key), key, k) == WithKey(s, key, k) + (if key(x) == k then [x] else [])
  {
    var r := Insert(s, x, key);
    if s == [] || key(s[|s| - 1]) <= key(x) {
      assert r[..|r| - 1] == s;
    } else {
      var n := |s| - 1;
      InsertGoesLastOfItsKey(s[..n], x, key, k);
      assert r[..|r| - 1] == Insert(s[..n], x, key);
      if key(s[n]) == k { assert key(x) != k; }
    }
  }

  lemma MultisetOfLast<T>(s: seq<T>)
    requires s != []
    ensures multiset(s) == multiset(s[..|s| - 1]) + multiset{s[|s| - 1]}
  {
    assert s == s[..|s| - 1] + [s[|s| - 1]];
  }

  /** Sorting orders the keys, keeps every element, and keeps the elements of each key in their order. */
  lemma {:induction false} SortIsStable<T>(s: seq<T>, key: T -> int, k: int)
    ensures Ordered(Sort(s, key), key)
    ensures multiset(Sort(s, key)) == multiset(s)
    ensures WithKey(Sort(s, key), key, k) == WithKey(s, key, k)
  {
    if s != [] {
      var init, last := s[..|s| - 1], s[|s| - 1];
      SortIsStable(init, key, k);
      var sorted := Sort(init, key);
      assert Sort(s, key) == Insert(sorted, last, key);
      InsertAddsOne(sorted, last, key);
      InsertKeepsOrder(sorted, last, key);
      InsertGoesLastOfItsKey(sorted, last, key, k);
      MultisetOfLast(s);
    }
  }

  lemma {:induction false} WithKeyOfMax<T>(s: seq<T>, key: T -> int)
    requires s != [] && Ordered(s, key)
    ensures WithKey(s, key, key(s[|s| - 1])) != []
    ensures var m := WithKey(s, key, key(s[|s| - 1])); m[|m| - 1] == s[|s| - 1]
  {}

  lemma {:induction false} WithKeyMember<T>(s: seq<T>, key: T -> int, k: int)
    ensures WithKey(s, key, k) != [] <==> exists i :: 0 <= i < |s| && key(s[i]) == k
    ensures forall x :: x in WithKey(s, key, k) ==> x in s && key(x) == k
  {
    if s != [] {
      var n := |s| - 1;
      WithKeyMember(s[..n], key, k);
      assert forall i | 0 <= i < n :: s[..n][i] == s[i];
      assert (exists i :: 0 <= i < |s| && key(s[i]) == k) <==>
        key(s[n]) == k || exists i :: 0 <= i < n && key(s[..n][i]) == k;
    }
  }

  lemma KeyIsBoundedByTheLast<T>(a: seq<T>, key: T -> int, k: int)
    requires a != [] && Ordered(a, key) && WithKey(a, key, k) != []
    ensures k <= key(a[|a| - 1])
  {}

  lemma LastElementsAgree<T>(a: seq<T>, b: seq<T>, key: T -> int)
    requires a != [] && Ordered(a, key) && Ordered(b, key)
    requires forall k :: WithKey(a, key, k) == WithKey(b, key, k)
    ensures b != [] && a[|a| - 1] == b[|b| - 1]
  {
    var ka := key(a[|a| - 1]);
    WithKeyOfMax(a, key);
    assert WithKey(b, key, ka) == WithKey(a, key, ka);
    assert b != [];
    var kb := key(b[|b| - 1]);
    WithKeyOfMax(b, key);
    assert WithKey(a, key, kb) == WithKey(b, key, kb);
    KeyIsBoundedByTheLast(b, key, ka);
    KeyIsBoundedByTheLast(a, key, kb);
  }

  /** Order and ties determine the result: nothing else is a stable sort of `s`. */
  lemma {:induction false} StableSortIsUnique<T>(a: seq<T>, b: seq<T>, key: T -> int)
    requires Ordered(a, key) && Ordered(b, key)
    requires forall k :: WithKey(a, key, k) == WithKey(b, key, k)
    ensures a == b
  {
    if a == [] {
      if b != [] { LastElementsAgree(b, a, key); }
    } else {
      LastElementsAgree(a, b, key);
      var m, n := |a| - 1, |b| - 1;
      forall k ensures WithKey(a[..m], key, k) == WithKey(b[..n], key, k) {
        var tail := if key(a[m]) == k then [a[m]] else [];
        assert WithKey(a, key, k) == WithKey(a[..m], key, k) + tail;
        assert WithKey(b, key, k) == WithKey(b[..n], key, k) + tail;
        assert WithKey(a, key, k) == WithKey(b, key, k);
        assert WithKey(a[..m], key, k) == WithKey(a, key, k)[..|WithKey(a, key, k)| - |tail|];
        assert WithKey(b[..n], key, k) == WithKey(b, key, k)[..|WithKey(b, key, k)| - |tail|];
      }
      StableSortIsUnique(a[..m], b[..n], key);
      assert a == a[..m] + [a[m]] && b == b[..n] + [b[n]];
    }
  }
}
