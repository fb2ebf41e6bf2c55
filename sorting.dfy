/**
 * Python's `sorted(xs, key=key, reverse=True)`: a stable sort, descending
 * by an integer key.
 */
module Sorting {

  /** `x` placed before the first element whose key is not above its own. */
  function InsertByKey<T>(x: T, t: seq<T>, key: T -> int): (r: seq<T>)
    ensures |r| == |t| + 1
  {
    if t == [] || key(t[0]) <= key(x) then [x] + t else [t[0]] + InsertByKey(x, t[1..], key)
  }

  function SortByKey<T>(s: seq<T>, key: T -> int): (r: seq<T>)
    ensures |r| == |s|
  {
    if s == [] then [] else InsertByKey(s[0], SortByKey(s[1..], key), key)
  }

  predicate DescendingBy<T>(s: seq<T>, key: T -> int)
  {
    forall i, j :: 0 <= i < j < |s| ==> key(s[i]) >= key(s[j])
  }

  /** The elements of `s` whose key is `v`, in order. */
  function WithKey<T>(s: seq<T>, key: T -> int, v: int): seq<T>
  {
    if s == [] then [] else (if key(s[0]) == v then [s[0]] else []) + WithKey(s[1..], key, v)
  }

  lemma {:induction false} InsertByKeyMultiset<T>(x: T, t: seq<T>, key: T -> int)
    ensures multiset(InsertByKey(x, t, key)) == multiset(t) + multiset{x}
  {
    if t != [] && key(t[0]) > key(x) {
      InsertByKeyMultiset(x, t[1..], key);
      assert t == [t[0]] + t[1..];
    }
  }

  lemma {:induction false} InsertByKeyDescending<T>(x: T, t: seq<T>, key: T -> int)
    requires DescendingBy(t, key)
    ensures DescendingBy(InsertByKey(x, t, key), key)
  {
    if t != [] && key(t[0]) > key(x) {
      var r := InsertByKey(x, t[1..], key);
      InsertByKeyDescending(x, t[1..], key);
      InsertByKeyMultiset(x, t[1..], key);
      forall j | 0 <= j < |r|
        ensures key(t[0]) >= key(r[j])
      {
        assert r[j] in multiset(r);
        if r[j] != x {
          assert r[j] in multiset(t[1..]);
          var i :| 0 <= i < |t[1..]| && t[1..][i] == r[j];
          assert t[i + 1] == r[j];
        }
      }
      assert InsertByKey(x, t, key) == [t[0]] + r;
    }
  }

  lemma {:induction false} InsertByKeyStable<T>(x: T, t: seq<T>, key: T -> int, v: int)
    ensures WithKey(InsertByKey(x, t, key), key, v) == (if key(x) == v then [x] else []) + WithKey(t, key, v)
  {
    if t == [] || key(t[0]) <= key(x) {
      assert InsertByKey(x, t, key) == [x] + t;
      assert ([x] + t)[1..] == t;
    } else {
      var r := InsertByKey(x, t[1..], key);
      assert InsertByKey(x, t, key) == [t[0]] + r;
      assert ([t[0]] + r)[1..] == r;
      InsertByKeyStable(x, t[1..], key, v);
      var head := if key(t[0]) == v then [t[0]] else [];
      var rest := WithKey(t[1..], key, v);
      assert WithKey(InsertByKey(x, t, key), key, v) == head + WithKey(r, key, v);
      assert WithKey(t, key, v) == head + rest;
      if key(x) == v {
        assert head == [];
        assert WithKey(r, key, v) == [x] + rest;
      } else {
        assert WithKey(r, key, v) == rest;
      }
    }
  }

  /**
   * The sorted list is descending, a permutation of the input, and keeps
   * the input order among elements with equal keys.
   */
  lemma {:induction false} SortByKeySpec<T>(s: seq<T>, key: T -> int)
    ensures DescendingBy(SortByKey(s, key), key)
    ensures multiset(SortByKey(s, key)) == multiset(s)
    ensures forall v :: WithKey(SortByKey(s, key), key, v) == WithKey(s, key, v)
  {
    if s != [] {
      SortByKeySpec(s[1..], key);
      InsertByKeyDescending(s[0], SortByKey(s[1..], key), key);
      InsertByKeyMultiset(s[0], SortByKey(s[1..], key), key);
      assert s == [s[0]] + s[1..];
      forall v
        ensures WithKey(SortByKey(s, key), key, v) == WithKey(s, key, v)
      {
        InsertByKeyStable(s[0], SortByKey(s[1..], key), key, v);
      }
    }
  }
}
