/** The one built-in the modelled code leans on everywhere: Python's
    `sorted(..., key=..., reverse=True)`, which puts the largest key first and
    keeps elements with equal keys in the order they came in. */
module Sorting {

  ghost predicate Descending<T>(s: seq<T>, key: T -> int) {
    forall i, j :: 0 <= i < j < |s| ==> key(s[i]) >= key(s[j])
  }

  /** The elements of `s` whose key is `k`, in order. */
  function WithKey<T>(s: seq<T>, key: T -> int, k: int): seq<T> {
    if s == [] then []
    else if key(s[0]) == k then [s[0]] + WithKey(s[1..], key, k)
    else WithKey(s[1..], key, k)
  }

  function InsertDescending<T>(x: T, s: seq<T>, key: T -> int): seq<T> {
    if s == [] || key(s[0]) <= key(x) then [x] + s
    else [s[0]] + InsertDescending(x, s[1..], key)
  }

  function SortDescending<T>(s: seq<T>, key: T -> int): seq<T> {
    if s == [] then [] else InsertDescending(s[0], SortDescending(s[1..], key), key)
  }

  lemma {:induction false} InsertKeepsContent<T>(x: T, s: seq<T>, key: T -> int)
    ensures multiset(InsertDescending(x, s, key)) == multiset{x} + multiset(s)
  {
    if s != [] && key(s[0]) > key(x) {
      InsertKeepsContent(x, s[1..], key);
      assert s == [s[0]] + s[1..];
    }
  }

  lemma {:induction false} InsertKeepsOrder<T>(x: T, s: seq<T>, key: T -> int)
    requires Descending(s, key)
    ensures Descending(InsertDescending(x, s, key), key)
  {
    if s != [] && key(s[0]) > key(x) {
      var rest := InsertDescending(x, s[1..], key);
      InsertKeepsOrder(x, s[1..], key);
      InsertKeepsContent(x, s[1..], key);
      forall i | 0 <= i < |rest| ensures key(s[0]) >= key(rest[i]) {
        assert rest[i] in multiset(rest);
        assert rest[i] == x || rest[i] in s[1..];
      }
    }
  }

  lemma {:induction false} InsertKeepsTies<T>(x: T, s: seq<T>, key: T -> int, k: int)
    requires Descending(s, key)
    ensures WithKey(InsertDescending(x, s, key), key, k)
         == if key(x) == k then [x] + WithKey(s, key, k) else WithKey(s, key, k)
  {
    if s == [] || key(s[0]) <= key(x) {
      assert ([x] + s)[1..] == s;
    } else {
      InsertKeepsTies(x, s[1..], key, k);
      assert ([s[0]] + InsertDescending(x, s[1..], key))[1..] == InsertDescending(x, s[1..], key);
    }
  }

  lemma {:induction false} SortOrders<T>(s: seq<T>, key: T -> int)
    ensures Descending(SortDescending(s, key), key)
    ensures multiset(SortDescending(s, key)) == multiset(s)
  {
    if s != [] {
      SortOrders(s[1..], key);
      InsertKeepsOrder(s[0], SortDescending(s[1..], key), key);
      InsertKeepsContent(s[0], SortDescending(s[1..], key), key);
      assert s == [s[0]] + s[1..];
    }
  }

  lemma {:induction false} SortKeepsTies<T>(s: seq<T>, key: T -> int, k: int)
    ensures WithKey(SortDescending(s, key), key, k) == WithKey(s, key, k)
  {
    if s != [] {
      SortKeepsTies(s[1..], key, k);
      SortOrders(s[1..], key);
      InsertKeepsTies(s[0], SortDescending(s[1..], key), key, k);
    }
  }

  /** Sorting orders by key, loses and invents nothing, and is stable. */
  lemma SortIsStableSort<T>(s: seq<T>, key: T -> int)
    ensures Descending(SortDescending(s, key), key)
    ensures multiset(SortDescending(s, key)) == multiset(s)
    ensures |SortDescending(s, key)| == |s|
    ensures forall k :: WithKey(SortDescending(s, key), key, k) == WithKey(s, key, k)
  {
    SortOrders(s, key);
    forall k ensures WithKey(SortDescending(s, key), key, k) == WithKey(s, key, k) {
      SortKeepsTies(s, key, k);
    }
    assert |multiset(SortDescending(s, key))| == |multiset(s)|;
  }

  lemma SortHasSameElements<T>(s: seq<T>, key: T -> int)
    ensures forall x :: x in SortDescending(s, key) <==> x in s
    ensures |SortDescending(s, key)| == |s|
  {
    SortOrders(s, key);
    assert |multiset(SortDescending(s, key))| == |multiset(s)|;
    forall x ensures x in SortDescending(s, key) <==> x in s {
      assert x in multiset(SortDescending(s, key)) <==> x in multiset(s);
    }
  }

  /** Order, content and ties together leave only one possible result. */
  lemma {:induction false} StableSortIsUnique<T>(a: seq<T>, b: seq<T>, key: T -> int)
    requires Descending(a, key) && Descending(b, key)
    requires forall k :: WithKey(a, key, k) == WithKey(b, key, k)
    ensures a == b
  {
    if a == [] {
    } else {
      assert WithKey(a, key, key(a[0])) != [];
      assert b != [];
      WithKeyMember(a, key, key(b[0]));
      WithKeyMember(b, key, key(a[0]));
      assert WithKey(a, key, key(b[0])) == WithKey(b, key, key(b[0])) != [];
      assert key(a[0]) == key(b[0]);
      assert a[0] == WithKey(a, key, key(a[0]))[0] == b[0];
      forall k ensures WithKey(a[1..], key, k) == WithKey(b[1..], key, k) {
        assert WithKey(a, key, k) == WithKey(b, key, k);
        if k == key(a[0]) {
          assert WithKey(a, key, k)[1..] == WithKey(a[1..], key, k);
          assert WithKey(b, key, k)[1..] == WithKey(b[1..], key, k);
        }
      }
      StableSortIsUnique(a[1..], b[1..], key);
      assert a == [a[0]] + a[1..] && b == [b[0]] + b[1..];
    }
  }

  lemma {:induction false} WithKeyMember<T>(s: seq<T>, key: T -> int, k: int)
    ensures WithKey(s, key, k) != [] ==> exists i :: 0 <= i < |s| && key(s[i]) == k
  {
    if s != [] && key(s[0]) != k {
      WithKeyMember(s[1..], key, k);
      if WithKey(s, key, k) != [] {
        var i :| 0 <= i < |s[1..]| && key(s[1..][i]) == k;
        assert key(s[i + 1]) == k;
      }
    }
  }
}
