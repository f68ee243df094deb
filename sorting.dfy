/** The library sorts the system relies on (Array.prototype.sort with a
    numeric comparator in the browser, DataFrame.sort_values on the server),
    modelled as one stable insertion sort by an integer key. */
module Sorting {

  ghost predicate SortedBy<T>(s: seq<T>, key: T -> int)
  {
    forall i, j :: 0 <= i < j < |s| ==> key(s[i]) <= key(s[j])
  }

  /** Inserts x before the first element whose key is not smaller. */
  function InsertBy<T>(x: T, s: seq<T>, key: T -> int): seq<T>
  {
    if s == [] || key(x) <= key(s[0]) then [x] + s else [s[0]] + InsertBy(x, s[1..], key)
  }

  /** Elements with equal keys keep their relative order. */
  function SortBy<T>(s: seq<T>, key: T -> int): seq<T>
  {
    if s == [] then [] else InsertBy(s[0], SortBy(s[1..], key), key)
  }

  /** How many elements satisfy p. */
  function Count<T>(s: seq<T>, p: T -> bool): nat
  {
    if s == [] then 0 else (if p(s[0]) then 1 else 0) + Count(s[1..], p)
  }

  lemma {:induction false} InsertByMultiset<T>(x: T, s: seq<T>, key: T -> int)
    ensures multiset(InsertBy(x, s, key)) == multiset(s) + multiset{x}
  {
    if s != [] && key(x) > key(s[0]) {
      InsertByMultiset(x, s[1..], key);
      assert s == [s[0]] + s[1..];
    }
  }

  lemma {:induction false} InsertBySorted<T>(x: T, s: seq<T>, key: T -> int)
    requires SortedBy(s, key)
    ensures SortedBy(InsertBy(x, s, key), key)
  {
    if s != [] && key(x) > key(s[0]) {
      InsertBySorted(x, s[1..], key);
      InsertByMultiset(x, s[1..], key);
      var r := InsertBy(x, s[1..], key);
      forall y | y in r
        ensures key(s[0]) <= key(y)
      {
        assert y in multiset(r);
        if y != x {
          assert y in multiset(s[1..]);
        }
      }
      var r2 := [s[0]] + r;
      forall i, j | 0 <= i < j < |r2|
        ensures key(r2[i]) <= key(r2[j])
      {
        assert r2[j] == r[j - 1];
        assert r2[j] in r;
        if i > 0 {
          assert r2[i] == r[i - 1];
        }
      }
    }
  }

  lemma {:induction false} InsertByCount<T>(x: T, s: seq<T>, key: T -> int, p: T -> bool)
    ensures Count(InsertBy(x, s, key), p) == Count(s, p) + (if p(x) then 1 else 0)
  {
    if s != [] && key(x) > key(s[0]) {
      InsertByCount(x, s[1..], key, p);
      assert ([s[0]] + InsertBy(x, s[1..], key))[1..] == InsertBy(x, s[1..], key);
    } else {
      assert ([x] + s)[1..] == s;
    }
  }

  /** The sort returns a permutation of its input, ordered by key. */
  lemma {:induction false} SortByProps<T>(s: seq<T>, key: T -> int)
    ensures multiset(SortBy(s, key)) == multiset(s)
    ensures SortedBy(SortBy(s, key), key)
  {
    if s != [] {
      SortByProps(s[1..], key);
      InsertByMultiset(s[0], SortBy(s[1..], key), key);
      InsertBySorted(s[0], SortBy(s[1..], key), key);
      assert s == [s[0]] + s[1..];
    }
  }

  /** Sorting keeps the length, the members, and the number of elements with
      any property. */
  lemma {:induction false} SortByKeeps<T>(s: seq<T>, key: T -> int, p: T -> bool)
    ensures |SortBy(s, key)| == |s|
    ensures forall x :: x in SortBy(s, key) <==> x in s
    ensures Count(SortBy(s, key), p) == Count(s, p)
  {
    SortByProps(s, key);
    assert |multiset(SortBy(s, key))| == |multiset(s)|;
    forall x
      ensures x in SortBy(s, key) <==> x in s
    {
      assert x in SortBy(s, key) <==> x in multiset(SortBy(s, key));
      assert x in s <==> x in multiset(s);
    }
    if s != [] {
      SortByKeeps(s[1..], key, p);
      InsertByCount(s[0], SortBy(s[1..], key), key, p);
    }
  }
}
