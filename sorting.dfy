/**
 * Python's `sorted(..., key=...)` on lists whose keys are pairwise distinct,
 * which is how the analyze handler uses it: the result is the unique
 * rearrangement of the input that is strictly ordered by the key.
 */
module Sorting {
  import opened Strings

  /** No two elements share a key, as the keys of a Python dict never do. */
  predicate DistinctKeys<T, K(==)>(s: seq<T>, key: T -> K) {
    forall i, j :: 0 <= i < j < |s| ==> key(s[i]) != key(s[j])
  }

  /** Strictly ascending by the key, in Python's string order. */
  predicate AscendingBy<T>(s: seq<T>, key: T -> string) {
    forall i, j :: 0 <= i < j < |s| ==> LexLess(key(s[i]), key(s[j]))
  }

  /** Strictly descending by an integer key (`reverse=True`). */
  predicate DescendingBy<T>(s: seq<T>, key: T -> int) {
    forall i, j :: 0 <= i < j < |s| ==> key(s[i]) > key(s[j])
  }

  function InsertAscending<T>(x: T, s: seq<T>, key: T -> string): (r: seq<T>)
    requires AscendingBy(s, key)
    requires forall y :: y in s ==> key(y) != key(x)
    ensures multiset(r) == multiset{x} + multiset(s)
    ensures AscendingBy(r, key)
  {
    if s == [] then [x]
    else if LexLess(key(x), key(s[0])) then
      forall y | y in s ensures LexLess(key(x), key(y)) {
        var j :| 0 <= j < |s| && s[j] == y;
        if j > 0 {
          LexLessTransitive(key(x), key(s[0]), key(s[j]));
        }
      }
      ConsAscending(x, s, key);
      [x] + s
    else
      LexLessTotal(key(x), key(s[0]));
      var rest := InsertAscending(x, s[1..], key);
      HeadBelowInserted(x, s, rest, key);
      ConsAscending(s[0], rest, key);
      assert s == [s[0]] + s[1..];
      [s[0]] + rest
  }

  lemma HeadBelowInserted<T>(x: T, s: seq<T>, rest: seq<T>, key: T -> string)
    requires s != [] && AscendingBy(s, key) && LexLess(key(s[0]), key(x))
    requires multiset(rest) == multiset{x} + multiset(s[1..])
    ensures forall y :: y in rest ==> LexLess(key(s[0]), key(y))
  {
    forall y | y in rest ensures LexLess(key(s[0]), key(y)) {
      assert y in multiset(rest);
      if y != x {
        var j :| 0 <= j < |s[1..]| && s[1..][j] == y;
        assert s[j + 1] == y;
      }
    }
  }

  lemma ConsAscending<T>(h: T, s: seq<T>, key: T -> string)
    requires AscendingBy(s, key)
    requires forall y :: y in s ==> LexLess(key(h), key(y))
    ensures AscendingBy([h] + s, key)
  {
    var r := [h] + s;
    forall i, j | 0 <= i < j < |r| ensures LexLess(key(r[i]), key(r[j])) {
      assert r[j] == s[j - 1];
      if i > 0 {
        assert r[i] == s[i - 1];
      }
    }
  }

  /** The elements sorted after the head all have keys other than the head's. */
  lemma RestAvoidsHead<T, K>(s: seq<T>, rest: seq<T>, key: T -> K)
    requires s != [] && multiset(rest) == multiset(s[1..])
    requires forall i, j :: 0 <= i < j < |s| ==> key(s[i]) != key(s[j])
    ensures forall y :: y in rest ==> key(y) != key(s[0])
  {
    forall y | y in rest ensures key(y) != key(s[0]) {
      assert y in multiset(rest);
      var j :| 0 <= j < |s[1..]| && s[1..][j] == y;
      assert s[j + 1] == y;
    }
  }

  /** `sorted(s, key=key)` for distinct keys. */
  function SortAscending<T>(s: seq<T>, key: T -> string): (r: seq<T>)
    requires DistinctKeys(s, key)
    ensures multiset(r) == multiset(s)
    ensures AscendingBy(r, key)
  {
    if s == [] then []
    else
      var rest := SortAscending(s[1..], key);
      RestAvoidsHead(s, rest, key);
      assert s == [s[0]] + s[1..];
      InsertAscending(s[0], rest, key)
  }

  function InsertDescending<T>(x: T, s: seq<T>, key: T -> int): (r: seq<T>)
    requires DescendingBy(s, key)
    requires forall y :: y in s ==> key(y) != key(x)
    ensures multiset(r) == multiset{x} + multiset(s)
    ensures DescendingBy(r, key)
  {
    if s == [] then [x]
    else if key(x) > key(s[0]) then
      forall y | y in s ensures key(x) > key(y) {
        var j :| 0 <= j < |s| && s[j] == y;
        assert j == 0 || key(s[0]) > key(s[j]);
      }
      ConsDescending(x, s, key);
      [x] + s
    else
      var rest := InsertDescending(x, s[1..], key);
      HeadAboveInserted(x, s, rest, key);
      ConsDescending(s[0], rest, key);
      assert s == [s[0]] + s[1..];
      [s[0]] + rest
  }

  lemma HeadAboveInserted<T>(x: T, s: seq<T>, rest: seq<T>, key: T -> int)
    requires s != [] && DescendingBy(s, key) && key(s[0]) > key(x)
    requires multiset(rest) == multiset{x} + multiset(s[1..])
    ensures forall y :: y in rest ==> key(s[0]) > key(y)
  {
    forall y | y in rest ensures key(s[0]) > key(y) {
      assert y in multiset(rest);
      if y != x {
        var j :| 0 <= j < |s[1..]| && s[1..][j] == y;
        assert s[j + 1] == y;
      }
    }
  }

  lemma ConsDescending<T>(h: T, s: seq<T>, key: T -> int)
    requires DescendingBy(s, key)
    requires forall y :: y in s ==> key(h) > key(y)
    ensures DescendingBy([h] + s, key)
  {
    var r := [h] + s;
    forall i, j | 0 <= i < j < |r| ensures key(r[i]) > key(r[j]) {
      assert r[j] == s[j - 1];
      if i > 0 {
        assert r[i] == s[i - 1];
      }
    }
  }

  /** `sorted(s, key=key, reverse=True)` for distinct integer keys. */
  function SortDescending<T>(s: seq<T>, key: T -> int): (r: seq<T>)
    requires DistinctKeys(s, key)
    ensures multiset(r) == multiset(s)
    ensures DescendingBy(r, key)
  {
    if s == [] then []
    else
      var rest := SortDescending(s[1..], key);
      RestAvoidsHead(s, rest, key);
      assert s == [s[0]] + s[1..];
      InsertDescending(s[0], rest, key)
  }

  lemma TailMultiset<T>(a: seq<T>)
    requires a != []
    ensures multiset(a[1..]) == multiset(a) - multiset{a[0]}
  {
    assert a == [a[0]] + a[1..];
  }

  lemma SameTailElements<T>(a: seq<T>, b: seq<T>)
    requires a != [] && b != [] && a[0] == b[0] && multiset(a) == multiset(b)
    ensures multiset(a[1..]) == multiset(b[1..])
  {
    TailMultiset(a);
    TailMultiset(b);
  }

  lemma SameHeadSameTail<T>(a: seq<T>, b: seq<T>)
    requires a != [] && b != [] && a[0] == b[0] && a[1..] == b[1..]
    ensures a == b
  {
    assert a == [a[0]] + a[1..] && b == [b[0]] + b[1..];
  }

  lemma NoElements<T>(b: seq<T>)
    requires multiset(b) == multiset{}
    ensures b == []
  {
    assert |multiset(b)| == 0;
  }

  lemma AscendingTail<T>(a: seq<T>, key: T -> string)
    requires a != [] && AscendingBy(a, key)
    ensures AscendingBy(a[1..], key)
  {
    forall i, j | 0 <= i < j < |a| - 1 ensures LexLess(key(a[1..][i]), key(a[1..][j])) {
      assert a[1..][i] == a[i + 1] && a[1..][j] == a[j + 1];
    }
  }

  lemma DescendingTail<T>(a: seq<T>, key: T -> int)
    requires a != [] && DescendingBy(a, key)
    ensures DescendingBy(a[1..], key)
  {
    forall i, j | 0 <= i < j < |a| - 1 ensures key(a[1..][i]) > key(a[1..][j]) {
      assert a[1..][i] == a[i + 1] && a[1..][j] == a[j + 1];
    }
  }

  /** Two ascending lists of the same elements start with the same element. */
  lemma AscendingSameHead<T>(a: seq<T>, b: seq<T>, key: T -> string)
    requires a != [] && multiset(a) == multiset(b)
    requires AscendingBy(a, key) && AscendingBy(b, key)
    ensures b != [] && a[0] == b[0]
  {
    assert a[0] in multiset(b);
    assert b[0] in multiset(a);
    if a[0] != b[0] {
      var i :| 0 <= i < |a| && a[i] == b[0];
      var j :| 0 <= j < |b| && b[j] == a[0];
      assert i > 0 && j > 0;
      LexLessAsymmetric(key(a[0]), key(b[0]));
      assert false;
    }
  }

  /**
   * A list strictly ascending by the key is determined by its elements: any
   * correct sort of the same elements, Python's included, gives this very list.
   */
  lemma {:induction false} AscendingUnique<T>(a: seq<T>, b: seq<T>, key: T -> string)
    requires multiset(a) == multiset(b)
    requires AscendingBy(a, key) && AscendingBy(b, key)
    ensures a == b
  {
    if a != [] {
      AscendingSameHead(a, b, key);
      SameTailElements(a, b);
      AscendingTail(a, key);
      AscendingTail(b, key);
      AscendingUnique(a[1..], b[1..], key);
      SameHeadSameTail(a, b);
    } else {
      NoElements(b);
    }
  }

  /** Two descending lists of the same elements start with the same element. */
  lemma DescendingSameHead<T>(a: seq<T>, b: seq<T>, key: T -> int)
    requires a != [] && multiset(a) == multiset(b)
    requires DescendingBy(a, key) && DescendingBy(b, key)
    ensures b != [] && a[0] == b[0]
  {
    assert a[0] in multiset(b);
    assert b[0] in multiset(a);
  }

  /** The descending counterpart of AscendingUnique. */
  lemma {:induction false} DescendingUnique<T>(a: seq<T>, b: seq<T>, key: T -> int)
    requires multiset(a) == multiset(b)
    requires DescendingBy(a, key) && DescendingBy(b, key)
    ensures a == b
  {
    if a != [] {
      DescendingSameHead(a, b, key);
      SameTailElements(a, b);
      DescendingTail(a, key);
      DescendingTail(b, key);
      DescendingUnique(a[1..], b[1..], key);
      SameHeadSameTail(a, b);
    } else {
      NoElements(b);
    }
  }
}
