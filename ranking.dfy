/** Ordering by a numeric key, newest or largest first. Used for
    `ORDER BY timestamp DESC LIMIT n` in the entry log and for the
    `sort((a, b) => b[1] - a[1]).slice(0, 5)` of the mobile screens. */
module Ranking {
  import opened Base

  predicate NonIncreasing<T>(s: seq<T>, key: T -> real)
  {
    forall i, j :: 0 <= i < j < |s| ==> key(s[i]) >= key(s[j])
  }

  /** Inserts `x` after every element whose key is at least its own. */
  function Insert<T>(sorted: seq<T>, x: T, key: T -> real): (r: seq<T>)
    requires NonIncreasing(sorted, key)
    ensures |r| == |sorted| + 1
    ensures multiset(r) == multiset(sorted) + multiset{x}
    ensures NonIncreasing(r, key)
  {
    if sorted == [] then [x]
    else if key(sorted[0]) >= key(x) then
      var rest := Insert(sorted[1..], x, key);
      assert sorted == [sorted[0]] + sorted[1..];
      HeadBoundsInsert(sorted, x, key, rest);
      ConsNonIncreasing(sorted[0], rest, key);
      [sorted[0]] + rest
    else
      ConsNonIncreasing(x, sorted, key);
      [x] + sorted
  }

  /** An element at least as large as every element of a non-increasing
      sequence can go in front of it. */
  lemma ConsNonIncreasing<T>(h: T, t: seq<T>, key: T -> real)
    requires NonIncreasing(t, key)
    requires t != [] ==> key(h) >= key(t[0])
    ensures NonIncreasing([h] + t, key)
  {
    var r := [h] + t;
    forall i, j | 0 <= i < j < |r|
      ensures key(r[i]) >= key(r[j])
    {
      if i == 0 {
        assert r[j] == t[j - 1];
        assert key(t[0]) >= key(t[j - 1]) || j == 1;
      } else {
        assert r[i] == t[i - 1] && r[j] == t[j - 1];
      }
    }
  }

  lemma HeadBoundsInsert<T>(sorted: seq<T>, x: T, key: T -> real, rest: seq<T>)
    requires sorted != [] && NonIncreasing(sorted, key) && key(sorted[0]) >= key(x)
    requires multiset(rest) == multiset(sorted[1..]) + multiset{x}
    ensures forall j :: 0 <= j < |rest| ==> key(sorted[0]) >= key(rest[j])
  {
    forall j | 0 <= j < |rest|
      ensures key(sorted[0]) >= key(rest[j])
    {
      assert rest[j] in multiset(rest);
      if rest[j] != x {
        assert rest[j] in sorted[1..];
      }
    }
  }

  /** A stable sort by `key`, largest first. */
  function SortDesc<T>(s: seq<T>, key: T -> real): (r: seq<T>)
    ensures |r| == |s|
    ensures multiset(r) == multiset(s)
    ensures NonIncreasing(r, key)
  {
    if s == [] then []
    else
      assert s == s[..|s| - 1] + [s[|s| - 1]];
      Insert(SortDesc(s[..|s| - 1], key), s[|s| - 1], key)
  }

  /** The elements whose key is `v`, in their order. */
  function WithKey<T>(s: seq<T>, key: T -> real, v: real): seq<T>
  {
    if s == [] then [] else (if key(s[0]) == v then [s[0]] else []) + WithKey(s[1..], key, v)
  }

  function KeyPart<T>(x: T, key: T -> real, v: real): seq<T>
  {
    if key(x) == v then [x] else []
  }

  lemma WithKeyCons<T>(h: T, t: seq<T>, key: T -> real, v: real)
    ensures WithKey([h] + t, key, v) == KeyPart(h, key, v) + WithKey(t, key, v)
  {
    assert ([h] + t)[0] == h && ([h] + t)[1..] == t;
  }

  lemma {:induction false} WithKeyConcat<T>(a: seq<T>, b: seq<T>, key: T -> real, v: real)
    ensures WithKey(a + b, key, v) == WithKey(a, key, v) + WithKey(b, key, v)
  {
    if a == [] {
      assert a + b == b;
    } else {
      assert a + b == [a[0]] + (a[1..] + b);
      assert a == [a[0]] + a[1..];
      WithKeyCons(a[0], a[1..] + b, key, v);
      WithKeyCons(a[0], a[1..], key, v);
      WithKeyConcat(a[1..], b, key, v);
    }
  }

  lemma {:induction false} NoneWithKey<T>(s: seq<T>, key: T -> real, v: real)
    requires forall j :: 0 <= j < |s| ==> key(s[j]) < v
    ensures WithKey(s, key, v) == []
  {
    if s != [] {
      NoneWithKey(s[1..], key, v);
    }
  }

  /** The concatenation step of the branch that keeps the head in front. */
  lemma TiesBehindHead<T>(h: T, t: seq<T>, rest: seq<T>, x: T, key: T -> real, v: real)
    requires WithKey(rest, key, v) == WithKey(t, key, v) + KeyPart(x, key, v)
    ensures WithKey([h] + rest, key, v) == WithKey([h] + t, key, v) + KeyPart(x, key, v)
  {
    WithKeyCons(h, rest, key, v);
    WithKeyCons(h, t, key, v);
    var p0, w1, px := KeyPart(h, key, v), WithKey(t, key, v), KeyPart(x, key, v);
    assert p0 + (w1 + px) == (p0 + w1) + px;
  }

  /** The branch that puts `x` first: every other key is smaller. */
  lemma TiesInFront<T>(sorted: seq<T>, x: T, key: T -> real, v: real)
    requires forall j :: 0 <= j < |sorted| ==> key(sorted[j]) < key(x)
    ensures WithKey([x] + sorted, key, v) == WithKey(sorted, key, v) + KeyPart(x, key, v)
  {
    WithKeyCons(x, sorted, key, v);
    if key(x) == v {
      NoneWithKey(sorted, key, v);
      assert [x] + [] == [] + [x];
    } else {
      assert [] + WithKey(sorted, key, v) == WithKey(sorted, key, v) + [];
    }
  }

  /** `Insert` puts `x` behind every element of the same key. */
  lemma {:induction false} InsertKeepsTies<T>(sorted: seq<T>, x: T, key: T -> real, v: real)
    requires NonIncreasing(sorted, key)
    ensures WithKey(Insert(sorted, x, key), key, v) == WithKey(sorted, key, v) + KeyPart(x, key, v)
  {
    if sorted == [] {
      WithKeyCons(x, [], key, v);
      assert [x] + [] == [x];
    } else if key(sorted[0]) >= key(x) {
      var rest := Insert(sorted[1..], x, key);
      assert Insert(sorted, x, key) == [sorted[0]] + rest;
      InsertKeepsTies(sorted[1..], x, key, v);
      TiesBehindHead(sorted[0], sorted[1..], rest, x, key, v);
      assert sorted == [sorted[0]] + sorted[1..];
    } else {
      assert Insert(sorted, x, key) == [x] + sorted;
      TiesInFront(sorted, x, key, v);
    }
  }

  /** The last element's part comes after the rest's. */
  lemma WithKeyLast<T>(s: seq<T>, key: T -> real, v: real)
    requires s != []
    ensures WithKey(s, key, v) == WithKey(s[..|s| - 1], key, v) + KeyPart(s[|s| - 1], key, v)
  {
    var init, last := s[..|s| - 1], s[|s| - 1];
    assert s == init + [last];
    WithKeyConcat(init, [last], key, v);
    WithKeyCons(last, [], key, v);
    assert [last] + [] == [last];
    assert KeyPart(last, key, v) + [] == KeyPart(last, key, v);
  }

  /** One step of `SortDesc`: the last element is inserted into the sorted rest. */
  lemma SortDescLast<T>(s: seq<T>, key: T -> real)
    requires s != []
    ensures SortDesc(s, key) == Insert(SortDesc(s[..|s| - 1], key), s[|s| - 1], key)
  {
  }

  /** The sort is stable: elements of equal key keep their input order. */
  lemma {:induction false} SortDescStable<T>(s: seq<T>, key: T -> real, v: real)
    ensures WithKey(SortDesc(s, key), key, v) == WithKey(s, key, v)
  {
    if s != [] {
      var init, last := s[..|s| - 1], s[|s| - 1];
      SortDescLast(s, key);
      SortDescStable(init, key, v);
      InsertKeepsTies(SortDesc(init, key), last, key, v);
      WithKeyLast(s, key, v);
    }
  }

  /** The first `k` elements after sorting by `key`, largest first. */
  function TopK<T>(s: seq<T>, k: nat, key: T -> real): (r: seq<T>)
    ensures |r| == Min(k, |s|)
    ensures NonIncreasing(r, key)
    ensures multiset(r) <= multiset(s)
    ensures forall x :: x in s && multiset(r)[x] < multiset(s)[x] ==>
              forall j :: 0 <= j < |r| ==> key(r[j]) >= key(x)
  {
    var sorted := SortDesc(s, key);
    var n := Min(k, |s|);
    TopKBounds(sorted, n, key);
    sorted[..n]
  }

  lemma TopKBounds<T>(sorted: seq<T>, n: nat, key: T -> real)
    requires n <= |sorted| && NonIncreasing(sorted, key)
    ensures multiset(sorted[..n]) <= multiset(sorted)
    ensures forall x :: x in sorted && multiset(sorted[..n])[x] < multiset(sorted)[x] ==>
              forall j :: 0 <= j < n ==> key(sorted[j]) >= key(x)
  {
    assert sorted == sorted[..n] + sorted[n..];
    forall x | x in sorted && multiset(sorted[..n])[x] < multiset(sorted)[x]
      ensures forall j :: 0 <= j < n ==> key(sorted[j]) >= key(x)
    {
      assert x in multiset(sorted[n..]);
      var p :| n <= p < |sorted| && sorted[p] == x;
    }
  }

  /** An element whose key beats every other element's comes first. */
  lemma TopKStartsWithStrictMax<T>(s: seq<T>, k: nat, key: T -> real, x: T)
    requires k >= 1 && x in s
    requires forall y :: y in s && y != x ==> key(y) < key(x)
    ensures TopK(s, k, key) != [] && TopK(s, k, key)[0] == x
  {
    var sorted := SortDesc(s, key);
    var top := TopK(s, k, key);
    assert top[0] == sorted[0];
    assert top[0] in s by {
      assert top[0] in multiset(top);
    }
    assert x in multiset(sorted);
    var p :| 0 <= p < |sorted| && sorted[p] == x;
    assert key(top[0]) >= key(x);
  }

  /** Among elements of equal key, the ones kept are the earliest ones of
      the input, in input order. */
  lemma TopKKeepsFirstTies<T>(s: seq<T>, k: nat, key: T -> real, v: real)
    ensures WithKey(TopK(s, k, key), key, v) <= WithKey(s, key, v)
  {
    var sorted := SortDesc(s, key);
    var n := Min(k, |s|);
    assert TopK(s, k, key) == sorted[..n];
    assert sorted == sorted[..n] + sorted[n..];
    WithKeyConcat(sorted[..n], sorted[n..], key, v);
    SortDescStable(s, key, v);
  }

  /** Of two elements with the same key, the first is the one a top-1
      selection keeps. */
  lemma TopOfTwoTied<T>(x: T, y: T, key: T -> real)
    requires key(x) == key(y)
    ensures TopK([x, y], 1, key) == [x]
  {
    var s := [x, y];
    var top := TopK(s, 1, key);
    TopKKeepsFirstTies(s, 1, key, key(x));
    assert top[0] in multiset(s) by {
      assert top[0] in multiset(top);
    }
    assert WithKey(top, key, key(x)) == [top[0]] by {
      assert top[1..] == [];
    }
    assert WithKey(s, key, key(x)) == [x, y] by {
      assert s[1..] == [y] && [y][1..] == [];
      assert WithKey([y], key, key(x)) == [y];
    }
  }
}
