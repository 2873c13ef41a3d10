/** Sequence helpers shared by the server queries and the client hook:
    `Array.prototype.filter` and the stable `Array.prototype.sort`. */
module Seqs {

  /** `s.filter(p)`: keeps, in order, exactly the elements satisfying `p`. */
  function Filter<T(!new)>(s: seq<T>, p: T -> bool): (r: seq<T>)
    ensures |r| <= |s|
    ensures forall x :: x in r <==> x in s && p(x)
  {
    if s == [] then []
    else (if p(s[0]) then [s[0]] else []) + Filter(s[1..], p)
  }

  /** Each element kept by `Filter` occurs as often as in the input. */
  lemma {:induction false} FilterCount<T(!new)>(s: seq<T>, p: T -> bool, x: T)
    ensures multiset(Filter(s, p))[x] == if p(x) then multiset(s)[x] else 0
  {
    if s != [] {
      FilterCount(s[1..], p, x);
      assert s == [s[0]] + s[1..];
      assert multiset(s) == multiset{s[0]} + multiset(s[1..]);
    }
  }

  /** `r` is obtained from `s` by deleting elements (the order is kept). */
  predicate Subsequence<T(==)>(r: seq<T>, s: seq<T>)
  {
    if r == [] then true
    else if s == [] then false
    else if r[0] == s[0] then Subsequence(r[1..], s[1..])
    else Subsequence(r, s[1..])
  }

  lemma {:induction false} SubsequenceOfItself<T>(s: seq<T>)
    ensures Subsequence(s, s)
  {
    if s != [] {
      SubsequenceOfItself(s[1..]);
    }
  }

  lemma {:induction false} EmptySubsequence<T>(s: seq<T>)
    ensures Subsequence([], s)
  {
  }

  /** Every element of a subsequence is an element of the sequence. */
  lemma {:induction false} SubsequenceMembers<T>(a: seq<T>, b: seq<T>, x: T)
    requires Subsequence(a, b) && x in a
    ensures x in b
    decreases |b|
  {
    if a[0] == b[0] {
      if x != a[0] {
        SubsequenceMembers(a[1..], b[1..], x);
      }
    } else {
      SubsequenceMembers(a, b[1..], x);
    }
  }

  /** A subsequence of the tail is a subsequence of the whole. */
  lemma {:induction false} SubsequenceOfTail<T>(x: seq<T>, s: seq<T>)
    requires s != [] && Subsequence(x, s[1..])
    ensures Subsequence(x, s)
    decreases |s|, 0
  {
    if x != [] && x[0] == s[0] {
      SubsequenceDropFirst(x, s[1..]);
    }
  }

  /** Dropping the first element of a subsequence leaves a subsequence. */
  lemma {:induction false} SubsequenceDropFirst<T>(a: seq<T>, s: seq<T>)
    requires a != [] && Subsequence(a, s)
    ensures Subsequence(a[1..], s)
    decreases |s|, 1
  {
    if a[0] == s[0] {
      SubsequenceOfTail(a[1..], s);
    } else {
      SubsequenceDropFirst(a, s[1..]);
      SubsequenceOfTail(a[1..], s);
    }
  }

  lemma {:induction false} SubsequenceTransitive<T>(a: seq<T>, b: seq<T>, c: seq<T>)
    requires Subsequence(a, b) && Subsequence(b, c)
    ensures Subsequence(a, c)
    decreases |c|
  {
    if a != [] {
      if b[0] == c[0] {
        if a[0] == b[0] {
          SubsequenceTransitive(a[1..], b[1..], c[1..]);
        } else {
          SubsequenceTransitive(a, b[1..], c[1..]);
        }
      } else {
        SubsequenceTransitive(a, b, c[1..]);
        if a[0] == c[0] {
          SubsequenceDropFirst(a, c[1..]);
        }
      }
    }
  }

  lemma {:induction false} FilterIsSubsequence<T(!new)>(s: seq<T>, p: T -> bool)
    ensures Subsequence(Filter(s, p), s)
  {
    if s != [] {
      FilterIsSubsequence(s[1..], p);
      if !p(s[0]) {
        var r := Filter(s[1..], p);
        assert Filter(s, p) == r;
        if r != [] {
          assert r[0] in r;
          assert r[0] != s[0];
        }
      }
    }
  }

  lemma {:induction false} FilterAppend<T(!new)>(a: seq<T>, b: seq<T>, p: T -> bool)
    ensures Filter(a + b, p) == Filter(a, p) + Filter(b, p)
  {
    if a == [] {
      assert a + b == b;
    } else {
      assert (a + b)[1..] == a[1..] + b;
      FilterAppend(a[1..], b, p);
    }
  }

  /** Filtering twice by the same predicate changes nothing the second time. */
  lemma {:induction false} FilterIdempotent<T(!new)>(s: seq<T>, p: T -> bool)
    ensures Filter(Filter(s, p), p) == Filter(s, p)
  {
    if s != [] {
      FilterIdempotent(s[1..], p);
      var t := Filter(s[1..], p);
      if p(s[0]) {
        var r := [s[0]] + t;
        assert Filter(s, p) == r;
        assert r[0] == s[0] && r[1..] == t;
        calc {
          Filter(Filter(s, p), p);
          Filter(r, p);
          [s[0]] + Filter(t, p);
          r;
        }
      } else {
        assert Filter(s, p) == [] + t == t;
      }
    }
  }

  /** A filter that rejects every element yields the empty sequence. */
  lemma {:induction false} FilterNone<T(!new)>(s: seq<T>, p: T -> bool)
    requires forall x :: x in s ==> !p(x)
    ensures Filter(s, p) == []
  {
    if s != [] {
      assert s[0] in s;
      FilterNone(s[1..], p);
    }
  }

  ghost predicate SortedBy<T(!new)>(s: seq<T>, key: T -> real)
  {
    forall i, j :: 0 <= i < j < |s| ==> key(s[i]) <= key(s[j])
  }

  /** Inserts `x` in front of the first element whose key is not smaller. */
  function InsertBy<T(!new)>(x: T, s: seq<T>, key: T -> real): seq<T>
  {
    if s == [] then [x]
    else if key(x) <= key(s[0]) then [x] + s
    else [s[0]] + InsertBy(x, s[1..], key)
  }

  lemma {:induction false} InsertByElements<T(!new)>(x: T, s: seq<T>, key: T -> real)
    ensures multiset(InsertBy(x, s, key)) == multiset(s) + multiset{x}
    ensures forall y :: y in InsertBy(x, s, key) <==> y == x || y in s
  {
    if s != [] && key(x) > key(s[0]) {
      InsertByElements(x, s[1..], key);
      assert s == [s[0]] + s[1..];
    }
  }

  /** Putting `h` in front of a sorted `t` keeps it sorted when no key in `t` is smaller. */
  lemma ConsKeepsSorted<T(!new)>(h: T, t: seq<T>, key: T -> real)
    requires SortedBy(t, key)
    requires forall y :: y in t ==> key(h) <= key(y)
    ensures SortedBy([h] + t, key)
  {
    var r := [h] + t;
    forall i, j | 0 <= i < j < |r| ensures key(r[i]) <= key(r[j]) {
      assert r[j] == t[j - 1];
      if i > 0 {
        assert r[i] == t[i - 1];
      }
    }
  }

  lemma {:induction false} InsertBySorted<T(!new)>(x: T, s: seq<T>, key: T -> real)
    requires SortedBy(s, key)
    ensures SortedBy(InsertBy(x, s, key), key)
  {
    if s == [] {
    } else if key(x) <= key(s[0]) {
      forall y | y in s ensures key(x) <= key(y) {
        var k :| 0 <= k < |s| && s[k] == y;
      }
      ConsKeepsSorted(x, s, key);
    } else {
      assert SortedBy(s[1..], key);
      InsertBySorted(x, s[1..], key);
      InsertByElements(x, s[1..], key);
      forall y | y in InsertBy(x, s[1..], key) ensures key(s[0]) <= key(y) {
        if y != x {
          var k :| 0 <= k < |s[1..]| && s[1..][k] == y;
          assert s[k + 1] == y;
        }
      }
      ConsKeepsSorted(s[0], InsertBy(x, s[1..], key), key);
    }
  }

  /** The stable sort of `s` by ascending `key`: what `s.sort((a, b) => key(a) - key(b))`
      returns (the sort has been stable since ECMAScript 2019). */
  function SortBy<T(!new)>(s: seq<T>, key: T -> real): (r: seq<T>)
    ensures SortedBy(r, key)
    ensures multiset(r) == multiset(s)
    ensures |r| == |s|
    ensures forall y :: y in r <==> y in s
  {
    if s == [] then []
    else
      var t := SortBy(s[1..], key);
      InsertBySorted(s[0], t, key);
      InsertByElements(s[0], t, key);
      assert s == [s[0]] + s[1..];
      assert forall y :: y in s <==> y == s[0] || y in s[1..];
      InsertBy(s[0], t, key)
  }

  /** Filtering keeps a sorted sequence sorted. */
  lemma {:induction false} FilterKeepsSorted<T(!new)>(s: seq<T>, p: T -> bool, key: T -> real)
    requires SortedBy(s, key)
    ensures SortedBy(Filter(s, p), key)
  {
    if s != [] {
      FilterKeepsSorted(s[1..], p, key);
      var t := Filter(s[1..], p);
      if p(s[0]) {
        var r := [s[0]] + t;
        forall j | 1 <= j < |r| ensures key(s[0]) <= key(r[j]) {
          assert r[j] in t;
          var k :| 0 <= k < |s[1..]| && s[1..][k] == r[j];
          assert s[k + 1] == r[j];
        }
        assert forall i, j :: 1 <= i < j < |r| ==> r[i] == t[i - 1] && r[j] == t[j - 1];
      }
    }
  }

  /** In a sequence without repeated elements, each element occurs once. */
  lemma {:induction false} DistinctOccursOnce<T>(s: seq<T>, x: T)
    requires forall i, j :: 0 <= i < j < |s| ==> s[i] != s[j]
    requires x in s
    ensures multiset(s)[x] == 1
  {
    assert s == [s[0]] + s[1..];
    if s[0] == x {
      assert x !in s[1..];
    } else {
      DistinctOccursOnce(s[1..], x);
    }
  }

  /** Among elements with equal `key`, `s` is ordered by `key2`. */
  ghost predicate TiesOrderedBy<T(!new)>(s: seq<T>, key: T -> real, key2: T -> real)
  {
    forall i, j :: 0 <= i < j < |s| && key(s[i]) == key(s[j]) ==> key2(s[i]) <= key2(s[j])
  }

  /** The tail of a sorted, tie-ordered sequence is sorted and tie-ordered, and the
      head comes first among the tail's elements with its key. */
  lemma TiesTail<T(!new)>(s: seq<T>, key: T -> real, key2: T -> real)
    requires s != [] && SortedBy(s, key) && TiesOrderedBy(s, key, key2)
    ensures SortedBy(s[1..], key) && TiesOrderedBy(s[1..], key, key2)
    ensures forall y :: y in s[1..] && key(y) == key(s[0]) ==> key2(s[0]) <= key2(y)
  {
    forall y | y in s[1..] && key(y) == key(s[0]) ensures key2(s[0]) <= key2(y) {
      var k :| 0 <= k < |s[1..]| && s[1..][k] == y;
      assert s[k + 1] == y;
    }
  }

  /** Putting `h` in front of a tie-ordered `t` keeps it tie-ordered when `h` comes
      first among the elements of `t` with its key. */
  lemma ConsKeepsTies<T(!new)>(h: T, t: seq<T>, key: T -> real, key2: T -> real)
    requires TiesOrderedBy(t, key, key2)
    requires forall y :: y in t && key(y) == key(h) ==> key2(h) <= key2(y)
    ensures TiesOrderedBy([h] + t, key, key2)
  {
    var r := [h] + t;
    forall i, j | 0 <= i < j < |r| && key(r[i]) == key(r[j])
      ensures key2(r[i]) <= key2(r[j])
    {
      assert r[j] == t[j - 1];
      if i > 0 {
        assert r[i] == t[i - 1];
      }
    }
  }

  lemma {:induction false} InsertByKeepsTies<T(!new)>(x: T, s: seq<T>, key: T -> real, key2: T -> real)
    requires SortedBy(s, key) && TiesOrderedBy(s, key, key2)
    requires forall y :: y in s ==> key2(x) <= key2(y)
    ensures TiesOrderedBy(InsertBy(x, s, key), key, key2)
  {
    if s == [] {
    } else if key(x) <= key(s[0]) {
      ConsKeepsTies(x, s, key, key2);
    } else {
      TiesTail(s, key, key2);
      assert forall y :: y in s[1..] ==> y in s;
      InsertByKeepsTies(x, s[1..], key, key2);
      InsertByElements(x, s[1..], key);
      ConsKeepsTies(s[0], InsertBy(x, s[1..], key), key, key2);
    }
  }

  /** Stability: when the input is already ordered by `key2`, the output orders
      equal-`key` elements by `key2`. */
  lemma {:induction false} SortByKeepsTies<T(!new)>(s: seq<T>, key: T -> real, key2: T -> real)
    requires SortedBy(s, key2)
    ensures TiesOrderedBy(SortBy(s, key), key, key2)
  {
    if s != [] {
      SortByKeepsTies(s[1..], key, key2);
      var t := SortBy(s[1..], key);
      forall y | y in t ensures key2(s[0]) <= key2(y) {
        var k :| 0 <= k < |s[1..]| && s[1..][k] == y;
        assert s[k + 1] == y;
      }
      InsertByKeepsTies(s[0], t, key, key2);
    }
  }
}
