/** Sorting by an integer key, as Python's list.sort(key=...) and JavaScript's
    Array.prototype.sort with a numeric comparator do it: both are stable, so
    elements with equal keys keep their relative order. */
module Seqs {

  predicate SortedBy<T>(s: seq<T>, key: T -> int) {
    forall i, j :: 0 <= i < j < |s| ==> key(s[i]) <= key(s[j])
  }

  /** The elements of s whose key is k, in the order of s. */
  function WithKey<T>(s: seq<T>, key: T -> int, k: int): seq<T>
  {
    if |s| == 0 then []
    else (if key(s[0]) == k then [s[0]] else []) + WithKey(s[1..], key, k)
  }

  lemma {:induction false} WithKeyAppend<T>(a: seq<T>, b: seq<T>, key: T -> int, k: int)
    ensures WithKey(a + b, key, k) == WithKey(a, key, k) + WithKey(b, key, k)
  {
    if |a| > 0 {
      assert (a + b)[1..] == a[1..] + b;
      WithKeyAppend(a[1..], b, key, k);
    } else {
      assert a + b == b;
    }
  }

  lemma {:induction false} WithKeyNone<T>(s: seq<T>, key: T -> int, k: int)
    requires forall i :: 0 <= i < |s| ==> key(s[i]) != k
    ensures WithKey(s, key, k) == []
  {
    if |s| > 0 { WithKeyNone(s[1..], key, k); }
  }

  /** Inserts x after every element whose key is not larger than its own. */
  function InsertBy<T>(x: T, s: seq<T>, key: T -> int): (r: seq<T>)
    ensures multiset(r) == multiset(s) + multiset{x}
    ensures |r| == |s| + 1
  {
    if |s| == 0 then [x]
    else if key(x) < key(s[0]) then [x] + s
    else
      assert s == [s[0]] + s[1..];
      [s[0]] + InsertBy(x, s[1..], key)
  }

  /** Inserting into a sorted sequence keeps it sorted. */
  lemma {:induction false} InsertBySorted<T>(x: T, s: seq<T>, key: T -> int)
    requires SortedBy(s, key)
    ensures SortedBy(InsertBy(x, s, key), key)
  {
    if |s| > 0 && key(x) >= key(s[0]) {
      var rest := InsertBy(x, s[1..], key);
      InsertBySorted(x, s[1..], key);
      forall i | 0 <= i < |rest| ensures key(s[0]) <= key(rest[i]) {
        assert rest[i] in multiset(rest);
        if rest[i] != x {
          assert rest[i] in multiset(s[1..]);
          var j :| 0 <= j < |s[1..]| && s[1..][j] == rest[i];
          assert s[j + 1] == rest[i];
        }
      }
      assert InsertBy(x, s, key) == [s[0]] + rest;
    }
  }

  lemma {:induction false} InsertByWithKey<T>(x: T, s: seq<T>, key: T -> int, k: int)
    requires SortedBy(s, key)
    ensures WithKey(InsertBy(x, s, key), key, k)
         == WithKey(s, key, k) + (if key(x) == k then [x] else [])
  {
    var tail := if key(x) == k then [x] else [];
    if |s| == 0 {
      assert InsertBy(x, s, key) == [x];
    } else if key(x) < key(s[0]) {
      assert InsertBy(x, s, key) == [x] + s;
      WithKeyAppend([x], s, key, k);
      if key(x) == k {
        WithKeyNone(s, key, k);
      }
    } else {
      var rest := InsertBy(x, s[1..], key);
      var head := WithKey([s[0]], key, k);
      var more := WithKey(s[1..], key, k);
      assert WithKey(InsertBy(x, s, key), key, k) == head + (more + tail) by {
        assert InsertBy(x, s, key) == [s[0]] + rest;
        assert SortedBy(s[1..], key);
        InsertByWithKey(x, s[1..], key, k);
        WithKeyAppend([s[0]], rest, key, k);
      }
      assert WithKey(s, key, k) == head + more by {
        WithKeyAppend([s[0]], s[1..], key, k);
        assert [s[0]] + s[1..] == s;
      }
      assert head + (more + tail) == (head + more) + tail;
    }
  }

  /** Stable insertion sort by key. */
  function SortBy<T>(s: seq<T>, key: T -> int): (r: seq<T>)
    ensures multiset(r) == multiset(s)
    ensures |r| == |s|
  {
    if |s| == 0 then []
    else
      var init := s[..|s| - 1];
      assert s == init + [s[|s| - 1]];
      InsertBy(s[|s| - 1], SortBy(init, key), key)
  }

  /** The sort orders its output by key. */
  lemma {:induction false} SortBySorted<T>(s: seq<T>, key: T -> int)
    ensures SortedBy(SortBy(s, key), key)
  {
    if |s| > 0 {
      SortBySorted(s[..|s| - 1], key);
      InsertBySorted(s[|s| - 1], SortBy(s[..|s| - 1], key), key);
    }
  }

  /** Sorting is stable: for every key, the elements carrying it come out in
      the order they went in. */
  lemma {:induction false} SortByStable<T>(s: seq<T>, key: T -> int, k: int)
    ensures WithKey(SortBy(s, key), key, k) == WithKey(s, key, k)
  {
    if |s| > 0 {
      var init, x := s[..|s| - 1], s[|s| - 1];
      var last := if key(x) == k then [x] else [];
      assert WithKey(SortBy(s, key), key, k) == WithKey(SortBy(init, key), key, k) + last by {
        SortBySnoc(s, key);
        SortBySorted(init, key);
        InsertByWithKey(x, SortBy(init, key), key, k);
      }
      assert WithKey(SortBy(init, key), key, k) == WithKey(init, key, k) by {
        SortByStable(init, key, k);
      }
      assert WithKey(s, key, k) == WithKey(init, key, k) + last by {
        WithKeySnoc(init, x, key, k);
        assert s == init + [x];
      }
    }
  }

  lemma SortBySnoc<T>(s: seq<T>, key: T -> int)
    requires |s| > 0
    ensures SortBy(s, key) == InsertBy(s[|s| - 1], SortBy(s[..|s| - 1], key), key)
  {
  }

  lemma WithKeySnoc<T>(init: seq<T>, x: T, key: T -> int, k: int)
    ensures WithKey(init + [x], key, k) == WithKey(init, key, k) + (if key(x) == k then [x] else [])
  {
    WithKeyAppend(init, [x], key, k);
    assert WithKey([x], key, k) == (if key(x) == k then [x] else []);
  }
}
