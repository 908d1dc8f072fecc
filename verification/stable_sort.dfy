/**
  A stable sort by an integer key: what `Collection::sortBy` (PHP 8 sorts are stable) does to
  the matching order.
 */
module StableSort {

  predicate SortedBy<T>(s: seq<T>, key: T -> int) {
    forall i, j :: 0 <= i < j < |s| ==> key(s[i]) <= key(s[j])
  }

  /** The subsequence of elements whose key is `k`, in their original order. */
  function WithKey<T>(s: seq<T>, key: T -> int, k: int): seq<T> {
    if |s| == 0 then [] else (if key(s[0]) == k then [s[0]] else []) + WithKey(s[1..], key, k)
  }

  /** A stable sort: sorted, and for every key the elements with that key keep their order.
      (Together these determine the output, so they also say it is a permutation.) */
  ghost predicate StablySorts<T>(s: seq<T>, r: seq<T>, key: T -> int) {
    && SortedBy(r, key)
    && multiset(r) == multiset(s)
    && forall k :: WithKey(r, key, k) == WithKey(s, key, k)
  }

  /** Insert `x` after every element whose key is at most its own. */
  function Insert<T>(x: T, s: seq<T>, key: T -> int): (r: seq<T>)
    ensures |r| == |s| + 1
    ensures multiset(r) == multiset(s) + multiset{x}
    ensures r[0] == x || (|s| > 0 && r[0] == s[0])
    ensures SortedBy(s, key) ==> SortedBy(r, key)
  {
    if |s| == 0 then [x]
    else if key(x) < key(s[0]) then [x] + s
    else
      var tail := Insert(x, s[1..], key);
      assert s == [s[0]] + s[1..];
      [s[0]] + tail
  }

  /** Insertion sort, taking the elements in their original order. */
  function SortBy<T>(s: seq<T>, key: T -> int): (r: seq<T>)
    ensures |r| == |s|
    ensures SortedBy(r, key)
    ensures multiset(r) == multiset(s)
  {
    if |s| == 0 then []
    else
      assert s == s[..|s| - 1] + [s[|s| - 1]];
      Insert(s[|s| - 1], SortBy(s[..|s| - 1], key), key)
  }

  lemma {:induction false} WithKeyAppend<T>(s: seq<T>, t: seq<T>, key: T -> int, k: int)
    ensures WithKey(s + t, key, k) == WithKey(s, key, k) + WithKey(t, key, k)
  {
    if |s| > 0 {
      assert (s + t)[1..] == s[1..] + t;
      WithKeyAppend(s[1..], t, key, k);
    } else {
      assert s + t == t;
    }
  }

  lemma {:induction false} WithKeyAbsent<T>(s: seq<T>, key: T -> int, k: int)
    requires forall i :: 0 <= i < |s| ==> key(s[i]) != k
    ensures WithKey(s, key, k) == []
  {
    if |s| > 0 {
      WithKeyAbsent(s[1..], key, k);
    }
  }

  /** Inserting into a sorted sequence puts `x` after every element with its key. */
  lemma WithKeyCons<T>(a: T, s: seq<T>, key: T -> int, k: int)
    ensures WithKey([a] + s, key, k) == (if key(a) == k then [a] else []) + WithKey(s, key, k)
  {
    assert ([a] + s)[0] == a;
    assert ([a] + s)[1..] == s;
  }

  lemma {:induction false} InsertWithKey<T>(x: T, s: seq<T>, key: T -> int, k: int)
    requires SortedBy(s, key)
    ensures WithKey(Insert(x, s, key), key, k) == WithKey(s, key, k) + WithKey([x], key, k)
  {
    WithKeyCons(x, [], key, k);
    assert [x] + [] == [x];
    if |s| == 0 {
      assert Insert(x, s, key) == [x];
    } else if key(x) < key(s[0]) {
      assert Insert(x, s, key) == [x] + s;
      WithKeyCons(x, s, key, k);
      if key(x) == k {
        WithKeyAbsent(s, key, k);
      }
    } else {
      var tail := Insert(x, s[1..], key);
      assert SortedBy(s[1..], key);
      calc {
        WithKey(Insert(x, s, key), key, k);
        { assert Insert(x, s, key) == [s[0]] + tail; }
        WithKey([s[0]] + tail, key, k);
        { WithKeyCons(s[0], tail, key, k); }
        (if key(s[0]) == k then [s[0]] else []) + WithKey(tail, key, k);
        { InsertWithKey(x, s[1..], key, k); }
        (if key(s[0]) == k then [s[0]] else []) + (WithKey(s[1..], key, k) + WithKey([x], key, k));
        ((if key(s[0]) == k then [s[0]] else []) + WithKey(s[1..], key, k)) + WithKey([x], key, k);
        { WithKeyCons(s[0], s[1..], key, k); assert [s[0]] + s[1..] == s; }
        WithKey(s, key, k) + WithKey([x], key, k);
      }
    }
  }

  /** `SortBy` is a stable sort. */
  lemma SortByIsStable<T>(s: seq<T>, key: T -> int)
    ensures StablySorts(s, SortBy(s, key), key)
  {
    forall k ensures WithKey(SortBy(s, key), key, k) == WithKey(s, key, k) {
      SortByKeepsKey(s, key, k);
    }
  }

  /** For one key, the sort keeps the elements with that key in their original order. */
  lemma {:induction false} SortByKeepsKey<T>(s: seq<T>, key: T -> int, k: int)
    ensures WithKey(SortBy(s, key), key, k) == WithKey(s, key, k)
    decreases |s|
  {
    if |s| > 0 {
      var init := s[..|s| - 1];
      var x := s[|s| - 1];
      calc {
        WithKey(SortBy(s, key), key, k);
        WithKey(Insert(x, SortBy(init, key), key), key, k);
        { InsertWithKey(x, SortBy(init, key), key, k); }
        WithKey(SortBy(init, key), key, k) + WithKey([x], key, k);
        { SortByKeepsKey(init, key, k); }
        WithKey(init, key, k) + WithKey([x], key, k);
        { WithKeyAppend(init, [x], key, k); }
        WithKey(init + [x], key, k);
        { assert init + [x] == s; }
        WithKey(s, key, k);
      }
    }
  }

  /** On an already sorted sequence the stable sort changes nothing. */
  lemma {:induction false} SortBySortedIsIdentity<T>(s: seq<T>, key: T -> int)
    requires SortedBy(s, key)
    ensures SortBy(s, key) == s
    decreases |s|
  {
    if |s| > 0 {
      var init := s[..|s| - 1];
      assert SortedBy(init, key);
      SortBySortedIsIdentity(init, key);
      InsertAtEnd(s[|s| - 1], init, key);
      assert init + [s[|s| - 1]] == s;
    }
  }

  lemma {:induction false} InsertAtEnd<T>(x: T, s: seq<T>, key: T -> int)
    requires forall i :: 0 <= i < |s| ==> key(s[i]) <= key(x)
    ensures Insert(x, s, key) == s + [x]
  {
    if |s| > 0 {
      InsertAtEnd(x, s[1..], key);
      calc {
        Insert(x, s, key);
        { assert key(s[0]) <= key(x); }
        [s[0]] + Insert(x, s[1..], key);
        [s[0]] + (s[1..] + [x]);
        { assert [s[0]] + s[1..] == s; }
        s + [x];
      }
    }
  }
}
