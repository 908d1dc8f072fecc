/** Failure-compatible wrappers and small sequence facts shared by every module. */
module Common {

  /** A nullable value: `None` stands for a missing JSON key or a SQL NULL. */
  datatype Option<+T> = None | Some(value: T) {
    function GetOr(default: T): T {
      match this
      case Some(v) => v
      case None => default
    }
  }

  /** The outcome of a check that either lets the request through or stops it with an error. */
  datatype Outcome<+E> = Pass | Fail(error: E)

  /** A value or the error that stopped its computation. */
  datatype Result<+T, +E> = Ok(value: T) | Err(error: E)

  /** No element occurs twice. */
  predicate NoDups<T(==)>(s: seq<T>) {
    forall i, j :: 0 <= i < j < |s| ==> s[i] != s[j]
  }

  /** A duplicate-free sequence is exactly as long as the set of its elements. */
  lemma {:induction false} NoDupsCardinality<T>(s: seq<T>)
    requires NoDups(s)
    ensures |set x | x in s| == |s|
  {
    if |s| > 0 {
      NoDupsCardinality(s[1..]);
      var tail := set x | x in s[1..];
      assert (set x | x in s) == tail + {s[0]};
      assert s[0] !in tail;
    }
  }

  /** A sequence with a repeated element is longer than the set of its elements. */
  lemma {:induction false} DupsCardinality<T>(s: seq<T>)
    requires !NoDups(s)
    ensures |set x | x in s| < |s|
  {
    var i, j :| 0 <= i < j < |s| && s[i] == s[j];
    SetCardinalityAtMostLength(s[1..]);
    var tail := set x | x in s[1..];
    assert (set x | x in s) == tail + {s[0]};
    if i == 0 {
      assert s[0] == s[1..][j - 1];
      assert (set x | x in s) == tail;
    } else {
      assert !NoDups(s[1..]) by {
        assert s[1..][i - 1] == s[1..][j - 1];
      }
      DupsCardinality(s[1..]);
    }
  }

  /** No sequence has more distinct elements than it has positions. */
  lemma {:induction false} SetCardinalityAtMostLength<T>(s: seq<T>)
    ensures |set x | x in s| <= |s|
  {
    if |s| > 0 {
      SetCardinalityAtMostLength(s[1..]);
      assert (set x | x in s) == (set x | x in s[1..]) + {s[0]};
    }
  }

  /** The key `f` tells the elements of `s` apart. */
  predicate UniqueBy<T>(s: seq<T>, f: T -> int) {
    forall i, j :: 0 <= i < j < |s| ==> f(s[i]) != f(s[j])
  }

  lemma TwiceCounted<T>(s: seq<T>, i: nat, j: nat)
    requires i < j < |s| && s[i] == s[j]
    ensures multiset(s)[s[i]] >= 2
  {
    assert s == s[..j] + [s[j]] + s[j + 1..];
    assert s[..j][i] == s[i];
  }

  lemma {:induction false} CountedTwice<T>(s: seq<T>, x: T)
    requires multiset(s)[x] >= 2
    ensures exists i, j :: 0 <= i < j < |s| && s[i] == x && s[j] == x
  {
    assert s != [];
    assert s == [s[0]] + s[1..];
    if s[0] == x {
      assert x in multiset(s[1..]);
      var j :| 0 <= j < |s[1..]| && s[1..][j] == x;
      assert s[j + 1] == x;
    } else {
      CountedTwice(s[1..], x);
      var i, j :| 0 <= i < j < |s[1..]| && s[1..][i] == x && s[1..][j] == x;
      assert s[i + 1] == x && s[j + 1] == x;
    }
  }

  /** Whatever is drawn from a sequence whose elements a key tells apart is told apart by it too;
      in particular a permutation keeps the key unique. */
  lemma UniqueBySubMultiset<T>(a: seq<T>, b: seq<T>, f: T -> int)
    requires multiset(b) <= multiset(a) && UniqueBy(a, f)
    ensures UniqueBy(b, f)
  {
    forall i, j | 0 <= i < j < |b| ensures f(b[i]) != f(b[j]) {
      if b[i] == b[j] {
        TwiceCounted(b, i, j);
        CountedTwice(a, b[i]);
      } else {
        assert b[i] in multiset(a) && b[j] in multiset(a);
        var p :| 0 <= p < |a| && a[p] == b[i];
        var p' :| 0 <= p' < |a| && a[p'] == b[j];
        assert p != p';
      }
    }
  }

  /** Two members of `s` with the same key are the same element. */
  lemma UniqueByInjective<T>(s: seq<T>, f: T -> int, x: T, y: T)
    requires UniqueBy(s, f) && x in s && y in s && f(x) == f(y)
    ensures x == y
  {
    var p :| 0 <= p < |s| && s[p] == x;
    var p' :| 0 <= p' < |s| && s[p'] == y;
    assert p == p';
  }
}
