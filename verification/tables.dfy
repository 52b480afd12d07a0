/**
 * Sequence utilities for tables kept as sequences of rows: selection with a
 * WHERE-style predicate, uniqueness of rows or of a key column, and Python's
 * `set(list)`.
 */
module Tables {

  /** The rows of `s` that satisfy `p`, in table order. */
  function Filter<T(!new)>(s: seq<T>, p: T -> bool): (r: seq<T>)
    ensures |r| <= |s|
    ensures forall x :: x in r <==> x in s && p(x)
  {
    if s == [] then []
    else if p(s[0]) then [s[0]] + Filter(s[1..], p)
    else Filter(s[1..], p)
  }

  /** `f` applied to every element, in order (a list comprehension). */
  function Project<T, U>(s: seq<T>, f: T -> U): (r: seq<U>)
    ensures |r| == |s|
    ensures forall i :: 0 <= i < |s| ==> r[i] == f(s[i])
  {
    seq(|s|, i requires 0 <= i < |s| => f(s[i]))
  }

  /** No two positions of `s` hold the same value. */
  ghost predicate Distinct<T>(s: seq<T>) {
    forall i, j | 0 <= i < j < |s| :: s[i] != s[j]
  }

  /** No two positions of `s` agree on the key column `key`. */
  ghost predicate UniqueBy<T, K>(s: seq<T>, key: T -> K) {
    forall i, j | 0 <= i < j < |s| :: key(s[i]) != key(s[j])
  }

  /** Python's `set(list)`: the elements of `s`, duplicates collapsed. */
  function ToSet<T(!new)>(s: seq<T>): (r: set<T>)
    ensures forall x :: x in r <==> x in s
  {
    if s == [] then {} else {s[0]} + ToSet(s[1..])
  }

  /** A non-empty sequence is duplicate-free iff its head is new and its tail is duplicate-free. */
  lemma DistinctCons<T>(s: seq<T>)
    requires s != []
    ensures Distinct(s) <==> s[0] !in s[1..] && Distinct(s[1..])
  {
    var t := s[1..];
    if s[0] in t {
      var k :| 0 <= k < |t| && t[k] == s[0];
      assert s[0] == s[k + 1];
    } else if Distinct(t) {
      forall i, j | 0 <= i < j < |s| ensures s[i] != s[j] {
        if i == 0 {
          assert s[j] == t[j - 1];
        } else {
          assert s[i] == t[i - 1] && s[j] == t[j - 1];
        }
      }
    } else {
      var i, j :| 0 <= i < j < |t| && t[i] == t[j];
      assert s[i + 1] == s[j + 1];
    }
  }

  /** `len(s) == len(set(s))` holds exactly when the elements of `s` are pairwise distinct. */
  lemma {:induction false} DistinctIffNoCollapse<T(!new)>(s: seq<T>)
    ensures Distinct(s) <==> |ToSet(s)| == |s|
    ensures |ToSet(s)| <= |s|
  {
    if s != [] {
      var t := s[1..];
      DistinctIffNoCollapse(t);
      DistinctCons(s);
      assert ToSet(s) == {s[0]} + ToSet(t);
      if s[0] in t {
        assert ToSet(s) == ToSet(t);
      } else {
        assert |ToSet(s)| == |ToSet(t)| + 1;
      }
    }
  }

  /** Removing rows never makes two of the remaining ones equal. */
  lemma {:induction false} FilterKeepsDistinct<T(!new)>(s: seq<T>, p: T -> bool)
    requires Distinct(s)
    ensures Distinct(Filter(s, p))
  {
    if s != [] {
      var t := s[1..];
      assert Distinct(t) by {
        forall i, j | 0 <= i < j < |t| ensures t[i] != t[j] {
          assert t[i] == s[i + 1] && t[j] == s[j + 1];
        }
      }
      FilterKeepsDistinct(t, p);
      if p(s[0]) {
        var r, ft := Filter(s, p), Filter(t, p);
        assert r == [s[0]] + ft;
        forall i, j | 0 <= i < j < |r| ensures r[i] != r[j] {
          if i == 0 {
            assert r[j] == ft[j - 1];
            assert r[j] in t;
            var k :| 0 <= k < |t| && t[k] == r[j];
            assert s[k + 1] == r[j];
          } else {
            assert r[i] == ft[i - 1] && r[j] == ft[j - 1];
          }
        }
      }
    }
  }

  /** Removing rows never makes two of the remaining ones agree on a key column. */
  lemma {:induction false} FilterKeepsUniqueBy<T(!new), K>(s: seq<T>, p: T -> bool, key: T -> K)
    requires UniqueBy(s, key)
    ensures UniqueBy(Filter(s, p), key)
  {
    if s != [] {
      var t := s[1..];
      assert UniqueBy(t, key) by {
        forall i, j | 0 <= i < j < |t| ensures key(t[i]) != key(t[j]) {
          assert t[i] == s[i + 1] && t[j] == s[j + 1];
        }
      }
      FilterKeepsUniqueBy(t, p, key);
      if p(s[0]) {
        var r, ft := Filter(s, p), Filter(t, p);
        assert r == [s[0]] + ft;
        forall i, j | 0 <= i < j < |r| ensures key(r[i]) != key(r[j]) {
          if i == 0 {
            assert r[j] == ft[j - 1];
            assert r[j] in t;
            var k :| 0 <= k < |t| && t[k] == r[j];
            assert s[k + 1] == r[j];
          } else {
            assert r[i] == ft[i - 1] && r[j] == ft[j - 1];
          }
        }
      }
    }
  }

  /** Selecting from a concatenation selects from each part. */
  lemma {:induction false} FilterConcat<T(!new)>(a: seq<T>, b: seq<T>, p: T -> bool)
    ensures Filter(a + b, p) == Filter(a, p) + Filter(b, p)
  {
    if a != [] {
      assert (a + b)[0] == a[0];
      assert (a + b)[1..] == a[1..] + b;
      FilterConcat(a[1..], b, p);
    } else {
      assert a + b == b;
    }
  }

  /** A predicate that every row satisfies selects the whole table. */
  lemma {:induction false} FilterAll<T(!new)>(s: seq<T>, p: T -> bool)
    requires forall x :: x in s ==> p(x)
    ensures Filter(s, p) == s
  {
    if s != [] {
      assert forall x :: x in s[1..] ==> x in s;
      FilterAll(s[1..], p);
      assert [s[0]] + s[1..] == s;
    }
  }

  /** A predicate that no row satisfies selects nothing. */
  lemma FilterNone<T(!new)>(s: seq<T>, p: T -> bool)
    requires forall x :: x in s ==> !p(x)
    ensures Filter(s, p) == []
  {
    var r := Filter(s, p);
    assert forall i :: 0 <= i < |r| ==> r[i] in r;
  }

  /** Selecting with `q` after `p` is selecting with `q` alone when `q` implies `p`. */
  lemma {:induction false} FilterNarrow<T(!new)>(s: seq<T>, p: T -> bool, q: T -> bool)
    requires forall x :: q(x) ==> p(x)
    ensures Filter(Filter(s, p), q) == Filter(s, q)
  {
    if s != [] {
      FilterNarrow(s[1..], p, q);
      if p(s[0]) {
        assert Filter(s, p) == [s[0]] + Filter(s[1..], p);
        assert ([s[0]] + Filter(s[1..], p))[1..] == Filter(s[1..], p);
      }
    }
  }
}
