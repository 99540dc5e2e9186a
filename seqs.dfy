/** Sequence operations the controllers rely on: filtering (a query's match, `Array.prototype.filter`,
    `$pull`) and descending sorts (a query's `.sort({createdAt: 'desc'})`, `Array.prototype.sort`). */
module Seqs {

  /** The elements of `s` that satisfy `p`, in their original order. */
  function Filter<T(!new)>(s: seq<T>, p: T -> bool): (r: seq<T>)
    ensures |r| <= |s|
    ensures forall x :: x in r <==> x in s && p(x)
  {
    if s == [] then [] else (if p(s[0]) then [s[0]] else []) + Filter(s[1..], p)
  }

  /** Filtering distributes over concatenation, so it keeps the relative order of what it keeps. */
  lemma {:induction false} FilterAppend<T(!new)>(a: seq<T>, b: seq<T>, p: T -> bool)
    ensures Filter(a + b, p) == Filter(a, p) + Filter(b, p)
  {
    if a == [] {
      assert a + b == b;
    } else {
      assert (a + b)[0] == a[0];
      assert (a + b)[1..] == a[1..] + b;
      FilterAppend(a[1..], b, p);
    }
  }

  /** A filter that every element passes changes nothing. */
  lemma {:induction false} FilterKeepsAll<T(!new)>(s: seq<T>, p: T -> bool)
    requires forall x :: x in s ==> p(x)
    ensures Filter(s, p) == s
  {
    if s != [] {
      assert s[0] in s;
      FilterKeepsAll(s[1..], p);
    }
  }

  /** `$pull` on an array field, or filtering out one value: every occurrence of `x` goes,
      everything else stays in order. */
  function Pull<T(==,!new)>(s: seq<T>, x: T): (r: seq<T>)
    ensures x !in r
    ensures forall y :: y != x ==> (y in r <==> y in s)
  {
    Filter(s, y => y != x)
  }

  /** Pulling a value that is absent changes nothing. */
  lemma PullAbsent<T(!new)>(s: seq<T>, x: T)
    requires x !in s
    ensures Pull(s, x) == s
  {
    FilterKeepsAll(s, y => y != x);
  }

  /** Pulling after pushing a value removes the pushed copy together with any earlier ones. */
  lemma PullAfterPush<T(!new)>(s: seq<T>, x: T)
    ensures Pull(s + [x], x) == Pull(s, x)
  {
    FilterAppend(s, [x], y => y != x);
    assert Filter([x], y => y != x) == [];
  }

  /** Pulling distributes over concatenation, so what stays keeps its order. */
  lemma PullAppend<T(!new)>(a: seq<T>, b: seq<T>, x: T)
    ensures Pull(a + b, x) == Pull(a, x) + Pull(b, x)
  {
    FilterAppend(a, b, y => y != x);
  }

  /** Keys are non-increasing from left to right. */
  ghost predicate SortedDesc<T(!new)>(s: seq<T>, key: T -> int) {
    forall i, j :: 0 <= i < j < |s| ==> key(s[i]) >= key(s[j])
  }

  /** No two elements share a key. */
  ghost predicate DistinctBy<T(!new), K>(s: seq<T>, key: T -> K) {
    forall i, j :: 0 <= i < j < |s| ==> key(s[i]) != key(s[j])
  }

  /** Inserts `x` before the first element whose key is not greater than its own. */
  function Insert<T(!new)>(x: T, s: seq<T>, key: T -> int): (r: seq<T>)
    ensures |r| == |s| + 1
    ensures multiset(r) == multiset(s) + multiset{x}
    ensures forall y :: y in r <==> y == x || y in s
    ensures SortedDesc(s, key) ==> SortedDesc(r, key)
  {
    if s == [] || key(x) >= key(s[0]) then [x] + s
    else
      assert s == [s[0]] + s[1..];
      assert SortedDesc(s, key) ==> SortedDesc(s[1..], key);
      var r := Insert(x, s[1..], key);
      assert SortedDesc(s, key) ==> forall y :: y in r ==> key(s[0]) >= key(y) by {
        if SortedDesc(s, key) {
          forall y | y in r ensures key(s[0]) >= key(y) {
            if y != x { SortedHeadIsMax(s, key, y); }
          }
        }
      }
      [s[0]] + r
  }

  /** A stable sort on descending keys: equal keys keep their input order, as JavaScript's
      `Array.prototype.sort` does with the comparator `(a, b) => key(b) - key(a)`. */
  function SortDesc<T(!new)>(s: seq<T>, key: T -> int): (r: seq<T>)
    ensures |r| == |s|
    ensures multiset(r) == multiset(s)
    ensures forall y :: y in r <==> y in s
    ensures SortedDesc(r, key)
  {
    if s == [] then []
    else
      assert s == [s[0]] + s[1..];
      Insert(s[0], SortDesc(s[1..], key), key)
  }

  /** The head of a descending sequence has the largest key. */
  lemma SortedHeadIsMax<T(!new)>(s: seq<T>, key: T -> int, x: T)
    requires SortedDesc(s, key) && x in s
    ensures key(s[0]) >= key(x)
  {
  }

  /** Inserting an element whose key differs from every present one keeps the keys distinct. */
  lemma {:induction false} InsertDistinct<T(!new), K>(x: T, s: seq<T>, key: T -> int, id: T -> K)
    requires DistinctBy(s, id)
    requires forall y :: y in s ==> id(y) != id(x)
    ensures DistinctBy(Insert(x, s, key), id)
  {
    if s == [] || key(x) >= key(s[0]) {
      var r := [x] + s;
      forall i, j | 0 <= i < j < |r| ensures id(r[i]) != id(r[j]) {
        if i == 0 {
          assert r[j] == s[j - 1] && s[j - 1] in s;
        } else {
          assert r[i] == s[i - 1] && r[j] == s[j - 1];
        }
      }
    } else {
      var t := s[1..];
      assert forall i, j :: 0 <= i < j < |t| ==> t[i] == s[i + 1] && t[j] == s[j + 1];
      assert forall y :: y in t ==> y in s;
      InsertDistinct(x, t, key, id);
      var u := Insert(x, t, key);
      var r := [s[0]] + u;
      forall i, j | 0 <= i < j < |r| ensures id(r[i]) != id(r[j]) {
        if i == 0 {
          var y := r[j];
          assert y in u;
          if y == x {
            assert s[0] in s;
          } else {
            assert y in t;
            var k :| 0 <= k < |t| && t[k] == y;
            assert s[k + 1] == y;
          }
        } else {
          assert r[i] == u[i - 1] && r[j] == u[j - 1];
        }
      }
    }
  }

  /** Sorting keeps distinct keys distinct. */
  lemma {:induction false} SortDistinct<T(!new), K>(s: seq<T>, key: T -> int, id: T -> K)
    requires DistinctBy(s, id)
    ensures DistinctBy(SortDesc(s, key), id)
  {
    if s != [] {
      var t := s[1..];
      assert forall i, j :: 0 <= i < j < |t| ==> t[i] == s[i + 1] && t[j] == s[j + 1];
      SortDistinct(t, key, id);
      forall y | y in SortDesc(t, key) ensures id(y) != id(s[0]) {
        assert y in t;
        var k :| 0 <= k < |t| && t[k] == y;
        assert s[k + 1] == y;
      }
      InsertDistinct(s[0], SortDesc(t, key), key, id);
    }
  }

  /** Filtering keeps distinct keys distinct. */
  lemma {:induction false} FilterDistinct<T(!new), K>(s: seq<T>, p: T -> bool, id: T -> K)
    requires DistinctBy(s, id)
    ensures DistinctBy(Filter(s, p), id)
  {
    if s != [] {
      var t := s[1..];
      assert forall i, j :: 0 <= i < j < |t| ==> t[i] == s[i + 1] && t[j] == s[j + 1];
      FilterDistinct(t, p, id);
      var f := Filter(t, p);
      if p(s[0]) {
        var r := [s[0]] + f;
        forall i, j | 0 <= i < j < |r| ensures id(r[i]) != id(r[j]) {
          if i == 0 {
            assert r[j] in f;
            assert r[j] in t;
            var k :| 0 <= k < |t| && t[k] == r[j];
            assert s[k + 1] == r[j];
          } else {
            assert r[i] == f[i - 1] && r[j] == f[j - 1];
          }
        }
      }
    }
  }
}
