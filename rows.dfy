/**
 * Generic operations on in-memory tables (sequences of rows): the filters,
 * key uniqueness and orderings that stand for the ORM's `filter`, primary
 * keys and `order_by`.
 */
module Rows {

  /** The rows of `s` that satisfy `keep`, in their original order. */
  function Filter<T(!new)>(s: seq<T>, keep: T -> bool): (r: seq<T>)
    ensures |r| <= |s|
    ensures forall x :: x in r <==> x in s && keep(x)
  {
    if s == [] then []
    else if keep(s[0]) then [s[0]] + Filter(s[1..], keep)
    else Filter(s[1..], keep)
  }

  lemma {:induction false} FilterAppend<T(!new)>(a: seq<T>, b: seq<T>, keep: T -> bool)
    ensures Filter(a + b, keep) == Filter(a, keep) + Filter(b, keep)
  {
    if a != [] {
      assert (a + b)[0] == a[0] && (a + b)[1..] == a[1..] + b;
      FilterAppend(a[1..], b, keep);
      if keep(a[0]) {
        assert Filter(a + b, keep) == [a[0]] + (Filter(a[1..], keep) + Filter(b, keep));
      }
    } else {
      assert a + b == b;
    }
  }

  /** No two rows share a key. */
  predicate UniqueBy<T>(s: seq<T>, key: T -> int) {
    forall i, j :: 0 <= i < j < |s| ==> key(s[i]) != key(s[j])
  }

  /** Filtering keeps keys unique. */
  lemma {:induction false} FilterUnique<T(!new)>(s: seq<T>, keep: T -> bool, key: T -> int)
    requires UniqueBy(s, key)
    ensures UniqueBy(Filter(s, keep), key)
  {
    if s != [] {
      FilterUnique(s[1..], keep, key);
      var rest := Filter(s[1..], keep);
      if keep(s[0]) {
        var r := [s[0]] + rest;
        forall i, j | 0 <= i < j < |r| ensures key(r[i]) != key(r[j]) {
          if i == 0 {
            assert r[j] in s[1..];
            var k :| 0 <= k < |s[1..]| && s[1..][k] == r[j];
            assert s[k + 1] == r[j];
          } else {
            assert r[i] == rest[i - 1] && r[j] == rest[j - 1];
          }
        }
      }
    }
  }

  /** Appending a row whose key is new keeps keys unique. */
  lemma AppendUnique<T(!new)>(s: seq<T>, x: T, key: T -> int)
    requires UniqueBy(s, key)
    requires forall y :: y in s ==> key(y) != key(x)
    ensures UniqueBy(s + [x], key)
  {
    var r := s + [x];
    forall i, j | 0 <= i < j < |r| ensures key(r[i]) != key(r[j]) {
      if j == |s| {
        assert r[i] in s;
      } else {
        assert r[i] == s[i] && r[j] == s[j];
      }
    }
  }

  /** A primary-key column: no two rows share a key, and every key is below `next`. */
  predicate Keyed<T>(s: seq<T>, key: T -> int, next: int) {
    UniqueBy(s, key) && forall i :: 0 <= i < |s| ==> key(s[i]) < next
  }

  /** Inserting a row with key `next` and moving `next` on keeps the column keyed. */
  lemma KeyedAppend<T(!new)>(s: seq<T>, x: T, key: T -> int, next: int)
    requires Keyed(s, key, next) && key(x) == next
    ensures Keyed(s + [x], key, next + 1)
  {
    AppendUnique(s, x, key);
  }

  /** Moving `next` on keeps every column keyed. */
  lemma KeyedBump<T>(s: seq<T>, key: T -> int, next: int)
    requires Keyed(s, key, next)
    ensures Keyed(s, key, next + 1)
  {
  }

  /** Deleting rows keeps the column keyed. */
  lemma KeyedFilter<T(!new)>(s: seq<T>, keep: T -> bool, key: T -> int, next: int)
    requires Keyed(s, key, next)
    ensures Keyed(Filter(s, keep), key, next)
  {
    FilterUnique(s, keep, key);
  }

  /** `b` rewrites the rows of `a` in place, each row keeping its key. */
  predicate SameKeys<T>(a: seq<T>, b: seq<T>, key: T -> int) {
    |a| == |b| && forall i :: 0 <= i < |a| ==> key(a[i]) == key(b[i])
  }

  /** Rewriting rows in place without touching their keys keeps the column keyed. */
  lemma KeyedRewrite<T>(a: seq<T>, b: seq<T>, key: T -> int, next: int)
    requires Keyed(a, key, next) && SameKeys(a, b, key)
    ensures Keyed(b, key, next)
  {
    forall i, j | 0 <= i < j < |b| ensures key(b[i]) != key(b[j]) {
      assert key(a[i]) != key(a[j]);
    }
  }

  /** Each row rewritten by `f`, in place (an `UPDATE` over the table). */
  function MapRows<T, U>(s: seq<T>, f: T -> U): (r: seq<U>)
    ensures |r| == |s| && forall i :: 0 <= i < |s| ==> r[i] == f(s[i])
  {
    seq(|s|, i requires 0 <= i < |s| => f(s[i]))
  }

  /** A rewrite that keeps every row's key keeps keys unique. */
  lemma MapUnique<T, U>(s: seq<T>, f: T -> U, key: T -> int, key': U -> int)
    requires UniqueBy(s, key)
    requires forall x :: x in s ==> key'(f(x)) == key(x)
    ensures UniqueBy(MapRows(s, f), key')
  {
    var r := MapRows(s, f);
    forall i, j | 0 <= i < j < |r| ensures key'(r[i]) != key'(r[j]) {
      assert s[i] in s && s[j] in s;
    }
  }

  // ---------------------------------------------------------------------
  // Orderings
  // ---------------------------------------------------------------------

  /** `le` orders every pair and is transitive (ties are allowed). */
  ghost predicate TotalPreorder<T(!new)>(le: (T, T) -> bool) {
    (forall a, b :: le(a, b) || le(b, a))
    && (forall a, b, c :: le(a, b) && le(b, c) ==> le(a, c))
  }

  predicate SortedWith<T>(s: seq<T>, le: (T, T) -> bool) {
    forall i, j :: 0 <= i < j < |s| ==> le(s[i], s[j])
  }

  /** Insert `x` into an ordered sequence after every row it does not precede. */
  function Insert<T(!new)>(x: T, s: seq<T>, le: (T, T) -> bool): (r: seq<T>)
    requires TotalPreorder(le) && SortedWith(s, le)
    ensures SortedWith(r, le)
    ensures multiset(r) == multiset(s) + multiset{x}
  {
    if s == [] then [x]
    else if le(x, s[0]) then
      ConsSorted(x, s, le);
      [x] + s
    else
      var rest := Insert(x, s[1..], le);
      assert s == [s[0]] + s[1..];
      HeadBelow(s, x, rest, le);
      ConsSorted(s[0], rest, le);
      [s[0]] + rest
  }

  /** A row that precedes the first row of an ordered sequence may go in front of it. */
  lemma ConsSorted<T(!new)>(a: T, s: seq<T>, le: (T, T) -> bool)
    requires TotalPreorder(le) && SortedWith(s, le)
    requires s == [] || le(a, s[0])
    ensures SortedWith([a] + s, le)
  {
    var r := [a] + s;
    forall i, j | 0 <= i < j < |r| ensures le(r[i], r[j]) {
      if i == 0 {
        if j > 1 { assert le(s[0], s[j - 1]); }
      } else {
        assert r[i] == s[i - 1] && r[j] == s[j - 1];
      }
    }
  }

  /** The head of an ordered sequence precedes every row of the rest with `x` added, when `x` does not precede it. */
  lemma HeadBelow<T(!new)>(s: seq<T>, x: T, rest: seq<T>, le: (T, T) -> bool)
    requires TotalPreorder(le) && SortedWith(s, le) && s != [] && !le(x, s[0])
    requires multiset(rest) == multiset(s[1..]) + multiset{x}
    ensures rest == [] || le(s[0], rest[0])
  {
    if rest != [] {
      var y := rest[0];
      assert y in multiset(rest);
      if y != x {
        assert y in multiset(s[1..]);
        var k :| 0 <= k < |s[1..]| && s[1..][k] == y;
        assert s[k + 1] == y;
      }
    }
  }

  /** An ordering of `s` by `le`: the `order_by` of a query. */
  function SortWith<T(!new)>(s: seq<T>, le: (T, T) -> bool): (r: seq<T>)
    requires TotalPreorder(le)
    ensures SortedWith(r, le)
    ensures multiset(r) == multiset(s)
  {
    if s == [] then []
    else
      assert s == [s[0]] + s[1..];
      Insert(s[0], SortWith(s[1..], le), le)
  }
}
