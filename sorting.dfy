/** Stable sorting by a key, the behaviour of lodash `sortBy` and of
    `Array.prototype.sort` with a consistent comparator. */
module Sorting {
  import opened Base

  /** `le` is a total order on keys. */
  ghost predicate TotalOrder<K(!new)>(le: (K, K) -> bool) {
    && (forall a, b :: le(a, b) || le(b, a))
    && (forall a, b :: le(a, b) && le(b, a) ==> a == b)
    && (forall a, b, c :: le(a, b) && le(b, c) ==> le(a, c))
  }

  /** Keys never decrease along `xs`. */
  ghost predicate SortedBy<T, K>(xs: seq<T>, key: T -> K, le: (K, K) -> bool) {
    forall i, j {:trigger le(key(xs[i]), key(xs[j]))} :: 0 <= i < j < |xs| ==> le(key(xs[i]), key(xs[j]))
  }

  /** The elements of `xs` whose key is `v`, in their order in `xs`. */
  function WithKey<T, K(==)>(xs: seq<T>, key: T -> K, v: K): seq<T> {
    if xs == [] then []
    else (if key(xs[0]) == v then [xs[0]] else []) + WithKey(xs[1..], key, v)
  }

  function RealLe(a: real, b: real): bool { a <= b }

  /** A string as its own sort key. */
  function Id(s: string): string { s }

  lemma RealLeIsTotalOrder()
    ensures TotalOrder(RealLe)
  {
  }

  lemma LexLeIsTotalOrder()
    ensures TotalOrder(LexLe)
  {
    LexLeTotalOrderFacts();
  }

  /** Puts `x` in front of the first element whose key is not smaller. */
  function Insert<T, K>(x: T, ys: seq<T>, key: T -> K, le: (K, K) -> bool): seq<T> {
    if ys == [] || le(key(x), key(ys[0])) then [x] + ys
    else [ys[0]] + Insert(x, ys[1..], key, le)
  }

  lemma InsertFacts<T, K(!new)>(x: T, ys: seq<T>, key: T -> K, le: (K, K) -> bool)
    requires TotalOrder(le)
    requires SortedBy(ys, key, le)
    ensures var r := Insert(x, ys, key, le);
      && multiset(r) == multiset(ys) + multiset{x}
      && SortedBy(r, key, le)
      && (forall v :: WithKey(r, key, v) == (if key(x) == v then [x] else []) + WithKey(ys, key, v))
  {
    InsertMultiset(x, ys, key, le);
    InsertSorted(x, ys, key, le);
    forall v ensures WithKey(Insert(x, ys, key, le), key, v) == (if key(x) == v then [x] else []) + WithKey(ys, key, v) {
      InsertWithKey(x, ys, key, le, v);
    }
  }

  /** Inserting adds exactly one occurrence of `x`. */
  lemma {:induction false} InsertMultiset<T, K>(x: T, ys: seq<T>, key: T -> K, le: (K, K) -> bool)
    ensures multiset(Insert(x, ys, key, le)) == multiset(ys) + multiset{x}
    decreases |ys|
  {
    if !(ys == [] || le(key(x), key(ys[0]))) {
      InsertMultiset(x, ys[1..], key, le);
      assert ys == [ys[0]] + ys[1..];
    }
  }

  /** Inserting into a sorted sequence keeps it sorted. */
  lemma {:induction false} InsertSorted<T, K(!new)>(x: T, ys: seq<T>, key: T -> K, le: (K, K) -> bool)
    requires TotalOrder(le)
    requires SortedBy(ys, key, le)
    ensures SortedBy(Insert(x, ys, key, le), key, le)
    decreases |ys|
  {
    var r := Insert(x, ys, key, le);
    if ys == [] || le(key(x), key(ys[0])) {
      forall i, j | 0 <= i < j < |r| ensures le(key(r[i]), key(r[j])) {
        if i > 0 {
          assert r[i] == ys[i - 1] && r[j] == ys[j - 1];
        } else {
          assert r[j] == ys[j - 1];
          assert ys[0] == ys[j - 1] || le(key(ys[0]), key(ys[j - 1]));
        }
      }
    } else {
      var rest := Insert(x, ys[1..], key, le);
      SortedTail(ys, key, le);
      InsertSorted(x, ys[1..], key, le);
      InsertMultiset(x, ys[1..], key, le);
      assert r == [ys[0]] + rest;
      assert le(key(ys[0]), key(x));
      forall i, j | 0 <= i < j < |r| ensures le(key(r[i]), key(r[j])) {
        if i > 0 {
          assert r[i] == rest[i - 1] && r[j] == rest[j - 1];
        } else {
          assert r[j] == rest[j - 1];
          assert rest[j - 1] in multiset(rest);
          assert rest[j - 1] == x || rest[j - 1] in multiset(ys[1..]);
          if rest[j - 1] != x {
            var k :| 0 <= k < |ys[1..]| && ys[1..][k] == rest[j - 1];
            assert ys[k + 1] == rest[j - 1];
          }
        }
      }
    }
  }

  /** Inserting `x` adds it to the elements of its own key, in front, and
      leaves the elements of every other key as they were. */
  lemma {:induction false} InsertWithKey<T, K(!new)>(x: T, ys: seq<T>, key: T -> K, le: (K, K) -> bool, v: K)
    requires TotalOrder(le)
    ensures WithKey(Insert(x, ys, key, le), key, v) == (if key(x) == v then [x] else []) + WithKey(ys, key, v)
    decreases |ys|
  {
    var r := Insert(x, ys, key, le);
    if ys == [] || le(key(x), key(ys[0])) {
      assert r[1..] == ys;
    } else {
      var rest := Insert(x, ys[1..], key, le);
      InsertWithKey(x, ys[1..], key, le, v);
      assert le(key(ys[0]), key(ys[0]));
      assert key(ys[0]) != key(x);
      assert r[1..] == rest;
    }
  }

  /** Stable insertion sort of `xs` by `key`, smallest key first; elements
      with equal keys keep their relative order. */
  function SortBy<T, K(==,!new)>(xs: seq<T>, key: T -> K, le: (K, K) -> bool): (ys: seq<T>)
    requires TotalOrder(le)
    ensures multiset(ys) == multiset(xs)
    ensures |ys| == |xs|
    ensures SortedBy(ys, key, le)
    ensures forall v :: WithKey(ys, key, v) == WithKey(xs, key, v)
  {
    if xs == [] then []
    else
      var rest := SortBy(xs[1..], key, le);
      InsertFacts(xs[0], rest, key, le);
      assert xs == [xs[0]] + xs[1..];
      Insert(xs[0], rest, key, le)
  }

  lemma SortedTail<T, K>(xs: seq<T>, key: T -> K, le: (K, K) -> bool)
    requires xs != [] && SortedBy(xs, key, le)
    ensures SortedBy(xs[1..], key, le)
  {
    forall i, j | 0 <= i < j < |xs[1..]| ensures le(key(xs[1..][i]), key(xs[1..][j])) {
      assert xs[1..][i] == xs[i + 1] && xs[1..][j] == xs[j + 1];
    }
  }
}
