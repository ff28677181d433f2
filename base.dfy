/** Small shared vocabulary: optional values (JavaScript `null`), the
    code-unit string order that `<` and `>` use on JavaScript strings, and
    sums over sequences of numbers. */
module Base {

  /** A value or JavaScript `null`. */
  datatype Option<+T> = None | Some(value: T)

  /** JavaScript `a < b` on strings: lexicographic comparison character by
      character, a proper prefix being smaller. */
  predicate LexLt(a: string, b: string)
    decreases |a|
  {
    if a == [] then b != []
    else if b == [] then false
    else if a[0] < b[0] then true
    else if a[0] == b[0] then LexLt(a[1..], b[1..])
    else false
  }

  /** JavaScript `a <= b` on strings. */
  predicate LexLe(a: string, b: string) {
    a == b || LexLt(a, b)
  }

  lemma {:induction false} LexLtIrreflexive(a: string)
    ensures !LexLt(a, a)
    decreases |a|
  {
    if a != [] {
      LexLtIrreflexive(a[1..]);
    }
  }

  lemma {:induction false} LexLtAsymmetric(a: string, b: string)
    ensures !(LexLt(a, b) && LexLt(b, a))
    decreases |a|
  {
    if a != [] && b != [] && a[0] == b[0] {
      LexLtAsymmetric(a[1..], b[1..]);
    }
  }

  lemma {:induction false} LexLtTrichotomy(a: string, b: string)
    ensures LexLt(a, b) || a == b || LexLt(b, a)
    decreases |a|
  {
    if a != [] && b != [] && a[0] == b[0] {
      LexLtTrichotomy(a[1..], b[1..]);
      if a[1..] == b[1..] {
        assert a == [a[0]] + a[1..] && b == [b[0]] + b[1..];
      }
    }
  }

  lemma {:induction false} LexLtTransitive(a: string, b: string, c: string)
    requires LexLt(a, b) && LexLt(b, c)
    ensures LexLt(a, c)
    decreases |a|
  {
    if a != [] && b != [] && c != [] && a[0] == b[0] && b[0] == c[0] {
      LexLtTransitive(a[1..], b[1..], c[1..]);
    }
  }

  lemma LexLeTotalOrderFacts()
    ensures forall a, b :: LexLe(a, b) || LexLe(b, a)
    ensures forall a, b :: LexLe(a, b) && LexLe(b, a) ==> a == b
    ensures forall a, b, c :: LexLe(a, b) && LexLe(b, c) ==> LexLe(a, c)
  {
    forall a, b ensures LexLe(a, b) || LexLe(b, a) {
      LexLtTrichotomy(a, b);
    }
    forall a, b | LexLe(a, b) && LexLe(b, a) ensures a == b {
      LexLtAsymmetric(a, b);
    }
    forall a, b, c | LexLe(a, b) && LexLe(b, c) ensures LexLe(a, c) {
      if a != b && b != c {
        LexLtTransitive(a, b, c);
      }
    }
  }

  /** `xs.reduce((sum, x) => sum + f(x), 0)` (and lodash `sum` of a map). */
  function Sum<T>(xs: seq<T>, f: T -> real): real {
    if xs == [] then 0.0 else f(xs[0]) + Sum(xs[1..], f)
  }

  lemma {:induction false} SumAppend<T>(a: seq<T>, b: seq<T>, f: T -> real)
    ensures Sum(a + b, f) == Sum(a, f) + Sum(b, f)
    decreases |a|
  {
    if a != [] {
      assert (a + b)[1..] == a[1..] + b;
      SumAppend(a[1..], b, f);
    } else {
      assert a + b == b;
    }
  }

  /** A sum of positive terms over a non-empty sequence is positive. */
  lemma {:induction false} SumPositive<T>(xs: seq<T>, f: T -> real)
    requires forall i :: 0 <= i < |xs| ==> f(xs[i]) > 0.0
    ensures xs != [] ==> Sum(xs, f) > 0.0
    ensures Sum(xs, f) >= 0.0
    decreases |xs|
  {
    if xs != [] {
      assert f(xs[0]) > 0.0;
      assert forall i :: 0 <= i < |xs[1..]| ==> xs[1..][i] == xs[i + 1];
      SumPositive(xs[1..], f);
    }
  }

  /** `xs.filter(p)`: the elements satisfying `p`, in their order. */
  function Filter<T>(xs: seq<T>, p: T -> bool): (r: seq<T>)
    ensures |r| <= |xs|
  {
    if xs == [] then []
    else
      var rest := Filter(xs[1..], p);
      assert forall i :: 1 <= i < |xs| ==> xs[i] == xs[1..][i - 1];
      (if p(xs[0]) then [xs[0]] else []) + rest
  }

  /** Every element a filter keeps satisfies the predicate. */
  lemma {:induction false} FilterKept<T>(xs: seq<T>, p: T -> bool)
    ensures forall i :: 0 <= i < |Filter(xs, p)| ==> p(Filter(xs, p)[i])
    decreases |xs|
  {
    if xs != [] {
      FilterKept(xs[1..], p);
      var rest := Filter(xs[1..], p);
      var r := Filter(xs, p);
      if p(xs[0]) {
        assert r == [xs[0]] + rest;
        assert forall i :: 1 <= i < |r| ==> r[i] == rest[i - 1];
      } else {
        assert r == rest;
      }
    }
  }

  /** The element a filter keeps at `i` satisfies the predicate. */
  lemma FilterAt<T>(xs: seq<T>, p: T -> bool, i: nat)
    requires i < |Filter(xs, p)|
    ensures p(Filter(xs, p)[i])
  {
    FilterKept(xs, p);
  }

  /** A filter keeps nothing exactly when no element satisfies the
      predicate. */
  lemma {:induction false} FilterEmpty<T>(xs: seq<T>, p: T -> bool)
    ensures Filter(xs, p) == [] <==> forall i :: 0 <= i < |xs| ==> !p(xs[i])
    decreases |xs|
  {
    if xs != [] {
      FilterEmpty(xs[1..], p);
      assert forall i :: 1 <= i < |xs| ==> xs[i] == xs[1..][i - 1];
    }
  }

  lemma {:induction false} FilterAppend<T>(a: seq<T>, b: seq<T>, p: T -> bool)
    ensures Filter(a + b, p) == Filter(a, p) + Filter(b, p)
    decreases |a|
  {
    if a != [] {
      assert (a + b)[1..] == a[1..] + b;
      FilterAppend(a[1..], b, p);
    } else {
      assert a + b == b;
    }
  }

  /** The first element a filter keeps is the first element of the input
      satisfying the predicate. */
  lemma {:induction false} FilterFirst<T>(xs: seq<T>, p: T -> bool)
    requires Filter(xs, p) != []
    ensures exists i :: (0 <= i < |xs| && xs[i] == Filter(xs, p)[0] && p(xs[i])
                         && forall j :: 0 <= j < i ==> !p(xs[j]))
    decreases |xs|
  {
    if !p(xs[0]) {
      FilterFirst(xs[1..], p);
      var i :| 0 <= i < |xs[1..]| && xs[1..][i] == Filter(xs[1..], p)[0] && p(xs[1..][i])
        && forall j :: 0 <= j < i ==> !p(xs[1..][j]);
      assert xs[i + 1] == Filter(xs, p)[0];
      forall j | 0 <= j < i + 1 ensures !p(xs[j]) {
        if j > 0 {
          assert xs[j] == xs[1..][j - 1];
        }
      }
    } else {
      assert xs[0] == Filter(xs, p)[0];
    }
  }

  /** The last element a filter keeps is the last element of the input
      satisfying the predicate. */
  lemma {:induction false} FilterLast<T>(xs: seq<T>, p: T -> bool)
    requires Filter(xs, p) != []
    ensures exists i :: (0 <= i < |xs| && xs[i] == Filter(xs, p)[|Filter(xs, p)| - 1] && p(xs[i])
                         && forall j :: i < j < |xs| ==> !p(xs[j]))
    decreases |xs|
  {
    var rest := Filter(xs[1..], p);
    if rest != [] {
      FilterLast(xs[1..], p);
      var i :| 0 <= i < |xs[1..]| && xs[1..][i] == rest[|rest| - 1] && p(xs[1..][i])
        && forall j :: i < j < |xs[1..]| ==> !p(xs[1..][j]);
      assert xs[i + 1] == xs[1..][i];
      forall j | i + 1 < j < |xs| ensures !p(xs[j]) {
        assert xs[j] == xs[1..][j - 1];
      }
    } else {
      FilterEmpty(xs[1..], p);
      forall j | 0 < j < |xs| ensures !p(xs[j]) {
        assert xs[j] == xs[1..][j - 1];
      }
    }
  }

  /** When a filter keeps two or more elements, its first and its last come
      from two different positions of the input, the first before the
      last. */
  lemma {:induction false} FilterEnds<T>(xs: seq<T>, p: T -> bool)
    requires |Filter(xs, p)| >= 2
    ensures exists i, j :: (0 <= i < j < |xs| && xs[i] == Filter(xs, p)[0]
                            && xs[j] == Filter(xs, p)[|Filter(xs, p)| - 1])
    decreases |xs|
  {
    var rest := Filter(xs[1..], p);
    if p(xs[0]) {
      assert Filter(xs, p) == [xs[0]] + rest;
      FilterLast(xs[1..], p);
      var k :| 0 <= k < |xs[1..]| && xs[1..][k] == rest[|rest| - 1] && p(xs[1..][k])
        && forall j :: k < j < |xs[1..]| ==> !p(xs[1..][j]);
      assert xs[k + 1] == Filter(xs, p)[|Filter(xs, p)| - 1];
    } else {
      assert Filter(xs, p) == rest;
      FilterEnds(xs[1..], p);
      var i, j :| 0 <= i < j < |xs[1..]| && xs[1..][i] == rest[0] && xs[1..][j] == rest[|rest| - 1];
      assert xs[i + 1] == rest[0] && xs[j + 1] == rest[|rest| - 1];
    }
  }

  /** A filter keeps exactly the elements satisfying the predicate. */
  lemma {:induction false} FilterMember<T>(xs: seq<T>, p: T -> bool, x: T)
    ensures x in Filter(xs, p) <==> x in xs && p(x)
    decreases |xs|
  {
    if xs != [] {
      FilterMember(xs[1..], p, x);
      assert x in xs <==> x == xs[0] || x in xs[1..];
    }
  }

  /** Every element a filter keeps comes from some position of its input. */
  lemma {:induction false} FilterSource<T>(xs: seq<T>, p: T -> bool, k: nat) returns (j: nat)
    requires k < |Filter(xs, p)|
    ensures j < |xs| && xs[j] == Filter(xs, p)[k] && p(xs[j])
    decreases |xs|
  {
    var rest := Filter(xs[1..], p);
    if p(xs[0]) && k == 0 {
      j := 0;
    } else {
      var k' := if p(xs[0]) then k - 1 else k;
      assert Filter(xs, p)[k] == rest[k'];
      var j' := FilterSource(xs[1..], p, k');
      j := j' + 1;
    }
  }

  /** A filter every element passes changes nothing. */
  lemma {:induction false} FilterAll<T>(xs: seq<T>, p: T -> bool)
    requires forall i :: 0 <= i < |xs| ==> p(xs[i])
    ensures Filter(xs, p) == xs
    decreases |xs|
  {
    if xs != [] {
      assert forall i :: 0 <= i < |xs[1..]| ==> xs[1..][i] == xs[i + 1];
      FilterAll(xs[1..], p);
      assert xs == [xs[0]] + xs[1..];
    }
  }

  /** Filters by two predicates that agree on `xs` give the same result. */
  lemma {:induction false} FilterSame<T>(xs: seq<T>, p: T -> bool, q: T -> bool)
    requires forall i :: 0 <= i < |xs| ==> p(xs[i]) == q(xs[i])
    ensures Filter(xs, p) == Filter(xs, q)
    decreases |xs|
  {
    if xs != [] {
      assert forall i :: 0 <= i < |xs[1..]| ==> xs[1..][i] == xs[i + 1];
      FilterSame(xs[1..], p, q);
    }
  }

  /** Filtering by `p` and then by `q` is filtering by their conjunction
      `pq`. */
  lemma {:induction false} FilterConj<T>(xs: seq<T>, p: T -> bool, q: T -> bool, pq: T -> bool)
    requires forall i :: 0 <= i < |xs| ==> pq(xs[i]) == (p(xs[i]) && q(xs[i]))
    ensures Filter(Filter(xs, p), q) == Filter(xs, pq)
    decreases |xs|
  {
    if xs != [] {
      assert forall i :: 0 <= i < |xs[1..]| ==> xs[1..][i] == xs[i + 1];
      FilterConj(xs[1..], p, q, pq);
      var rest := Filter(xs[1..], p);
      if p(xs[0]) {
        assert Filter(xs, p) == [xs[0]] + rest;
        assert ([xs[0]] + rest)[1..] == rest;
        assert Filter([xs[0]] + rest, q) == (if q(xs[0]) then [xs[0]] else []) + Filter(rest, q);
      } else {
        assert Filter(xs, p) == rest;
      }
    }
  }

  /** Folding one more element into a sum. */
  lemma SumSnoc<T>(xs: seq<T>, x: T, f: T -> real)
    ensures Sum(xs + [x], f) == Sum(xs, f) + f(x)
  {
    SumAppend(xs, [x], f);
    assert [x][1..] == [];
  }

  /** Counting one more element with a filter. */
  lemma FilterSnoc<T>(xs: seq<T>, x: T, p: T -> bool)
    ensures |Filter(xs + [x], p)| == |Filter(xs, p)| + if p(x) then 1 else 0
  {
    FilterAppend(xs, [x], p);
    assert [x][1..] == [];
  }

  /** The positions in `xs` of the first and the last element a filter
      keeping two or more elements keeps. */
  lemma FilterEndsAt<T>(xs: seq<T>, p: T -> bool) returns (i: nat, j: nat)
    requires |Filter(xs, p)| >= 2
    ensures i < j < |xs| && p(xs[i]) && p(xs[j])
    ensures xs[i] == Filter(xs, p)[0] && xs[j] == Filter(xs, p)[|Filter(xs, p)| - 1]
    ensures forall k :: 0 <= k < i ==> !p(xs[k])
    ensures forall k :: j < k < |xs| ==> !p(xs[k])
  {
    var r := Filter(xs, p);
    FilterFirst(xs, p);
    FilterLast(xs, p);
    FilterEnds(xs, p);
    i :| 0 <= i < |xs| && xs[i] == r[0] && p(xs[i]) && forall k :: 0 <= k < i ==> !p(xs[k]);
    j :| 0 <= j < |xs| && xs[j] == r[|r| - 1] && p(xs[j]) && forall k :: j < k < |xs| ==> !p(xs[k]);
    var i', j' :| 0 <= i' < j' < |xs| && xs[i'] == r[0] && xs[j'] == r[|r| - 1];
    assert p(xs[i']) && p(xs[j']);
  }

  /** The elements of `xs` without repetitions, each at its first
      appearance: `Array.from(new Set(xs))`. */
  function Distinct<T(==,!new)>(xs: seq<T>): (r: seq<T>)
    ensures forall x :: x in r <==> x in xs
    ensures forall i, j :: 0 <= i < j < |r| ==> r[i] != r[j]
  {
    DistinctFrom(xs, {})
  }

  /** The elements of `xs` not in `seen`, without repetitions, each at its
      first appearance. */
  function DistinctFrom<T(==,!new)>(xs: seq<T>, seen: set<T>): (r: seq<T>)
    ensures forall x :: x in r <==> x in xs && x !in seen
    ensures forall i, j :: 0 <= i < j < |r| ==> r[i] != r[j]
    decreases |xs|
  {
    if xs == [] then []
    else if xs[0] in seen then
      var r := DistinctFrom(xs[1..], seen);
      assert forall x :: x in xs <==> x == xs[0] || x in xs[1..];
      r
    else
      var r := DistinctFrom(xs[1..], seen + {xs[0]});
      assert forall x :: x in xs <==> x == xs[0] || x in xs[1..];
      assert forall i :: 0 <= i < |r| ==> r[i] != xs[0];
      [xs[0]] + r
  }

  /** Elements with pairwise different keys. */
  predicate DistinctKeys<T, K(==)>(xs: seq<T>, key: T -> K) {
    forall i, j :: 0 <= i < j < |xs| ==> key(xs[i]) != key(xs[j])
  }

  /** Rearranging elements keeps their keys pairwise different. */
  lemma DistinctKeysPermutation<T, K>(xs: seq<T>, ys: seq<T>, key: T -> K)
    requires DistinctKeys(xs, key) && multiset(ys) == multiset(xs)
    ensures DistinctKeys(ys, key)
  {
    forall i, j | 0 <= i < j < |ys| ensures key(ys[i]) != key(ys[j]) {
      if key(ys[i]) == key(ys[j]) {
        assert ys[i] in multiset(xs) && ys[j] in multiset(xs);
        var a :| 0 <= a < |xs| && xs[a] == ys[i];
        var b :| 0 <= b < |xs| && xs[b] == ys[j];
        assert a == b;
        var m := ys[i];
        assert multiset(ys)[m] >= 2 by {
          assert ys == ys[..j] + [ys[j]] + ys[j + 1..];
          assert m in multiset(ys[..j]) by {
            assert ys[..j][i] == m;
          }
          assert multiset(ys) == multiset(ys[..j]) + multiset{ys[j]} + multiset(ys[j + 1..]);
        }
        MultisetOnce(xs, a, key);
        assert false;
      }
    }
  }

  /** An element whose key occurs once occurs once. */
  lemma {:induction false} MultisetOnce<T, K>(xs: seq<T>, a: nat, key: T -> K)
    requires DistinctKeys(xs, key) && a < |xs|
    ensures multiset(xs)[xs[a]] == 1
    decreases |xs|
  {
    var m := xs[a];
    var last := |xs| - 1;
    assert xs == xs[..last] + [xs[last]];
    assert DistinctKeys(xs[..last], key) by {
      forall i, j | 0 <= i < j < |xs[..last]| ensures key(xs[..last][i]) != key(xs[..last][j]) {
        assert xs[..last][i] == xs[i] && xs[..last][j] == xs[j];
      }
    }
    if a == last {
      forall i | 0 <= i < last ensures xs[..last][i] != m {
        assert xs[..last][i] == xs[i];
        assert key(xs[i]) != key(xs[last]);
      }
      assert m !in multiset(xs[..last]);
    } else {
      MultisetOnce(xs[..last], a, key);
      assert xs[..last][a] == m;
      assert key(xs[last]) != key(xs[a]);
    }
  }

  /** The values `f` gives for the elements of `xs`, in order, skipping
      the elements it gives `None` for: a loop that pushes a value for some
      elements. */
  function Collect<T, U>(xs: seq<T>, f: T -> Option<U>): (r: seq<U>)
    ensures |r| <= |xs|
    decreases |xs|
  {
    if xs == [] then []
    else
      var i := |xs| - 1;
      Collect(xs[..i], f) + (if f(xs[i]).Some? then [f(xs[i]).value] else [])
  }

  lemma CollectSnoc<T, U>(xs: seq<T>, x: T, f: T -> Option<U>)
    ensures Collect(xs + [x], f) == Collect(xs, f) + (if f(x).Some? then [f(x).value] else [])
  {
    assert (xs + [x])[..|xs|] == xs;
  }

  /** A value is collected exactly when `f` gives it for some element. */
  lemma {:induction false} CollectMember<T, U>(xs: seq<T>, f: T -> Option<U>, u: U)
    ensures u in Collect(xs, f) <==> exists i :: 0 <= i < |xs| && f(xs[i]) == Some(u)
    decreases |xs|
  {
    if xs != [] {
      var i := |xs| - 1;
      CollectMember(xs[..i], f, u);
      assert forall k :: 0 <= k < i ==> xs[..i][k] == xs[k];
    }
  }

  /** The sequences `f` gives for the elements of `xs`, concatenated in
      order: a loop that appends a batch per element. */
  function ConcatMap<T, U>(xs: seq<T>, f: T -> seq<U>): seq<U>
    decreases |xs|
  {
    if xs == [] then [] else ConcatMap(xs[..|xs| - 1], f) + f(xs[|xs| - 1])
  }

  lemma ConcatMapSnoc<T, U>(xs: seq<T>, x: T, f: T -> seq<U>)
    ensures ConcatMap(xs + [x], f) == ConcatMap(xs, f) + f(x)
  {
    assert (xs + [x])[..|xs|] == xs;
  }

  /** Everything in the concatenation comes from the batch of some
      element, and every batch is in it. */
  lemma {:induction false} ConcatMapMember<T, U>(xs: seq<T>, f: T -> seq<U>, u: U)
    ensures u in ConcatMap(xs, f) <==> exists i :: 0 <= i < |xs| && u in f(xs[i])
    decreases |xs|
  {
    if xs != [] {
      var i := |xs| - 1;
      ConcatMapMember(xs[..i], f, u);
      assert forall k :: 0 <= k < i ==> xs[..i][k] == xs[k];
    }
  }

  /** The concatenation is empty exactly when every batch is. */
  lemma {:induction false} ConcatMapEmpty<T, U>(xs: seq<T>, f: T -> seq<U>)
    ensures ConcatMap(xs, f) == [] <==> forall i :: 0 <= i < |xs| ==> f(xs[i]) == []
    decreases |xs|
  {
    if xs != [] {
      var i := |xs| - 1;
      ConcatMapEmpty(xs[..i], f);
      assert forall k :: 0 <= k < i ==> xs[..i][k] == xs[k];
    }
  }

  /** The state of a loop over `xs[lo..]` that appends what `f` gives
      for each element, after the elements before index `i`. */
  ghost predicate CollectedAt<T, U>(xs: seq<T>, f: T -> Option<U>, lo: nat, i: nat, acc: seq<U>) {
    lo <= i <= |xs| && acc == Collect(xs[lo..i], f)
  }

  lemma CollectedStep<T, U>(xs: seq<T>, f: T -> Option<U>, lo: nat, i: nat, acc: seq<U>)
    requires CollectedAt(xs, f, lo, i, acc) && i < |xs|
    ensures CollectedAt(xs, f, lo, i + 1, if f(xs[i]).Some? then acc + [f(xs[i]).value] else acc)
  {
    assert xs[lo..i + 1] == xs[lo..i] + [xs[i]];
    CollectSnoc(xs[lo..i], xs[i], f);
  }

  lemma CollectedEnd<T, U>(xs: seq<T>, f: T -> Option<U>, lo: nat, acc: seq<U>)
    requires CollectedAt(xs, f, lo, |xs|, acc)
    ensures acc == Collect(xs[lo..], f)
  {
    assert xs[lo..|xs|] == xs[lo..];
  }

  /** The elements whose batch is not empty. */
  function NonEmptyOf<T, U>(f: T -> seq<U>): T -> bool {
    x => f(x) != []
  }

  /** The state of a loop that appends the non-empty batch of each
      element of `xs` and records the elements that had one, after `i`
      elements. */
  ghost predicate BatchesAt<T, U>(xs: seq<T>, f: T -> seq<U>, i: nat, acc: seq<U>, kept: seq<T>) {
    i <= |xs| && acc == ConcatMap(xs[..i], f) && kept == Filter(xs[..i], NonEmptyOf(f))
  }

  lemma BatchesStep<T, U>(xs: seq<T>, f: T -> seq<U>, i: nat, acc: seq<U>, kept: seq<T>)
    requires BatchesAt(xs, f, i, acc, kept) && i < |xs|
    ensures BatchesAt(xs, f, i + 1, if |f(xs[i])| > 0 then acc + f(xs[i]) else acc,
                      if |f(xs[i])| > 0 then kept + [xs[i]] else kept)
  {
    assert xs[..i + 1] == xs[..i] + [xs[i]];
    ConcatMapSnoc(xs[..i], xs[i], f);
    FilterAppend(xs[..i], [xs[i]], NonEmptyOf(f));
    assert [xs[i]][1..] == [];
    if |f(xs[i])| == 0 {
      assert acc + f(xs[i]) == acc;
    }
  }

  lemma BatchesEnd<T, U>(xs: seq<T>, f: T -> seq<U>, acc: seq<U>, kept: seq<T>)
    requires BatchesAt(xs, f, |xs|, acc, kept)
    ensures acc == ConcatMap(xs, f) && kept == Filter(xs, NonEmptyOf(f))
  {
    assert xs[..|xs|] == xs;
  }

  /** The keys of the elements of `xs`, each once, in the order of their
      first appearance: the keys of a `Map` or the members of a `Set`
      that a loop over `xs` fills. */
  function FirstKeys<T, K(==,!new)>(xs: seq<T>, key: T -> K): (r: seq<K>)
    ensures forall k :: k in r <==> exists i :: 0 <= i < |xs| && key(xs[i]) == k
    ensures forall i, j :: 0 <= i < j < |r| ==> r[i] != r[j]
    decreases |xs|
  {
    if xs == [] then []
    else
      var n := |xs| - 1;
      var r := FirstKeys(xs[..n], key);
      assert forall i :: 0 <= i < n ==> xs[..n][i] == xs[i];
      if key(xs[n]) in r then r else r + [key(xs[n])]
  }

  lemma FirstKeysSnoc<T, K(!new)>(xs: seq<T>, x: T, key: T -> K)
    ensures var r := FirstKeys(xs, key);
      FirstKeys(xs + [x], key) == if key(x) in r then r else r + [key(x)]
  {
    assert (xs + [x])[..|xs|] == xs;
  }

  /** An element of a permutation of `ys` sits somewhere in `ys`. */
  lemma PermutationPosition<T>(xs: seq<T>, ys: seq<T>, x: T) returns (i: nat)
    requires multiset(xs) == multiset(ys) && x in xs
    ensures i < |ys| && ys[i] == x
  {
    assert x in multiset(ys);
    i :| 0 <= i < |ys| && ys[i] == x;
  }

  /** A sum does not depend on the order of its terms. */
  lemma {:induction false} SumPermutation<T>(xs: seq<T>, ys: seq<T>, f: T -> real)
    requires multiset(xs) == multiset(ys)
    ensures Sum(xs, f) == Sum(ys, f)
    decreases |xs|
  {
    if xs != [] {
      var x := xs[0];
      var j := PermutationPosition(xs, ys, x);
      var rest := ys[..j] + ys[j + 1..];
      RemoveAtPermutation(xs, ys, j);
      SumPermutation(xs[1..], rest, f);
      SumRemoveAt(ys, j, f);
    }
  }

  /** Taking the first element off `xs` and its match off `ys` leaves
      permutations of each other. */
  lemma RemoveAtPermutation<T>(xs: seq<T>, ys: seq<T>, j: nat)
    requires multiset(xs) == multiset(ys) && xs != [] && j < |ys| && ys[j] == xs[0]
    ensures multiset(ys[..j] + ys[j + 1..]) == multiset(xs[1..])
  {
    var x := xs[0];
    var rest := ys[..j] + ys[j + 1..];
    assert ys == ys[..j] + [x] + ys[j + 1..];
    assert xs == [x] + xs[1..];
    assert multiset(ys) == multiset(ys[..j]) + multiset{x} + multiset(ys[j + 1..]);
    assert multiset(rest) == multiset(ys[..j]) + multiset(ys[j + 1..]);
    assert multiset(xs) == multiset{x} + multiset(xs[1..]);
    forall y ensures multiset(rest)[y] == multiset(xs[1..])[y] {
      assert multiset(rest)[y] + multiset{x}[y] == multiset(ys)[y];
      assert multiset(xs[1..])[y] + multiset{x}[y] == multiset(xs)[y];
    }
  }

  /** The sum is the term at `j` plus the sum of the others. */
  lemma SumRemoveAt<T>(ys: seq<T>, j: nat, f: T -> real)
    requires j < |ys|
    ensures Sum(ys, f) == f(ys[j]) + Sum(ys[..j] + ys[j + 1..], f)
  {
    var x := ys[j];
    assert ys == ys[..j] + [x] + ys[j + 1..];
    SumAppend(ys[..j] + [x], ys[j + 1..], f);
    SumAppend(ys[..j], [x], f);
    SumAppend(ys[..j], ys[j + 1..], f);
    assert Sum([x], f) == f(x) by {
      assert [x][1..] == [];
    }
  }
}
