/**
 * JavaScript's `Array.prototype.sort` with a numeric comparator, which every sort in the
 * client uses. The sort is stable (ECMAScript 2019 onwards), and a comparator
 * `(a, b) => key(b) - key(a)` puts larger keys first. An ascending comparator
 * `(a, b) => key(a) - key(b)` is the same comparator for the negated key.
 *
 * SortDesc is the specification (insertion of each element after every element whose key
 * is at least its own); SortInPlace is the in-place algorithm, proved to compute it.
 */
module Sorting {

  /** Larger keys come first. */
  ghost predicate SortedDesc<T>(s: seq<T>, key: T -> int) {
    forall i, j :: 0 <= i < j < |s| ==> key(s[i]) >= key(s[j])
  }

  /** `x` placed after the last element of `s` whose key is at least `key(x)`. */
  function Insert<T>(s: seq<T>, x: T, key: T -> int): seq<T>
    decreases |s|
  {
    if |s| == 0 || key(s[|s| - 1]) >= key(x) then s + [x]
    else Insert(s[..|s| - 1], x, key) + [s[|s| - 1]]
  }

  /** Stable sort by descending key. */
  function SortDesc<T>(s: seq<T>, key: T -> int): (r: seq<T>)
    ensures |r| == |s|
    decreases |s|
  {
    if |s| == 0 then []
    else
      InsertLength(SortDesc(s[..|s| - 1], key), s[|s| - 1], key);
      Insert(SortDesc(s[..|s| - 1], key), s[|s| - 1], key)
  }

  lemma {:induction false} InsertLength<T>(s: seq<T>, x: T, key: T -> int)
    ensures |Insert(s, x, key)| == |s| + 1
    decreases |s|
  {
    if |s| > 0 && key(s[|s| - 1]) < key(x) {
      InsertLength(s[..|s| - 1], x, key);
    }
  }

  /** The elements of `s` whose key is `k`, in order. */
  function WithKey<T>(s: seq<T>, key: T -> int, k: int): seq<T>
    decreases |s|
  {
    if |s| == 0 then []
    else WithKey(s[..|s| - 1], key, k) + (if key(s[|s| - 1]) == k then [s[|s| - 1]] else [])
  }

  lemma WithKeyAppend<T>(a: seq<T>, b: seq<T>, key: T -> int, k: int)
    ensures WithKey(a + b, key, k) == WithKey(a, key, k) + WithKey(b, key, k)
    decreases |b|
  {
    if |b| == 0 {
      assert a + b == a;
    } else {
      assert (a + b)[..|a + b| - 1] == a + b[..|b| - 1];
      WithKeyAppend(a, b[..|b| - 1], key, k);
    }
  }

  lemma {:induction false} InsertPerm<T>(s: seq<T>, x: T, key: T -> int)
    ensures multiset(Insert(s, x, key)) == multiset(s) + multiset{x}
    decreases |s|
  {
    if |s| > 0 && key(s[|s| - 1]) < key(x) {
      var init, last := s[..|s| - 1], s[|s| - 1];
      assert s == init + [last];
      InsertPerm(init, x, key);
    }
  }

  lemma {:induction false} InsertSorted<T>(s: seq<T>, x: T, key: T -> int)
    requires SortedDesc(s, key)
    ensures SortedDesc(Insert(s, x, key), key)
    decreases |s|
  {
    if |s| > 0 && key(s[|s| - 1]) < key(x) {
      var init, last := s[..|s| - 1], s[|s| - 1];
      assert s == init + [last];
      InsertSorted(init, x, key);
      InsertPerm(init, x, key);
      var r := Insert(init, x, key);
      // every element of r has key at least key(last): those of init by sortedness, x by the branch
      forall i | 0 <= i < |r|
        ensures key(r[i]) >= key(last)
      {
        assert r[i] in multiset(r);
        if r[i] != x {
          assert r[i] in multiset(init);
          var j :| 0 <= j < |init| && init[j] == r[i];
          assert s[j] == init[j];
        }
      }
    }
  }

  /** Appending one element adds it to the elements of its own key only. */
  lemma WithKeySnoc<T>(s: seq<T>, y: T, key: T -> int, k: int)
    ensures WithKey(s + [y], key, k) == WithKey(s, key, k) + (if key(y) == k then [y] else [])
  {
    assert (s + [y])[..|s|] == s;
  }

  /** Two parts of which one is empty can be appended in either order. */
  lemma SwapEmpty<T>(w: seq<T>, a: seq<T>, b: seq<T>)
    requires a == [] || b == []
    ensures w + a + b == w + b + a
  {
    if a == [] {
      assert w + a == w;
    } else {
      assert w + b == w;
    }
  }

  /** Insert keeps, for every key, the order of the elements with that key; `x` goes last among its own. */
  lemma {:induction false} InsertWithKey<T>(s: seq<T>, x: T, key: T -> int, k: int)
    ensures WithKey(Insert(s, x, key), key, k) == WithKey(s + [x], key, k)
    decreases |s|
  {
    if |s| > 0 && key(s[|s| - 1]) < key(x) {
      var init, last := s[..|s| - 1], s[|s| - 1];
      var r := Insert(init, x, key);
      assert Insert(s, x, key) == r + [last];
      assert s + [x] == (init + [last]) + [x];
      InsertWithKey(init, x, key, k);
      InsertWithKeySwap(init, r, x, last, key, k);
    }
  }

  /** Moving `x` before an element of another key does not change what either key selects. */
  lemma InsertWithKeySwap<T>(init: seq<T>, r: seq<T>, x: T, last: T, key: T -> int, k: int)
    requires key(last) != key(x)
    requires WithKey(r, key, k) == WithKey(init + [x], key, k)
    ensures WithKey(r + [last], key, k) == WithKey((init + [last]) + [x], key, k)
  {
    WithKeySnoc(r, last, key, k);
    WithKeySnoc(init, x, key, k);
    WithKeySnoc(init, last, key, k);
    WithKeySnoc(init + [last], x, key, k);
    SwapEmpty(WithKey(init, key, k), if key(x) == k then [x] else [], if key(last) == k then [last] else []);
  }

  /**
   * SortDesc returns a permutation of its input, ordered by descending key, in which the
   * elements of each key keep their original order (stability).
   */
  lemma {:induction false} SortDescFacts<T>(s: seq<T>, key: T -> int)
    ensures |SortDesc(s, key)| == |s|
    ensures multiset(SortDesc(s, key)) == multiset(s)
    ensures SortedDesc(SortDesc(s, key), key)
    ensures forall k :: WithKey(SortDesc(s, key), key, k) == WithKey(s, key, k)
    decreases |s|
  {
    if |s| > 0 {
      var init, last := s[..|s| - 1], s[|s| - 1];
      assert s == init + [last];
      SortDescFacts(init, key);
      InsertPerm(SortDesc(init, key), last, key);
      InsertSorted(SortDesc(init, key), last, key);
      forall k
        ensures WithKey(SortDesc(s, key), key, k) == WithKey(s, key, k)
      {
        InsertWithKey(SortDesc(init, key), last, key, k);
        WithKeyAppend(SortDesc(init, key), [last], key, k);
        WithKeyAppend(init, [last], key, k);
      }
      assert |SortDesc(s, key)| == |multiset(SortDesc(s, key))|;
    }
  }

  /**
   * The first `n` elements of the sorted sequence are elements of the input, in order, and
   * none of the elements after them has a larger key.
   */
  lemma SortDescTake<T>(s: seq<T>, key: T -> int, n: nat)
    requires n <= |s|
    ensures |SortDesc(s, key)[..n]| == n
    ensures multiset(SortDesc(s, key)[..n]) <= multiset(s)
    ensures SortedDesc(SortDesc(s, key)[..n], key)
    ensures forall i, y :: 0 <= i < n && y in multiset(s) - multiset(SortDesc(s, key)[..n]) ==>
      key(SortDesc(s, key)[..n][i]) >= key(y)
  {
    SortDescFacts(s, key);
    TakeSorted(s, SortDesc(s, key), key, n);
  }

  /** The take facts for any descending permutation of `s`. */
  lemma TakeSorted<T>(s: seq<T>, sorted: seq<T>, key: T -> int, n: nat)
    requires n <= |sorted| && SortedDesc(sorted, key) && multiset(sorted) == multiset(s)
    ensures |sorted[..n]| == n
    ensures multiset(sorted[..n]) <= multiset(s)
    ensures SortedDesc(sorted[..n], key)
    ensures forall i, y :: 0 <= i < n && y in multiset(s) - multiset(sorted[..n]) ==> key(sorted[..n][i]) >= key(y)
  {
    SortedSplit(sorted, key, n);
    var top, rest := sorted[..n], sorted[n..];
    assert sorted == top + rest;
    assert multiset(s) == multiset(top) + multiset(rest);
  }

  /** The first n of a descending sequence are descending and rank at least as high as the rest. */
  lemma SortedSplit<T>(sorted: seq<T>, key: T -> int, n: nat)
    requires n <= |sorted| && SortedDesc(sorted, key)
    ensures multiset(sorted) - multiset(sorted[..n]) == multiset(sorted[n..])
    ensures SortedDesc(sorted[..n], key)
    ensures forall i, y :: 0 <= i < n && y in multiset(sorted[n..]) ==> key(sorted[..n][i]) >= key(y)
  {
    var top, rest := sorted[..n], sorted[n..];
    assert sorted == top + rest;
    assert multiset(sorted) == multiset(top) + multiset(rest);
    forall i, y | 0 <= i < n && y in multiset(rest)
      ensures key(top[i]) >= key(y)
    {
      var j :| 0 <= j < |rest| && rest[j] == y;
      assert sorted[n + j] == y && sorted[i] == top[i];
    }
  }

  lemma SortDescPrefix<T>(s: seq<T>, key: T -> int, i: nat)
    requires i < |s|
    ensures SortDesc(s[..i + 1], key) == Insert(SortDesc(s[..i], key), s[i], key)
  {
    assert s[..i + 1][..i] == s[..i];
  }

  lemma InsertStep<T>(s: seq<T>, x: T, key: T -> int, j: nat)
    requires 0 < j <= |s| && key(s[j - 1]) < key(x)
    ensures Insert(s[..j], x, key) == Insert(s[..j - 1], x, key) + [s[j - 1]]
  {
    assert s[..j][..j - 1] == s[..j - 1];
  }

  /** One swap of the inner loop moves `x` one place to the left. */
  lemma SwapStep<T>(sorted: seq<T>, x: T, rest: seq<T>, j: nat)
    requires 0 < j <= |sorted|
    ensures (sorted[..j] + [x] + sorted[j..] + rest)[j - 1 := x][j := sorted[j - 1]]
         == sorted[..j - 1] + [x] + sorted[j - 1..] + rest
  {
    assert sorted[..j] == sorted[..j - 1] + [sorted[j - 1]];
    assert sorted[j - 1..] == [sorted[j - 1]] + sorted[j..];
  }

  /** The inner loop's invariant, one place further left. */
  lemma InsertMovesLeft<T>(s: seq<T>, x: T, key: T -> int, j: nat)
    requires 0 < j <= |s| && key(s[j - 1]) < key(x)
    requires Insert(s, x, key) == Insert(s[..j], x, key) + s[j..]
    ensures Insert(s, x, key) == Insert(s[..j - 1], x, key) + s[j - 1..]
  {
    InsertStep(s, x, key, j);
    ConsSlice(s, j - 1, Insert(s[..j - 1], x, key));
  }

  /** The suffix from `i` is `s[i]` followed by the suffix from `i + 1`. */
  lemma ConsSlice<T>(s: seq<T>, i: nat, front: seq<T>)
    requires i < |s|
    ensures (front + [s[i]]) + s[i + 1..] == front + s[i..]
  {
    assert s[i..] == [s[i]] + s[i + 1..];
  }

  /** Where the inner loop stops, `x` goes right after the prefix. */
  lemma InsertStop<T>(s: seq<T>, x: T, key: T -> int, j: nat)
    requires j <= |s| && (j == 0 || key(s[j - 1]) >= key(x))
    ensures Insert(s[..j], x, key) == s[..j] + [x]
  {
  }

  /** One swap of the inner loop of InsertInPlace. */
  method SwapLeft<T>(a: array<T>, j: nat, ghost sorted: seq<T>, ghost x: T, ghost rest: seq<T>)
    requires 0 < j <= |sorted| && a[..] == sorted[..j] + [x] + sorted[j..] + rest
    modifies a
    ensures a[..] == sorted[..j - 1] + [x] + sorted[j - 1..] + rest
  {
    ghost var before := a[..];
    assert before[j - 1] == sorted[j - 1] && before[j] == x;
    SwapStep(sorted, x, rest, j);
    a[j - 1], a[j] := a[j], a[j - 1];
    assert a[..] == before[j - 1 := x][j := sorted[j - 1]];
  }

  /** Moves `a[i]` left past every element with a smaller key: Insert on the prefix `a[..i]`. */
  method InsertInPlace<T>(a: array<T>, i: nat, key: T -> int)
    requires i < a.Length
    modifies a
    ensures a[..] == Insert(old(a[..i]), old(a[i]), key) + old(a[i + 1..])
  {
    ghost var sorted := a[..i];
    ghost var rest := a[i + 1..];
    var x := a[i];
    assert a[..] == sorted + [x] + rest;
    InsertStart(sorted, x, rest, key);
    var j := i;
    while j > 0 && key(a[j - 1]) < key(x)
      invariant 0 <= j <= i
      invariant a[..] == sorted[..j] + [x] + sorted[j..] + rest
      invariant Insert(sorted, x, key) == Insert(sorted[..j], x, key) + sorted[j..]
    {
      assert a[j - 1] == sorted[j - 1];
      InsertMovesLeft(sorted, x, key, j);
      SwapLeft(a, j, sorted, x, rest);
      j := j - 1;
    }
    assert j > 0 ==> a[j - 1] == sorted[j - 1];
    InsertDone(sorted, x, rest, key, j);
  }

  /** Before the first swap, the element sits right after the whole sorted prefix. */
  lemma InsertStart<T>(sorted: seq<T>, x: T, rest: seq<T>, key: T -> int)
    ensures sorted + [x] + rest == sorted[..|sorted|] + [x] + sorted[|sorted|..] + rest
    ensures Insert(sorted, x, key) == Insert(sorted[..|sorted|], x, key) + sorted[|sorted|..]
  {
    WholeSlice(sorted, s => Insert(s, x, key));
  }

  /** Any sequence function sees the whole slice as the sequence itself. */
  lemma WholeSlice<T>(s: seq<T>, f: seq<T> -> seq<T>)
    ensures s[..|s|] == s && s[|s|..] == []
    ensures f(s) == f(s[..|s|]) + s[|s|..]
  {
    assert s[..|s|] == s;
    assert f(s) + [] == f(s);
  }

  /** When the inner loop stops, the array holds the insertion followed by the untouched rest. */
  lemma InsertDone<T>(sorted: seq<T>, x: T, rest: seq<T>, key: T -> int, j: nat)
    requires j <= |sorted| && (j == 0 || key(sorted[j - 1]) >= key(x))
    requires Insert(sorted, x, key) == Insert(sorted[..j], x, key) + sorted[j..]
    ensures sorted[..j] + [x] + sorted[j..] + rest == Insert(sorted, x, key) + rest
  {
    InsertStop(sorted, x, key, j);
  }

  /** Insertion sort by adjacent swaps; the result is SortDesc of the original contents. */
  method SortInPlace<T>(a: array<T>, key: T -> int)
    modifies a
    ensures a[..] == SortDesc(old(a[..]), key)
  {
    ghost var orig := a[..];
    var i := 0;
    while i < a.Length
      invariant 0 <= i <= a.Length
      invariant a[..] == SortDesc(orig[..i], key) + orig[i..]
    {
      assert a[..i] == SortDesc(orig[..i], key) && a[i] == orig[i] && a[i + 1..] == orig[i + 1..];
      InsertInPlace(a, i, key);
      SortDescPrefix(orig, key, i);
      i := i + 1;
    }
    assert orig[a.Length..] == [] && orig[..a.Length] == orig;
  }
}
