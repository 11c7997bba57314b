/** Generic list operations behind the dashboard's array code: filter,
    count, sum, findIndex, minimum and maximum, first-seen de-duplication,
    and the stable sort of Array.prototype.sort by an integer key. */
module Seqs {
  import opened Options

  /** `xs.filter(p)`, defined from the back so that it follows a loop over a prefix. */
  function Filter<T(!new)>(xs: seq<T>, p: T -> bool): (r: seq<T>)
    ensures |r| <= |xs|
    ensures forall k :: 0 <= k < |r| ==> p(r[k])
  {
    if |xs| == 0 then []
    else Filter(xs[..|xs| - 1], p) + (if p(xs[|xs| - 1]) then [xs[|xs| - 1]] else [])
  }

  /** An element is kept exactly when it is in the list and satisfies the predicate. */
  lemma {:induction false} FilterMembers<T(!new)>(xs: seq<T>, p: T -> bool, x: T)
    ensures x in Filter(xs, p) <==> x in xs && p(x)
  {
    if |xs| > 0 {
      var init := xs[..|xs| - 1];
      FilterMembers(init, p, x);
      assert x in xs <==> x in init || x == xs[|xs| - 1];
    }
  }

  lemma {:induction false} FilterAppend<T(!new)>(a: seq<T>, b: seq<T>, p: T -> bool)
    ensures Filter(a + b, p) == Filter(a, p) + Filter(b, p)
    decreases |b|
  {
    if |b| == 0 {
      assert a + b == a;
    } else {
      var b0 := b[..|b| - 1];
      assert (a + b)[..|a + b| - 1] == a + b0;
      FilterAppend(a, b0, p);
    }
  }

  lemma {:induction false} FilterAll<T(!new)>(xs: seq<T>, p: T -> bool)
    requires forall k :: 0 <= k < |xs| ==> p(xs[k])
    ensures Filter(xs, p) == xs
  {
    if |xs| > 0 {
      var init := xs[..|xs| - 1];
      assert forall k :: 0 <= k < |init| ==> init[k] == xs[k];
      FilterAll(init, p);
      assert p(xs[|xs| - 1]);
      assert init + [xs[|xs| - 1]] == xs;
    }
  }

  /** `a` is `b` with some elements deleted: an order-preserving sub-list. */
  predicate Subsequence<T(==)>(a: seq<T>, b: seq<T>)
    decreases |b|
  {
    if |b| == 0 then |a| == 0
    else
      Subsequence(a, b[..|b| - 1])
      || (|a| > 0 && a[|a| - 1] == b[|b| - 1] && Subsequence(a[..|a| - 1], b[..|b| - 1]))
  }

  lemma {:induction false} SubsequenceRefl<T>(xs: seq<T>)
    ensures Subsequence(xs, xs)
  {
    if |xs| > 0 {
      SubsequenceRefl(xs[..|xs| - 1]);
    }
  }

  lemma {:induction false} FilterSubsequence<T(!new)>(xs: seq<T>, p: T -> bool)
    ensures Subsequence(Filter(xs, p), xs)
  {
    if |xs| > 0 {
      var init := xs[..|xs| - 1];
      FilterSubsequence(init, p);
      var f := Filter(xs, p);
      if p(xs[|xs| - 1]) {
        assert f == Filter(init, p) + [xs[|xs| - 1]];
        assert f[..|f| - 1] == Filter(init, p);
      } else {
        assert f == Filter(init, p);
      }
    }
  }

  /** `xs.map(f)`, defined from the back so that it follows a loop over a prefix. */
  function Map<T, U>(xs: seq<T>, f: T -> U): (r: seq<U>)
    ensures |r| == |xs|
    ensures forall i :: 0 <= i < |xs| ==> r[i] == f(xs[i])
  {
    if |xs| == 0 then [] else Map(xs[..|xs| - 1], f) + [f(xs[|xs| - 1])]
  }

  /** The keys of an association list (an object's `Object.keys`), in order. */
  function FirstKeys<K, V>(xs: seq<(K, V)>): (r: seq<K>)
    ensures |r| == |xs|
    ensures forall i :: 0 <= i < |xs| ==> r[i] == xs[i].0
  {
    if |xs| == 0 then [] else [xs[0].0] + FirstKeys(xs[1..])
  }

  lemma FirstKeysCons<K, V>(x: (K, V), xs: seq<(K, V)>)
    ensures FirstKeys([x] + xs) == [x.0] + FirstKeys(xs)
  {
    assert ([x] + xs)[1..] == xs;
  }

  /** One more element of the input adds at most that element to the output. */
  lemma FilterSnoc<T(!new)>(xs: seq<T>, x: T, p: T -> bool)
    ensures Filter(xs + [x], p) == Filter(xs, p) + (if p(x) then [x] else [])
  {
    assert (xs + [x])[..|xs|] == xs;
  }

  lemma MapPrefix<T, U>(xs: seq<T>, j: int, f: T -> U)
    requires 0 <= j < |xs|
    ensures Map(xs[..j + 1], f) == Map(xs[..j], f) + [f(xs[j])]
  {
    assert xs[..j + 1][..j] == xs[..j];
  }

  /** The number of elements satisfying `p`. */
  function Count<T(!new)>(xs: seq<T>, p: T -> bool): nat {
    |Filter(xs, p)|
  }

  lemma CountAppend<T(!new)>(a: seq<T>, b: seq<T>, p: T -> bool)
    ensures Count(a + b, p) == Count(a, p) + Count(b, p)
  {
    FilterAppend(a, b, p);
  }

  /** A weaker predicate counts at least as many elements. */
  lemma {:induction false} CountMonotone<T(!new)>(xs: seq<T>, p: T -> bool, q: T -> bool)
    requires forall k :: 0 <= k < |xs| && p(xs[k]) ==> q(xs[k])
    ensures Count(xs, p) <= Count(xs, q)
  {
    if |xs| > 0 {
      CountMonotone(xs[..|xs| - 1], p, q);
    }
  }

  /** `xs.reduce((acc, x) => acc + f(x), 0)`. */
  function Sum<T>(xs: seq<T>, f: T -> real): real {
    if |xs| == 0 then 0.0 else Sum(xs[..|xs| - 1], f) + f(xs[|xs| - 1])
  }

  lemma {:induction false} SumAppend<T>(a: seq<T>, b: seq<T>, f: T -> real)
    ensures Sum(a + b, f) == Sum(a, f) + Sum(b, f)
    decreases |b|
  {
    if |b| > 0 {
      var b0 := b[..|b| - 1];
      assert (a + b)[..|a + b| - 1] == a + b0;
      SumAppend(a, b0, f);
    } else {
      assert a + b == a;
    }
  }

  /** A pointwise smaller term gives a smaller sum. */
  lemma {:induction false} SumMonotone<T>(xs: seq<T>, f: T -> real, g: T -> real)
    requires forall k :: 0 <= k < |xs| ==> f(xs[k]) <= g(xs[k])
    ensures Sum(xs, f) <= Sum(xs, g)
  {
    if |xs| > 0 {
      SumMonotone(xs[..|xs| - 1], f, g);
    }
  }

  /** `xs.findIndex(p)`: the first position satisfying `p`, or -1. */
  function FindIndex<T>(xs: seq<T>, p: T -> bool): (r: int)
    ensures -1 <= r < |xs|
    ensures r >= 0 ==> p(xs[r])
    ensures forall k :: 0 <= k < |xs| && (r == -1 || k < r) ==> !p(xs[k])
  {
    if |xs| == 0 then -1
    else if p(xs[0]) then 0
    else var k := FindIndex(xs[1..], p); if k == -1 then -1 else k + 1
  }

  function MaxOf(xs: seq<int>): (m: int)
    requires |xs| > 0
    ensures m in xs
    ensures forall k :: 0 <= k < |xs| ==> xs[k] <= m
  {
    if |xs| == 1 then xs[0]
    else var m := MaxOf(xs[1..]); if xs[0] >= m then xs[0] else m
  }

  function MinOf(xs: seq<int>): (m: int)
    requires |xs| > 0
    ensures m in xs
    ensures forall k :: 0 <= k < |xs| ==> m <= xs[k]
  {
    if |xs| == 1 then xs[0]
    else var m := MinOf(xs[1..]); if xs[0] <= m then xs[0] else m
  }

  /** Math.min(a, b). */
  function Min(a: int, b: int): int
  {
    if a <= b then a else b
  }

  /** `xs.length ? Math.max(...xs) : null`. */
  function LatestOf(xs: seq<int>): (r: Option<int>)
    ensures r.None? <==> |xs| == 0
    ensures r.Some? ==> r.value in xs && forall k :: 0 <= k < |xs| ==> xs[k] <= r.value
  {
    if |xs| == 0 then None else Some(MaxOf(xs))
  }

  /** `xs.length ? Math.min(...xs) : null`. */
  function EarliestOf(xs: seq<int>): (r: Option<int>)
    ensures r.None? <==> |xs| == 0
    ensures r.Some? ==> r.value in xs && forall k :: 0 <= k < |xs| ==> r.value <= xs[k]
  {
    if |xs| == 0 then None else Some(MinOf(xs))
  }

  /** Sorted non-decreasingly by `key`. */
  predicate SortedBy<T>(xs: seq<T>, key: T -> int) {
    forall i, j :: 0 <= i < j < |xs| ==> key(xs[i]) <= key(xs[j])
  }

  /** Places `x` after every element whose key is at most its own. */
  function InsertBy<T>(xs: seq<T>, x: T, key: T -> int): (r: seq<T>)
    requires SortedBy(xs, key)
    ensures SortedBy(r, key)
    ensures multiset(r) == multiset(xs) + multiset{x}
    ensures |r| == |xs| + 1
  {
    if |xs| == 0 then [x]
    else if key(x) < key(xs[0]) then
      ConsSorted(x, xs, key);
      [x] + xs
    else
      var t := InsertBy(xs[1..], x, key);
      HeadBound(xs, x, t, key);
      ConsSorted(xs[0], t, key);
      assert xs == [xs[0]] + xs[1..];
      [xs[0]] + t
  }

  lemma ConsSorted<T>(y: T, t: seq<T>, key: T -> int)
    requires SortedBy(t, key)
    requires |t| > 0 ==> key(y) <= key(t[0])
    ensures SortedBy([y] + t, key)
  {
    var r := [y] + t;
    forall i, j | 0 <= i < j < |r| ensures key(r[i]) <= key(r[j]) {
      assert r[j] == t[j - 1];
      if i > 0 {
        assert r[i] == t[i - 1];
      }
    }
  }

  lemma HeadBound<T>(xs: seq<T>, x: T, t: seq<T>, key: T -> int)
    requires SortedBy(xs, key) && |xs| > 0 && key(xs[0]) <= key(x)
    requires multiset(t) == multiset(xs[1..]) + multiset{x} && |t| > 0
    ensures key(xs[0]) <= key(t[0])
  {
    assert t[0] in multiset(t);
    if t[0] != x {
      assert t[0] in multiset(xs[1..]);
      var j :| 0 <= j < |xs[1..]| && xs[1..][j] == t[0];
      assert xs[j + 1] == t[0];
    }
  }

  /** The stable sort `[...xs].sort((a, b) => key(a) - key(b))`, as insertion sort. */
  function SortBy<T>(xs: seq<T>, key: T -> int): (r: seq<T>)
    ensures SortedBy(r, key)
    ensures multiset(r) == multiset(xs)
    ensures |r| == |xs|
  {
    if |xs| == 0 then []
    else
      assert xs == xs[..|xs| - 1] + [xs[|xs| - 1]];
      InsertBy(SortBy(xs[..|xs| - 1], key), xs[|xs| - 1], key)
  }

  /** The elements whose key is `k`. */
  function HasKey<T>(key: T -> int, k: int): T -> bool {
    x => key(x) == k
  }

  lemma {:induction false} InsertByFilter<T(!new)>(xs: seq<T>, x: T, key: T -> int, k: int)
    requires SortedBy(xs, key)
    ensures Filter(InsertBy(xs, x, key), HasKey(key, k)) == Filter(xs, HasKey(key, k)) + Filter([x], HasKey(key, k))
    decreases |xs|
  {
    var p := HasKey(key, k);
    if |xs| == 0 {
    } else if key(x) < key(xs[0]) {
      InsertInFront(xs, x, key, k);
    } else {
      var rest := xs[1..];
      assert SortedBy(rest, key);
      var t := InsertBy(rest, x, key);
      assert InsertBy(xs, x, key) == [xs[0]] + t;
      InsertByFilter(rest, x, key, k);
      ConsFilter(xs[0], t, rest, [x], p);
      assert [xs[0]] + rest == xs;
    }
  }

  lemma ConsFilter<T(!new)>(y: T, t: seq<T>, rest: seq<T>, tail: seq<T>, p: T -> bool)
    requires Filter(t, p) == Filter(rest, p) + Filter(tail, p)
    ensures Filter([y] + t, p) == Filter([y] + rest, p) + Filter(tail, p)
  {
    FilterAppend([y], t, p);
    FilterAppend([y], rest, p);
    ConcatAssoc(Filter([y], p), Filter(rest, p), Filter(tail, p));
  }

  lemma ConcatAssoc<T>(a: seq<T>, b: seq<T>, c: seq<T>)
    ensures a + (b + c) == (a + b) + c
  {
  }

  lemma InsertInFront<T(!new)>(xs: seq<T>, x: T, key: T -> int, k: int)
    requires SortedBy(xs, key) && |xs| > 0 && key(x) < key(xs[0])
    ensures Filter([x] + xs, HasKey(key, k)) == Filter(xs, HasKey(key, k)) + Filter([x], HasKey(key, k))
  {
    var p := HasKey(key, k);
    FilterAppend([x], xs, p);
    if key(x) == k {
      assert forall j :: 0 <= j < |xs| ==> !p(xs[j]);
      FilterNone(xs, p);
    } else {
      FilterNone([x], p);
    }
  }

  lemma FilterNone<T(!new)>(xs: seq<T>, p: T -> bool)
    requires forall j :: 0 <= j < |xs| ==> !p(xs[j])
    ensures Filter(xs, p) == []
  {
  }

  /** Stability: the elements with any one key keep their relative order. */
  lemma {:induction false} SortByStable<T(!new)>(xs: seq<T>, key: T -> int, k: int)
    ensures Filter(SortBy(xs, key), HasKey(key, k)) == Filter(xs, HasKey(key, k))
  {
    if |xs| > 0 {
      var init, x, p := xs[..|xs| - 1], xs[|xs| - 1], HasKey(key, k);
      calc {
        Filter(SortBy(xs, key), p);
        Filter(InsertBy(SortBy(init, key), x, key), p);
        { InsertByFilter(SortBy(init, key), x, key, k); }
        Filter(SortBy(init, key), p) + Filter([x], p);
        { SortByStable(init, key, k); }
        Filter(init, p) + Filter([x], p);
        { FilterAppend(init, [x], p); }
        Filter(init + [x], p);
        { assert init + [x] == xs; }
        Filter(xs, p);
      }
    }
  }

  /** An element at two positions occurs at least twice. */
  lemma TwoOccurrences<T>(xs: seq<T>, i: int, j: int)
    requires 0 <= i < j < |xs| && xs[i] == xs[j]
    ensures multiset(xs)[xs[i]] >= 2
  {
    var a, b := xs[..j], xs[j..];
    assert xs == a + b;
    assert xs[i] == a[i] && xs[j] == b[0];
    assert multiset(a)[xs[i]] >= 1 && multiset(b)[xs[i]] >= 1;
  }

  /** In a list without repeats every element occurs at most once. */
  lemma {:induction false} OccursOnce<T>(xs: seq<T>, x: T)
    requires forall i, j :: 0 <= i < j < |xs| ==> xs[i] != xs[j]
    ensures multiset(xs)[x] <= 1
  {
    if |xs| > 0 {
      var init := xs[..|xs| - 1];
      OccursOnce(init, x);
      assert xs == init + [xs[|xs| - 1]];
      if x == xs[|xs| - 1] {
        assert x !in init;
      }
    }
  }

  /** A permutation of a list without repeats has none. */
  lemma NoRepeatsPermutation<T>(xs: seq<T>, ys: seq<T>)
    requires forall i, j :: 0 <= i < j < |xs| ==> xs[i] != xs[j]
    requires multiset(ys) == multiset(xs)
    ensures forall i, j :: 0 <= i < j < |ys| ==> ys[i] != ys[j]
  {
    forall i, j | 0 <= i < j < |ys| ensures ys[i] != ys[j] {
      if ys[i] == ys[j] {
        TwoOccurrences(ys, i, j);
        OccursOnce(xs, ys[i]);
      }
    }
  }

  /** The elements of `xs` at their first occurrence, in order: the iteration order of `new Set(xs)`. */
  function Distinct<T(==,!new)>(xs: seq<T>): (r: seq<T>)
    ensures forall x :: x in r <==> x in xs
    ensures forall i, j :: 0 <= i < j < |r| ==> r[i] != r[j]
  {
    if |xs| == 0 then []
    else
      var d := Distinct(xs[..|xs| - 1]);
      var x := xs[|xs| - 1];
      assert forall y :: y in xs <==> y in xs[..|xs| - 1] || y == x;
      if x in d then d else d + [x]
  }

  /** One more element adds itself to the first occurrences unless it is already among them. */
  lemma DistinctSnoc<T(!new)>(xs: seq<T>, x: T)
    ensures Distinct(xs + [x]) == if x in Distinct(xs) then Distinct(xs) else Distinct(xs) + [x]
  {
    assert (xs + [x])[..|xs|] == xs;
  }

  lemma MapSnoc<T, U>(xs: seq<T>, x: T, f: T -> U)
    ensures Map(xs + [x], f) == Map(xs, f) + [f(x)]
  {
    assert (xs + [x])[..|xs|] == xs;
  }

  /** When no element but the `i`-th passes, at most one is kept. */
  lemma {:induction false} FilterAtMostOne<T(!new)>(xs: seq<T>, p: T -> bool, i: int)
    requires 0 <= i < |xs|
    requires forall j :: 0 <= j < |xs| && j != i ==> !p(xs[j])
    ensures |Filter(xs, p)| <= 1
  {
    var init := xs[..|xs| - 1];
    if i < |xs| - 1 {
      FilterAtMostOne(init, p, i);
    } else {
      FilterNone(init, p);
    }
  }

  /** A value is among the images of the kept elements exactly when some element passing `p` maps to it. */
  lemma MapFilterMembers<T(!new), U>(xs: seq<T>, p: T -> bool, f: T -> U, y: U)
    ensures y in Map(Filter(xs, p), f) <==> exists i :: 0 <= i < |xs| && p(xs[i]) && f(xs[i]) == y
  {
    var kept := Filter(xs, p);
    var ys := Map(kept, f);
    if y in ys {
      var j :| 0 <= j < |ys| && ys[j] == y;
      assert kept[j] in kept;
      FilterMembers(xs, p, kept[j]);
      var i :| 0 <= i < |xs| && xs[i] == kept[j];
      assert p(xs[i]) && f(xs[i]) == y;
    }
    if exists i :: 0 <= i < |xs| && p(xs[i]) && f(xs[i]) == y {
      var i :| 0 <= i < |xs| && p(xs[i]) && f(xs[i]) == y;
      FilterMembers(xs, p, xs[i]);
      var j :| 0 <= j < |kept| && kept[j] == xs[i];
      assert ys[j] == y;
    }
  }
}
