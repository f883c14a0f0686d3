/** Stable sorting by an integer key: what `sort_by_key` and `sort_by` promise, and that it fixes the result. */
module StableSort {

  /** Insert behind every element whose key is not larger. */
  function Insert<T>(key: T -> int, xs: seq<T>, x: T): seq<T> {
    if |xs| == 0 || key(xs[|xs| - 1]) <= key(x) then xs + [x]
    else Insert(key, xs[..|xs| - 1], x) + [xs[|xs| - 1]]
  }

  function Sort<T>(key: T -> int, xs: seq<T>): seq<T> {
    if |xs| == 0 then [] else Insert(key, Sort(key, xs[..|xs| - 1]), xs[|xs| - 1])
  }

  function Filter<T>(p: T -> bool, xs: seq<T>): seq<T> {
    if |xs| == 0 then []
    else Filter(p, xs[..|xs| - 1]) + if p(xs[|xs| - 1]) then [xs[|xs| - 1]] else []
  }

  function WithKey<T>(key: T -> int, xs: seq<T>, k: int): seq<T> { Filter(x => key(x) == k, xs) }

  ghost predicate Sorted<T>(key: T -> int, xs: seq<T>) {
    forall i, j | 0 <= i < j < |xs| :: key(xs[i]) <= key(xs[j])
  }

  /** The elements of each key are the same ones in the same order. */
  ghost predicate SameKeys<T>(key: T -> int, a: seq<T>, b: seq<T>) {
    forall k :: WithKey(key, a, k) == WithKey(key, b, k)
  }

  ghost predicate IsStableSort<T>(key: T -> int, input: seq<T>, output: seq<T>) {
    Sorted(key, output) && SameKeys(key, output, input)
  }

  lemma {:induction false} FilterJoin<T>(p: T -> bool, xs: seq<T>, ys: seq<T>)
    ensures Filter(p, xs + ys) == Filter(p, xs) + Filter(p, ys)
  {
    if |ys| == 0 {
      assert xs + ys == xs;
    } else {
      var n := |ys| - 1;
      FilterJoin(p, xs, ys[..n]);
      assert (xs + ys)[..|xs + ys| - 1] == xs + ys[..n];
    }
  }

  lemma {:induction false} FilterFits<T>(p: T -> bool, xs: seq<T>, k: int, key: T -> int)
    requires forall i | 0 <= i < |xs| :: key(xs[i]) <= k
    ensures forall x | x in Filter(p, xs) :: key(x) <= k
  {
    if |xs| > 0 {
      FilterFits(p, xs[..|xs| - 1], k, key);
    }
  }

  lemma {:induction false} NoneWithKey<T>(key: T -> int, xs: seq<T>, k: int)
    requires forall i | 0 <= i < |xs| :: key(xs[i]) != k
    ensures WithKey(key, xs, k) == []
  {
    if |xs| > 0 {
      NoneWithKey(key, xs[..|xs| - 1], k);
    }
  }

  lemma {:induction false} InsertFits<T>(key: T -> int, xs: seq<T>, x: T, k: int)
    requires key(x) <= k && forall i | 0 <= i < |xs| :: key(xs[i]) <= k
    ensures forall i | 0 <= i < |Insert(key, xs, x)| :: key(Insert(key, xs, x)[i]) <= k
  {
    if |xs| > 0 {
      InsertFits(key, xs[..|xs| - 1], x, k);
    }
  }

  lemma {:induction false} InsertSorts<T>(key: T -> int, xs: seq<T>, x: T)
    requires Sorted(key, xs)
    ensures Sorted(key, Insert(key, xs, x))
  {
    if |xs| > 0 && key(xs[|xs| - 1]) > key(x) {
      InsertSorts(key, xs[..|xs| - 1], x);
      InsertFits(key, xs[..|xs| - 1], x, key(xs[|xs| - 1]));
    }
  }

  /** Insertion only passes elements of other keys. */
  lemma {:induction false} InsertKeepsKeys<T>(key: T -> int, xs: seq<T>, x: T, k: int)
    ensures WithKey(key, Insert(key, xs, x), k) == WithKey(key, xs, k) + if key(x) == k then [x] else []
  {
    var p := y => key(y) == k;
    if |xs| == 0 || key(xs[|xs| - 1]) <= key(x) {
      FilterJoin(p, xs, [x]);
      assert Filter(p, [x]) == if key(x) == k then [x] else [];
    } else {
      var init, last := xs[..|xs| - 1], xs[|xs| - 1];
      InsertKeepsKeys(key, init, x, k);
      FilterJoin(p, Insert(key, init, x), [last]);
    }
  }

  lemma InsertIsStable<T>(key: T -> int, xs: seq<T>, x: T)
    requires Sorted(key, xs)
    ensures IsStableSort(key, xs + [x], Insert(key, xs, x))
  {
    InsertSorts(key, xs, x);
    forall k
      ensures WithKey(key, Insert(key, xs, x), k) == WithKey(key, xs + [x], k)
    {
      InsertKeepsKeys(key, xs, x, k);
      WithKeySnoc(key, xs, x, k);
    }
  }

  lemma WithKeySnoc<T>(key: T -> int, xs: seq<T>, x: T, k: int)
    ensures WithKey(key, xs + [x], k) == if key(x) == k then WithKey(key, xs, k) + [x] else WithKey(key, xs, k)
  {
    FilterJoin(y => key(y) == k, xs, [x]);
    assert WithKey(key, xs, k) + [] == WithKey(key, xs, k);
  }

  lemma SameKeysSnoc<T>(key: T -> int, a: seq<T>, b: seq<T>, x: T)
    requires SameKeys(key, a, b)
    ensures SameKeys(key, a + [x], b + [x])
  {
    forall k
      ensures WithKey(key, a + [x], k) == WithKey(key, b + [x], k)
    {
      assert WithKey(key, a, k) == WithKey(key, b, k);
      WithKeySnoc(key, a, x, k);
      WithKeySnoc(key, b, x, k);
    }
  }

  lemma StableAfter<T>(key: T -> int, a: seq<T>, b: seq<T>, c: seq<T>)
    requires IsStableSort(key, b, c) && SameKeys(key, a, b)
    ensures IsStableSort(key, a, c)
  {
    forall k
      ensures WithKey(key, c, k) == WithKey(key, a, k)
    {
      assert WithKey(key, c, k) == WithKey(key, b, k);
    }
  }

  lemma {:induction false} SortIsStable<T>(key: T -> int, xs: seq<T>)
    ensures IsStableSort(key, xs, Sort(key, xs))
  {
    if |xs| > 0 {
      var init, last := xs[..|xs| - 1], xs[|xs| - 1];
      SortIsStable(key, init);
      InsertIsStable(key, Sort(key, init), last);
      SameKeysSnoc(key, init, Sort(key, init), last);
      StableAfter(key, init + [last], Sort(key, init) + [last], Sort(key, xs));
      assert xs == init + [last];
    }
  }

  lemma InitsAgree<T>(key: T -> int, c: seq<T>, x: T, d: seq<T>, y: T, k: int)
    requires key(x) == key(y) && WithKey(key, c + [x], k) == WithKey(key, d + [y], k)
    ensures WithKey(key, c, k) == WithKey(key, d, k)
    ensures k == key(x) ==> x == y
  {
    WithKeySnoc(key, c, x, k);
    WithKeySnoc(key, d, y, k);
    if k == key(x) {
      SnocsAgree(WithKey(key, c, k), x, WithKey(key, d, k), y);
    }
  }

  /** The last elements agree: each is the last one of the largest key. */
  lemma LastsAgree<T>(key: T -> int, a: seq<T>, b: seq<T>)
    requires |a| > 0 && |b| > 0 && Sorted(key, a) && Sorted(key, b)
    requires SameKeys(key, a, b)
    ensures a[|a| - 1] == b[|b| - 1]
    ensures SameKeys(key, a[..|a| - 1], b[..|b| - 1])
  {
    LastKeysAgree(key, a, b);
    LastKeysAgree(key, b, a);
    var (c, d) := (a[..|a| - 1], b[..|b| - 1]);
    var (x, y) := (a[|a| - 1], b[|b| - 1]);
    assert a == c + [x] && b == d + [y];
    InitsAgree(key, c, x, d, y, key(x));
    forall k
      ensures WithKey(key, c, k) == WithKey(key, d, k)
    {
      assert WithKey(key, a, k) == WithKey(key, b, k);
      InitsAgree(key, c, x, d, y, k);
    }
  }

  lemma SnocsAgree<T>(xs: seq<T>, x: T, ys: seq<T>, y: T)
    requires xs + [x] == ys + [y]
    ensures xs == ys && x == y
  {
    assert |xs + [x]| == |xs| + 1 && |ys + [y]| == |ys| + 1;
    assert (xs + [x])[|xs|] == x && (ys + [y])[|ys|] == y;
    assert (xs + [x])[..|xs|] == xs && (ys + [y])[..|ys|] == ys;
  }

  /** Being a stable sort of the input determines the output. */
  lemma {:induction false} StableSortIsUnique<T>(key: T -> int, a: seq<T>, b: seq<T>)
    requires Sorted(key, a) && Sorted(key, b)
    requires SameKeys(key, a, b)
    ensures a == b
  {
    StableSortPermutes(key, a, b);
    assert |multiset(a)| == |multiset(b)|;
    if |a| > 0 {
      LastsAgree(key, a, b);
      StableSortIsUnique(key, a[..|a| - 1], b[..|b| - 1]);
    }
  }

  lemma LastKeysAgree<T>(key: T -> int, a: seq<T>, b: seq<T>)
    requires |a| > 0 && |b| > 0 && Sorted(key, a)
    requires SameKeys(key, a, b)
    ensures key(b[|b| - 1]) <= key(a[|a| - 1])
  {
    var k := key(b[|b| - 1]);
    if k > key(a[|a| - 1]) {
      assert WithKey(key, a, k) == WithKey(key, b, k);
      NoneWithKey(key, a, k);
    }
  }

  /** Nothing is lost and nothing duplicated. */
  lemma StableSortPermutes<T>(key: T -> int, a: seq<T>, b: seq<T>)
    requires SameKeys(key, a, b)
    ensures multiset(a) == multiset(b)
  {
    forall x
      ensures multiset(a)[x] == multiset(b)[x]
    {
      CountInKey(key, a, x);
      CountInKey(key, b, x);
      assert WithKey(key, a, key(x)) == WithKey(key, b, key(x));
    }
  }

  lemma {:induction false} CountInKey<T>(key: T -> int, xs: seq<T>, x: T)
    ensures multiset(xs)[x] == multiset(WithKey(key, xs, key(x)))[x]
  {
    if |xs| > 0 {
      var n := |xs| - 1;
      CountInKey(key, xs[..n], x);
      assert xs == xs[..n] + [xs[n]];
    }
  }

  lemma WithoutLast<T>(xs: seq<T>)
    requires |xs| > 0
    ensures multiset(xs[..|xs| - 1]) == multiset(xs) - multiset{xs[|xs| - 1]} && xs == xs[..|xs| - 1] + [xs[|xs| - 1]]
  {
    assert xs == xs[..|xs| - 1] + [xs[|xs| - 1]];
  }

  lemma LastOfStrict<T>(key: T -> int, a: seq<T>, b: seq<T>)
    requires Sorted(key, a) && forall i, j | 0 <= i < j < |b| :: key(b[i]) < key(b[j])
    requires multiset(a) == multiset(b) && |a| == |b| > 0
    ensures a[|a| - 1] == b[|b| - 1]
  {
    var n := |a| - 1;
    assert a[n] in multiset(b) && b[n] in multiset(a);
    var p :| 0 <= p <= n && b[p] == a[n];
    var q :| 0 <= q <= n && a[q] == b[n];
    assert key(a[q]) <= key(a[n]);
  }

  /** With a key of its own for each element, sorting leaves no choice. */
  lemma {:induction false} StrictOrderIsUnique<T>(key: T -> int, a: seq<T>, b: seq<T>)
    requires Sorted(key, a) && forall i, j | 0 <= i < j < |b| :: key(b[i]) < key(b[j])
    requires multiset(a) == multiset(b)
    ensures a == b
  {
    assert |multiset(a)| == |multiset(b)|;
    if |a| > 0 {
      LastOfStrict(key, a, b);
      WithoutLast(a);
      WithoutLast(b);
      StrictOrderIsUnique(key, a[..|a| - 1], b[..|b| - 1]);
    }
  }

  /** Filtering keeps each element that satisfies the predicate, as often as it was there, and no other. */
  lemma {:induction false} FilterCounts<T>(p: T -> bool, xs: seq<T>, x: T)
    ensures multiset(Filter(p, xs))[x] == if p(x) then multiset(xs)[x] else 0
  {
    if |xs| > 0 {
      var n := |xs| - 1;
      FilterCounts(p, xs[..n], x);
      assert xs == xs[..n] + [xs[n]];
    }
  }

  lemma {:induction false} FiltersCommute<T>(p: T -> bool, q: T -> bool, xs: seq<T>)
    ensures Filter(p, Filter(q, xs)) == Filter(q, Filter(p, xs))
  {
    if |xs| > 0 {
      var n := |xs| - 1;
      FiltersCommute(p, q, xs[..n]);
      FilterJoin(p, Filter(q, xs[..n]), if q(xs[n]) then [xs[n]] else []);
      FilterJoin(q, Filter(p, xs[..n]), if p(xs[n]) then [xs[n]] else []);
    }
  }

  lemma {:induction false} FilterKeepsSorted<T>(key: T -> int, p: T -> bool, xs: seq<T>)
    requires Sorted(key, xs)
    ensures Sorted(key, Filter(p, xs))
  {
    if |xs| > 0 {
      var n := |xs| - 1;
      FilterKeepsSorted(key, p, xs[..n]);
      FilterFits(p, xs[..n], key(xs[n]), key);
      var ys := Filter(p, xs[..n]);
      assert forall i | 0 <= i < |ys| :: ys[i] in ys;
    }
  }

  /** Filtering a stable sort is a stable sort of the filtered input. */
  lemma FilteredSort<T>(key: T -> int, p: T -> bool, input: seq<T>, output: seq<T>)
    requires IsStableSort(key, input, output)
    ensures IsStableSort(key, Filter(p, input), Filter(p, output))
  {
    FilterKeepsSorted(key, p, output);
    forall k
      ensures WithKey(key, Filter(p, output), k) == WithKey(key, Filter(p, input), k)
    {
      FiltersCommute(x => key(x) == k, p, output);
      FiltersCommute(x => key(x) == k, p, input);
      assert WithKey(key, output, k) == WithKey(key, input, k);
    }
  }

  /** Sorting again after one more element arrives is sorting the whole history once. */
  lemma ResortedIsSorted<T>(key: T -> int, history: seq<T>, sorted: seq<T>, x: T)
    requires IsStableSort(key, history, sorted)
    ensures IsStableSort(key, history + [x], Sort(key, sorted + [x]))
  {
    SortIsStable(key, sorted + [x]);
    SameKeysSnoc(key, history, sorted, x);
    StableAfter(key, history + [x], sorted + [x], Sort(key, sorted + [x]));
  }
}
