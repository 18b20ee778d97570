/** Small shared vocabulary: an optional value and order-preserving filtering. */
module Common {

  datatype Option<+T> = None | Some(value: T) {
    function GetOr(default: T): T {
      match this
      case Some(v) => v
      case None => default
    }
  }

  /** The sub-list of `s` whose elements satisfy `p`, in their original order
      (JavaScript's `Array.prototype.filter`). */
  function Filter<T>(s: seq<T>, p: T -> bool): (r: seq<T>)
    ensures |r| <= |s|
    ensures forall x :: x in r ==> x in s && p(x)
  {
    if s == [] then [] else (if p(s[0]) then [s[0]] else []) + Filter(s[1..], p)
  }

  lemma {:induction false} FilterKeeps<T>(s: seq<T>, p: T -> bool, x: T)
    requires x in s && p(x)
    ensures x in Filter(s, p)
  {
    if s[0] != x {
      FilterKeeps(s[1..], p, x);
    }
  }

  /** An element survives the filter exactly when it is in the list and satisfies `p`. */
  lemma FilterExactly<T>(s: seq<T>, p: T -> bool)
    ensures forall x :: x in Filter(s, p) <==> x in s && p(x)
  {
    forall x | x in s && p(x)
      ensures x in Filter(s, p)
    {
      FilterKeeps(s, p, x);
    }
  }

  /** Filtering distributes over concatenation, so a filter can be built one element
      at a time, as a loop does. */
  lemma {:induction false} FilterAppend<T>(a: seq<T>, b: seq<T>, p: T -> bool)
    ensures Filter(a + b, p) == Filter(a, p) + Filter(b, p)
  {
    if a == [] {
      assert a + b == b;
    } else {
      assert (a + b)[1..] == a[1..] + b;
      FilterAppend(a[1..], b, p);
    }
  }

  /** A filter that keeps everything is the identity. */
  lemma {:induction false} FilterAll<T>(s: seq<T>, p: T -> bool)
    requires forall i :: 0 <= i < |s| ==> p(s[i])
    ensures Filter(s, p) == s
  {
    if s != [] {
      FilterAll(s[1..], p);
    }
  }

  /** A filter that keeps nothing is empty. */
  lemma {:induction false} FilterNone<T>(s: seq<T>, p: T -> bool)
    requires forall i :: 0 <= i < |s| ==> !p(s[i])
    ensures Filter(s, p) == []
  {
    if s != [] {
      FilterNone(s[1..], p);
    }
  }

  /** No element occurs twice. */
  predicate Distinct<T(==)>(s: seq<T>) {
    forall i, j :: 0 <= i < j < |s| ==> s[i] != s[j]
  }

  /** Filtering a list without repeats gives a list without repeats. */
  lemma {:induction false} FilterDistinct<T>(s: seq<T>, p: T -> bool)
    requires Distinct(s)
    ensures Distinct(Filter(s, p))
  {
    if s != [] {
      FilterDistinct(s[1..], p);
      var t := Filter(s[1..], p);
      assert s[0] !in s[1..];
      assert s[0] !in t;
    }
  }

  /** `if (!s.includes(x)) s.push(x)`. */
  function AddOnce<T(==)>(s: seq<T>, x: T): (r: seq<T>)
    ensures x in r && (forall i :: 0 <= i < |s| ==> s[i] in r) && (forall y :: y in r ==> y in s || y == x)
    ensures Distinct(s) ==> Distinct(r)
  {
    if x in s then s else s + [x]
  }

  /** Membership in the bucket of key `k`. */
  function InBucket<T, K(==)>(key: T -> K, k: K): T -> bool {
    (x: T) => key(x) == k
  }

  /** `m` holds one bucket per key occurring in `done`, each the elements with that key in
      list order. */
  ghost predicate Buckets<T, K>(m: map<K, seq<T>>, done: seq<T>, key: T -> K) {
    && m.Keys == (set y | y in done :: key(y))
    && forall k :: k in m ==> m[k] == Filter(done, InBucket(key, k))
  }

  /** The keys of a list grow by the key of an appended element. */
  lemma KeysAppend<T, K>(done: seq<T>, x: T, key: T -> K)
    ensures (set y | y in done + [x] :: key(y)) == (set y | y in done :: key(y)) + {key(x)}
  {
  }

  /** Appending `x` to its bucket, creating the bucket when missing, keeps a map of
      buckets equal to the filters of the list seen so far. */
  lemma BucketStep<T, K>(before: map<K, seq<T>>, after: map<K, seq<T>>, done: seq<T>, x: T, key: T -> K)
    requires Buckets(before, done, key)
    requires after == before[key(x) := (if key(x) in before then before[key(x)] else []) + [x]]
    ensures Buckets(after, done + [x], key)
  {
    KeysAppend(done, x, key);
    forall k | k in after
      ensures after[k] == Filter(done + [x], InBucket(key, k))
    {
      BucketOfKey(before, after, done, x, key, k);
    }
  }

  /** The buckets of a list by `key`, filled in list order: each key seen maps to the
      elements with that key, in their original order. */
  method BucketBy<T, K>(list: seq<T>, key: T -> K) returns (m: map<K, seq<T>>)
    ensures m.Keys == set y | y in list :: key(y)
    ensures forall k :: k in m ==> m[k] == Filter(list, InBucket(key, k))
  {
    m := map[];
    assert list[..0] == [];
    for i := 0 to |list|
      invariant Buckets(m, list[..i], key)
    {
      var x := list[i];
      var k := key(x);
      var bucket := if k in m then m[k] else [];
      BucketStepAt(m, list, i, key);
      m := m[k := bucket + [x]];
    }
    assert list[..|list|] == list;
  }

  lemma BucketStepAt<T, K>(m: map<K, seq<T>>, list: seq<T>, i: nat, key: T -> K)
    requires i < |list| && Buckets(m, list[..i], key)
    ensures var x := list[i];
      Buckets(m[key(x) := (if key(x) in m then m[key(x)] else []) + [x]], list[..i + 1], key)
  {
    assert list[..i + 1] == list[..i] + [list[i]];
    BucketStep(m, m[key(list[i]) := (if key(list[i]) in m then m[key(list[i])] else []) + [list[i]]], list[..i], list[i], key);
  }

  lemma BucketOfKey<T, K>(before: map<K, seq<T>>, after: map<K, seq<T>>, done: seq<T>, x: T, key: T -> K, k: K)
    requires before.Keys == set y | y in done :: key(y)
    requires k in before ==> before[k] == Filter(done, InBucket(key, k))
    requires after == before[key(x) := (if key(x) in before then before[key(x)] else []) + [x]]
    requires k in after
    ensures after[k] == Filter(done + [x], InBucket(key, k))
  {
    var f := InBucket(key, k);
    FilterAppend(done, [x], f);
    assert Filter([x], f) == (if key(x) == k then [x] else []) + Filter([x][1..], f);
    if k == key(x) && k !in before {
      forall y | y in done
        ensures !f(y)
      {
        assert key(y) in before.Keys;
      }
      FilterNone(done, f);
    }
  }

  /** The index of the first element satisfying `p` (`findIndex`, with `None` for -1;
      `find` is the element at that index). */
  function Find<T>(s: seq<T>, p: T -> bool): (r: Option<nat>)
    ensures r.Some? ==> r.value < |s| && p(s[r.value]) && forall j :: 0 <= j < r.value ==> !p(s[j])
    ensures r.None? ==> forall j :: 0 <= j < |s| ==> !p(s[j])
  {
    if s == [] then None
    else if p(s[0]) then Some(0)
    else
      match Find(s[1..], p)
      case None => None
      case Some(k) => Some(k + 1)
  }

  /** `s` with the element at index `i` removed, the effect of `splice(i, 1)` for an index
      inside the list. */
  function RemoveAt<T>(s: seq<T>, i: nat): (r: seq<T>)
    requires i < |s|
    ensures |r| == |s| - 1
    ensures forall k :: 0 <= k < i ==> r[k] == s[k]
    ensures forall k :: i <= k < |r| ==> r[k] == s[k + 1]
  {
    s[..i] + s[i + 1..]
  }

  /** JavaScript's `splice(i, 1)` for any integer `i`: a negative index counts from the end,
      and an index that falls outside the list removes nothing. */
  function SpliceOne<T>(s: seq<T>, i: int): (r: seq<T>)
    ensures |s| > 0 && 0 <= i < |s| ==> r == RemoveAt(s, i)
    ensures |s| > 0 && -|s| <= i < 0 ==> r == RemoveAt(s, |s| + i)
    ensures |s| > 0 && i < -|s| ==> r == RemoveAt(s, 0)
    ensures i >= |s| ==> r == s
  {
    var start := if i < 0 then (if |s| + i < 0 then 0 else |s| + i) else i;
    if start < |s| then RemoveAt(s, start) else s
  }

  // ---------------------------------------------------------------------------
  // Sorting

  /** `less` never holds both ways. */
  ghost predicate Asymmetric<T(!new)>(less: (T, T) -> bool) {
    forall a, b :: less(a, b) ==> !less(b, a)
  }

  /** No element is strictly less than the one before it. */
  predicate Ordered<T>(s: seq<T>, less: (T, T) -> bool) {
    forall i :: 0 <= i < |s| - 1 ==> !less(s[i + 1], s[i])
  }

  /** Each element is strictly less than the next. */
  predicate StrictlyOrdered<T>(s: seq<T>, less: (T, T) -> bool) {
    forall i :: 0 <= i < |s| - 1 ==> less(s[i], s[i + 1])
  }

  /** `x` placed before the first element of `t` that is not less than it. An element
      equal to `x` stays behind `x`, so inserting the earlier of two equal elements last
      keeps them in their original order. */
  function InsertBy<T>(x: T, t: seq<T>, less: (T, T) -> bool): (r: seq<T>)
    ensures |r| == |t| + 1 && multiset(r) == multiset(t) + multiset{x}
    ensures r[0] == x || (t != [] && r[0] == t[0])
  {
    if t == [] || !less(t[0], x) then [x] + t
    else
      var r := [t[0]] + InsertBy(x, t[1..], less);
      assert t == [t[0]] + t[1..];
      r
  }

  /** `Array.prototype.sort` with a comparator that reports `a` before `b` exactly when
      `less(a, b)`: a stable insertion sort. */
  function SortBy<T>(s: seq<T>, less: (T, T) -> bool): (r: seq<T>)
    ensures |r| == |s| && multiset(r) == multiset(s)
  {
    if s == [] then []
    else
      assert s == [s[0]] + s[1..];
      InsertBy(s[0], SortBy(s[1..], less), less)
  }

  lemma {:induction false} InsertByOrdered<T(!new)>(x: T, t: seq<T>, less: (T, T) -> bool)
    requires Asymmetric(less) && Ordered(t, less)
    ensures Ordered(InsertBy(x, t, less), less)
  {
    if t != [] && less(t[0], x) {
      InsertByOrdered(x, t[1..], less);
    }
  }

  /** With an asymmetric comparator the result never has an element strictly less than its
      predecessor. */
  lemma {:induction false} SortByOrdered<T(!new)>(s: seq<T>, less: (T, T) -> bool)
    requires Asymmetric(less)
    ensures Ordered(SortBy(s, less), less)
  {
    if s != [] {
      SortByOrdered(s[1..], less);
      InsertByOrdered(s[0], SortBy(s[1..], less), less);
    }
  }

  lemma {:induction false} InsertByStrict<T>(x: T, t: seq<T>, less: (T, T) -> bool)
    requires StrictlyOrdered(t, less)
    requires forall y :: y in t ==> less(x, y) || less(y, x)
    ensures StrictlyOrdered(InsertBy(x, t, less), less)
  {
    if t != [] && less(t[0], x) {
      InsertByStrict(x, t[1..], less);
    }
  }

  /** When any two elements are comparable one way or the other, the sorted list is
      strictly increasing. */
  lemma {:induction false} SortByStrict<T>(s: seq<T>, less: (T, T) -> bool)
    requires forall i, j :: 0 <= i < j < |s| ==> less(s[i], s[j]) || less(s[j], s[i])
    ensures StrictlyOrdered(SortBy(s, less), less)
  {
    if s != [] {
      var t := SortBy(s[1..], less);
      SortByStrict(s[1..], less);
      forall y | y in t
        ensures less(s[0], y) || less(y, s[0])
      {
        assert y in multiset(s[1..]);
        var j :| 0 <= j < |s[1..]| && s[1..][j] == y;
        assert s[j + 1] == y;
      }
      InsertByStrict(s[0], t, less);
    }
  }

  /** Position `i` holds the earliest kept element of least key: every kept element before
      it has a greater key, every one after it a key at least as great. */
  predicate FirstLeast<T>(s: seq<T>, p: T -> bool, key: T -> int, i: int) {
    && 0 <= i < |s| && p(s[i])
    && (forall j :: 0 <= j < i && p(s[j]) ==> key(s[j]) > key(s[i]))
    && (forall j :: i < j < |s| && p(s[j]) ==> key(s[j]) >= key(s[i]))
  }

  /** A position of the tail stays first and least when the head is dropped or greater. */
  lemma FirstLeastShift<T>(s: seq<T>, p: T -> bool, key: T -> int, k: int)
    requires s != [] && FirstLeast(s[1..], p, key, k)
    requires p(s[0]) ==> key(s[0]) > key(s[k + 1])
    ensures FirstLeast(s, p, key, k + 1)
  {
    assert forall j :: 1 <= j < |s| ==> s[j] == s[1..][j - 1];
  }

  /** A kept head no greater than the tail's first least element is itself first and least. */
  lemma FirstLeastHead<T>(s: seq<T>, p: T -> bool, key: T -> int, k: int)
    requires s != [] && p(s[0]) && FirstLeast(s[1..], p, key, k) && key(s[0]) <= key(s[k + 1])
    ensures FirstLeast(s, p, key, 0)
  {
    assert forall j :: 1 <= j < |s| ==> s[j] == s[1..][j - 1];
  }

  /** A kept head with nothing kept after it is first and least. */
  lemma FirstLeastAlone<T>(s: seq<T>, p: T -> bool, key: T -> int)
    requires s != [] && p(s[0]) && Filter(s[1..], p) == []
    ensures FirstLeast(s, p, key, 0)
  {
    forall j | 0 < j < |s| && p(s[j])
      ensures false
    {
      assert s[j] == s[1..][j - 1];
      FilterKeeps(s[1..], p, s[j]);
    }
  }

  /** Filtering a non-empty list: the head, if kept, before the filtered tail. */
  lemma FilterCons<T>(s: seq<T>, p: T -> bool)
    requires s != []
    ensures p(s[0]) ==> Filter(s, p) != [] && Filter(s, p)[0] == s[0] && Filter(s, p)[1..] == Filter(s[1..], p)
    ensures !p(s[0]) ==> Filter(s, p) == Filter(s[1..], p)
  {
  }

  /** A non-empty list sorts by inserting its head into its sorted tail. */
  lemma SortByCons<T>(s: seq<T>, less: (T, T) -> bool)
    requires s != []
    ensures SortBy(s, less) == InsertBy(s[0], SortBy(s[1..], less), less)
  {
  }

  /** The head after an insertion: the old head if it is less than the new element,
      otherwise the new element. */
  lemma InsertByHead<T>(x: T, t: seq<T>, less: (T, T) -> bool)
    ensures InsertBy(x, t, less)[0] == if t != [] && less(t[0], x) then t[0] else x
  {
  }

  /** The step of `SortByFilterHead` for a kept head, given the answer for the tail. */
  lemma SortByFilterKeep<T>(s: seq<T>, p: T -> bool, less: (T, T) -> bool, key: T -> int, k: int)
      returns (i: int)
    requires forall a, b :: less(a, b) <==> key(a) < key(b)
    requires s != [] && p(s[0]) && Filter(s[1..], p) != []
    requires FirstLeast(s[1..], p, key, k) && SortBy(Filter(s[1..], p), less)[0] == s[1..][k]
    ensures FirstLeast(s, p, key, i) && SortBy(Filter(s, p), less)[0] == s[i]
  {
    var rest := Filter(s[1..], p);
    var f := Filter(s, p);
    FilterCons(s, p);
    var t := SortBy(rest, less);
    SortByCons(f, less);
    InsertByHead(s[0], t, less);
    assert t[0] == s[k + 1];
    if less(t[0], s[0]) {
      FirstLeastShift(s, p, key, k);
      i := k + 1;
    } else {
      FirstLeastHead(s, p, key, k);
      i := 0;
    }
  }

  /** Sorting the kept elements by a key with a stable sort puts first the earliest kept
      element of least key. */
  lemma {:induction false} SortByFilterHead<T>(s: seq<T>, p: T -> bool, less: (T, T) -> bool, key: T -> int)
      returns (i: int)
    requires forall a, b :: less(a, b) <==> key(a) < key(b)
    requires Filter(s, p) != []
    ensures FirstLeast(s, p, key, i) && SortBy(Filter(s, p), less)[0] == s[i]
  {
    var rest := Filter(s[1..], p);
    if !p(s[0]) {
      FilterCons(s, p);
      var k := SortByFilterHead(s[1..], p, less, key);
      assert s[1..][k] == s[k + 1];
      FirstLeastShift(s, p, key, k);
      i := k + 1;
    } else if rest == [] {
      FilterCons(s, p);
      SortByCons(Filter(s, p), less);
      InsertByHead(s[0], SortBy(rest, less), less);
      FirstLeastAlone(s, p, key);
      i := 0;
    } else {
      var k := SortByFilterHead(s[1..], p, less, key);
      i := SortByFilterKeep(s, p, less, key, k);
    }
  }

  /** Inserting `x` keeps the order of the elements whose key is `k`: `x` joins them in
      front exactly when its own key is `k`, since all it passes have a smaller key. */
  lemma {:induction false} InsertByKeyClass<T>(x: T, t: seq<T>, less: (T, T) -> bool, key: T -> int, p: T -> bool, k: int)
    requires forall a, b :: less(a, b) <==> key(a) < key(b)
    requires forall y :: p(y) <==> key(y) == k
    requires key(x) <= k
    ensures Filter(InsertBy(x, t, less), p) == (if p(x) then [x] else []) + Filter(t, p)
  {
    var r := InsertBy(x, t, less);
    if t == [] || !less(t[0], x) {
      assert r == [x] + t && r[0] == x && r[1..] == t;
      FilterCons(r, p);
    } else {
      InsertByKeyClass(x, t[1..], less, key, p, k);
      assert r[0] == t[0] && r[1..] == InsertBy(x, t[1..], less);
      FilterCons(r, p);
      FilterCons(t, p);
    }
  }

  /** `SortBy` is stable: the elements that share a key keep their relative order. */
  lemma {:induction false} SortByStable<T>(s: seq<T>, less: (T, T) -> bool, key: T -> int, p: T -> bool, k: int)
    requires forall a, b :: less(a, b) <==> key(a) < key(b)
    requires forall y :: p(y) <==> key(y) == k
    ensures Filter(SortBy(s, less), p) == Filter(s, p)
  {
    if s != [] {
      SortByStable(s[1..], less, key, p, k);
      SortByCons(s, less);
      FilterCons(s, p);
      var t := SortBy(s[1..], less);
      if key(s[0]) <= k {
        InsertByKeyClass(s[0], t, less, key, p, k);
      } else {
        InsertByKeyAbove(s[0], t, less, key, p, k);
      }
    }
  }

  /** Inserting an element whose key is above `k` leaves the elements of key `k` as they are. */
  lemma {:induction false} InsertByKeyAbove<T>(x: T, t: seq<T>, less: (T, T) -> bool, key: T -> int, p: T -> bool, k: int)
    requires forall y :: p(y) <==> key(y) == k
    requires key(x) > k
    ensures Filter(InsertBy(x, t, less), p) == Filter(t, p)
  {
    var r := InsertBy(x, t, less);
    if t == [] || !less(t[0], x) {
      assert r == [x] + t && r[0] == x && r[1..] == t;
      FilterCons(r, p);
    } else {
      InsertByKeyAbove(x, t[1..], less, key, p, k);
      assert r[0] == t[0] && r[1..] == InsertBy(x, t[1..], less);
      FilterCons(r, p);
      FilterCons(t, p);
    }
  }
}
