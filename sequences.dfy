/** Sequence helpers shared by the statistics, codec and report modules:
    filtering, summing, and the stable sort that both `Array.prototype.sort`
    call sites rely on (ascending by a real-valued key; ties keep input order). */
module Sequences {

  datatype Option<T> = None | Some(value: T)

  /** The elements of `s` satisfying `p`, in their original order
      (the `filter` of JavaScript arrays). */
  function Filter<T>(s: seq<T>, p: T -> bool): (r: seq<T>)
    ensures |r| <= |s|
  {
    if s == [] then [] else Filter(s[..|s| - 1], p) + (if p(s[|s| - 1]) then [s[|s| - 1]] else [])
  }

  /** An element is kept by the filter exactly when it occurs and satisfies `p`. */
  lemma {:induction false} FilterMembers<T>(s: seq<T>, p: T -> bool, x: T)
    ensures x in Filter(s, p) <==> x in s && p(x)
  {
    if s != [] {
      var s0 := s[..|s| - 1];
      FilterMembers(s0, p, x);
      assert s == s0 + [s[|s| - 1]];
    }
  }

  lemma {:induction false} FilterConcat<T>(a: seq<T>, b: seq<T>, p: T -> bool)
    ensures Filter(a + b, p) == Filter(a, p) + Filter(b, p)
    decreases |b|
  {
    if b == [] {
      assert a + b == a;
    } else {
      var b0 := b[..|b| - 1];
      assert (a + b)[..|a + b| - 1] == a + b0;
      FilterConcat(a, b0, p);
    }
  }

  /** Filtering twice with the same predicate changes nothing more. */
  lemma {:induction false} FilterIdempotent<T>(s: seq<T>, p: T -> bool)
    ensures Filter(Filter(s, p), p) == Filter(s, p)
  {
    if s != [] {
      var s0, x := s[..|s| - 1], s[|s| - 1];
      FilterIdempotent(s0, p);
      FilterConcat(Filter(s0, p), if p(x) then [x] else [], p);
      if p(x) {
        assert [x][..0] == [];
      }
    }
  }

  /** A filter that keeps every element is the identity. */
  lemma {:induction false} FilterAll<T>(s: seq<T>, p: T -> bool)
    requires forall i :: 0 <= i < |s| ==> p(s[i])
    ensures Filter(s, p) == s
  {
    if s != [] {
      FilterAll(s[..|s| - 1], p);
    }
  }

  /** Sum of `f` over the elements of `s`. */
  function SumBy<T>(s: seq<T>, f: T -> int): int
  {
    if s == [] then 0 else SumBy(s[..|s| - 1], f) + f(s[|s| - 1])
  }

  lemma {:induction false} SumByConcat<T>(a: seq<T>, b: seq<T>, f: T -> int)
    ensures SumBy(a + b, f) == SumBy(a, f) + SumBy(b, f)
    decreases |b|
  {
    if b == [] {
      assert a + b == a;
    } else {
      assert (a + b)[..|a + b| - 1] == a + b[..|b| - 1];
      SumByConcat(a, b[..|b| - 1], f);
    }
  }

  function Identity(x: int): int
  {
    x
  }

  /** A sum of positive numbers is positive unless there are none. */
  lemma {:induction false} SumPositive(s: seq<int>)
    requires forall i :: 0 <= i < |s| ==> s[i] > 0
    ensures SumBy(s, Identity) >= |s|
  {
    if s != [] {
      SumPositive(s[..|s| - 1]);
    }
  }

  /** `Math.max(...s, 0)`: the largest element, or 0 when there is none
      (or when every element is negative). */
  function MaxOf(s: seq<int>): (r: int)
    ensures 0 <= r
    ensures forall i :: 0 <= i < |s| ==> s[i] <= r
    ensures r == 0 || exists i :: 0 <= i < |s| && s[i] == r
  {
    if s == [] then 0
    else
      var m := MaxOf(s[..|s| - 1]);
      if s[|s| - 1] > m then s[|s| - 1] else m
  }

  lemma MaxOfAppend(s: seq<int>, x: int)
    ensures MaxOf(s + [x]) == if x > MaxOf(s) then x else MaxOf(s)
  {
    assert (s + [x])[..|s|] == s;
  }

  /** The first element, as JavaScript's `s[0]` reads it (None for undefined). */
  function Head<T>(s: seq<T>): (r: Option<T>)
    ensures r.None? <==> s == []
    ensures r.Some? ==> r.value == s[0]
  {
    if s == [] then None else Some(s[0])
  }

  /** Non-decreasing by `key`. */
  ghost predicate SortedBy<T>(s: seq<T>, key: T -> real)
  {
    forall i, j :: 0 <= i < j < |s| ==> key(s[i]) <= key(s[j])
  }

  /** No two elements share the same `f` value. */
  ghost predicate DistinctBy<T, U>(s: seq<T>, f: T -> U)
  {
    forall i, j :: 0 <= i < j < |s| ==> f(s[i]) != f(s[j])
  }

  /** Inserts `x` in front of the first element whose key is strictly larger,
      so that `x` lands after every element with an equal key. */
  function Insert<T>(s: seq<T>, x: T, key: T -> real): (r: seq<T>)
    ensures |r| == |s| + 1
  {
    if s == [] then [x]
    else if key(x) < key(s[0]) then [x] + s
    else [s[0]] + Insert(s[1..], x, key)
  }

  /** Whatever holds of every element of `s` and of `x` holds of every
      element of `Insert(s, x, key)`. */
  lemma {:induction false} InsertAll<T>(s: seq<T>, x: T, key: T -> real, P: T -> bool)
    requires forall i :: 0 <= i < |s| ==> P(s[i])
    requires P(x)
    ensures forall i :: 0 <= i < |Insert(s, x, key)| ==> P(Insert(s, x, key)[i])
  {
    if s != [] && key(x) >= key(s[0]) {
      InsertAll(s[1..], x, key, P);
      var it := Insert(s[1..], x, key);
      forall i | 0 <= i < |[s[0]] + it| ensures P(([s[0]] + it)[i]) {
        if i > 0 { assert ([s[0]] + it)[i] == it[i - 1]; }
      }
    } else if s != [] {
      forall i | 0 <= i < |[x] + s| ensures P(([x] + s)[i]) {
        if i > 0 { assert ([x] + s)[i] == s[i - 1]; }
      }
    }
  }

  lemma {:induction false} InsertMultiset<T>(s: seq<T>, x: T, key: T -> real)
    ensures multiset(Insert(s, x, key)) == multiset(s) + multiset{x}
  {
    if s != [] && key(x) >= key(s[0]) {
      InsertMultiset(s[1..], x, key);
      assert s == [s[0]] + s[1..];
    }
  }

  lemma {:induction false} InsertSorted<T>(s: seq<T>, x: T, key: T -> real)
    requires SortedBy(s, key)
    ensures SortedBy(Insert(s, x, key), key)
  {
    if s == [] {
    } else if key(x) < key(s[0]) {
      var r := [x] + s;
      forall i, j | 0 <= i < j < |r| ensures key(r[i]) <= key(r[j]) {
        if i > 0 { assert r[i] == s[i - 1] && r[j] == s[j - 1]; }
        else { assert r[j] == s[j - 1]; }
      }
    } else {
      var t := s[1..];
      InsertSorted(t, x, key);
      var b := key(s[0]);
      InsertAll(t, x, key, y => b <= key(y));
      var it := Insert(t, x, key);
      var r := [s[0]] + it;
      forall i, j | 0 <= i < j < |r| ensures key(r[i]) <= key(r[j]) {
        if i > 0 { assert r[i] == it[i - 1] && r[j] == it[j - 1]; }
        else { assert r[j] == it[j - 1]; }
      }
    }
  }

  /** The stable insertion sort: ascending by `key`, equal keys in input order. */
  function SortBy<T>(s: seq<T>, key: T -> real): (r: seq<T>)
    ensures |r| == |s|
  {
    if s == [] then [] else Insert(SortBy(s[..|s| - 1], key), s[|s| - 1], key)
  }

  lemma {:induction false} SortBySorted<T>(s: seq<T>, key: T -> real)
    ensures SortedBy(SortBy(s, key), key)
  {
    if s != [] {
      SortBySorted(s[..|s| - 1], key);
      InsertSorted(SortBy(s[..|s| - 1], key), s[|s| - 1], key);
    }
  }

  /** The sort is a permutation. */
  lemma {:induction false} SortByMultiset<T>(s: seq<T>, key: T -> real)
    ensures multiset(SortBy(s, key)) == multiset(s)
  {
    if s != [] {
      SortByMultiset(s[..|s| - 1], key);
      InsertMultiset(SortBy(s[..|s| - 1], key), s[|s| - 1], key);
      assert s == s[..|s| - 1] + [s[|s| - 1]];
    }
  }

  /** Every input element has a place in the sorted sequence. */
  lemma SortByHas<T>(s: seq<T>, key: T -> real, i: nat) returns (j: nat)
    requires i < |s|
    ensures j < |SortBy(s, key)| && SortBy(s, key)[j] == s[i]
  {
    SortByMultiset(s, key);
    assert s[i] in multiset(SortBy(s, key));
    j :| 0 <= j < |SortBy(s, key)| && SortBy(s, key)[j] == s[i];
  }

  /** Whatever holds of every input element holds of every sorted element. */
  lemma {:induction false} SortByAll<T>(s: seq<T>, key: T -> real, P: T -> bool)
    requires forall i :: 0 <= i < |s| ==> P(s[i])
    ensures forall i :: 0 <= i < |SortBy(s, key)| ==> P(SortBy(s, key)[i])
  {
    if s != [] {
      SortByAll(s[..|s| - 1], key, P);
      InsertAll(SortBy(s[..|s| - 1], key), s[|s| - 1], key, P);
    }
  }

  /** The elements of `s` whose key is exactly `k`, in order. */
  function KeyClass<T>(s: seq<T>, key: T -> real, k: real): seq<T>
  {
    if s == [] then []
    else KeyClass(s[..|s| - 1], key, k) + (if key(s[|s| - 1]) == k then [s[|s| - 1]] else [])
  }

  lemma {:induction false} KeyClassConcat<T>(a: seq<T>, b: seq<T>, key: T -> real, k: real)
    ensures KeyClass(a + b, key, k) == KeyClass(a, key, k) + KeyClass(b, key, k)
    decreases |b|
  {
    if b == [] {
      assert a + b == a;
    } else {
      assert (a + b)[..|a + b| - 1] == a + b[..|b| - 1];
      KeyClassConcat(a, b[..|b| - 1], key, k);
    }
  }

  lemma {:induction false} KeyClassAbsent<T>(s: seq<T>, key: T -> real, k: real)
    requires forall i :: 0 <= i < |s| ==> key(s[i]) != k
    ensures KeyClass(s, key, k) == []
  {
    if s != [] {
      KeyClassAbsent(s[..|s| - 1], key, k);
    }
  }

  lemma SortedTail<T>(s: seq<T>, key: T -> real)
    requires s != [] && SortedBy(s, key)
    ensures SortedBy(s[1..], key)
    ensures forall i :: 0 <= i < |s| ==> key(s[0]) <= key(s[i])
  {
    var t := s[1..];
    forall i, j | 0 <= i < j < |t| ensures key(t[i]) <= key(t[j]) {
      assert t[i] == s[i + 1] && t[j] == s[j + 1];
    }
  }

  lemma KeyClassSingle<T>(x: T, key: T -> real, k: real)
    ensures KeyClass([x], key, k) == if key(x) == k then [x] else []
  {
    assert [x][..0] == [];
  }

  lemma {:induction false} InsertStable<T>(s: seq<T>, x: T, key: T -> real, k: real)
    requires SortedBy(s, key)
    ensures KeyClass(Insert(s, x, key), key, k)
         == KeyClass(s, key, k) + (if key(x) == k then [x] else [])
  {
    if s == [] {
      KeyClassSingle(x, key, k);
    } else if key(x) < key(s[0]) {
      InsertStableFront(s, x, key, k);
    } else {
      SortedTail(s, key);
      InsertStable(s[1..], x, key, k);
      InsertStablePast(s, x, key, k);
    }
  }

  lemma InsertStableFront<T>(s: seq<T>, x: T, key: T -> real, k: real)
    requires s != [] && SortedBy(s, key) && key(x) < key(s[0])
    ensures KeyClass(Insert(s, x, key), key, k)
         == KeyClass(s, key, k) + (if key(x) == k then [x] else [])
  {
    assert Insert(s, x, key) == [x] + s;
    KeyClassConcat([x], s, key, k);
    KeyClassSingle(x, key, k);
    if key(x) == k {
      SortedTail(s, key);
      KeyClassAbsent(s, key, k);
    }
  }

  lemma InsertStablePast<T>(s: seq<T>, x: T, key: T -> real, k: real)
    requires s != [] && key(x) >= key(s[0])
    requires KeyClass(Insert(s[1..], x, key), key, k)
          == KeyClass(s[1..], key, k) + (if key(x) == k then [x] else [])
    ensures KeyClass(Insert(s, x, key), key, k)
         == KeyClass(s, key, k) + (if key(x) == k then [x] else [])
  {
    var s0, t := s[0], s[1..];
    var it := Insert(t, x, key);
    assert Insert(s, x, key) == [s0] + it;
    assert s == [s0] + t;
    KeyClassConcat([s0], it, key, k);
    KeyClassConcat([s0], t, key, k);
  }

  /** Stability: for every key value, the elements carrying it keep their
      relative order through the sort. */
  lemma {:induction false} SortByStable<T>(s: seq<T>, key: T -> real, k: real)
    ensures KeyClass(SortBy(s, key), key, k) == KeyClass(s, key, k)
  {
    if s != [] {
      var s0 := s[..|s| - 1];
      SortByStable(s0, key, k);
      SortBySorted(s0, key);
      InsertStable(SortBy(s0, key), s[|s| - 1], key, k);
    }
  }

  lemma {:induction false} InsertAtEnd<T>(s: seq<T>, x: T, key: T -> real)
    requires forall i :: 0 <= i < |s| ==> key(s[i]) <= key(x)
    ensures Insert(s, x, key) == s + [x]
  {
    if s != [] {
      InsertAtEnd(s[1..], x, key);
      assert [s[0]] + (s[1..] + [x]) == s + [x];
    }
  }

  /** Sorting an already sorted sequence changes nothing. */
  lemma {:induction false} SortBySortedIdentity<T>(s: seq<T>, key: T -> real)
    requires SortedBy(s, key)
    ensures SortBy(s, key) == s
  {
    if s != [] {
      var s0 := s[..|s| - 1];
      SortBySortedIdentity(s0, key);
      InsertAtEnd(s0, s[|s| - 1], key);
      assert s0 + [s[|s| - 1]] == s;
    }
  }

  /** The head of the sorted sequence is the first element of the input that
      has the least key: every element has a key at least as large, and every
      earlier element a strictly larger one. */
  lemma {:induction false} SortByHead<T>(s: seq<T>, key: T -> real) returns (j: nat)
    requires s != []
    ensures j < |s| && SortBy(s, key)[0] == s[j]
    ensures forall i :: 0 <= i < |s| ==> key(s[j]) <= key(s[i])
    ensures forall i :: 0 <= i < j ==> key(s[j]) < key(s[i])
  {
    var s0, x := s[..|s| - 1], s[|s| - 1];
    if s0 == [] {
      j := 0;
    } else {
      var j0 := SortByHead(s0, key);
      var r0 := SortBy(s0, key);
      assert SortBy(s, key) == Insert(r0, x, key);
      assert forall i :: 0 <= i < |s0| ==> s[i] == s0[i];
      if key(x) < key(r0[0]) {
        assert Insert(r0, x, key)[0] == x;
        j := |s| - 1;
      } else {
        assert Insert(r0, x, key)[0] == r0[0];
        j := j0;
      }
    }
  }

  /** Whatever holds of every element of `s` holds of every element kept by a filter. */
  lemma {:induction false} FilterAllSatisfy<T>(s: seq<T>, p: T -> bool, P: T -> bool)
    requires forall i :: 0 <= i < |s| ==> P(s[i])
    ensures forall i :: 0 <= i < |Filter(s, p)| ==> P(Filter(s, p)[i])
  {
    if s != [] {
      FilterAllSatisfy(s[..|s| - 1], p, P);
    }
  }

  lemma FilterSingle<T>(x: T, p: T -> bool)
    ensures Filter([x], p) == if p(x) then [x] else []
  {
    assert [x][..0] == [];
  }

  lemma FilterInsertFront<T>(s: seq<T>, x: T, key: T -> real, p: T -> bool)
    requires s != [] && SortedBy(s, key) && key(x) < key(s[0])
    ensures Filter([x] + s, p) == if p(x) then Insert(Filter(s, p), x, key) else Filter(s, p)
  {
    FilterConcat([x], s, p);
    FilterSingle(x, p);
    var f := Filter(s, p);
    assert Filter([x] + s, p) == Filter([x], p) + f;
    if p(x) {
      if f == [] {
        assert Insert(f, x, key) == [x];
      } else {
        var b := key(x);
        SortedTail(s, key);
        FilterAllSatisfy(s, p, y => b < key(y));
        assert key(x) < key(f[0]);
        assert Insert(f, x, key) == [x] + f;
      }
    } else {
      assert Filter([x], p) + f == f;
    }
  }

  lemma {:induction false} FilterInsert<T>(s: seq<T>, x: T, key: T -> real, p: T -> bool)
    requires SortedBy(s, key)
    ensures Filter(Insert(s, x, key), p)
         == if p(x) then Insert(Filter(s, p), x, key) else Filter(s, p)
  {
    if s == [] {
      FilterSingle(x, p);
    } else if key(x) < key(s[0]) {
      assert Insert(s, x, key) == [x] + s;
      FilterInsertFront(s, x, key, p);
    } else {
      SortedTail(s, key);
      FilterInsert(s[1..], x, key, p);
      FilterInsertPast(s, x, key, p);
    }
  }

  lemma FilterInsertPast<T>(s: seq<T>, x: T, key: T -> real, p: T -> bool)
    requires s != [] && key(x) >= key(s[0])
    requires Filter(Insert(s[1..], x, key), p)
          == if p(x) then Insert(Filter(s[1..], p), x, key) else Filter(s[1..], p)
    ensures Filter(Insert(s, x, key), p)
         == if p(x) then Insert(Filter(s, p), x, key) else Filter(s, p)
  {
    var s0, t := s[0], s[1..];
    var it := Insert(t, x, key);
    var f, h := Filter(t, p), Filter([s0], p);
    assert Insert(s, x, key) == [s0] + it;
    assert s == [s0] + t;
    FilterConcat([s0], it, p);
    FilterConcat([s0], t, p);
    FilterSingle(s0, p);
    assert Filter(Insert(s, x, key), p) == h + Filter(it, p);
    assert Filter(s, p) == h + f;
    if p(x) && p(s0) {
      InsertPastHead(s0, f, x, key);
      assert h + Filter(it, p) == [s0] + Insert(f, x, key);
    } else if p(x) {
      assert h + Filter(it, p) == Insert(f, x, key);
      assert h + f == f;
    }
  }

  lemma InsertPastHead<T>(y: T, f: seq<T>, x: T, key: T -> real)
    requires key(x) >= key(y)
    ensures Insert([y] + f, x, key) == [y] + Insert(f, x, key)
  {
    var g := [y] + f;
    assert g[0] == y && g[1..] == f;
  }

  /** Filtering and stable sorting commute: filtering a sorted sequence gives
      the same as sorting the filtered one. */
  lemma {:induction false} SortByFilter<T>(s: seq<T>, key: T -> real, p: T -> bool)
    ensures Filter(SortBy(s, key), p) == SortBy(Filter(s, p), key)
  {
    if s != [] {
      var s0, x := s[..|s| - 1], s[|s| - 1];
      SortByFilter(s0, key, p);
      SortBySorted(s0, key);
      FilterInsert(SortBy(s0, key), x, key, p);
      assert SortBy(s, key) == Insert(SortBy(s0, key), x, key);
      assert Filter(s, p) == Filter(s0, p) + (if p(x) then [x] else []);
      if p(x) {
        var f := Filter(s0, p) + [x];
        assert f[..|f| - 1] == Filter(s0, p);
        assert SortBy(f, key) == Insert(SortBy(Filter(s0, p), key), x, key);
      } else {
        assert Filter(s, p) == Filter(s0, p);
      }
    }
  }

  lemma {:induction false} InsertSum<T>(s: seq<T>, x: T, key: T -> real, f: T -> int)
    ensures SumBy(Insert(s, x, key), f) == SumBy(s, f) + f(x)
  {
    if s == [] {
      assert [x][..0] == [];
    } else if key(x) < key(s[0]) {
      SumByConcat([x], s, f);
      assert [x][..0] == [];
    } else {
      InsertSum(s[1..], x, key, f);
      SumByConcat([s[0]], Insert(s[1..], x, key), f);
      SumByConcat([s[0]], s[1..], f);
      assert [s[0]] + s[1..] == s;
    }
  }

  /** Sorting keeps the sum of any per-element quantity. */
  lemma {:induction false} SortBySum<T>(s: seq<T>, key: T -> real, f: T -> int)
    ensures SumBy(SortBy(s, key), f) == SumBy(s, f)
  {
    if s != [] {
      SortBySum(s[..|s| - 1], key, f);
      InsertSum(SortBy(s[..|s| - 1], key), s[|s| - 1], key, f);
    }
  }

  lemma {:induction false} InsertDistinct<T, U>(s: seq<T>, x: T, key: T -> real, f: T -> U)
    requires DistinctBy(s, f)
    requires forall i :: 0 <= i < |s| ==> f(s[i]) != f(x)
    ensures DistinctBy(Insert(s, x, key), f)
  {
    if s == [] {
    } else if key(x) < key(s[0]) {
      var r := [x] + s;
      forall i, j | 0 <= i < j < |r| ensures f(r[i]) != f(r[j]) {
        if i > 0 { assert r[i] == s[i - 1] && r[j] == s[j - 1]; }
        else { assert r[j] == s[j - 1]; }
      }
    } else {
      var t := s[1..];
      InsertDistinct(t, x, key, f);
      var v := f(s[0]);
      InsertAll(t, x, key, y => f(y) != v);
      var it := Insert(t, x, key);
      var r := [s[0]] + it;
      forall i, j | 0 <= i < j < |r| ensures f(r[i]) != f(r[j]) {
        if i > 0 { assert r[i] == it[i - 1] && r[j] == it[j - 1]; }
        else { assert r[j] == it[j - 1]; }
      }
    }
  }

  /** Sorting keeps a projection injective. */
  lemma {:induction false} SortByDistinct<T, U>(s: seq<T>, key: T -> real, f: T -> U)
    requires DistinctBy(s, f)
    ensures DistinctBy(SortBy(s, key), f)
  {
    if s != [] {
      var s0, x := s[..|s| - 1], s[|s| - 1];
      SortByDistinct(s0, key, f);
      var v := f(x);
      SortByAll(s0, key, y => f(y) != v);
      InsertDistinct(SortBy(s0, key), x, key, f);
    }
  }

  /** `f` applied to every element (the `map` of JavaScript arrays). */
  function Map<T, U>(s: seq<T>, f: T -> U): (r: seq<U>)
    ensures |r| == |s|
  {
    seq(|s|, i requires 0 <= i < |s| => f(s[i]))
  }

  /** Filtering after a map is mapping after filtering by the composed test. */
  lemma {:induction false} FilterMap<T, U>(s: seq<T>, f: T -> U, p: U -> bool, q: T -> bool)
    requires forall x :: q(x) == p(f(x))
    ensures Filter(Map(s, f), p) == Map(Filter(s, q), f)
  {
    if s != [] {
      var s0, x := s[..|s| - 1], s[|s| - 1];
      FilterMap(s0, f, p, q);
      assert Map(s, f)[..|s| - 1] == Map(s0, f);
      var kept := Filter(s0, q);
      if q(x) {
        assert Map(kept + [x], f) == Map(kept, f) + [f(x)];
      }
    }
  }

  /** Inserting after a map is mapping after inserting by the composed key. */
  lemma {:induction false} InsertMap<T, U>(s: seq<T>, x: T, f: T -> U, key: U -> real, k: T -> real)
    requires forall y :: k(y) == key(f(y))
    ensures Insert(Map(s, f), f(x), key) == Map(Insert(s, x, k), f)
  {
    if s != [] {
      InsertMap(s[1..], x, f, key, k);
      InsertMapStep(s, x, f, key, k);
    }
  }

  lemma InsertMapStep<T, U>(s: seq<T>, x: T, f: T -> U, key: U -> real, k: T -> real)
    requires forall y :: k(y) == key(f(y))
    requires s != []
    requires Insert(Map(s[1..], f), f(x), key) == Map(Insert(s[1..], x, k), f)
    ensures Insert(Map(s, f), f(x), key) == Map(Insert(s, x, k), f)
  {
    var m := Map(s, f);
    assert m[0] == f(s[0]) && m[1..] == Map(s[1..], f);
    if k(x) < k(s[0]) {
      InsertMapFront(s, x, f, key, k);
    } else {
      InsertMapPast(s, x, f, key, k);
    }
  }

  lemma InsertMapFront<T, U>(s: seq<T>, x: T, f: T -> U, key: U -> real, k: T -> real)
    requires s != [] && k(x) < k(s[0]) && key(f(x)) < key(f(s[0]))
    ensures Insert(Map(s, f), f(x), key) == Map(Insert(s, x, k), f)
  {
    var m := Map(s, f);
    assert m[0] == f(s[0]);
    assert Insert(s, x, k) == [x] + s;
    assert Insert(m, f(x), key) == [f(x)] + m;
    assert Map([x] + s, f) == [f(x)] + m;
  }

  lemma InsertMapPast<T, U>(s: seq<T>, x: T, f: T -> U, key: U -> real, k: T -> real)
    requires s != [] && !(k(x) < k(s[0])) && !(key(f(x)) < key(f(s[0])))
    requires Insert(Map(s[1..], f), f(x), key) == Map(Insert(s[1..], x, k), f)
    ensures Insert(Map(s, f), f(x), key) == Map(Insert(s, x, k), f)
  {
    var m := Map(s, f);
    assert m[0] == f(s[0]) && m[1..] == Map(s[1..], f);
    var rest := Insert(s[1..], x, k);
    assert Insert(s, x, k) == [s[0]] + rest;
    assert Insert(m, f(x), key) == [f(s[0])] + Insert(Map(s[1..], f), f(x), key);
    assert Map([s[0]] + rest, f) == [f(s[0])] + Map(rest, f);
  }

  /** Sorting after a map is mapping after sorting by the composed key. */
  lemma {:induction false} SortByMap<T, U>(s: seq<T>, f: T -> U, key: U -> real, k: T -> real)
    requires forall y :: k(y) == key(f(y))
    ensures SortBy(Map(s, f), key) == Map(SortBy(s, k), f)
  {
    if s != [] {
      var s0 := s[..|s| - 1];
      SortByMap(s0, f, key, k);
      assert Map(s, f)[..|s| - 1] == Map(s0, f);
      InsertMap(SortBy(s0, k), s[|s| - 1], f, key, k);
    }
  }

  /** The pieces of `s` written one after another (a string built by `+=`). */
  function Concat<T>(s: seq<seq<T>>): seq<T>
  {
    if s == [] then [] else Concat(s[..|s| - 1]) + s[|s| - 1]
  }

  lemma ConcatSnoc<T>(s: seq<seq<T>>, p: seq<T>)
    ensures Concat(s + [p]) == Concat(s) + p
  {
    assert (s + [p])[..|s|] == s;
  }

  /** Concatenation distributes over joining the lists of pieces. */
  lemma {:induction false} ConcatAppend<T>(a: seq<seq<T>>, b: seq<seq<T>>)
    ensures Concat(a + b) == Concat(a) + Concat(b)
    decreases |b|
  {
    if b == [] {
      assert a + b == a;
    } else {
      var b0 := b[..|b| - 1];
      assert a + b == (a + b0) + [b[|b| - 1]];
      ConcatAppend(a, b0);
      ConcatSnoc(a + b0, b[|b| - 1]);
    }
  }
}
