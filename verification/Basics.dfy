/** Small shared vocabulary: options, stable sorting, and filtering by a set. */
module Basics {

  datatype Option<+T> = None | Some(value: T)

  function Min(a: int, b: int): int { if a <= b then a else b }

  function Max(a: int, b: int): int { if a >= b then a else b }

  function Sum(xs: seq<nat>): nat {
    if xs == [] then 0 else Sum(xs[..|xs| - 1]) + xs[|xs| - 1]
  }

  // ---- stable sorting: Python's sorted() ----

  ghost predicate TotalOrder<T(!new)>(le: (T, T) -> bool) {
    && (forall a, b :: le(a, b) || le(b, a))
    && (forall a, b, c :: le(a, b) && le(b, c) ==> le(a, c))
  }

  ghost predicate Antisymmetric<T(!new)>(le: (T, T) -> bool) {
    forall a, b :: le(a, b) && le(b, a) ==> a == b
  }

  ghost predicate Sorted<T>(xs: seq<T>, le: (T, T) -> bool) {
    forall i, j :: 0 <= i < j < |xs| ==> le(xs[i], xs[j])
  }

  function Insert<T>(x: T, ys: seq<T>, le: (T, T) -> bool): seq<T> {
    if ys == [] || le(x, ys[0]) then [x] + ys else [ys[0]] + Insert(x, ys[1..], le)
  }

  function SortBy<T>(xs: seq<T>, le: (T, T) -> bool): (ys: seq<T>)
    ensures |ys| == |xs|
    ensures multiset(ys) == multiset(xs)
  {
    if xs == [] then [] else
      assert xs == [xs[0]] + xs[1..];
      InsertPermutes(xs[0], SortBy(xs[1..], le), le);
      Insert(xs[0], SortBy(xs[1..], le), le)
  }

  lemma {:induction false} InsertPermutes<T>(x: T, ys: seq<T>, le: (T, T) -> bool)
    ensures multiset(Insert(x, ys, le)) == multiset{x} + multiset(ys)
    ensures |Insert(x, ys, le)| == |ys| + 1
  {
    if ys == [] || le(x, ys[0]) {
    } else {
      assert ys == [ys[0]] + ys[1..];
      InsertPermutes(x, ys[1..], le);
    }
  }

  lemma {:induction false} InsertSorted<T(!new)>(x: T, ys: seq<T>, le: (T, T) -> bool)
    requires TotalOrder(le) && Sorted(ys, le)
    ensures Sorted(Insert(x, ys, le), le)
  {
    if ys == [] || le(x, ys[0]) {
      forall j | 0 <= j < |ys| ensures le(x, ys[j]) {
        if j > 0 { assert le(ys[0], ys[j]); }
      }
    } else {
      InsertSorted(x, ys[1..], le);
      var rest := Insert(x, ys[1..], le);
      InsertPermutes(x, ys[1..], le);
      forall j | 0 <= j < |rest| ensures le(ys[0], rest[j]) {
        assert rest[j] in multiset(rest);
        if rest[j] != x {
          assert rest[j] in multiset(ys[1..]);
          var k :| 0 <= k < |ys[1..]| && ys[1..][k] == rest[j];
          assert ys[k + 1] == rest[j];
        }
      }
    }
  }

  lemma {:induction false} SortBySorts<T(!new)>(xs: seq<T>, le: (T, T) -> bool)
    requires TotalOrder(le)
    ensures Sorted(SortBy(xs, le), le)
  {
    if xs != [] {
      SortBySorts(xs[1..], le);
      InsertSorted(xs[0], SortBy(xs[1..], le), le);
    }
  }

  lemma {:induction false} HeadIsLeast<T(!new)>(xs: seq<T>, x: T, le: (T, T) -> bool)
    requires TotalOrder(le) && Sorted(xs, le) && x in xs
    ensures le(xs[0], x)
  {
    var i :| 0 <= i < |xs| && xs[i] == x;
    if i == 0 { assert le(x, x); }
  }

  /** Two sorted arrangements of the same elements are the same sequence. */
  lemma {:induction false} SortedUnique<T(!new)>(xs: seq<T>, ys: seq<T>, le: (T, T) -> bool)
    requires TotalOrder(le) && Antisymmetric(le)
    requires Sorted(xs, le) && Sorted(ys, le) && multiset(xs) == multiset(ys)
    ensures xs == ys
  {
    assert |xs| == |multiset(xs)| == |multiset(ys)| == |ys|;
    if xs != [] {
      assert xs[0] in multiset(ys);
      assert ys[0] in multiset(xs);
      HeadIsLeast(xs, ys[0], le);
      HeadIsLeast(ys, xs[0], le);
      assert xs == [xs[0]] + xs[1..] && ys == [ys[0]] + ys[1..];
      assert multiset(xs[1..]) == multiset(xs) - multiset{xs[0]};
      assert multiset(ys[1..]) == multiset(ys) - multiset{xs[0]};
      SortedUnique(xs[1..], ys[1..], le);
    }
  }

  /** Membership, read off a multiset equality. */
  lemma {:induction false} SameMembers<T(!new)>(xs: seq<T>, ys: seq<T>)
    requires multiset(xs) == multiset(ys)
    ensures forall x :: x in xs <==> x in ys
  {
    forall x ensures x in xs <==> x in ys {
      assert x in xs <==> x in multiset(xs);
      assert x in ys <==> x in multiset(ys);
    }
  }

  // ---- ranges ----

  predicate Between(lo: nat, j: nat, hi: nat) { lo <= j < hi }

  function Range(lo: nat, hi: nat): set<nat> { set j: nat | j < hi && Between(lo, j, hi) }

  lemma {:induction false} RangeSize(lo: nat, hi: nat)
    requires lo <= hi
    ensures |Range(lo, hi)| == hi - lo
    decreases hi - lo
  {
    if lo < hi {
      RangeSize(lo, hi - 1);
      assert Range(lo, hi) == Range(lo, hi - 1) + {hi - 1};
    } else {
      assert Range(lo, hi) == {};
    }
  }

  lemma {:induction false} TakeAll<T>(xs: seq<T>)
    ensures xs[..|xs|] == xs
  {
  }

  ghost predicate Distinct<T>(xs: seq<T>) {
    forall i, j :: 0 <= i < j < |xs| ==> xs[i] != xs[j]
  }

  lemma {:induction false} DistinctCounts<T>(xs: seq<T>)
    ensures Distinct(xs) <==> forall x :: x in xs ==> multiset(xs)[x] == 1
  {
    if xs != [] {
      var init, last := xs[..|xs| - 1], xs[|xs| - 1];
      assert xs == init + [last];
      DistinctCounts(init);
      if Distinct(xs) {
        assert last !in init;
        forall x | x in xs ensures multiset(xs)[x] == 1 {
          if x == last { assert last !in multiset(init); }
        }
      } else if last in init {
        assert last in multiset(init);
        assert multiset(xs)[last] > 1;
      } else {
        var x :| x in init && multiset(init)[x] != 1;
        assert x in xs && multiset(xs)[x] != 1;
      }
    }
  }

  /** At no two places. */
  ghost predicate AtMostOnce<T>(xs: seq<T>, x: T) {
    forall i, j :: 0 <= i < j < |xs| ==> !(xs[i] == x == xs[j])
  }

  lemma {:induction false} DistinctIsOnce<T>(xs: seq<T>, x: T)
    requires Distinct(xs)
    ensures AtMostOnce(xs, x)
  {
  }

  lemma {:induction false} OnceConcat<T>(xs: seq<T>, ys: seq<T>, x: T)
    requires AtMostOnce(xs, x) && AtMostOnce(ys, x) && !(x in xs && x in ys)
    ensures AtMostOnce(xs + ys, x)
  {
    forall i, j | 0 <= i < j < |xs + ys| ensures !((xs + ys)[i] == x == (xs + ys)[j]) {
      if i < |xs| <= j { assert xs[i] in xs && ys[j - |xs|] in ys; }
    }
  }

  lemma {:induction false} CountsTwice<T>(xs: seq<T>, k: nat, l: nat)
    requires k < l < |xs| && xs[k] == xs[l]
    ensures multiset(xs)[xs[k]] >= 2
  {
    assert xs == xs[..l] + [xs[l]] + xs[l + 1..];
    assert xs[..l][k] in multiset(xs[..l]);
  }

  lemma {:induction false} OtherPlace<T>(ys: seq<T>, i: nat) returns (j: nat)
    requires i < |ys| && multiset(ys)[ys[i]] >= 2
    ensures j < |ys| && j != i && ys[j] == ys[i]
  {
    var rest := ys[..i] + ys[i + 1..];
    assert ys == ys[..i] + [ys[i]] + ys[i + 1..];
    assert ys[i] in multiset(rest);
    var r :| 0 <= r < |rest| && rest[r] == ys[i];
    j := if r < i then r else r + 1;
  }

  /** Equal elements at two places of a sequence are at two places of any permutation. */
  lemma {:induction false} TwoPlaces<T>(xs: seq<T>, ys: seq<T>, k: nat, l: nat) returns (i: nat, j: nat)
    requires multiset(xs) == multiset(ys) && k < l < |xs| && xs[k] == xs[l]
    ensures i < j < |ys| && ys[i] == ys[j] == xs[k]
  {
    CountsTwice(xs, k, l);
    assert xs[k] in multiset(ys);
    i :| 0 <= i < |ys| && ys[i] == xs[k];
    j := OtherPlace(ys, i);
    if j < i { i, j := j, i; }
  }

  lemma {:induction false} DistinctConcat<T(!new)>(xs: seq<T>, ys: seq<T>)
    requires Distinct(xs) && Distinct(ys) && forall x :: x in xs ==> x !in ys
    ensures Distinct(xs + ys)
  {
    forall i, j | 0 <= i < j < |xs + ys| ensures (xs + ys)[i] != (xs + ys)[j] {
      if i < |xs| <= j { assert xs[i] in xs && ys[j - |xs|] in ys; }
    }
  }

  lemma {:induction false} DistinctPermutes<T>(xs: seq<T>, ys: seq<T>)
    requires multiset(xs) == multiset(ys) && Distinct(xs)
    ensures Distinct(ys)
  {
    DistinctCounts(xs);
    DistinctCounts(ys);
    forall x | x in ys ensures multiset(ys)[x] == 1 {
      assert x in multiset(ys);
      assert x in multiset(xs);
    }
  }

  // ---- filtering by a set ----

  /** The elements of xs that lie in s, in order. */
  function Pick<T(==, !new)>(xs: seq<T>, s: set<T>): (r: seq<T>)
    ensures forall x :: x in r <==> x in xs && x in s
  {
    if xs == [] then [] else
      var last := xs[|xs| - 1];
      Pick(xs[..|xs| - 1], s) + if last in s then [last] else []
  }

  lemma {:induction false} PickCounts<T(!new)>(xs: seq<T>, s: set<T>, x: T)
    ensures multiset(Pick(xs, s))[x] == if x in s then multiset(xs)[x] else 0
  {
    if xs != [] {
      var init, last := xs[..|xs| - 1], xs[|xs| - 1];
      assert xs == init + [last];
      PickCounts(init, s, x);
    }
  }

  lemma {:induction false} PickMultiset<T(!new)>(xs: seq<T>, ys: seq<T>, s: set<T>)
    requires multiset(xs) == multiset(ys)
    ensures multiset(Pick(xs, s)) == multiset(Pick(ys, s))
  {
    forall x ensures multiset(Pick(xs, s))[x] == multiset(Pick(ys, s))[x] {
      PickCounts(xs, s, x);
      PickCounts(ys, s, x);
    }
  }

  lemma {:induction false} PickSorted<T(!new)>(xs: seq<T>, s: set<T>, le: (T, T) -> bool)
    requires Sorted(xs, le)
    ensures Sorted(Pick(xs, s), le)
  {
    if xs != [] {
      var init, last := xs[..|xs| - 1], xs[|xs| - 1];
      PickSorted(init, s, le);
      var r := Pick(init, s);
      forall i | 0 <= i < |r| ensures le(r[i], last) {
        assert r[i] in init;
        var k :| 0 <= k < |init| && init[k] == r[i];
        assert xs[k] == init[k];
      }
    }
  }

  /** Picking after sorting is sorting after picking. */
  lemma {:induction false} PickOfSort<T(!new)>(xs: seq<T>, s: set<T>, le: (T, T) -> bool)
    requires TotalOrder(le) && Antisymmetric(le)
    ensures Pick(SortBy(xs, le), s) == SortBy(Pick(xs, s), le)
  {
    SortBySorts(xs, le);
    PickSorted(SortBy(xs, le), s, le);
    SortBySorts(Pick(xs, s), le);
    PickMultiset(SortBy(xs, le), xs, s);
    SortedUnique(Pick(SortBy(xs, le), s), SortBy(Pick(xs, s), le), le);
  }

  lemma {:induction false} PickPick<T(!new)>(xs: seq<T>, s: set<T>, t: set<T>)
    ensures Pick(Pick(xs, s), t) == Pick(xs, s * t)
  {
    if xs != [] {
      var init, last := xs[..|xs| - 1], xs[|xs| - 1];
      PickPick(init, s, t);
      if last in s {
        assert (Pick(init, s) + [last])[..|Pick(init, s)|] == Pick(init, s);
      } else {
        assert Pick(init, s) + [] == Pick(init, s);
        assert Pick(init, s * t) + [] == Pick(init, s * t);
      }
    }
  }

  // ---- dictionaries of lists, in insertion order ----

  datatype Buckets<!K(==, !new), V> = Buckets(keys: seq<K>, items: map<K, seq<V>>) {
    ghost predicate Valid() {
      Distinct(keys) && forall k :: k in keys <==> k in items
    }

    /** setdefault(k, []).append(v). */
    function Add(k: K, v: V): (b: Buckets<K, V>)
      requires Valid()
      ensures b.Valid()
    {
      if k in items then Buckets(keys, items[k := items[k] + [v]])
      else Buckets(keys + [k], items[k := [v]])
    }
  }
}
