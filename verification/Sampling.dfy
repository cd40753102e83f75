/** A fair sample of a plan: round-robin over (rule, extension) buckets, biggest bucket first. */
module Sampling {
  import opened Basics

  datatype Bucket = Bucket(rule: string, extension: string)

  datatype Item = Item(path: string, bucket: Bucket)

  /** The items of one bucket, in order. */
  function Of(items: seq<Item>, k: Bucket): seq<Item> {
    if items == [] then []
    else
      var n := |items| - 1;
      Of(items[..n], k) + if items[n].bucket == k then [items[n]] else []
  }

  lemma {:induction false} OfSnoc(items: seq<Item>, x: Item, k: Bucket)
    ensures Of(items + [x], k) == Of(items, k) + if x.bucket == k then [x] else []
  {
    assert (items + [x])[..|items|] == items;
  }

  lemma {:induction false} OfCounts(items: seq<Item>, x: Item)
    ensures multiset(Of(items, x.bucket))[x] == multiset(items)[x]
  {
    if items != [] {
      var n := |items| - 1;
      assert items == items[..n] + [items[n]];
      OfCounts(items[..n], x);
    }
  }

  lemma {:induction false} OfOnly(items: seq<Item>, k: Bucket)
    ensures forall x :: x in Of(items, k) ==> x.bucket == k
  {
    if items != [] { OfOnly(items[..|items| - 1], k); }
  }

  lemma {:induction false} PrefixCounts(some: seq<Item>, all: seq<Item>, x: Item)
    requires some <= all
    ensures multiset(some)[x] <= multiset(all)[x]
  {
    assert all == some + all[|some|..];
  }

  lemma {:induction false} CountWithin(picked: seq<Item>, items: seq<Item>, x: Item)
    requires Of(picked, x.bucket) <= Of(items, x.bucket)
    ensures multiset(picked)[x] <= multiset(items)[x]
  {
    OfCounts(picked, x);
    OfCounts(items, x);
    PrefixCounts(Of(picked, x.bucket), Of(items, x.bucket), x);
  }

  /** Taking a prefix of every bucket never takes an item more often than it is there. */
  lemma {:induction false} PrefixesAreWithin(picked: seq<Item>, items: seq<Item>)
    requires forall k :: Of(picked, k) <= Of(items, k)
    ensures multiset(picked) <= multiset(items) && |picked| <= |items|
  {
    forall x ensures multiset(picked)[x] <= multiset(items)[x] { CountWithin(picked, items, x); }
    WithinIsShorter(picked, items);
  }

  lemma {:induction false} WithinIsShorter(picked: seq<Item>, items: seq<Item>)
    requires multiset(picked) <= multiset(items)
    ensures |picked| <= |items|
  {
    var rest := multiset(items) - multiset(picked);
    assert multiset(items) == multiset(picked) + rest;
    assert |multiset(items)| == |items| && |multiset(picked)| == |picked|;
  }

  lemma {:induction false} AllIsAll(picked: seq<Item>, items: seq<Item>)
    requires forall k :: Of(picked, k) == Of(items, k)
    ensures |picked| == |items|
  {
    PrefixesAreWithin(picked, items);
    PrefixesAreWithin(items, picked);
  }

  // ---- the queues ----

  /** How far a bucket's queue has been drawn down. */
  function Taken(full: seq<Item>, queue: seq<Item>): int { |full| - |queue| }

  /** One queue is what is left of its bucket after the picks made from it. */
  ghost predicate Drawn(full: seq<Item>, queue: seq<Item>, picks: seq<Item>) {
    full == picks + queue
  }

  ghost predicate AllDrawn(keys: seq<Bucket>, items: seq<Item>, queues: seq<seq<Item>>, picked: seq<Item>) {
    && |queues| == |keys|
    && (forall i :: 0 <= i < |keys| ==> Drawn(Of(items, keys[i]), queues[i], Of(picked, keys[i])))
    && (forall k :: k !in keys ==> Of(items, k) == [] && Of(picked, k) == [])
  }

  /** After r rounds a bucket has given r items, or all it has. */
  predicate Level(full: seq<Item>, queue: seq<Item>, r: nat) {
    Taken(full, queue) == Min(r, |full|)
  }

  /** Between two rounds: the first j buckets have given one more. */
  ghost predicate Between(keys: seq<Bucket>, items: seq<Item>, queues: seq<seq<Item>>, r: nat, j: nat) {
    |queues| == |keys| &&
    forall i :: 0 <= i < |keys| ==> Level(Of(items, keys[i]), queues[i], if i < j then r + 1 else r)
  }

  lemma {:induction false} HeadHasBucket(full: seq<Item>, queue: seq<Item>, picks: seq<Item>, k: Bucket)
    requires Drawn(full, queue, picks) && queue != [] && forall x :: x in full ==> x.bucket == k
    ensures queue[0].bucket == k && Drawn(full, queue[1..], picks + [queue[0]])
  {
    assert full[|picks|] == queue[0];
  }

  lemma {:induction false} PopKeepsDrawn(keys: seq<Bucket>, items: seq<Item>, queues: seq<seq<Item>>,
                                         picked: seq<Item>, i: nat)
    requires AllDrawn(keys, items, queues, picked) && Distinct(keys) && i < |keys| && queues[i] != []
    ensures AllDrawn(keys, items, queues[i := queues[i][1..]], picked + [queues[i][0]])
  {
    var x := queues[i][0];
    OfOnly(items, keys[i]);
    HeadHasBucket(Of(items, keys[i]), queues[i], Of(picked, keys[i]), keys[i]);
    forall m | 0 <= m < |keys|
      ensures Drawn(Of(items, keys[m]), queues[i := queues[i][1..]][m], Of(picked + [x], keys[m]))
    {
      OfSnoc(picked, x, keys[m]);
      assert Of(picked, keys[m]) + [] == Of(picked, keys[m]);
      if m != i {
        assert keys[m] != keys[i];
        assert Drawn(Of(items, keys[m]), queues[m], Of(picked, keys[m]));
      }
    }
    forall k | k !in keys ensures Of(picked + [x], k) == [] { OfSnoc(picked, x, k); }
  }

  /** A bucket's turn: it gives one, or it has none left to give. */
  lemma {:induction false} TurnKeepsLevel(keys: seq<Bucket>, items: seq<Item>, queues: seq<seq<Item>>, r: nat, j: nat)
    requires Between(keys, items, queues, r, j) && j < |keys|
    ensures queues[j] != [] ==> Between(keys, items, queues[j := queues[j][1..]], r, j + 1)
    ensures queues[j] == [] ==> Between(keys, items, queues, r, j + 1)
  {
    assert Level(Of(items, keys[j]), queues[j], r);
  }

  lemma {:induction false} RoundIsOver(keys: seq<Bucket>, items: seq<Item>, queues: seq<seq<Item>>, r: nat, j: nat)
    requires Between(keys, items, queues, r, j) && j >= |keys|
    ensures Between(keys, items, queues, r + 1, 0)
  {
  }

  /** The inner loop: one item from every bucket that has one, while there is room. `upto` buckets had their turn. */
  method Round(keys: seq<Bucket>, ghost items: seq<Item>, ghost r: nat,
               queues: seq<seq<Item>>, picked: seq<Item>, count: nat)
    returns (left: seq<seq<Item>>, more: seq<Item>, ghost upto: nat)
    requires Distinct(keys) && AllDrawn(keys, items, queues, picked) && |picked| < count
    requires Between(keys, items, queues, r, 0)
    ensures AllDrawn(keys, items, left, more) && |more| <= count
    ensures Between(keys, items, left, r, upto) && (|more| < count ==> upto == |keys|)
    ensures |more| >= |picked| && ((exists i :: 0 <= i < |queues| && queues[i] != []) ==> |more| > |picked|)
  {
    left, more, upto := queues, picked, 0;
    for j := 0 to |keys|
      invariant AllDrawn(keys, items, left, more) && |picked| <= |more| <= count
      invariant Between(keys, items, left, r, upto) && (|more| < count ==> upto == j)
      invariant forall i :: j <= i < |keys| ==> left[i] == queues[i]
      invariant |more| == |picked| ==> forall i :: 0 <= i < j ==> queues[i] == []
    {
      if |more| < count { TurnKeepsLevel(keys, items, left, r, j); }
      if left[j] != [] && |more| < count {
        PopKeepsDrawn(keys, items, left, more, j);
        left, more := left[j := left[j][1..]], more + [left[j][0]];
        upto := j + 1;
      } else if |more| < count {
        upto := j + 1;
      }
    }
  }

  // ---- the whole sample ----

  /** The plan in path order, split into buckets in order of first appearance. */
  method Split(items: seq<Item>) returns (b: Buckets<Bucket, Item>)
    ensures b.Valid()
    ensures forall k :: if k in b.items then b.items[k] == Of(items, k) && b.items[k] != [] else Of(items, k) == []
  {
    b := Buckets([], map[]);
    for i := 0 to |items|
      invariant b.Valid()
      invariant forall k ::
        if k in b.items then b.items[k] == Of(items[..i], k) && b.items[k] != [] else Of(items[..i], k) == []
    {
      assert items[..i + 1] == items[..i] + [items[i]];
      forall k ensures Of(items[..i + 1], k) == Of(items[..i], k) + if items[i].bucket == k then [items[i]] else [] {
        OfSnoc(items[..i], items[i], k);
      }
      b := b.Add(items[i].bucket, items[i]);
    }
    assert items[..|items|] == items;
  }

  /** One bucket is never two picks behind another, unless it has nothing left. */
  ghost predicate Fair(picked: seq<Item>, items: seq<Item>) {
    forall a, b :: |Of(picked, a)| >= |Of(picked, b)| - 1 || Of(picked, a) == Of(items, a)
  }

  /** A bigger bucket never gives fewer items than a smaller one. */
  ghost predicate BiggestFirst(picked: seq<Item>, items: seq<Item>) {
    forall a, b :: |Of(items, a)| > |Of(items, b)| ==> |Of(picked, a)| >= |Of(picked, b)|
  }

  ghost predicate BySize(keys: seq<Bucket>, items: seq<Item>) {
    forall i, k :: 0 <= i < k < |keys| ==> |Of(items, keys[i])| >= |Of(items, keys[k])|
  }

  /** What one bucket has given when `upto` buckets had their turn in round r. */
  lemma {:induction false} GivenSoFar(keys: seq<Bucket>, items: seq<Item>, queues: seq<seq<Item>>, picked: seq<Item>,
                                      r: nat, upto: nat, i: nat)
    requires AllDrawn(keys, items, queues, picked) && Between(keys, items, queues, r, upto) && i < |keys|
    ensures Of(picked, keys[i]) <= Of(items, keys[i])
    ensures |Of(picked, keys[i])| == Min(if i < upto then r + 1 else r, |Of(items, keys[i])|)
  {
    assert Drawn(Of(items, keys[i]), queues[i], Of(picked, keys[i]));
    assert Level(Of(items, keys[i]), queues[i], if i < upto then r + 1 else r);
  }

  lemma {:induction false} BetweenIsFair(keys: seq<Bucket>, items: seq<Item>, queues: seq<seq<Item>>,
                                         picked: seq<Item>, r: nat, upto: nat)
    requires AllDrawn(keys, items, queues, picked) && Between(keys, items, queues, r, upto)
    ensures Fair(picked, items)
    ensures forall k :: Of(picked, k) <= Of(items, k)
  {
    forall k ensures Of(picked, k) <= Of(items, k) && |Of(picked, k)| <= r + 1
      ensures |Of(picked, k)| >= r || Of(picked, k) == Of(items, k)
    {
      if k in keys {
        var i :| 0 <= i < |keys| && keys[i] == k;
        GivenSoFar(keys, items, queues, picked, r, upto, i);
      }
    }
  }

  lemma {:induction false} BetweenFavoursBig(keys: seq<Bucket>, items: seq<Item>, queues: seq<seq<Item>>,
                                             picked: seq<Item>, r: nat, upto: nat)
    requires AllDrawn(keys, items, queues, picked) && Between(keys, items, queues, r, upto) && BySize(keys, items)
    ensures BiggestFirst(picked, items)
  {
    forall a, b | |Of(items, a)| > |Of(items, b)| ensures |Of(picked, a)| >= |Of(picked, b)| {
      if b in keys {
        assert a in keys;
        var i :| 0 <= i < |keys| && keys[i] == a;
        var k :| 0 <= k < |keys| && keys[k] == b;
        GivenSoFar(keys, items, queues, picked, r, upto, i);
        GivenSoFar(keys, items, queues, picked, r, upto, k);
        assert k < i ==> |Of(items, keys[k])| >= |Of(items, keys[i])|;
      }
    }
  }

  lemma {:induction false} EmptyIsAll(keys: seq<Bucket>, items: seq<Item>, queues: seq<seq<Item>>, picked: seq<Item>)
    requires AllDrawn(keys, items, queues, picked) && forall i :: 0 <= i < |queues| ==> queues[i] == []
    ensures |picked| == |items|
  {
    forall k ensures Of(picked, k) == Of(items, k) {
      if k in keys {
        var i :| 0 <= i < |keys| && keys[i] == k;
        assert Drawn(Of(items, keys[i]), queues[i], Of(picked, keys[i]));
      }
    }
    AllIsAll(picked, items);
  }

  predicate AnyLeft(queues: seq<seq<Item>>) {
    exists i :: 0 <= i < |queues| && queues[i] != []
  }

  /** The outer loop over rounds. */
  method Deal(keys: seq<Bucket>, ghost items: seq<Item>, queues: seq<seq<Item>>, count: nat)
    returns (picked: seq<Item>)
    requires Distinct(keys) && AllDrawn(keys, items, queues, [])
    ensures |picked| == Min(count, |items|)
    ensures Fair(picked, items) && forall k :: Of(picked, k) <= Of(items, k)
    ensures BySize(keys, items) ==> BiggestFirst(picked, items)
  {
    picked := [];
    var left := queues;
    ghost var r, upto := 0, 0;
    StartsLevel(keys, items, queues);
    while |picked| < count && AnyLeft(left)
      invariant AllDrawn(keys, items, left, picked) && |picked| <= count
      invariant Between(keys, items, left, r, upto) && (|picked| < count ==> upto == 0)
      decreases count - |picked|
    {
      left, picked, upto := Round(keys, items, r, left, picked, count);
      if |picked| < count {
        RoundIsOver(keys, items, left, r, upto);
        r, upto := r + 1, 0;
      }
    }
    BetweenIsFair(keys, items, left, picked, r, upto);
    if BySize(keys, items) { BetweenFavoursBig(keys, items, left, picked, r, upto); }
    PrefixesAreWithin(picked, items);
    if !AnyLeft(left) { EmptyIsAll(keys, items, left, picked); }
  }

  lemma {:induction false} StartsLevel(keys: seq<Bucket>, items: seq<Item>, queues: seq<seq<Item>>)
    requires AllDrawn(keys, items, queues, [])
    ensures Between(keys, items, queues, 0, 0)
  {
    forall i | 0 <= i < |keys| ensures Level(Of(items, keys[i]), queues[i], 0) {
      assert Drawn(Of(items, keys[i]), queues[i], Of([], keys[i]));
    }
  }

  lemma {:induction false} BiggerIsOrder(b: Buckets<Bucket, Item>, bigger: (Bucket, Bucket) -> bool,
                                         keyOrder: (Bucket, Bucket) -> bool)
    requires TotalOrder(keyOrder)
    requires forall x, y :: bigger(x, y) <==>
      SizeIn(b, x) > SizeIn(b, y) || (SizeIn(b, x) == SizeIn(b, y) && keyOrder(x, y))
    ensures TotalOrder(bigger)
  {
  }

  lemma {:induction false} SortedBySize(b: Buckets<Bucket, Item>, items: seq<Item>, keys: seq<Bucket>,
                                        bigger: (Bucket, Bucket) -> bool, keyOrder: (Bucket, Bucket) -> bool)
    requires forall k :: if k in b.items then b.items[k] == Of(items, k) else Of(items, k) == []
    requires Sorted(keys, bigger)
    requires forall x, y :: bigger(x, y) <==>
      SizeIn(b, x) > SizeIn(b, y) || (SizeIn(b, x) == SizeIn(b, y) && keyOrder(x, y))
    ensures BySize(keys, items)
  {
    forall i, k | 0 <= i < k < |keys| ensures |Of(items, keys[i])| >= |Of(items, keys[k])| {
      assert bigger(keys[i], keys[k]);
    }
  }

  /** The buckets of the plan, biggest first. */
  method Ordered(b: Buckets<Bucket, Item>, ghost sorted: seq<Item>, keyOrder: (Bucket, Bucket) -> bool)
    returns (keys: seq<Bucket>)
    requires b.Valid()
    requires forall k :: if k in b.items then b.items[k] == Of(sorted, k) else Of(sorted, k) == []
    ensures Distinct(keys) && forall k :: k in keys <==> k in b.items
    ensures TotalOrder(keyOrder) ==> BySize(keys, sorted)
  {
    var bigger := (x: Bucket, y: Bucket) =>
      SizeIn(b, x) > SizeIn(b, y) || (SizeIn(b, x) == SizeIn(b, y) && keyOrder(x, y));
    keys := SortBy(b.keys, bigger);
    SameMembers(keys, b.keys);
    DistinctPermutes(b.keys, keys);
    if TotalOrder(keyOrder) {
      BiggerIsOrder(b, bigger, keyOrder);
      SortBySorts(b.keys, bigger);
      SortedBySize(b, sorted, keys, bigger, keyOrder);
    }
  }

  /** The buckets, each with its items still queued. */
  method Queues(sorted: seq<Item>, keyOrder: (Bucket, Bucket) -> bool)
    returns (keys: seq<Bucket>, queues: seq<seq<Item>>)
    ensures Distinct(keys) && AllDrawn(keys, sorted, queues, [])
    ensures forall k :: k in keys <==> Of(sorted, k) != []
    ensures TotalOrder(keyOrder) ==> BySize(keys, sorted)
  {
    var b := Split(sorted);
    keys := Ordered(b, sorted, keyOrder);
    queues := seq(|keys|, i requires 0 <= i < |keys| => if keys[i] in b.items then b.items[keys[i]] else []);
    forall i | 0 <= i < |keys| ensures Drawn(Of(sorted, keys[i]), queues[i], Of([], keys[i])) {
      assert keys[i] in b.items;
    }
  }

  /** `stratify`: as many items as asked for or as there are, spread evenly over the buckets. */
  method Stratify(actions: seq<Item>, count: nat, pathOrder: (Item, Item) -> bool, keyOrder: (Bucket, Bucket) -> bool)
    returns (picked: seq<Item>)
    ensures |picked| == Min(count, |actions|)
    ensures multiset(picked) <= multiset(actions)
    ensures Distinct(actions) ==> Distinct(picked)
    ensures Fair(picked, SortBy(actions, pathOrder))
    ensures TotalOrder(keyOrder) ==> BiggestFirst(picked, SortBy(actions, pathOrder))
    ensures forall k :: Of(picked, k) <= Of(SortBy(actions, pathOrder), k)
  {
    var sorted := SortBy(actions, pathOrder);
    var keys, queues := Queues(sorted, keyOrder);
    picked := Deal(keys, sorted, queues, count);
    PrefixesAreWithin(picked, sorted);
    SubsetIsDistinct(picked, actions);
  }

  function SizeIn(b: Buckets<Bucket, Item>, k: Bucket): nat {
    if k in b.items then |b.items[k]| else 0
  }

  lemma {:induction false} SubsetIsDistinct(picked: seq<Item>, items: seq<Item>)
    requires multiset(picked) <= multiset(items)
    ensures Distinct(items) ==> Distinct(picked)
  {
    DistinctCounts(items);
    DistinctCounts(picked);
    if Distinct(items) {
      forall x | x in picked ensures multiset(picked)[x] == 1 {
        assert x in multiset(picked);
        assert x in multiset(items);
      }
    }
  }

  function BucketsOf(items: seq<Item>): set<Bucket> {
    set x | x in items :: x.bucket
  }

  lemma {:induction false} OnePerBucket(picked: seq<Item>)
    requires forall a :: |Of(picked, a)| <= 1
    ensures |BucketsOf(picked)| == |picked|
  {
    if picked != [] {
      var n := |picked| - 1;
      var init, k := picked[..n], picked[n].bucket;
      forall a ensures |Of(init, a)| <= 1 { assert |Of(picked, a)| <= 1; }
      OnePerBucket(init);
      assert |Of(picked, k)| <= 1;
      assert Of(init, k) == [];
      forall x | x in init ensures x.bucket != k { InBucket(init, x); }
      assert picked == init + [picked[n]];
      assert BucketsOf(picked) == BucketsOf(init) + {k};
    } else {
      assert BucketsOf(picked) == {};
    }
  }

  lemma {:induction false} InBucket(items: seq<Item>, x: Item)
    requires x in items
    ensures x in Of(items, x.bucket)
  {
    OfCounts(items, x);
    assert x in multiset(items);
    assert x in multiset(Of(items, x.bucket));
  }

  lemma {:induction false} AsManyAsKeys(s: set<Bucket>, keys: seq<Bucket>)
    requires forall k :: k in s ==> k in keys
    ensures |s| <= |keys|
  {
    if keys == [] {
      assert s == {};
    } else {
      AsManyAsKeys(s - {keys[0]}, keys[1..]);
    }
  }

  /** A bucket left out, and no bucket picked twice: fewer picks than buckets. */
  lemma {:induction false} FewerThanKeys(picked: seq<Item>, items: seq<Item>, keys: seq<Bucket>, k: Bucket)
    requires (forall a :: |Of(picked, a)| <= 1) && (forall a :: Of(picked, a) <= Of(items, a))
    requires (forall x :: x in items ==> x.bucket in keys) && Of(picked, k) == [] && k in keys
    ensures |picked| < |keys|
  {
    PrefixesAreWithin(picked, items);
    forall x | x in picked ensures x.bucket in keys && x.bucket != k {
      assert x in multiset(picked);
      assert x in multiset(items);
      InBucket(picked, x);
    }
    OnePerBucket(picked);
    AsManyAsKeys(BucketsOf(picked) + {k}, keys);
  }

  lemma {:induction false} FewerThanItems(picked: seq<Item>, items: seq<Item>, y: Item)
    requires multiset(picked) <= multiset(items) && y in items && y !in picked
    ensures |picked| < |items|
  {
    var rest := multiset(items) - multiset(picked);
    assert y in multiset(items) && y !in multiset(picked);
    assert y in rest && multiset(items) == multiset(picked) + rest;
    assert |multiset(items)| == |items| && |multiset(picked)| == |picked|;
  }

  lemma {:induction false} BucketMember(items: seq<Item>, k: Bucket) returns (y: Item)
    requires Of(items, k) != []
    ensures y in items && y.bucket == k
  {
    y := Of(items, k)[0];
    OfOnly(items, k);
    assert y in Of(items, k) && y.bucket == k;
    OfCounts(items, y);
    assert y in multiset(Of(items, k));
    assert y in multiset(items);
  }

  lemma {:induction false} LeavingOut(picked: seq<Item>, items: seq<Item>, keys: seq<Bucket>, k: Bucket)
    requires (forall a :: |Of(picked, a)| <= 1) && (forall a :: Of(picked, a) <= Of(items, a))
    requires (forall x :: x in items ==> x.bucket in keys) && Of(picked, k) == [] && Of(items, k) != []
    ensures |picked| < |keys| && |picked| < |items|
  {
    var y := BucketMember(items, k);
    PrefixesAreWithin(picked, items);
    if y in picked { InBucket(picked, y); }
    FewerThanItems(picked, items, y);
    FewerThanKeys(picked, items, keys, k);
  }

  /** A sample with room for every bucket has touched every bucket. */
  lemma {:induction false} EveryBucketIsTouched(picked: seq<Item>, items: seq<Item>, count: nat, keys: seq<Bucket>,
                                                k: Bucket)
    requires |picked| == Min(count, |items|) && Fair(picked, items) && forall a :: Of(picked, a) <= Of(items, a)
    requires (forall x :: x in items ==> x.bucket in keys) && count >= |keys|
    requires Of(items, k) != []
    ensures Of(picked, k) != []
  {
    if Of(picked, k) == [] {
      forall a ensures |Of(picked, a)| <= 1 {
        assert |Of(picked, k)| >= |Of(picked, a)| - 1 || Of(picked, k) == Of(items, k);
      }
      LeavingOut(picked, items, keys, k);
    }
  }
}
