/** Window matching of two recordings: how many windows occur in order. */
module Coverage {
  import opened Basics

  // ---- longest strictly rising selection ----

  /** Places picked from left to right whose positions strictly rise. */
  ghost predicate Rising(positions: seq<int>, picks: seq<int>) {
    && (forall k :: 0 <= k < |picks| ==> 0 <= picks[k] < |positions|)
    && (forall j, k :: 0 <= j < k < |picks| ==> picks[j] < picks[k] && positions[picks[j]] < positions[picks[k]])
  }

  ghost predicate IsLongest(positions: seq<int>, n: nat) {
    (exists picks :: Rising(positions, picks) && |picks| == n) &&
    (forall picks :: Rising(positions, picks) ==> |picks| <= n)
  }

  ghost predicate RisingTo(positions: seq<int>, i: nat, picks: seq<int>) {
    Rising(positions, picks) && picks != [] && picks[|picks| - 1] == i
  }

  ghost predicate Reaches(positions: seq<int>, i: nat, n: nat) {
    exists picks :: RisingTo(positions, i, picks) && |picks| == n
  }

  ghost predicate Bounds(positions: seq<int>, i: nat, n: nat) {
    forall picks :: RisingTo(positions, i, picks) ==> |picks| <= n
  }

  /** The prefix of lengths found so far: each is that of a longest rising selection ending there. */
  ghost predicate Best(positions: seq<int>, lis: seq<nat>) {
    |lis| <= |positions| &&
    forall k: nat :: k < |lis| ==> Reaches(positions, k, lis[k]) && Bounds(positions, k, lis[k])
  }

  /** The longest of the earlier selections that place i can extend; 0 when there is none. */
  ghost predicate Longest(positions: seq<int>, lis: seq<nat>, i: nat, longest: nat)
    requires i < |positions|
  {
    && (forall k: nat :: k < |lis| && k < i && positions[k] < positions[i] ==> lis[k] <= longest)
    && (longest == 0 || exists k: nat :: k < |lis| && k < i && positions[k] < positions[i] && lis[k] == longest)
  }

  lemma {:induction false} Alone(positions: seq<int>, i: nat)
    requires i < |positions|
    ensures Reaches(positions, i, 1)
  {
    assert RisingTo(positions, i, [i]);
  }

  lemma {:induction false} ExtendReaches(positions: seq<int>, k: nat, i: nat, n: nat)
    requires k < i < |positions| && positions[k] < positions[i] && Reaches(positions, k, n)
    ensures Reaches(positions, i, n + 1)
  {
    var picks :| RisingTo(positions, k, picks) && |picks| == n;
    var longer := picks + [i];
    forall a, b | 0 <= a < b < |longer|
      ensures longer[a] < longer[b] && positions[longer[a]] < positions[longer[b]]
    {
      if b == |picks| && a < |picks| - 1 { assert picks[a] < picks[|picks| - 1]; }
    }
    assert RisingTo(positions, i, longer);
  }

  lemma {:induction false} ExtendBounds(positions: seq<int>, lis: seq<nat>, longest: nat)
    requires Best(positions, lis) && |lis| < |positions| && Longest(positions, lis, |lis|, longest)
    ensures Bounds(positions, |lis|, longest + 1)
  {
    forall picks | RisingTo(positions, |lis|, picks) ensures |picks| <= longest + 1 {
      var front := picks[..|picks| - 1];
      if front != [] {
        var k := front[|front| - 1];
        assert picks[|picks| - 2] == k;
        assert RisingTo(positions, k, front);
        assert Bounds(positions, k, lis[k]);
      }
    }
  }

  /** The recurrence: a best selection to a place extends a best selection to an earlier, smaller one. */
  lemma {:induction false} Extend(positions: seq<int>, lis: seq<nat>, longest: nat)
    requires Best(positions, lis) && |lis| < |positions| && Longest(positions, lis, |lis|, longest)
    ensures Best(positions, lis + [longest + 1])
  {
    var i := |lis|;
    ExtendBounds(positions, lis, longest);
    if longest == 0 {
      Alone(positions, i);
    } else {
      var k: nat :| k < i && positions[k] < positions[i] && lis[k] == longest;
      ExtendReaches(positions, k, i, longest);
    }
  }

  /** The greatest recorded length is that of a longest rising selection altogether. */
  lemma {:induction false} PeakIsLongest(positions: seq<int>, lis: seq<nat>, n: nat)
    requires Best(positions, lis) && |lis| == |positions|
    requires n in lis && forall k :: 0 <= k < |lis| ==> lis[k] <= n
    ensures IsLongest(positions, n)
  {
    var at :| 0 <= at < |lis| && lis[at] == n;
    var picks :| RisingTo(positions, at, picks) && |picks| == n;
    forall picks | Rising(positions, picks) ensures |picks| <= n {
      if picks != [] {
        var last := picks[|picks| - 1];
        assert RisingTo(positions, last, picks) && Bounds(positions, last, lis[last]);
      }
    }
  }

  /** `lis[prev].max()`, or 0 when no earlier place is smaller. */
  method LongestBefore(positions: seq<int>, lis: array<nat>, i: nat) returns (longest: nat)
    requires i < |positions| == lis.Length
    ensures Longest(positions, lis[..i], i, longest)
  {
    longest := 0;
    for j := 0 to i
      invariant Longest(positions, lis[..j], i, longest)
    {
      assert lis[..j + 1] == lis[..j] + [lis[j]];
      if positions[j] < positions[i] && lis[j] > longest { longest := lis[j]; }
    }
  }

  method Peak(lis: array<nat>) returns (n: nat)
    requires lis.Length > 0
    ensures n in lis[..] && forall k :: 0 <= k < lis.Length ==> lis[k] <= n
  {
    n := lis[0];
    for i := 1 to lis.Length
      invariant n in lis[..i] && forall k :: 0 <= k < i ==> lis[k] <= n
    {
      assert lis[..i + 1] == lis[..i] + [lis[i]];
      if lis[i] > n { n := lis[i]; }
    }
    assert lis[..lis.Length] == lis[..];
  }

  /** One round of the outer loop. */
  method Grow(positions: seq<int>, lis: array<nat>, i: nat)
    requires i < |positions| == lis.Length && Best(positions, lis[..i])
    modifies lis
    ensures Best(positions, lis[..i + 1])
  {
    var longest := LongestBefore(positions, lis, i);
    ghost var before := lis[..i];
    Extend(positions, before, longest);
    lis[i] := longest + 1;
    assert lis[..i + 1] == before + [longest + 1];
  }

  method Fill(positions: seq<int>, lis: array<nat>)
    requires positions != [] && |positions| == lis.Length && lis[..1] == [1]
    modifies lis
    ensures Best(positions, lis[..])
  {
    FirstIsOne(positions, lis[..1]);
    for i := 1 to |positions|
      invariant Best(positions, lis[..i])
    {
      Grow(positions, lis, i);
    }
    assert lis[..|positions|] == lis[..];
  }

  /** `lis_run`: the length of a longest strictly rising selection. */
  method LisRun(positions: seq<int>) returns (n: nat)
    ensures IsLongest(positions, n)
  {
    if |positions| == 0 {
      n := 0;
      EmptyIsLongest(positions, n);
      return;
    }
    var lis := new nat[|positions|](_ => 1);
    Fill(positions, lis);
    n := Peak(lis);
    ghost var found := lis[..];
    assert found[0] == lis[0];
    PeakIsLongest(positions, found, n);
  }

  /** A selection never has more picks than there are places. */
  lemma {:induction false} RunFits(positions: seq<int>, picks: seq<int>, k: nat)
    requires Rising(positions, picks) && k <= |picks|
    ensures k <= |positions|
    ensures k > 0 ==> picks[k - 1] >= k - 1
  {
    if k > 0 {
      RunFits(positions, picks, k - 1);
      assert picks[k - 1] < |positions|;
      if k > 1 { assert picks[k - 2] < picks[k - 1]; }
    }
  }

  lemma {:induction false} EmptyIsLongest(positions: seq<int>, n: nat)
    requires positions == [] && n == 0
    ensures IsLongest(positions, n)
  {
    assert Rising(positions, []);
    forall picks | Rising(positions, picks) ensures |picks| <= n { RunFits(positions, picks, |picks|); }
  }

  lemma {:induction false} FirstIsOne(positions: seq<int>, lis: seq<nat>)
    requires positions != [] && lis == [1]
    ensures Best(positions, lis)
  {
    Extend(positions, [], 0);
    assert [] + [0 + 1] == lis;
  }

  // ---- window starts ----

  /** `windows`: a window at every step that fits whole; every sample up to the end of the last one is in some
      window, and less than a step is left over. */
  method WindowStarts(length: nat, win: nat) returns (starts: seq<nat>)
    requires win > 0
    ensures starts == [] <==> length < win
    ensures starts != [] ==> starts[0] == 0
    ensures forall k :: 0 <= k < |starts| - 1 ==> starts[k + 1] == starts[k] + Max(1, win / 3)
    ensures forall s :: s in starts ==> s + win <= length
    ensures starts != [] ==> length - (starts[|starts| - 1] + win) < Max(1, win / 3)
    ensures starts != [] ==> forall x :: 0 <= x < starts[|starts| - 1] + win ==> InSome(starts, win, x)
  {
    starts := [];
    if length < win { return; }
    var step := Max(1, win / 3);
    var at := 0;
    while at < length - win + 1
      invariant forall k :: 0 <= k < |starts| ==> starts[k] + win <= length
      invariant forall k :: 0 <= k < |starts| - 1 ==> starts[k + 1] == starts[k] + step
      invariant if starts == [] then at == 0 else starts[0] == 0 && at == starts[|starts| - 1] + step
    {
      starts := starts + [at];
      at := at + step;
    }
    forall x | 0 <= x < starts[|starts| - 1] + win ensures InSome(starts, win, x) {
      NoGap(starts, step, win, x, |starts| - 1);
    }
  }

  ghost predicate InSome(starts: seq<nat>, win: nat, x: int) {
    exists k :: 0 <= k < |starts| && starts[k] <= x < starts[k] + win
  }

  lemma {:induction false} NoGap(starts: seq<nat>, step: nat, win: nat, x: nat, n: nat)
    requires n < |starts| && starts[0] == 0 && step <= win && x < starts[n] + win
    requires forall k :: 0 <= k < |starts| - 1 ==> starts[k + 1] == starts[k] + step
    ensures InSome(starts, win, x)
  {
    if starts[n] <= x {
      assert starts[n] <= x < starts[n] + win;
    } else {
      assert starts[n - 1 + 1] == starts[n - 1] + step;
      NoGap(starts, step, win, x, n - 1);
    }
  }

  // ---- the ordered share of one comparison ----

  const SAME_AT: real := 0.80

  type Row = row: seq<real> | row != [] witness [0.0]

  /** Similarity of every window of one file with every window of the other; which windows are undamaged. */
  datatype Match = Match(rows: seq<Row>, usable: seq<bool>) {
    ghost predicate Valid() { |rows| == |usable| }

    function Upto(i: nat): Match
      requires |rows| == |usable| && i <= |rows|
    {
      Match(rows[..i], usable[..i])
    }
  }

  /** numpy's argmax: the first place of the greatest value. */
  function ArgMax(row: Row): (j: nat)
    ensures j < |row| && (forall k :: 0 <= k < |row| ==> row[k] <= row[j])
    ensures forall k :: 0 <= k < j ==> row[k] < row[j]
  {
    if |row| == 1 then 0
    else
      var init: Row := row[..|row| - 1];
      var j := ArgMax(init);
      if row[|row| - 1] > row[j] then |row| - 1 else j
  }

  predicate Matched(row: Row) { row[ArgMax(row)] >= SAME_AT }

  /** A window is matched when some place of the other file is alike enough. */
  lemma {:induction false} MatchedIff(row: Row)
    ensures Matched(row) <==> exists j :: 0 <= j < |row| && row[j] >= SAME_AT
  {
  }

  /** Where the matched undamaged windows are found, in order. */
  function Places(m: Match): seq<int>
    requires m.Valid()
    decreases |m.rows|
  {
    if m.rows == [] then []
    else
      var i := |m.rows| - 1;
      Places(m.Upto(i)) + if m.usable[i] && Matched(m.rows[i]) then [ArgMax(m.rows[i])] else []
  }

  function UsableCount(m: Match): nat
    requires m.Valid()
    decreases |m.rows|
  {
    if m.rows == [] then 0
    else UsableCount(m.Upto(|m.rows| - 1)) + if m.usable[|m.rows| - 1] then 1 else 0
  }

  ghost predicate StrictlyRising(xs: seq<int>) {
    forall j, k :: 0 <= j < k < |xs| ==> xs[j] < xs[k]
  }

  /** Every undamaged window is found, and later ones are found later. */
  ghost predicate FoundInOrder(m: Match)
    requires m.Valid()
  {
    && (forall i :: 0 <= i < |m.rows| && m.usable[i] ==> Matched(m.rows[i]))
    && (forall i, k :: 0 <= i < k < |m.rows| && m.usable[i] && m.usable[k] ==> ArgMax(m.rows[i]) < ArgMax(m.rows[k]))
  }

  lemma {:induction false} LongestIsAll(xs: seq<int>, n: nat)
    requires IsLongest(xs, n)
    ensures n <= |xs| && (n == |xs| <==> StrictlyRising(xs))
  {
    LongestFits(xs, n);
    if StrictlyRising(xs) { AllPicked(xs, n); }
  }

  lemma {:induction false} LongestFits(xs: seq<int>, n: nat)
    requires exists picks :: Rising(xs, picks) && |picks| == n
    ensures n <= |xs| && (n == |xs| ==> StrictlyRising(xs))
  {
    var picks :| Rising(xs, picks) && |picks| == n;
    RunFits(xs, picks, n);
    if n == |xs| { AllPickedRises(xs, picks); }
  }

  lemma {:induction false} AllPicked(xs: seq<int>, n: nat)
    requires StrictlyRising(xs) && forall picks :: Rising(xs, picks) ==> |picks| <= n
    ensures |xs| <= n
  {
    var all := seq(|xs|, i => i);
    assert Rising(xs, all);
  }

  lemma {:induction false} AllPickedRises(xs: seq<int>, picks: seq<int>)
    requires Rising(xs, picks) && |picks| == |xs|
    ensures StrictlyRising(xs)
  {
    forall j, k | 0 <= j < k < |xs| ensures xs[j] < xs[k] {
      PicksAll(xs, picks, j);
      PicksAll(xs, picks, k);
      assert picks[j] == j && picks[k] == k;
    }
  }

  /** As many picks as places picks every place. */
  lemma {:induction false} PicksAll(xs: seq<int>, picks: seq<int>, k: nat)
    requires Rising(xs, picks) && |picks| == |xs| && k < |xs|
    ensures picks[k] == k
    decreases |xs| - k
  {
    RunFits(xs, picks, k + 1);
    if k + 1 < |xs| { PicksAll(xs, picks, k + 1); }
  }

  lemma {:induction false} PlacesFit(m: Match)
    requires m.Valid()
    ensures |Places(m)| <= UsableCount(m)
    ensures |Places(m)| == UsableCount(m) <==> forall i :: 0 <= i < |m.rows| && m.usable[i] ==> Matched(m.rows[i])
    decreases |m.rows|
  {
    if m.rows != [] {
      var i := |m.rows| - 1;
      var before := m.Upto(i);
      PlacesFit(before);
      if |Places(m)| == UsableCount(m) {
        forall k | 0 <= k < |m.rows| && m.usable[k] ensures Matched(m.rows[k]) {
          if k < i { assert before.rows[k] == m.rows[k] && before.usable[k]; }
        }
      }
    }
  }

  /** Every place comes from a matched undamaged window. */
  lemma {:induction false} WindowAt(m: Match, x: int) returns (i: nat)
    requires m.Valid() && x in Places(m)
    ensures i < |m.rows| && m.usable[i] && ArgMax(m.rows[i]) == x
    decreases |m.rows|
  {
    i := |m.rows| - 1;
    if x in Places(m.Upto(i)) { i := WindowAt(m.Upto(i), x); }
  }

  lemma {:induction false} PlaceOf(m: Match, i: nat)
    requires m.Valid() && i < |m.rows| && m.usable[i] && Matched(m.rows[i])
    ensures ArgMax(m.rows[i]) in Places(m)
    decreases |m.rows|
  {
    if i < |m.rows| - 1 { PlaceOf(m.Upto(|m.rows| - 1), i); }
  }

  lemma {:induction false} RisingSnoc(xs: seq<int>, x: int)
    ensures StrictlyRising(xs + [x]) <==> StrictlyRising(xs) && forall y :: y in xs ==> y < x
  {
    if StrictlyRising(xs + [x]) {
      forall j, k | 0 <= j < k < |xs| ensures xs[j] < xs[k] { assert (xs + [x])[j] < (xs + [x])[k]; }
      forall y | y in xs ensures y < x {
        var j :| 0 <= j < |xs| && xs[j] == y;
        assert (xs + [x])[j] < (xs + [x])[|xs|];
      }
    } else {
      var j, k :| 0 <= j < k < |xs + [x]| && (xs + [x])[j] >= (xs + [x])[k];
      if k == |xs| { assert xs[j] in xs; } else { assert xs[j] >= xs[k]; }
    }
  }

  /** With every undamaged window matched, the places rise exactly when the windows are found in order. */
  lemma {:induction false} PlacesRise(m: Match)
    requires m.Valid() && forall i :: 0 <= i < |m.rows| && m.usable[i] ==> Matched(m.rows[i])
    ensures StrictlyRising(Places(m)) <==> FoundInOrder(m)
    decreases |m.rows|
  {
    if m.rows != [] {
      var i := |m.rows| - 1;
      var before := m.Upto(i);
      forall k | 0 <= k < i && before.usable[k] ensures Matched(before.rows[k]) { assert m.usable[k]; }
      PlacesRise(before);
      assert FoundInOrder(m) ==> FoundInOrder(before) by {
        if FoundInOrder(m) {
          forall j, k | 0 <= j < k < i && before.usable[j] && before.usable[k]
            ensures ArgMax(before.rows[j]) < ArgMax(before.rows[k])
          {
            assert m.usable[j] && m.usable[k];
          }
        }
      }
      if m.usable[i] {
        var x := ArgMax(m.rows[i]);
        RisingSnoc(Places(before), x);
        LastInOrder(m, before, x);
      } else {
        assert Places(m) == Places(before);
      }
    }
  }

  lemma {:induction false} LastInOrder(m: Match, before: Match, x: int)
    requires m.Valid() && m.rows != [] && before == m.Upto(|m.rows| - 1)
    requires m.usable[|m.rows| - 1] && x == ArgMax(m.rows[|m.rows| - 1])
    requires forall i :: 0 <= i < |m.rows| && m.usable[i] ==> Matched(m.rows[i])
    ensures FoundInOrder(before) && (forall y :: y in Places(before) ==> y < x) ==> FoundInOrder(m)
    ensures FoundInOrder(m) ==> forall y :: y in Places(before) ==> y < x
  {
    var i := |m.rows| - 1;
    if FoundInOrder(before) && forall y :: y in Places(before) ==> y < x {
      forall j, k | 0 <= j < k < |m.rows| && m.usable[j] && m.usable[k] ensures ArgMax(m.rows[j]) < ArgMax(m.rows[k]) {
        assert before.rows[j] == m.rows[j] && before.usable[j];
        if k < i {
          assert before.rows[k] == m.rows[k] && before.usable[k];
        } else {
          PlaceOf(before, j);
        }
      }
    }
    if FoundInOrder(m) {
      forall y | y in Places(before) ensures y < x {
        var k := WindowAt(before, y);
        assert m.rows[k] == before.rows[k] && m.usable[k];
      }
    }
  }

  /** The masks of `compare`: the undamaged windows counted, the places of the matched ones collected. */
  method Collect(m: Match) returns (usable: nat, places: seq<int>)
    requires m.Valid()
    ensures usable == UsableCount(m) && places == Places(m)
  {
    usable, places := 0, [];
    for i := 0 to |m.rows|
      invariant usable == UsableCount(m.Upto(i)) && places == Places(m.Upto(i))
    {
      assert m.Upto(i + 1).Upto(i) == m.Upto(i);
      if m.usable[i] {
        usable := usable + 1;
        if Matched(m.rows[i]) { places := places + [ArgMax(m.rows[i])]; }
      }
    }
    assert m.Upto(|m.rows|) == m;
  }

  /** The longest run is every undamaged window exactly when all of them are found, in order. */
  lemma {:induction false} FullRun(m: Match, run: nat)
    requires m.Valid() && IsLongest(Places(m), run)
    ensures run <= UsableCount(m)
    ensures run == UsableCount(m) <==> FoundInOrder(m)
  {
    LongestIsAll(Places(m), run);
    PlacesFit(m);
    if |Places(m)| == UsableCount(m) { PlacesRise(m); }
  }

  /** The `ordered` figure of `compare`: a share, and 1 exactly when every undamaged window is found, in order. */
  method Ordered(m: Match) returns (ordered: real)
    requires m.Valid()
    ensures UsableCount(m) == 0 ==> ordered == 0.0
    ensures UsableCount(m) > 0 ==>
      exists run: nat :: IsLongest(Places(m), run) && run <= UsableCount(m) && ordered == Share(run, UsableCount(m))
    ensures 0.0 <= ordered <= 1.0
    ensures ordered == 1.0 <==> UsableCount(m) > 0 && FoundInOrder(m)
  {
    var usable, places := Collect(m);
    if usable == 0 { return 0.0; }
    var run := LisRun(places);
    FullRun(m, run);
    ordered := Share(run, usable);
  }

  function Share(part: nat, whole: nat): (r: real)
    requires part <= whole && whole > 0
    ensures 0.0 <= r <= 1.0 && (r == 1.0 <==> part == whole)
  {
    part as real / whole as real
  }
}
