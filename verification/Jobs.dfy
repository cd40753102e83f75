/** Whole publish jobs: when `done` means that every selected entry is on disk at its size. */
module Jobs {
  import opened Basics
  import opened Publish
  import opened Fetches
  import opened Workers
  import opened Catalogs

  // ---- one entry, fetched well ----

  /** Every transfer brings the whole file; a resume is refused, and starts over. */
  function Fine(want: nat, have: Option<nat>): seq<Weather> {
    seq(MAX_TRIES, _ => Weather(false, true, have.Some?, want, true))
  }

  lemma {:induction false} FineFetch(want: nat, dest: string, before: map<string, nat>, after: map<string, nat>,
                                     state: Outcome)
    requires want > 0 && Fetched(want, dest, before, after, Fine(want, PartIn(before, dest)), state)
    ensures if Skipped(before, dest, want) then state == SKIP && after == before
            else state == OK && after == (before - {Part(dest)})[dest := want]
  {
    if !Skipped(before, dest, want) {
      var have := PartIn(before, dest);
      var fine, whole := Fine(want, have), (before - {Part(dest)})[dest := want];
      assert PartAfter(want, have, fine, 0) == have;
      assert PartAfter(want, have, fine, 1) == AfterAttempt(want, have, fine[0]);
      assert Publishes(want, dest, before, whole, fine, 0);
      FetchedDecides(want, dest, before, fine, after, state, whole, OK);
    }
  }

  /** A task run through: its destination has its size, and only its own two names changed. */
  lemma {:induction false} FineRun(s: State, j: nat, i: nat) returns (es: seq<Event>, u: State)
    requires s.Task(j, i) && s.jobs[j].tasks[i] == Pending && !s.jobs[j].stop && Links(s) && s.Want(j, i) > 0
    ensures Own(es, j, i) && u == Run(s, es) && Beside(s, u, j, i) && !u.jobs[j].stop && Links(u)
    ensures u.jobs[j].tasks[i] == Finished(OK) || u.jobs[j].tasks[i] == Finished(SKIP)
    ensures var d, q, v := s.Dest(j, i), s.Want(j, i), View(s);
      View(u) == if Skipped(v, d, q) then v else (v - {Part(d)})[d := q]
  {
    var d, q := s.Dest(j, i), s.Want(j, i);
    es, u := WorkerIsFetch(s, j, i, Fine(q, PartIn(View(s), d)));
    FineFetch(q, d, View(s), View(u), u.jobs[j].tasks[i].outcome);
  }

  // ---- every entry, in order ----

  ghost predicate Positive(picks: seq<Pick>) {
    forall i :: 0 <= i < |picks| ==> picks[i].want > 0
  }

  /** No destination is another one's partial file. */
  ghost predicate PartsApart(picks: seq<Pick>) {
    forall i, k :: 0 <= i < |picks| && 0 <= k < |picks| ==> picks[i].dest != Part(picks[k].dest)
  }

  ghost predicate DistinctNames(picks: seq<Pick>) {
    forall i, k :: 0 <= i < k < |picks| ==> picks[i].dest != picks[k].dest
  }

  /** No entry twice: a repeated destination comes at another size. */
  ghost predicate DistinctPicks(picks: seq<Pick>) {
    forall i, k :: 0 <= i < k < |picks| ==> picks[i] != picks[k]
  }

  /** Of the first n entries, the last one for its destination. */
  ghost predicate IsLast(picks: seq<Pick>, n: nat, i: nat) {
    i < n <= |picks| && forall k: nat :: i < k < n ==> picks[k].dest != picks[i].dest
  }

  /** The name shows the entry's size. */
  ghost predicate At(v: map<string, nat>, q: Pick) { q.dest in v && v[q.dest] == q.want }

  /** The job is running, and its first n tasks have ended well, except that task k has not begun. */
  ghost predicate Walked(s: State, j: nat, picks: seq<Pick>, n: nat, k: nat) {
    && j in s.jobs && s.jobs[j].Running() && s.jobs[j].picks == picks && |s.jobs[j].tasks| == |picks| >= n
    && !s.jobs[j].stop && Links(s)
    && (forall i :: 0 <= i < n && i != k ==> s.jobs[j].tasks[i] == Finished(OK) || s.jobs[j].tasks[i] == Finished(SKIP))
    && (forall i :: 0 <= i < |picks| && (i >= n || i == k) ==> s.jobs[j].tasks[i] == Pending)
  }

  /** The last of the first n entries for each destination is on disk at its size. */
  ghost predicate LastShown(v: map<string, nat>, picks: seq<Pick>, n: nat) {
    forall i: nat :: IsLast(picks, n, i) ==> At(v, picks[i])
  }

  /** Nothing but selected entries is on disk, and not entry k. */
  ghost predicate OnlyPicked(v: map<string, nat>, picks: seq<Pick>, k: nat) {
    forall d :: d in v ==> exists i :: 0 <= i < |picks| && i != k && picks[i] == Pick(d, v[d])
  }

  ghost predicate NoStart(es: seq<Event>) { forall e :: e in es ==> !e.Start? }

  lemma {:induction false} RunConcat(s: State, a: seq<Event>, b: seq<Event>)
    ensures Run(s, a + b) == Run(Run(s, a), b)
  {
    if b == [] {
      assert a + b == a;
    } else {
      RunConcat(s, a, b[..|b| - 1]);
      assert a + b == (a + b[..|b| - 1]) + [b[|b| - 1]];
      RunThen(s, a + b[..|b| - 1], b[|b| - 1]);
    }
  }

  lemma {:induction false} NextShown(v: map<string, nat>, picks: seq<Pick>, n: nat)
    requires PartsApart(picks) && n < |picks| && LastShown(v, picks, n)
    ensures var q := picks[n];
      LastShown(if Skipped(v, q.dest, q.want) then v else (v - {Part(q.dest)})[q.dest := q.want], picks, n + 1)
  {
    var q := picks[n];
    var v' := if Skipped(v, q.dest, q.want) then v else (v - {Part(q.dest)})[q.dest := q.want];
    forall i: nat | IsLast(picks, n + 1, i) ensures At(v', picks[i]) {
      if i < n {
        assert IsLast(picks, n, i);
        assert q.dest != picks[i].dest && picks[i].dest != Part(q.dest);
      }
    }
  }

  lemma {:induction false} NextPicked(v: map<string, nat>, picks: seq<Pick>, n: nat, k: nat)
    requires n < |picks| && n != k && OnlyPicked(v, picks, k)
    ensures var q := picks[n];
      OnlyPicked(if Skipped(v, q.dest, q.want) then v else (v - {Part(q.dest)})[q.dest := q.want], picks, k)
  {
    assert picks[n] == Pick(picks[n].dest, picks[n].want);
  }

  /** One more task. */
  lemma {:induction false} WalkOn(s: State, j: nat, picks: seq<Pick>, n: nat, k: nat) returns (es: seq<Event>, u: State)
    requires Positive(picks) && n < |picks| && Walked(s, j, picks, n, k)
    ensures NoStart(es) && u == Run(s, es) && Walked(u, j, picks, n + 1, k)
    ensures PartsApart(picks) && k != n && LastShown(View(s), picks, n) ==> LastShown(View(u), picks, n + 1)
    ensures OnlyPicked(View(s), picks, k) ==> OnlyPicked(View(u), picks, k)
  {
    if n == k {
      es, u := [], s;
    } else {
      es, u := FineRun(s, j, n);
      if PartsApart(picks) && LastShown(View(s), picks, n) { NextShown(View(s), picks, n); }
      if OnlyPicked(View(s), picks, k) { NextPicked(View(s), picks, n, k); }
    }
  }

  /** The first n tasks in order, except task k. */
  lemma {:induction false} Walk(s: State, j: nat, picks: seq<Pick>, n: nat, k: nat)
    returns (es: seq<Event>, u: State)
    requires Fresh(s) && Positive(picks) && n <= |picks|
    ensures NoStart(es) && u == Run(Started(s, j, picks), es) && Walked(u, j, picks, n, k)
    ensures PartsApart(picks) && n <= k ==> LastShown(View(u), picks, n)
    ensures s.files == map[] ==> OnlyPicked(View(u), picks, k)
  {
    if n == 0 {
      es, u := [], Started(s, j, picks);
    } else {
      var a, t := Walk(s, j, picks, n - 1, k);
      var b;
      b, u := WalkOn(t, j, picks, n - 1, k);
      es := a + b;
      RunConcat(Started(s, j, picks), a, b);
    }
  }

  /** All tasks have ended well. */
  ghost predicate WellEnded(s: State, j: nat, picks: seq<Pick>) {
    && j in s.jobs && s.jobs[j].Running() && s.jobs[j].picks == picks && |s.jobs[j].tasks| == |picks|
    && !s.jobs[j].stop
    && forall i :: 0 <= i < |picks| ==> s.jobs[j].tasks[i] == Finished(OK) || s.jobs[j].tasks[i] == Finished(SKIP)
  }

  lemma {:induction false} WellFinish(u: State, j: nat, picks: seq<Pick>)
    requires WellEnded(u, j, picks)
    ensures var t := Step(u, Finish(j));
      j in t.jobs && t.jobs[j].picks == picks && t.jobs[j].result == Some(Done) && View(t) == View(u)
  {
  }

  lemma {:induction false} FromStart(s: State, e: Event, a: seq<Event>, last: Event)
    ensures Run(s, [e] + (a + [last])) == Step(Run(Step(s, e), a), last)
  {
    RunThen(s, [], e);
    assert [] + [e] == [e];
    RunConcat(s, [e], a + [last]);
    RunThen(Step(s, e), a, last);
  }

  /** On any disk: a run in which every transfer succeeds. The job ends `done`, and every destination has the size of
      the last entry that names it. */
  lemma {:induction false} LastNameWins(s: State, j: nat, picks: seq<Pick>) returns (es: seq<Event>, t: State)
    requires Fresh(s) && Positive(picks) && PartsApart(picks)
    ensures NoStart(es) && t == Run(s, [Start(j, picks)] + es)
    ensures j in t.jobs && t.jobs[j].picks == picks && t.jobs[j].result == Some(Done)
    ensures LastShown(View(t), picks, |picks|)
  {
    var a, u := Walk(s, j, picks, |picks|, |picks|);
    WellFinish(u, j, picks);
    FromStart(s, Start(j, picks), a, Finish(j));
    es, t := a + [Finish(j)], Step(u, Finish(j));
  }

  // ---- `done` means whole, exactly when no destination repeats ----

  ghost predicate Whole(s: State, picks: seq<Pick>) {
    forall q :: q in picks ==> At(View(s), q)
  }

  /** If the job ends `done` in this run, every selected entry is on disk at its size. */
  ghost predicate DoneIsWhole(s: State, j: nat, picks: seq<Pick>, es: seq<Event>) {
    var t := Run(s, [Start(j, picks)] + es);
    NoStart(es) && j in t.jobs && t.jobs[j].result == Some(Done) ==> Whole(t, picks)
  }

  lemma {:induction false} LastOf(picks: seq<Pick>, n: nat, i: nat) returns (m: nat)
    requires i < n <= |picks|
    ensures IsLast(picks, n, m) && picks[m].dest == picks[i].dest
    decreases n - i
  {
    m := i;
    if k: nat :| i < k < n && picks[k].dest == picks[i].dest { m := LastOf(picks, n, k); }
  }

  /** A destination at two sizes, in any job: a run in which every transfer succeeds ends `done` with an entry that is
      not on disk at its size. */
  lemma {:induction false} RepeatedNameBreaks(s: State, j: nat, picks: seq<Pick>, i: nat, k: nat)
    returns (es: seq<Event>)
    requires Fresh(s) && Positive(picks) && PartsApart(picks)
    requires i < k < |picks| && picks[i].dest == picks[k].dest && picks[i].want != picks[k].want
    ensures !DoneIsWhole(s, j, picks, es)
  {
    var t;
    es, t := LastNameWins(s, j, picks);
    var m := LastOf(picks, |picks|, i);
    assert At(View(t), picks[m]);
    assert picks[i] in picks && picks[k] in picks;
  }

  function Listing(picks: seq<Pick>): Catalog {
    if picks == [] then map[] else Listing(picks[..|picks| - 1])[picks[|picks| - 1].dest := picks[|picks| - 1].want]
  }

  lemma {:induction false} ListingSelects(picks: seq<Pick>)
    requires DistinctNames(picks)
    ensures Selects(Listing(picks), picks)
    ensures forall d :: d in Listing(picks) ==> exists i :: 0 <= i < |picks| && picks[i].dest == d
  {
    if picks != [] { ListingSelects(picks[..|picks| - 1]); }
  }

  lemma {:induction false} KeepsPicks(s: State, j: nat, picks: seq<Pick>, es: seq<Event>)
    requires Fresh(s) && NoStart(es)
    ensures var t := Run(s, [Start(j, picks)] + es); j in t.jobs ==> t.jobs[j].picks == picks
  {
    if es == [] {
      RunThen(s, [], Start(j, picks));
      assert [] + [Start(j, picks)] == [Start(j, picks)] + es;
    } else {
      var init, e := es[..|es| - 1], es[|es| - 1];
      KeepsPicks(s, j, picks, init);
      assert [Start(j, picks)] + es == ([Start(j, picks)] + init) + [e];
      RunThen(s, [Start(j, picks)] + init, e);
      StepKeepsPicks(Run(s, [Start(j, picks)] + init), j, picks, e);
    }
  }

  lemma {:induction false} StepKeepsPicks(s: State, j: nat, picks: seq<Pick>, e: Event)
    requires !e.Start? && (j in s.jobs ==> s.jobs[j].picks == picks)
    ensures j in Step(s, e).jobs ==> Step(s, e).jobs[j].picks == picks
  {
  }

  lemma {:induction false} DistinctIsWhole(s: State, j: nat, picks: seq<Pick>, es: seq<Event>)
    requires Fresh(s) && Positive(picks) && PartsApart(picks) && DistinctNames(picks)
    ensures DoneIsWhole(s, j, picks, es)
  {
    var w, run := Listing(picks), [Start(j, picks)] + es;
    var t := Run(s, run);
    if NoStart(es) && j in t.jobs && t.jobs[j].result == Some(Done) {
      ListingSelects(picks);
      KeepsPicks(s, j, picks, es);
      forall q | q in picks ensures At(View(t), q) { DoneIsDone(w, s, run, j, q); }
    }
  }

  /** On any disk, for any entries of positive size: every run of the job that ends `done` leaves every entry on disk
      at its size if and only if no destination repeats. */
  lemma {:induction false} DoneIsWholeIff(s: State, j: nat, picks: seq<Pick>)
    requires Fresh(s) && Positive(picks) && PartsApart(picks) && DistinctPicks(picks)
    ensures (forall es :: DoneIsWhole(s, j, picks, es)) <==> DistinctNames(picks)
  {
    if DistinctNames(picks) {
      forall es ensures DoneIsWhole(s, j, picks, es) { DistinctIsWhole(s, j, picks, es); }
    } else {
      var i, k :| 0 <= i < k < |picks| && picks[i].dest == picks[k].dest;
      assert picks[i] != picks[k];
      var es := RepeatedNameBreaks(s, j, picks, i, k);
    }
  }

  const NOTHING := State(map[], [], None, map[])

  /** All tasks, entry k last: its rename takes its partial file's name away. */
  lemma {:induction false} LastTakesPart(j: nat, picks: seq<Pick>, k: nat) returns (es: seq<Event>, t: State)
    requires Positive(picks) && DistinctPicks(picks) && k < |picks|
    ensures NoStart(es) && t == Run(NOTHING, [Start(j, picks)] + es)
    ensures j in t.jobs && t.jobs[j].result == Some(Done) && Part(picks[k].dest) !in View(t)
  {
    var a, s := Walk(NOTHING, j, picks, |picks|, k);
    var q := picks[k];
    if q.dest in View(s) { var i :| 0 <= i < |picks| && i != k && picks[i] == Pick(q.dest, View(s)[q.dest]); }
    PartDiffers(q.dest);
    var b, u := FineRun(s, j, k);
    assert WellEnded(u, j, picks);
    WellFinish(u, j, picks);
    RunConcat(Started(NOTHING, j, picks), a, b);
    FromStart(NOTHING, Start(j, picks), a + b, Finish(j));
    es, t := a + b + [Finish(j)], Step(u, Finish(j));
  }

  /** In a new library, for any entries of positive size: every run of the job that ends `done` leaves every entry on
      disk at its size if and only if no destination repeats or is another one's partial file. */
  lemma {:induction false} NewLibraryIff(j: nat, picks: seq<Pick>)
    requires Positive(picks) && DistinctPicks(picks)
    ensures (forall es :: DoneIsWhole(NOTHING, j, picks, es)) <==> DistinctNames(picks) && PartsApart(picks)
  {
    if PartsApart(picks) {
      DoneIsWholeIff(NOTHING, j, picks);
    } else {
      var i, k :| 0 <= i < |picks| && 0 <= k < |picks| && picks[i].dest == Part(picks[k].dest);
      var es, t := LastTakesPart(j, picks, k);
      assert picks[i] in picks;
      assert !DoneIsWhole(NOTHING, j, picks, es);
    }
  }

  /** The smallest such job: two entries of one destination. */
  lemma {:induction false} TwoSizesOneName(d: string, p: nat, r: nat) returns (es: seq<Event>, t: State)
    requires p > 0 && r > 0 && p != r
    ensures NoStart(es) && t == Run(NOTHING, [Start(0, [Pick(d, p), Pick(d, r)])] + es)
    ensures 0 in t.jobs && t.jobs[0].picks == [Pick(d, p), Pick(d, r)] && t.jobs[0].result == Some(Done)
    ensures d in t.files && t.SizeOf(d) == r
  {
    PartDiffers(d);
    es, t := LastNameWins(NOTHING, 0, [Pick(d, p), Pick(d, r)]);
    assert IsLast([Pick(d, p), Pick(d, r)], 2, 1);
    assert d in View(t) && View(t)[d] == r;
  }

  // ---- the entries the catalog yields ----

  /** Its destination below the root, and the size asked for; no size is asked for as 0. */
  function PickOf(e: Entry): Pick {
    Pick(e.folder + "/" + e.name, if e.size.Some? then e.size.value else 0)
  }

  /** An entry without a size, or of size 0, has no size test. */
  lemma {:induction false} PickWants(e: Entry)
    ensures PickOf(e).want == 0 <==> e.size == None || e.size == Some(0)
    ensures PickOf(e).want > 0 ==> e.size == Some(PickOf(e).want)
  {
  }

  function PicksOf(entries: seq<Entry>): (picks: seq<Pick>)
    ensures |picks| == |entries| && forall i :: 0 <= i < |picks| ==> picks[i] == PickOf(entries[i])
  {
    seq(|entries|, i requires 0 <= i < |entries| => PickOf(entries[i]))
  }

  /** Split at the last slash, with a size. */
  ghost predicate Sized(entries: seq<Entry>) {
    forall e :: e in entries ==> '/' !in e.name && e.size.Some? && e.size.value > 0
  }

  lemma {:induction false} LastSlash(a: string, m: string)
    requires '/' !in m
    ensures var p := a + "/" + m; p[|a|] == '/' && forall k :: |a| < k < |p| ==> p[k] != '/'
  {
    var p := a + "/" + m;
    forall k | |a| < k < |p| ensures p[k] != '/' { assert p[k] == m[k - |a| - 1]; }
  }

  /** A path splits at its last slash in one way. */
  lemma {:induction false} SplitOnce(a: string, m: string, b: string, n: string)
    requires '/' !in m && '/' !in n && a + "/" + m == b + "/" + n
    ensures a == b && m == n
  {
    var p, q := a + "/" + m, b + "/" + n;
    LastSlash(a, m);
    LastSlash(b, n);
    assert |a| == |b|;
    assert a == p[..|a|] && b == q[..|b|] && m == p[|a| + 1..] && n == q[|b| + 1..];
  }

  /** Entries of distinct names and sizes never repeat a destination at one size. */
  lemma {:induction false} KeysMakeDistinctPicks(fold: Fold, some: seq<Entry>)
    requires DistinctKeys(fold, some) && Sized(some)
    ensures DistinctPicks(PicksOf(some)) && Positive(PicksOf(some))
    ensures DistinctNames(PicksOf(some)) <==> DistinctPaths(some)
  {
    var picks := PicksOf(some);
    forall i | 0 <= i < |picks| ensures picks[i].want > 0 { assert some[i] in some; }
    forall i, k | 0 <= i < k < |picks|
      ensures picks[i] != picks[k] && (picks[i].dest == picks[k].dest <==> SamePath(some[i], some[k]))
    {
      assert some[i] in some && some[k] in some;
      if picks[i].dest == picks[k].dest { SplitOnce(some[i].folder, some[i].name, some[k].folder, some[k].name); }
      assert KeyOf(fold, some[i]) != KeyOf(fold, some[k]);
    }
  }

  /** A job over everything `layout` keeps: every run that ends `done` is whole if and only if no two laid-out files
      clash. */
  lemma {:induction false} CatalogJobIff(fold: Fold, entries: seq<Entry>, s: State, j: nat)
    requires Fresh(s) && Sized(Once(fold, entries)) && PartsApart(PicksOf(Once(fold, entries)))
    ensures (forall es :: DoneIsWhole(s, j, PicksOf(Once(fold, entries)), es)) <==>
            (forall i: nat, k: nat :: !Clashing(fold, entries, i, k))
  {
    var kept := Once(fold, entries);
    if kept != [] { OnceMembers(fold, entries, kept[0]); }
    KeysMakeDistinctPicks(fold, kept);
    DoneIsWholeIff(s, j, PicksOf(kept));
    PathsDistinctIff(fold, entries);
  }
}
