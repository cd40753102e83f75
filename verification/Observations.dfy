/** Merges that copy nothing: the disk stays as it is, and the table grows all the same. */
module Observations {
  import opened Basics
  import opened Paths
  import opened Fsx
  import opened Ledger
  import opened Planning
  import opened PlanProofs
  import opened Worlds
  import opened Histories
  import opened Reclaims
  import R = Replays

  /** No row is a copy, and no row has a hash yet. */
  ghost predicate CopyFree(plan: seq<PlanRow>) {
    forall i :: 0 <= i < |plan| ==> !plan[i].action.CopyTo? && plan[i].sha.None?
  }

  lemma {:induction false} NothingCarried(run: RunId, done: set<Path>, ios: map<Path, Io>, start: Progress,
                                          plan: seq<PlanRow>)
    requires CopyFree(plan)
    ensures ApplyRows(run, done, ios, start, plan).files == start.files
    ensures ApplyRows(run, done, ios, start, plan).rows == start.rows
  {
    if plan != [] {
      var init := plan[..|plan| - 1];
      forall i | 0 <= i < |init| ensures init[i] == plan[i] {}
      NothingCarried(run, done, ios, start, init);
    }
  }

  /** Then every row is staged, with its survivor as proof. */
  lemma {:induction false} AllAreCandidates(placed: map<Path, Path>, plan: seq<PlanRow>)
    requires CopyFree(plan)
    ensures Placed(plan) == map[]
    ensures |Candidates(placed, plan)| == |plan|
    ensures forall i :: 0 <= i < |plan| ==> Candidates(placed, plan)[i] == CandidateOf(placed, plan[i])
  {
    if plan != [] {
      var init := plan[..|plan| - 1];
      forall i | 0 <= i < |init| ensures init[i] == plan[i] {}
      AllAreCandidates(placed, init);
    }
  }

  /** Whatever the roots, a row's survivor holds the row's bytes. */
  lemma {:induction false} SurvivorHolds(c: Config, walks: Walks, files: Files, row: PlanRow)
    requires MergePlan(c, walks, files).Some? && row in MergePlan(c, walks, files).value
    ensures row.Path() in files && row.seen.survivor in files && files[row.seen.survivor] == files[row.Path()]
  {
    var before := RowIsDecided(c, walks, files, row);
    PathsIn(Scan(files, walks, c.srcs), row.seen.found);
    GroupMembers(files, Indexed(files, c, walks), row.Path());
    var group := GroupFor(files, Indexed(files, c, walks), row.Path());
    assert row.seen.survivor == group[0] && group[0] in group;
  }

  lemma {:induction false} TwoRowsEach(run: RunId, files: Files, ks: seq<Candidate>)
    requires forall k :: k in ks ==> Proves(files, k)
    ensures |AuthoriseRows(run, files, ks)| == |ks| + |ks|
  {
    if ks != [] { TwoRowsEach(run, files, ks[..|ks| - 1]); }
  }

  /** The call is applied and gets through every row of this plan. */
  ghost predicate ReachesAll(w: World, m: MergeCall, plan: seq<PlanRow>) {
    && MergePlan(m.config, m.walks, w.files) == Some(plan)
    && m.config.apply && m.enoughSpace && m.copies >= |plan| && m.proofs >= |plan|
  }

  /** The stage of a copy-free plan checks out whole, whatever the roots. */
  lemma {:induction false} StageProves(w: World, m: MergeCall, plan: seq<PlanRow>)
    requires ReachesAll(w, m, plan) && CopyFree(plan)
    ensures var staged := Candidates(Placed(plan), plan);
      |staged| == |plan| && forall k :: k in staged ==> Proves(w.files, k)
  {
    var staged := Candidates(Placed(plan), plan);
    AllAreCandidates(Placed(plan), plan);
    forall k | k in staged ensures Proves(w.files, k) {
      var i :| 0 <= i < |staged| && staged[i] == k;
      assert plan[i] in plan;
      SurvivorHolds(m.config, m.walks, w.files, plan[i]);
    }
  }

  /** The copies change nothing, so the rest of the merge sees the world as it was. */
  lemma {:induction false} CopyFreeWorld(w: World, m: MergeCall, plan: seq<PlanRow>, staged: seq<Candidate>)
    requires ReachesAll(w, m, plan) && CopyFree(plan) && staged == Candidates(Placed(plan), plan) && |staged| == |plan|
    ensures Merge(w, m).files == w.files
    ensures Merge(w, m).rows == w.rows + AuthoriseRows(m.config.run, w.files, staged)
    ensures m.config.run in Merge(w, m).stages && Merge(w, m).stages[m.config.run] == HashCandidates(w.files, staged)
    ensures Merge(w, m).runs == Register(w, m.config.run, m.config.medium).runs
  {
    var p := ThroughWorlds(w, m, plan);
    NothingCarried(m.config.run, CompletedPaths(w.rows, m.config.run), m.ios, Progress(w.files, w.rows, []), plan);
  }

  lemma {:induction false} StageSettles(run: RunId, files: Files, before: Rows, ks: seq<Candidate>, rows: Rows)
    requires rows == before + AuthoriseRows(run, files, ks) && forall k :: k in ks ==> Proves(files, k)
    ensures Settled(run, files, before, [], ks, rows) && |rows| == |before| + |ks| + |ks|
  {
    TwoRowsEach(run, files, ks);
    assert before + [] == before;
  }

  /** A merge that copies nothing leaves the disk alone and writes an observation and a delete request for every
      row, on any table and with any roots. */
  lemma {:induction false} CopyFreeMerge(w: World, m: MergeCall, plan: seq<PlanRow>)
    requires ReachesAll(w, m, plan) && CopyFree(plan)
    ensures Merge(w, m).files == w.files
    ensures Settled(m.config.run, w.files, w.rows, [], Candidates(Placed(plan), plan), Merge(w, m).rows)
    ensures |Merge(w, m).rows| == |w.rows| + |plan| + |plan|
  {
    var staged := Candidates(Placed(plan), plan);
    StageProves(w, m, plan);
    CopyFreeWorld(w, m, plan, staged);
    StageSettles(m.config.run, w.files, w.rows, staged, Merge(w, m).rows);
  }

  /** The documentation calls a replayed run a no-op. After a merge that failed nowhere, a replay that is applied
      and gets through leaves every file as it is and adds two rows for every file it scans: the table is left
      alone exactly when there was nothing to scan. */
  lemma {:induction false} ReplayIsNoOpIff(kept: set<Path>, w: World, m: MergeCall, plan: seq<PlanRow>, m2: MergeCall)
    requires R.Replayed(kept, w, m, plan, m2)
    requires var found := Scan(Merge(w, m).files, m2.walks, m2.config.srcs);
      m2.config.apply && m2.enoughSpace && m2.copies >= |found| && m2.proofs >= |found|
    ensures var w1 := Merge(w, m);
      var w2, found := Merge(w1, m2), Scan(w1.files, m2.walks, m2.config.srcs);
      && w2.files == w1.files
      && |w2.rows| == |w1.rows| + |found| + |found|
      && (w2.rows == w1.rows <==> found == [])
  {
    R.ReplayCopiesNothing(kept, w, m, plan, m2);
    SecondMerge(Merge(w, m), m2);
  }

  lemma {:induction false} SecondMerge(w: World, m: MergeCall)
    requires var found := Scan(w.files, m.walks, m.config.srcs);
      m.config.apply && m.enoughSpace && m.copies >= |found| && m.proofs >= |found|
    requires MergePlan(m.config, m.walks, w.files).Some?
    requires forall row :: row in MergePlan(m.config, m.walks, w.files).value ==> !row.action.CopyTo? && row.sha.None?
    ensures var w', found := Merge(w, m), Scan(w.files, m.walks, m.config.srcs);
      && w'.files == w.files && |w'.rows| == |w.rows| + |found| + |found| && w.rows <= w'.rows
  {
    var plan := MergePlan(m.config, m.walks, w.files).value;
    PlanCounts(m.config, m.walks, w.files);
    CopyFreeMerge(w, m, plan);
  }

  lemma {:induction false} PlanCounts(c: Config, walks: Walks, files: Files)
    ensures MergePlan(c, walks, files).Some? ==> |MergePlan(c, walks, files).value| == |Scan(files, walks, c.srcs)|
  {
    var seen := SeenRows(c, walks, files);
    assert |InPathOrder(seen)| == |multiset(InPathOrder(seen))| == |multiset(seen)| == |seen|;
  }
}
