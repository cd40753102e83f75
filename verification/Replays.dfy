/** A second merge over an unchanged disk copies nothing; what a recorded run may and may not skip. */
module Replays {
  import opened Basics
  import opened Paths
  import opened Fsx
  import opened Ledger
  import opened Planning
  import opened PlanProofs
  import opened Worlds
  import opened Histories

  /** Every copy row of the plan gets past its replace. */
  ghost predicate AllLand(files: Files, done: set<Path>, ios: map<Path, Io>, rows: seq<PlanRow>) {
    forall i :: 0 <= i < |rows| && rows[i].action.CopyTo? ==>
      var dst := rows[i].action.dst;
      dst != [] && dst !in done && rows[i].Path() in files && Replaces(files, rows[i].Path(), dst, IoAt(ios, dst))
  }

  /** The row's target holds its source's bytes. */
  ghost predicate Landed(before: Files, after: Files, row: PlanRow) {
    row.action.CopyTo? ==>
      row.Path() in before && row.action.dst in after && after[row.action.dst] == before[row.Path()]
  }

  /** Then each target holds its source's bytes at the end. */
  lemma {:induction false} ApplyLands(run: RunId, done: set<Path>, ios: map<Path, Io>, start: Progress,
                                      rows: seq<PlanRow>)
    requires NewTargets(start.files, rows) && AllLand(start.files, done, ios, rows)
    ensures var p := ApplyRows(run, done, ios, start, rows);
      forall i :: 0 <= i < |rows| ==> Landed(start.files, p.files, rows[i])
  {
    if rows != [] {
      var init, last := rows[..|rows| - 1], rows[|rows| - 1];
      assert rows == init + [last];
      NewTargetsInit(start.files, init, last);
      AllLandInit(start.files, done, ios, init, last);
      ApplyLands(run, done, ios, start, init);
      ApplyCarries(run, done, ios, start, init);
      var p := ApplyRows(run, done, ios, start, init);
      var p' := ApplyRow(run, done, ios, p, last);
      LandsLater(run, done, ios, start, p, init, last);
      forall i | 0 <= i < |init| ensures Landed(start.files, p'.files, rows[i]) {
        assert rows[i] == init[i] && Landed(start.files, p.files, init[i]);
        if init[i].action.CopyTo? { TargetNotFreed(done, ios, start.files, init, i, last); }
      }
    }
  }

  lemma {:induction false} AllLandInit(files: Files, done: set<Path>, ios: map<Path, Io>, init: seq<PlanRow>,
                                       last: PlanRow)
    requires AllLand(files, done, ios, init + [last])
    ensures AllLand(files, done, ios, init)
  {
    assert forall i :: 0 <= i < |init| ==> (init + [last])[i] == init[i];
  }

  lemma {:induction false} LandsLater(run: RunId, done: set<Path>, ios: map<Path, Io>, start: Progress, p: Progress,
                                      init: seq<PlanRow>, last: PlanRow)
    requires Carried(done, ios, start, p, init) && AllLand(start.files, done, ios, init + [last])
    requires NewTargets(start.files, init + [last])
    ensures var p' := ApplyRow(run, done, ios, p, last);
      && Landed(start.files, p'.files, last)
      && (forall q :: q in p.files && !Frees(done, ios, last, q) && last.action != CopyTo(q) ==>
            q in p'.files && p'.files[q] == p.files[q])
  {
    assert (init + [last])[|init|] == last;
    assert last.action.CopyTo? ==> last.Path() in start.files;
    SourceStays(done, ios, start, p, init, last);
    RowSteps(run, done, ios, p, last);
  }

  /** Where a scanned file's bytes are once the merge is through. */
  ghost predicate Placed(c: Config, walks: Walks, files: Files, plan: seq<PlanRow>, after: Files, bytes: Bytes) {
    AlreadyThere(c, walks, files, bytes) ||
    exists i :: 0 <= i < |plan| && plan[i].action.CopyTo? && plan[i].action.dst in after &&
      after[plan[i].action.dst] == bytes
  }

  lemma {:induction false} ScannedIsPlaced(c: Config, walks: Walks, files: Files, plan: seq<PlanRow>, after: Files,
                                           f: Found)
    requires SourcesApart(c) && MergePlan(c, walks, files) == Some(plan) && f in Scan(files, walks, c.srcs)
    requires forall i :: 0 <= i < |plan| && plan[i].action.CopyTo? ==>
      plan[i].action.dst in after && plan[i].Path() in files && after[plan[i].action.dst] == files[plan[i].Path()]
    ensures f.path in files && Placed(c, walks, files, plan, after, files[f.path])
  {
    RowForFound(c, walks, files, f);
    var row :| row in plan && row.seen.found == f;
    PlanMeans(c, walks, files, row);
    if row.action.DuplicateOf? {
      SurvivorIsCopied(c, walks, files, row);
      var stand :| stand in plan && Stands(files, stand, row);
      var i :| 0 <= i < |plan| && plan[i] == stand;
    } else if row.action.CopyTo? {
      var i :| 0 <= i < |plan| && plan[i] == row;
    }
  }

  /** The second run looks at the same roots and lists everything it should. */
  ghost predicate ListsAfter(c: Config, walks: Walks, files: Files, plan: seq<PlanRow>, c2: Config, walks2: Walks,
                             after: Files)
  {
    && c2.srcs == c.srcs && c2.dest == c.dest && c2.library == c.library && c2.subtree == c.subtree
    && (forall f :: f in Scan(after, walks2, c2.srcs) ==> f.path in files ==> f in Scan(files, walks, c.srcs))
    && (forall q :: q in DestFiles(files, c, walks) ==> q in DestFiles(after, c2, walks2))
    && (forall q :: q in LibraryFiles(files, c, walks) ==> q in LibraryFiles(after, c2, walks2))
    && (forall i :: 0 <= i < |plan| && plan[i].action.CopyTo? ==> plan[i].action.dst in DestFiles(after, c2, walks2))
  }

  lemma {:induction false} PlacedIsThere(c: Config, walks: Walks, files: Files, plan: seq<PlanRow>, c2: Config,
                                         walks2: Walks, after: Files, bytes: Bytes)
    requires Grows(files, after) && ListsAfter(c, walks, files, plan, c2, walks2, after)
    requires Placed(c, walks, files, plan, after, bytes)
    ensures AlreadyThere(c2, walks2, after, bytes)
  {
    var q: Path;
    if HeldOnlyOnDest(c, walks, files, bytes) {
      q :| q in DestFiles(files, c, walks) && q !in LibraryFiles(files, c, walks) && q in files && files[q] == bytes;
    } else if HeldIn(files, LibraryFiles(files, c, walks), bytes) {
      q :| q in LibraryFiles(files, c, walks) && q in files && files[q] == bytes;
    } else {
      var i :| 0 <= i < |plan| && plan[i].action.CopyTo? && plan[i].action.dst in after &&
        after[plan[i].action.dst] == bytes;
      q := plan[i].action.dst;
    }
    assert q in after && after[q] == bytes;
    if q in LibraryFiles(after, c2, walks2) {
      assert HeldIn(after, LibraryFiles(after, c2, walks2), bytes);
    } else {
      assert q in DestFiles(after, c2, walks2);
      assert HeldOnlyOnDest(c2, walks2, after, bytes);
    }
  }

  /** A merge that was applied and failed nowhere, and a second one of the same sources. */
  ghost predicate Replayed(kept: set<Path>, w: World, m: MergeCall, plan: seq<PlanRow>, m2: MergeCall) {
    && Safe(kept, w) && Lawful(kept, w.files, m) && Lawful(kept, Merge(w, m).files, m2)
    && SourcesApart(m.config) && SourcesApart(m2.config)
    && MergePlan(m.config, m.walks, w.files) == Some(plan)
    && m.config.apply && m.enoughSpace && m.copies >= |plan|
    && AllLand(w.files, CompletedPaths(w.rows, m.config.run), m.ios, plan)
    && ListsAfter(m.config, m.walks, w.files, plan, m2.config, m2.walks, Merge(w, m).files)
  }

  /** Everything the second merge scans is on the destination or in the library by then. */
  lemma {:induction false} ReplayFindsAll(kept: set<Path>, w: World, m: MergeCall, plan: seq<PlanRow>, m2: MergeCall,
                                          f: Found)
    requires Replayed(kept, w, m, plan, m2) && f in Scan(Merge(w, m).files, m2.walks, m2.config.srcs)
    ensures f.path in Merge(w, m).files
    ensures AlreadyThere(m2.config, m2.walks, Merge(w, m).files, Merge(w, m).files[f.path])
  {
    var after := Merge(w, m).files;
    MergeHasEffect(kept, w, m);
    MergeTargetsHold(w, m, plan);
    var s :| s in m2.config.srcs && Under(s, f.path);
    LawfulSources(kept, after, m2, f.path, s);
    ScannedIsPlaced(m.config, m.walks, w.files, plan, after, f);
    PlacedIsThere(m.config, m.walks, w.files, plan, m2.config, m2.walks, after, w.files[f.path]);
  }

  /** Rows that need no name are always planned, and none of them as a copy. */
  lemma {:induction false} HeldRowsPlan(c: Config, files: Files, seen: seq<Seen>)
    requires forall s :: s in seen ==> s.found.rel != [] && s.found.path != []
    requires forall s :: s in seen ==> s.scopes != {} || s.survivor != s.found.path
    ensures PlanRows(c, files, seen).Some?
    ensures forall i :: 0 <= i < |seen| ==> !PlanRows(c, files, seen).value[i].action.CopyTo?
  {
    if seen != [] {
      var init, last := seen[..|seen| - 1], seen[|seen| - 1];
      assert last in seen;
      HeldRowsPlan(c, files, init);
      HeldRow(c, files, PlanRows(c, files, init).value, last);
    }
  }

  lemma {:induction false} HeldRow(c: Config, files: Files, before: seq<PlanRow>, s: Seen)
    requires s.found.rel != [] && s.found.path != [] && (s.scopes != {} || s.survivor != s.found.path)
    ensures Decide(c, files, before, s).Some? && !Decide(c, files, before, s).value.action.CopyTo?
  {
    if s.survivor == s.found.path {
      var l :| l in s.scopes;
      assert l == OnDest || l == InLibrary;
    }
  }

  /** After a merge that was applied and failed nowhere, merging the same sources again copies nothing: there is
      a plan, and every row is already on the destination, already in the library, or a duplicate. */
  lemma {:induction false} ReplayCopiesNothing(kept: set<Path>, w: World, m: MergeCall, plan: seq<PlanRow>,
                                               m2: MergeCall)
    requires Replayed(kept, w, m, plan, m2)
    ensures MergePlan(m2.config, m2.walks, Merge(w, m).files).Some?
    ensures forall row :: row in MergePlan(m2.config, m2.walks, Merge(w, m).files).value ==>
      !row.action.CopyTo? && row.sha.None?
  {
    var after := Merge(w, m).files;
    PlanIsPlanRows(m2.config, m2.walks, after);
    var seen := InPathOrder(SeenRows(m2.config, m2.walks, after));
    forall s | s in seen ensures s.scopes != {} {
      ReplayFindsAll(kept, w, m, plan, m2, s.found);
      SeenReads(m2.config, m2.walks, after, s.found);
    }
    HeldRowsPlan(m2.config, after, seen);
  }

  /** The files a merge leaves are the ones its copies left. */
  lemma {:induction false} MergeFiles(w: World, m: MergeCall, plan: seq<PlanRow>)
    requires MergePlan(m.config, m.walks, w.files) == Some(plan)
    requires m.config.apply && m.enoughSpace && m.copies >= |plan|
    ensures Merge(w, m).files ==
      ApplyRows(m.config.run, CompletedPaths(w.rows, m.config.run), m.ios, Progress(w.files, w.rows, []), plan).files
  {
    MergeCases(w, m);
    var w0 := Register(w, m.config.run, m.config.medium);
    var staged := Candidates(Planning.Placed(plan), plan);
    AfterPlanFiles(w0, m, plan);
    CarryAll(w0.(stages := w0.stages[m.config.run := staged]), m, plan);
  }

  lemma {:induction false} AfterPlanFiles(w: World, m: MergeCall, plan: seq<PlanRow>)
    requires m.config.apply && m.enoughSpace
    ensures AfterPlan(w, m, plan).files ==
      Carry(w.(stages := w.stages[m.config.run := Candidates(Planning.Placed(plan), plan)]), m, plan).files
  {
  }

  lemma {:induction false} CarryAll(w: World, m: MergeCall, plan: seq<PlanRow>)
    requires m.copies >= |plan|
    ensures Carry(w, m, plan) ==
      ApplyRows(m.config.run, CompletedPaths(w.rows, m.config.run), m.ios, Progress(w.files, w.rows, []), plan)
  {
    assert plan[..Min(m.copies, |plan|)] == plan;
  }

  /** Whatever leftovers the destination has, when every copy lands each target holds its source's bytes. */
  lemma {:induction false} MergeTargetsHold(w: World, m: MergeCall, plan: seq<PlanRow>)
    requires CleanSources(m.config, w.files) && Roomy(m.config, w.files)
    requires MergePlan(m.config, m.walks, w.files) == Some(plan)
    requires m.config.apply && m.enoughSpace && m.copies >= |plan|
    requires AllLand(w.files, CompletedPaths(w.rows, m.config.run), m.ios, plan)
    ensures forall i :: 0 <= i < |plan| && plan[i].action.CopyTo? ==>
      plan[i].action.dst in Merge(w, m).files && plan[i].Path() in w.files &&
      Merge(w, m).files[plan[i].action.dst] == w.files[plan[i].Path()]
  {
    PlanIsNew(m.config, m.walks, w.files, plan);
    MergeFiles(w, m, plan);
    ApplyLands(m.config.run, CompletedPaths(w.rows, m.config.run), m.ios, Progress(w.files, w.rows, []), plan);
    forall i | 0 <= i < |plan| && plan[i].action.CopyTo?
      ensures plan[i].action.dst in Merge(w, m).files && plan[i].Path() in w.files &&
        Merge(w, m).files[plan[i].action.dst] == w.files[plan[i].Path()]
    {
      assert Landed(w.files, Merge(w, m).files, plan[i]);
    }
  }

  // ---- the resume skip ----

  /** Every protected destination the table records as finished is on disk. */
  ghost predicate RecordedExists(kept: set<Path>, w: World) {
    forall i :: 0 <= i < |w.rows| ==>
      && (w.rows[i].op == Delete ==> w.rows[i].dst.None?)
      && (w.rows[i].dst.Some? && Guarded(kept, w.rows[i].dst.value) ==> w.rows[i].dst.value in w.files)
  }

  lemma {:induction false} RecordedStays(kept: set<Path>, w: World, es: seq<Event>)
    requires Safe(kept, w) && LawfulHistory(kept, w, es) && RecordedExists(kept, w)
    ensures RecordedExists(kept, Run(w, es))
  {
    if es != [] {
      var w1, e := Run(w, es[..|es| - 1]), es[|es| - 1];
      RecordedStays(kept, w, es[..|es| - 1]);
      NoContentIsLost(kept, w, es[..|es| - 1]);
      match e {
        case MergeEvent(m) => MergeRecords(kept, w1, m);
        case PurgeEvent(p) => PurgeRecords(kept, w1, p);
        case EditEvent(_, _) =>
      }
    }
  }

  lemma {:induction false} MergeRecords(kept: set<Path>, w: World, m: MergeCall)
    requires Safe(kept, w) && Lawful(kept, w.files, m) && RecordedExists(kept, w)
    ensures RecordedExists(kept, Merge(w, m))
  {
    MergeHasEffect(kept, w, m);
    EffectRecords(kept, w, Merge(w, m));
  }

  lemma {:induction false} EffectRecords(kept: set<Path>, w: World, w': World)
    requires MergeEffect(kept, w, w') && RecordedExists(kept, w)
    ensures RecordedExists(kept, w')
  {
    forall i | 0 <= i < |w'.rows|
      ensures w'.rows[i].op == Delete ==> w'.rows[i].dst.None?
      ensures w'.rows[i].dst.Some? && Guarded(kept, w'.rows[i].dst.value) ==> w'.rows[i].dst.value in w'.files
    {
      if i < |w.rows| { assert w'.rows[i] == w.rows[i]; }
    }
  }

  lemma {:induction false} PurgeRecords(kept: set<Path>, w: World, p: PurgeCall)
    requires Safe(kept, w) && RecordedExists(kept, w)
    ensures RecordedExists(kept, Purge(w, p))
  {
    PurgeHasEffect(w, p);
    var w' := Purge(w, p);
    forall q | q in w.files && Guarded(kept, q) ensures q in w'.files {
      if q !in w'.files { RemovedIsCovered(kept, p.run, w, w', q); }
    }
  }

  /** In a history nobody else interferes with, the resume skip of apply_plan never answers:
      a destination the run recorded is on disk, and a fresh plan never targets such a name. */
  lemma {:induction false} ResumeSkipNeverFires(kept: set<Path>, w: World, es: seq<Event>, m: MergeCall,
                                                plan: seq<PlanRow>)
    requires Safe(kept, w) && RecordedExists(kept, w) && LawfulHistory(kept, w, es)
    requires Lawful(kept, Run(w, es).files, m)
    requires MergePlan(m.config, m.walks, Run(w, es).files) == Some(plan)
    ensures forall i :: 0 <= i < |plan| && plan[i].action.CopyTo? ==>
      plan[i].action.dst !in CompletedPaths(Run(w, es).rows, m.config.run)
  {
    NoContentIsLost(kept, w, es);
    RecordedStays(kept, w, es);
    var w' := Run(w, es);
    PlanIsGuarded(kept, w'.files, m, plan);
    forall i | 0 <= i < |plan| && plan[i].action.CopyTo?
      ensures plan[i].action.dst !in CompletedPaths(w'.rows, m.config.run)
    {
      assert NewTarget(w'.files, plan[i]) && Guarded(kept, plan[i].action.dst);
    }
  }
}
