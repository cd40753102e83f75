/** What the lines of a run's summary count, read off the disk before and after. */
module Deeds {
  import opened Basics
  import opened Paths
  import opened Fsx
  import opened Ledger
  import opened Planning
  import opened PlanProofs
  import opened Worlds
  import opened Histories
  import opened Report
  import R = Replays

  /** The call was stopped after the rename, while it measured the copy. */
  predicate StoppedMeasuring(io: Io) { io.fate != Completes && io.fate.at == Measuring }

  /** How a copy row fared: recorded before; or not on the disk afterwards, or stopped while it was measured; or there,
      by reflink or by copy. */
  predicate Fared(done: set<Path>, ios: map<Path, Io>, after: Files, row: PlanRow, d: Deed) {
    row.action.CopyTo? &&
    var dst := row.action.dst;
    match d
    case ResumeSkip => dst in done
    case CopyFailed => dst !in done && (dst !in after || StoppedMeasuring(IoAt(ios, dst)))
    case CopyReflink => dst !in done && dst in after && !StoppedMeasuring(IoAt(ios, dst)) && IoAt(ios, dst).reflinked
    case CopyCopy => dst !in done && dst in after && !StoppedMeasuring(IoAt(ios, dst)) && !IoAt(ios, dst).reflinked
    case Verified => false
  }

  /** The rows that fared so, counted with their sizes. */
  function FaredTally(done: set<Path>, ios: map<Path, Io>, after: Files, rows: seq<PlanRow>, d: Deed): Tally {
    if rows == [] then Tally(0, 0)
    else
      var before := FaredTally(done, ios, after, rows[..|rows| - 1], d);
      if Fared(done, ios, after, rows[|rows| - 1], d)
      then Tally(before.files + 1, before.bytes + rows[|rows| - 1].Size()) else before
  }

  /** The same targets are there. */
  ghost predicate SameTargets(a: Files, b: Files, rows: seq<PlanRow>) {
    forall i :: 0 <= i < |rows| && rows[i].action.CopyTo? ==> (rows[i].action.dst in a <==> rows[i].action.dst in b)
  }

  lemma {:induction false} FaredSame(done: set<Path>, ios: map<Path, Io>, a: Files, b: Files, rows: seq<PlanRow>,
                                     d: Deed)
    requires SameTargets(a, b, rows)
    ensures FaredTally(done, ios, a, rows, d) == FaredTally(done, ios, b, rows, d)
  {
    if rows != [] {
      var init := rows[..|rows| - 1];
      assert forall i :: 0 <= i < |init| ==> init[i] == rows[i];
      FaredSame(done, ios, a, b, init, d);
    }
  }

  /** One row's deed is how it fared. */
  lemma {:induction false} DeedIsFared(run: RunId, done: set<Path>, ios: map<Path, Io>, p: Progress, row: PlanRow,
                                       d: Deed)
    requires row.Path() in p.files && row.Size() == |p.files[row.Path()]|
    requires row.action.CopyTo? ==> row.action.dst != [] && row.action.dst !in p.files
    ensures var o := DeedOf(run, done, ios, p, row);
      && (o.Some? && o.value.0 == d <==> Fared(done, ios, ApplyRow(run, done, ios, p, row).files, row, d))
      && (o.Some? ==> o.value.1 == row.Size())
  {
    if row.action.CopyTo? {
      StagingDiffers(row.action.dst);
      LandsIff(p.files, row.Path(), row.action.dst, true, None, IoAt(ios, row.action.dst));
    }
  }

  lemma {:induction false} EarlierTargets(run: RunId, done: set<Path>, ios: map<Path, Io>, start: Progress,
                                          p: Progress, init: seq<PlanRow>, last: PlanRow)
    requires Carried(done, ios, start, p, init) && NewTargets(start.files, init + [last])
    ensures SameTargets(p.files, ApplyRow(run, done, ios, p, last).files, init)
  {
    NewTargetsInit(start.files, init, last);
    RowSteps(run, done, ios, p, last);
    forall i | 0 <= i < |init| && init[i].action.CopyTo?
      ensures init[i].action.dst in p.files <==> init[i].action.dst in ApplyRow(run, done, ios, p, last).files
    {
      TargetNotFreed(done, ios, start.files, init, i, last);
    }
  }

  /** Each line of the summary counts exactly the rows that fared so, with their sizes. */
  lemma {:induction false} DeedsAreFared(run: RunId, done: set<Path>, ios: map<Path, Io>, start: Progress,
                                         rows: seq<PlanRow>, d: Deed)
    requires NewTargets(start.files, rows)
    requires forall row :: row in rows ==> row.Path() in start.files && row.Size() == |start.files[row.Path()]|
    ensures Did(run, done, ios, start, rows, d) ==
      FaredTally(done, ios, ApplyRows(run, done, ios, start, rows).files, rows, d)
  {
    if rows != [] {
      var init, last := rows[..|rows| - 1], rows[|rows| - 1];
      assert rows == init + [last] && last in rows;
      NewTargetsInit(start.files, init, last);
      forall row | row in init ensures row in rows { }
      DeedsAreFared(run, done, ios, start, init, d);
      ApplyCarries(run, done, ios, start, init);
      LastFared(run, done, ios, start, ApplyRows(run, done, ios, start, init), init, last, d);
    }
  }

  lemma {:induction false} LastFared(run: RunId, done: set<Path>, ios: map<Path, Io>, start: Progress, p: Progress,
                                     init: seq<PlanRow>, last: PlanRow, d: Deed)
    requires Carried(done, ios, start, p, init) && NewTargets(start.files, init + [last])
    requires last.Path() in start.files && last.Size() == |start.files[last.Path()]|
    ensures var after := ApplyRow(run, done, ios, p, last).files;
      Book(DeedOf(run, done, ios, p, last), d, FaredTally(done, ios, p.files, init, d)) ==
        FaredTally(done, ios, after, init + [last], d)
  {
    var after := ApplyRow(run, done, ios, p, last).files;
    NewTargetsInit(start.files, init, last);
    SourceStays(done, ios, start, p, init, last);
    DeedIsFared(run, done, ios, p, last, d);
    SameTally(run, done, ios, start, p, init, last, d);
    FaredSnoc(done, ios, after, init, last, d);
  }

  lemma {:induction false} SameTally(run: RunId, done: set<Path>, ios: map<Path, Io>, start: Progress, p: Progress,
                                     init: seq<PlanRow>, last: PlanRow, d: Deed)
    requires Carried(done, ios, start, p, init) && NewTargets(start.files, init + [last])
    ensures FaredTally(done, ios, p.files, init, d) ==
      FaredTally(done, ios, ApplyRow(run, done, ios, p, last).files, init, d)
  {
    EarlierTargets(run, done, ios, start, p, init, last);
    FaredSame(done, ios, p.files, ApplyRow(run, done, ios, p, last).files, init, d);
  }

  lemma {:induction false} FaredSnoc(done: set<Path>, ios: map<Path, Io>, after: Files, init: seq<PlanRow>,
                                     last: PlanRow, d: Deed)
    ensures FaredTally(done, ios, after, init + [last], d) ==
      if Fared(done, ios, after, last, d) then Add(FaredTally(done, ios, after, init, d), last.Size())
      else FaredTally(done, ios, after, init, d)
  {
    assert (init + [last])[..|init|] == init;
  }

  // ---- for a whole merge ----

  /** The lines of a merge's summary: what it skipped, failed, cloned and copied, by the disk it leaves. */
  lemma {:induction false} MergeDeeds(w: World, m: MergeCall, plan: seq<PlanRow>, d: Deed)
    requires Clear(m.config, w.files) && MergePlan(m.config, m.walks, w.files) == Some(plan) && m.copies >= |plan|
    ensures var done := CompletedPaths(w.rows, m.config.run);
      Did(m.config.run, done, m.ios, Progress(w.files, w.rows, []), plan, d) ==
        FaredTally(done, m.ios, Carry(w, m, plan).files, plan, d)
  {
    PlanFits(m.config, m.walks, w.files, plan);
    R.CarryAll(w, m, plan);
    DeedsAreFared(m.config.run, CompletedPaths(w.rows, m.config.run), m.ios, Progress(w.files, w.rows, []), plan, d);
  }

  lemma {:induction false} PlanFits(c: Config, walks: Walks, files: Files, plan: seq<PlanRow>)
    requires Clear(c, files) && MergePlan(c, walks, files) == Some(plan)
    ensures NewTargets(files, plan)
    ensures forall row :: row in plan ==> row.Path() in files && row.Size() == |files[row.Path()]|
  {
    PlanIsNew(c, walks, files, plan);
    PlannedSizes(c, walks, files, plan);
  }

  lemma {:induction false} PlannedSizes(c: Config, walks: Walks, files: Files, plan: seq<PlanRow>)
    requires MergePlan(c, walks, files) == Some(plan)
    ensures forall row :: row in plan ==> row.Path() in files && row.Size() == |files[row.Path()]|
  {
    PlanIsPlanRows(c, walks, files);
    var seen := InPathOrder(SeenRows(c, walks, files));
    forall row | row in plan ensures row.Path() in files && row.Size() == |files[row.Path()]| {
      var i :| 0 <= i < |plan| && plan[i] == row;
      assert seen[i] in seen;
    }
  }

  // ---- the buckets ----

  function Places(rows: seq<PlanRow>, test: PlanRow -> bool): set<int> {
    set i | 0 <= i < |rows| && test(rows[i])
  }

  lemma {:induction false} PlacesSnoc(rows: seq<PlanRow>, test: PlanRow -> bool)
    requires rows != []
    ensures var n := |rows| - 1;
      |Places(rows, test)| == |Places(rows[..n], test)| + if test(rows[n]) then 1 else 0
  {
    var n := |rows| - 1;
    assert Places(rows, test) == Places(rows[..n], test) + if test(rows[n]) then {n} else {};
  }

  /** The bytes of the rows that a test picks out. */
  function Total(rows: seq<PlanRow>, test: PlanRow -> bool): nat {
    if rows == [] then 0
    else Total(rows[..|rows| - 1], test) + if test(rows[|rows| - 1]) then rows[|rows| - 1].seen.found.size else 0
  }

  /** A bucket counts the rows of one action: `test` picks out the action that belongs to it. */
  lemma {:induction false} BucketRows(rows: seq<PlanRow>, b: Bucket, test: PlanRow -> bool)
    requires forall row :: test(row) <==>
      match b
      case OnDestBucket => row.action.AlreadyOnDest?
      case InLibraryBucket => row.action.AlreadyInLibrary?
      case DupAcrossSources => row.action.DuplicateOf?
      case NetNew => row.action.CopyTo?
    ensures InBucket(rows, b) == Tally(|Places(rows, test)|, Total(rows, test))
  {
    if rows != [] {
      BucketRows(rows[..|rows| - 1], b, test);
      PlacesSnoc(rows, test);
    }
  }

  // ---- the verification ----

  /** The copy is there, as long as it was scanned, and with the recorded bytes if any were recorded. */
  predicate Good(files: Files, row: PlanRow, dst: Path) {
    dst in files && |files[dst]| == row.seen.found.size && (row.sha == None || row.sha == Some(Sha256(files[dst])))
  }

  /** The verification passes exactly when every copy of the plan is good, and its line counts the good ones. */
  lemma {:induction false} CheckedRows(files: Files, rows: seq<PlanRow>, test: PlanRow -> bool)
    requires forall row :: test(row) <==> row.action.CopyTo? && Good(files, row, row.action.dst)
    ensures Checked(files, rows) == Tally(|Places(rows, test)|, Total(rows, test))
    ensures AllVerify(files, rows) <==>
      forall i :: 0 <= i < |rows| && rows[i].action.CopyTo? ==> Good(files, rows[i], rows[i].action.dst)
  {
    GoodIffVerifies(files);
    if rows != [] {
      CheckedRows(files, rows[..|rows| - 1], test);
      PlacesSnoc(rows, test);
    }
    assert AllVerify(files, rows) <==> forall i :: 0 <= i < |rows| ==> Verifies(files, rows[i]);
  }

  lemma {:induction false} GoodIffVerifies(files: Files)
    ensures forall row: PlanRow ::
      Verifies(files, row) <==> (row.action.CopyTo? ==> Good(files, row, row.action.dst))
  {
  }
}
