/** The commit table and the stage a merge leaves behind, row by row, however far the call gets. */
module Records {
  import opened Basics
  import opened Paths
  import opened Fsx
  import opened Ledger
  import opened Planning
  import opened PlanProofs
  import opened Worlds
  import opened Histories

  // ---- the copies ----

  /** The run finished this destination before. */
  ghost predicate Finished(rows: Rows, run: RunId, dst: Path) {
    exists i :: 0 <= i < |rows| && rows[i].run == run && rows[i].status == Done && rows[i].dst == Some(dst)
  }

  /** The call for this destination goes through: nothing fails, and what reaches the disk is what was sent. */
  predicate GoesWell(ios: map<Path, Io>, dst: Path, bytes: Bytes) {
    dst !in ios || (ios[dst].fate == Completes && (ios[dst].reflinked || ios[dst].landed == bytes))
  }

  /** A copy that goes through is recorded with what it holds; nothing else a plan asks for is. */
  ghost function CopyRecord(run: RunId, table: Rows, ios: map<Path, Io>, files: Files, row: PlanRow): Rows
    requires row.Path() in files
  {
    var bytes := files[row.Path()];
    match row.action
    case CopyTo(dst) =>
      if Finished(table, run, dst) || !GoesWell(ios, dst, bytes) then []
      else [Row(run, Copy, None, Some(dst), None, Some(Sha256(bytes)), |bytes|, Done, "apply:copy")]
    case _ => []
  }

  ghost function CopyRecords(run: RunId, table: Rows, ios: map<Path, Io>, files: Files, plan: seq<PlanRow>): Rows
    requires forall i :: 0 <= i < |plan| ==> plan[i].Path() in files
  {
    if plan == [] then []
    else
      var n := |plan| - 1;
      CopyRecords(run, table, ios, files, plan[..n]) + CopyRecord(run, table, ios, files, plan[n])
  }

  lemma {:induction false} DoneIff(rows: Rows, run: RunId, dst: Path)
    ensures dst in CompletedPaths(rows, run) <==> Finished(rows, run, dst)
  {
  }

  lemma {:induction false} SucceedsIff(files: Files, ios: map<Path, Io>, src: Path, dst: Path)
    requires dst != [] && src in files && src != Staging(dst)
    ensures Succeeds(files, src, dst, true, None, IoAt(ios, dst)) <==> GoesWell(ios, dst, files[src])
  {
    LandsIff(files, src, dst, true, None, IoAt(ios, dst));
  }

  lemma {:induction false} ApplyRecords(run: RunId, table: Rows, ios: map<Path, Io>, start: Progress,
                                        plan: seq<PlanRow>)
    requires NewTargets(start.files, plan)
    requires forall i :: 0 <= i < |plan| ==> plan[i].Path() in start.files
    ensures ApplyRows(run, CompletedPaths(table, run), ios, start, plan).rows ==
      start.rows + CopyRecords(run, table, ios, start.files, plan)
    decreases |plan|
  {
    if plan != [] {
      var init, last := plan[..|plan| - 1], plan[|plan| - 1];
      assert plan == init + [last];
      var done := CompletedPaths(table, run);
      NewTargetsInit(start.files, init, last);
      forall i | 0 <= i < |init| ensures init[i] == plan[i] {}
      ApplyRecords(run, table, ios, start, init);
      ApplyCarries(run, done, ios, start, init);
      RecordsNext(run, table, ios, start, ApplyRows(run, done, ios, start, init), init, last);
    }
  }

  lemma {:induction false} RecordsNext(run: RunId, table: Rows, ios: map<Path, Io>, start: Progress, p: Progress,
                                       init: seq<PlanRow>, last: PlanRow)
    requires Carried(CompletedPaths(table, run), ios, start, p, init) && NewTargets(start.files, init + [last])
    requires last.Path() in start.files && forall i :: 0 <= i < |init| ==> init[i].Path() in start.files
    requires p.rows == start.rows + CopyRecords(run, table, ios, start.files, init)
    ensures forall i :: 0 <= i < |init + [last]| ==> (init + [last])[i].Path() in start.files
    ensures ApplyRow(run, CompletedPaths(table, run), ios, p, last).rows ==
      start.rows + CopyRecords(run, table, ios, start.files, init + [last])
  {
    StepRecorded(run, table, ios, start, p, init, last);
    CopyRecordsSnoc(run, table, ios, start.files, init, last);
    Regroup(start.rows, CopyRecords(run, table, ios, start.files, init),
            CopyRecord(run, table, ios, start.files, last));
  }

  lemma {:induction false} CopyRecordsSnoc(run: RunId, table: Rows, ios: map<Path, Io>, files: Files,
                                           init: seq<PlanRow>, last: PlanRow)
    requires last.Path() in files && forall i :: 0 <= i < |init| ==> init[i].Path() in files
    ensures forall i :: 0 <= i < |init + [last]| ==> (init + [last])[i].Path() in files
    ensures CopyRecords(run, table, ios, files, init + [last]) ==
      CopyRecords(run, table, ios, files, init) + CopyRecord(run, table, ios, files, last)
  {
    assert (init + [last])[..|init|] == init;
  }

  lemma {:induction false} Regroup(a: Rows, b: Rows, c: Rows)
    ensures a + b + c == a + (b + c)
  {
  }

  lemma {:induction false} StepRecorded(run: RunId, table: Rows, ios: map<Path, Io>, start: Progress, p: Progress,
                                        init: seq<PlanRow>, last: PlanRow)
    requires Carried(CompletedPaths(table, run), ios, start, p, init) && NewTargets(start.files, init + [last])
    requires last.Path() in start.files
    ensures ApplyRow(run, CompletedPaths(table, run), ios, p, last).rows ==
      p.rows + CopyRecord(run, table, ios, start.files, last)
  {
    SourceStays(CompletedPaths(table, run), ios, start, p, init, last);
    assert (init + [last])[|init|] == last;
    assert NewTarget(start.files, last) && !StagesOver(last, last.Path());
    match last.action
    case CopyTo(dst) =>
      DoneIff(table, run, dst);
      SucceedsIff(p.files, ios, last.Path(), dst);
      RowRecords(run, CompletedPaths(table, run), ios, p, last, dst);
    case _ => assert p.rows + [] == p.rows;
  }

  lemma {:induction false} RowRecords(run: RunId, done: set<Path>, ios: map<Path, Io>, p: Progress, row: PlanRow,
                                      dst: Path)
    requires row.action == CopyTo(dst) && dst != [] && row.Path() in p.files
    ensures var bytes := p.files[row.Path()];
      ApplyRow(run, done, ios, p, row).rows == p.rows +
        if dst in done || !Succeeds(p.files, row.Path(), dst, true, None, IoAt(ios, dst)) then []
        else [Row(run, Copy, None, Some(dst), None, Some(Sha256(bytes)), |bytes|, Done, "apply:copy")]
  {
  }

  /** A row that is on the destination already is recorded as found there, if it carries a hash; other rows leave disk
      and table alone. */
  lemma {:induction false} OtherRowsRecord(run: RunId, done: set<Path>, ios: map<Path, Io>, p: Progress, row: PlanRow)
    requires !row.action.CopyTo?
    ensures var p' := ApplyRow(run, done, ios, p, row);
      && p'.files == p.files && p'.plan == p.plan + [row]
      && p'.rows ==
         if row.action == AlreadyOnDest && row.sha.Some? then
           p.rows + [Row(run, Copy, None, Some(row.seen.survivor), None, row.sha, row.seen.found.size, Done,
                         "observed:already-on-dest")]
         else p.rows
  {
  }

  // ---- the stage ----

  /** Two files that hold the same bytes now. */
  predicate Alike(files: Files, p: Path, q: Path) { p in files && q in files && files[p] == files[q] }

  /** A candidate whose survivor holds its bytes: the survivor as observed, and then the request to delete. */
  function StageRecord(run: RunId, files: Files, k: Candidate): Rows {
    if !Alike(files, k.path, k.survivor) then []
    else
      var bytes := files[k.path];
      var size := if k.bytes == 0 then |bytes| else k.bytes;
      [Row(run, Copy, None, Some(k.survivor), None, Some(Sha256(bytes)), |bytes|, Done, "observed:survivor"),
       Row(run, Delete, Some(k.path), None, Some(Sha256(bytes)), None, size, Pending, "plan:staged")]
  }

  function StageRecords(run: RunId, files: Files, ks: seq<Candidate>): Rows {
    if ks == [] then [] else StageRecords(run, files, ks[..|ks| - 1]) + StageRecord(run, files, ks[|ks| - 1])
  }

  lemma {:induction false} AuthoriseRecords(run: RunId, files: Files, ks: seq<Candidate>)
    ensures AuthoriseRows(run, files, ks) == StageRecords(run, files, ks)
  {
    if ks != [] { AuthoriseRecords(run, files, ks[..|ks| - 1]); }
  }

  /** The stage with the hashes of the candidates that check out. */
  ghost predicate Hashed(files: Files, ks: seq<Candidate>, after: seq<Candidate>) {
    && |after| == |ks|
    && forall i :: 0 <= i < |ks| ==>
         after[i] == if Alike(files, ks[i].path, ks[i].survivor) then ks[i].(sha := Some(Sha256(files[ks[i].path])))
                     else ks[i]
  }

  // ---- the merge ----

  /** Registered before or not, the run is known afterwards, and under the medium it was first given. */
  ghost predicate Registers(before: map<RunId, string>, run: RunId, medium: string, after: map<RunId, string>) {
    && after.Keys == before.Keys + {run}
    && (forall r :: r in before ==> after[r] == before[r])
    && (run !in before ==> after[run] == medium)
  }

  lemma {:induction false} MergeRegisters(w: World, m: MergeCall)
    ensures Registers(w.runs, m.config.run, m.config.medium, Merge(w, m).runs)
  {
    MergeCases(w, m);
    RegisterRuns(w, m.config.run, m.config.medium);
    RunsStay(Register(w, m.config.run, m.config.medium), m, MergePlan(m.config, m.walks, w.files), Merge(w, m));
  }

  lemma {:induction false} RegisterRuns(w: World, run: RunId, medium: string)
    ensures Registers(w.runs, run, medium, Register(w, run, medium).runs)
  {
  }

  lemma {:induction false} RunsStay(w: World, m: MergeCall, planned: Option<seq<PlanRow>>, w': World)
    requires match planned case None => w' == w case Some(plan) => w' == AfterPlan(w, m, plan)
    ensures w'.runs == w.runs
  {
  }

  lemma {:induction false} AfterPlanStages(w: World, m: MergeCall, plan: seq<PlanRow>)
    requires !m.config.apply || !m.enoughSpace
    ensures var w' := AfterPlan(w, m, plan);
      w'.files == w.files && w'.rows == w.rows &&
      w'.stages == w.stages[m.config.run := Candidates(Placed(plan), plan)]
  {
  }

  /** A refused plan, a dry run and a disk without space leave disk and table as they are. */
  lemma {:induction false} MergeWithoutApply(w: World, m: MergeCall)
    requires MergePlan(m.config, m.walks, w.files).None? || !m.config.apply || !m.enoughSpace
    ensures var w' := Merge(w, m);
      && w'.files == w.files && w'.rows == w.rows
      && w'.stages == match MergePlan(m.config, m.walks, w.files)
                      case None => w.stages
                      case Some(plan) => w.stages[m.config.run := Candidates(Placed(plan), plan)]
  {
    MergeCases(w, m);
    if MergePlan(m.config, m.walks, w.files).Some? {
      AfterPlanStages(Register(w, m.config.run, m.config.medium), m, MergePlan(m.config, m.walks, w.files).value);
    }
  }

  /** The call is applied to a plan whose targets are new. */
  ghost predicate Reaching(w: World, m: MergeCall, plan: seq<PlanRow>) {
    && MergePlan(m.config, m.walks, w.files) == Some(plan) && m.config.apply && m.enoughSpace
    && NewTargets(w.files, plan) && forall i :: 0 <= i < |plan| ==> plan[i].Path() in w.files
  }

  /** What the call leaves, told by its plan and its stage. If it reaches some of the copies only, these are recorded,
      and the stage has no hash yet. If it reaches them all, after their records come those of the candidates it
      reaches, of the last perhaps only the first; and the stage gets its hashes when all were reached. */
  ghost predicate Leaves(w: World, m: MergeCall, plan: seq<PlanRow>, staged: seq<Candidate>, w': World)
    requires forall i :: 0 <= i < |plan| ==> plan[i].Path() in w.files
  {
    var run := m.config.run;
    if m.copies < |plan| then
      && w'.rows == w.rows + CopyRecords(run, w.rows, m.ios, w.files, plan[..m.copies])
      && w'.stages == w.stages[run := staged]
    else
      Settles(run, w.rows + CopyRecords(run, w.rows, m.ios, w.files, plan), w.stages, m, staged, w')
  }

  ghost predicate Settles(run: RunId, rows: Rows, stages: map<RunId, seq<Candidate>>, m: MergeCall,
                          staged: seq<Candidate>, w': World) {
    var n := if m.proofs <= |staged| then m.proofs else |staged|;
    var half := if m.halfProof && n < |staged| && Alike(w'.files, staged[n].path, staged[n].survivor)
                then [StageRecord(run, w'.files, staged[n])[0]] else [];
    && w'.rows == rows + StageRecords(run, w'.files, staged[..n]) + half
    && run in w'.stages && w'.stages == stages[run := w'.stages[run]]
    && (if m.proofs < |staged| then w'.stages[run] == staged else Hashed(w'.files, staged, w'.stages[run]))
  }

  lemma {:induction false} MergeTable(w: World, m: MergeCall, plan: seq<PlanRow>)
    requires Reaching(w, m, plan)
    ensures Leaves(w, m, plan, Candidates(Placed(plan), plan), Merge(w, m))
  {
    MergeCases(w, m);
    AfterPlanLeaves(w, Register(w, m.config.run, m.config.medium), m, plan, Candidates(Placed(plan), plan));
  }

  lemma {:induction false} AfterPlanLeaves(w: World, w0: World, m: MergeCall, plan: seq<PlanRow>,
                                           staged: seq<Candidate>)
    requires w0.files == w.files && w0.rows == w.rows && w0.stages == w.stages
    requires m.config.apply && m.enoughSpace && staged == Candidates(Placed(plan), plan)
    requires NewTargets(w.files, plan) && forall i :: 0 <= i < |plan| ==> plan[i].Path() in w.files
    ensures Leaves(w, m, plan, staged, AfterPlan(w0, m, plan))
  {
    var w1 := w0.(stages := w0.stages[m.config.run := staged]);
    var p := Carry(w1, m, plan);
    CarryRecords(w1, m, plan);
    CarriedLeaves(w, w1.(files := p.files, rows := p.rows), m, plan, staged, plan[..Min(m.copies, |plan|)]);
  }

  lemma {:induction false} CarryRecords(w: World, m: MergeCall, plan: seq<PlanRow>)
    requires NewTargets(w.files, plan) && forall i :: 0 <= i < |plan| ==> plan[i].Path() in w.files
    ensures Carry(w, m, plan).rows ==
      w.rows + CopyRecords(m.config.run, w.rows, m.ios, w.files, plan[..Min(m.copies, |plan|)])
  {
    var reached := plan[..Min(m.copies, |plan|)];
    NewTargetsPrefix(w.files, plan, |reached|);
    ApplyRecords(m.config.run, w.rows, m.ios, Progress(w.files, w.rows, []), reached);
  }

  lemma {:induction false} CarriedLeaves(w: World, w2: World, m: MergeCall, plan: seq<PlanRow>, staged: seq<Candidate>,
                                         reached: seq<PlanRow>)
    requires forall i :: 0 <= i < |plan| ==> plan[i].Path() in w.files
    requires reached == plan[..Min(m.copies, |plan|)] && w2.stages == w.stages[m.config.run := staged]
    requires w2.rows == w.rows + CopyRecords(m.config.run, w.rows, m.ios, w.files, reached)
    ensures Leaves(w, m, plan, staged, if m.copies < |plan| then w2 else Authorise(w2, m, staged))
  {
    if m.copies >= |plan| {
      assert reached == plan;
      AuthoriseSettles(w2, w.stages, m, staged);
    }
  }

  lemma {:induction false} AuthoriseSettles(w: World, stages: map<RunId, seq<Candidate>>, m: MergeCall,
                                            staged: seq<Candidate>)
    requires w.stages == stages[m.config.run := staged]
    ensures Settles(m.config.run, w.rows, stages, m, staged, Authorise(w, m, staged))
  {
    var n := if m.proofs <= |staged| then m.proofs else |staged|;
    AuthoriseRecords(m.config.run, w.files, staged[..n]);
  }

  /** On every disk a lawful history reaches, these hypotheses hold. */
  lemma {:induction false} LawfulReaches(kept: set<Path>, w: World, es: seq<Event>, m: MergeCall, plan: seq<PlanRow>)
    requires Safe(kept, w) && LawfulHistory(kept, w, es) && Lawful(kept, Run(w, es).files, m)
    requires MergePlan(m.config, m.walks, Run(w, es).files) == Some(plan) && m.config.apply && m.enoughSpace
    ensures Reaching(Run(w, es), m, plan)
  {
    NoContentIsLost(kept, w, es);
    var files := Run(w, es).files;
    PlanIsNew(m.config, m.walks, files, plan);
    forall i | 0 <= i < |plan| ensures plan[i].Path() in files {
      FoundInPlan(m.config, m.walks, files, plan[i]);
    }
  }
}
