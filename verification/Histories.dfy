/** The promise of the whole design: over any history, no content is lost. */
module Histories {
  import opened Basics
  import opened Paths
  import opened Fsx
  import opened Ledger
  import opened Planning
  import opened PlanProofs
  import opened Worlds

  // ---- the invariant ----

  /** Inside one of the protected trees: the destination or a library. */
  ghost predicate Guarded(kept: set<Path>, p: Path) {
    exists r :: r in kept && Under(r, p)
  }

  /** A protected file holds exactly the bytes with this digest. */
  ghost predicate Keeps(kept: set<Path>, files: Files, sha: Digest) {
    exists q :: q in files && Guarded(kept, q) && Sha256(files[q]) == sha
  }

  /** A delete row is about a file outside the protected trees, and its bytes are kept inside. */
  ghost predicate Covered(kept: set<Path>, files: Files, row: Row) {
    row.op == Delete ==>
      row.src.Some? && !Guarded(kept, row.src.value) && row.srcSha.Some? && Keeps(kept, files, row.srcSha.value)
  }

  ghost predicate NoStaging(files: Files) {
    forall p :: p in files ==> p != [] && !IsStaging(Leaf(p))
  }

  ghost predicate Safe(kept: set<Path>, w: World) {
    NoStaging(w.files) && forall row :: row in w.rows ==> Covered(kept, w.files, row)
  }

  /** Every file is still there with its bytes. */
  ghost predicate Grows(before: Files, after: Files) {
    forall p :: p in before ==> p in after && after[p] == before[p]
  }

  // ---- the hypotheses on one merge ----

  /** Sources lie apart from every protected tree, the run's own roots are protected, no name
      sanitises into a staging name, and no power cut leaves one behind. */
  ghost predicate Lawful(kept: set<Path>, files: Files, m: MergeCall) {
    var c := m.config;
    && c.dest in kept && (c.library.Some? ==> c.library.value in kept)
    && (forall s, r :: s in c.srcs && r in kept ==> Unnested(s, r))
    && CleanSources(c, files) && Orderly(m.ios)
  }

  /** No source file's name sanitises into a staging name. */
  ghost predicate CleanSources(c: Config, files: Files) {
    forall s, p :: s in c.srcs && p in files && Under(s, p) ==> !IsStaging(c.naming.sanitise(Leaf(p)))
  }

  /** No machine failure of the kinds a merge does not survive: power cuts, failed cleanups. */
  ghost predicate Orderly(ios: map<Path, Io>) {
    forall d :: d in ios ==> !ios[d].fate.PowerCut? && ios[d].cleans
  }

  lemma {:induction false} LawfulSources(kept: set<Path>, files: Files, m: MergeCall, p: Path, s: Path)
    requires Lawful(kept, files, m) && s in m.config.srcs && Under(s, p)
    ensures SourcesApart(m.config) && !Guarded(kept, p)
  {
    if Guarded(kept, p) {
      var r :| r in kept && Under(r, p);
      UnderBoth(s, r, p);
    }
  }

  lemma {:induction false} GrowingKeeps(kept: set<Path>, before: Files, after: Files, sha: Digest)
    requires Grows(before, after) && Keeps(kept, before, sha)
    ensures Keeps(kept, after, sha)
  {
    var q :| q in before && Guarded(kept, q) && Sha256(before[q]) == sha;
    assert q in after && Sha256(after[q]) == sha;
  }

  // ---- copies add fresh files, and free the staging names they use ----

  /** The row leaves nothing under this staging name. */
  predicate Frees(done: set<Path>, ios: map<Path, Io>, row: PlanRow, q: Path) {
    && row.action.CopyTo? && row.action.dst != [] && row.action.dst !in done
    && IoAt(ios, row.action.dst).fate != Raises(Directories) && Staging(row.action.dst) == q
  }

  ghost predicate Freed(done: set<Path>, ios: map<Path, Io>, rows: seq<PlanRow>, q: Path) {
    exists i :: 0 <= i < |rows| && Frees(done, ios, rows[i], q)
  }

  /** Progress that started from `start`: of the files that were there only freed staging names went, new files are
      copy targets, and new rows record new files. */
  ghost predicate Carried(done: set<Path>, ios: map<Path, Io>, start: Progress, p: Progress, rows: seq<PlanRow>) {
    && Sheds(done, ios, start.files, p.files, rows)
    && (forall q :: q in p.files && q !in start.files ==>
          exists i :: 0 <= i < |rows| && rows[i].action == CopyTo(q))
    && start.rows <= p.rows
    && (forall i :: |start.rows| <= i < |p.rows| ==> RecordsNew(start.files, p.files, p.rows[i]))
  }

  ghost predicate Sheds(done: set<Path>, ios: map<Path, Io>, before: Files, after: Files, rows: seq<PlanRow>) {
    forall q :: q in before ==>
      (q in after <==> !Freed(done, ios, rows, q)) && (q in after ==> after[q] == before[q])
  }

  ghost predicate RecordsNew(before: Files, after: Files, row: Row) {
    row.op == Copy && Recorded(after, row) && row.dst.value !in before
  }

  /** A copy row names a file that is there; a delete row names no destination. */
  ghost predicate Recorded(files: Files, row: Row) {
    (row.op == Copy && row.dst.Some? && row.dst.value in files) || (row.op == Delete && row.dst.None?)
  }

  /** Copy targets are new, clean and apart, and no row is about a file whose name a copy stages under. */
  ghost predicate NewTargets(files: Files, rows: seq<PlanRow>) {
    && (forall i :: 0 <= i < |rows| ==> NewTarget(files, rows[i]))
    && (forall i, j :: 0 <= i < j < |rows| && rows[i].action.CopyTo? && rows[j].action.CopyTo? ==>
          rows[i].action.dst != rows[j].action.dst)
    && (forall i, j :: 0 <= i < |rows| && 0 <= j < |rows| ==> !StagesOver(rows[i], rows[j].Path()))
  }

  ghost predicate NewTarget(files: Files, row: PlanRow) {
    row.sha.None? &&
    (row.action.CopyTo? ==> row.action.dst !in files && row.action.dst != [] && !IsStaging(Leaf(row.action.dst)))
  }

  predicate StagesOver(row: PlanRow, q: Path) {
    row.action.CopyTo? && row.action.dst != [] && Staging(row.action.dst) == q
  }

  lemma {:induction false} NewTargetsInit(files: Files, init: seq<PlanRow>, last: PlanRow)
    requires NewTargets(files, init + [last])
    ensures NewTargets(files, init) && NewTarget(files, last)
    ensures forall i :: 0 <= i < |init| ==> !StagesOver(init[i], last.Path())
    ensures last.action.CopyTo? ==> forall i :: 0 <= i < |init| ==> init[i].action != last.action
  {
    var rows := init + [last];
    assert rows[|init|] == last;
    assert forall i :: 0 <= i < |init| ==> rows[i] == init[i];
  }

  /** The next row's source is as it was, and its target is new. */
  lemma {:induction false} SourceStays(done: set<Path>, ios: map<Path, Io>, start: Progress, p: Progress,
                                       init: seq<PlanRow>, last: PlanRow)
    requires Carried(done, ios, start, p, init) && NewTargets(start.files, init + [last])
    ensures last.Path() in start.files ==> last.Path() in p.files && p.files[last.Path()] == start.files[last.Path()]
    ensures last.action.CopyTo? ==> last.action.dst !in p.files
    ensures last.sha.None?
  {
    NewTargetsInit(start.files, init, last);
    assert !Freed(done, ios, init, last.Path());
  }

  lemma {:induction false} FreedLast(done: set<Path>, ios: map<Path, Io>, init: seq<PlanRow>, last: PlanRow, q: Path)
    ensures Freed(done, ios, init + [last], q) <==> Freed(done, ios, init, q) || Frees(done, ios, last, q)
  {
    var rows := init + [last];
    assert rows[|init|] == last;
    if i :| 0 <= i < |init| && Frees(done, ios, init[i], q) { assert rows[i] == init[i]; }
  }

  lemma {:induction false} ApplyCarries(run: RunId, done: set<Path>, ios: map<Path, Io>, start: Progress,
                                        rows: seq<PlanRow>)
    requires NewTargets(start.files, rows)
    ensures Carried(done, ios, start, ApplyRows(run, done, ios, start, rows), rows)
  {
    if rows != [] {
      var init, last := rows[..|rows| - 1], rows[|rows| - 1];
      assert rows == init + [last];
      NewTargetsInit(start.files, init, last);
      ApplyCarries(run, done, ios, start, init);
      StepCarries(run, done, ios, start, ApplyRows(run, done, ios, start, init), init, last);
    }
  }

  /** What one row does to the disk. */
  ghost predicate Steps(done: set<Path>, ios: map<Path, Io>, before: Files, after: Files, row: PlanRow) {
    && (forall q :: q in before && !Frees(done, ios, row, q) ==> q in after && (row.action != CopyTo(q) ==>
          after[q] == before[q]))
    && (forall q :: q in after ==> (q in before && !Frees(done, ios, row, q)) || row.action == CopyTo(q))
  }

  lemma {:induction false} RowSteps(run: RunId, done: set<Path>, ios: map<Path, Io>, p: Progress, row: PlanRow)
    requires row.sha.None? && (row.action.CopyTo? ==> row.action.dst != [])
    ensures var p' := ApplyRow(run, done, ios, p, row);
      && Steps(done, ios, p.files, p'.files, row)
      && (p'.rows == p.rows ||
          exists r :: p'.rows == p.rows + [r] && r.op == Copy && Recorded(p'.files, r) &&
                      row.action == CopyTo(r.dst.value))
  {
    if row.action.CopyTo? { StagingDiffers(row.action.dst); }
  }

  lemma {:induction false} StepSheds(done: set<Path>, ios: map<Path, Io>, start: Files, before: Files, after: Files,
                                     init: seq<PlanRow>, last: PlanRow)
    requires Sheds(done, ios, start, before, init) && Steps(done, ios, before, after, last)
    requires last.action.CopyTo? ==> last.action.dst !in start
    ensures Sheds(done, ios, start, after, init + [last])
  {
    forall q | q in start
      ensures (q in after <==> !Freed(done, ios, init + [last], q)) && (q in after ==> after[q] == start[q])
    {
      FreedLast(done, ios, init, last, q);
    }
  }

  lemma {:induction false} TargetNotFreed(done: set<Path>, ios: map<Path, Io>, files: Files, rows: seq<PlanRow>,
                                          i: nat, row: PlanRow)
    requires i < |rows| && NewTarget(files, rows[i]) && rows[i].action.CopyTo?
    ensures !Frees(done, ios, row, rows[i].action.dst)
  {
    if row.action.CopyTo? && row.action.dst != [] { StagingDiffers(row.action.dst); }
  }

  lemma {:induction false} StepRecords(done: set<Path>, ios: map<Path, Io>, start: Progress, p: Progress, p': Progress,
                                       init: seq<PlanRow>, last: PlanRow, i: nat)
    requires Carried(done, ios, start, p, init) && Steps(done, ios, p.files, p'.files, last)
    requires NewTargets(start.files, init) && |start.rows| <= i < |p.rows|
    ensures RecordsNew(start.files, p'.files, p.rows[i])
  {
    var q := p.rows[i].dst.value;
    var k :| 0 <= k < |init| && init[k].action == CopyTo(q);
    TargetNotFreed(done, ios, start.files, init, k, last);
  }

  lemma {:induction false} StepTargets(done: set<Path>, ios: map<Path, Io>, start: Progress, p: Progress, p': Progress,
                                       init: seq<PlanRow>, last: PlanRow, q: Path) returns (i: nat)
    requires Carried(done, ios, start, p, init) && Steps(done, ios, p.files, p'.files, last)
    requires q in p'.files && q !in start.files
    ensures i < |init + [last]| && (init + [last])[i].action == CopyTo(q)
  {
    if last.action == CopyTo(q) {
      i := |init|;
    } else {
      i :| 0 <= i < |init| && init[i].action == CopyTo(q);
    }
  }

  lemma {:induction false} StepCarries(run: RunId, done: set<Path>, ios: map<Path, Io>, start: Progress, p: Progress,
                                       init: seq<PlanRow>, last: PlanRow)
    requires Carried(done, ios, start, p, init) && NewTargets(start.files, init + [last])
    ensures Carried(done, ios, start, ApplyRow(run, done, ios, p, last), init + [last])
  {
    var p' := ApplyRow(run, done, ios, p, last);
    NewTargetsInit(start.files, init, last);
    RowSteps(run, done, ios, p, last);
    StepSheds(done, ios, start.files, p.files, p'.files, init, last);
    forall q | q in p'.files && q !in start.files
      ensures exists i :: 0 <= i < |init + [last]| && (init + [last])[i].action == CopyTo(q)
    {
      var i := StepTargets(done, ios, start, p, p', init, last, q);
    }
    forall i | |start.rows| <= i < |p'.rows| ensures RecordsNew(start.files, p'.files, p'.rows[i]) {
      if i < |p.rows| { StepRecords(done, ios, start, p, p', init, last, i); }
    }
  }

  /** Where no file has a staging name, nothing goes. */
  lemma {:induction false} CarriedGrows(done: set<Path>, ios: map<Path, Io>, start: Progress, p: Progress,
                                        rows: seq<PlanRow>)
    requires Carried(done, ios, start, p, rows) && NoStaging(start.files)
    ensures Grows(start.files, p.files)
  {
    forall q | q in start.files ensures q in p.files && p.files[q] == start.files[q] {
      if i :| 0 <= i < |rows| && Frees(done, ios, rows[i], q) { StagingDiffers(rows[i].action.dst); }
    }
  }

  // ---- a plan's targets are new ----

  /** Where no source can be a staging file of the run: no file is one, or the sources lie apart from the
      destination. */
  ghost predicate Roomy(c: Config, files: Files) {
    NoStaging(files) || forall s :: s in c.srcs ==> Unnested(s, c.dest)
  }

  /** What makes every planned target a new one. */
  ghost predicate Clear(c: Config, files: Files) { CleanSources(c, files) && Roomy(c, files) }

  lemma {:induction false} LawfulNames(c: Config, walks: Walks, files: Files)
    requires CleanSources(c, files)
    ensures CleanNames(c, InPathOrder(SeenRows(c, walks, files)))
  {
    var seen := InPathOrder(SeenRows(c, walks, files));
    var found := Scan(files, walks, c.srcs);
    forall s | s in seen
      ensures s.found.path != [] && s.found.rel != [] && !IsStaging(c.naming.sanitise(Leaf(s.found.path)))
    {
      var rows := SeenRows(c, walks, files);
      var i :| 0 <= i < |rows| && rows[i] == s;
      assert s.found == found[i] && found[i] in found;
    }
  }

  lemma {:induction false} StagesElsewhere(c: Config, files: Files, dst: Path, p: Path, s: Path)
    requires Roomy(c, files) && FreshTarget(c, files, dst) && s in c.srcs && Under(s, p) && p in files
    ensures Staging(dst) != p
  {
    StagingDiffers(dst);
    if Staging(dst) == p && Unnested(s, c.dest) {
      assert c.dest <= c.LayoutRoot() <= p;
      UnderBoth(s, c.dest, p);
    }
  }

  lemma {:induction false} PlanIsFresh(c: Config, walks: Walks, files: Files, plan: seq<PlanRow>)
    requires CleanSources(c, files) && MergePlan(c, walks, files) == Some(plan)
    ensures FreshTargets(c, files, plan) && forall row :: row in plan ==> row.sha.None?
  {
    PlanIsPlanRows(c, walks, files);
    LawfulNames(c, walks, files);
    PlanTargetsAreFresh(c, files, InPathOrder(SeenRows(c, walks, files)));
  }

  lemma {:induction false} PlanIsNew(c: Config, walks: Walks, files: Files, plan: seq<PlanRow>)
    requires CleanSources(c, files) && Roomy(c, files) && MergePlan(c, walks, files) == Some(plan)
    ensures NewTargets(files, plan)
  {
    PlanIsFresh(c, walks, files, plan);
    forall i | 0 <= i < |plan| ensures NewTarget(files, plan[i]) {
      assert plan[i] in plan;
      if plan[i].action.CopyTo? { assert FreshTarget(c, files, plan[i].action.dst); }
    }
    forall i, j | 0 <= i < |plan| && 0 <= j < |plan| ensures !StagesOver(plan[i], plan[j].Path()) {
      FoundInPlan(c, walks, files, plan[j]);
      var s :| s in c.srcs && Under(s, plan[j].Path());
      if plan[i].action.CopyTo? {
        assert FreshTarget(c, files, plan[i].action.dst);
        StagesElsewhere(c, files, plan[i].action.dst, plan[j].Path(), s);
      }
    }
    TargetsApart(c, files, plan);
  }

  lemma {:induction false} TargetsApart(c: Config, files: Files, plan: seq<PlanRow>)
    requires FreshTargets(c, files, plan)
    ensures forall i, j :: 0 <= i < j < |plan| && plan[i].action.CopyTo? && plan[j].action.CopyTo? ==>
      plan[i].action.dst != plan[j].action.dst
  {
    forall i, j | 0 <= i < j < |plan| && plan[i].action.CopyTo? && plan[j].action.CopyTo?
      ensures plan[i].action.dst != plan[j].action.dst
    {
      assert PlanProofs.Apart(c, plan[i].action.dst, plan[j].action.dst);
    }
  }

  lemma {:induction false} NewTargetsPrefix(files: Files, plan: seq<PlanRow>, n: nat)
    requires NewTargets(files, plan) && n <= |plan|
    ensures NewTargets(files, plan[..n])
  {
    var rows := plan[..n];
    assert forall i :: 0 <= i < n ==> rows[i] == plan[i];
  }

  // ---- a staged candidate's bytes are kept ----

  lemma {:induction false} PlacedIsCopied(rows: seq<PlanRow>, p: Path)
    ensures p in Placed(rows) <==> exists i :: 0 <= i < |rows| && rows[i].action.CopyTo? && rows[i].Path() == p
    ensures p in Placed(rows) ==>
      exists i :: 0 <= i < |rows| && rows[i].action == CopyTo(Placed(rows)[p]) && rows[i].Path() == p
  {
    if rows != [] {
      var init := rows[..|rows| - 1];
      PlacedIsCopied(init, p);
      assert forall i :: 0 <= i < |init| ==> init[i] == rows[i];
    }
  }

  ghost predicate GuardedTargets(kept: set<Path>, rows: seq<PlanRow>) {
    forall i :: 0 <= i < |rows| && rows[i].action.CopyTo? ==> Guarded(kept, rows[i].action.dst)
  }

  lemma {:induction false} ListedIsGuarded(kept: set<Path>, m: MergeCall, files: Files, q: Path)
    requires Lawful(kept, files, m)
    requires q in DestFiles(files, m.config, m.walks) || q in LibraryFiles(files, m.config, m.walks)
    ensures Guarded(kept, q)
  {
    ListedRoots(files, m.config, m.walks);
    assert m.config.dest in kept;
    if q in DestFiles(files, m.config, m.walks) { assert Under(m.config.dest, q); }
  }

  /** A duplicate's proof is a copy target, so a protected file holds the bytes once it checks out. */
  lemma {:induction false} DuplicateIsKept(kept: set<Path>, files: Files, plan: seq<PlanRow>, row: PlanRow,
                                           stand: PlanRow, after: Files)
    requires GuardedTargets(kept, plan) && stand in plan && Stands(files, stand, row) && Grows(files, after)
    requires Proves(after, CandidateOf(Placed(plan), row))
    ensures Keeps(kept, after, Sha256(after[row.Path()]))
  {
    PlacedIsCopied(plan, row.seen.survivor);
    var i :| 0 <= i < |plan| && plan[i] == stand;
    assert row.seen.survivor in Placed(plan);
    assert Guarded(kept, Placed(plan)[row.seen.survivor]);
  }

  /** The bytes of a row that is not copied are kept once its proof checks out. */
  lemma {:induction false} RowIsKept(kept: set<Path>, files: Files, m: MergeCall, plan: seq<PlanRow>, row: PlanRow,
                                     after: Files)
    requires Lawful(kept, files, m) && SourcesApart(m.config) && Grows(files, after)
    requires MergePlan(m.config, m.walks, files) == Some(plan) && row in plan
    requires GuardedTargets(kept, plan) && !row.action.CopyTo?
    requires Proves(after, CandidateOf(Placed(plan), row))
    ensures Keeps(kept, after, Sha256(after[row.Path()]))
  {
    PlanMeans(m.config, m.walks, files, row);
    if row.action.DuplicateOf? {
      SurvivorIsCopied(m.config, m.walks, files, row);
      var stand :| stand in plan && Stands(files, stand, row);
      DuplicateIsKept(kept, files, plan, row, stand, after);
    } else {
      HeldIsKept(kept, files, m, row, after);
    }
  }

  lemma {:induction false} HeldIsKept(kept: set<Path>, files: Files, m: MergeCall, row: PlanRow, after: Files)
    requires Lawful(kept, files, m) && Grows(files, after) && row.Path() in files
    requires AlreadyThere(m.config, m.walks, files, files[row.Path()])
    ensures Keeps(kept, after, Sha256(after[row.Path()]))
  {
    KeptWhenThere(kept, files, m, files[row.Path()]);
    GrowingKeeps(kept, files, after, Sha256(files[row.Path()]));
  }

  lemma {:induction false} KeptWhenThere(kept: set<Path>, files: Files, m: MergeCall, bytes: Bytes)
    requires Lawful(kept, files, m) && AlreadyThere(m.config, m.walks, files, bytes)
    ensures Keeps(kept, files, Sha256(bytes))
  {
    if HeldOnlyOnDest(m.config, m.walks, files, bytes) {
      var q :| q in DestFiles(files, m.config, m.walks) && q !in LibraryFiles(files, m.config, m.walks) &&
        q in files && files[q] == bytes;
      ListedIsGuarded(kept, m, files, q);
    } else {
      var q :| q in LibraryFiles(files, m.config, m.walks) && q in files && files[q] == bytes;
      ListedIsGuarded(kept, m, files, q);
    }
  }

  lemma {:induction false} CandidateIsKept(kept: set<Path>, files: Files, m: MergeCall, plan: seq<PlanRow>,
                                           k: Candidate, after: Files)
    requires Lawful(kept, files, m) && Grows(files, after)
    requires MergePlan(m.config, m.walks, files) == Some(plan) && GuardedTargets(kept, plan)
    requires k in Candidates(Placed(plan), plan) && Proves(after, k)
    ensures !Guarded(kept, k.path) && Keeps(kept, after, Sha256(after[k.path]))
  {
    var i :| 0 <= i < |plan| && !plan[i].action.CopyTo? && k == CandidateOf(Placed(plan), plan[i]);
    FoundInPlan(m.config, m.walks, files, plan[i]);
    var src :| src in m.config.srcs && Under(src, k.path);
    LawfulSources(kept, files, m, k.path, src);
    RowIsKept(kept, files, m, plan, plan[i], after);
  }

  /** So every row `authorise_staged` writes is covered. */
  lemma {:induction false} CandidatesAreCovered(kept: set<Path>, files: Files, m: MergeCall, plan: seq<PlanRow>,
                                                after: Files)
    requires Lawful(kept, files, m) && Grows(files, after)
    requires MergePlan(m.config, m.walks, files) == Some(plan) && GuardedTargets(kept, plan)
    ensures forall k :: k in Candidates(Placed(plan), plan) ==>
      forall row :: row in ProofRows(m.config.run, after, k) ==> Covered(kept, after, row)
  {
    forall k | k in Candidates(Placed(plan), plan)
      ensures forall row :: row in ProofRows(m.config.run, after, k) ==> Covered(kept, after, row)
    {
      if Proves(after, k) { CandidateIsKept(kept, files, m, plan, k, after); }
      ProofIsCovered(kept, m.config.run, after, k);
    }
  }

  lemma {:induction false} ProofIsCovered(kept: set<Path>, run: RunId, after: Files, k: Candidate)
    requires Proves(after, k) ==> !Guarded(kept, k.path) && Keeps(kept, after, Sha256(after[k.path]))
    ensures forall row :: row in ProofRows(run, after, k) ==> Covered(kept, after, row)
  {
  }

  /** Each planned row is about a scanned file below one of the sources. */
  lemma {:induction false} FoundInPlan(c: Config, walks: Walks, files: Files, row: PlanRow)
    requires MergePlan(c, walks, files).Some? && row in MergePlan(c, walks, files).value
    ensures row.Path() in files && exists s :: s in c.srcs && Under(s, row.Path())
  {
    PlanIsPlanRows(c, walks, files);
    var seen := InPathOrder(SeenRows(c, walks, files));
    var rows := MergePlan(c, walks, files).value;
    var i :| 0 <= i < |rows| && rows[i] == row;
    assert seen[i] in seen;
  }

  lemma {:induction false} AuthoriseIsRecorded(run: RunId, after: Files, ks: seq<Candidate>)
    ensures forall row :: row in AuthoriseRows(run, after, ks) ==> Recorded(after, row)
  {
    if ks != [] { AuthoriseIsRecorded(run, after, ks[..|ks| - 1]); }
  }

  lemma {:induction false} AuthoriseIsCovered(kept: set<Path>, run: RunId, after: Files, ks: seq<Candidate>)
    requires forall k :: k in ks ==> forall row :: row in ProofRows(run, after, k) ==> Covered(kept, after, row)
    ensures forall row :: row in AuthoriseRows(run, after, ks) ==> Covered(kept, after, row)
  {
    if ks != [] {
      assert ks[|ks| - 1] in ks;
      AuthoriseIsCovered(kept, run, after, ks[..|ks| - 1]);
    }
  }

  // ---- one merge keeps the invariant ----

  lemma {:induction false} PlanIsGuarded(kept: set<Path>, files: Files, m: MergeCall, plan: seq<PlanRow>)
    requires NoStaging(files) && Lawful(kept, files, m) && MergePlan(m.config, m.walks, files) == Some(plan)
    ensures NewTargets(files, plan) && GuardedTargets(kept, plan)
  {
    PlanIsFresh(m.config, m.walks, files, plan);
    PlanIsNew(m.config, m.walks, files, plan);
    TargetsAreGuarded(kept, m.config, files, plan);
  }

  lemma {:induction false} TargetsAreGuarded(kept: set<Path>, c: Config, files: Files, plan: seq<PlanRow>)
    requires c.dest in kept && FreshTargets(c, files, plan)
    ensures GuardedTargets(kept, plan)
  {
    forall i | 0 <= i < |plan| && plan[i].action.CopyTo? ensures Guarded(kept, plan[i].action.dst) {
      assert FreshTarget(c, files, plan[i].action.dst);
      assert Under(c.dest, plan[i].action.dst);
    }
  }

  /** What a merge does to a world: files only grow, inside the protected trees, and every new
      table row is covered. */
  ghost predicate MergeEffect(kept: set<Path>, w: World, w': World) {
    && Grows(w.files, w'.files)
    && (forall p :: p in w'.files && p !in w.files ==> Guarded(kept, p) && p != [] && !IsStaging(Leaf(p)))
    && w.rows <= w'.rows
    && (forall i :: |w.rows| <= i < |w'.rows| ==>
          Covered(kept, w'.files, w'.rows[i]) && Recorded(w'.files, w'.rows[i]))
  }

  lemma {:induction false} CarryEffect(kept: set<Path>, w: World, m: MergeCall, plan: seq<PlanRow>)
    requires NoStaging(w.files) && NewTargets(w.files, plan) && GuardedTargets(kept, plan)
    ensures var p := Carry(w, m, plan); MergeEffect(kept, w, w.(files := p.files, rows := p.rows))
  {
    var run, done := m.config.run, CompletedPaths(w.rows, m.config.run);
    var reached := plan[..Min(m.copies, |plan|)];
    var start, p := Progress(w.files, w.rows, []), Carry(w, m, plan);
    NewTargetsPrefix(w.files, plan, |reached|);
    ApplyCarries(run, done, m.ios, start, reached);
    CarriedGrows(done, m.ios, start, p, reached);
    forall q | q in p.files && q !in w.files ensures Guarded(kept, q) && q != [] && !IsStaging(Leaf(q)) {
      var i :| 0 <= i < |reached| && reached[i].action == CopyTo(q);
      assert plan[i] == reached[i] && NewTarget(w.files, plan[i]);
    }
    forall i | |w.rows| <= i < |p.rows| ensures Covered(kept, p.files, p.rows[i]) && Recorded(p.files, p.rows[i]) {
      assert RecordsNew(w.files, p.files, p.rows[i]);
    }
  }

  lemma {:induction false} AuthoriseEffect(kept: set<Path>, w: World, w2: World, m: MergeCall, staged: seq<Candidate>)
    requires MergeEffect(kept, w, w2)
    requires forall k :: k in staged ==>
      forall row :: row in ProofRows(m.config.run, w2.files, k) ==> Covered(kept, w2.files, row)
    ensures MergeEffect(kept, w, Authorise(w2, m, staged))
  {
    var n := Min(m.proofs, |staged|);
    AuthoriseIsCovered(kept, m.config.run, w2.files, staged[..n]);
    AuthoriseIsRecorded(m.config.run, w2.files, staged[..n]);
    var more := AuthoriseRows(m.config.run, w2.files, staged[..n]) +
                HalfRows(m.config.run, w2.files, staged, n, m.halfProof);
    var w3 := Authorise(w2, m, staged);
    assert w3.rows == w2.rows + more && w3.files == w2.files;
    forall i | |w.rows| <= i < |w3.rows|
      ensures Covered(kept, w3.files, w3.rows[i]) && Recorded(w3.files, w3.rows[i])
    {
      if i >= |w2.rows| { assert w3.rows[i] in more; }
    }
  }

  /** The applying branch of a merge, from the staged world on. */
  lemma {:induction false} ApplyEffect(kept: set<Path>, w: World, m: MergeCall, plan: seq<PlanRow>,
                                       staged: seq<Candidate>)
    requires NoStaging(w.files) && Lawful(kept, w.files, m)
    requires MergePlan(m.config, m.walks, w.files) == Some(plan) && staged == Candidates(Placed(plan), plan)
    ensures var p := Carry(w, m, plan);
      var w2 := w.(files := p.files, rows := p.rows);
      MergeEffect(kept, w, w2) && MergeEffect(kept, w, Authorise(w2, m, staged))
  {
    PlanIsGuarded(kept, w.files, m, plan);
    CarryEffect(kept, w, m, plan);
    var p := Carry(w, m, plan);
    CandidatesAreCovered(kept, w.files, m, plan, p.files);
    AuthoriseEffect(kept, w, w.(files := p.files, rows := p.rows), m, staged);
  }

  /** The three worlds a planned merge can stop in. */
  lemma {:induction false} AfterPlanEffect(kept: set<Path>, w: World, m: MergeCall, plan: seq<PlanRow>, w1: World,
                                           staged: seq<Candidate>, w2: World, w3: World)
    requires staged == Candidates(Placed(plan), plan)
    requires w1 == w.(stages := w.stages[m.config.run := staged])
    requires var p := Carry(w1, m, plan); w2 == w1.(files := p.files, rows := p.rows)
    requires w3 == Authorise(w2, m, staged)
    requires MergeEffect(kept, w1, w2) && MergeEffect(kept, w1, w3)
    ensures MergeEffect(kept, w, AfterPlan(w, m, plan))
  {
  }

  lemma {:induction false} PlannedHasEffect(kept: set<Path>, w: World, m: MergeCall, plan: seq<PlanRow>)
    requires NoStaging(w.files) && Lawful(kept, w.files, m)
    requires MergePlan(m.config, m.walks, w.files) == Some(plan)
    ensures MergeEffect(kept, w, AfterPlan(w, m, plan))
  {
    var staged := Candidates(Placed(plan), plan);
    var w1 := w.(stages := w.stages[m.config.run := staged]);
    ApplyEffect(kept, w1, m, plan, staged);
    var p := Carry(w1, m, plan);
    var w2 := w1.(files := p.files, rows := p.rows);
    AfterPlanEffect(kept, w, m, plan, w1, staged, w2, Authorise(w2, m, staged));
  }

  lemma {:induction false} MergeCases(w: World, m: MergeCall)
    ensures var w0 := Register(w, m.config.run, m.config.medium);
      && w0.files == w.files && w0.rows == w.rows
      && match MergePlan(m.config, m.walks, w.files)
         case None => Merge(w, m) == w0
         case Some(plan) => Merge(w, m) == AfterPlan(w0, m, plan)
  {
  }

  lemma {:induction false} MergeHasEffect(kept: set<Path>, w: World, m: MergeCall)
    requires NoStaging(w.files) && Lawful(kept, w.files, m)
    ensures MergeEffect(kept, w, Merge(w, m))
  {
    MergeCases(w, m);
    var w0 := Register(w, m.config.run, m.config.medium);
    var plan := MergePlan(m.config, m.walks, w.files);
    if plan.Some? {
      PlannedHasEffect(kept, w0, m, plan.value);
      SameStart(kept, w, w0, AfterPlan(w0, m, plan.value));
    }
  }

  lemma {:induction false} SameStart(kept: set<Path>, w: World, w0: World, w': World)
    requires w0.files == w.files && w0.rows == w.rows && MergeEffect(kept, w0, w')
    ensures MergeEffect(kept, w, w')
  {
  }

  lemma {:induction false} MergeIsSafe(kept: set<Path>, w: World, m: MergeCall)
    requires Safe(kept, w) && Lawful(kept, w.files, m)
    ensures Safe(kept, Merge(w, m)) && Grows(w.files, Merge(w, m).files)
  {
    MergeHasEffect(kept, w, m);
    var w' := Merge(w, m);
    forall row | row in w'.rows ensures Covered(kept, w'.files, row) {
      var i :| 0 <= i < |w'.rows| && w'.rows[i] == row;
      if i < |w.rows| {
        assert row == w.rows[i] && row in w.rows && Covered(kept, w.files, row);
        if row.op == Delete { GrowingKeeps(kept, w.files, w'.files, row.srcSha.value); }
      }
    }
  }

  // ---- one purge keeps the invariant ----

  /** What removals do: only unprotected files go, each with a pending row naming its bytes; rows
      change only from pending to done. */
  ghost predicate PurgeEffect(run: RunId, w: World, w': World) {
    && w'.stages == w.stages && w'.runs == w.runs
    && (forall p :: p in w'.files ==> p in w.files && w'.files[p] == w.files[p])
    && (forall p :: p in w.files && p !in w'.files ==>
          exists i :: 0 <= i < |w.rows| && IsPendingDelete(w.rows[i], run, p) &&
                      w.rows[i].srcSha == Some(Sha256(w.files[p])))
    && |w'.rows| == |w.rows|
    && (forall i :: 0 <= i < |w.rows| ==>
          w'.rows[i] == w.rows[i] ||
          (w.rows[i].status == Pending && w.rows[i].op == Delete && w'.rows[i] == w.rows[i].(status := Done)))
  }

  lemma {:induction false} RemoveOneEffect(run: RunId, w: World, w1: World, path: Path)
    requires PurgeEffect(run, w, w1)
    ensures PurgeEffect(run, w, RemoveOne(w1, run, path))
  {
    var w2 := RemoveOne(w1, run, path);
    if Removable(w1.files, w1.rows, run, path) {
      var id := AuthorisedDelete(w1.rows, true, run, path).value;
      assert w1.rows[id].status == Pending;
      assert w.rows[id] == w1.rows[id];
    }
  }

  lemma {:induction false} RemoveAllEffect(run: RunId, w: World, paths: seq<Path>)
    ensures PurgeEffect(run, w, RemoveAll(w, run, paths))
  {
    if paths != [] {
      RemoveAllEffect(run, w, paths[..|paths| - 1]);
      RemoveOneEffect(run, w, RemoveAll(w, run, paths[..|paths| - 1]), paths[|paths| - 1]);
    }
  }

  lemma {:induction false} RemoveSomeEffect(run: RunId, w: World, allowed: seq<Path>, n: nat, half: bool)
    requires n <= |allowed|
    ensures PurgeEffect(run, w, RemoveSome(w, run, allowed, n, half))
  {
    RemoveAllEffect(run, w, allowed[..n]);
    var done := RemoveAll(w, run, allowed[..n]);
    if n < |allowed| && Removable(done.files, done.rows, run, allowed[n]) {
      var id := AuthorisedDelete(done.rows, true, run, allowed[n]).value;
      assert done.rows[id] == w.rows[id];
    }
  }

  lemma {:induction false} PurgeHasEffect(w: World, p: PurgeCall)
    ensures PurgeEffect(p.run, w, Purge(w, p))
  {
    if p.run in w.stages {
      var allowed := AllowedPaths(w, p.run, w.stages[p.run]);
      RemoveSomeEffect(p.run, w, allowed, Min(p.removals, |allowed|), p.halfRemoval);
    }
  }

  /** A removed file was covered: it lay outside the protected trees, and its bytes lie inside. */
  lemma {:induction false} RemovedIsCovered(kept: set<Path>, run: RunId, w: World, w': World, p: Path)
    requires Safe(kept, w) && PurgeEffect(run, w, w') && p in w.files && p !in w'.files
    ensures !Guarded(kept, p) && Keeps(kept, w.files, Sha256(w.files[p]))
  {
    var i :| 0 <= i < |w.rows| && IsPendingDelete(w.rows[i], run, p) && w.rows[i].srcSha == Some(Sha256(w.files[p]));
    assert w.rows[i] in w.rows && Covered(kept, w.files, w.rows[i]);
  }

  lemma {:induction false} GuardedSurvivesPurge(kept: set<Path>, run: RunId, w: World, w': World, sha: Digest)
    requires Safe(kept, w) && PurgeEffect(run, w, w') && Keeps(kept, w.files, sha)
    ensures Keeps(kept, w'.files, sha)
  {
    var q :| q in w.files && Guarded(kept, q) && Sha256(w.files[q]) == sha;
    if q !in w'.files { RemovedIsCovered(kept, run, w, w', q); }
  }

  lemma {:induction false} PurgeIsSafe(kept: set<Path>, w: World, p: PurgeCall)
    requires Safe(kept, w)
    ensures Safe(kept, Purge(w, p))
  {
    PurgeHasEffect(w, p);
    var w' := Purge(w, p);
    forall row | row in w'.rows ensures Covered(kept, w'.files, row) {
      var i :| 0 <= i < |w'.rows| && w'.rows[i] == row;
      assert w.rows[i] in w.rows && Covered(kept, w.files, w.rows[i]);
      if row.op == Delete { GuardedSurvivesPurge(kept, p.run, w, w', row.srcSha.value); }
    }
  }

  // ---- histories ----

  /** What can happen to a destination: a merge, a purge, or anyone rewriting a deletes.json. */
  datatype Event = MergeEvent(m: MergeCall) | PurgeEvent(p: PurgeCall) | EditEvent(run: RunId, staged: seq<Candidate>)

  function Step(w: World, e: Event): World {
    match e
    case MergeEvent(m) => Merge(w, m)
    case PurgeEvent(p) => Purge(w, p)
    case EditEvent(run, staged) => w.(stages := w.stages[run := staged])
  }

  function Run(w: World, es: seq<Event>): World {
    if es == [] then w else Step(Run(w, es[..|es| - 1]), es[|es| - 1])
  }

  /** Every merge of the history meets the hypotheses on the disk it finds. */
  ghost predicate LawfulHistory(kept: set<Path>, w: World, es: seq<Event>) {
    es == [] ||
    (LawfulHistory(kept, w, es[..|es| - 1]) &&
     (es[|es| - 1].MergeEvent? ==> Lawful(kept, Run(w, es[..|es| - 1]).files, es[|es| - 1].m)))
  }

  /** Whatever bytes some file held are held by some file. */
  ghost predicate NothingLost(before: Files, after: Files) {
    forall p :: p in before ==> exists q :: q in after && after[q] == before[p]
  }

  lemma {:induction false} StepLosesNothing(kept: set<Path>, w: World, e: Event)
    requires Safe(kept, w) && (e.MergeEvent? ==> Lawful(kept, w.files, e.m))
    ensures Safe(kept, Step(w, e)) && NothingLost(w.files, Step(w, e).files)
  {
    match e
    case MergeEvent(m) =>
      MergeIsSafe(kept, w, m);
      forall p | p in w.files ensures exists q :: q in Merge(w, m).files && Merge(w, m).files[q] == w.files[p] {
        assert p in Merge(w, m).files && Merge(w, m).files[p] == w.files[p];
      }
    case PurgeEvent(p) =>
      PurgeIsSafe(kept, w, p);
      PurgeLosesNothing(kept, w, p);
    case EditEvent(run, staged) =>
      forall p | p in w.files ensures exists q :: q in w.files && w.files[q] == w.files[p] { assert p in w.files; }
  }

  lemma {:induction false} PurgeLosesNothing(kept: set<Path>, w: World, p: PurgeCall)
    requires Safe(kept, w)
    ensures NothingLost(w.files, Purge(w, p).files)
  {
    PurgeHasEffect(w, p);
    var w' := Purge(w, p);
    forall f | f in w.files ensures exists q :: q in w'.files && w'.files[q] == w.files[f] {
      if f in w'.files {
        assert w'.files[f] == w.files[f];
      } else {
        RemovedIsCovered(kept, p.run, w, w', f);
        GuardedSurvivesPurge(kept, p.run, w, w', Sha256(w.files[f]));
        var q :| q in w'.files && Guarded(kept, q) && Sha256(w'.files[q]) == Sha256(w.files[f]);
        assert w'.files[q] == w.files[f];
      }
    }
  }

  /** THE promise: over any history, from any safe state, no content is ever lost. */
  lemma {:induction false} NoContentIsLost(kept: set<Path>, w: World, es: seq<Event>)
    requires Safe(kept, w) && LawfulHistory(kept, w, es)
    ensures Safe(kept, Run(w, es)) && NothingLost(w.files, Run(w, es).files)
  {
    if es == [] {
      forall p | p in w.files ensures exists q :: q in w.files && w.files[q] == w.files[p] { assert p in w.files; }
    } else {
      var w1 := Run(w, es[..|es| - 1]);
      NoContentIsLost(kept, w, es[..|es| - 1]);
      StepLosesNothing(kept, w1, es[|es| - 1]);
      var w2 := Run(w, es);
      forall p | p in w.files ensures exists q :: q in w2.files && w2.files[q] == w.files[p] {
        var q1 :| q1 in w1.files && w1.files[q1] == w.files[p];
        var q2 :| q2 in w2.files && w2.files[q2] == w1.files[q1];
      }
    }
  }

  /** A destination starts safe: its table is empty and no staging file is about. */
  lemma {:induction false} FreshIsSafe(kept: set<Path>, w: World)
    requires NoStaging(w.files) && w.rows == []
    ensures Safe(kept, w)
  {
  }

  lemma {:induction false} AuthorityIsCovered(kept: set<Path>, w: World, apply: bool, run: RunId, path: Path)
    requires Safe(kept, w) && AuthorisedDelete(w.rows, apply, run, path).Some?
    ensures var row := w.rows[AuthorisedDelete(w.rows, apply, run, path).value];
      && !Guarded(kept, path) && row.srcSha.Some?
      && exists q :: q in w.files && q != path && Guarded(kept, q) && Sha256(w.files[q]) == row.srcSha.value
  {
    var row := w.rows[AuthorisedDelete(w.rows, apply, run, path).value];
    assert row in w.rows && Covered(kept, w.files, row);
    var q :| q in w.files && Guarded(kept, q) && Sha256(w.files[q]) == row.srcSha.value;
    assert q != path;
  }

  /** In every reachable state, authority to delete means a protected file holds the bytes. */
  lemma {:induction false} AuthorityMeansKept(kept: set<Path>, w: World, es: seq<Event>, apply: bool, run: RunId,
                                              path: Path)
    requires Safe(kept, w) && LawfulHistory(kept, w, es)
    requires AuthorisedDelete(Run(w, es).rows, apply, run, path).Some?
    ensures var w' := Run(w, es);
      var row := w'.rows[AuthorisedDelete(w'.rows, apply, run, path).value];
      && !Guarded(kept, path) && row.srcSha.Some?
      && exists q :: q in w'.files && q != path && Guarded(kept, q) && Sha256(w'.files[q]) == row.srcSha.value
  {
    NoContentIsLost(kept, w, es);
    AuthorityIsCovered(kept, Run(w, es), apply, run, path);
  }

  /** Protected files are never removed, and no surviving file is ever overwritten. */
  lemma {:induction false} NothingIsOverwritten(kept: set<Path>, w: World, es: seq<Event>)
    requires Safe(kept, w) && LawfulHistory(kept, w, es)
    ensures forall p :: p in w.files && Guarded(kept, p) ==> p in Run(w, es).files
    ensures forall p :: p in w.files && p in Run(w, es).files ==> Run(w, es).files[p] == w.files[p]
    ensures forall p :: p in Run(w, es).files && p !in w.files ==> Guarded(kept, p)
  {
    if es != [] {
      NothingIsOverwritten(kept, w, es[..|es| - 1]);
      NoContentIsLost(kept, w, es[..|es| - 1]);
      StepOverwritesNothing(kept, Run(w, es[..|es| - 1]), es[|es| - 1]);
    }
  }

  lemma {:induction false} StepOverwritesNothing(kept: set<Path>, w: World, e: Event)
    requires Safe(kept, w) && (e.MergeEvent? ==> Lawful(kept, w.files, e.m))
    ensures forall p :: p in w.files && Guarded(kept, p) ==> p in Step(w, e).files
    ensures forall p :: p in w.files && p in Step(w, e).files ==> Step(w, e).files[p] == w.files[p]
    ensures forall p :: p in Step(w, e).files && p !in w.files ==> Guarded(kept, p)
  {
    match e
    case MergeEvent(m) => MergeHasEffect(kept, w, m);
    case PurgeEvent(p) =>
      PurgeHasEffect(w, p);
      forall f | f in w.files && Guarded(kept, f) ensures f in Purge(w, p).files {
        if f !in Purge(w, p).files { RemovedIsCovered(kept, p.run, w, Purge(w, p), f); }
      }
    case EditEvent(_, _) =>
  }
}
