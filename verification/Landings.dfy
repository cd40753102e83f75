/** When copies land: what a machine that works does with a whole plan, without assuming of any copy that it lands. */
module Landings {
  import opened Basics
  import opened Paths
  import opened Fsx
  import opened Ledger
  import opened Planning
  import opened PlanProofs
  import opened Worlds
  import opened Histories
  import opened Listings
  import R = Replays

  /** Nothing fails, and a write that is not a reflink reaches the disk as it was sent. */
  predicate Works(io: Io, bytes: Bytes) {
    io.fate == Completes && (io.reflinked || io.landed == bytes)
  }

  /** The machine works through every copy of the plan. */
  ghost predicate WorksThrough(files: Files, ios: map<Path, Io>, plan: seq<PlanRow>) {
    forall i :: 0 <= i < |plan| && plan[i].action.CopyTo? && plan[i].Path() in files ==>
      Works(IoAt(ios, plan[i].action.dst), files[plan[i].Path()])
  }

  lemma {:induction false} WorkingCopyLands(files: Files, src: Path, dst: Path, io: Io)
    requires dst != [] && src in files && src != Staging(dst) && Works(io, files[src])
    ensures Replaces(files, src, dst, io) && Succeeds(files, src, dst, true, None, io)
  {
    LandsIff(files, src, dst, true, None, io);
  }

  /** On a disk whose sources are no staging files of the run, where the run has recorded none of the targets, every
      planned copy lands. */
  lemma {:induction false} PlanLands(w: World, m: MergeCall, plan: seq<PlanRow>)
    requires Clear(m.config, w.files) && MergePlan(m.config, m.walks, w.files) == Some(plan)
    requires WorksThrough(w.files, m.ios, plan)
    requires forall i :: 0 <= i < |plan| && plan[i].action.CopyTo? ==>
      plan[i].action.dst !in CompletedPaths(w.rows, m.config.run)
    ensures R.AllLand(w.files, CompletedPaths(w.rows, m.config.run), m.ios, plan)
  {
    PlanIsNew(m.config, m.walks, w.files, plan);
    forall i | 0 <= i < |plan| && plan[i].action.CopyTo?
      ensures plan[i].action.dst != [] && plan[i].Path() in w.files &&
        Replaces(w.files, plan[i].Path(), plan[i].action.dst, IoAt(m.ios, plan[i].action.dst))
    {
      FoundInPlan(m.config, m.walks, w.files, plan[i]);
      assert NewTarget(w.files, plan[i]) && !StagesOver(plan[i], plan[i].Path());
      WorkingCopyLands(w.files, plan[i].Path(), plan[i].action.dst, IoAt(m.ios, plan[i].action.dst));
    }
  }

  /** After any lawful history, whatever runs it held, a machine that works lands every copy of the next merge. */
  lemma {:induction false} WorkingMachineLands(kept: set<Path>, w: World, es: seq<Event>, m: MergeCall,
                                               plan: seq<PlanRow>)
    requires Safe(kept, w) && R.RecordedExists(kept, w) && LawfulHistory(kept, w, es)
    requires Lawful(kept, Run(w, es).files, m) && MergePlan(m.config, m.walks, Run(w, es).files) == Some(plan)
    requires WorksThrough(Run(w, es).files, m.ios, plan)
    ensures R.AllLand(Run(w, es).files, CompletedPaths(Run(w, es).rows, m.config.run), m.ios, plan)
  {
    NoContentIsLost(kept, w, es);
    R.ResumeSkipNeverFires(kept, w, es, m, plan);
    PlanLands(Run(w, es), m, plan);
  }

  /** Then, if the call reaches every row, each target holds its source's bytes ... */
  lemma {:induction false} WorkingMerge(kept: set<Path>, w: World, es: seq<Event>, m: MergeCall, plan: seq<PlanRow>)
    requires Safe(kept, w) && R.RecordedExists(kept, w) && LawfulHistory(kept, w, es)
    requires Lawful(kept, Run(w, es).files, m) && MergePlan(m.config, m.walks, Run(w, es).files) == Some(plan)
    requires WorksThrough(Run(w, es).files, m.ios, plan)
    requires m.config.apply && m.enoughSpace && m.copies >= |plan|
    ensures var before, after := Run(w, es).files, Merge(Run(w, es), m).files;
      && Grows(before, after)
      && (forall i :: 0 <= i < |plan| && plan[i].action.CopyTo? ==>
            plan[i].Path() in before && plan[i].action.dst in after && plan[i].action.dst !in before &&
            after[plan[i].action.dst] == before[plan[i].Path()])
      && forall q :: q in after && q !in before ==> exists i :: 0 <= i < |plan| && plan[i].action == CopyTo(q)
  {
    var v := Run(w, es);
    NoContentIsLost(kept, w, es);
    WorkingMachineLands(kept, w, es, m, plan);
    R.MergeTargetsHold(v, m, plan);
    MergeHasEffect(kept, v, m);
    PlanIsNew(m.config, m.walks, v.files, plan);
    forall i | 0 <= i < |plan| && plan[i].action.CopyTo? ensures plan[i].action.dst !in v.files {
      assert NewTarget(v.files, plan[i]);
    }
    OnlyTargets(v, m, plan);
  }

  lemma {:induction false} OnlyTargets(w: World, m: MergeCall, plan: seq<PlanRow>)
    requires Clear(m.config, w.files) && MergePlan(m.config, m.walks, w.files) == Some(plan)
    requires m.config.apply && m.enoughSpace && m.copies >= |plan|
    ensures forall q :: q in Merge(w, m).files && q !in w.files ==>
      exists i :: 0 <= i < |plan| && plan[i].action == CopyTo(q)
  {
    PlanIsNew(m.config, m.walks, w.files, plan);
    R.MergeFiles(w, m, plan);
    ApplyCarries(m.config.run, CompletedPaths(w.rows, m.config.run), m.ios, Progress(w.files, w.rows, []), plan);
  }

  /** A file below the destination or in the library holds these bytes. */
  ghost predicate Arrived(c: Config, files: Files, bytes: Bytes) {
    exists q :: q in files && files[q] == bytes && (c.dest < q || (c.library.Some? && c.library.value < q))
  }

  lemma {:induction false} PlacedHasArrived(c: Config, walks: Walks, files: Files, plan: seq<PlanRow>, after: Files,
                                            bytes: Bytes)
    requires R.Placed(c, walks, files, plan, after, bytes) && Grows(files, after) && FreshTargets(c, files, plan)
    ensures Arrived(c, after, bytes)
  {
    if AlreadyThere(c, walks, files, bytes) {
      var q := HeldBelow(c, walks, files, bytes);
      assert q in after && after[q] == bytes;
    } else {
      var i :| 0 <= i < |plan| && plan[i].action.CopyTo? && plan[i].action.dst in after &&
        after[plan[i].action.dst] == bytes;
      assert FreshTarget(c, files, plan[i].action.dst);
    }
  }

  /** ... and the bytes of every file that a source's walk lists are below the destination or in the library. */
  lemma {:induction false} EveryContentArrives(kept: set<Path>, w: World, es: seq<Event>, m: MergeCall,
                                               plan: seq<PlanRow>, s: Path, p: Path)
    requires Safe(kept, w) && R.RecordedExists(kept, w) && LawfulHistory(kept, w, es)
    requires Lawful(kept, Run(w, es).files, m) && MergePlan(m.config, m.walks, Run(w, es).files) == Some(plan)
    requires WorksThrough(Run(w, es).files, m.ios, plan) && SourcesApart(m.config)
    requires m.config.apply && m.enoughSpace && m.copies >= |plan|
    requires s in m.config.srcs && s in m.walks && p in m.walks[s] && s < p && p in Run(w, es).files
    ensures Arrived(m.config, Merge(Run(w, es), m).files, Run(w, es).files[p])
  {
    var before, after := Run(w, es).files, Merge(Run(w, es), m).files;
    var f := ScannedFile(before, m.walks, m.config.srcs, s, p);
    WorkingMerge(kept, w, es, m, plan);
    R.ScannedIsPlaced(m.config, m.walks, before, plan, after, f);
    PlanIsFresh(m.config, m.walks, before, plan);
    PlacedHasArrived(m.config, m.walks, before, plan, after, before[p]);
  }

  lemma {:induction false} ScannedFile(files: Files, walks: Walks, srcs: seq<Path>, s: Path, p: Path) returns (f: Found)
    requires s in srcs && s in walks && p in walks[s] && s < p && p in files
    ensures f in Scan(files, walks, srcs) && f.path == p
  {
    var found := Scan(files, walks, srcs);
    ScanIff(files, walks, srcs, p);
    var i :| 0 <= i < |found| && PathsOf(found)[i] == p;
    f := found[i];
  }

  /** A content that is there already is held below the destination or in the library. */
  lemma {:induction false} HeldBelow(c: Config, walks: Walks, files: Files, bytes: Bytes) returns (q: Path)
    requires AlreadyThere(c, walks, files, bytes)
    ensures q in files && files[q] == bytes && (c.dest < q || (c.library.Some? && c.library.value < q))
  {
    ListedRoots(files, c, walks);
    if HeldOnlyOnDest(c, walks, files, bytes) {
      q :| q in DestFiles(files, c, walks) && q !in LibraryFiles(files, c, walks) && q in files && files[q] == bytes;
    } else {
      q :| q in LibraryFiles(files, c, walks) && q in files && files[q] == bytes;
    }
  }
}
