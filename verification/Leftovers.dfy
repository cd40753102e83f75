/** What a leftover staging file can cost: which merges drop one, when its content is lost with it, and a history,
    with roots kept apart, that loses a content this way. */
module Leftovers {
  import opened Basics
  import opened Paths
  import opened Names
  import opened Fsx
  import opened Ledger
  import opened Planning
  import opened PlanProofs
  import opened Worlds
  import opened Histories
  import opened PurgeProofs
  import opened Reclaims
  import opened Losses
  import opened Twins
  import opened Scenarios
  import opened Traps
  import Gate

  // ---- what one merge drops ----

  /** The rows of a plan that a merge carries out. */
  function ReachedRows(m: MergeCall, plan: seq<PlanRow>): seq<PlanRow> { plan[..Min(m.copies, |plan|)] }

  /** The files a merge drops: those under the staging names of the copies it reaches. */
  ghost function Dropped(w: World, m: MergeCall): set<Path> {
    var plan := MergePlan(m.config, m.walks, w.files);
    if plan.Some? && m.config.apply && m.enoughSpace then
      set q | q in w.files && Freed(CompletedPaths(w.rows, m.config.run), m.ios, ReachedRows(m, plan.value), q)
    else {}
  }

  /** Each dropped file has a holder of its bytes that stays. */
  ghost predicate Sparing(w: World, m: MergeCall) {
    forall q :: q in Dropped(w, m) && q in w.files ==> Spared(w.files, Dropped(w, m), q)
  }

  /** New files hold the bytes of sources. */
  lemma {:induction false} CopiesComeFrom(run: RunId, done: set<Path>, ios: map<Path, Io>, start: Progress,
                                          rows: seq<PlanRow>, gone: set<Path>)
    requires NewTargets(start.files, rows)
    requires forall i :: 0 <= i < |rows| ==> rows[i].Path() in start.files && rows[i].Path() !in gone
    ensures var p := ApplyRows(run, done, ios, start, rows);
      forall q :: q in p.files && q !in start.files ==> p.files[q] in (start.files - gone).Values
  {
    if rows != [] {
      var init, last := rows[..|rows| - 1], rows[|rows| - 1];
      assert rows == init + [last];
      assert forall i :: 0 <= i < |init| ==> init[i] == rows[i];
      NewTargetsInit(start.files, init, last);
      CopiesComeFrom(run, done, ios, start, init, gone);
      ApplyCarries(run, done, ios, start, init);
      LastComesFrom(run, done, ios, start, ApplyRows(run, done, ios, start, init), init, last, gone);
    }
  }

  lemma {:induction false} LastComesFrom(run: RunId, done: set<Path>, ios: map<Path, Io>, start: Progress, p: Progress,
                                         init: seq<PlanRow>, last: PlanRow, gone: set<Path>)
    requires Carried(done, ios, start, p, init) && NewTargets(start.files, init + [last])
    requires last.Path() in start.files && last.Path() !in gone
    requires forall q :: q in p.files && q !in start.files ==> p.files[q] in (start.files - gone).Values
    ensures var p' := ApplyRow(run, done, ios, p, last);
      forall q :: q in p'.files && q !in start.files ==> p'.files[q] in (start.files - gone).Values
  {
    var stay, p' := start.files - gone, ApplyRow(run, done, ios, p, last);
    SourceStays(done, ios, start, p, init, last);
    assert last.Path() in stay && stay[last.Path()] in stay.Values;
    if last.action.CopyTo? && last.action.dst != [] && last.action.dst !in done {
      assert p'.files == Written(p.files, last.Path(), last.action.dst, IoAt(ios, last.action.dst));
    } else {
      assert p'.files == p.files;
    }
  }

  /** The contents that a finished progress holds are those of the files that were not dropped. */
  lemma {:induction false} CarriedContents(done: set<Path>, ios: map<Path, Io>, start: Progress, p: Progress,
                                           rows: seq<PlanRow>, gone: set<Path>)
    requires Carried(done, ios, start, p, rows)
    requires forall q :: q in gone <==> q in start.files && Freed(done, ios, rows, q)
    requires forall q :: q in p.files && q !in start.files ==> p.files[q] in (start.files - gone).Values
    ensures p.files.Values == (start.files - gone).Values
  {
    var stay := start.files - gone;
    forall b | b in p.files.Values ensures b in stay.Values {
      var q :| q in p.files && p.files[q] == b;
      if q in start.files { assert q in stay && stay[q] == b; }
    }
    forall b | b in stay.Values ensures b in p.files.Values {
      var q :| q in stay && stay[q] == b;
      assert q in p.files && p.files[q] == b;
    }
  }

  /** The files of a merge that copies, whatever it reaches. */
  lemma {:induction false} MergeCarries(w: World, m: MergeCall, plan: seq<PlanRow>)
    requires MergePlan(m.config, m.walks, w.files) == Some(plan) && m.config.apply && m.enoughSpace
    ensures Merge(w, m).files == Carry(w, m, plan).files
  {
    MergeCases(w, m);
  }

  lemma {:induction false} MergeCopiesNothing(w: World, m: MergeCall)
    requires MergePlan(m.config, m.walks, w.files).Some? ==> !m.config.apply || !m.enoughSpace
    ensures Merge(w, m).files == w.files
  {
    MergeCases(w, m);
  }

  lemma {:induction false} NothingDropped(w: World, m: MergeCall)
    requires MergePlan(m.config, m.walks, w.files).Some? ==> !m.config.apply || !m.enoughSpace
    ensures w.files - Dropped(w, m) == w.files
  {
    assert Dropped(w, m) == {};
  }

  lemma {:induction false} SourceStaysPut(done: set<Path>, ios: map<Path, Io>, files: Files, rows: seq<PlanRow>, i: nat)
    requires NewTargets(files, rows) && i < |rows|
    ensures !Freed(done, ios, rows, rows[i].Path())
  {
    forall k | 0 <= k < |rows| ensures !Frees(done, ios, rows[k], rows[i].Path()) {
      assert !StagesOver(rows[k], rows[i].Path());
    }
  }

  lemma {:induction false} CarryContents(run: RunId, done: set<Path>, ios: map<Path, Io>, start: Progress,
                                         rows: seq<PlanRow>, gone: set<Path>)
    requires NewTargets(start.files, rows) && forall i :: 0 <= i < |rows| ==> rows[i].Path() in start.files
    requires forall q :: q in gone <==> q in start.files && Freed(done, ios, rows, q)
    ensures ApplyRows(run, done, ios, start, rows).files.Values == (start.files - gone).Values
  {
    forall i | 0 <= i < |rows| ensures rows[i].Path() !in gone { SourceStaysPut(done, ios, start.files, rows, i); }
    CopiesComeFrom(run, done, ios, start, rows, gone);
    ApplyCarries(run, done, ios, start, rows);
    CarriedContents(done, ios, start, ApplyRows(run, done, ios, start, rows), rows, gone);
  }

  lemma {:induction false} PlannedSources(c: Config, walks: Walks, files: Files, plan: seq<PlanRow>)
    requires MergePlan(c, walks, files) == Some(plan)
    ensures forall i :: 0 <= i < |plan| ==> plan[i].Path() in files
  {
    forall i | 0 <= i < |plan| ensures plan[i].Path() in files { FoundInPlan(c, walks, files, plan[i]); }
  }

  lemma {:induction false} ReachedAreNew(files: Files, plan: seq<PlanRow>, rows: seq<PlanRow>, n: nat)
    requires NewTargets(files, plan) && n <= |plan| && rows == plan[..n]
    requires forall i :: 0 <= i < |plan| ==> plan[i].Path() in files
    ensures NewTargets(files, rows) && forall i :: 0 <= i < |rows| ==> rows[i].Path() in files
  {
    NewTargetsPrefix(files, plan, n);
    assert forall i :: 0 <= i < n ==> rows[i] == plan[i];
  }

  lemma {:induction false} CopiedContents(w: World, m: MergeCall, plan: seq<PlanRow>, rows: seq<PlanRow>,
                                          gone: set<Path>)
    requires Clear(m.config, w.files) && MergePlan(m.config, m.walks, w.files) == Some(plan)
    requires rows == ReachedRows(m, plan)
    requires forall q :: q in gone <==> q in w.files && Freed(CompletedPaths(w.rows, m.config.run), m.ios, rows, q)
    ensures Carry(w, m, plan).files.Values == (w.files - gone).Values
  {
    PlanIsNew(m.config, m.walks, w.files, plan);
    PlannedSources(m.config, m.walks, w.files, plan);
    ReachedAreNew(w.files, plan, rows, Min(m.copies, |plan|));
    CarryContents(m.config.run, CompletedPaths(w.rows, m.config.run), m.ios, Progress(w.files, w.rows, []), rows, gone);
  }

  lemma {:induction false} DroppedAre(w: World, m: MergeCall, plan: seq<PlanRow>)
    requires MergePlan(m.config, m.walks, w.files) == Some(plan) && m.config.apply && m.enoughSpace
    ensures forall q :: q in Dropped(w, m) <==>
      q in w.files && Freed(CompletedPaths(w.rows, m.config.run), m.ios, ReachedRows(m, plan), q)
  {
  }

  lemma {:induction false} ContentsIfCopying(w: World, m: MergeCall, plan: seq<PlanRow>)
    requires Clear(m.config, w.files) && MergePlan(m.config, m.walks, w.files) == Some(plan)
    requires m.config.apply && m.enoughSpace
    ensures Carry(w, m, plan).files.Values == (w.files - Dropped(w, m)).Values
  {
    DroppedAre(w, m, plan);
    CopiedContents(w, m, plan, ReachedRows(m, plan), Dropped(w, m));
  }

  /** Whatever leftovers the disk has, a merge leaves the contents of the files it does not drop. */
  lemma {:induction false} MergeContents(w: World, m: MergeCall)
    requires Clear(m.config, w.files)
    ensures Merge(w, m).files.Values == (w.files - Dropped(w, m)).Values
  {
    var plan := MergePlan(m.config, m.walks, w.files);
    if plan.Some? && m.config.apply && m.enoughSpace {
      ContentsIfCopying(w, m, plan.value);
      MergeCarries(w, m, plan.value);
    } else {
      NothingDropped(w, m);
      MergeCopiesNothing(w, m);
    }
  }

  /** A merge, on any disk whose sources are no staging files of the run, loses nothing exactly when every file it
      drops has a holder of its bytes that it does not drop. */
  lemma {:induction false} MergeLosesNothingIff(w: World, m: MergeCall)
    requires Clear(m.config, w.files)
    ensures NothingLost(w.files, Merge(w, m).files) <==> Sparing(w, m)
  {
    MergeContents(w, m);
    LostIsMissing(w.files, Merge(w, m).files);
    LostIsMissing(w.files, w.files - Dropped(w, m));
    RemovalLosesNothingIff(w.files, Dropped(w, m));
  }

  // ---- histories on disks with leftovers ----

  /** Each merge finds clean source names, sources that are no staging files of it, and an orderly machine. */
  ghost predicate ClearHistory(w: World, es: seq<Event>) {
    es == [] ||
    (ClearHistory(w, es[..|es| - 1]) &&
     (es[|es| - 1].MergeEvent? ==>
       Clear(es[|es| - 1].m.config, Run(w, es[..|es| - 1]).files) && Orderly(es[|es| - 1].m.ios)))
  }

  /** Every purge of the history is cautious, and every merge sparing, in the state it finds. */
  ghost predicate GentleHistory(w: World, es: seq<Event>) {
    es == [] || (GentleHistory(w, es[..|es| - 1]) && Gentle(Run(w, es[..|es| - 1]), es[|es| - 1]))
  }

  ghost predicate Gentle(w: World, e: Event) {
    match e
    case MergeEvent(m) => Sparing(w, m)
    case PurgeEvent(p) => Cautious(w, p)
    case EditEvent(_, _) => true
  }

  lemma {:induction false} StepValues(w: World, e: Event)
    requires e.MergeEvent? ==> Clear(e.m.config, w.files)
    ensures Step(w, e).files.Values <= w.files.Values
    ensures w.files.Values <= Step(w, e).files.Values <==> Gentle(w, e)
  {
    LostIsMissing(w.files, Step(w, e).files);
    match e
    case MergeEvent(m) =>
      MergeContents(w, m);
      MergeLosesNothingIff(w, m);
      FewerValues(w.files, Dropped(w, m));
    case PurgeEvent(p) =>
      PurgeTakes(w, p);
      PurgeLosesNothingIff(w, p);
      FewerValues(w.files, Taken(w, p));
    case EditEvent(_, _) =>
  }

  lemma {:induction false} FewerValues(files: Files, gone: set<Path>)
    ensures (files - gone).Values <= files.Values
  {
    forall b | b in (files - gone).Values ensures b in files.Values {
      var q :| q in files - gone && (files - gone)[q] == b;
      assert q in files && files[q] == b;
    }
  }

  lemma {:induction false} HistoryValues(w: World, es: seq<Event>)
    requires ClearHistory(w, es)
    ensures Run(w, es).files.Values <= w.files.Values
    ensures w.files.Values <= Run(w, es).files.Values <==> GentleHistory(w, es)
  {
    if es != [] {
      HistoryValues(w, es[..|es| - 1]);
      StepValues(Run(w, es[..|es| - 1]), es[|es| - 1]);
    }
  }

  /** From any table and disk, leftovers and all: a history loses nothing if and only if each of its purges is
      cautious and each of its merges sparing. */
  lemma {:induction false} GentleIffNothingLost(w: World, es: seq<Event>)
    requires ClearHistory(w, es)
    ensures NothingLost(w.files, Run(w, es).files) <==> GentleHistory(w, es)
  {
    HistoryValues(w, es);
    LostIsMissing(w.files, Run(w, es).files);
  }

  lemma {:induction false} NoneDropped(w: World, m: MergeCall)
    requires NoStaging(w.files)
    ensures Dropped(w, m) == {}
  {
    forall q | q in Dropped(w, m) ensures false {
      var reached := ReachedRows(m, MergePlan(m.config, m.walks, w.files).value);
      var i :| 0 <= i < |reached| &&
        Frees(CompletedPaths(w.rows, m.config.run), m.ios, reached[i], q);
      StagingDiffers(reached[i].action.dst);
    }
  }

  /** From a disk without leftovers only the purges matter: merges have nothing to drop. */
  lemma {:induction false} WithoutLeftovers(w: World, es: seq<Event>)
    requires NoStaging(w.files) && TidyHistory(w, es)
    ensures ClearHistory(w, es) && (GentleHistory(w, es) <==> CautiousHistory(w, es))
  {
    if es != [] {
      var init, e := es[..|es| - 1], es[|es| - 1];
      WithoutLeftovers(w, init);
      HistoryContents(w, init);
      if e.MergeEvent? { NoneDropped(Run(w, init), e.m); }
    }
  }

  // ---- a history that loses a content, with roots kept apart ----

  /** Two sources with a file of one name each, and a copy of the first cut short by a power cut. */
  datatype Cut = Cut(s: Path, t: Path, dest: Path, subtree: Component, leaf: Component, bytes: Bytes, other: Bytes,
                     naming: Naming, medium: string, first: RunId, second: RunId)
  {
    function Root(): Path { dest + [subtree] }

    function Source(): Path { s + [leaf] }

    function Later(): Path { t + [leaf] }

    /** The name that both are copied under, and the staging file beside it. */
    function Target(): Path { Root() + [naming.sanitise(leaf)] }

    function Leftover(): Path { Staging(Target()) }

    ghost predicate Apart() {
      && Unnested(s, t) && Unnested(s, dest) && Unnested(t, dest) && bytes != other && first != second
      && !IsStaging(naming.sanitise(leaf))
    }

    ghost predicate Ordered() { Before(Leftover(), Source()) }

    function Holding(paths: set<Path>): Files { map p | p in paths :: if p == Later() then other else bytes }

    /** The power fails once the copy of the first file is written, before it is renamed. */
    function Start(): World {
      World(AfterCut(Holding({Source(), Later()}), Source(), Target(),
                     Io(PowerCut(HashingCopy), bytes, [], false, true, true)), [], map[], map[])
    }

    function Listing(roots: set<Path>): Walks {
      map r | r in roots :: [if r == s then Source() else if r == t then Later() else Leftover()]
    }

    function Walks(): Walks { Listing({s, t, Root()}) }

    function MergeOf(run: RunId, src: Path): MergeCall {
      MergeCall(Config(run, medium, [src], dest, None, subtree, naming, true), Walks(), map[], true, 1, 1, false)
    }

    function PurgeOf(run: RunId): PurgeCall { PurgeCall(run, medium, true, 1, false) }

    /** The first source again, its purge, and then the second source. */
    function History(): seq<Event> {
      [MergeEvent(MergeOf(first, s))] + [PurgeEvent(PurgeOf(first))] + [MergeEvent(MergeOf(second, t))]
    }
  }

  lemma {:induction false} CutPaths(c: Cut)
    requires c.Apart()
    ensures c.Source() != c.Later() && c.Source() != c.Leftover() && c.Later() != c.Leftover()
    ensures c.Target() !in {c.Source(), c.Later(), c.Leftover()}
    ensures c.s != c.t && c.Root() != c.s && c.Root() != c.t
    ensures c.s < c.Source() && c.t < c.Later() && c.Root() < c.Leftover() && IsStaging(Leaf(c.Leftover()))
  {
    StagingDiffers(c.Target());
    assert c.dest <= c.Root() && c.Root() < c.Leftover() && c.Root() < c.Target();
    if c.Source() == c.Later() { UnderBoth(c.s, c.t, c.Source()); }
    if c.Source() == c.Leftover() || c.Source() == c.Target() { UnderBoth(c.s, c.dest, c.Source()); }
    if c.Later() == c.Leftover() || c.Later() == c.Target() { UnderBoth(c.t, c.dest, c.Later()); }
  }

  lemma {:induction false} StartIs(c: Cut)
    requires c.Apart()
    ensures c.Start().files == c.Holding({c.Source(), c.Later(), c.Leftover()})
  {
    CutPaths(c);
  }

  lemma {:induction false} LeftoverListed(c: Cut, files: Files, run: RunId, src: Path)
    requires c.Apart() && c.Leftover() in files
    ensures var config := c.MergeOf(run, src).config;
      && DestFiles(files, config, c.Walks()) == [c.Leftover()] && LibraryFiles(files, config, c.Walks()) == []
  {
    CutPaths(c);
    assert c.Walks()[c.Root()] == [c.Leftover()];
    ListsOne(files, c.MergeOf(run, src).config, c.Walks(), c.Leftover());
  }

  lemma {:induction false} ListsOne(files: Files, config: Config, walks: Walks, p: Path)
    requires config.library == None && p in files && config.LayoutRoot() < p
    requires config.LayoutRoot() in walks && walks[config.LayoutRoot()] == [p]
    ensures DestFiles(files, config, walks) == [p] && LibraryFiles(files, config, walks) == []
  {
    OneListed(files, config.LayoutRoot(), p);
    assert PathsOf([Found(p, |files[p]|, p[|config.LayoutRoot()|..])]) == [p];
  }

  lemma {:induction false} CutScans(c: Cut, files: Files)
    requires c.Apart() && c.Source() in files
    ensures SourcesOf(Scan(files, c.Walks(), [c.s])) == {c.Source()} && |Scan(files, c.Walks(), [c.s])| == 1
  {
    CutPaths(c);
    ScanOne(files, c.Walks(), c.s, c.Source());
  }

  lemma {:induction false} IndexesTwo(config: Config, walks: Walks, files: Files, source: Path, least: Path)
    requires SourcesOf(Scan(files, walks, config.srcs)) == {source} && source != least
    requires DestFiles(files, config, walks) == [least] && LibraryFiles(files, config, walks) == []
    ensures forall q :: q in Indexed(files, config, walks) <==> q == source || q == least
    ensures least !in PathsOf(Scan(files, walks, config.srcs))
  {
    var found := Scan(files, walks, config.srcs);
    SourcesArePaths(found);
    forall q ensures q in Indexed(files, config, walks) <==> q in SourcesOf(found) || q == least {
      IndexedMember(config, walks, files, q);
    }
  }

  lemma {:induction false} IndexedMember(config: Config, walks: Walks, files: Files, q: Path)
    ensures q in Indexed(files, config, walks) <==>
      || q in PathsOf(Scan(files, walks, config.srcs))
      || q in DestFiles(files, config, walks) || q in LibraryFiles(files, config, walks)
  {
  }

  /** The first merge sees its source and the leftover, which sorts first. */
  lemma {:induction false} CutFirstSees(c: Cut, files: Files)
    requires c.Apart() && c.Ordered() && files == c.Holding({c.Source(), c.Later(), c.Leftover()})
    ensures OneContent(c.MergeOf(c.first, c.s).config, c.Walks(), files, c.Leftover())
  {
    CutPaths(c);
    CutScans(c, files);
    LeftoverListed(c, files, c.first, c.s);
    IndexesTwo(c.MergeOf(c.first, c.s).config, c.Walks(), files, c.Source(), c.Leftover());
    LeastOf(c.Leftover(), c.Source());
    SeesTwo(c.MergeOf(c.first, c.s).config, c.Walks(), files, c.Source(), c.Leftover());
  }

  lemma {:induction false} SeesTwo(config: Config, walks: Walks, files: Files, source: Path, least: Path)
    requires forall q :: q in Indexed(files, config, walks) <==> q == source || q == least
    requires least !in PathsOf(Scan(files, walks, config.srcs)) && Before(least, least) && Before(least, source)
    requires source in files && least in files && files[source] == files[least]
    ensures OneContent(config, walks, files, least)
  {
  }

  lemma {:induction false} RunOfRows(run: RunId, files: Files, ks: seq<Candidate>)
    ensures forall row :: row in AuthoriseRows(run, files, ks) ==> row.run == run
  {
    if ks != [] { RunOfRows(run, files, ks[..|ks| - 1]); }
  }

  /** The purge takes the source: the leftover is its proof. */
  lemma {:induction false} CutPurge(m: MergeCall, p: PurgeCall, start: World, source: Path, least: Path)
    requires OneContent(m.config, m.walks, start.files, least) && Followed(start, m, p) && start.rows == []
    requires SourcesOf(Scan(start.files, m.walks, m.config.srcs)) == {source} && source != least
    ensures Purge(Merge(start, m), p).files == start.files - {source}
  {
    LeftOver(start.files, source, least, Sha256(start.files[least]));
    Round(start, m, p, least, {source}, start.files - {source});
  }

  /** Another run has recorded nothing. */
  lemma {:induction false} CutRows(m: MergeCall, p: PurgeCall, start: World, least: Path, other: RunId)
    requires OneContent(m.config, m.walks, start.files, least) && Followed(start, m, p) && start.rows == []
    requires p.run != other
    ensures CompletedPaths(Purge(Merge(start, m), p).rows, other) == {}
  {
    OnlyOwnRows(m, p, start, least);
    PurgeOtherRun(Merge(start, m), p, other);
  }

  lemma {:induction false} OnlyOwnRows(m: MergeCall, p: PurgeCall, start: World, least: Path)
    requires OneContent(m.config, m.walks, start.files, least) && Followed(start, m, p) && start.rows == []
    ensures forall row :: row in Merge(start, m).rows ==> row.run == p.run
  {
    var ks := OneContentMerge(start, m, p, least);
    SettledRows(p.run, start.files, ks, Merge(start, m).rows);
  }

  lemma {:induction false} SettledRows(run: RunId, files: Files, ks: seq<Candidate>, rows: Rows)
    requires Settled(run, files, [], [], ks, rows)
    ensures forall row :: row in rows ==> row.run == run
  {
    assert rows == AuthoriseRows(run, files, ks);
    RunOfRows(run, files, ks);
  }

  lemma {:induction false} PurgeOtherRun(w: World, p: PurgeCall, other: RunId)
    requires p.run != other && forall row :: row in w.rows ==> row.run == p.run
    ensures CompletedPaths(Purge(w, p).rows, other) == {}
  {
    PurgeHasEffect(w, p);
    OtherRun(p.run, other, w.rows, Purge(w, p).rows);
  }

  lemma {:induction false} OtherRun(run: RunId, other: RunId, before: Rows, after: Rows)
    requires run != other && |after| == |before| && forall row :: row in before ==> row.run == run
    requires forall i :: 0 <= i < |before| ==> after[i] == before[i] || after[i] == before[i].(status := Done)
    ensures CompletedPaths(after, other) == {}
  {
    forall i | 0 <= i < |after| ensures after[i].run == run { assert before[i] in before; }
  }

  /** The second source has no copy on the destination, and the leftover claims no name. */
  lemma {:induction false} CutSecondSees(c: Cut, files: Files)
    requires c.Apart() && files == c.Holding({c.Later(), c.Leftover()})
    ensures OneFile(c.MergeOf(c.second, c.t).config, c.Walks(), files, c.t, c.leaf, c.other)
  {
    var config := c.MergeOf(c.second, c.t).config;
    CutPaths(c);
    LeftoverListed(c, files, c.second, c.t);
    SourceOutside(config, c.Later(), c.t);
    forall leaf | leaf in ListDir(files.Keys, c.Root()) ensures IsStaging(leaf) {
      assert leaf == c.Leftover()[|c.Root()|] == Leaf(c.Leftover());
    }
    assert ClaimedOnDisk(config, files, config.LayoutRoot()) == {};
  }

  /** One copy that lands, and what it leaves. */
  lemma {:induction false} OneCopied(w: World, m: MergeCall, row: PlanRow, dst: Path)
    requires MergePlan(m.config, m.walks, w.files) == Some([row]) && row.action == CopyTo(dst) && dst != []
    requires m.config.apply && m.enoughSpace && m.copies >= 1 && m.ios == map[]
    requires CompletedPaths(w.rows, m.config.run) == {} && row.Path() in w.files && row.Path() != Staging(dst)
    ensures Merge(w, m).files == (w.files - {Staging(dst)})[dst := w.files[row.Path()]]
  {
    OneCarried(w, m, row, dst);
    MergeCarries(w, m, [row]);
  }

  lemma {:induction false} OneCarried(w: World, m: MergeCall, row: PlanRow, dst: Path)
    requires row.action == CopyTo(dst) && dst != [] && m.copies >= 1 && m.ios == map[]
    requires CompletedPaths(w.rows, m.config.run) == {} && row.Path() in w.files && row.Path() != Staging(dst)
    ensures Carry(w, m, [row]).files == (w.files - {Staging(dst)})[dst := w.files[row.Path()]]
  {
    assert [row][..1] == [row];
    OneApplied(m.config.run, Progress(w.files, w.rows, []), row, dst);
  }

  lemma {:induction false} OneApplied(run: RunId, start: Progress, row: PlanRow, dst: Path)
    requires row.action == CopyTo(dst) && dst != [] && row.Path() in start.files && row.Path() != Staging(dst)
    ensures ApplyRows(run, {}, map[], start, [row]).files ==
      (start.files - {Staging(dst)})[dst := start.files[row.Path()]]
  {
    var rows := [row];
    assert rows[..|rows| - 1] == [] && ApplyRows(run, {}, map[], start, []) == start;
    assert ApplyRows(run, {}, map[], start, rows) == ApplyRow(run, {}, map[], start, row);
  }

  /** So it is copied to the leftover's neighbour, over the leftover. */
  lemma {:induction false} CutOverwrites(c: Cut, m: MergeCall, w: World)
    requires c.Apart() && w.files == c.Holding({c.Later(), c.Leftover()}) && CompletedPaths(w.rows, c.second) == {}
    requires m == c.MergeOf(c.second, c.t)
    ensures Merge(w, m).files == (w.files - {c.Leftover()})[c.Target() := c.other]
  {
    CutPaths(c);
    CutSecondSees(c, w.files);
    var row := OneFileIsCopied(m.config, m.walks, w.files, c.t, c.leaf, c.other);
    OneCopied(w, m, row, c.Target());
  }

  lemma {:induction false} NoneHoldsIt(c: Cut, files: Files)
    requires c.Apart() && files == (c.Holding({c.Later(), c.Leftover()}) - {c.Leftover()})[c.Target() := c.other]
    ensures HeldByNone(files, c.bytes)
  {
    CutPaths(c);
  }

  /** The world the second merge finds. */
  lemma {:induction false} CutRound(c: Cut, m: MergeCall, p: PurgeCall, w: World)
    requires c.Apart() && c.Ordered() && m == c.MergeOf(c.first, c.s) && p == c.PurgeOf(c.first)
    requires w == Purge(Merge(c.Start(), m), p)
    ensures w.files == c.Holding({c.Later(), c.Leftover()}) && CompletedPaths(w.rows, c.second) == {}
  {
    CutReady(c, c.Start(), m, p);
    CutTakesSource(c);
    CutPurge(m, p, c.Start(), c.Source(), c.Leftover());
    CutRows(m, p, c.Start(), c.Leftover(), c.second);
  }

  lemma {:induction false} CutReady(c: Cut, start: World, m: MergeCall, p: PurgeCall)
    requires c.Apart() && c.Ordered() && m == c.MergeOf(c.first, c.s) && p == c.PurgeOf(c.first) && start == c.Start()
    ensures OneContent(m.config, m.walks, start.files, c.Leftover()) && Followed(start, m, p)
    ensures SourcesOf(Scan(start.files, m.walks, m.config.srcs)) == {c.Source()}
    ensures start.rows == [] && c.Source() != c.Leftover() && p.run != c.second
  {
    StartIs(c);
    CutPaths(c);
    CutFirstSees(c, start.files);
    CutFollows(c, start, m, p);
  }

  lemma {:induction false} CutTakesSource(c: Cut)
    requires c.Apart()
    ensures c.Start().files - {c.Source()} == c.Holding({c.Later(), c.Leftover()})
  {
    StartIs(c);
    CutPaths(c);
  }

  lemma {:induction false} CutFollows(c: Cut, w: World, m: MergeCall, p: PurgeCall)
    requires c.Apart() && m == c.MergeOf(c.first, c.s) && p == c.PurgeOf(c.first)
    requires c.Source() in w.files && w.runs == map[]
    ensures Followed(w, m, p) && SourcesOf(Scan(w.files, m.walks, m.config.srcs)) == {c.Source()}
  {
    CutScans(c, w.files);
  }

  lemma {:induction false} RunThree(w: World, e0: Event, e1: Event, e2: Event)
    ensures Run(w, []) == w && Run(w, [e0] + [e1]) == Step(Step(w, e0), e1)
    ensures Run(w, [e0] + [e1] + [e2]) == Step(Step(Step(w, e0), e1), e2)
  {
    RunNext(w, [], w, e0);
    assert [] + [e0] == [e0];
    RunNext(w, [e0], Step(w, e0), e1);
    RunNext(w, [e0] + [e1], Step(Step(w, e0), e1), e2);
  }

  /** From an empty table and the disk a power cut left: a merge, its confirmed purge and one more merge, and the
      first file's content is gone. */
  lemma {:induction false} CutLosesTheContent(c: Cut)
    requires c.Apart() && c.Ordered()
    ensures c.Start().rows == [] && c.Source() in c.Start().files && c.Start().files[c.Source()] == c.bytes
    ensures HeldByNone(Run(c.Start(), c.History()).files, c.bytes)
  {
    var m0, p0, m1 := c.MergeOf(c.first, c.s), c.PurgeOf(c.first), c.MergeOf(c.second, c.t);
    RunThree(c.Start(), MergeEvent(m0), PurgeEvent(p0), MergeEvent(m1));
    var w := Purge(Merge(c.Start(), m0), p0);
    CutRound(c, m0, p0, w);
    CutOverwrites(c, m1, w);
    NoneHoldsIt(c, Merge(w, m1).files);
    StartIs(c);
    CutPaths(c);
  }

  lemma {:induction false} LawfulNext(kept: set<Path>, w: World, es: seq<Event>, e: Event)
    requires LawfulHistory(kept, w, es) && (e.MergeEvent? ==> Lawful(kept, Run(w, es).files, e.m))
    ensures LawfulHistory(kept, w, es + [e])
  {
    assert (es + [e])[..|es|] == es;
  }

  lemma {:induction false} CutMergeIsLawful(c: Cut, run: RunId, src: Path, files: Files)
    requires c.Apart() && src in {c.s, c.t} && (forall p :: p in files && Under(src, p) ==> Leaf(p) == c.leaf)
    ensures Lawful({c.dest}, files, c.MergeOf(run, src))
  {
  }

  /** Every merge of it meets the hypotheses of the theorems: all that is missing is a disk without a leftover. */
  lemma {:induction false} CutIsLawful(c: Cut)
    requires c.Apart() && c.Ordered()
    ensures LawfulHistory({c.dest}, c.Start(), c.History()) && !NoStaging(c.Start().files)
  {
    var m0, p0, m1 := c.MergeOf(c.first, c.s), c.PurgeOf(c.first), c.MergeOf(c.second, c.t);
    var w := Purge(Merge(c.Start(), m0), p0);
    CutRound(c, m0, p0, w);
    StartIs(c);
    CutPaths(c);
    RunThree(c.Start(), MergeEvent(m0), PurgeEvent(p0), MergeEvent(m1));
    OnlyOwnBelow(c, c.Start().files);
    OnlyOwnBelow(c, w.files);
    CutMergeIsLawful(c, c.first, c.s, c.Start().files);
    CutMergeIsLawful(c, c.second, c.t, w.files);
    LawfulNext({c.dest}, c.Start(), [], MergeEvent(m0));
    assert [] + [MergeEvent(m0)] == [MergeEvent(m0)];
    LawfulNext({c.dest}, c.Start(), [MergeEvent(m0)], PurgeEvent(p0));
    LawfulNext({c.dest}, c.Start(), [MergeEvent(m0)] + [PurgeEvent(p0)], MergeEvent(m1));
  }

  /** Below a source there is only a file of the one name. */
  lemma {:induction false} OnlyOwnBelow(c: Cut, files: Files)
    requires c.Apart() && files.Keys <= {c.Source(), c.Later(), c.Leftover()}
    ensures forall p :: p in files && (Under(c.s, p) || Under(c.t, p)) ==> Leaf(p) == c.leaf
  {
    CutPaths(c);
    if Under(c.s, c.Leftover()) { UnderBoth(c.s, c.dest, c.Leftover()); }
    if Under(c.t, c.Leftover()) { UnderBoth(c.t, c.dest, c.Leftover()); }
  }

  lemma {:induction false} LawfulIsClear(kept: set<Path>, w: World, es: seq<Event>)
    requires LawfulHistory(kept, w, es)
    ensures ClearHistory(w, es)
  {
    if es != [] { LawfulIsClear(kept, w, es[..|es| - 1]); }
  }

  /** The purge is cautious: the leftover holds what it takes. */
  lemma {:induction false} CutPurgeIsCautious(m: MergeCall, p: PurgeCall, start: World, source: Path, least: Path)
    requires OneContent(m.config, m.walks, start.files, least) && Followed(start, m, p) && start.rows == []
    requires SourcesOf(Scan(start.files, m.walks, m.config.srcs)) == {source} && source != least
    requires source in start.files && start.files[source] == start.files[least]
    ensures Cautious(Merge(start, m), p)
  {
    CutPurge(m, p, start, source, least);
    var ks := OneContentMerge(start, m, p, least);
    StillHeld(start.files, source, least);
    PurgeLosesNothingIff(Merge(start, m), p);
  }

  lemma {:induction false} StillHeld(files: Files, source: Path, least: Path)
    requires source in files && least in files && source != least && files[source] == files[least]
    ensures NothingLost(files, files - {source})
  {
    var after := files - {source};
    forall p | p in files ensures exists q :: q in after && after[q] == files[p] {
      var q := if p == source then least else p;
      assert q in after && after[q] == files[p];
    }
  }

  lemma {:induction false} CutIsCautious(c: Cut)
    requires c.Apart() && c.Ordered()
    ensures CautiousHistory(c.Start(), c.History())
  {
    var m0, p0, m1 := c.MergeOf(c.first, c.s), c.PurgeOf(c.first), c.MergeOf(c.second, c.t);
    CutReady(c, c.Start(), m0, p0);
    StartIs(c);
    CutPurgeIsCautious(m0, p0, c.Start(), c.Source(), c.Leftover());
    RunThree(c.Start(), MergeEvent(m0), PurgeEvent(p0), MergeEvent(m1));
    CautiousNext(c.Start(), [], MergeEvent(m0));
    assert [] + [MergeEvent(m0)] == [MergeEvent(m0)];
    RunNext(c.Start(), [], c.Start(), MergeEvent(m0));
    CautiousNext(c.Start(), [MergeEvent(m0)], PurgeEvent(p0));
    CautiousNext(c.Start(), [MergeEvent(m0)] + [PurgeEvent(p0)], MergeEvent(m1));
  }

  lemma {:induction false} CautiousNext(w: World, es: seq<Event>, e: Event)
    requires CautiousHistory(w, es) && (e.PurgeEvent? ==> Cautious(Run(w, es), e.p))
    ensures CautiousHistory(w, es + [e])
  {
    assert (es + [e])[..|es|] == es;
  }

  /** So it is not gentle, although each of its purges is cautious: the loss is in the last merge. */
  lemma {:induction false} CutIsNotGentle(c: Cut)
    requires c.Apart() && c.Ordered()
    ensures ClearHistory(c.Start(), c.History()) && !GentleHistory(c.Start(), c.History())
    ensures CautiousHistory(c.Start(), c.History())
  {
    CutIsCautious(c);
    CutIsLawful(c);
    LawfulIsClear({c.dest}, c.Start(), c.History());
    CutLosesTheContent(c);
    GentleIffNothingLost(c.Start(), c.History());
    LostIsMissing(c.Start().files, Run(c.Start(), c.History()).files);
    assert c.bytes in c.Start().files.Values;
  }

  /** Files /s/p.jpg and /t/p.jpg, destination /d. */
  function SmallestCut(leaf: Component, bytes: Bytes, other: Bytes, naming: Naming): Cut {
    Cut(["s"], ["t"], ["d"], "Photos", leaf, bytes, other, naming, "photo", "r0", "r1")
  }

  /** The smallest case, for any two contents. */
  lemma {:induction false} SmallestCutLoses(leaf: Component, bytes: Bytes, other: Bytes, naming: Naming)
    requires bytes != other && !IsStaging(naming.sanitise(leaf))
    ensures var c := SmallestCut(leaf, bytes, other, naming);
      && c.Start().rows == [] && c.Source() in c.Start().files && c.Start().files[c.Source()] == bytes
      && LawfulHistory({c.dest}, c.Start(), c.History())
      && HeldByNone(Run(c.Start(), c.History()).files, bytes)
  {
    var c := SmallestCut(leaf, bytes, other, naming);
    SmallestCutFits(c, leaf, bytes, other, naming);
    CutLosesTheContent(c);
    CutIsLawful(c);
  }

  lemma {:induction false} SmallestCutFits(c: Cut, leaf: Component, bytes: Bytes, other: Bytes, naming: Naming)
    requires bytes != other && !IsStaging(naming.sanitise(leaf)) && c == SmallestCut(leaf, bytes, other, naming)
    ensures c.Apart() && c.Ordered()
  {
    assert c.Leftover()[0] == "d" && c.Source()[0] == "s";
    BeforeByRoot(c.Leftover(), c.Source());
  }

  lemma {:induction false} SmallestCutIsAccepted(leaf: Component, bytes: Bytes, other: Bytes, naming: Naming)
    ensures var c := SmallestCut(leaf, bytes, other, naming);
      && Gate.Acceptable(c.dest, [c.s], {["s"], ["t"], ["d"]}, true, false)
      && Gate.Acceptable(c.dest, [c.t], {["s"], ["t"], ["d"]}, true, false)
  {
  }
}
