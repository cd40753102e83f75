/** A history, from an empty table, in which every check passes and the last copy of a content goes. */
module Traps {
  import opened Basics
  import opened Paths
  import opened Names
  import opened Fsx
  import opened Ledger
  import opened Planning
  import opened PlanProofs
  import opened Worlds
  import opened Histories
  import opened PurgeProofs
  import opened Losses
  import opened Twins
  import Gate

  /** A library and two more roots, one file each, all of one content; paths sort in the order a, b, c. */
  datatype Setting = Setting(ra: Path, rb: Path, rc: Path, dest: Path, a: Path, b: Path, c: Path,
                             bytes: Bytes, naming: Naming, subtree: Component, medium: string,
                             first: RunId, second: RunId)
  {
    ghost predicate Apart() {
      && ra < a && rb < b && rc < c && a != b && b != c && a != c && ra != rb && rb != rc && ra != rc
      && dest != rb && dest + [subtree] !in {ra, rb, rc} && first != second
    }

    ghost predicate Ordered() { Before(a, b) && Before(b, c) }

    ghost predicate Clean() {
      NoStaging(Start().files) && forall n :: !IsStaging(n) ==> !IsStaging(naming.sanitise(n))
    }

    function Walks(): Walks { map[ra := [a], rc := [c], rb := [b]] }

    function Holding(paths: set<Path>): Files { map p | p in paths :: bytes }

    function Start(): World { World(Holding({a, b, c}), [], map[], map[]) }

    /** One merge of these sources beside the library, and the purge of its run. */
    function MergeOf(run: RunId, srcs: seq<Path>): MergeCall {
      MergeCall(Config(run, medium, srcs, dest, Some(rb), subtree, naming, true), Walks(), map[], true, 2, 2, false)
    }

    function PurgeOf(run: RunId): PurgeCall { PurgeCall(run, medium, true, 2, false) }

    /** First the third root, then the second root and the library itself. */
    function Trap(): seq<Event> {
      [MergeEvent(MergeOf(first, [rc]))] + [PurgeEvent(PurgeOf(first))] +
      [MergeEvent(MergeOf(second, [ra, rb]))] + [PurgeEvent(PurgeOf(second))]
    }
  }

  /** The library lists its file and the destination nothing. */
  lemma {:induction false} TrapListings(t: Setting, files: Files, run: RunId, srcs: seq<Path>)
    requires t.Apart() && t.b in files
    ensures var c := t.MergeOf(run, srcs).config;
      && DestFiles(files, c, t.Walks()) == [] && LibraryFiles(files, c, t.Walks()) == [t.b]
      && ScopeOf(files, c, t.Walks()).Keys == {t.b}
  {
    OneListed(files, t.rb, t.b);
    assert PathsOf([Found(t.b, |files[t.b]|, t.b[|t.rb|..])]) == [t.b];
  }

  /** What one of the two merges looks at. */
  lemma {:induction false} TrapSees(t: Setting, files: Files, run: RunId, srcs: seq<Path>, sources: set<Path>,
                                    least: Path)
    requires t.Apart() && files.Keys <= {t.a, t.b, t.c} && (forall q :: q in files ==> files[q] == t.bytes)
    requires t.b in files && least in sources + {t.b} && sources <= files.Keys
    requires SourcesOf(Scan(files, t.Walks(), srcs)) == sources
    requires IsLeast(least, sources + {t.b}) && (least in sources ==> least != t.b)
    ensures OneContent(t.MergeOf(run, srcs).config, t.Walks(), files, least)
  {
    var c := t.MergeOf(run, srcs).config;
    TrapListings(t, files, run, srcs);
    SourcesArePaths(Scan(files, t.Walks(), srcs));
    assert forall q :: q in Indexed(files, c, t.Walks()) <==> q in sources + {t.b};
    assert t.b in ScopeOf(files, c, t.Walks()).Keys;
  }

  lemma {:induction false} FirstSources(t: Setting, files: Files)
    requires t.Apart() && t.c in files
    ensures SourcesOf(Scan(files, t.Walks(), [t.rc])) == {t.c} && |Scan(files, t.Walks(), [t.rc])| == 1
  {
    ScanOne(files, t.Walks(), t.rc, t.c);
  }

  lemma {:induction false} SecondSources(t: Setting, files: Files)
    requires t.Apart() && t.a in files && t.b in files
    ensures SourcesOf(Scan(files, t.Walks(), [t.ra, t.rb])) == {t.a, t.b} && |Scan(files, t.Walks(), [t.ra, t.rb])| == 2
  {
    ScanTwo(files, t.Walks(), t.ra, t.a, t.rb, t.b);
  }

  /** The first merge sees the third root's file and the library's, which sorts first. */
  lemma {:induction false} FirstSees(t: Setting, files: Files)
    requires t.Apart() && t.Ordered() && files.Keys == {t.a, t.b, t.c} && forall q :: q in files ==> files[q] == t.bytes
    ensures OneContent(t.MergeOf(t.first, [t.rc]).config, t.Walks(), files, t.b)
  {
    FirstSources(t, files);
    LeastOf(t.b, t.c);
    assert {t.c} + {t.b} == {t.b, t.c};
    TrapSees(t, files, t.first, [t.rc], {t.c}, t.b);
  }

  /** The second sees the other root's file and, as source and as library, the library's. */
  lemma {:induction false} SecondSees(t: Setting, files: Files)
    requires t.Apart() && t.Ordered() && files.Keys == {t.a, t.b} && forall q :: q in files ==> files[q] == t.bytes
    ensures OneContent(t.MergeOf(t.second, [t.ra, t.rb]).config, t.Walks(), files, t.a)
  {
    SecondSources(t, files);
    LeastOf(t.a, t.b);
    assert {t.a, t.b} + {t.b} == {t.a, t.b};
    TrapSees(t, files, t.second, [t.ra, t.rb], {t.a, t.b}, t.a);
  }

  /** One merge and its purge, told what to expect. */
  lemma {:induction false} Round(w: World, m: MergeCall, p: PurgeCall, least: Path, sources: set<Path>, left: Files)
    requires OneContent(m.config, m.walks, w.files, least) && Followed(w, m, p)
    requires SourcesOf(Scan(w.files, m.walks, m.config.srcs)) == sources
    requires left == w.files - Trapped(w.rows, sources, least, Sha256(w.files[least]))
    ensures Purge(Merge(w, m), p).files == left && Purge(Merge(w, m), p).runs == w.runs[p.run := p.medium]
  {
    OneContentPurge(w, m, p, least);
  }

  lemma {:induction false} FirstLeft(t: Setting)
    requires t.Apart()
    ensures t.Start().files - Trapped([], {t.c}, t.b, Sha256(t.bytes)) == t.Holding({t.a, t.b})
  {
    assert Trapped([], {t.c}, t.b, Sha256(t.bytes)) == {t.c};
    assert {t.a, t.b, t.c} - {t.c} == {t.a, t.b};
  }

  lemma {:induction false} SecondLeft(t: Setting, files: Files, rows: Rows)
    requires files == t.Holding({t.a, t.b}) && SurvivesElsewhere(rows, Sha256(t.bytes), t.a)
    ensures map[] == files - Trapped(rows, {t.a, t.b}, t.a, Sha256(t.bytes))
  {
    assert Trapped(rows, {t.a, t.b}, t.a, Sha256(t.bytes)) == {t.a, t.b};
  }

  lemma {:induction false} FirstReady(t: Setting, start: World, m: MergeCall, p: PurgeCall)
    requires t.Apart() && t.Ordered() && m == t.MergeOf(t.first, [t.rc]) && p == t.PurgeOf(t.first) &&
      start == t.Start()
    ensures OneContent(m.config, m.walks, start.files, t.b) && Followed(start, m, p)
    ensures SourcesOf(Scan(start.files, m.walks, m.config.srcs)) == {t.c}
    ensures Scan(start.files, m.walks, m.config.srcs) != []
  {
    FirstSees(t, start.files);
    FirstSources(t, start.files);
  }

  /** The first purge takes the third root's file and leaves a proof that names the library's. */
  lemma {:induction false} FirstPurge(t: Setting, start: World, m: MergeCall, p: PurgeCall, w: World)
    requires t.Apart() && t.Ordered() && m == t.MergeOf(t.first, [t.rc]) && p == t.PurgeOf(t.first) &&
      start == t.Start()
    requires w == Purge(Merge(start, m), p)
    ensures w.files == t.Holding({t.a, t.b}) && w.runs == map[t.first := t.medium]
    ensures SurvivesElsewhere(w.rows, Sha256(t.bytes), t.a)
    ensures Merge(start, m).files == start.files
  {
    FirstReady(t, start, m, p);
    FirstLeft(t);
    FirstRound(t, start, m, p, w);
  }

  lemma {:induction false} FirstRound(t: Setting, start: World, m: MergeCall, p: PurgeCall, w: World)
    requires w == Purge(Merge(start, m), p) && t.a != t.b && t.b in start.files && start.files[t.b] == t.bytes
    requires start.rows == [] && start.runs == map[] && p.run == t.first && p.medium == t.medium
    requires OneContent(m.config, m.walks, start.files, t.b) && Followed(start, m, p)
    requires SourcesOf(Scan(start.files, m.walks, m.config.srcs)) == {t.c}
    requires Scan(start.files, m.walks, m.config.srcs) != []
    requires start.files - Trapped([], {t.c}, t.b, Sha256(t.bytes)) == t.Holding({t.a, t.b})
    ensures w.files == t.Holding({t.a, t.b}) && w.runs == map[t.first := t.medium]
    ensures SurvivesElsewhere(w.rows, Sha256(t.bytes), t.a)
    ensures Merge(start, m).files == start.files
  {
    Round(start, m, p, t.b, {t.c}, t.Holding({t.a, t.b}));
    LeastStaysProven(start, m, p, t.b, t.a);
    var ks := OneContentMerge(start, m, p, t.b);
  }

  lemma {:induction false} SecondReady(t: Setting, m: MergeCall, p: PurgeCall, w: World)
    requires t.Apart() && t.Ordered() && m == t.MergeOf(t.second, [t.ra, t.rb]) && p == t.PurgeOf(t.second)
    requires w.files == t.Holding({t.a, t.b}) && w.runs == map[t.first := t.medium]
    ensures OneContent(m.config, m.walks, w.files, t.a) && Followed(w, m, p)
    ensures SourcesOf(Scan(w.files, m.walks, m.config.srcs)) == {t.a, t.b}
  {
    SecondSees(t, w.files);
    SecondSources(t, w.files);
  }

  /** The second purge takes both files that are left. */
  lemma {:induction false} SecondPurge(t: Setting, m: MergeCall, p: PurgeCall, w: World)
    requires t.Apart() && t.Ordered() && m == t.MergeOf(t.second, [t.ra, t.rb]) && p == t.PurgeOf(t.second)
    requires w.files == t.Holding({t.a, t.b}) && w.runs == map[t.first := t.medium]
    requires SurvivesElsewhere(w.rows, Sha256(t.bytes), t.a)
    ensures Purge(Merge(w, m), p).files == map[]
  {
    SecondReady(t, m, p, w);
    SecondLeft(t, w.files, w.rows);
    Round(w, m, p, t.a, {t.a, t.b}, map[]);
  }

  lemma {:induction false} RunNext(w: World, es: seq<Event>, v: World, e: Event)
    requires Run(w, es) == v
    ensures Run(w, es + [e]) == Step(v, e)
  {
    assert (es + [e])[..|es|] == es;
  }

  lemma {:induction false} RunFour(w: World, e0: Event, e1: Event, e2: Event, e3: Event)
    ensures Run(w, []) == w
    ensures Run(w, [e0] + [e1]) == Step(Step(w, e0), e1)
    ensures Run(w, [e0] + [e1] + [e2] + [e3]) == Step(Step(Step(Step(w, e0), e1), e2), e3)
  {
    var w1 := Step(w, e0);
    RunNext(w, [], w, e0);
    assert [] + [e0] == [e0];
    RunNext(w, [e0], w1, e1);
    RunNext(w, [e0] + [e1], Step(w1, e1), e2);
    RunNext(w, [e0] + [e1] + [e2], Step(Step(w1, e1), e2), e3);
  }

  /** From an empty table, two accepted merges, each followed by its confirmed purge, lose the content: the
      second run has the library among its sources, and every check of its purge passes. */
  lemma {:induction false} TrapLosesTheLastCopy(t: Setting)
    requires t.Apart() && t.Ordered()
    ensures t.Start().rows == [] && t.a in t.Start().files
    ensures Run(t.Start(), t.Trap()).files == map[]
  {
    var m0, p0 := t.MergeOf(t.first, [t.rc]), t.PurgeOf(t.first);
    var m1, p1 := t.MergeOf(t.second, [t.ra, t.rb]), t.PurgeOf(t.second);
    RunFour(t.Start(), MergeEvent(m0), PurgeEvent(p0), MergeEvent(m1), PurgeEvent(p1));
    var w := Purge(Merge(t.Start(), m0), p0);
    FirstPurge(t, t.Start(), m0, p0, w);
    SecondPurge(t, m1, p1, w);
  }

  lemma {:induction false} TidyMerge(t: Setting, run: RunId, srcs: seq<Path>, files: Files)
    requires t.Clean() && files.Keys <= t.Start().files.Keys
    ensures Tidy(files, t.MergeOf(run, srcs))
  {
  }

  lemma {:induction false} TidyNext(w: World, es: seq<Event>, e: Event)
    requires TidyHistory(w, es) && (e.MergeEvent? ==> Tidy(Run(w, es).files, e.m))
    ensures TidyHistory(w, es + [e])
  {
    assert (es + [e])[..|es|] == es;
  }

  lemma {:induction false} TidyFour(w: World, e0: Event, e1: Event, e2: Event, e3: Event)
    requires e0.MergeEvent? && e2.MergeEvent? && !e1.MergeEvent? && !e3.MergeEvent?
    requires Tidy(Run(w, []).files, e0.m) && Tidy(Run(w, [e0] + [e1]).files, e2.m)
    ensures TidyHistory(w, [e0] + [e1] + [e2] + [e3])
  {
    TidyNext(w, [], e0);
    assert [] + [e0] == [e0];
    TidyNext(w, [e0], e1);
    TidyNext(w, [e0] + [e1], e2);
    TidyNext(w, [e0] + [e1] + [e2], e3);
  }

  /** It meets every hypothesis of the theorems but the one on the roots, so a purge of it is not cautious. */
  lemma {:induction false} TrapIsTidy(t: Setting)
    requires t.Apart() && t.Ordered() && t.Clean()
    ensures NoStaging(t.Start().files) && TidyHistory(t.Start(), t.Trap()) && !CautiousHistory(t.Start(), t.Trap())
  {
    var m0, p0 := t.MergeOf(t.first, [t.rc]), t.PurgeOf(t.first);
    var m1, p1 := t.MergeOf(t.second, [t.ra, t.rb]), t.PurgeOf(t.second);
    var w := Purge(Merge(t.Start(), m0), p0);
    FirstPurge(t, t.Start(), m0, p0, w);
    TidyMerge(t, t.first, [t.rc], t.Start().files);
    TidyMerge(t, t.second, [t.ra, t.rb], w.files);
    RunFour(t.Start(), MergeEvent(m0), PurgeEvent(p0), MergeEvent(m1), PurgeEvent(p1));
    TidyFour(t.Start(), MergeEvent(m0), PurgeEvent(p0), MergeEvent(m1), PurgeEvent(p1));
    TrapLosesTheLastCopy(t);
    HistoryLosesNothingIff(t.Start(), t.Trap());
  }

  /** Files /a/x, /b/a and /c/z, library /b, destination /d. */
  function Smallest(bytes: Bytes, naming: Naming): Setting {
    Setting(["a"], ["b"], ["c"], ["d"], ["a", "x"], ["b", "a"], ["c", "z"], bytes, naming, "Photos", "photo", "r0",
            "r1")
  }

  lemma {:induction false} BeforeByRoot(p: Path, q: Path)
    requires p != [] && q != [] && p[0][0] < q[0][0]
    ensures Before(p, q)
  {
    TextHead(p);
    TextHead(q);
    assert Text(p)[0] == p[0][0] && Text(q)[0] == q[0][0];
  }

  lemma {:induction false} SmallestIsOrdered(bytes: Bytes, naming: Naming)
    ensures Smallest(bytes, naming).Ordered()
  {
    var t := Smallest(bytes, naming);
    BeforeByRoot(t.a, t.b);
    BeforeByRoot(t.b, t.c);
  }

  lemma {:induction false} SmallestIsClean(bytes: Bytes, naming: Naming)
    requires forall n :: !IsStaging(n) ==> !IsStaging(naming.sanitise(n))
    ensures Smallest(bytes, naming).Clean()
  {
  }

  lemma {:induction false} SmallestIsAccepted(bytes: Bytes, naming: Naming)
    ensures var t := Smallest(bytes, naming);
      && Gate.Acceptable(t.dest, [t.rc], {["a"], ["b"], ["c"], ["d"]}, true, false)
      && Gate.Acceptable(t.dest, [t.ra, t.rb], {["a"], ["b"], ["c"], ["d"]}, true, false)
  {
  }

  /** The smallest trap: the path gate accepts both runs, and nothing is left of the three files. */
  lemma {:induction false} SmallestTrap(bytes: Bytes, naming: Naming)
    requires forall n :: !IsStaging(n) ==> !IsStaging(naming.sanitise(n))
    ensures var t := Smallest(bytes, naming);
      && NoStaging(t.Start().files) && TidyHistory(t.Start(), t.Trap()) && !CautiousHistory(t.Start(), t.Trap())
      && Run(t.Start(), t.Trap()).files == map[]
  {
    SmallestIsOrdered(bytes, naming);
    SmallestIsClean(bytes, naming);
    SmallestIsApart(bytes, naming);
    TrapIsTidy(Smallest(bytes, naming));
    TrapLosesTheLastCopy(Smallest(bytes, naming));
  }

  lemma {:induction false} SmallestIsApart(bytes: Bytes, naming: Naming)
    ensures Smallest(bytes, naming).Apart()
  {
    var t := Smallest(bytes, naming);
    assert |t.dest + [t.subtree]| == 2;
  }
}
