/** A merge and its purge among files of one content: what is staged, what is proven, what goes. */
module Twins {
  import opened Basics
  import opened Paths
  import opened Fsx
  import opened Ledger
  import opened Planning
  import opened PlanProofs
  import opened Worlds
  import opened Histories
  import opened PurgeProofs
  import opened Reclaims
  import opened Observations
  import R = Replays

  /** Every file the run looks at holds one content, `least` sorts first, and if that is a source then another
      one is on the destination or in the library. */
  ghost predicate OneContent(c: Config, walks: Walks, files: Files, least: Path) {
    && least in Indexed(files, c, walks) && least in files
    && (forall q :: q in Indexed(files, c, walks) ==> q in files && files[q] == files[least] && Before(least, q))
    && (least in PathsOf(Scan(files, walks, c.srcs)) ==> exists q :: q in ScopeOf(files, c, walks) && q != least)
  }

  lemma {:induction false} SameLeast(p: Path, q: Path)
    requires Before(p, q) && Before(q, p)
    ensures p == q
  {
    BeforeIsOrder();
  }

  lemma {:induction false} OneContentGroup(c: Config, walks: Walks, files: Files, least: Path, path: Path)
    requires OneContent(c, walks, files, least) && path in Indexed(files, c, walks)
    ensures var group := GroupFor(files, Indexed(files, c, walks), path);
      group[0] == least && forall q :: q in group <==> q in Indexed(files, c, walks)
  {
    GroupMembers(files, Indexed(files, c, walks), path);
    var group := GroupFor(files, Indexed(files, c, walks), path);
    assert group[0] in group && least in group;
    SameLeast(group[0], least);
  }

  /** Each source has the least file as its survivor, and none needs a copy. */
  lemma {:induction false} OneContentSeen(c: Config, walks: Walks, files: Files, least: Path, s: Seen)
    requires OneContent(c, walks, files, least) && IsSeen(c, walks, files, s)
    ensures s.survivor == least && (s.scopes != {} || s.survivor != s.found.path)
  {
    PathsIn(Scan(files, walks, c.srcs), s.found);
    ScopeFacts(files, c, walks);
    OneContentGroup(c, walks, files, least, s.found.path);
    if s.found.path == least {
      var q :| q in ScopeOf(files, c, walks) && q != least;
      assert ScopeOf(files, c, walks)[q] in s.scopes;
    }
  }

  lemma {:induction false} OneContentPlan(c: Config, walks: Walks, files: Files, least: Path)
    requires OneContent(c, walks, files, least)
    ensures MergePlan(c, walks, files).Some? && CopyFree(MergePlan(c, walks, files).value)
  {
    PlanIsPlanRows(c, walks, files);
    var seen := InPathOrder(SeenRows(c, walks, files));
    forall s | s in seen ensures s.scopes != {} || s.survivor != s.found.path {
      OneContentSeen(c, walks, files, least, s);
    }
    R.HeldRowsPlan(c, files, seen);
  }

  lemma {:induction false} OneContentRow(c: Config, walks: Walks, files: Files, least: Path, row: PlanRow)
    requires OneContent(c, walks, files, least)
    requires MergePlan(c, walks, files).Some? && row in MergePlan(c, walks, files).value
    ensures row.seen.survivor == least && row.seen.found in Scan(files, walks, c.srcs)
  {
    var before := RowIsDecided(c, walks, files, row);
    OneContentSeen(c, walks, files, least, row.seen);
  }

  /** One staged candidate for each scanned file, all with this survivor. */
  ghost predicate StagesAll(found: seq<Found>, least: Path, ks: seq<Candidate>) {
    && |ks| == |found|
    && (forall k :: k in ks ==> k.survivor == least && k.path in SourcesOf(found))
    && (forall q :: q in SourcesOf(found) ==> exists k :: k in ks && k.path == q)
  }

  lemma {:induction false} StageIsAll(c: Config, walks: Walks, files: Files, least: Path, plan: seq<PlanRow>)
    requires OneContent(c, walks, files, least) && MergePlan(c, walks, files) == Some(plan)
    ensures StagesAll(Scan(files, walks, c.srcs), least, Candidates(Placed(plan), plan))
  {
    var found, ks := Scan(files, walks, c.srcs), Candidates(Placed(plan), plan);
    OneContentPlan(c, walks, files, least);
    AllAreCandidates(Placed(plan), plan);
    PlanCounts(c, walks, files);
    CandidatesOfRows(Placed(plan), plan);
    forall k | k in ks ensures k.survivor == least && k.path in SourcesOf(found) {
      var row :| row in plan && !row.action.CopyTo? && k == CandidateOf(Placed(plan), row);
      OneContentRow(c, walks, files, least, row);
    }
    forall q | q in SourcesOf(found) ensures exists k :: k in ks && k.path == q {
      var f :| f in found && f.path == q;
      RowForFound(c, walks, files, f);
      var row :| row in plan && row.seen.found == f;
      assert CandidateOf(Placed(plan), row) in ks;
    }
  }

  /** The call is applied, reaches everything it scans, and is followed by a full purge of its run, be that a new
      one or a resumed one. */
  ghost predicate Followed(w: World, m: MergeCall, p: PurgeCall) {
    var found := Scan(w.files, m.walks, m.config.srcs);
    && m.config.apply && m.enoughSpace && m.copies >= |found| && m.proofs >= |found|
    && p.run == m.config.run && p.confirmed && p.removals >= |found|
    && (p.run in w.runs ==> w.runs[p.run] == p.medium) && (p.run !in w.runs ==> p.medium == m.config.medium)
  }

  lemma {:induction false} OneContentMerge(w: World, m: MergeCall, p: PurgeCall, least: Path)
    returns (ks: seq<Candidate>)
    requires OneContent(m.config, m.walks, w.files, least) && Followed(w, m, p)
    ensures StagesAll(Scan(w.files, m.walks, m.config.srcs), least, ks)
    ensures Merge(w, m).files == w.files && Runs(Merge(w, m), p)
    ensures Settled(p.run, w.files, w.rows, [], ks, Merge(w, m).rows)
    ensures Merge(w, m).stages[p.run] == HashCandidates(w.files, ks)
    ensures Merge(w, m).runs == w.runs[p.run := p.medium]
  {
    OneContentPlan(m.config, m.walks, w.files, least);
    var plan := MergePlan(m.config, m.walks, w.files).value;
    PlanCounts(m.config, m.walks, w.files);
    ks := Candidates(Placed(plan), plan);
    StageIsAll(m.config, m.walks, w.files, least, plan);
    CopyFreeWorld(w, m, plan, ks);
    CopyFreeMerge(w, m, plan);
  }

  /** The least file goes too exactly when an earlier run left a proof at another path. */
  ghost function Trapped(before: Rows, sources: set<Path>, least: Path, sha: Digest): set<Path> {
    set q | q in sources && (q != least || SurvivesElsewhere(before, sha, least))
  }

  lemma {:induction false} ProvenAreTrapped(run: RunId, files: Files, before: Rows, ks: seq<Candidate>, rows: Rows,
                                            found: seq<Found>, least: Path)
    requires Settled(run, files, before, [], ks, rows) && StagesAll(found, least, ks) && least in files
    requires forall q :: q in SourcesOf(found) ==> q in files && files[q] == files[least]
    ensures ProvenElsewhere(files, rows, ks) == Trapped(before, SourcesOf(found), least, Sha256(files[least]))
  {
    forall q ensures q in ProvenElsewhere(files, rows, ks) <==>
                     q in Trapped(before, SourcesOf(found), least, Sha256(files[least]))
    {
      if q in SourcesOf(found) { CandidateIsTrapped(run, files, before, ks, rows, found, least, q); }
    }
  }

  lemma {:induction false} CandidateIsTrapped(run: RunId, files: Files, before: Rows, ks: seq<Candidate>, rows: Rows,
                                              found: seq<Found>, least: Path, q: Path)
    requires Settled(run, files, before, [], ks, rows) && StagesAll(found, least, ks) && least in files
    requires q in SourcesOf(found) && q in files && files[q] == files[least]
    ensures exists k :: k in ks && k.path == q
    ensures SurvivesElsewhere(rows, Sha256(files[q]), q) <==>
      q != least || SurvivesElsewhere(before, Sha256(files[q]), q)
  {
    var k :| k in ks && k.path == q;
    if q != least {
      ElsewhereSurvives(run, files, before, [], ks, rows, k, q);
    } else if SurvivesElsewhere(before, Sha256(files[q]), q) {
      OldProofSurvives(run, files, before, [], ks, rows, Sha256(files[q]), q);
    } else if SurvivesElsewhere(rows, Sha256(files[q]), q) {
      ElsewhereIsProved(run, files, before, [], ks, rows, q);
    }
  }

  /** Such a merge and its purge: every source but the least goes, and the least too if it was proven before. */
  lemma {:induction false} OneContentPurge(w: World, m: MergeCall, p: PurgeCall, least: Path)
    requires OneContent(m.config, m.walks, w.files, least) && Followed(w, m, p)
    ensures var sources := SourcesOf(Scan(w.files, m.walks, m.config.srcs));
      Purge(Merge(w, m), p).files == w.files - Trapped(w.rows, sources, least, Sha256(w.files[least]))
    ensures Purge(Merge(w, m), p).runs == w.runs[p.run := p.medium]
  {
    var ks := OneContentMerge(w, m, p, least);
    var w' := Merge(w, m);
    SettledPurge(w', p, w.rows, [], ks);
    PurgeHasEffect(w', p);
    var found := Scan(w.files, m.walks, m.config.srcs);
    forall q | q in SourcesOf(found) ensures q in w.files && w.files[q] == w.files[least] {
      var f :| f in found && f.path == q;
      PathsIn(found, f);
    }
    ProvenAreTrapped(p.run, w.files, w.rows, ks, w'.rows, found, least);
  }

  /** Once purged, the table still proves the least file's path to every other. */
  lemma {:induction false} LeastStaysProven(w: World, m: MergeCall, p: PurgeCall, least: Path, q: Path)
    requires OneContent(m.config, m.walks, w.files, least) && Followed(w, m, p)
    requires Scan(w.files, m.walks, m.config.srcs) != [] && q != least
    ensures SurvivesElsewhere(Purge(Merge(w, m), p).rows, Sha256(w.files[least]), q)
  {
    var ks := OneContentMerge(w, m, p, least);
    var w' := Merge(w, m);
    var k := ks[0];
    assert k in ks;
    var proof := ProofRows(p.run, w.files, k)[0];
    var i := CandidateRow(p.run, w.files, w.rows, [], ks, w'.rows, k, proof);
    PurgeHasEffect(w', p);
    assert Purge(w', p).rows[i] == w'.rows[i];
    assert IsProof(w'.rows[i], Sha256(w.files[least]));
  }

  /** A least source that nothing proved before is requested as its own proof: the table calls its delete unclaimed. */
  lemma {:induction false} SelfProofIsUnclaimed(run: RunId, files: Files, before: Rows, ks: seq<Candidate>, rows: Rows,
                                                found: seq<Found>, least: Path)
    requires Settled(run, files, before, [], ks, rows) && StagesAll(found, least, ks) && least in files
    requires least in SourcesOf(found) && !SurvivesElsewhere(before, Sha256(files[least]), least)
    ensures PendingDelete(rows, run, least).Some? && Unclaimed(rows, run, PendingDelete(rows, run, least).value)
  {
    CandidateIsTrapped(run, files, before, ks, rows, found, least, least);
    var k :| k in ks && k.path == least;
    PendingNamesBytes(run, files, before, [], ks, rows, k);
  }

  // ---- listings of one file a root ----

  lemma {:induction false} OneListed(files: Files, root: Path, p: Path)
    requires p in files && root < p
    ensures FoundUnder(files, root, [p]) == [Found(p, |files[p]|, p[|root|..])]
  {
    var listed := [p];
    assert listed[..0] == [] && FoundUnder(files, root, listed[..0]) == [];
  }

  lemma {:induction false} ScanOne(files: Files, walks: Walks, root: Path, p: Path)
    requires root in walks && walks[root] == [p] && p in files && root < p
    ensures Scan(files, walks, [root]) == [Found(p, |files[p]|, p[|root|..])]
  {
    OneListed(files, root, p);
    ScanAppend(files, walks, [], root);
    assert [] + [root] == [root];
  }

  lemma {:induction false} ScanTwo(files: Files, walks: Walks, root: Path, p: Path, root2: Path, p2: Path)
    requires root in walks && walks[root] == [p] && p in files && root < p
    requires root2 in walks && walks[root2] == [p2] && p2 in files && root2 < p2
    ensures Scan(files, walks, [root, root2]) == [Found(p, |files[p]|, p[|root|..]),
      Found(p2, |files[p2]|, p2[|root2|..])]
  {
    ScanOne(files, walks, root, p);
    OneListed(files, root2, p2);
    ScanAppend(files, walks, [root], root2);
    assert [root] + [root2] == [root, root2];
  }

  lemma {:induction false} SourcesArePaths(found: seq<Found>)
    ensures forall q :: q in PathsOf(found) <==> q in SourcesOf(found)
  {
    forall f | f in found ensures f.path in PathsOf(found) { PathsIn(found, f); }
    forall q | q in PathsOf(found) ensures q in SourcesOf(found) {
      var i :| 0 <= i < |found| && PathsOf(found)[i] == q;
      assert found[i] in found;
    }
  }

  ghost predicate IsLeast(p: Path, s: set<Path>) { forall q :: q in s ==> Before(p, q) }

  lemma {:induction false} LeastOf(p: Path, q: Path)
    requires Before(p, q)
    ensures IsLeast(p, {p, q})
  {
    BeforeIsOrder();
  }

  lemma {:induction false} LeastOfEither(p: Path, q: Path)
    ensures IsLeast(if Before(p, q) then p else q, {p, q})
  {
    BeforeIsOrder();
    if Before(p, q) { LeastOf(p, q); } else { LeastOf(q, p); }
  }

  /** Every file on disk is looked at and holds one content; another file than `least`, if that is a source, is on
      the destination or in the library. */
  ghost predicate Together(c: Config, walks: Walks, files: Files, least: Path) {
    && (forall q :: q in Indexed(files, c, walks) <==> q in files)
    && least in files && (forall q :: q in files ==> files[q] == files[least])
    && (least in PathsOf(Scan(files, walks, c.srcs)) ==> exists q :: q in ScopeOf(files, c, walks) && q != least)
  }

  lemma {:induction false} AllOneContent(c: Config, walks: Walks, files: Files, least: Path)
    requires Together(c, walks, files, least) && IsLeast(least, files.Keys)
    ensures OneContent(c, walks, files, least)
  {
  }

  lemma {:induction false} IndexedIs(c: Config, walks: Walks, files: Files, sources: set<Path>, listed: set<Path>)
    requires forall q :: q in PathsOf(Scan(files, walks, c.srcs)) <==> q in sources
    requires forall q :: q in DestFiles(files, c, walks) || q in LibraryFiles(files, c, walks) <==> q in listed
    ensures forall q :: q in Indexed(files, c, walks) <==> q in sources + listed
  {
  }
}
