/** What a purge reclaims after a merge that went through: the other half of the safety promise. */
module Reclaims {
  import opened Basics
  import opened Paths
  import opened Fsx
  import opened Ledger
  import opened Planning
  import opened PlanProofs
  import opened Worlds
  import opened Histories
  import opened PurgeProofs
  import R = Replays

  // ---- the survivor of a row ----

  /** The survivor is the least path of all that hold the row's bytes: sources, destination and library. */
  lemma {:induction false} SurvivorIsLeast(c: Config, walks: Walks, files: Files, row: PlanRow)
    requires SourcesApart(c) && MergePlan(c, walks, files).Some? && row in MergePlan(c, walks, files).value
    ensures row.Path() in files && row.seen.survivor in files && files[row.seen.survivor] == files[row.Path()]
    ensures row.Path() in Indexed(files, c, walks) && row.seen.survivor in Indexed(files, c, walks)
    ensures forall q :: q in Indexed(files, c, walks) && q in files && files[q] == files[row.Path()] ==>
      Before(row.seen.survivor, q)
  {
    PlanIsPlanRows(c, walks, files);
    var seen := InPathOrder(SeenRows(c, walks, files));
    var rows := MergePlan(c, walks, files).value;
    var i :| 0 <= i < |rows| && rows[i] == row;
    assert seen[i] in seen;
    SourceFacts(c, walks, files, row.seen.found);
    ScopeFacts(files, c, walks);
    SeeMeans(files, Indexed(files, c, walks), ScopeOf(files, c, walks), SourcesOf(Scan(files, walks, c.srcs)),
             row.seen.found);
  }

  /** Rows of one content have one survivor. */
  lemma {:induction false} SameSurvivor(c: Config, walks: Walks, files: Files, row: PlanRow, other: PlanRow)
    requires SourcesApart(c) && MergePlan(c, walks, files).Some?
    requires row in MergePlan(c, walks, files).value && other in MergePlan(c, walks, files).value
    requires row.Path() in files && other.Path() in files && files[row.Path()] == files[other.Path()]
    ensures row.seen.survivor == other.seen.survivor
  {
    SurvivorIsLeast(c, walks, files, row);
    SurvivorIsLeast(c, walks, files, other);
    BeforeIsOrder();
  }

  /** Every planned row is a decision about a row of the overlap. */
  lemma {:induction false} RowIsDecided(c: Config, walks: Walks, files: Files, row: PlanRow)
    returns (before: seq<PlanRow>)
    requires MergePlan(c, walks, files).Some? && row in MergePlan(c, walks, files).value
    ensures IsSeen(c, walks, files, row.seen) && row.seen.found.rel != [] && row.seen.found.path != []
    ensures Decide(c, files, before, row.seen) == Some(row)
  {
    PlanIsPlanRows(c, walks, files);
    var seen := InPathOrder(SeenRows(c, walks, files));
    var rows := MergePlan(c, walks, files).value;
    var i :| 0 <= i < |rows| && rows[i] == row;
    assert seen[i] in seen;
    PlanRowsAt(c, files, seen, i);
    before := rows[..i];
  }

  lemma {:induction false} DecidedPeer(c: Config, files: Files, before: seq<PlanRow>, row: PlanRow)
    requires row.seen.found.rel != [] && row.seen.found.path != [] && Decide(c, files, before, row.seen) == Some(row)
    requires row.action.DuplicateOf? && SortBy(row.seen.peers, Before) != []
    ensures row.action.peer == Some(SortBy(row.seen.peers, Before)[0])
  {
  }

  /** The peer a duplicate row names is its survivor. */
  lemma {:induction false} PeerIsSurvivor(c: Config, walks: Walks, files: Files, row: PlanRow)
    requires SourcesApart(c) && MergePlan(c, walks, files).Some? && row in MergePlan(c, walks, files).value
    requires row.action.DuplicateOf?
    ensures row.action.peer == Some(row.seen.survivor)
  {
    var before := RowIsDecided(c, walks, files, row);
    SurvivorIsLeast(c, walks, files, row);
    DuplicateSurvivor(c, walks, files, row);
    LeastPeer(files, Indexed(files, c, walks), ScopeOf(files, c, walks), Scan(files, walks, c.srcs), row.seen.found);
    DecidedPeer(c, files, before, row);
  }

  lemma {:induction false} DuplicateSurvivor(c: Config, walks: Walks, files: Files, row: PlanRow)
    requires SourcesApart(c) && MergePlan(c, walks, files).Some? && row in MergePlan(c, walks, files).value
    requires row.action.DuplicateOf?
    ensures row.seen.survivor != row.Path() && row.seen.survivor in PathsOf(Scan(files, walks, c.srcs))
  {
    PlanMeans(c, walks, files, row);
  }

  lemma {:induction false} LeastPeer(files: Files, index: seq<Path>, scopes: map<Path, Scope>, found: seq<Found>,
                                     f: Found)
    requires f.path in files && f.path in index
    requires var s := See(files, index, scopes, SourcesOf(found), f);
      s.survivor != f.path && s.survivor in PathsOf(found) && s.survivor in files && s.survivor in index &&
      files[s.survivor] == files[f.path]
    ensures var s := See(files, index, scopes, SourcesOf(found), f);
      s.peers != [] && SortBy(s.peers, Before) != [] && SortBy(s.peers, Before)[0] == s.survivor
  {
    var s := See(files, index, scopes, SourcesOf(found), f);
    GroupMembers(files, index, f.path);
    var i :| 0 <= i < |found| && PathsOf(found)[i] == s.survivor;
    assert found[i] in found && s.survivor in SourcesOf(found);
    assert s.survivor in s.peers;
    BeforeIsOrder();
    SortBySorts(s.peers, Before);
    SameMembers(SortBy(s.peers, Before), s.peers);
    HeadIsLeast(SortBy(s.peers, Before), s.survivor, Before);
    assert SortBy(s.peers, Before)[0] in GroupFor(files, index, f.path);
  }

  // ---- what the table proves after a merge ----

  /** A proof row tells the truth about the disk. */
  ghost predicate TrueProof(files: Files, row: Row) {
    row.op in {Copy, Move} && row.dst.Some? && row.dstSha.Some? ==>
      row.dst.value in files && Sha256(files[row.dst.value]) == row.dstSha.value
  }

  /** The rows the copies left: true, and each about the content of a copied source. */
  ghost predicate CopyProofs(start: Files, files: Files, plan: seq<PlanRow>, rows: Rows) {
    forall r :: r in rows ==> r.op == Copy && TrueProof(files, r) && AboutCopied(start, plan, r)
  }

  ghost predicate AboutCopied(start: Files, plan: seq<PlanRow>, r: Row) {
    exists j :: 0 <= j < |plan| && plan[j].action.CopyTo? && plan[j].Path() in start &&
                r.dstSha == Some(Sha256(start[plan[j].Path()]))
  }

  lemma {:induction false} AboutCopiedLater(start: Files, plan: seq<PlanRow>, last: PlanRow, r: Row)
    requires AboutCopied(start, plan, r)
    ensures AboutCopied(start, plan + [last], r)
  {
    var j :| 0 <= j < |plan| && plan[j].action.CopyTo? && plan[j].Path() in start &&
             r.dstSha == Some(Sha256(start[plan[j].Path()]));
    assert (plan + [last])[j] == plan[j];
  }

  lemma {:induction false} CopiesProve(run: RunId, done: set<Path>, ios: map<Path, Io>, start: Progress,
                                       plan: seq<PlanRow>)
    requires NewTargets(start.files, plan)
    requires forall i :: 0 <= i < |plan| ==> plan[i].Path() in start.files
    ensures var p := ApplyRows(run, done, ios, start, plan);
      start.rows <= p.rows && CopyProofs(start.files, p.files, plan, p.rows[|start.rows|..])
  {
    if plan != [] {
      var init, last := plan[..|plan| - 1], plan[|plan| - 1];
      assert plan == init + [last];
      NewTargetsInit(start.files, init, last);
      forall i | 0 <= i < |init| ensures init[i] == plan[i] {}
      CopiesProve(run, done, ios, start, init);
      ApplyCarries(run, done, ios, start, init);
      CopyProves(run, done, ios, start, ApplyRows(run, done, ios, start, init), init, last);
    }
  }

  lemma {:induction false} CopyProves(run: RunId, done: set<Path>, ios: map<Path, Io>, start: Progress, p: Progress,
                                      init: seq<PlanRow>, last: PlanRow)
    requires Carried(done, ios, start, p, init) && NewTargets(start.files, init + [last])
    requires CopyProofs(start.files, p.files, init, p.rows[|start.rows|..]) && last.Path() in start.files
    ensures var p' := ApplyRow(run, done, ios, p, last);
      start.rows <= p'.rows && CopyProofs(start.files, p'.files, init + [last], p'.rows[|start.rows|..])
  {
    var p' := ApplyRow(run, done, ios, p, last);
    assert (init + [last])[|init|] == last;
    SourceStays(done, ios, start, p, init, last);
    var before, after := p.rows[|start.rows|..], p'.rows[|start.rows|..];
    assert p'.rows == p.rows || (exists r :: p'.rows == p.rows + [r] && after == before + [r]);
    forall r | r in after
      ensures r.op == Copy && TrueProof(p'.files, r) && AboutCopied(start.files, init + [last], r)
    {
      if r in before {
        AboutCopiedLater(start.files, init, last, r);
        ProofStays(run, done, ios, start, p, init, last, r);
      } else {
        assert r.dstSha == Some(Sha256(start.files[last.Path()]));
      }
    }
  }

  /** What a copy recorded stays true when the next row is carried out. */
  lemma {:induction false} ProofStays(run: RunId, done: set<Path>, ios: map<Path, Io>, start: Progress, p: Progress,
                                      init: seq<PlanRow>, last: PlanRow, r: Row)
    requires Carried(done, ios, start, p, init) && NewTargets(start.files, init + [last])
    requires r in p.rows[|start.rows|..] && TrueProof(p.files, r)
    ensures TrueProof(ApplyRow(run, done, ios, p, last).files, r)
  {
    var p' := ApplyRow(run, done, ios, p, last);
    var i :| |start.rows| <= i < |p.rows| && p.rows[i] == r;
    NewTargetsInit(start.files, init, last);
    SourceStays(done, ios, start, p, init, last);
    RowSteps(run, done, ios, p, last);
    StepRecords(done, ios, start, p, p', init, last, i);
  }

  lemma {:induction false} AuthorisedBy(run: RunId, files: Files, ks: seq<Candidate>, row: Row)
    ensures row in AuthoriseRows(run, files, ks) <==> exists k :: k in ks && row in ProofRows(run, files, k)
  {
    if ks != [] {
      var init, last := ks[..|ks| - 1], ks[|ks| - 1];
      AuthorisedBy(run, files, init, row);
      assert ks == init + [last];
    }
  }

  /** The table after a merge whose candidates all check out: what it held before, the copies' rows, then
      two rows a candidate. */
  ghost predicate Settled(run: RunId, files: Files, before: Rows, copies: Rows, ks: seq<Candidate>, rows: Rows) {
    && rows == before + copies + AuthoriseRows(run, files, ks)
    && (forall r :: r in copies ==> r.op == Copy && TrueProof(files, r))
    && (forall k :: k in ks ==> Proves(files, k))
  }

  /** The rows the merge added tell the truth. */
  lemma {:induction false} SettledIsTrue(run: RunId, files: Files, before: Rows, copies: Rows, ks: seq<Candidate>,
                                         rows: Rows, i: nat)
    requires Settled(run, files, before, copies, ks, rows) && |before| <= i < |rows|
    ensures TrueProof(files, rows[i])
    ensures rows[i].op == Delete ==>
      rows[i].src.Some? && rows[i].src.value in files && rows[i].srcSha == Some(Sha256(files[rows[i].src.value]))
  {
    var more := AuthoriseRows(run, files, ks);
    if i < |before| + |copies| {
      assert rows[i] == copies[i - |before|];
    } else {
      assert rows[i] == more[i - |before| - |copies|] && rows[i] in more;
      AuthorisedBy(run, files, ks, rows[i]);
      var k :| k in ks && rows[i] in ProofRows(run, files, k);
    }
  }

  /** Where the rows of one candidate stand. */
  lemma {:induction false} CandidateRow(run: RunId, files: Files, before: Rows, copies: Rows, ks: seq<Candidate>,
                                        rows: Rows, k: Candidate, row: Row) returns (i: nat)
    requires Settled(run, files, before, copies, ks, rows) && k in ks && row in ProofRows(run, files, k)
    ensures |before| <= i < |rows| && rows[i] == row
  {
    AuthorisedBy(run, files, ks, row);
    var more := AuthoriseRows(run, files, ks);
    var j :| 0 <= j < |more| && more[j] == row;
    i := |before| + |copies| + j;
  }

  /** Each candidate's newest pending row names its present bytes. */
  lemma {:induction false} PendingNamesBytes(run: RunId, files: Files, before: Rows, copies: Rows, ks: seq<Candidate>,
                                             rows: Rows, k: Candidate)
    requires Settled(run, files, before, copies, ks, rows) && k in ks
    ensures var id := PendingDelete(rows, run, k.path);
      id.Some? && rows[id.value].srcSha == Some(Sha256(files[k.path]))
  {
    var wanted := ProofRows(run, files, k)[1];
    assert wanted in ProofRows(run, files, k) && IsPendingDelete(wanted, run, k.path);
    var i := CandidateRow(run, files, before, copies, ks, rows, k, wanted);
    var id := PendingDelete(rows, run, k.path);
    SettledIsTrue(run, files, before, copies, ks, rows, id.value);
  }

  /** Delete authority for a candidate: exactly when some proof of its bytes lies at another path. */
  lemma {:induction false} AuthorityIsElsewhere(run: RunId, files: Files, before: Rows, copies: Rows,
                                                ks: seq<Candidate>, rows: Rows, k: Candidate)
    requires Settled(run, files, before, copies, ks, rows) && k in ks
    ensures Removable(files, rows, run, k.path) <==> SurvivesElsewhere(rows, Sha256(files[k.path]), k.path)
  {
    PendingNamesBytes(run, files, before, copies, ks, rows, k);
  }

  /** The newest proof is looked for among the newest rows first. */
  lemma {:induction false} NewestProof(before: Rows, more: Rows, sha: Digest)
    requires exists i :: 0 <= i < |more| && IsProof(more[i], sha)
    ensures FindCopy(before + more, sha) == FindCopy(more, sha)
  {
    var n := |more| - 1;
    assert (before + more)[..|before + more| - 1] == before + more[..n];
    assert (before + more)[|before + more| - 1] == more[n];
    if !IsProof(more[n], sha) {
      var i :| 0 <= i < |more| && IsProof(more[i], sha);
      assert more[..n][i] == more[i];
      NewestProof(before, more[..n], sha);
    }
  }

  /** The purge's own look at the survivor always succeeds for a candidate of such a merge. */
  lemma {:induction false} SurvivorChecksOut(run: RunId, files: Files, before: Rows, copies: Rows, ks: seq<Candidate>,
                                             rows: Rows, k: Candidate)
    requires Settled(run, files, before, copies, ks, rows) && k in ks
    ensures var sha := Sha256(files[k.path]);
      var found := FindCopy(rows, sha);
      found.Some? && found.value in files && Sha256(files[found.value]) == sha
  {
    var sha := Sha256(files[k.path]);
    var proof := ProofRows(run, files, k)[0];
    assert proof in ProofRows(run, files, k) && IsProof(proof, sha);
    var i := CandidateRow(run, files, before, copies, ks, rows, k, proof);
    var more := copies + AuthoriseRows(run, files, ks);
    assert rows == before + more && more[i - |before|] == proof;
    NewestProof(before, more, sha);
    var j :| 0 <= j < |more| && IsProof(more[j], sha) && more[j].dst == FindCopy(more, sha);
    assert rows[|before| + j] == more[j];
    SettledIsTrue(run, files, before, copies, ks, rows, |before| + j);
  }

  /** A proof at another path among what the merge added: one of the copies', or another candidate's survivor. */
  ghost predicate Elsewhere(files: Files, copies: Rows, ks: seq<Candidate>, q: Path)
    requires q in files
  {
    || (exists r :: r in copies && IsProof(r, Sha256(files[q])) && r.dst != Some(q))
    || (exists k :: k in ks && k.path in files && files[k.path] == files[q] && k.survivor != q)
  }

  lemma {:induction false} ElsewhereIsProved(run: RunId, files: Files, before: Rows, copies: Rows, ks: seq<Candidate>,
                                             rows: Rows, q: Path)
    requires Settled(run, files, before, copies, ks, rows) && q in files
    requires SurvivesElsewhere(rows, Sha256(files[q]), q)
    ensures SurvivesElsewhere(before, Sha256(files[q]), q) || Elsewhere(files, copies, ks, q)
  {
    var sha := Sha256(files[q]);
    var i :| 0 <= i < |rows| && IsProof(rows[i], sha) && rows[i].dst != Some(q);
    if i < |before| {
      assert before[i] == rows[i];
    } else if i < |before| + |copies| {
      assert rows[i] == copies[i - |before|];
    } else {
      var more := AuthoriseRows(run, files, ks);
      assert rows[i] == more[i - |before| - |copies|] && rows[i] in more;
      AuthorisedBy(run, files, ks, rows[i]);
      var k :| k in ks && rows[i] in ProofRows(run, files, k);
      assert files[k.path] == files[q] && k.survivor != q;
    }
  }

  lemma {:induction false} OldProofSurvives(run: RunId, files: Files, before: Rows, copies: Rows, ks: seq<Candidate>,
                                            rows: Rows, sha: Digest, q: Path)
    requires Settled(run, files, before, copies, ks, rows) && SurvivesElsewhere(before, sha, q)
    ensures SurvivesElsewhere(rows, sha, q)
  {
    var i :| 0 <= i < |before| && IsProof(before[i], sha) && before[i].dst != Some(q);
    assert rows[i] == before[i];
  }

  lemma {:induction false} ElsewhereSurvives(run: RunId, files: Files, before: Rows, copies: Rows, ks: seq<Candidate>,
                                             rows: Rows, k: Candidate, q: Path)
    requires Settled(run, files, before, copies, ks, rows) && q in files
    requires k in ks && files[k.path] == files[q] && k.survivor != q
    ensures SurvivesElsewhere(rows, Sha256(files[q]), q)
  {
    var proof := ProofRows(run, files, k)[0];
    assert proof in ProofRows(run, files, k);
    var i := CandidateRow(run, files, before, copies, ks, rows, k, proof);
    assert IsProof(rows[i], Sha256(files[q])) && rows[i].dst != Some(q);
  }

  // ---- a purge on such a table ----

  /** The staged paths with a proof elsewhere. */
  function ProvenElsewhere(files: Files, rows: Rows, ks: seq<Candidate>): set<Path> {
    set k | k in ks && k.path in files && SurvivesElsewhere(rows, Sha256(files[k.path]), k.path) :: k.path
  }

  lemma {:induction false} HashedFrom(files: Files, staged: seq<Candidate>, k: Candidate) returns (i: nat)
    requires k in HashCandidates(files, staged)
    ensures i < |staged| && staged[i].path == k.path && staged[i] in staged
  {
    var hashed := HashCandidates(files, staged);
    i :| 0 <= i < |hashed| && hashed[i] == k;
    assert hashed[i] == WithHash(files, staged[i]);
  }

  /** Re-verification lets every removable candidate through. */
  lemma {:induction false} CandidateIsStaged(w: World, run: RunId, before: Rows, copies: Rows, ks: seq<Candidate>,
                                             k: Candidate)
    requires Settled(run, w.files, before, copies, ks, w.rows) && k in ks
    requires Removable(w.files, w.rows, run, k.path)
    ensures Staged(w, run, HashCandidates(w.files, ks), k.path)
  {
    SurvivorChecksOut(run, w.files, before, copies, ks, w.rows, k);
    var i :| 0 <= i < |ks| && ks[i] == k;
    var hashed := HashCandidates(w.files, ks);
    assert hashed[i] == WithHash(w.files, k) && hashed[i] in hashed;
    assert Allowed(w, run, hashed[i]);
  }

  /** What the purge may take is what is proven elsewhere. */
  lemma {:induction false} TakenIsProven(w: World, run: RunId, before: Rows, copies: Rows, ks: seq<Candidate>, q: Path)
    requires Settled(run, w.files, before, copies, ks, w.rows)
    ensures Staged(w, run, HashCandidates(w.files, ks), q) && Removable(w.files, w.rows, run, q) <==>
            q in ProvenElsewhere(w.files, w.rows, ks)
  {
    if q in ProvenElsewhere(w.files, w.rows, ks) {
      var k :| k in ks && k.path == q && SurvivesElsewhere(w.rows, Sha256(w.files[k.path]), k.path);
      AuthorityIsElsewhere(run, w.files, before, copies, ks, w.rows, k);
      CandidateIsStaged(w, run, before, copies, ks, k);
    }
    if Staged(w, run, HashCandidates(w.files, ks), q) && Removable(w.files, w.rows, run, q) {
      var h :| h in HashCandidates(w.files, ks) && h.path == q && Allowed(w, run, h);
      var i := HashedFrom(w.files, ks, h);
      AuthorityIsElsewhere(run, w.files, before, copies, ks, w.rows, ks[i]);
    }
  }

  /** A confirmed, uninterrupted purge removes exactly the candidates that are proven elsewhere. */
  lemma {:induction false} SettledPurge(w: World, p: PurgeCall, before: Rows, copies: Rows, ks: seq<Candidate>)
    requires Settled(p.run, w.files, before, copies, ks, w.rows)
    requires Runs(w, p) && w.stages[p.run] == HashCandidates(w.files, ks) && p.removals >= |ks|
    ensures Purge(w, p).files == w.files - ProvenElsewhere(w.files, w.rows, ks)
  {
    PurgeRemovesExactly(w, p);
    var proven := ProvenElsewhere(w.files, w.rows, ks);
    forall q
      ensures q in proven <==>
        q in w.files && Staged(w, p.run, w.stages[p.run], q) && Removable(w.files, w.rows, p.run, q)
    {
      TakenIsProven(w, p.run, before, copies, ks, q);
    }
    assert proven ==
      set q | q in w.files && Staged(w, p.run, w.stages[p.run], q) && Removable(w.files, w.rows, p.run, q);
  }

  // ---- the merge that goes through ----

  /** Everything is reached, and every copy lands; the table may hold any earlier rows. */
  ghost predicate GoesThrough(kept: set<Path>, w: World, m: MergeCall, plan: seq<PlanRow>) {
    && Safe(kept, w) && Lawful(kept, w.files, m) && SourcesApart(m.config)
    && MergePlan(m.config, m.walks, w.files) == Some(plan)
    && m.config.apply && m.enoughSpace && m.copies >= |plan| && m.proofs >= |plan|
    && R.AllLand(w.files, CompletedPaths(w.rows, m.config.run), m.ios, plan)
  }

  /** A staged file and the path that proves it hold the same bytes once the copies are done. */
  lemma {:induction false} CandidateProves(kept: set<Path>, w: World, m: MergeCall, plan: seq<PlanRow>, row: PlanRow)
    requires GoesThrough(kept, w, m, plan) && row in plan
    ensures Proves(Merge(w, m).files, CandidateOf(Placed(plan), row))
  {
    var after := Merge(w, m).files;
    MergeHasEffect(kept, w, m);
    R.MergeTargetsHold(w, m, plan);
    SurvivorIsLeast(m.config, m.walks, w.files, row);
    PlacedIsCopied(plan, row.seen.survivor);
    var survivor := row.seen.survivor;
    if survivor in Placed(plan) {
      var i :| 0 <= i < |plan| && plan[i].action == CopyTo(Placed(plan)[survivor]) && plan[i].Path() == survivor;
      assert after[plan[i].action.dst] == w.files[plan[i].Path()];
    }
  }

  lemma {:induction false} CandidatesOfRows(placed: map<Path, Path>, rows: seq<PlanRow>)
    ensures forall row :: row in rows && !row.action.CopyTo? ==> CandidateOf(placed, row) in Candidates(placed, rows)
    ensures forall k :: k in Candidates(placed, rows) ==>
      exists row :: row in rows && !row.action.CopyTo? && k == CandidateOf(placed, row)
    ensures |Candidates(placed, rows)| <= |rows|
  {
    if rows != [] {
      var init, last := rows[..|rows| - 1], rows[|rows| - 1];
      CandidatesOfRows(placed, init);
      assert rows == init + [last];
      forall k | k in Candidates(placed, rows)
        ensures exists row :: row in rows && !row.action.CopyTo? && k == CandidateOf(placed, row)
      {
        if k in Candidates(placed, init) {
          var row :| row in init && !row.action.CopyTo? && k == CandidateOf(placed, row);
          assert row in rows;
        } else {
          assert last in rows;
        }
      }
    }
  }

  /** What a merge that goes through leaves behind. */
  ghost predicate Leaves(w: World, m: MergeCall, plan: seq<PlanRow>, copies: Rows) {
    var w' := Merge(w, m);
    var staged := Candidates(Placed(plan), plan);
    && Settled(m.config.run, w'.files, w.rows, copies, staged, w'.rows)
    && CopyProofs(w.files, w'.files, plan, copies)
    && m.config.run in w'.stages && w'.stages[m.config.run] == HashCandidates(w'.files, staged)
  }

  /** The worlds of a merge that goes through, named. */
  lemma {:induction false} ThroughWorlds(w: World, m: MergeCall, plan: seq<PlanRow>) returns (p: Progress)
    requires MergePlan(m.config, m.walks, w.files) == Some(plan)
    requires m.config.apply && m.enoughSpace && m.copies >= |plan| && m.proofs >= |Candidates(Placed(plan), plan)|
    ensures p == ApplyRows(m.config.run, CompletedPaths(w.rows, m.config.run), m.ios, Progress(w.files, w.rows, []),
      plan)
    ensures var w', run, staged := Merge(w, m), m.config.run, Candidates(Placed(plan), plan);
      && w'.files == p.files && w'.rows == p.rows + AuthoriseRows(run, p.files, staged)
      && run in w'.stages && w'.stages[run] == HashCandidates(p.files, staged)
      && w'.runs == Register(w, run, m.config.medium).runs
  {
    MergeCases(w, m);
    var w0 := Register(w, m.config.run, m.config.medium);
    var staged := Candidates(Placed(plan), plan);
    var w1 := w0.(stages := w0.stages[m.config.run := staged]);
    R.CarryAll(w1, m, plan);
    p := Carry(w1, m, plan);
    FullAuthority(w1.(files := p.files, rows := p.rows), m, staged);
  }

  lemma {:induction false} NoHalf(run: RunId, files: Files, staged: seq<Candidate>, half: bool)
    ensures HalfRows(run, files, staged, |staged|, half) == []
  {
  }

  lemma {:induction false} FullAuthority(w: World, m: MergeCall, staged: seq<Candidate>)
    requires m.proofs >= |staged|
    ensures Authorise(w, m, staged) == w.(rows := w.rows + AuthoriseRows(m.config.run, w.files, staged),
                                          stages := w.stages[m.config.run := HashCandidates(w.files, staged)])
  {
    assert staged[..Min(m.proofs, |staged|)] == staged;
    NoHalf(m.config.run, w.files, staged, m.halfProof);
    assert Min(m.proofs, |staged|) == |staged|;
    var more := AuthoriseRows(m.config.run, w.files, staged);
    assert w.rows + more + [] == w.rows + more;
  }

  /** The plan's targets are new and its sources are on disk. */
  lemma {:induction false} TargetsAreNew(kept: set<Path>, files: Files, m: MergeCall, plan: seq<PlanRow>)
    requires NoStaging(files) && Lawful(kept, files, m) && MergePlan(m.config, m.walks, files) == Some(plan)
    ensures NewTargets(files, plan) && forall i :: 0 <= i < |plan| ==> plan[i].Path() in files
  {
    PlanIsNew(m.config, m.walks, files, plan);
    forall i | 0 <= i < |plan| ensures plan[i].Path() in files { FoundInPlan(m.config, m.walks, files, plan[i]); }
  }

  lemma {:induction false} CopiesOfPlan(run: RunId, done: set<Path>, ios: map<Path, Io>, start: Progress,
                                        plan: seq<PlanRow>)
    returns (copies: Rows)
    requires NewTargets(start.files, plan) && forall i :: 0 <= i < |plan| ==> plan[i].Path() in start.files
    ensures var p := ApplyRows(run, done, ios, start, plan);
      p.rows == start.rows + copies && CopyProofs(start.files, p.files, plan, copies)
  {
    CopiesProve(run, done, ios, start, plan);
    copies := ApplyRows(run, done, ios, start, plan).rows[|start.rows|..];
  }

  lemma {:induction false} AllProve(kept: set<Path>, w: World, m: MergeCall, plan: seq<PlanRow>)
    requires GoesThrough(kept, w, m, plan)
    ensures forall k :: k in Candidates(Placed(plan), plan) ==> Proves(Merge(w, m).files, k)
  {
    forall k | k in Candidates(Placed(plan), plan) ensures Proves(Merge(w, m).files, k) {
      var row := RowOfCandidate(plan, k);
      CandidateProves(kept, w, m, plan, row);
    }
  }

  lemma {:induction false} MergeSettles(kept: set<Path>, w: World, m: MergeCall, plan: seq<PlanRow>)
    returns (copies: Rows)
    requires GoesThrough(kept, w, m, plan)
    ensures Leaves(w, m, plan, copies)
  {
    CandidatesOfRows(Placed(plan), plan);
    var p := ThroughWorlds(w, m, plan);
    TargetsAreNew(kept, w.files, m, plan);
    copies := CopiesOfPlan(m.config.run, CompletedPaths(w.rows, m.config.run), m.ios, Progress(w.files, w.rows, []),
                           plan);
    AllProve(kept, w, m, plan);
  }

  // ---- exactly what a purge then removes ----

  /** Content that is already there is nobody's copy. */
  lemma {:induction false} HeldIsNotCopied(c: Config, walks: Walks, files: Files, plan: seq<PlanRow>, row: PlanRow,
                                           other: PlanRow)
    requires SourcesApart(c) && MergePlan(c, walks, files) == Some(plan) && row in plan && other in plan
    requires !row.action.CopyTo? && row.seen.survivor == row.Path() && other.action.CopyTo?
    ensures row.Path() in files && other.Path() in files && files[other.Path()] != files[row.Path()]
  {
    PlanMeans(c, walks, files, row);
    PlanMeans(c, walks, files, other);
    if row.action.DuplicateOf? { DuplicateSurvivor(c, walks, files, row); }
  }

  lemma {:induction false} SelfIsNotPlaced(c: Config, walks: Walks, files: Files, plan: seq<PlanRow>, row: PlanRow)
    requires SourcesApart(c) && MergePlan(c, walks, files) == Some(plan) && row in plan
    requires !row.action.CopyTo? && row.seen.survivor == row.Path()
    ensures row.Path() !in Placed(plan)
  {
    PlacedIsCopied(plan, row.Path());
    forall i | 0 <= i < |plan| && plan[i].action.CopyTo? ensures plan[i].Path() != row.Path() {
      HeldIsNotCopied(c, walks, files, plan, row, plan[i]);
    }
  }

  lemma {:induction false} CopiesAreOthers(c: Config, walks: Walks, files: Files, plan: seq<PlanRow>, row: PlanRow,
                                           r: Row)
    requires SourcesApart(c) && MergePlan(c, walks, files) == Some(plan) && row in plan
    requires !row.action.CopyTo? && row.seen.survivor == row.Path() && AboutCopied(files, plan, r)
    ensures row.Path() in files && r.dstSha != Some(Sha256(files[row.Path()]))
  {
    var j :| 0 <= j < |plan| && plan[j].action.CopyTo? && plan[j].Path() in files &&
             r.dstSha == Some(Sha256(files[plan[j].Path()]));
    HeldIsNotCopied(c, walks, files, plan, row, plan[j]);
  }

  lemma {:induction false} PeersPointHere(c: Config, walks: Walks, files: Files, plan: seq<PlanRow>, row: PlanRow,
                                          other: PlanRow)
    requires SourcesApart(c) && MergePlan(c, walks, files) == Some(plan) && row in plan && other in plan
    requires !row.action.CopyTo? && row.seen.survivor == row.Path()
    requires row.Path() in files && other.Path() in files && files[other.Path()] == files[row.Path()]
    ensures CandidateOf(Placed(plan), other).survivor == row.Path()
  {
    SameSurvivor(c, walks, files, row, other);
    SelfIsNotPlaced(c, walks, files, plan, row);
  }

  /** A file that is its own survivor has no proof elsewhere. */
  lemma {:induction false} SelfHasNoProof(c: Config, walks: Walks, files: Files, after: Files, plan: seq<PlanRow>,
                                          copies: Rows, row: PlanRow)
    requires SourcesApart(c) && MergePlan(c, walks, files) == Some(plan) && row in plan && Grows(files, after)
    requires forall r :: r in copies ==> AboutCopied(files, plan, r)
    requires !row.action.CopyTo? && row.seen.survivor == row.Path() && row.Path() in files
    ensures row.Path() in after && !Elsewhere(after, copies, Candidates(Placed(plan), plan), row.Path())
  {
    var q := row.Path();
    forall r | r in copies ensures r.dstSha != Some(Sha256(after[q])) {
      CopiesAreOthers(c, walks, files, plan, row, r);
    }
    forall k | k in Candidates(Placed(plan), plan) && k.path in after && after[k.path] == after[q]
      ensures k.survivor == q
    {
      var other := RowOfCandidate(plan, k);
      FoundInPlan(c, walks, files, other);
      PeersPointHere(c, walks, files, plan, row, other);
    }
    NotElsewhere(after, copies, Candidates(Placed(plan), plan), q);
  }

  lemma {:induction false} NotElsewhere(files: Files, copies: Rows, ks: seq<Candidate>, q: Path)
    requires q in files && forall r :: r in copies ==> r.dstSha != Some(Sha256(files[q]))
    requires forall k :: k in ks && k.path in files && files[k.path] == files[q] ==> k.survivor == q
    ensures !Elsewhere(files, copies, ks, q)
  {
  }

  lemma {:induction false} RowOfCandidate(plan: seq<PlanRow>, k: Candidate) returns (row: PlanRow)
    requires k in Candidates(Placed(plan), plan)
    ensures row in plan && !row.action.CopyTo? && k == CandidateOf(Placed(plan), row)
  {
    CandidatesOfRows(Placed(plan), plan);
    row :| row in plan && !row.action.CopyTo? && k == CandidateOf(Placed(plan), row);
  }

  /** Any other staged file is proven by its survivor, or by the copy of it. */
  lemma {:induction false} OtherHasProof(kept: set<Path>, w: World, m: MergeCall, plan: seq<PlanRow>, row: PlanRow)
    requires GoesThrough(kept, w, m, plan) && row in plan && row.seen.survivor != row.Path()
    ensures CandidateOf(Placed(plan), row).survivor != row.Path()
  {
    TargetsAreNew(kept, w.files, m, plan);
    PlacedIsCopied(plan, row.seen.survivor);
    FoundInPlan(m.config, m.walks, w.files, row);
  }

  /** A staged source has delete authority exactly when its survivor is another path, or the table already
      held a proof of its bytes elsewhere. */
  ghost predicate HasProof(w: World, row: PlanRow)
    requires row.Path() in w.files
  {
    row.seen.survivor != row.Path() || SurvivesElsewhere(w.rows, Sha256(w.files[row.Path()]), row.Path())
  }

  lemma {:induction false} RowIsRemovable(kept: set<Path>, w: World, m: MergeCall, plan: seq<PlanRow>, copies: Rows,
                                          row: PlanRow)
    requires GoesThrough(kept, w, m, plan) && Leaves(w, m, plan, copies) && row in plan && !row.action.CopyTo?
    ensures row.Path() in w.files && row.Path() in Merge(w, m).files
    ensures Removable(Merge(w, m).files, Merge(w, m).rows, m.config.run, row.Path()) <==> HasProof(w, row)
    ensures SurvivesElsewhere(Merge(w, m).rows, Sha256(w.files[row.Path()]), row.Path()) <==> HasProof(w, row)
  {
    var w', run, staged := Merge(w, m), m.config.run, Candidates(Placed(plan), plan);
    var q := row.Path();
    FoundInPlan(m.config, m.walks, w.files, row);
    MergeHasEffect(kept, w, m);
    CandidatesOfRows(Placed(plan), plan);
    var k := CandidateOf(Placed(plan), row);
    AuthorityIsElsewhere(run, w'.files, w.rows, copies, staged, w'.rows, k);
    if SurvivesElsewhere(w.rows, Sha256(w.files[q]), q) {
      OldProofSurvives(run, w'.files, w.rows, copies, staged, w'.rows, Sha256(w.files[q]), q);
    } else if row.seen.survivor == q {
      SelfHasNoProof(m.config, m.walks, w.files, w'.files, plan, copies, row);
      if SurvivesElsewhere(w'.rows, Sha256(w'.files[q]), q) {
        ElsewhereIsProved(run, w'.files, w.rows, copies, staged, w'.rows, q);
      }
    } else {
      OtherHasProof(kept, w, m, plan, row);
      ElsewhereSurvives(run, w'.files, w.rows, copies, staged, w'.rows, k, q);
    }
  }

  /** The table's own list of deletes without a copy elsewhere names, of this run's rows, exactly the sources
      that are their own survivor and were not proven before. */
  lemma {:induction false} UnclaimedAreSelf(kept: set<Path>, w: World, m: MergeCall, plan: seq<PlanRow>, copies: Rows,
                                            id: nat)
    returns (row: PlanRow)
    requires GoesThrough(kept, w, m, plan) && Leaves(w, m, plan, copies)
    requires |w.rows| <= id < |Merge(w, m).rows| && Merge(w, m).rows[id].op == Delete
    ensures row in plan && !row.action.CopyTo? && Merge(w, m).rows[id].src == Some(row.Path()) && row.Path() in w.files
    ensures Unclaimed(Merge(w, m).rows, m.config.run, id) <==> !HasProof(w, row)
  {
    var w', run, staged := Merge(w, m), m.config.run, Candidates(Placed(plan), plan);
    MergeHasEffect(kept, w, m);
    var k := DeleteOf(run, w'.files, w.rows, copies, staged, w'.rows, id);
    row := RowOfCandidate(plan, k);
    RowIsRemovable(kept, w, m, plan, copies, row);
  }

  lemma {:induction false} AddedRow(run: RunId, files: Files, before: Rows, copies: Rows, ks: seq<Candidate>,
                                    rows: Rows, i: nat)
    requires Settled(run, files, before, copies, ks, rows) && |before| <= i < |rows|
    ensures rows[i] in copies || rows[i] in AuthoriseRows(run, files, ks)
  {
    var more := AuthoriseRows(run, files, ks);
    if i < |before| + |copies| {
      assert rows[i] == copies[i - |before|];
    } else {
      assert rows[i] == more[i - |before| - |copies|];
    }
  }

  /** Every delete row the merge added is some candidate's. */
  lemma {:induction false} DeleteOf(run: RunId, files: Files, before: Rows, copies: Rows, ks: seq<Candidate>,
                                    rows: Rows, id: nat)
    returns (k: Candidate)
    requires Settled(run, files, before, copies, ks, rows) && |before| <= id < |rows| && rows[id].op == Delete
    ensures k in ks && k.path in files && rows[id].run == run
    ensures rows[id].src == Some(k.path) && rows[id].srcSha == Some(Sha256(files[k.path]))
  {
    AddedRow(run, files, before, copies, ks, rows, id);
    AuthorisedBy(run, files, ks, rows[id]);
    k :| k in ks && rows[id] in ProofRows(run, files, k);
  }

  /** The sources a merge leaves for the purge to remove. */
  ghost function Reclaimable(w: World, plan: seq<PlanRow>): set<Path> {
    set row | row in plan && !row.action.CopyTo? && row.Path() in w.files && HasProof(w, row) :: row.Path()
  }

  lemma {:induction false} ProvenIsReclaimable(kept: set<Path>, w: World, m: MergeCall, plan: seq<PlanRow>,
                                               copies: Rows, q: Path)
    requires GoesThrough(kept, w, m, plan) && Leaves(w, m, plan, copies)
    ensures q in ProvenElsewhere(Merge(w, m).files, Merge(w, m).rows, Candidates(Placed(plan), plan)) <==>
            q in Reclaimable(w, plan)
  {
    var w', staged := Merge(w, m), Candidates(Placed(plan), plan);
    MergeHasEffect(kept, w, m);
    if q in Reclaimable(w, plan) {
      var row :| row in plan && !row.action.CopyTo? && row.Path() in w.files && HasProof(w, row) && row.Path() == q;
      RowIsRemovable(kept, w, m, plan, copies, row);
      CandidatesOfRows(Placed(plan), plan);
      assert CandidateOf(Placed(plan), row) in staged;
    }
    if q in ProvenElsewhere(w'.files, w'.rows, staged) {
      var k :| k in staged && k.path == q && SurvivesElsewhere(w'.rows, Sha256(w'.files[k.path]), k.path);
      var row := RowOfCandidate(plan, k);
      RowIsRemovable(kept, w, m, plan, copies, row);
    }
  }

  /** After a merge that goes through, on any table, a confirmed purge removes exactly the sources that were not
      copied and either are not the least path of their content or were proven elsewhere before. A source that
      sorts before every other holder of its bytes, the destination's copy included, is staged as its own proof. */
  lemma {:induction false} PurgeReclaimsExactly(kept: set<Path>, w: World, m: MergeCall, plan: seq<PlanRow>,
                                                p: PurgeCall)
    requires GoesThrough(kept, w, m, plan)
    requires p.run == m.config.run && p.confirmed && p.removals >= |plan|
    requires (p.run in w.runs ==> w.runs[p.run] == p.medium) && (p.run !in w.runs ==> p.medium == m.config.medium)
    ensures Purge(Merge(w, m), p).files == Merge(w, m).files - Reclaimable(w, plan)
  {
    var copies := MergeSettles(kept, w, m, plan);
    var w', staged := Merge(w, m), Candidates(Placed(plan), plan);
    PurgeRuns(w, m, plan, p);
    CandidatesOfRows(Placed(plan), plan);
    SettledPurge(w', p, w.rows, copies, staged);
    ProvenAreReclaimable(kept, w, m, plan, copies);
  }

  lemma {:induction false} ProvenAreReclaimable(kept: set<Path>, w: World, m: MergeCall, plan: seq<PlanRow>,
                                                copies: Rows)
    requires GoesThrough(kept, w, m, plan) && Leaves(w, m, plan, copies)
    ensures ProvenElsewhere(Merge(w, m).files, Merge(w, m).rows, Candidates(Placed(plan), plan)) == Reclaimable(w, plan)
  {
    var proven := ProvenElsewhere(Merge(w, m).files, Merge(w, m).rows, Candidates(Placed(plan), plan));
    var reclaimable := Reclaimable(w, plan);
    forall q ensures q in proven <==> q in reclaimable { ProvenIsReclaimable(kept, w, m, plan, copies, q); }
  }

  lemma {:induction false} PurgeRuns(w: World, m: MergeCall, plan: seq<PlanRow>, p: PurgeCall)
    requires MergePlan(m.config, m.walks, w.files) == Some(plan)
    requires m.config.apply && m.enoughSpace && m.copies >= |plan| && m.proofs >= |plan|
    requires p.run == m.config.run && p.confirmed && p.removals >= |plan|
    requires (p.run in w.runs ==> w.runs[p.run] == p.medium) && (p.run !in w.runs ==> p.medium == m.config.medium)
    ensures Runs(Merge(w, m), p) && p.removals >= |Merge(w, m).stages[p.run]|
  {
    CandidatesOfRows(Placed(plan), plan);
    var progress := ThroughWorlds(w, m, plan);
  }
}
