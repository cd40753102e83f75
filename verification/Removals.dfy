/** What a purge removes and marks, spelled out from the disk, the table and the staged list alone. */
module Removals {
  import opened Basics
  import opened Paths
  import opened Fsx
  import opened Ledger
  import opened Planning
  import opened Worlds
  import opened Histories
  import opened PurgeProofs
  import opened Reclaims
  import R = Replays

  // ---- the three checks, row by row ----

  /** Row i asks the run to delete the path, and is pending; no later row is such a one. */
  ghost predicate NewestRequest(rows: Rows, run: RunId, path: Path, i: nat) {
    && i < |rows| && Requests(rows[i], run, path)
    && forall j :: i < j < |rows| ==> !Requests(rows[j], run, path)
  }

  predicate Requests(row: Row, run: RunId, path: Path) {
    row.op == Delete && row.run == run && row.src == Some(path) && row.status == Pending
  }

  /** A done copy or move that left these bytes at its destination. */
  predicate Witnesses(row: Row, sha: Digest) {
    (row.op == Copy || row.op == Move) && row.status == Done && row.dst.Some? && row.dstSha == Some(sha)
  }

  /** The newest such row names a file that is there and has the bytes. */
  ghost predicate WitnessStands(files: Files, rows: Rows, sha: Digest) {
    exists i :: 0 <= i < |rows| && Witnesses(rows[i], sha) &&
      (forall j :: i < j < |rows| ==> !Witnesses(rows[j], sha)) &&
      rows[i].dst.value in files && Sha256(files[rows[i].dst.value]) == sha
  }

  /** Some such row names another path. */
  ghost predicate WitnessedElsewhere(rows: Rows, sha: Digest, path: Path) {
    exists i :: 0 <= i < |rows| && Witnesses(rows[i], sha) && rows[i].dst != Some(path)
  }

  /** The newest request about the file names its present bytes, which are witnessed at another path. */
  ghost predicate Granted(files: Files, rows: Rows, run: RunId, q: Path)
    requires q in files
  {
    && WitnessedElsewhere(rows, Sha256(files[q]), q)
    && exists i: nat :: NewestRequest(rows, run, q, i) && rows[i].srcSha == Some(Sha256(files[q]))
  }

  /** A staged claim about the file stands, by its recorded hash or, without one, by the hash the file has now. */
  ghost predicate Claimed(files: Files, rows: Rows, ks: seq<Candidate>, q: Path)
    requires q in files
  {
    exists k :: k in ks && k.path == q &&
      WitnessStands(files, rows, if k.sha.None? then Sha256(files[q]) else k.sha.value)
  }

  lemma {:induction false} GrantedIff(files: Files, rows: Rows, run: RunId, q: Path)
    ensures Removable(files, rows, run, q) <==> q in files && Granted(files, rows, run, q)
  {
    if q in files {
      ElsewhereIff(rows, Sha256(files[q]), q);
      var id := PendingDelete(rows, run, q);
      if id.Some? { RequestIff(rows, run, q, id.value); }
      if i: nat :| NewestRequest(rows, run, q, i) { RequestIff(rows, run, q, i); }
    }
  }

  lemma {:induction false} RequestIff(rows: Rows, run: RunId, q: Path, i: nat)
    ensures PendingDelete(rows, run, q) == Some(i) <==> NewestRequest(rows, run, q, i)
  {
    forall j | 0 <= j < |rows| ensures IsPendingDelete(rows[j], run, q) <==> Requests(rows[j], run, q) { }
  }

  lemma {:induction false} ElsewhereIff(rows: Rows, sha: Digest, q: Path)
    ensures SurvivesElsewhere(rows, sha, q) <==> WitnessedElsewhere(rows, sha, q)
  {
    forall i | 0 <= i < |rows| ensures IsProof(rows[i], sha) <==> Witnesses(rows[i], sha) { }
  }

  lemma {:induction false} WitnessIff(files: Files, rows: Rows, sha: Digest)
    ensures var found := FindCopy(rows, sha);
      found.Some? && found.value in files && Sha256(files[found.value]) == sha <==> WitnessStands(files, rows, sha)
  {
    forall i | 0 <= i < |rows| ensures IsProof(rows[i], sha) <==> Witnesses(rows[i], sha) { }
    var found := FindCopy(rows, sha);
    if found.Some? {
      var i: nat :| IsNewestProof(rows, sha, i) && rows[i].dst == found;
      assert Witnesses(rows[i], sha) && forall j :: i < j < |rows| ==> !Witnesses(rows[j], sha);
    }
  }

  lemma {:induction false} ClaimedIff(w: World, run: RunId, ks: seq<Candidate>, q: Path)
    requires q in w.files && AuthorisedDelete(w.rows, true, run, q).Some?
    ensures Staged(w, run, ks, q) <==> Claimed(w.files, w.rows, ks, q)
  {
    forall k | k in ks && k.path == q
      ensures Allowed(w, run, k) <==>
        WitnessStands(w.files, w.rows, if k.sha.None? then Sha256(w.files[q]) else k.sha.value)
    {
      WitnessIff(w.files, w.rows, if k.sha.None? then Sha256(w.files[q]) else k.sha.value);
    }
  }

  // ---- the files the purge offers for removal ----

  /** The newest request about the file names bytes that are witnessed at another path. */
  ghost predicate Requested(rows: Rows, run: RunId, q: Path) {
    exists i: nat ::
      NewestRequest(rows, run, q, i) && rows[i].srcSha.Some? && WitnessedElsewhere(rows, rows[i].srcSha.value, q)
  }

  lemma {:induction false} RequestedIff(rows: Rows, run: RunId, q: Path)
    ensures AuthorisedDelete(rows, true, run, q).Some? <==> Requested(rows, run, q)
  {
    var id := PendingDelete(rows, run, q);
    if id.Some? {
      RequestIff(rows, run, q, id.value);
      if rows[id.value].srcSha.Some? { ElsewhereIff(rows, rows[id.value].srcSha.value, q); }
    }
    if i: nat :| NewestRequest(rows, run, q, i) { RequestIff(rows, run, q, i); }
  }

  lemma {:induction false} OneAllowedIff(w: World, run: RunId, k: Candidate)
    ensures Allowed(w, run, k) <==>
      && k.path in w.files && Requested(w.rows, run, k.path)
      && WitnessStands(w.files, w.rows, if k.sha.None? then Sha256(w.files[k.path]) else k.sha.value)
  {
    RequestedIff(w.rows, run, k.path);
    if k.path in w.files {
      WitnessIff(w.files, w.rows, if k.sha.None? then Sha256(w.files[k.path]) else k.sha.value);
    }
  }

  lemma {:induction false} AllowedFrom(w: World, run: RunId, ks: seq<Candidate>, q: Path)
    ensures q in AllowedPaths(w, run, ks) <==> exists k :: k in ks && k.path == q && Allowed(w, run, k)
    decreases |ks|
  {
    if ks != [] {
      AllowedFrom(w, run, ks[..|ks| - 1], q);
      assert ks == ks[..|ks| - 1] + [ks[|ks| - 1]];
    }
  }

  /** Re-verification leaves exactly the files that are there, with a claim that stands and a request. */
  lemma {:induction false} AllowedIff(w: World, run: RunId, ks: seq<Candidate>, q: Path)
    ensures q in AllowedPaths(w, run, ks) <==>
      q in w.files && Claimed(w.files, w.rows, ks, q) && Requested(w.rows, run, q)
  {
    AllowedFrom(w, run, ks, q);
    forall k ensures Allowed(w, run, k) <==>
      && k.path in w.files && Requested(w.rows, run, k.path)
      && WitnessStands(w.files, w.rows, if k.sha.None? then Sha256(w.files[k.path]) else k.sha.value)
    {
      OneAllowedIff(w, run, k);
    }
  }

  // ---- the purge ----

  /** A confirmed purge of a registered and staged run that is not interrupted, on any table, disk and staged list:
      exactly the files with a claim that stands and a deletion that is granted go. */
  lemma {:induction false} PurgeTakesExactly(w: World, p: PurgeCall)
    requires p.run in w.runs && w.runs[p.run] == p.medium && p.run in w.stages && p.confirmed
    requires p.removals >= |w.stages[p.run]|
    ensures Purge(w, p).files == w.files - (set q | q in w.files && Claimed(w.files, w.rows, w.stages[p.run], q) &&
                                                    Granted(w.files, w.rows, p.run, q))
  {
    PurgeRemovesExactly(w, p);
    SameChecks(w, p.run, w.stages[p.run]);
  }

  lemma {:induction false} SameChecks(w: World, run: RunId, ks: seq<Candidate>)
    ensures (set q | q in w.files && Staged(w, run, ks, q) && Removable(w.files, w.rows, run, q)) ==
      (set q | q in w.files && Claimed(w.files, w.rows, ks, q) && Granted(w.files, w.rows, run, q))
  {
    forall q | q in w.files
      ensures Staged(w, run, ks, q) && Removable(w.files, w.rows, run, q) <==>
        Claimed(w.files, w.rows, ks, q) && Granted(w.files, w.rows, run, q)
    {
      GrantedIff(w.files, w.rows, run, q);
      if Removable(w.files, w.rows, run, q) { ClaimedIff(w, run, ks, q); }
    }
  }

  /** Refused or unconfirmed, a purge changes nothing. */
  lemma {:induction false} PurgeRefuses(w: World, p: PurgeCall)
    requires p.run !in w.runs || w.runs[p.run] != p.medium || p.run !in w.stages || !p.confirmed
    ensures Purge(w, p) == w
  {
  }

  /** The hashes of the staged list are absent or those the files have. */
  ghost predicate AbsentOrTrue(files: Files, ks: seq<Candidate>) {
    forall k :: k in ks && k.path in files && k.sha.Some? ==> k.sha.value == Sha256(files[k.path])
  }

  /** With such a list the claim is about the present bytes, recorded or not. */
  lemma {:induction false} TrueClaims(files: Files, rows: Rows, ks: seq<Candidate>, q: Path)
    requires q in files && AbsentOrTrue(files, ks)
    ensures Claimed(files, rows, ks, q) <==>
      (exists k :: k in ks && k.path == q) && WitnessStands(files, rows, Sha256(files[q]))
  {
  }

  /** Then a full purge takes exactly the staged files whose newest request names their present bytes, whose bytes are
      witnessed at another path, and whose newest witness is on disk with them. */
  lemma {:induction false} PurgeOfTrueHashes(w: World, p: PurgeCall)
    requires p.run in w.runs && w.runs[p.run] == p.medium && p.run in w.stages && p.confirmed
    requires p.removals >= |w.stages[p.run]| && AbsentOrTrue(w.files, w.stages[p.run])
    ensures Purge(w, p).files == w.files - (set q | q in w.files && (exists k :: k in w.stages[p.run] && k.path == q) &&
      WitnessStands(w.files, w.rows, Sha256(w.files[q])) && Granted(w.files, w.rows, p.run, q))
  {
    PurgeTakesExactly(w, p);
    forall q | q in w.files
      ensures Claimed(w.files, w.rows, w.stages[p.run], q) <==>
        (exists k :: k in w.stages[p.run] && k.path == q) && WitnessStands(w.files, w.rows, Sha256(w.files[q]))
    {
      TrueClaims(w.files, w.rows, w.stages[p.run], q);
    }
    assert (set q | q in w.files && Claimed(w.files, w.rows, w.stages[p.run], q) &&
                    Granted(w.files, w.rows, p.run, q)) ==
      (set q | q in w.files && (exists k :: k in w.stages[p.run] && k.path == q) &&
               WitnessStands(w.files, w.rows, Sha256(w.files[q])) && Granted(w.files, w.rows, p.run, q));
  }

  // ---- the table after a purge ----

  /** The newest request about one of these files. */
  ghost predicate Marked(rows: Rows, run: RunId, gone: set<Path>, i: nat) {
    exists q :: q in gone && NewestRequest(rows, run, q, i)
  }

  lemma {:induction false} DoneKeepsRequest(rows: Rows, id: nat, run: RunId, q: Path)
    requires id < |rows| && rows[id].src != Some(q)
    ensures PendingDelete(rows[id := rows[id].(status := Done)], run, q) == PendingDelete(rows, run, q)
  {
    var rows' := rows[id := rows[id].(status := Done)];
    assert forall i :: 0 <= i < |rows| ==> (IsPendingDelete(rows'[i], run, q) <==> IsPendingDelete(rows[i], run, q));
  }

  /** After removals the marked rows are done, and every other row and request is as it was. */
  ghost predicate MarkedAway(w: World, rows: Rows, run: RunId, gone: set<Path>) {
    && |rows| == |w.rows|
    && (forall i: nat :: i < |rows| ==>
          rows[i] == if Marked(w.rows, run, gone, i) then w.rows[i].(status := Done) else w.rows[i])
    && (forall q :: q !in gone ==> PendingDelete(rows, run, q) == PendingDelete(w.rows, run, q))
  }

  lemma {:induction false} MarkOne(w: World, w1: World, run: RunId, gone: set<Path>, last: Path)
    requires MarkedAway(w, w1.rows, run, gone) && last !in gone && Removable(w1.files, w1.rows, run, last)
    ensures MarkedAway(w, RemoveOne(w1, run, last).rows, run, gone + {last})
  {
    var id := AuthorisedDelete(w1.rows, true, run, last).value;
    var rows := RemoveOne(w1, run, last).rows;
    RequestIff(w.rows, run, last, id);
    forall q | q !in gone + {last} ensures PendingDelete(rows, run, q) == PendingDelete(w.rows, run, q) {
      DoneKeepsRequest(w1.rows, id, run, q);
    }
    forall i: nat | i < |rows|
      ensures rows[i] == if Marked(w.rows, run, gone + {last}, i) then w.rows[i].(status := Done) else w.rows[i]
    {
      MarkedSplits(w.rows, run, gone, last, id, i);
    }
  }

  lemma {:induction false} MarkedSplits(rows: Rows, run: RunId, gone: set<Path>, last: Path, id: nat, i: nat)
    requires NewestRequest(rows, run, last, id)
    ensures Marked(rows, run, gone + {last}, i) <==> Marked(rows, run, gone, i) || i == id
  {
    RequestIff(rows, run, last, id);
    RequestIff(rows, run, last, i);
  }

  function Going(w: World, run: RunId, paths: seq<Path>): set<Path> {
    set q | q in paths && Removable(w.files, w.rows, run, q)
  }

  lemma {:induction false} GoingSplits(w: World, run: RunId, init: seq<Path>, last: Path)
    ensures Going(w, run, init + [last]) ==
      Going(w, run, init) + if Removable(w.files, w.rows, run, last) then {last} else {}
  {
  }

  lemma {:induction false} StillGoing(w: World, run: RunId, init: seq<Path>, last: Path)
    ensures var w1 := RemoveAll(w, run, init);
      Removable(w1.files, w1.rows, run, last) <==> last !in init && Removable(w.files, w.rows, run, last)
  {
    RemoveAllClosed(w, run, init);
  }

  lemma {:induction false} RemoveAllMarks(w: World, run: RunId, paths: seq<Path>)
    ensures MarkedAway(w, RemoveAll(w, run, paths).rows, run, Going(w, run, paths))
  {
    if paths != [] {
      var init, last := paths[..|paths| - 1], paths[|paths| - 1];
      assert paths == init + [last];
      RemoveAllMarks(w, run, init);
      GoingSplits(w, run, init, last);
      StillGoing(w, run, init, last);
      var w1 := RemoveAll(w, run, init);
      if Removable(w1.files, w1.rows, run, last) {
        MarkOne(w, w1, run, Going(w, run, init), last);
      } else {
        assert Going(w, run, paths) == Going(w, run, init);
      }
    }
  }

  /** A full purge marks exactly the newest request of every file it removes, and leaves all other rows. */
  lemma {:induction false} PurgeMarksExactly(w: World, p: PurgeCall)
    requires p.run in w.runs && w.runs[p.run] == p.medium && p.run in w.stages && p.confirmed
    requires p.removals >= |w.stages[p.run]|
    ensures var w' := Purge(w, p);
      |w'.rows| == |w.rows| && forall i: nat :: i < |w.rows| ==>
        w'.rows[i] == if exists q :: q in w.files && q !in w'.files && NewestRequest(w.rows, p.run, q, i)
                      then w.rows[i].(status := Done) else w.rows[i]
  {
    var w', allowed := Purge(w, p), AllowedPaths(w, p.run, w.stages[p.run]);
    AllowedPathsMeans(w, p.run, w.stages[p.run], []);
    assert allowed[..Min(p.removals, |allowed|)] == allowed;
    RemoveAllMarks(w, p.run, allowed);
    RemoveAllClosed(w, p.run, allowed);
    var gone := Going(w, p.run, allowed);
    forall q ensures q in gone <==> q in w.files && q !in w'.files { }
    forall i: nat | i < |w.rows|
      ensures Marked(w.rows, p.run, gone, i) <==>
        exists q :: q in w.files && q !in w'.files && NewestRequest(w.rows, p.run, q, i)
    {
    }
  }

  // ---- a merge cut short while it authorises ----

  /** Everything is copied, and the call ends after the rows of the first few candidates: the stage is not rewritten. */
  ghost predicate EndsEarly(kept: set<Path>, w: World, m: MergeCall, plan: seq<PlanRow>) {
    && GoesThrough(kept, w, m.(proofs := |plan|), plan)
    && m.proofs < |Candidates(Placed(plan), plan)| && !m.halfProof
  }

  lemma {:induction false} EarlyWorlds(w: World, m: MergeCall, plan: seq<PlanRow>) returns (q: Progress)
    requires MergePlan(m.config, m.walks, w.files) == Some(plan)
    requires m.config.apply && m.enoughSpace && m.copies >= |plan|
    requires m.proofs < |Candidates(Placed(plan), plan)| && !m.halfProof
    ensures q == ApplyRows(m.config.run, CompletedPaths(w.rows, m.config.run), m.ios, Progress(w.files, w.rows, []),
      plan)
    ensures var w', run, staged := Merge(w, m), m.config.run, Candidates(Placed(plan), plan);
      && w'.files == q.files && w'.rows == q.rows + AuthoriseRows(run, q.files, staged[..m.proofs])
      && run in w'.stages && w'.stages[run] == staged
      && w'.runs == Register(w, run, m.config.medium).runs
  {
    MergeCases(w, m);
    var w0 := Register(w, m.config.run, m.config.medium);
    var staged := Candidates(Placed(plan), plan);
    var w1 := w0.(stages := w0.stages[m.config.run := staged]);
    R.CarryAll(w1, m, plan);
    q := Carry(w1, m, plan);
    var more := AuthoriseRows(m.config.run, q.files, staged[..m.proofs]);
    assert q.rows + more + [] == q.rows + more;
  }

  lemma {:induction false} EarlySettles(kept: set<Path>, w: World, m: MergeCall, plan: seq<PlanRow>)
    returns (copies: Rows)
    requires EndsEarly(kept, w, m, plan)
    ensures var w', staged := Merge(w, m), Candidates(Placed(plan), plan);
      && Settled(m.config.run, w'.files, w.rows, copies, staged[..m.proofs], w'.rows)
      && m.config.run in w'.stages && w'.stages[m.config.run] == staged
      && w'.runs == Register(w, m.config.run, m.config.medium).runs
  {
    var full, staged := m.(proofs := |plan|), Candidates(Placed(plan), plan);
    CandidatesOfRows(Placed(plan), plan);
    var p := ThroughWorlds(w, full, plan);
    var q := EarlyWorlds(w, m, plan);
    TargetsAreNew(kept, w.files, m, plan);
    copies := CopiesOfPlan(m.config.run, CompletedPaths(w.rows, m.config.run), m.ios, Progress(w.files, w.rows, []),
                           plan);
    AllProve(kept, w, full, plan);
    CopiesAreTrue(w.files, q.files, plan, copies);
    forall k | k in staged[..m.proofs] ensures Proves(q.files, k) { assert k in staged; }
  }

  lemma {:induction false} CopiesAreTrue(start: Files, files: Files, plan: seq<PlanRow>, copies: Rows)
    requires CopyProofs(start, files, plan, copies)
    ensures forall r :: r in copies ==> r.op == Copy && TrueProof(files, r)
  {
  }

  lemma {:induction false} CandidatesUnhashed(placed: map<Path, Path>, rows: seq<PlanRow>)
    requires forall i :: 0 <= i < |rows| ==> rows[i].sha.None?
    ensures forall k :: k in Candidates(placed, rows) ==> k.sha.None?
  {
    if rows != [] {
      var init := rows[..|rows| - 1];
      forall i | 0 <= i < |init| ensures init[i].sha.None? { assert init[i] == rows[i]; }
      CandidatesUnhashed(placed, init);
    }
  }

  /** The first few staged files whose bytes are witnessed at another path. */
  ghost function WitnessedFirst(files: Files, rows: Rows, ks: seq<Candidate>): set<Path> {
    set k | k in ks && k.path in files && WitnessedElsewhere(rows, Sha256(files[k.path]), k.path) :: k.path
  }

  /** A file of such a stage may go exactly when it is one of those. */
  lemma {:induction false} EarlyCheck(w: World, run: RunId, before: Rows, copies: Rows, staged: seq<Candidate>, n: nat,
                                      q: Path)
    requires n <= |staged| && Settled(run, w.files, before, copies, staged[..n], w.rows) && q in w.files
    requires forall row :: row in before ==> !(row.op == Delete && row.run == run)
    ensures (exists k :: k in staged && k.path == q) && WitnessStands(w.files, w.rows, Sha256(w.files[q])) &&
            Granted(w.files, w.rows, run, q) <==>
            q in WitnessedFirst(w.files, w.rows, staged[..n])
  {
    if q in WitnessedFirst(w.files, w.rows, staged[..n]) {
      var k :| k in staged[..n] && k.path == q;
      ElsewhereIff(w.rows, Sha256(w.files[q]), q);
      AuthorityIsElsewhere(run, w.files, before, copies, staged[..n], w.rows, k);
      GrantedIff(w.files, w.rows, run, q);
      SurvivorChecksOut(run, w.files, before, copies, staged[..n], w.rows, k);
      WitnessIff(w.files, w.rows, Sha256(w.files[q]));
    } else if Granted(w.files, w.rows, run, q) {
      RequestIsEarly(run, w.files, before, copies, staged[..n], w.rows, q);
    }
  }

  lemma {:induction false} RequestIsEarly(run: RunId, files: Files, before: Rows, copies: Rows, ks: seq<Candidate>,
                                          rows: Rows, q: Path)
    requires Settled(run, files, before, copies, ks, rows) && q in files && Granted(files, rows, run, q)
    requires forall row :: row in before ==> !(row.op == Delete && row.run == run)
    ensures q in WitnessedFirst(files, rows, ks)
  {
    var more := AuthoriseRows(run, files, ks);
    forall i | 0 <= i < |before| + |copies| ensures !Requests(rows[i], run, q) {
      if i < |before| {
        assert rows[i] == before[i] && before[i] in before;
      } else {
        assert rows[i] == copies[i - |before|] && copies[i - |before|] in copies;
      }
    }
    var i: nat :| NewestRequest(rows, run, q, i);
    assert rows[i] == more[i - |before| - |copies|] && rows[i] in more;
    AuthorisedBy(run, files, ks, rows[i]);
    var k :| k in ks && rows[i] in ProofRows(run, files, k);
    assert k.path == q;
  }

  lemma {:induction false} PurgeEarly(w: World, p: PurgeCall, before: Rows, copies: Rows, staged: seq<Candidate>,
                                      n: nat)
    requires n <= |staged| && Settled(p.run, w.files, before, copies, staged[..n], w.rows)
    requires forall row :: row in before ==> !(row.op == Delete && row.run == p.run)
    requires p.run in w.runs && w.runs[p.run] == p.medium && p.run in w.stages && p.confirmed
    requires w.stages[p.run] == staged && p.removals >= |staged| && forall k :: k in staged ==> k.sha == None
    ensures Purge(w, p).files == w.files - WitnessedFirst(w.files, w.rows, staged[..n])
  {
    PurgeOfTrueHashes(w, p);
    forall q | q in w.files
      ensures (exists k :: k in staged && k.path == q) && WitnessStands(w.files, w.rows, Sha256(w.files[q])) &&
              Granted(w.files, w.rows, p.run, q) <==>
              q in WitnessedFirst(w.files, w.rows, staged[..n])
    {
      EarlyCheck(w, p.run, before, copies, staged, n, q);
    }
  }

  /** A merge that copied everything and stopped while it authorised, for a run that had requested nothing before, and
      then its confirmed purge: of the staged files, none of which has a recorded hash, exactly those reached go whose
      bytes are witnessed at another path. */
  lemma {:induction false} InterruptedThenPurged(kept: set<Path>, w: World, m: MergeCall, plan: seq<PlanRow>,
                                                 p: PurgeCall)
    requires EndsEarly(kept, w, m, plan)
    requires forall row :: row in w.rows ==> !(row.op == Delete && row.run == m.config.run)
    requires p.run == m.config.run && p.confirmed && p.removals >= |plan|
    requires (p.run in w.runs ==> w.runs[p.run] == p.medium) && (p.run !in w.runs ==> p.medium == m.config.medium)
    ensures var w', staged := Merge(w, m), Candidates(Placed(plan), plan);
      && (forall k :: k in w'.stages[p.run] ==> k.sha == None)
      && Purge(w', p).files == w'.files - WitnessedFirst(w'.files, w'.rows, staged[..m.proofs])
  {
    var w', staged := Merge(w, m), Candidates(Placed(plan), plan);
    var copies := EarlySettles(kept, w, m, plan);
    StageIsUnhashed(kept, w, m, plan);
    PurgeEarly(w', p, w.rows, copies, staged, m.proofs);
  }

  lemma {:induction false} StageIsUnhashed(kept: set<Path>, w: World, m: MergeCall, plan: seq<PlanRow>)
    requires EndsEarly(kept, w, m, plan)
    ensures var staged := Candidates(Placed(plan), plan);
      |staged| <= |plan| && forall k :: k in staged ==> k.sha == None
  {
    TargetsAreNew(kept, w.files, m, plan);
    forall i | 0 <= i < |plan| ensures plan[i].sha.None? { assert NewTarget(w.files, plan[i]); }
    CandidatesUnhashed(Placed(plan), plan);
    CandidatesOfRows(Placed(plan), plan);
  }

  /** Those with a survivor elsewhere are among them. */
  lemma {:induction false} ReachedAreWitnessed(run: RunId, files: Files, before: Rows, copies: Rows,
                                               ks: seq<Candidate>, rows: Rows, k: Candidate)
    requires Settled(run, files, before, copies, ks, rows) && k in ks && k.survivor != k.path
    ensures k.path in WitnessedFirst(files, rows, ks)
  {
    ElsewhereSurvives(run, files, before, copies, ks, rows, k, k.path);
    ElsewhereIff(rows, Sha256(files[k.path]), k.path);
  }
}
