/** Which purges lose content when the roots are not kept apart: the exact condition, and a history that does. */
module Losses {
  import opened Basics
  import opened Paths
  import opened Fsx
  import opened Ledger
  import opened Planning
  import opened PlanProofs
  import opened Worlds
  import opened Histories
  import opened PurgeProofs

  // ---- any purge, interrupted or not, in closed form ----

  /** The allowed paths a purge gets to; the row of the last may be missing. */
  function ReachedPaths(w: World, p: PurgeCall): seq<Path>
    requires p.run in w.stages
  {
    var allowed := AllowedPaths(w, p.run, w.stages[p.run]);
    var n := Min(p.removals, |allowed|);
    allowed[..if p.halfRemoval && n < |allowed| then n + 1 else n]
  }

  /** The files a purge takes, read off the world before it. */
  ghost function Taken(w: World, p: PurgeCall): set<Path> {
    if Runs(w, p) then set q | q in ReachedPaths(w, p) && Removable(w.files, w.rows, p.run, q) else {}
  }

  lemma {:induction false} SomeRemoved(w: World, run: RunId, allowed: seq<Path>, n: nat, half: bool)
    requires n <= |allowed|
    ensures var reached := allowed[..if half && n < |allowed| then n + 1 else n];
      RemoveSome(w, run, allowed, n, half).files ==
        w.files - (set q | q in reached && Removable(w.files, w.rows, run, q))
  {
    RemoveAllClosed(w, run, allowed[..n]);
    if half && n < |allowed| {
      assert allowed[..n + 1] == allowed[..n] + [allowed[n]];
    }
  }

  /** Wherever a purge stops, it has taken exactly the removable ones of the paths it reached. */
  lemma {:induction false} PurgeTakes(w: World, p: PurgeCall)
    ensures Purge(w, p).files == w.files - Taken(w, p)
  {
    if Runs(w, p) {
      var allowed := AllowedPaths(w, p.run, w.stages[p.run]);
      SomeRemoved(w, p.run, allowed, Min(p.removals, |allowed|), p.halfRemoval);
    }
  }

  lemma {:induction false} NoneRemoved(w: World, run: RunId, paths: seq<Path>)
    requires forall p :: p in paths ==> !Removable(w.files, w.rows, run, p)
    ensures RemoveAll(w, run, paths) == w
  {
    if paths != [] { NoneRemoved(w, run, paths[..|paths| - 1]); }
  }

  /** A purge changes anything, disk or table, exactly when it is confirmed for a registered and staged run and
      reaches a removable file. */
  lemma {:induction false} PurgeActsIff(w: World, p: PurgeCall)
    ensures Purge(w, p) != w <==> Taken(w, p) != {}
    ensures Taken(w, p) != {} ==> Runs(w, p)
    ensures forall q :: q in Taken(w, p) ==>
      Staged(w, p.run, w.stages[p.run], q) && Removable(w.files, w.rows, p.run, q)
  {
    PurgeTakes(w, p);
    if Runs(w, p) {
      var allowed := AllowedPaths(w, p.run, w.stages[p.run]);
      var n := Min(p.removals, |allowed|);
      forall q | q in Taken(w, p) ensures Staged(w, p.run, w.stages[p.run], q) {
        assert q in allowed;
        AllowedPathsMeans(w, p.run, w.stages[p.run], q);
      }
      if Taken(w, p) == {} { NothingTaken(w, p, allowed, n); } else { TakenIsGone(w, p); }
    }
  }

  lemma {:induction false} NothingTaken(w: World, p: PurgeCall, allowed: seq<Path>, n: nat)
    requires Runs(w, p) && Taken(w, p) == {}
    requires allowed == AllowedPaths(w, p.run, w.stages[p.run]) && n == Min(p.removals, |allowed|)
    ensures RemoveSome(w, p.run, allowed, n, p.halfRemoval) == w
  {
    var reached := ReachedPaths(w, p);
    forall q | q in reached ensures !Removable(w.files, w.rows, p.run, q) { assert q !in Taken(w, p); }
    forall q | q in allowed[..n] ensures q in reached {
      var i :| 0 <= i < n && allowed[i] == q;
      assert reached[i] == q;
    }
    NoneRemoved(w, p.run, allowed[..n]);
    if p.halfRemoval && n < |allowed| { assert reached[n] == allowed[n]; }
  }

  lemma {:induction false} TakenIsGone(w: World, p: PurgeCall)
    requires Taken(w, p) != {}
    ensures Purge(w, p) != w
  {
    PurgeTakes(w, p);
    var q :| q in Taken(w, p);
    assert q in w.files && q !in Purge(w, p).files;
  }

  // ---- when one purge loses nothing ----

  /** The newest proof of a file's present bytes is another file, which holds them. */
  predicate Vouched(w: World, q: Path)
    requires q in w.files
  {
    var proof := FindCopy(w.rows, Sha256(w.files[q]));
    proof.Some? && proof.value != q && proof.value in w.files && w.files[proof.value] == w.files[q]
  }

  /** A file outside the set holds the same bytes. */
  ghost predicate Spared(files: Files, taken: set<Path>, q: Path)
    requires q in files
  {
    exists r :: r in files && r !in taken && files[r] == files[q]
  }

  /** Only files whose newest proof is no other file need a second look. */
  ghost predicate Cautious(w: World, p: PurgeCall) {
    forall q :: q in Taken(w, p) && q in w.files && !Vouched(w, q) ==> Spared(w.files, Taken(w, p), q)
  }

  /** A vouched file is spared, because its proof is not vouched by another. */
  lemma {:induction false} VouchedIsSpared(w: World, p: PurgeCall, q: Path)
    requires Cautious(w, p) && q in w.files && Vouched(w, q)
    ensures Spared(w.files, Taken(w, p), q)
  {
    var proof := FindCopy(w.rows, Sha256(w.files[q])).value;
    if proof in Taken(w, p) {
      assert !Vouched(w, proof);
      var r :| r in w.files && r !in Taken(w, p) && w.files[r] == w.files[proof];
    }
  }

  lemma {:induction false} LostIsMissing(before: Files, after: Files)
    ensures NothingLost(before, after) <==> before.Values <= after.Values
  {
    if before.Values <= after.Values {
      forall p | p in before ensures exists q :: q in after && after[q] == before[p] {
        assert before[p] in before.Values;
      }
    }
    if NothingLost(before, after) {
      forall b | b in before.Values ensures b in after.Values {
        var p :| p in before && before[p] == b;
        var q :| q in after && after[q] == before[p];
      }
    }
  }

  lemma {:induction false} SparedIsKept(files: Files, taken: set<Path>, q: Path)
    requires q in files
    ensures Spared(files, taken, q) <==> files[q] in (files - taken).Values
    ensures q !in taken ==> files[q] in (files - taken).Values
  {
    var after := files - taken;
    if Spared(files, taken, q) {
      var r :| r in files && r !in taken && files[r] == files[q];
      assert r in after && after[r] == files[q];
    }
    if q !in taken { assert q in after && after[q] == files[q]; }
  }

  lemma {:induction false} RemovalLosesNothingIff(files: Files, taken: set<Path>)
    ensures NothingLost(files, files - taken) <==> forall q :: q in taken && q in files ==> Spared(files, taken, q)
  {
    LostIsMissing(files, files - taken);
    forall q | q in files
      ensures Spared(files, taken, q) <==> files[q] in (files - taken).Values
      ensures q !in taken ==> files[q] in (files - taken).Values
    {
      SparedIsKept(files, taken, q);
    }
  }

  /** A purge, on any table and disk, loses nothing exactly when every file it takes whose newest proof is not
      another file has a holder of its bytes that stays. */
  lemma {:induction false} PurgeLosesNothingIff(w: World, p: PurgeCall)
    ensures NothingLost(w.files, Purge(w, p).files) <==> Cautious(w, p)
  {
    PurgeTakes(w, p);
    RemovalLosesNothingIff(w.files, Taken(w, p));
    if Cautious(w, p) {
      forall q | q in Taken(w, p) && q in w.files ensures Spared(w.files, Taken(w, p), q) {
        if Vouched(w, q) { VouchedIsSpared(w, p, q); }
      }
    }
  }

  /** The hashes in a staged list are those of the files. */
  ghost predicate TrueStage(w: World, p: PurgeCall) {
    p.run in w.stages ==> forall k :: k in w.stages[p.run] && k.path in w.files && k.sha.Some? ==>
      k.sha.value == Sha256(w.files[k.path])
  }

  /** With true hashes, the one thing the checks of a purge leave open is that the newest proof is the file itself. */
  lemma {:induction false} OnlySelfIsDoubtful(w: World, p: PurgeCall, q: Path)
    requires TrueStage(w, p) && q in Taken(w, p)
    ensures q in w.files
    ensures Vouched(w, q) <==> FindCopy(w.rows, Sha256(w.files[q])) != Some(q)
  {
    var allowed := AllowedPaths(w, p.run, w.stages[p.run]);
    assert q in allowed;
    AllowedPathsMeans(w, p.run, w.stages[p.run], q);
    var k :| k in w.stages[p.run] && k.path == q && Allowed(w, p.run, k);
  }

  /** The check `cmd_purge` lacks: refuse a file that is the newest proof of its own bytes. With it, and true
      hashes, no purge of any table on any disk loses content. */
  lemma {:induction false} GuardIsEnough(w: World, p: PurgeCall)
    requires TrueStage(w, p)
    requires forall q :: q in Taken(w, p) && q in w.files ==> FindCopy(w.rows, Sha256(w.files[q])) != Some(q)
    ensures NothingLost(w.files, Purge(w, p).files)
  {
    forall q | q in Taken(w, p) && q in w.files ensures Vouched(w, q) { OnlySelfIsDoubtful(w, p, q); }
    PurgeLosesNothingIff(w, p);
  }

  // ---- merges with any roots ----

  /** Names stay clear of the staging prefix and the machine does not fail badly; nothing is said of the roots. */
  ghost predicate Tidy(files: Files, m: MergeCall) {
    CleanSources(m.config, files) && Orderly(m.ios)
  }

  lemma {:induction false} CopiesAreCopies(run: RunId, done: set<Path>, ios: map<Path, Io>, start: Progress,
                                           rows: seq<PlanRow>)
    ensures ApplyRows(run, done, ios, start, rows).files.Values <= start.files.Values
  {
    if rows != [] {
      var init, last := rows[..|rows| - 1], rows[|rows| - 1];
      CopiesAreCopies(run, done, ios, start, init);
      var p := ApplyRows(run, done, ios, start, init);
      if last.action.CopyTo? { assert last.Path() in p.files ==> p.files[last.Path()] in p.files.Values; }
    }
  }

  /** Files only appear, under clean names, and only as copies. */
  ghost predicate Adds(before: Files, after: Files) {
    && Grows(before, after) && after.Values <= before.Values
    && forall q :: q in after && q !in before ==> q != [] && !IsStaging(Leaf(q))
  }

  lemma {:induction false} CarryAdds(w: World, m: MergeCall, plan: seq<PlanRow>)
    requires NoStaging(w.files) && FreshTargets(m.config, w.files, plan) && NewTargets(w.files, plan)
    ensures Adds(w.files, Carry(w, m, plan).files)
  {
    var kept := {m.config.dest};
    TargetsAreGuarded(kept, m.config, w.files, plan);
    CarryEffect(kept, w, m, plan);
    CopiesAreCopies(m.config.run, CompletedPaths(w.rows, m.config.run), m.ios, Progress(w.files, w.rows, []),
                    plan[..Min(m.copies, |plan|)]);
  }

  lemma {:induction false} AfterPlanFiles(w: World, m: MergeCall, plan: seq<PlanRow>)
    ensures AfterPlan(w, m, plan).files == w.files ||
      exists v: World :: v.files == w.files && AfterPlan(w, m, plan).files == Carry(v, m, plan).files
  {
    var v := w.(stages := w.stages[m.config.run := Candidates(Placed(plan), plan)]);
    assert v.files == w.files;
    assert AfterPlan(w, m, plan).files == w.files || AfterPlan(w, m, plan).files == Carry(v, m, plan).files;
  }

  /** Whatever its roots, a merge only adds copies of contents that were there. */
  lemma {:induction false} MergeAddsCopies(w: World, m: MergeCall)
    requires NoStaging(w.files) && Tidy(w.files, m)
    ensures Adds(w.files, Merge(w, m).files)
  {
    MergeCases(w, m);
    var w0 := Register(w, m.config.run, m.config.medium);
    var plan := MergePlan(m.config, m.walks, w.files);
    if plan.Some? {
      PlanIsFresh(m.config, m.walks, w.files, plan.value);
      PlanIsNew(m.config, m.walks, w.files, plan.value);
      AfterPlanFiles(w0, m, plan.value);
      if AfterPlan(w0, m, plan.value).files != w0.files {
        var v: World :| v.files == w0.files && AfterPlan(w0, m, plan.value).files == Carry(v, m, plan.value).files;
        CarryAdds(v, m, plan.value);
      }
    }
  }

  // ---- histories with any roots ----

  ghost predicate TidyHistory(w: World, es: seq<Event>) {
    es == [] ||
    (TidyHistory(w, es[..|es| - 1]) &&
     (es[|es| - 1].MergeEvent? ==> Tidy(Run(w, es[..|es| - 1]).files, es[|es| - 1].m)))
  }

  /** Every purge of the history is cautious in the state it finds. */
  ghost predicate CautiousHistory(w: World, es: seq<Event>) {
    es == [] ||
    (CautiousHistory(w, es[..|es| - 1]) &&
     (es[|es| - 1].PurgeEvent? ==> Cautious(Run(w, es[..|es| - 1]), es[|es| - 1].p)))
  }

  lemma {:induction false} StepContents(w: World, e: Event)
    requires NoStaging(w.files) && (e.MergeEvent? ==> Tidy(w.files, e.m))
    ensures NoStaging(Step(w, e).files) && Step(w, e).files.Values <= w.files.Values
    ensures w.files.Values <= Step(w, e).files.Values <==> (e.PurgeEvent? ==> Cautious(w, e.p))
  {
    match e
    case MergeEvent(m) =>
      MergeAddsCopies(w, m);
      forall b | b in w.files.Values ensures b in Merge(w, m).files.Values {
        var p :| p in w.files && w.files[p] == b;
        assert p in Merge(w, m).files && Merge(w, m).files[p] == b;
      }
    case PurgeEvent(p) =>
      PurgeTakes(w, p);
      PurgeLosesNothingIff(w, p);
      LostIsMissing(w.files, Purge(w, p).files);
    case EditEvent(_, _) =>
  }

  lemma {:induction false} HistoryContents(w: World, es: seq<Event>)
    requires NoStaging(w.files) && TidyHistory(w, es)
    ensures NoStaging(Run(w, es).files) && Run(w, es).files.Values <= w.files.Values
    ensures w.files.Values <= Run(w, es).files.Values <==> CautiousHistory(w, es)
  {
    if es != [] {
      HistoryContents(w, es[..|es| - 1]);
      StepContents(Run(w, es[..|es| - 1]), es[|es| - 1]);
    }
  }

  /** With any roots, from any table: a history loses nothing if and only if each of its purges is cautious. */
  lemma {:induction false} HistoryLosesNothingIff(w: World, es: seq<Event>)
    requires NoStaging(w.files) && TidyHistory(w, es)
    ensures NothingLost(w.files, Run(w, es).files) <==> CautiousHistory(w, es)
  {
    HistoryContents(w, es);
    LostIsMissing(w.files, Run(w, es).files);
  }

  lemma {:induction false} LawfulIsTidy(kept: set<Path>, w: World, es: seq<Event>)
    requires LawfulHistory(kept, w, es)
    ensures TidyHistory(w, es)
  {
    if es != [] { LawfulIsTidy(kept, w, es[..|es| - 1]); }
  }

  /** Roots kept apart make every purge cautious. */
  lemma {:induction false} ApartIsCautious(kept: set<Path>, w: World, es: seq<Event>)
    requires Safe(kept, w) && LawfulHistory(kept, w, es)
    ensures CautiousHistory(w, es)
  {
    NoContentIsLost(kept, w, es);
    LawfulIsTidy(kept, w, es);
    HistoryLosesNothingIff(w, es);
  }
}
