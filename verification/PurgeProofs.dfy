/** Purges in closed form: what goes, in any order, once. */
module PurgeProofs {
  import opened Basics
  import opened Paths
  import opened Fsx
  import opened Ledger
  import opened Planning
  import opened Worlds
  import opened Histories

  // ---- marking one row done leaves every other file's authority alone ----

  lemma {:induction false} DoneKeepsAuthority(rows: Rows, id: nat, run: RunId, path: Path)
    requires id < |rows| && rows[id].op == Delete && rows[id].src != Some(path)
    ensures var rows' := rows[id := rows[id].(status := Done)];
      && AuthorisedDelete(rows', true, run, path) == AuthorisedDelete(rows, true, run, path)
      && (AuthorisedDelete(rows, true, run, path).Some? ==> AuthorisedDelete(rows, true, run, path).value != id)
  {
    var rows' := rows[id := rows[id].(status := Done)];
    assert PendingDelete(rows', run, path) == PendingDelete(rows, run, path) by {
      assert forall i :: 0 <= i < |rows| ==>
        (IsPendingDelete(rows'[i], run, path) <==> IsPendingDelete(rows[i], run, path));
    }
    forall sha ensures SurvivesElsewhere(rows', sha, path) <==> SurvivesElsewhere(rows, sha, path) {
      forall i | 0 <= i < |rows| ensures IsProof(rows'[i], sha) <==> IsProof(rows[i], sha) { }
      if SurvivesElsewhere(rows, sha, path) {
        var i :| 0 <= i < |rows| && IsProof(rows[i], sha) && rows[i].dst != Some(path);
        assert IsProof(rows'[i], sha) && rows'[i].dst != Some(path);
      }
    }
  }

  /** After removing some of `paths`, exactly the others are as removable as before. */
  lemma {:induction false} RemoveAllClosed(w: World, run: RunId, paths: seq<Path>)
    ensures var w' := RemoveAll(w, run, paths);
      && w'.files == w.files - (set p | p in paths && Removable(w.files, w.rows, run, p))
      && forall q :: Removable(w'.files, w'.rows, run, q) <==> q !in paths && Removable(w.files, w.rows, run, q)
  {
    if paths != [] {
      var init, last := paths[..|paths| - 1], paths[|paths| - 1];
      RemoveAllClosed(w, run, init);
      var w1 := RemoveAll(w, run, init);
      var w2 := RemoveOne(w1, run, last);
      assert paths == init + [last];
      if Removable(w1.files, w1.rows, run, last) {
        var id := AuthorisedDelete(w1.rows, true, run, last).value;
        forall q | q != last
          ensures Removable(w2.files, w2.rows, run, q) <==> Removable(w1.files, w1.rows, run, q)
        {
          DoneKeepsAuthority(w1.rows, id, run, q);
        }
      }
    }
  }

  ghost predicate Staged(w: World, run: RunId, ks: seq<Candidate>, path: Path) {
    exists k :: k in ks && k.path == path && Allowed(w, run, k)
  }

  lemma {:induction false} AllowedPathsMeans(w: World, run: RunId, ks: seq<Candidate>, path: Path)
    ensures path in AllowedPaths(w, run, ks) <==> Staged(w, run, ks, path)
    ensures |AllowedPaths(w, run, ks)| <= |ks|
  {
    if ks != [] {
      var init, last := ks[..|ks| - 1], ks[|ks| - 1];
      AllowedPathsMeans(w, run, init, path);
      StagedSplits(w, run, init, last, path);
      assert ks == init + [last];
    }
  }

  lemma {:induction false} StagedSplits(w: World, run: RunId, init: seq<Candidate>, last: Candidate, path: Path)
    ensures Staged(w, run, init + [last], path) <==>
      Staged(w, run, init, path) || (last.path == path && Allowed(w, run, last))
  {
    assert forall k :: k in init + [last] <==> k in init || k == last;
  }

  ghost predicate Runs(w: World, p: PurgeCall) {
    p.run in w.runs && w.runs[p.run] == p.medium && p.run in w.stages && p.confirmed
  }

  /** A purge that is confirmed and not interrupted removes exactly the staged files whose
      candidate passes re-verification and whose row names their present bytes. */
  lemma {:induction false} PurgeRemovesExactly(w: World, p: PurgeCall)
    requires Runs(w, p) && p.removals >= |w.stages[p.run]|
    ensures Purge(w, p).files == w.files -
      (set q | q in w.files && Staged(w, p.run, w.stages[p.run], q) && Removable(w.files, w.rows, p.run, q))
  {
    var ks := w.stages[p.run];
    var allowed := AllowedPaths(w, p.run, ks);
    forall q ensures q in allowed <==> Staged(w, p.run, ks, q) { AllowedPathsMeans(w, p.run, ks, q); }
    AllowedPathsMeans(w, p.run, ks, []);
    assert allowed[..Min(p.removals, |allowed|)] == allowed;
    RemoveAllClosed(w, p.run, allowed);
    assert (set q | q in allowed && Removable(w.files, w.rows, p.run, q)) ==
      (set q | q in w.files && Staged(w, p.run, ks, q) && Removable(w.files, w.rows, p.run, q));
  }

  /** The order of the staged list does not matter. */
  lemma {:induction false} PurgeOrderIrrelevant(w: World, p: PurgeCall, ks: seq<Candidate>)
    requires Runs(w, p) && (forall k :: k in ks <==> k in w.stages[p.run])
    requires p.removals >= |ks| && p.removals >= |w.stages[p.run]|
    ensures Purge(w.(stages := w.stages[p.run := ks]), p).files == Purge(w, p).files
  {
    var v := w.(stages := w.stages[p.run := ks]);
    PurgeRemovesExactly(w, p);
    PurgeRemovesExactly(v, p);
    forall q ensures Staged(w, p.run, w.stages[p.run], q) <==> Staged(v, p.run, ks, q) {
      StagedOnlyReads(w, v, p.run, w.stages[p.run], ks, q);
      StagedOnlyReads(v, w, p.run, ks, w.stages[p.run], q);
    }
  }

  /** Being staged depends on disk, table and the set of candidates. */
  lemma {:induction false} StagedOnlyReads(w: World, v: World, run: RunId, ks: seq<Candidate>, ls: seq<Candidate>,
                                           q: Path)
    requires w.files == v.files && w.rows == v.rows && (forall k :: k in ks ==> k in ls)
    ensures Staged(w, run, ks, q) ==> Staged(v, run, ls, q)
  {
    if Staged(w, run, ks, q) {
      var k :| k in ks && k.path == q && Allowed(w, run, k);
      assert k in ls && Allowed(v, run, k);
    }
  }

  lemma {:induction false} FindCopySame(rows: Rows, rows': Rows, sha: Digest)
    requires |rows| == |rows'|
    requires forall i :: 0 <= i < |rows| ==>
      rows'[i] == rows[i] || (rows[i].op == Delete && rows'[i] == rows[i].(status := Done))
    ensures FindCopy(rows', sha) == FindCopy(rows, sha)
  {
    if rows != [] { FindCopySame(rows[..|rows| - 1], rows'[..|rows| - 1], sha); }
  }

  /** Re-verification only ever gets stricter as a purge proceeds. */
  lemma {:induction false} AllowedBefore(w: World, w': World, run: RunId, k: Candidate)
    requires PurgeEffect(run, w, w') && Allowed(w', run, k) && AuthorisedDelete(w.rows, true, run, k.path).Some?
    ensures Allowed(w, run, k)
  {
    var sha := if k.sha.Some? then k.sha.value else Sha256(w'.files[k.path]);
    FindCopySame(w.rows, w'.rows, sha);
  }

  /** What is still there after a purge is not removable by repeating it. */
  lemma {:induction false} NotRemovableAgain(w: World, p: PurgeCall, q: Path)
    requires Runs(w, p) && p.removals >= |w.stages[p.run]|
    requires q in Purge(w, p).files && Staged(Purge(w, p), p.run, w.stages[p.run], q)
    ensures !Removable(Purge(w, p).files, Purge(w, p).rows, p.run, q)
  {
    var w' := Purge(w, p);
    if Removable(w'.files, w'.rows, p.run, q) {
      PurgeHasEffect(w, p);
      PurgeRemovesExactly(w, p);
      RemovableBefore(w, p, q);
      StagedBefore(w, w', p.run, w.stages[p.run], q);
    }
  }

  lemma {:induction false} StagedBefore(w: World, w': World, run: RunId, ks: seq<Candidate>, q: Path)
    requires PurgeEffect(run, w, w') && Staged(w', run, ks, q) && AuthorisedDelete(w.rows, true, run, q).Some?
    ensures Staged(w, run, ks, q)
  {
    var k :| k in ks && k.path == q && Allowed(w', run, k);
    AllowedBefore(w, w', run, k);
  }

  /** Purging again removes nothing. */
  lemma {:induction false} PurgeTwiceRemovesNothing(w: World, p: PurgeCall)
    requires Runs(w, p) && p.removals >= |w.stages[p.run]|
    ensures Purge(Purge(w, p), p).files == Purge(w, p).files
  {
    var w' := Purge(w, p);
    PurgeHasEffect(w, p);
    PurgeRemovesExactly(w', p);
    forall q | q in w'.files && Staged(w', p.run, w.stages[p.run], q)
      ensures !Removable(w'.files, w'.rows, p.run, q)
    {
      NotRemovableAgain(w, p, q);
    }
  }

  lemma {:induction false} RemovableBefore(w: World, p: PurgeCall, q: Path)
    requires Runs(w, p) && Removable(Purge(w, p).files, Purge(w, p).rows, p.run, q)
    ensures Removable(w.files, w.rows, p.run, q)
  {
    var allowed := AllowedPaths(w, p.run, w.stages[p.run]);
    RemoveAllClosed(w, p.run, allowed[..Min(p.removals, |allowed|)]);
  }

  // ---- planning alone never deletes ----

  ghost predicate OnlyPlans(es: seq<Event>) {
    forall i :: 0 <= i < |es| && es[i].MergeEvent? ==> !es[i].m.config.apply
  }

  lemma {:induction false} NothingRequestedNothingRemoved(w: World, p: PurgeCall)
    requires forall row :: row in w.rows ==> row.op != Delete
    ensures Purge(w, p).files == w.files && Purge(w, p).rows == w.rows
  {
    PurgeHasEffect(w, p);
    var w' := Purge(w, p);
    forall i | 0 <= i < |w.rows| ensures w.rows[i].op != Delete && w'.rows[i] == w.rows[i] {
      assert w.rows[i] in w.rows;
    }
    assert w'.rows == w.rows;
  }

  /** A history without an applied merge leaves every file alone, whatever is purged or edited. */
  lemma {:induction false} PlansNeverRemove(w: World, es: seq<Event>)
    requires OnlyPlans(es) && forall row :: row in w.rows ==> row.op != Delete
    ensures Run(w, es).files == w.files && Run(w, es).rows == w.rows
  {
    if es != [] {
      PlansNeverRemove(w, es[..|es| - 1]);
      PlanStepKeeps(Run(w, es[..|es| - 1]), es[|es| - 1]);
    }
  }

  lemma {:induction false} PlanStepKeeps(w: World, e: Event)
    requires forall row :: row in w.rows ==> row.op != Delete
    requires e.MergeEvent? ==> !e.m.config.apply
    ensures Step(w, e).files == w.files && Step(w, e).rows == w.rows
  {
    match e
    case PurgeEvent(p) => NothingRequestedNothingRemoved(w, p);
    case MergeEvent(m) => MergeCases(w, m);
    case EditEvent(_, _) =>
  }
}
