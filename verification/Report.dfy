/** The byte accounting of a run: four overlap buckets, the actions, and relocated bytes. */
module Report {
  import opened Basics
  import opened Paths
  import opened Fsx
  import opened Ledger
  import opened Planning
  import opened PlanProofs
  import opened Worlds
  import opened Histories

  datatype Tally = Tally(files: nat, bytes: nat)

  datatype Bucket = OnDestBucket | InLibraryBucket | DupAcrossSources | NetNew

  datatype Deed = ResumeSkip | CopyFailed | CopyCopy | CopyReflink | Verified

  function Add(t: Tally, size: nat): Tally { Tally(t.files + 1, t.bytes + size) }

  /** `classify`: one bucket, in a fixed precedence. */
  function BucketOf(scopes: set<Scope>, keep: bool): Bucket {
    if OnDest in scopes then OnDestBucket
    else if InLibrary in scopes then InLibraryBucket
    else if !keep then DupAcrossSources else NetNew
  }

  function RowBucket(a: Action): Bucket {
    match a
    case AlreadyOnDest => OnDestBucket
    case AlreadyInLibrary => InLibraryBucket
    case DuplicateOf(_) => DupAcrossSources
    case CopyTo(_) => NetNew
  }

  /** The files and bytes of the rows in one bucket. */
  function InBucket(rows: seq<PlanRow>, b: Bucket): Tally {
    if rows == [] then Tally(0, 0)
    else
      var last := rows[|rows| - 1];
      var before := InBucket(rows[..|rows| - 1], b);
      if RowBucket(last.action) == b then Add(before, last.Size()) else before
  }

  // ---- what carrying out a plan did ----

  /** The deed of one copy row, and the bytes it is booked with. */
  function DeedOf(run: RunId, done: set<Path>, ios: map<Path, Io>, p: Progress, row: PlanRow): Option<(Deed, nat)> {
    match row.action
    case CopyTo(dst) =>
      if dst == [] || dst in done then Some((ResumeSkip, row.Size()))
      else
        var io := IoAt(ios, dst);
        if Succeeds(p.files, row.Path(), dst, true, None, io) then
          Some((if io.reflinked then CopyReflink else CopyCopy, |p.files[row.Path()]|))
        else Some((CopyFailed, row.Size()))
    case _ => None
  }

  /** Book a deed under its own name, or under any. */
  function Book(o: Option<(Deed, nat)>, d: Deed, t: Tally): Tally {
    if o.Some? && o.value.0 == d then Add(t, o.value.1) else t
  }

  function BookAny(o: Option<(Deed, nat)>, t: Tally): Tally {
    if o.Some? then Add(t, o.value.1) else t
  }

  /** The tally of one deed over the rows reached. */
  function Did(run: RunId, done: set<Path>, ios: map<Path, Io>, start: Progress, rows: seq<PlanRow>,
               deed: Deed): Tally
  {
    if rows == [] then Tally(0, 0)
    else
      var init, last := rows[..|rows| - 1], rows[|rows| - 1];
      Book(DeedOf(run, done, ios, ApplyRows(run, done, ios, start, init), last), deed,
           Did(run, done, ios, start, init, deed))
  }

  class Summary {
    var overlap: map<Bucket, Tally>
    var actions: map<Deed, Tally>
    var relocated: nat
    var predictedGrowth: nat

    constructor ()
      ensures forall b :: b in overlap && overlap[b] == Tally(0, 0)
      ensures actions == map[] && (forall d :: Slot(d) == Tally(0, 0)) && relocated == 0 && predictedGrowth == 0
    {
      overlap := map[OnDestBucket := Tally(0, 0), InLibraryBucket := Tally(0, 0),
                     DupAcrossSources := Tally(0, 0), NetNew := Tally(0, 0)];
      new;
      forall b ensures b in overlap && overlap[b] == Tally(0, 0) {
        assert b == OnDestBucket || b == InLibraryBucket || b == DupAcrossSources || b == NetNew;
      }
      actions, relocated, predictedGrowth := map[], 0, 0;
    }

    /** `add_overlap`, for the buckets that exist. */
    method AddOverlap(b: Bucket, size: nat)
      requires b in overlap
      modifies this`overlap
      ensures overlap == old(overlap)[b := Add(old(overlap)[b], size)]
    {
      overlap := overlap[b := Add(overlap[b], size)];
    }

    /** `classify`. */
    method Classify(size: nat, scopes: set<Scope>, keep: bool)
      requires forall b :: b in overlap
      modifies this`overlap
      ensures var b := BucketOf(scopes, keep); overlap == old(overlap)[b := Add(old(overlap)[b], size)]
    {
      if OnDest in scopes { AddOverlap(OnDestBucket, size); }
      else if InLibrary in scopes { AddOverlap(InLibraryBucket, size); }
      else if !keep { AddOverlap(DupAcrossSources, size); }
      else { AddOverlap(NetNew, size); }
    }

    function Slot(deed: Deed): Tally
      reads this`actions
    {
      if deed in actions then actions[deed] else Tally(0, 0)
    }

    /** `bump`: setdefault, then count. */
    method Bump(deed: Deed, size: nat)
      modifies this`actions
      ensures Slot(deed) == Add(old(Slot(deed)), size)
      ensures forall d :: d != deed ==> Slot(d) == old(Slot(d))
    {
      actions := actions[deed := Add(Slot(deed), size)];
    }
  }

  // ---- the accounting adds up ----

  function Sizes(rows: seq<PlanRow>): (r: seq<nat>)
    ensures |r| == |rows|
  {
    if rows == [] then [] else Sizes(rows[..|rows| - 1]) + [rows[|rows| - 1].Size()]
  }

  /** The four buckets partition the planned rows, in files and in bytes. */
  lemma {:induction false} BucketsPartition(rows: seq<PlanRow>)
    ensures InBucket(rows, OnDestBucket).files + InBucket(rows, InLibraryBucket).files +
            InBucket(rows, DupAcrossSources).files + InBucket(rows, NetNew).files == |rows|
    ensures InBucket(rows, OnDestBucket).bytes + InBucket(rows, InLibraryBucket).bytes +
            InBucket(rows, DupAcrossSources).bytes + InBucket(rows, NetNew).bytes == Sum(Sizes(rows))
  {
    if rows != [] {
      BucketsPartition(rows[..|rows| - 1]);
      assert Sizes(rows)[..|rows| - 1] == Sizes(rows[..|rows| - 1]);
    }
  }

  /** The bytes a scan found. */
  function ScannedBytes(found: seq<Found>): nat {
    if found == [] then 0 else ScannedBytes(found[..|found| - 1]) + found[|found| - 1].size
  }

  function SeenBytes(seen: seq<Seen>): nat {
    if seen == [] then 0 else seen[0].found.size + SeenBytes(seen[1..])
  }

  lemma {:induction false} SeenBytesLast(seen: seq<Seen>)
    requires seen != []
    ensures SeenBytes(seen) == SeenBytes(seen[..|seen| - 1]) + seen[|seen| - 1].found.size
  {
    if |seen| > 1 {
      SeenBytesLast(seen[1..]);
      assert seen[1..][..|seen| - 2] == seen[..|seen| - 1][1..];
    }
  }

  lemma {:induction false} InsertKeepsBytes(x: Seen, ys: seq<Seen>)
    ensures SeenBytes(Insert(x, ys, SeenBefore)) == x.found.size + SeenBytes(ys)
  {
    if ys == [] || SeenBefore(x, ys[0]) {
      assert ([x] + ys)[1..] == ys;
    } else {
      InsertKeepsBytes(x, ys[1..]);
      assert ([ys[0]] + Insert(x, ys[1..], SeenBefore))[1..] == Insert(x, ys[1..], SeenBefore);
    }
  }

  lemma {:induction false} SortKeepsBytes(seen: seq<Seen>)
    ensures SeenBytes(SortBy(seen, SeenBefore)) == SeenBytes(seen)
  {
    if seen != [] {
      SortKeepsBytes(seen[1..]);
      InsertKeepsBytes(seen[0], SortBy(seen[1..], SeenBefore));
    }
  }

  lemma {:induction false} SeenIsScanned(seen: seq<Seen>, found: seq<Found>)
    requires |seen| == |found| && forall i :: 0 <= i < |seen| ==> seen[i].found == found[i]
    ensures SeenBytes(seen) == ScannedBytes(found)
  {
    if seen != [] {
      SeenIsScanned(seen[..|seen| - 1], found[..|found| - 1]);
      SeenBytesLast(seen);
    }
  }

  lemma {:induction false} PlanIsSeen(plan: seq<PlanRow>, seen: seq<Seen>)
    requires |plan| == |seen| && forall i :: 0 <= i < |plan| ==> plan[i].seen == seen[i]
    ensures Sum(Sizes(plan)) == SeenBytes(seen)
  {
    if plan != [] {
      PlanIsSeen(plan[..|plan| - 1], seen[..|seen| - 1]);
      SeenBytesLast(seen);
      assert Sizes(plan)[..|plan| - 1] == Sizes(plan[..|plan| - 1]);
    }
  }

  /** A plan has a row for every scanned file, and its bytes are the scanned bytes. */
  lemma {:induction false} PlanCountsScan(c: Config, walks: Walks, files: Files, plan: seq<PlanRow>)
    requires MergePlan(c, walks, files) == Some(plan)
    ensures |plan| == |Scan(files, walks, c.srcs)|
    ensures Sum(Sizes(plan)) == ScannedBytes(Scan(files, walks, c.srcs))
  {
    PlanIsPlanRows(c, walks, files);
    var seen := SeenRows(c, walks, files);
    assert |InPathOrder(seen)| == |multiset(InPathOrder(seen))| == |multiset(seen)| == |seen|;
    PlanIsSeen(plan, InPathOrder(seen));
    SortKeepsBytes(seen);
    SeenIsScanned(seen, Scan(files, walks, c.srcs));
  }

  /** The four buckets of a run's plan partition what it scanned, in files and in bytes. */
  lemma {:induction false} BucketsPartitionScan(c: Config, walks: Walks, files: Files, plan: seq<PlanRow>)
    requires MergePlan(c, walks, files) == Some(plan)
    ensures InBucket(plan, OnDestBucket).files + InBucket(plan, InLibraryBucket).files +
            InBucket(plan, DupAcrossSources).files + InBucket(plan, NetNew).files == |Scan(files, walks, c.srcs)|
    ensures InBucket(plan, OnDestBucket).bytes + InBucket(plan, InLibraryBucket).bytes +
            InBucket(plan, DupAcrossSources).bytes + InBucket(plan, NetNew).bytes ==
              ScannedBytes(Scan(files, walks, c.srcs))
  {
    PlanCountsScan(c, walks, files, plan);
    BucketsPartition(plan);
  }

  /** Everything a run books against its predicted growth. */
  function Booked(run: RunId, done: set<Path>, ios: map<Path, Io>, start: Progress, rows: seq<PlanRow>): Tally {
    var copied := Did(run, done, ios, start, rows, CopyCopy);
    var reflinked := Did(run, done, ios, start, rows, CopyReflink);
    var skipped := Did(run, done, ios, start, rows, ResumeSkip);
    var failed := Did(run, done, ios, start, rows, CopyFailed);
    Tally(copied.files + reflinked.files + skipped.files + failed.files,
          copied.bytes + reflinked.bytes + skipped.bytes + failed.bytes)
  }

  lemma {:induction false} DidStep(run: RunId, done: set<Path>, ios: map<Path, Io>, start: Progress,
                                   init: seq<PlanRow>, last: PlanRow, o: Option<(Deed, nat)>, d: Deed)
    requires o == DeedOf(run, done, ios, ApplyRows(run, done, ios, start, init), last)
    ensures Did(run, done, ios, start, init + [last], d) == Book(o, d, Did(run, done, ios, start, init, d))
  {
    assert (init + [last])[..|init|] == init;
  }

  lemma {:induction false} BookedStep(run: RunId, done: set<Path>, ios: map<Path, Io>, start: Progress,
                                      init: seq<PlanRow>, last: PlanRow, o: Option<(Deed, nat)>)
    requires o == DeedOf(run, done, ios, ApplyRows(run, done, ios, start, init), last)
    ensures Booked(run, done, ios, start, init + [last]) == BookAny(o, Booked(run, done, ios, start, init))
  {
    DidStep(run, done, ios, start, init, last, o, CopyCopy);
    DidStep(run, done, ios, start, init, last, o, CopyReflink);
    DidStep(run, done, ios, start, init, last, o, ResumeSkip);
    DidStep(run, done, ios, start, init, last, o, CopyFailed);
    NeverVerified(run, done, ios, ApplyRows(run, done, ios, start, init), last);
  }

  lemma {:induction false} NeverVerified(run: RunId, done: set<Path>, ios: map<Path, Io>, p: Progress, row: PlanRow)
    ensures var o := DeedOf(run, done, ios, p, row); o.Some? ==> o.value.0 != Verified
  {
  }

  /** The deed of a row is booked with the row's own size when its source still has that size. */
  lemma {:induction false} DeedSize(run: RunId, done: set<Path>, ios: map<Path, Io>, p: Progress, row: PlanRow)
    requires row.Path() in p.files ==> |p.files[row.Path()]| == row.Size()
    ensures var o := DeedOf(run, done, ios, p, row);
      (o.Some? <==> row.action.CopyTo?) && (o.Some? ==> o.value.1 == row.Size())
  {
  }

  /** Predicted growth is booked exactly once: copied, reflinked, skipped on resume, or failed. */
  lemma {:induction false} GrowthIsAccounted(run: RunId, done: set<Path>, ios: map<Path, Io>, start: Progress,
                                             rows: seq<PlanRow>)
    requires NewTargets(start.files, rows)
    requires forall row :: row in rows ==> row.Path() in start.files && row.Size() == |start.files[row.Path()]|
    ensures Booked(run, done, ios, start, rows) == InBucket(rows, NetNew)
  {
    if rows != [] {
      var init, last := rows[..|rows| - 1], rows[|rows| - 1];
      assert rows == init + [last];
      NewTargetsInit(start.files, init, last);
      forall i | 0 <= i < |init| ensures init[i] == rows[i] { }
      GrowthIsAccounted(run, done, ios, start, init);
      ApplyCarries(run, done, ios, start, init);
      assert last in rows;
      var p := ApplyRows(run, done, ios, start, init);
      SourceStays(done, ios, start, p, init, last);
      BookedStep(run, done, ios, start, init, last, DeedOf(run, done, ios, p, last));
      DeedSize(run, done, ios, p, last);
    }
  }

  // ---- what verification answers ----

  /** A planned destination exists, with the planned size and the recorded bytes. */
  predicate Verifies(files: Files, row: PlanRow) {
    row.action.CopyTo? ==>
      && row.action.dst in files && |files[row.action.dst]| == row.Size()
      && (row.sha.Some? ==> Sha256(files[row.action.dst]) == row.sha.value)
  }

  ghost predicate AllVerify(files: Files, rows: seq<PlanRow>) {
    forall row :: row in rows ==> Verifies(files, row)
  }

  /** The copies that verify, counted. */
  function Checked(files: Files, rows: seq<PlanRow>): Tally {
    if rows == [] then Tally(0, 0)
    else
      var last := rows[|rows| - 1];
      var before := Checked(files, rows[..|rows| - 1]);
      if last.action.CopyTo? && Verifies(files, last) then Add(before, last.Size()) else before
  }

  /** Rows after the copies: same actions and sizes, and a hash only where the bytes are on disk. */
  ghost predicate HashedTrue(start: Files, p: Progress, rows: seq<PlanRow>) {
    |p.plan| == |rows| && forall i :: 0 <= i < |rows| ==> RowHashed(start, p.files, rows[i], p.plan[i])
  }

  ghost predicate RowHashed(start: Files, files: Files, row: PlanRow, out: PlanRow) {
    && out.action == row.action && out.Size() == row.Size() && row.Path() in start
    && (row.action.CopyTo? && row.action.dst in files ==> files[row.action.dst] == start[row.Path()])
    && (row.action.CopyTo? && out.sha.Some? ==>
          row.action.dst in files && out.sha.value == Sha256(files[row.action.dst]))
  }

  lemma {:induction false} ApplyHashes(run: RunId, done: set<Path>, ios: map<Path, Io>, start: Progress,
                                       rows: seq<PlanRow>)
    requires NewTargets(start.files, rows) && start.plan == []
    requires forall i :: 0 <= i < |rows| ==> rows[i].Path() in start.files
    ensures HashedTrue(start.files, ApplyRows(run, done, ios, start, rows), rows)
  {
    if rows != [] {
      var init, last := rows[..|rows| - 1], rows[|rows| - 1];
      assert rows == init + [last];
      NewTargetsInit(start.files, init, last);
      forall i | 0 <= i < |init| ensures init[i] == rows[i] { }
      ApplyHashes(run, done, ios, start, init);
      ApplyCarries(run, done, ios, start, init);
      StepHashes(run, done, ios, start, ApplyRows(run, done, ios, start, init), init, last);
    }
  }

  lemma {:induction false} StepHashes(run: RunId, done: set<Path>, ios: map<Path, Io>, start: Progress, p: Progress,
                                      init: seq<PlanRow>, last: PlanRow)
    requires Carried(done, ios, start, p, init) && NewTargets(start.files, init + [last])
    requires HashedTrue(start.files, p, init) && last.Path() in start.files
    ensures HashedTrue(start.files, ApplyRow(run, done, ios, p, last), init + [last])
  {
    var p' := ApplyRow(run, done, ios, p, last);
    SourceStays(done, ios, start, p, init, last);
    LastHashes(run, done, ios, start, p, last);
    forall i | 0 <= i < |init| ensures RowHashed(start.files, p'.files, init[i], p.plan[i]) {
      EarlierHashes(run, done, ios, start, p, init, last, i);
    }
    HashesSnoc(start.files, p.plan, p', init, last);
  }

  lemma {:induction false} HashesSnoc(start: Files, plan: seq<PlanRow>, p: Progress, init: seq<PlanRow>, last: PlanRow)
    requires |plan| == |init| && |p.plan| == |plan| + 1 && p.plan[..|plan|] == plan
    requires forall i :: 0 <= i < |init| ==> RowHashed(start, p.files, init[i], plan[i])
    requires RowHashed(start, p.files, last, p.plan[|plan|])
    ensures HashedTrue(start, p, init + [last])
  {
    var rows := init + [last];
    forall i | 0 <= i < |rows| ensures RowHashed(start, p.files, rows[i], p.plan[i]) {
      if i < |init| { assert rows[i] == init[i] && p.plan[i] == plan[i]; }
    }
  }

  lemma {:induction false} LastHashes(run: RunId, done: set<Path>, ios: map<Path, Io>, start: Progress, p: Progress,
                                      last: PlanRow)
    requires last.Path() in start.files && last.Path() in p.files && last.sha.None?
    requires p.files[last.Path()] == start.files[last.Path()]
    requires last.action.CopyTo? ==> last.action.dst !in p.files
    ensures var p' := ApplyRow(run, done, ios, p, last);
      |p'.plan| == |p.plan| + 1 && p'.plan[..|p.plan|] == p.plan &&
      RowHashed(start.files, p'.files, last, p'.plan[|p.plan|])
  {
  }

  lemma {:induction false} EarlierHashes(run: RunId, done: set<Path>, ios: map<Path, Io>, start: Progress, p: Progress,
                                         init: seq<PlanRow>, last: PlanRow, i: nat)
    requires HashedTrue(start.files, p, init) && i < |init| && NewTargets(start.files, init + [last])
    ensures RowHashed(start.files, ApplyRow(run, done, ios, p, last).files, init[i], p.plan[i])
  {
    NewTargetsInit(start.files, init, last);
    RowSteps(run, done, ios, p, last);
    assert RowHashed(start.files, p.files, init[i], p.plan[i]);
    if init[i].action.CopyTo? { TargetNotFreed(done, ios, start.files, init, i, last); }
  }

  /** `verify` passes exactly when every planned destination is on disk: nothing else can go wrong unseen. */
  lemma {:induction false} VerifiedIffLanded(run: RunId, done: set<Path>, ios: map<Path, Io>, start: Progress,
                                             rows: seq<PlanRow>)
    requires NewTargets(start.files, rows) && start.plan == []
    requires forall row :: row in rows ==> row.Path() in start.files && row.Size() == |start.files[row.Path()]|
    ensures var p := ApplyRows(run, done, ios, start, rows);
      AllVerify(p.files, p.plan) <==>
        forall i :: 0 <= i < |rows| && rows[i].action.CopyTo? ==> rows[i].action.dst in p.files
  {
    var p := ApplyRows(run, done, ios, start, rows);
    ApplyHashes(run, done, ios, start, rows);
    forall i | 0 <= i < |rows|
      ensures Verifies(p.files, p.plan[i]) <==> (rows[i].action.CopyTo? ==> rows[i].action.dst in p.files)
    {
      assert RowHashed(start.files, p.files, rows[i], p.plan[i]) && rows[i] in rows;
    }
    if AllVerify(p.files, p.plan) {
      forall i | 0 <= i < |rows| && rows[i].action.CopyTo? ensures rows[i].action.dst in p.files {
        assert p.plan[i] in p.plan;
      }
    }
  }
}
