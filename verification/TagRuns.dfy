/** Tag passes: each file is retagged on a staged copy, swapped in and journaled; an undo replays the journal
    backwards. */
module TagRuns {
  import opened Basics

  datatype Tags = Tags(album: Option<string>, albumArtist: Option<string>, compilation: bool)

  datatype File = File(tags: Tags, info: int)

  /** What one pass writes: the album fill, or the grouping pass's album artist and compilation flag. */
  datatype Wanted =
    | WantAlbum(album: string)
    | WantGrouping(albumArtist: Option<string>, compilation: bool)

  /** What the journal keeps of the values a file had before. */
  datatype Old =
    | OldAlbum(album: Option<string>)
    | OldGrouping(albumArtist: Option<string>, compilation: bool)

  function Applied(t: Tags, w: Wanted): Tags {
    match w
    case WantAlbum(album) => t.(album := Some(album))
    case WantGrouping(artist, flag) =>
      t.(albumArtist := if artist.Some? then artist else t.albumArtist, compilation := flag || t.compilation)
  }

  /** `mismatch` of a readable file whose audio is untouched. */
  predicate Carries(t: Tags, w: Wanted) {
    match w
    case WantAlbum(album) => t.album == Some(album)
    case WantGrouping(artist, flag) => (artist.Some? ==> t.albumArtist == artist) && (flag ==> t.compilation)
  }

  function Restored(t: Tags, o: Old): Tags {
    match o
    case OldAlbum(album) => t.(album := album)
    case OldGrouping(artist, flag) => t.(albumArtist := artist, compilation := flag)
  }

  /** The values of a file that one pass reads and may change. */
  function Seen(t: Tags, w: Wanted): Old {
    match w
    case WantAlbum(_) => OldAlbum(t.album)
    case WantGrouping(_, _) => OldGrouping(t.albumArtist, t.compilation)
  }

  datatype Action = Action(path: string, wanted: Wanted, was: Old, route: string)

  datatype Row = Row(path: string, was: Old, now: Wanted, route: Option<string>)

  /** Where one commit or restore may fail; None is a file that goes through. */
  datatype Fault =
    | Never
    | ReadFails
    | ProtectFails
    | CopyFails
    | WriteFails
    | StagedWrong
    | SwapFails
    | FsyncFails
    | FinalWrong
    | JournalFails
    | BookFails
  {
    /** The library file is not touched; a staged copy may be left behind. */
    predicate BeforeSwap() {
      ReadFails? || ProtectFails? || CopyFails? || WriteFails? || StagedWrong? || SwapFails?
    }

    predicate LeavesTemp() {
      CopyFails? || WriteFails? || StagedWrong? || SwapFails?
    }

    /** The swap happened and the journal row did not. */
    predicate LosesRow() {
      FsyncFails? || FinalWrong? || JournalFails?
    }
  }

  datatype Shelf = Shelf(files: map<string, File>, temps: set<string>)

  /** The staging steps shared by commit and restore: they reach the swap, or stop and perhaps leave the copy. */
  predicate Reaches(s: Shelf, path: string, fault: Fault) {
    path in s.files && path !in s.temps && !fault.BeforeSwap()
  }

  function Staged(s: Shelf, path: string, fault: Fault): Shelf {
    if path in s.files && path !in s.temps && fault.LeavesTemp() then s.(temps := s.temps + {path}) else s
  }

  predicate Swaps(s: Shelf, a: Action, fault: Fault) {
    Reaches(s, a.path, fault) && !Carries(s.files[a.path].tags, a.wanted)
  }

  function Retag(f: File, t: Tags): File { f.(tags := t) }

  function Committed(s: Shelf, a: Action, fault: Fault): Shelf {
    if a.path in s.files && Carries(s.files[a.path].tags, a.wanted) then s
    else if Swaps(s, a, fault)
    then s.(files := s.files[a.path := Retag(s.files[a.path], Applied(s.files[a.path].tags, a.wanted))])
    else Staged(s, a.path, fault)
  }

  /** The journal row a commit leaves, if it gets that far. */
  function Journaled(s: Shelf, a: Action, fault: Fault): seq<Row> {
    if Swaps(s, a, fault) && !fault.LosesRow() then [Row(a.path, a.was, a.wanted, Some(a.route))] else []
  }

  function PutBack(s: Shelf, path: string, was: Old, fault: Fault): Shelf {
    if Reaches(s, path, fault)
    then s.(files := s.files[path := Retag(s.files[path], Restored(s.files[path].tags, was))])
    else Staged(s, path, fault)
  }

  // ---- whole runs ----

  /** The run so far: the library and the journal after the first actions. */
  function Applying(s: Shelf, actions: seq<Action>, faults: seq<Fault>): (Shelf, seq<Row>)
    requires |faults| == |actions|
    decreases |actions|
  {
    if actions == [] then (s, [])
    else
      var n := |actions| - 1;
      var before := Applying(s, actions[..n], faults[..n]);
      (Committed(before.0, actions[n], faults[n]), before.1 + Journaled(before.0, actions[n], faults[n]))
  }

  /** How one file fared: written and booked, found correct, or refused or failed on the way. */
  datatype How = Written | AlreadyRight | Failed

  function HowOf(s: Shelf, a: Action, fault: Fault): How {
    if a.path in s.files && Carries(s.files[a.path].tags, a.wanted) && !fault.ReadFails? then AlreadyRight
    else if Swaps(s, a, fault) && !fault.LosesRow() && !fault.BookFails? then Written
    else Failed
  }

  /** How many files of a run fared so. */
  function Tally(s: Shelf, actions: seq<Action>, faults: seq<Fault>, how: How): nat
    requires |faults| == |actions|
    decreases |actions|
  {
    if actions == [] then 0
    else
      var n := |actions| - 1;
      Tally(s, actions[..n], faults[..n], how) +
      if HowOf(Applying(s, actions[..n], faults[..n]).0, actions[n], faults[n]) == how then 1 else 0
  }

  /** The three counts are all files; every file counted as written has its journal row, and the rows beyond
      those are of files whose ledger entry failed. */
  lemma {:induction false} TalliesAddUp(s: Shelf, actions: seq<Action>, faults: seq<Fault>)
    requires |faults| == |actions|
    ensures Tally(s, actions, faults, Written) + Tally(s, actions, faults, AlreadyRight) +
            Tally(s, actions, faults, Failed) == |actions|
    ensures Tally(s, actions, faults, Written) <= |Applying(s, actions, faults).1|
    ensures (forall i :: 0 <= i < |faults| ==> !faults[i].BookFails?) ==>
      Tally(s, actions, faults, Written) == |Applying(s, actions, faults).1|
  {
    if actions != [] {
      var n := |actions| - 1;
      TalliesAddUp(s, actions[..n], faults[..n]);
      assert forall i :: 0 <= i < n ==> faults[..n][i] == faults[i];
    }
  }

  /** The undo so far: the last rows first. */
  function Undoing(s: Shelf, rows: seq<Row>, faults: seq<Fault>): Shelf
    requires |faults| == |rows|
    decreases |rows|
  {
    if rows == [] then s
    else
      var n := |rows| - 1;
      Undoing(PutBack(s, rows[n].path, rows[n].was, faults[n]), rows[..n], faults[..n])
  }

  /** How many of the rows an undo restores. */
  function Restores(s: Shelf, rows: seq<Row>, faults: seq<Fault>): (n: nat)
    requires |faults| == |rows|
    ensures n <= |rows|
    decreases |rows|
  {
    if rows == [] then 0
    else
      var n := |rows| - 1;
      Restores(PutBack(s, rows[n].path, rows[n].was, faults[n]), rows[..n], faults[..n]) +
      if Reaches(s, rows[n].path, faults[n]) && !faults[n].FsyncFails? then 1 else 0
  }

  /** `select_route`: the rows one route wrote, or every row when no route is named. */
  function SelectRoute(rows: seq<Row>, route: Option<string>): seq<Row> {
    if route == None || route == Some("") then rows else Stamped(rows, route)
  }

  function Stamped(rows: seq<Row>, route: Option<string>): seq<Row> {
    if rows == [] then []
    else
      var n := |rows| - 1;
      Stamped(rows[..n], route) + if rows[n].route == route then [rows[n]] else []
  }

  class Library {
    var shelf: Shelf
    var journal: seq<Row>

    constructor (files: map<string, File>, temps: set<string>)
      ensures shelf == Shelf(files, temps) && journal == []
    {
      shelf, journal := Shelf(files, temps), [];
    }

    /** `commit_one`: protect, fill, verify, swap, journal. */
    method CommitOne(a: Action, fault: Fault) returns (how: How)
      modifies this
      ensures shelf == Committed(old(shelf), a, fault)
      ensures journal == old(journal) + Journaled(old(shelf), a, fault)
      ensures how == HowOf(old(shelf), a, fault)
      ensures how != Failed ==> a.path in shelf.files && Carries(shelf.files[a.path].tags, a.wanted)
    {
      if a.path !in shelf.files || fault.ReadFails? { return Failed; }
      var baseline := shelf.files[a.path];
      if Carries(baseline.tags, a.wanted) { return AlreadyRight; }
      if fault.ProtectFails? || a.path in shelf.temps { return Failed; }
      shelf := shelf.(temps := shelf.temps + {a.path});
      var staged := Retag(baseline, Applied(baseline.tags, a.wanted));
      if fault.LeavesTemp() { return Failed; }
      shelf := Shelf(shelf.files[a.path := staged], shelf.temps - {a.path});
      if fault.LosesRow() { return Failed; }
      journal := journal + [Row(a.path, a.was, a.wanted, Some(a.route))];
      how := if fault.BookFails? then Failed else Written;
    }

    /** `restore_one`: one file put back, absent values included. */
    method RestoreOne(path: string, was: Old, fault: Fault) returns (ok: bool)
      modifies this`shelf
      ensures shelf == PutBack(old(shelf), path, was, fault)
      ensures ok <==> Reaches(old(shelf), path, fault) && !fault.FsyncFails?
      ensures ok ==> path in shelf.files && shelf.files[path].tags == Restored(old(shelf).files[path].tags, was)
    {
      if path !in shelf.files { return false; }
      var baseline := shelf.files[path];
      if fault.ReadFails? || fault.ProtectFails? || path in shelf.temps { return false; }
      shelf := shelf.(temps := shelf.temps + {path});
      if fault.LeavesTemp() { return false; }
      shelf := Shelf(shelf.files[path := Retag(baseline, Restored(baseline.tags, was))], shelf.temps - {path});
      return !fault.FsyncFails?;
    }

    /** The loop of `do_apply`: files written, already correct, and refused or failed are counted apart. */
    method Apply(actions: seq<Action>, faults: seq<Fault>) returns (written: nat, already: nat, failed: nat)
      requires |faults| == |actions|
      modifies this
      ensures shelf == Applying(old(shelf), actions, faults).0
      ensures journal == old(journal) + Applying(old(shelf), actions, faults).1
      ensures written == Tally(old(shelf), actions, faults, Written)
      ensures already == Tally(old(shelf), actions, faults, AlreadyRight)
      ensures failed == Tally(old(shelf), actions, faults, Failed)
    {
      ghost var start := shelf;
      written, already, failed := 0, 0, 0;
      for i := 0 to |actions|
        invariant shelf == Applying(start, actions[..i], faults[..i]).0
        invariant journal == old(journal) + Applying(start, actions[..i], faults[..i]).1
        invariant written == Tally(start, actions[..i], faults[..i], Written)
        invariant already == Tally(start, actions[..i], faults[..i], AlreadyRight)
        invariant failed == Tally(start, actions[..i], faults[..i], Failed)
      {
        assert actions[..i + 1][..i] == actions[..i] && faults[..i + 1][..i] == faults[..i];
        var how := CommitOne(actions[i], faults[i]);
        match how {
          case Written => written := written + 1;
          case AlreadyRight => already := already + 1;
          case Failed => failed := failed + 1;
        }
      }
      assert actions[..|actions|] == actions && faults[..|actions|] == faults;
    }

    /** The loop of `do_undo` over the selected rows, last first; without a route, over the whole journal. */
    method Undo(route: Option<string>, faults: seq<Fault>) returns (restored: nat, failed: nat)
      requires |faults| == |SelectRoute(journal, route)|
      modifies this`shelf
      ensures shelf == Undoing(old(shelf), SelectRoute(journal, route), faults)
      ensures restored == Restores(old(shelf), SelectRoute(journal, route), faults)
      ensures restored + failed == |SelectRoute(journal, route)|
      ensures route == None || route == Some("") ==>
        |faults| == |journal| && restored + failed == |journal| && shelf == Undoing(old(shelf), journal, faults)
    {
      var rows := SelectRoute(journal, route);
      restored, failed := 0, 0;
      var i := |rows|;
      assert rows[..|rows|] == rows && faults[..|rows|] == faults;
      while i > 0
        invariant 0 <= i <= |rows| && restored + failed == |rows| - i
        invariant Undoing(shelf, rows[..i], faults[..i]) == Undoing(old(shelf), rows, faults)
        invariant restored + Restores(shelf, rows[..i], faults[..i]) == Restores(old(shelf), rows, faults)
      {
        i := i - 1;
        assert rows[..i + 1][..i] == rows[..i] && faults[..i + 1][..i] == faults[..i];
        var ok := RestoreOne(rows[i].path, rows[i].was, faults[i]);
        if ok { restored := restored + 1; } else { failed := failed + 1; }
      }
    }
  }

  // ---- one path at a time ----

  /** Two shelves agree about one path. */
  predicate SameAt(s: Shelf, t: Shelf, path: string) {
    && (path in s.files <==> path in t.files)
    && (path in s.files ==> t.files[path] == s.files[path])
    && (path in s.temps <==> path in t.temps)
  }

  predicate Unique(rows: seq<Row>) {
    forall i, k :: 0 <= i < k < |rows| ==> rows[i].path != rows[k].path
  }

  predicate UniqueActions(actions: seq<Action>) {
    forall i, k :: 0 <= i < k < |actions| ==> actions[i].path != actions[k].path
  }

  lemma {:induction false} PutBackIsLocal(s: Shelf, t: Shelf, path: string, was: Old, fault: Fault)
    requires SameAt(s, t, path)
    ensures SameAt(PutBack(s, path, was, fault), PutBack(t, path, was, fault), path)
  {
  }

  lemma {:induction false} UndoElsewhere(s: Shelf, rows: seq<Row>, faults: seq<Fault>, path: string)
    requires |faults| == |rows| && forall r :: r in rows ==> r.path != path
    ensures SameAt(s, Undoing(s, rows, faults), path)
    decreases |rows|
  {
    if rows != [] {
      var n := |rows| - 1;
      assert rows[n] in rows;
      UndoElsewhere(PutBack(s, rows[n].path, rows[n].was, faults[n]), rows[..n], faults[..n], path);
    }
  }

  /** Under one row per path, an undo does to a path exactly what its own row says. */
  lemma {:induction false} UndoAt(s: Shelf, rows: seq<Row>, faults: seq<Fault>, k: nat)
    requires |faults| == |rows| && Unique(rows) && k < |rows|
    ensures SameAt(PutBack(s, rows[k].path, rows[k].was, faults[k]), Undoing(s, rows, faults), rows[k].path)
    decreases |rows|
  {
    var n := |rows| - 1;
    var t := PutBack(s, rows[n].path, rows[n].was, faults[n]);
    if k == n {
      forall r | r in rows[..n] ensures r.path != rows[n].path {
        var i :| 0 <= i < n && rows[i] == r;
      }
      UndoElsewhere(t, rows[..n], faults[..n], rows[n].path);
    } else {
      assert rows[k].path != rows[n].path;
      UndoAt(t, rows[..n], faults[..n], k);
      PutBackIsLocal(s, t, rows[k].path, rows[k].was, faults[k]);
    }
  }

  lemma {:induction false} ApplyElsewhere(s: Shelf, actions: seq<Action>, faults: seq<Fault>, path: string)
    requires |faults| == |actions| && forall a :: a in actions ==> a.path != path
    ensures SameAt(s, Applying(s, actions, faults).0, path)
    ensures forall r :: r in Applying(s, actions, faults).1 ==> r.path != path
    decreases |actions|
  {
    if actions != [] {
      var n := |actions| - 1;
      assert actions[n] in actions;
      ApplyElsewhere(s, actions[..n], faults[..n], path);
    }
  }

  lemma {:induction false} CommitIsLocal(s: Shelf, t: Shelf, a: Action, fault: Fault)
    requires SameAt(s, t, a.path)
    ensures SameAt(Committed(s, a, fault), Committed(t, a, fault), a.path)
    ensures Journaled(s, a, fault) == Journaled(t, a, fault)
  {
  }

  /** Under one action per path, a run does to a path what its own action does, and journals it at most once. */
  lemma {:induction false} ApplyAt(s: Shelf, actions: seq<Action>, faults: seq<Fault>, k: nat)
    requires |faults| == |actions| && UniqueActions(actions) && k < |actions|
    ensures SameAt(Committed(s, actions[k], faults[k]), Applying(s, actions, faults).0, actions[k].path)
    ensures forall r :: r in Applying(s, actions, faults).1 && r.path == actions[k].path ==>
      r in Journaled(s, actions[k], faults[k])
    ensures forall r :: r in Journaled(s, actions[k], faults[k]) ==> r in Applying(s, actions, faults).1
    decreases |actions|
  {
    var n := |actions| - 1;
    var before := Applying(s, actions[..n], faults[..n]);
    if k == n {
      forall a | a in actions[..n] ensures a.path != actions[n].path {
        var i :| 0 <= i < n && actions[i] == a;
      }
      ApplyElsewhere(s, actions[..n], faults[..n], actions[n].path);
      CommitIsLocal(s, before.0, actions[n], faults[n]);
    } else {
      assert actions[k].path != actions[n].path;
      ApplyAt(s, actions[..n], faults[..n], k);
    }
  }

  /** A run journals every path at most once. */
  lemma {:induction false} JournalIsUnique(s: Shelf, actions: seq<Action>, faults: seq<Fault>)
    requires |faults| == |actions| && UniqueActions(actions)
    ensures Unique(Applying(s, actions, faults).1)
    decreases |actions|
  {
    if actions != [] {
      var n := |actions| - 1;
      JournalIsUnique(s, actions[..n], faults[..n]);
      forall a | a in actions[..n] ensures a.path != actions[n].path {
        var i :| 0 <= i < n && actions[i] == a;
      }
      ApplyElsewhere(s, actions[..n], faults[..n], actions[n].path);
    }
  }

  // ---- apply, then undo ----

  function Calm(n: nat): seq<Fault> { seq(n, _ => Never) }

  /** The actions were decided on the library as it is now. */
  predicate Decided(s: Shelf, actions: seq<Action>) {
    UniqueActions(actions) &&
    forall a :: a in actions && a.path in s.files ==> a.was == Seen(s.files[a.path].tags, a.wanted)
  }

  /** Restoring what was seen takes back exactly what was written. */
  lemma {:induction false} RestoreInvertsApply(t: Tags, w: Wanted)
    ensures Restored(Applied(t, w), Seen(t, w)) == t
    ensures Carries(Applied(t, w), w)
    ensures Applied(t, w) == t <==> Carries(t, w)
  {
  }

  lemma {:induction false} JournaledComesBack(s: Shelf, t: Shelf, u: Shelf, a: Action, fault: Fault)
    requires Swaps(s, a, fault) && a.was == Seen(s.files[a.path].tags, a.wanted)
    requires SameAt(Committed(s, a, fault), t, a.path) && SameAt(PutBack(t, a.path, a.was, Never), u, a.path)
    ensures a.path in u.files && u.files[a.path] == s.files[a.path]
  {
    RestoreInvertsApply(s.files[a.path].tags, a.wanted);
  }

  lemma {:induction false} UnjournaledStays(s: Shelf, t: Shelf, u: Shelf, a: Action, fault: Fault)
    requires a.path in s.files && SameAt(Committed(s, a, fault), t, a.path) && SameAt(t, u, a.path)
    ensures a.path in u.files && (u.files[a.path] == s.files[a.path] <==> !Swaps(s, a, fault))
  {
    RestoreInvertsApply(s.files[a.path].tags, a.wanted);
  }

  /** One file: after the run and its undo it is as first read, exactly unless it was swapped and its row was lost. */
  lemma {:induction false} UndoRestores(s: Shelf, actions: seq<Action>, faults: seq<Fault>, k: nat)
    requires |faults| == |actions| && Decided(s, actions) && k < |actions| && actions[k].path in s.files
    ensures var (t, rows) := Applying(s, actions, faults);
      var u := Undoing(t, rows, Calm(|rows|));
      var p := actions[k].path;
      p in u.files &&
      (u.files[p] == s.files[p] <==> !(Swaps(s, actions[k], faults[k]) && faults[k].LosesRow()))
  {
    var run := Applying(s, actions, faults);
    var t, rows := run.0, run.1;
    var u := Undoing(t, rows, Calm(|rows|));
    var a := actions[k];
    assert a in actions;
    ApplyAt(s, actions, faults, k);
    JournalIsUnique(s, actions, faults);
    if Swaps(s, a, faults[k]) && !faults[k].LosesRow() {
      var row := Row(a.path, a.was, a.wanted, Some(a.route));
      assert row in Journaled(s, a, faults[k]);
      var i :| 0 <= i < |rows| && rows[i] == row;
      UndoAt(t, rows, Calm(|rows|), i);
      JournaledComesBack(s, t, u, a, faults[k]);
    } else {
      UndoElsewhere(t, rows, Calm(|rows|), a.path);
      UnjournaledStays(s, t, u, a, faults[k]);
    }
  }

  /** A file no action names is never touched by the run or by its undo. */
  lemma {:induction false} OtherFilesUntouched(s: Shelf, actions: seq<Action>, faults: seq<Fault>, again: seq<Fault>,
                                               path: string)
    requires |faults| == |actions| && forall a :: a in actions ==> a.path != path
    requires |again| == |Applying(s, actions, faults).1|
    ensures SameAt(s, Undoing(Applying(s, actions, faults).0, Applying(s, actions, faults).1, again), path)
  {
    ApplyElsewhere(s, actions, faults, path);
    UndoElsewhere(Applying(s, actions, faults).0, Applying(s, actions, faults).1, again, path);
  }

  /** The whole library comes back if and only if every file that was swapped was journaled. */
  lemma {:induction false} WholeRunUndone(s: Shelf, actions: seq<Action>, faults: seq<Fault>)
    requires |faults| == |actions| && Decided(s, actions)
    ensures var (t, rows) := Applying(s, actions, faults);
      Undoing(t, rows, Calm(|rows|)).files == s.files <==>
      forall k :: 0 <= k < |actions| ==> !(Swaps(s, actions[k], faults[k]) && faults[k].LosesRow())
  {
    var run := Applying(s, actions, faults);
    var u := Undoing(run.0, run.1, Calm(|run.1|));
    forall k | 0 <= k < |actions| && actions[k].path in s.files
      ensures actions[k].path in u.files
      ensures u.files[actions[k].path] == s.files[actions[k].path] <==>
        !(Swaps(s, actions[k], faults[k]) && faults[k].LosesRow())
    {
      UndoRestores(s, actions, faults, k);
    }
    if forall k :: 0 <= k < |actions| ==> !(Swaps(s, actions[k], faults[k]) && faults[k].LosesRow()) {
      forall p ensures (p in u.files <==> p in s.files) && (p in s.files ==> u.files[p] == s.files[p]) {
        if k :| 0 <= k < |actions| && actions[k].path == p {
          if p !in s.files { AbsentStaysAbsent(s, actions, faults, p); }
        } else {
          OtherFilesUntouched(s, actions, faults, Calm(|run.1|), p);
        }
      }
      assert u.files == s.files;
    }
  }

  /** A run neither makes nor deletes files. */
  lemma {:induction false} AbsentStaysAbsent(s: Shelf, actions: seq<Action>, faults: seq<Fault>, path: string)
    requires |faults| == |actions| && path !in s.files
    ensures var (t, rows) := Applying(s, actions, faults);
      path !in t.files && path !in Undoing(t, rows, Calm(|rows|)).files
    decreases |actions|
  {
    ApplyMakesNothing(s, actions, faults, path);
    var run := Applying(s, actions, faults);
    UndoMakesNothing(run.0, run.1, Calm(|run.1|), path);
  }

  lemma {:induction false} ApplyMakesNothing(s: Shelf, actions: seq<Action>, faults: seq<Fault>, path: string)
    requires |faults| == |actions| && path !in s.files
    ensures path !in Applying(s, actions, faults).0.files
    decreases |actions|
  {
    if actions != [] { ApplyMakesNothing(s, actions[..|actions| - 1], faults[..|actions| - 1], path); }
  }

  lemma {:induction false} UndoMakesNothing(s: Shelf, rows: seq<Row>, faults: seq<Fault>, path: string)
    requires |faults| == |rows| && path !in s.files
    ensures path !in Undoing(s, rows, faults).files
    decreases |rows|
  {
    if rows != [] {
      var n := |rows| - 1;
      UndoMakesNothing(PutBack(s, rows[n].path, rows[n].was, faults[n]), rows[..n], faults[..n], path);
    }
  }

  // ---- one route at a time ----

  lemma {:induction false} StampedHolds(rows: seq<Row>, route: Option<string>)
    ensures forall r :: r in Stamped(rows, route) <==> r in rows && r.route == route
  {
    if rows != [] {
      var n := |rows| - 1;
      StampedHolds(rows[..n], route);
      assert rows == rows[..n] + [rows[n]];
    }
  }

  lemma {:induction false} StampedIsUnique(rows: seq<Row>, route: Option<string>)
    requires Unique(rows)
    ensures Unique(Stamped(rows, route))
  {
    if rows != [] {
      var n := |rows| - 1;
      StampedIsUnique(rows[..n], route);
      StampedHolds(rows[..n], route);
      forall r | r in Stamped(rows[..n], route) ensures r.path != rows[n].path {
        var i :| 0 <= i < n && rows[..n][i] == r;
        assert rows[i].path != rows[n].path;
      }
    }
  }

  /** A narrowed undo leaves alone every file whose row carries another route, or none. */
  lemma {:induction false} NarrowUndoIsNarrow(s: Shelf, rows: seq<Row>, route: string, faults: seq<Fault>, k: nat)
    requires route != "" && Unique(rows) && k < |rows| && rows[k].route != Some(route)
    requires |faults| == |SelectRoute(rows, Some(route))|
    ensures SameAt(s, Undoing(s, SelectRoute(rows, Some(route)), faults), rows[k].path)
  {
    StampedHolds(rows, Some(route));
    forall r | r in Stamped(rows, Some(route)) ensures r.path != rows[k].path {
      var i :| 0 <= i < |rows| && rows[i] == r;
      assert i != k;
    }
    UndoElsewhere(s, SelectRoute(rows, Some(route)), faults, rows[k].path);
  }

  /** Undoing a run by naming one route after another. */
  function ByRoutes(s: Shelf, rows: seq<Row>, routes: seq<string>): Shelf {
    if routes == [] then s
    else
      var n := |routes| - 1;
      var chosen := SelectRoute(rows, Some(routes[n]));
      Undoing(ByRoutes(s, rows, routes[..n]), chosen, Calm(|chosen|))
  }

  lemma {:induction false} PutBackTwice(s: Shelf, path: string, was: Old)
    ensures PutBack(PutBack(s, path, was, Never), path, was, Never) == PutBack(s, path, was, Never)
  {
    var t := PutBack(s, path, was, Never);
    if Reaches(s, path, Never) { assert t.files[path := t.files[path]] == t.files; }
  }

  /** Naming a file's own route restores it. */
  lemma {:induction false} OwnRoute(s: Shelf, rows: seq<Row>, route: string, k: nat)
    requires route != "" && Unique(rows) && k < |rows| && rows[k].route == Some(route)
    ensures var chosen := SelectRoute(rows, Some(route));
      SameAt(PutBack(s, rows[k].path, rows[k].was, Never), Undoing(s, chosen, Calm(|chosen|)), rows[k].path)
  {
    StampedHolds(rows, Some(route));
    StampedIsUnique(rows, Some(route));
    var chosen := SelectRoute(rows, Some(route));
    assert rows[k] in chosen;
    var i :| 0 <= i < |chosen| && chosen[i] == rows[k];
    UndoAt(s, chosen, Calm(|chosen|), i);
  }

  lemma {:induction false} ByRoutesAt(s: Shelf, rows: seq<Row>, routes: seq<string>, k: nat)
    requires Unique(rows) && k < |rows| && rows[k].route.Some? && "" !in routes
    ensures var p := rows[k].path;
      if rows[k].route.value in routes
      then SameAt(PutBack(s, p, rows[k].was, Never), ByRoutes(s, rows, routes), p)
      else SameAt(s, ByRoutes(s, rows, routes), p)
  {
    if routes != [] {
      var n := |routes| - 1;
      var p := rows[k].path;
      var t := ByRoutes(s, rows, routes[..n]);
      assert routes == routes[..n] + [routes[n]];
      ByRoutesAt(s, rows, routes[..n], k);
      var chosen := SelectRoute(rows, Some(routes[n]));
      if rows[k].route.value == routes[n] {
        OwnRoute(t, rows, routes[n], k);
        RestoreAgain(s, t, p, rows[k].was);
      } else {
        NarrowUndoIsNarrow(t, rows, routes[n], Calm(|chosen|), k);
      }
    }
  }

  lemma {:induction false} RestoreAgain(s: Shelf, t: Shelf, path: string, was: Old)
    requires SameAt(s, t, path) || SameAt(PutBack(s, path, was, Never), t, path)
    ensures SameAt(PutBack(s, path, was, Never), PutBack(t, path, was, Never), path)
  {
    if SameAt(s, t, path) {
      PutBackIsLocal(s, t, path, was, Never);
    } else {
      PutBackIsLocal(PutBack(s, path, was, Never), t, path, was, Never);
      PutBackTwice(s, path, was);
    }
  }

  lemma {:induction false} ByRoutesElsewhere(s: Shelf, rows: seq<Row>, routes: seq<string>, path: string)
    requires "" !in routes && forall r :: r in rows ==> r.path != path
    ensures SameAt(s, ByRoutes(s, rows, routes), path)
  {
    if routes != [] {
      var n := |routes| - 1;
      assert routes[n] in routes;
      ByRoutesElsewhere(s, rows, routes[..n], path);
      var chosen := SelectRoute(rows, Some(routes[n]));
      StampedHolds(rows, Some(routes[n]));
      UndoElsewhere(ByRoutes(s, rows, routes[..n]), chosen, Calm(|chosen|), path);
    }
  }

  /** Route after route, in any order, is the whole undo, once every row's route has been named. */
  lemma {:induction false} RoutesTogetherAreTheWhole(s: Shelf, rows: seq<Row>, routes: seq<string>)
    requires Unique(rows) && "" !in routes
    requires forall r :: r in rows ==> r.route.Some? && r.route.value in routes
    ensures ByRoutes(s, rows, routes) == Undoing(s, rows, Calm(|rows|))
  {
    var t, u := ByRoutes(s, rows, routes), Undoing(s, rows, Calm(|rows|));
    forall p ensures SameAt(t, u, p) {
      if k :| 0 <= k < |rows| && rows[k].path == p {
        assert rows[k] in rows;
        ByRoutesAt(s, rows, routes, k);
        UndoAt(s, rows, Calm(|rows|), k);
      } else {
        ByRoutesElsewhere(s, rows, routes, p);
        UndoElsewhere(s, rows, Calm(|rows|), p);
      }
    }
    EqualEverywhere(t, u);
  }

  lemma {:induction false} EqualEverywhere(s: Shelf, t: Shelf)
    requires forall path :: SameAt(s, t, path)
    ensures s == t
  {
    forall path ensures path in s.files <==> path in t.files { assert SameAt(s, t, path); }
    forall path | path in s.files ensures s.files[path] == t.files[path] { assert SameAt(s, t, path); }
    forall path ensures path in s.temps <==> path in t.temps { assert SameAt(s, t, path); }
    assert s.files == t.files;
  }

  // ---- why the journal is replayed backwards ----

  /** The first row about a path. */
  function FirstRow(rows: seq<Row>, path: string): (r: Option<Row>)
    ensures r.None? <==> forall q :: q in rows ==> q.path != path
    ensures r.Some? ==> r.value in rows && r.value.path == path
  {
    if rows == [] then None
    else if rows[0].path == path then Some(rows[0])
    else
      assert forall q :: q in rows ==> q == rows[0] || q in rows[1..];
      FirstRow(rows[1..], path)
  }

  predicate SameKind(a: Old, b: Old) { a.OldAlbum? <==> b.OldAlbum? }

  lemma {:induction false} FirstRowOfPrefix(rows: seq<Row>, path: string)
    requires rows != []
    ensures var n := |rows| - 1;
      FirstRow(rows, path) == (if FirstRow(rows[..n], path).Some? then FirstRow(rows[..n], path)
                               else if rows[n].path == path then Some(rows[n]) else None)
  {
    if |rows| > 1 {
      assert rows[1..][..|rows| - 2] == rows[..|rows| - 1][1..];
      FirstRowOfPrefix(rows[1..], path);
    }
  }

  /** Even in a journal that names a path twice, the undo ends with the values the path had first. */
  lemma {:induction false} FirstRowWins(s: Shelf, rows: seq<Row>, path: string)
    requires path in s.files && path !in s.temps && FirstRow(rows, path).Some?
    requires forall a, b :: a in rows && b in rows && a.path == path && b.path == path ==> SameKind(a.was, b.was)
    ensures var t := Undoing(s, rows, Calm(|rows|));
      path in t.files && t.files[path] == Retag(s.files[path],
                                                Restored(s.files[path].tags, FirstRow(rows, path).value.was))
    decreases |rows|
  {
    var n := |rows| - 1;
    var t := PutBack(s, rows[n].path, rows[n].was, Never);
    FirstRowOfPrefix(rows, path);
    assert Calm(|rows|)[..n] == Calm(n);
    if FirstRow(rows[..n], path).Some? {
      var first := FirstRow(rows, path).value;
      assert rows[n] in rows && first in rows;
      FirstRowWins(t, rows[..n], path);
    } else {
      UndoElsewhere(t, rows[..n], Calm(n), path);
    }
  }
}
