/** What a tag commit and an undo do, failure by failure and file by file. */
module Undos {
  import opened Basics
  import opened TagRuns

  // ---- one commit, by where it fails ----

  /** The file is rewritten to carry what is wanted. */
  ghost predicate Rewritten(s: Shelf, t: Shelf, a: Action) {
    && a.path in s.files && t.temps == s.temps
    && t.files == s.files[a.path := File(Applied(s.files[a.path].tags, a.wanted), s.files[a.path].info)]
  }

  /** A file that is missing or cannot be read fails untouched; one that carries what is wanted is already right; a
      leftover copy, or a failure before the copy is made, refuses the file; one between that and the swap leaves the
      copy behind; one after the swap leaves the file rewritten and no journal row; and one after the row, both. */
  lemma {:induction false} CommitByFault(s: Shelf, a: Action, fault: Fault)
    ensures var t, rows, how := Committed(s, a, fault), Journaled(s, a, fault), HowOf(s, a, fault);
      var row := Row(a.path, a.was, a.wanted, Some(a.route));
      if a.path !in s.files then t == s && rows == [] && how == Failed
      else if Carries(s.files[a.path].tags, a.wanted) then
        t == s && rows == [] && how == if fault == ReadFails then Failed else AlreadyRight
      else if a.path in s.temps then t == s && rows == [] && how == Failed
      else
        match fault
        case Never => Rewritten(s, t, a) && rows == [row] && how == Written
        case BookFails => Rewritten(s, t, a) && rows == [row] && how == Failed
        case FsyncFails => Rewritten(s, t, a) && rows == [] && how == Failed
        case FinalWrong => Rewritten(s, t, a) && rows == [] && how == Failed
        case JournalFails => Rewritten(s, t, a) && rows == [] && how == Failed
        case ReadFails => t == s && rows == [] && how == Failed
        case ProtectFails => t == s && rows == [] && how == Failed
        case _ => t == Shelf(s.files, s.temps + {a.path}) && rows == [] && how == Failed
  {
  }

  // ---- one restore ----

  /** A row's file comes back unless it is missing, a leftover copy stands beside it, or a step before the swap
      fails. */
  predicate ComesBack(s: Shelf, path: string, fault: Fault) {
    path in s.files && path !in s.temps &&
    !(fault.ReadFails? || fault.ProtectFails? || fault.CopyFails? || fault.WriteFails? || fault.StagedWrong? ||
      fault.SwapFails?)
  }

  lemma {:induction false} RestoreByFault(s: Shelf, path: string, was: Old, fault: Fault)
    ensures var t := PutBack(s, path, was, fault);
      && t.files == (if ComesBack(s, path, fault)
                     then s.files[path := File(Restored(s.files[path].tags, was), s.files[path].info)] else s.files)
      && Reaches(s, path, fault) == ComesBack(s, path, fault)
      && (t.temps == s.temps || (path in s.files && t.temps == s.temps + {path}))
  {
  }

  // ---- the whole undo ----

  /** After the undo the row's file has the row's values if it came back, and is as it was if not. */
  ghost predicate EndsAs(s: Shelf, t: Shelf, row: Row, fault: Fault) {
    row.path in s.files ==>
      && row.path in t.files
      && t.files[row.path] == if ComesBack(s, row.path, fault)
                              then File(Restored(s.files[row.path].tags, row.was), s.files[row.path].info)
                              else s.files[row.path]
  }

  /** With one row per path, exactly the files that come back have the values of their rows, every other file is as it
      was, and the count is that of the rows whose restore also synced. */
  lemma {:induction false} UndoByRow(s: Shelf, rows: seq<Row>, faults: seq<Fault>)
    requires |faults| == |rows| && Unique(rows)
    ensures var t := Undoing(s, rows, faults);
      && t.files.Keys == s.files.Keys
      && (forall k :: 0 <= k < |rows| ==> EndsAs(s, t, rows[k], faults[k]))
      && (forall p :: p in s.files && (forall k :: 0 <= k < |rows| ==> rows[k].path != p) ==>
            p in t.files && t.files[p] == s.files[p])
  {
    var t := Undoing(s, rows, faults);
    forall k | 0 <= k < |rows| ensures EndsAs(s, t, rows[k], faults[k]) {
      UndoAt(s, rows, faults, k);
      RestoreByFault(s, rows[k].path, rows[k].was, faults[k]);
    }
    forall p | p in s.files && (forall k :: 0 <= k < |rows| ==> rows[k].path != p)
      ensures p in t.files && t.files[p] == s.files[p]
    {
      UndoElsewhere(s, rows, faults, p);
    }
    forall p ensures p in t.files <==> p in s.files { UndoKeepsNames(s, rows, faults, p); }
  }

  lemma {:induction false} UndoKeepsNames(s: Shelf, rows: seq<Row>, faults: seq<Fault>, p: string)
    requires |faults| == |rows|
    ensures p in Undoing(s, rows, faults).files <==> p in s.files
    decreases |rows|
  {
    if rows != [] {
      var n := |rows| - 1;
      RestoreByFault(s, rows[n].path, rows[n].was, faults[n]);
      UndoKeepsNames(PutBack(s, rows[n].path, rows[n].was, faults[n]), rows[..n], faults[..n], p);
    }
  }

  /** The rows that are counted as restored. */
  ghost function CountedRows(s: Shelf, rows: seq<Row>, faults: seq<Fault>): set<nat>
    requires |faults| == |rows|
  {
    set k: nat | k < |rows| && ComesBack(s, rows[k].path, faults[k]) && !faults[k].FsyncFails?
  }

  lemma {:induction false} RestoresCounts(s: Shelf, rows: seq<Row>, faults: seq<Fault>)
    requires |faults| == |rows| && Unique(rows)
    ensures Restores(s, rows, faults) == |CountedRows(s, rows, faults)|
    decreases |rows|
  {
    if rows != [] {
      var n := |rows| - 1;
      var t := PutBack(s, rows[n].path, rows[n].was, faults[n]);
      RestoresCounts(t, rows[..n], faults[..n]);
      RestoreByFault(s, rows[n].path, rows[n].was, faults[n]);
      OthersCountAlike(s, rows, faults);
      var before, all := CountedRows(t, rows[..n], faults[..n]), CountedRows(s, rows, faults);
      if n in all { assert all == before + {n}; } else { assert all == before; }
    }
  }

  lemma {:induction false} OthersCountAlike(s: Shelf, rows: seq<Row>, faults: seq<Fault>)
    requires |faults| == |rows| && Unique(rows) && rows != []
    ensures var n := |rows| - 1;
      var t := PutBack(s, rows[n].path, rows[n].was, faults[n]);
      forall k: nat :: k in CountedRows(t, rows[..n], faults[..n]) <==> k < n && k in CountedRows(s, rows, faults)
  {
    var n := |rows| - 1;
    var t := PutBack(s, rows[n].path, rows[n].was, faults[n]);
    RestoreByFault(s, rows[n].path, rows[n].was, faults[n]);
    forall k: nat | k < n ensures ComesBack(t, rows[k].path, faults[k]) <==> ComesBack(s, rows[k].path, faults[k]) {
      assert rows[k].path != rows[n].path;
    }
  }

  // ---- without a route ----

  /** An undo that names no route, and meets no failure, gives every journaled file on the shelf, with no leftover copy,
      the values of its row; it counts every row whose file is there. */
  lemma {:induction false} UndoWithoutRoute(s: Shelf, rows: seq<Row>, route: Option<string>, faults: seq<Fault>)
    requires (route == None || route == Some("")) && Unique(rows)
    requires |faults| == |rows| && forall i :: 0 <= i < |faults| ==> faults[i] == Never
    ensures SelectRoute(rows, route) == rows
    ensures var t := Undoing(s, SelectRoute(rows, route), faults);
      forall k :: 0 <= k < |rows| && rows[k].path in s.files && rows[k].path !in s.temps ==>
        rows[k].path in t.files &&
        t.files[rows[k].path] == File(Restored(s.files[rows[k].path].tags, rows[k].was), s.files[rows[k].path].info)
    ensures (forall k :: 0 <= k < |rows| ==> rows[k].path in s.files && rows[k].path !in s.temps) ==>
      Restores(s, SelectRoute(rows, route), faults) == |rows|
  {
    UndoByRow(s, rows, faults);
    RestoresCounts(s, rows, faults);
    assert forall k :: 0 <= k < |rows| ==> EndsAs(s, Undoing(s, rows, faults), rows[k], faults[k]);
    if forall k :: 0 <= k < |rows| ==> rows[k].path in s.files && rows[k].path !in s.temps {
      AllCount(s, rows, faults);
    }
  }

  lemma {:induction false} AllCount(s: Shelf, rows: seq<Row>, faults: seq<Fault>)
    requires |faults| == |rows| && forall i :: 0 <= i < |faults| ==> faults[i] == Never
    requires forall k :: 0 <= k < |rows| ==> rows[k].path in s.files && rows[k].path !in s.temps
    ensures |CountedRows(s, rows, faults)| == |rows|
  {
    RangeSize(0, |rows|);
    assert CountedRows(s, rows, faults) == Range(0, |rows|);
  }

  /** The file was rewritten, and its journal row never came. */
  predicate Lost(s: Shelf, a: Action, fault: Fault) {
    a.path in s.files && a.path !in s.temps && !Carries(s.files[a.path].tags, a.wanted) &&
    (fault.FsyncFails? || fault.FinalWrong? || fault.JournalFails?)
  }

  /** A run and an undo that names no route: the library is back if and only if every swapped file was journaled. */
  lemma {:induction false} RunThenUndo(s: Shelf, actions: seq<Action>, faults: seq<Fault>, route: Option<string>)
    requires |faults| == |actions| && Decided(s, actions) && (route == None || route == Some(""))
    ensures var (t, journal) := Applying(s, actions, faults);
      var rows := SelectRoute(journal, route);
      Undoing(t, rows, Calm(|rows|)).files == s.files <==>
      forall k :: 0 <= k < |actions| ==> !Lost(s, actions[k], faults[k])
  {
    WholeRunUndone(s, actions, faults);
    forall k | 0 <= k < |actions|
      ensures Lost(s, actions[k], faults[k]) <==> Swaps(s, actions[k], faults[k]) && faults[k].LosesRow()
    {
      LostIff(s, actions[k], faults[k]);
    }
  }

  lemma {:induction false} LostIff(s: Shelf, a: Action, fault: Fault)
    ensures Lost(s, a, fault) <==> Swaps(s, a, fault) && fault.LosesRow()
  {
  }

  /** An undo that names a route takes that route's rows, each as often as the journal has it, and no other. */
  lemma {:induction false} RouteSelects(rows: seq<Row>, route: string, r: Row)
    requires route != ""
    ensures multiset(SelectRoute(rows, Some(route)))[r] == if r.route == Some(route) then multiset(rows)[r] else 0
  {
    StampedCounts(rows, Some(route), r);
  }

  lemma {:induction false} StampedCounts(rows: seq<Row>, route: Option<string>, r: Row)
    ensures multiset(Stamped(rows, route))[r] == if r.route == route then multiset(rows)[r] else 0
  {
    if rows != [] {
      var n := |rows| - 1;
      StampedCounts(rows[..n], route, r);
      assert rows == rows[..n] + [rows[n]];
    }
  }
}
