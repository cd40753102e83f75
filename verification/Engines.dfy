/** The consolidation engine: the loops of run.py, each proved against its specification. */
module Engines {
  import opened Basics
  import opened Paths
  import opened Names
  import opened Fsx
  import L = Ledger
  import opened Planning
  import opened PlanProofs
  import opened Worlds
  import opened Histories
  import opened Report
  import D = Duplicates

  /** The evidence directories: one deletes.json for each run. */
  class RunDirs {
    var stages: map<L.RunId, seq<Candidate>>

    constructor ()
      ensures stages == map[]
    {
      stages := map[];
    }
  }

  // ---- the index, read as classes of equal bytes ----

  function EntriesOf(found: seq<Found>): (r: seq<D.Entry>)
    ensures |r| == |found|
  {
    if found == [] then []
    else EntriesOf(found[..|found| - 1]) + [D.Entry(found[|found| - 1].path, found[|found| - 1].size)]
  }

  ghost predicate Measured(files: Files, found: seq<Found>) {
    forall f :: f in found ==> f.path in files && f.size == |files[f.path]|
  }

  lemma {:induction false} PickAppend(xs: seq<Path>, x: Path, s: set<Path>)
    ensures Pick(xs + [x], s) == Pick(xs, s) + if x in s then [x] else []
  {
    assert (xs + [x])[..|xs|] == xs;
  }

  lemma {:induction false} SizeAppend(es: seq<D.Entry>, e: D.Entry, n: nat)
    ensures D.PathsOfSize(es + [e], n) == D.PathsOfSize(es, n) + if e.size == n then [e.path] else []
  {
    assert (es + [e])[..|es|] == es;
  }

  /** When every path in s was added with size k, the size buckets split nothing of s. */
  lemma {:induction false} SizeBucket(found: seq<Found>, s: set<Path>, k: nat, n: nat)
    requires forall f :: f in found && f.path in s ==> f.size == k
    ensures Pick(D.PathsOfSize(EntriesOf(found), n), s) == if n == k then Pick(PathsOf(found), s) else []
  {
    if found != [] {
      var init, last := found[..|found| - 1], found[|found| - 1];
      assert last in found;
      SizeBucket(init, s, k, n);
      SizeAppend(EntriesOf(init), D.Entry(last.path, last.size), n);
      PickAppend(PathsOf(init), last.path, s);
      var ps := D.PathsOfSize(EntriesOf(init), n);
      PickAppend(ps, last.path, s);
      assert ps + [] == ps;
    }
  }

  /** With true sizes, the size a path was added with never separates equal files. */
  lemma {:induction false} TrueSizes(files: Files, found: seq<Found>, n: nat, bytes: Bytes)
    requires Measured(files, found)
    ensures D.ClassOf(files, EntriesOf(found), n, bytes) ==
      if n == |bytes| then D.SameBytes(PathsOf(found), files, bytes) else []
  {
    SizeBucket(found, D.WithDigest(files, false, Digest(bytes)), |bytes|, n);
  }

  /** The dictionary from path to group answers what GroupFor says. */
  ghost predicate Answers(byPath: map<Path, seq<Path>>, files: Files, index: seq<Path>) {
    forall p :: p in index && p in files ==>
      (if p in byPath then byPath[p] else [p]) == GroupFor(files, index, p)
  }

  ghost predicate TrueGroups(groups: seq<D.Group>, files: Files, index: seq<Path>) {
    && (forall g :: g in groups ==> |g.paths| >= 2 && g.paths == D.SameBytes(index, files, g.digest.of))
    && (forall p :: p in index && p in files && |D.SameBytes(index, files, files[p])| >= 2 ==>
          exists g :: g in groups && g.paths == D.SameBytes(index, files, files[p]))
  }

  lemma {:induction false} GroupsAreTrue(groups: seq<D.Group>, files: Files, found: seq<Found>)
    requires Measured(files, found)
    requires forall g :: g in groups ==>
      g.paths == D.ClassOf(files, EntriesOf(found), g.size, g.digest.of) && |g.paths| >= 2
    requires forall n: nat, bytes :: |D.ClassOf(files, EntriesOf(found), n, bytes)| >= 2 ==>
      D.Group(n, Digest(bytes), D.ClassOf(files, EntriesOf(found), n, bytes)) in groups
    ensures TrueGroups(groups, files, PathsOf(found))
  {
    forall g | g in groups ensures g.paths == D.SameBytes(PathsOf(found), files, g.digest.of) {
      TrueSizes(files, found, g.size, g.digest.of);
    }
    forall p | p in PathsOf(found) && p in files && |D.SameBytes(PathsOf(found), files, files[p])| >= 2
      ensures exists g :: g in groups && g.paths == D.SameBytes(PathsOf(found), files, files[p])
    {
      TrueSizes(files, found, |files[p]|, files[p]);
      var c := D.ClassOf(files, EntriesOf(found), |files[p]|, files[p]);
      assert D.Group(|files[p]|, Digest(files[p]), c) in groups;
    }
  }

  /** The loop that inverts the groups: each path to the paths of its group. */
  method ByPath(groups: seq<D.Group>, ghost same: Path -> seq<Path>) returns (byPath: map<Path, seq<Path>>)
    requires forall g, p :: g in groups && p in g.paths ==> g.paths == same(p)
    ensures forall p :: p in byPath ==> byPath[p] == same(p) && exists g :: g in groups && p in g.paths
    ensures forall g, p :: g in groups && p in g.paths ==> p in byPath
  {
    byPath := map[];
    for i := 0 to |groups|
      invariant forall p :: p in byPath ==> byPath[p] == same(p) && exists g :: g in groups && p in g.paths
      invariant forall g, p :: g in groups[..i] && p in g.paths ==> p in byPath
    {
      var paths := groups[i].paths;
      assert groups[i] in groups;
      for j := 0 to |paths|
        invariant forall p :: p in byPath ==> byPath[p] == same(p) && exists g :: g in groups && p in g.paths
        invariant forall g, p :: g in groups[..i] && p in g.paths ==> p in byPath
        invariant forall p :: p in paths[..j] ==> p in byPath
      {
        assert paths[j] in paths;
        byPath := byPath[paths[j] := paths];
      }
    }
    assert groups[..|groups|] == groups;
  }

  lemma {:induction false} ByPathAnswers(groups: seq<D.Group>, byPath: map<Path, seq<Path>>, files: Files,
                                         index: seq<Path>)
    requires TrueGroups(groups, files, index)
    requires forall p :: p in byPath ==>
      p in files && byPath[p] == D.SameBytes(index, files, files[p]) && exists g :: g in groups && p in g.paths
    requires forall g, p :: g in groups && p in g.paths ==> p in byPath
    ensures Answers(byPath, files, index)
  {
    forall p | p in index && p in files
      ensures (if p in byPath then byPath[p] else [p]) == GroupFor(files, index, p)
    {
      SameBytesMembers(index, files, files[p]);
      if p in byPath {
        var g :| g in groups && p in g.paths;
        SameBytesMembers(index, files, g.digest.of);
      }
    }
  }

  lemma {:induction false} ScopesAre(files: Files, c: Config, walks: Walks, scopes: map<Path, Scope>)
    requires forall p :: p in scopes <==> p in DestFiles(files, c, walks) || p in LibraryFiles(files, c, walks)
    requires forall p :: p in scopes ==> scopes[p] == if p in LibraryFiles(files, c, walks) then InLibrary else OnDest
    ensures scopes == ScopeOf(files, c, walks)
  {
  }

  /** The recorded sums of a list of deeds and buckets, as a caller accumulates them. */
  function Plus(a: Tally, b: Tally): Tally { Tally(a.files + b.files, a.bytes + b.bytes) }

  // ---- the claimed-names dictionaries of a plan ----

  /** Each dictionary holds the keys of its directory: on disk, and claimed by the rows so far. */
  ghost predicate Claims(claimed: map<Path, map<string, string>>, c: Config, files: Files, rows: seq<PlanRow>) {
    && (forall d :: d in claimed ==> claimed[d].Keys == ClaimedOnDisk(c, files, d) + ClaimedByRun(c, rows, d))
    && (forall d :: d !in claimed ==> ClaimedByRun(c, rows, d) == {})
  }

  lemma {:induction false} ClaimedAppend(c: Config, rows: seq<PlanRow>, row: PlanRow, d: Path)
    ensures ClaimedByRun(c, rows + [row], d) == ClaimedByRun(c, rows, d) +
      if row.action.CopyTo? && row.action.dst != [] && Parent(row.action.dst) == d
      then {c.naming.key(Leaf(row.action.dst))} else {}
  {
    var rows' := rows + [row];
    assert rows'[|rows|] == row;
    forall x | x in ClaimedByRun(c, rows, d) ensures x in ClaimedByRun(c, rows', d) {
      var i :| 0 <= i < |rows| && rows[i].action.CopyTo? && rows[i].action.dst != [] &&
        Parent(rows[i].action.dst) == d && x == c.naming.key(Leaf(rows[i].action.dst));
      assert rows'[i] == rows[i];
    }
  }

  lemma {:induction false} ClaimsKeep(claimed: map<Path, map<string, string>>, c: Config, files: Files,
                                      rows: seq<PlanRow>, row: PlanRow)
    requires Claims(claimed, c, files, rows) && !row.action.CopyTo?
    ensures Claims(claimed, c, files, rows + [row])
  {
    forall d ensures ClaimedByRun(c, rows + [row], d) == ClaimedByRun(c, rows, d) { ClaimedAppend(c, rows, row, d); }
  }

  lemma {:induction false} ClaimsGrow(claimed: map<Path, map<string, string>>, c: Config, files: Files,
                                      rows: seq<PlanRow>, row: PlanRow, dir: Path, seen: map<string, string>)
    requires Claims(claimed, c, files, rows)
    requires row.action.CopyTo? && row.action.dst != [] && Parent(row.action.dst) == dir
    requires seen.Keys ==
      ClaimedOnDisk(c, files, dir) + ClaimedByRun(c, rows, dir) + {c.naming.key(Leaf(row.action.dst))}
    ensures Claims(claimed[dir := seen], c, files, rows + [row])
  {
    ClaimedAppend(c, rows, row, dir);
    assert seen.Keys == ClaimedOnDisk(c, files, dir) + ClaimedByRun(c, rows + [row], dir);
    var grown := claimed[dir := seen];
    forall d | d != dir
      ensures d in grown ==> grown[d].Keys == ClaimedOnDisk(c, files, d) + ClaimedByRun(c, rows + [row], d)
      ensures d !in grown ==> ClaimedByRun(c, rows + [row], d) == {}
    {
      ClaimedAppend(c, rows, row, d);
      assert ClaimedByRun(c, rows + [row], d) == ClaimedByRun(c, rows, d);
    }
  }

  lemma {:induction false} PlanAppend(c: Config, files: Files, seen: seq<Seen>, i: nat)
    requires i < |seen| && forall s :: s in seen ==> s.found.rel != [] && s.found.path != []
    requires PlanRows(c, files, seen[..i]).Some?
    ensures var rows := PlanRows(c, files, seen[..i]).value;
      PlanRows(c, files, seen[..i + 1]) ==
        match Decide(c, files, rows, seen[i]) case None => None case Some(row) => Some(rows + [row])
  {
    assert seen[..i + 1][..i] == seen[..i];
  }

  lemma {:induction false} PlanStuck(c: Config, files: Files, seen: seq<Seen>, i: nat)
    requires i <= |seen| && forall s :: s in seen ==> s.found.rel != [] && s.found.path != []
    requires PlanRows(c, files, seen[..i]).None?
    ensures PlanRows(c, files, seen).None?
    decreases |seen|
  {
    if i == |seen| {
      assert seen[..i] == seen;
    } else {
      var init := seen[..|seen| - 1];
      assert init[..i] == seen[..i];
      PlanStuck(c, files, init, i);
    }
  }

  lemma {:induction false} BucketAppend(rows: seq<PlanRow>, row: PlanRow, b: Bucket)
    ensures InBucket(rows + [row], b) ==
      if RowBucket(row.action) == b then Add(InBucket(rows, b), row.Size()) else InBucket(rows, b)
  {
    assert (rows + [row])[..|rows|] == rows;
  }

  lemma {:induction false} CheckedNext(files: Files, plan: seq<PlanRow>, i: nat, base: Tally)
    requires i < |plan|
    ensures AllVerify(files, plan[..i + 1]) <==> AllVerify(files, plan[..i]) && Verifies(files, plan[i])
    ensures Plus(base, Checked(files, plan[..i + 1])) ==
      var before := Plus(base, Checked(files, plan[..i]));
      if Verifies(files, plan[i]) && plan[i].action.CopyTo? then Add(before, plan[i].Size()) else before
  {
    assert plan[..i + 1] == plan[..i] + [plan[i]] && plan[..i + 1][..i] == plan[..i];
    assert forall r :: r in plan[..i + 1] <==> r in plan[..i] || r == plan[i];
  }

  class Engine {
    const config: Config
    const disk: Disk
    const ledger: L.Ledger
    const dirs: RunDirs
    const summary: Summary

    constructor (config: Config, disk: Disk, ledger: L.Ledger, dirs: RunDirs)
      ensures this.config == config && this.disk == disk && this.ledger == ledger && this.dirs == dirs
      ensures fresh(summary) && Tabulated([])
      ensures summary.actions == map[] && summary.relocated == 0
    {
      this.config, this.disk, this.ledger, this.dirs := config, disk, ledger, dirs;
      var s := new Summary();
      summary := s;
    }

    ghost function World(): Worlds.World
      reads disk, ledger, dirs
    {
      Worlds.World(disk.files, ledger.rows, dirs.stages, ledger.runs)
    }

    /** One os.walk: the listed files below a root, measured. */
    method ListUnder(root: Path, walks: Walks) returns (found: seq<Found>)
      ensures found == FoundUnder(disk.files, root, Walk(walks, root))
    {
      var listed := Walk(walks, root);
      found := [];
      for i := 0 to |listed|
        invariant found == FoundUnder(disk.files, root, listed[..i])
      {
        assert listed[..i + 1][..i] == listed[..i];
        var p := listed[i];
        if p in disk.files && Under(root, p) {
          found := found + [Found(p, |disk.files[p]|, p[|root|..])];
        }
      }
      assert listed[..|listed|] == listed;
    }

    /** `scan`. */
    method Scan(walks: Walks) returns (found: seq<Found>)
      ensures found == Planning.Scan(disk.files, walks, config.srcs)
    {
      found := [];
      for i := 0 to |config.srcs|
        invariant found == Planning.Scan(disk.files, walks, config.srcs[..i])
      {
        assert config.srcs[..i + 1][..i] == config.srcs[..i];
        var more := ListUnder(config.srcs[i], walks);
        found := found + more;
      }
      assert config.srcs[..|config.srcs|] == config.srcs;
    }

    method Label(paths: seq<Path>, scope: Scope, before: map<Path, Scope>) returns (scopes: map<Path, Scope>)
      ensures forall p :: p in scopes <==> p in before || p in paths
      ensures forall p :: p in scopes ==> scopes[p] == if p in paths then scope else before[p]
    {
      scopes := before;
      for i := 0 to |paths|
        invariant forall p :: p in scopes <==> p in before || p in paths[..i]
        invariant forall p :: p in scopes ==> scopes[p] == if p in paths[..i] then scope else before[p]
      {
        scopes := scopes[paths[i] := scope];
      }
      assert paths[..|paths|] == paths;
    }

    /** Fill the duplicate index with sources, destination and library, and invert its groups. */
    method GroupPaths(all: seq<Found>, head: D.Memo, full: D.Memo, stamps: map<Path, int>)
      returns (byPath: map<Path, seq<Path>>)
      requires Measured(disk.files, all)
      requires D.Truthful(head, disk.files, stamps, true) && D.Truthful(full, disk.files, stamps, false)
      ensures Answers(byPath, disk.files, PathsOf(all))
    {
      var files := disk.files;
      var dup := new D.Duplicates(head, full);
      for i := 0 to |all|
        invariant dup.paths == EntriesOf(all[..i]) && dup.Honest(files, stamps) && fresh(dup)
      {
        assert all[..i + 1][..i] == all[..i];
        dup.Add(all[i].path, all[i].size);
      }
      assert all[..|all|] == all;
      var groups := dup.Groups(files, stamps);
      GroupsAreTrue(groups, files, all);
      ghost var index := PathsOf(all);
      ghost var same := (p: Path) => if p in files then D.SameBytes(index, files, files[p]) else [];
      forall g, p | g in groups && p in g.paths ensures p in files && g.paths == same(p) {
        SameBytesMembers(index, files, g.digest.of);
      }
      byPath := ByPath(groups, same);
      ByPathAnswers(groups, byPath, files, index);
    }

    /** The walks of `overlap` over the layout root and the library. */
    method Existing(walks: Walks) returns (onDest: seq<Found>, inLibrary: seq<Found>)
      ensures PathsOf(onDest) == DestFiles(disk.files, config, walks) && Measured(disk.files, onDest)
      ensures PathsOf(inLibrary) == LibraryFiles(disk.files, config, walks) && Measured(disk.files, inLibrary)
    {
      onDest := ListUnder(config.LayoutRoot(), walks);
      inLibrary := [];
      if config.LibraryRoot().Some? { inLibrary := ListUnder(config.LibraryRoot().value, walks); }
    }

    /** `overlap`. */
    method Overlap(found: seq<Found>, walks: Walks, head: D.Memo, full: D.Memo, stamps: map<Path, int>)
      returns (seen: seq<Seen>)
      requires found == Planning.Scan(disk.files, walks, config.srcs)
      requires D.Truthful(head, disk.files, stamps, true) && D.Truthful(full, disk.files, stamps, false)
      ensures seen == SeenRows(config, walks, disk.files)
    {
      var onDest, inLibrary := Existing(walks);
      var all := found + (onDest + inLibrary);
      PathsOfConcat(onDest, inLibrary);
      PathsOfConcat(found, onDest + inLibrary);
      var byPath := GroupPaths(all, head, full, stamps);
      var scopes := Label(PathsOf(onDest), OnDest, map[]);
      scopes := Label(PathsOf(inLibrary), InLibrary, scopes);
      ScopesAre(disk.files, config, walks, scopes);
      forall f | f in found ensures f.path in PathsOf(found) { PathsIn(found, f); }
      seen := SeeAll(found, byPath, scopes, PathsOf(all),
                     Planning.Overlap(disk.files, PathsOf(all), scopes, SourcesOf(found), found));
    }

    /** The last loop of `overlap`. */
    method SeeAll(found: seq<Found>, byPath: map<Path, seq<Path>>, scopes: map<Path, Scope>, ghost index: seq<Path>,
                  ghost goal: seq<Seen>)
      returns (seen: seq<Seen>)
      requires Answers(byPath, disk.files, index)
      requires forall f :: f in found ==> f.path in disk.files && f.path in index
      requires |goal| == |found| &&
        forall i :: 0 <= i < |found| ==> goal[i] == Planning.See(disk.files, index, scopes, SourcesOf(found), found[i])
      ensures seen == goal
    {
      var sources := SourcesOf(found);
      seen := [];
      for i := 0 to |found|
        invariant seen == goal[..i]
      {
        assert found[i] in found;
        var s := SeeOne(found[i], byPath, scopes, sources, index, goal[i]);
        seen := seen + [s];
      }
    }

    /** One row of `overlap`: the group of a file, where its other members stand, and the survivor. */
    method SeeOne(f: Found, byPath: map<Path, seq<Path>>, scopes: map<Path, Scope>, sources: set<Path>,
                  ghost index: seq<Path>, ghost goal: Seen)
      returns (s: Seen)
      requires Answers(byPath, disk.files, index) && f.path in disk.files && f.path in index
      requires goal == Planning.See(disk.files, index, scopes, sources, f)
      ensures s == goal
    {
      var group := if f.path in byPath then byPath[f.path] else [f.path];
      assert group == GroupFor(disk.files, index, f.path);
      var others := set q | q in group && q != f.path;
      s := Seen(f, set q | q in others && q in scopes :: scopes[q], Pick(group, others * sources), group[0]);
    }

    /** `_claimed_names`. */
    method ClaimedNames(dir: Path) returns (seen: map<string, string>)
      ensures seen.Keys == ClaimedOnDisk(config, disk.files, dir)
    {
      seen := map[];
      var todo := ListDir(disk.files.Keys, dir);
      ghost var done: set<Component> := {};
      while todo != {}
        invariant done + todo == ListDir(disk.files.Keys, dir)
        invariant seen.Keys == set leaf | leaf in done && !IsStaging(leaf) :: config.naming.key(leaf)
        decreases todo
      {
        var leaf :| leaf in todo;
        todo, done := todo - {leaf}, done + {leaf};
        if !IsStaging(leaf) && config.naming.key(leaf) !in seen {
          seen := seen[config.naming.key(leaf) := leaf];
        }
      }
    }

    /** Book one planned row; every branch of `plan` ends here. */
    method Book(row: PlanRow, scopes: set<Scope>, keep: bool, ghost rows: seq<PlanRow>, ghost base: map<Bucket, Tally>)
      requires BucketOf(scopes, keep) == RowBucket(row.action)
      requires (forall b :: b in base) && (forall b :: b in summary.overlap)
      requires forall b :: summary.overlap[b] == Plus(base[b], InBucket(rows, b))
      modifies summary`overlap
      ensures forall b :: b in summary.overlap
      ensures forall b :: summary.overlap[b] == Plus(base[b], InBucket(rows + [row], b))
    {
      summary.Classify(row.Size(), scopes, keep);
      forall b ensures summary.overlap[b] == Plus(base[b], InBucket(rows + [row], b)) { BucketAppend(rows, row, b); }
    }

    /** The copy branch of `plan`: a free name in the target directory, which is then claimed. */
    method CopyName(claimed: map<Path, map<string, string>>, s: Seen, ghost rows: seq<PlanRow>)
      returns (row: Option<PlanRow>, claimed': map<Path, map<string, string>>)
      requires s.found.rel != [] && s.found.path != [] && Claims(claimed, config, disk.files, rows)
      requires s.scopes == {} && s.survivor == s.found.path
      ensures row == Decide(config, disk.files, rows, s)
      ensures row.Some? ==> row.value.action.CopyTo? && Claims(claimed', config, disk.files, rows + [row.value])
    {
      var dir := TargetDir(config, s.found);
      var seen;
      if dir in claimed { seen := claimed[dir]; } else { seen := ClaimedNames(dir); }
      assert seen.Keys == ClaimedOnDisk(config, disk.files, dir) + ClaimedByRun(config, rows, dir);
      var name, seen' := Unique(seen, config.naming.key, config.naming.sanitise(Leaf(s.found.path)));
      if name.None? { return None, claimed; }
      row := Some(PlanRow(s, CopyTo(dir + [name.value]), None));
      assert Parent(dir + [name.value]) == dir;
      claimed' := claimed[dir := seen'];
      ClaimsGrow(claimed, config, disk.files, rows, row.value, dir, seen');
    }

    /** The body of the loop of `plan`. */
    method PlanOne(claimed: map<Path, map<string, string>>, s: Seen, ghost rows: seq<PlanRow>,
                   ghost base: map<Bucket, Tally>)
      returns (row: Option<PlanRow>, claimed': map<Path, map<string, string>>)
      requires s.found.rel != [] && s.found.path != [] && Claims(claimed, config, disk.files, rows)
      requires (forall b :: b in base) && (forall b :: b in summary.overlap)
      requires forall b :: summary.overlap[b] == Plus(base[b], InBucket(rows, b))
      modifies summary`overlap
      ensures row == Decide(config, disk.files, rows, s)
      ensures row.Some? ==> Claims(claimed', config, disk.files, rows + [row.value])
      ensures forall b :: b in summary.overlap
      ensures row.Some? ==> forall b :: summary.overlap[b] == Plus(base[b], InBucket(rows + [row.value], b))
    {
      claimed' := claimed;
      if OnDest in s.scopes {
        row := Some(PlanRow(s, AlreadyOnDest, None));
        Book(row.value, {OnDest}, true, rows, base);
        ClaimsKeep(claimed, config, disk.files, rows, row.value);
      } else if InLibrary in s.scopes {
        row := Some(PlanRow(s, AlreadyInLibrary, None));
        Book(row.value, {InLibrary}, true, rows, base);
        ClaimsKeep(claimed, config, disk.files, rows, row.value);
      } else if s.survivor != s.found.path {
        var peers := SortBy(s.peers, Before);
        row := Some(PlanRow(s, DuplicateOf(if peers == [] then None else Some(peers[0])), None));
        Book(row.value, {}, false, rows, base);
        ClaimsKeep(claimed, config, disk.files, rows, row.value);
      } else {
        NoScopes(s.scopes);
        row, claimed' := CopyName(claimed, s, rows);
        if row.Some? { Book(row.value, {}, true, rows, base); }
      }
    }

    /** `plan`: None when a directory has no free name left. */
    method Plan(found: seq<Seen>) returns (plan: Option<seq<PlanRow>>)
      requires forall s :: s in found ==> s.found.rel != [] && s.found.path != []
      requires forall b :: b in summary.overlap
      modifies summary`overlap
      ensures plan == PlanRows(config, disk.files, InPathOrder(found))
      ensures forall b :: b in summary.overlap
      ensures plan.Some? ==>
        forall b :: summary.overlap[b] == Plus(old(summary.overlap)[b], InBucket(plan.value, b))
    {
      var ordered := InPathOrder(found);
      var claimed: map<Path, map<string, string>> := map[];
      var rows: seq<PlanRow> := [];
      ghost var base := summary.overlap;
      for i := 0 to |ordered|
        invariant PlanRows(config, disk.files, ordered[..i]) == Some(rows)
        invariant Claims(claimed, config, disk.files, rows)
        invariant forall b :: b in summary.overlap
        invariant forall b :: summary.overlap[b] == Plus(base[b], InBucket(rows, b))
      {
        PlanAppend(config, disk.files, ordered, i);
        var row;
        row, claimed := PlanOne(claimed, ordered[i], rows, base);
        if row.None? {
          PlanStuck(config, disk.files, ordered, i + 1);
          return None;
        }
        rows := rows + [row.value];
      }
      assert ordered[..|ordered|] == ordered;
      return Some(rows);
    }

    /** `stage_deletes`: writes the suggestion, deletes nothing. */
    method StageDeletes(plan: seq<PlanRow>) returns (staged: seq<Candidate>)
      modifies dirs
      ensures staged == Candidates(Placed(plan), plan)
      ensures dirs.stages == old(dirs.stages)[config.run := staged]
    {
      var placed: map<Path, Path> := map[];
      for i := 0 to |plan|
        invariant placed == Placed(plan[..i])
      {
        assert plan[..i + 1][..i] == plan[..i];
        if plan[i].action.CopyTo? { placed := placed[plan[i].Path() := plan[i].action.dst]; }
      }
      assert plan[..|plan|] == plan;
      staged := [];
      for i := 0 to |plan|
        invariant staged == Candidates(placed, plan[..i])
      {
        assert plan[..i + 1][..i] == plan[..i];
        var row := plan[i];
        if !row.action.CopyTo? {
          var proof := if row.seen.survivor in placed then placed[row.seen.survivor] else row.seen.survivor;
          staged := staged + [Candidate(row.Path(), row.Size(), row.sha, proof, row.action)];
        }
      }
      dirs.stages := dirs.stages[config.run := staged];
    }

    /** A copy row that is not skipped: copy, verify, record. */
    method CopyOne(row: PlanRow, dst: Path, ios: map<Path, Io>) returns (row': PlanRow, deed: Option<(Deed, nat)>)
      requires Orderly(ios) && row.action == CopyTo(dst) && dst != []
      modifies disk, ledger`rows
      ensures Progress(disk.files, ledger.rows, [row']) ==
        ApplyRow(config.run, {}, ios, Progress(old(disk.files), old(ledger.rows), []), row)
      ensures deed == DeedOf(config.run, {}, ios, Progress(old(disk.files), old(ledger.rows), []), row)
    {
      ghost var before := disk.files;
      var io := IoAt(ios, dst);
      LandsIff(before, row.Path(), dst, true, None, io);
      var r := disk.CopyFile(row.Path(), dst, true, None, io);
      CopyMeans(before, disk.files, row.Path(), dst, io, r);
      if r.Raised? { return row, Some((CopyFailed, row.Size())); }
      row' := row.(sha := Some(r.receipt.sha256));
      ledger.VerifyCopy(config.run, dst, r.receipt.sha256, r.receipt.bytes, "apply:copy");
      deed := Some((if r.receipt.reflinked then CopyReflink else CopyCopy, r.receipt.bytes));
    }

    /** One row of `apply_plan`: skip, copy and record, or note what was observed. */
    method ApplyOne(row: PlanRow, done: set<Path>, ios: map<Path, Io>)
      returns (row': PlanRow, deed: Option<(Deed, nat)>)
      requires Orderly(ios) && (row.action.CopyTo? ==> row.action.dst != [])
      modifies disk, ledger`rows
      ensures Progress(disk.files, ledger.rows, [row']) ==
        ApplyRow(config.run, done, ios, Progress(old(disk.files), old(ledger.rows), []), row)
      ensures deed == DeedOf(config.run, done, ios, Progress(old(disk.files), old(ledger.rows), []), row)
    {
      row', deed := row, None;
      if !row.action.CopyTo? {
        if row.sha.Some? && row.action.AlreadyOnDest? {
          ledger.VerifyCopy(config.run, row.seen.survivor, row.sha.value, row.Size(), "observed:already-on-dest");
        }
      } else if row.action.dst in done {
        deed := Some((ResumeSkip, row.Size()));
      } else {
        row', deed := CopyOne(row, row.action.dst, ios);
      }
    }

    /** The summary lines of `apply_plan`: bump the deed, and count plain copies as relocated. */
    method BookDeed(deed: Option<(Deed, nat)>)
      modifies summary`actions, summary`relocated
      ensures forall d :: summary.Slot(d) == Report.Book(deed, d, old(summary.Slot(d)))
      ensures summary.relocated == old(summary.relocated) + Report.Book(deed, CopyCopy, Tally(0, 0)).bytes
    {
      if deed.Some? {
        var (d, bytes) := deed.value;
        if d == CopyCopy { summary.relocated := summary.relocated + bytes; }
        summary.Bump(d, bytes);
      }
    }

    /** The summary agrees with what the rows carried out so far did. */
    ghost predicate Counted(done: set<Path>, ios: map<Path, Io>, start: Progress, rows: seq<PlanRow>,
                            slots: Deed -> Tally, relocated: nat)
      reads summary
    {
      && (forall d :: summary.Slot(d) == Plus(slots(d), Did(config.run, done, ios, start, rows, d)))
      && summary.relocated == relocated + Did(config.run, done, ios, start, rows, CopyCopy).bytes
    }

    /** The body of the loop of `apply_plan`. */
    method ApplyNext(plan: seq<PlanRow>, i: nat, done: set<Path>, ios: map<Path, Io>, ghost start: Progress,
                     ghost carried: seq<PlanRow>, ghost slots: Deed -> Tally, ghost relocated: nat)
      returns (row': PlanRow)
      requires i < |plan| && Orderly(ios) && (plan[i].action.CopyTo? ==> plan[i].action.dst != [])
      requires Progress(disk.files, ledger.rows, carried) == ApplyRows(config.run, done, ios, start, plan[..i])
      requires Counted(done, ios, start, plan[..i], slots, relocated)
      modifies disk, ledger`rows, summary`actions, summary`relocated
      ensures Progress(disk.files, ledger.rows, carried + [row']) ==
        ApplyRows(config.run, done, ios, start, plan[..i + 1])
      ensures Counted(done, ios, start, plan[..i + 1], slots, relocated)
    {
      ApplyAppend(config.run, done, ios, start, plan, i, Progress(disk.files, ledger.rows, carried));
      var deed;
      row', deed := ApplyOne(plan[i], done, ios);
      BookDeed(deed);
      forall d ensures summary.Slot(d) == Plus(slots(d), Did(config.run, done, ios, start, plan[..i + 1], d)) {
        BookPlus(deed, d, slots(d), Did(config.run, done, ios, start, plan[..i], d));
      }
    }

    /** `apply_plan`, over the rows reached before an exception ends the run. */
    method ApplyPlan(plan: seq<PlanRow>, ios: map<Path, Io>, reached: nat, ghost slots: Deed -> Tally)
      returns (plan': seq<PlanRow>)
      requires Orderly(ios) && reached <= |plan| && Named(plan)
      requires forall d :: summary.Slot(d) == slots(d)
      modifies disk, ledger`rows, summary`actions, summary`relocated
      ensures Progress(disk.files, ledger.rows, plan') ==
        ApplyRows(config.run, L.CompletedPaths(old(ledger.rows), config.run), ios,
                  Progress(old(disk.files), old(ledger.rows), []), plan[..reached])
      ensures Counted(L.CompletedPaths(old(ledger.rows), config.run), ios,
        Progress(old(disk.files), old(ledger.rows), []), plan[..reached], slots, old(summary.relocated))
    {
      var done := L.CompletedPaths(ledger.rows, config.run);
      ghost var start, relocated := Progress(disk.files, ledger.rows, []), summary.relocated;
      plan' := [];
      for i := 0 to reached
        invariant Progress(disk.files, ledger.rows, plan') == ApplyRows(config.run, done, ios, start, plan[..i])
        invariant Counted(done, ios, start, plan[..i], slots, relocated)
      {
        var row' := ApplyNext(plan, i, done, ios, start, plan', slots, relocated);
        plan' := plan' + [row'];
      }
    }

    /** `authorise_staged`, which may end early, between two candidates or between the two rows of one. */
    method Authorise(reached: nat, half: bool)
      requires config.run in dirs.stages && reached <= |dirs.stages[config.run]|
      modifies ledger`rows, dirs
      ensures var staged := old(dirs.stages)[config.run];
        && ledger.rows == old(ledger.rows) + AuthoriseRows(config.run, disk.files, staged[..reached])
                          + HalfRows(config.run, disk.files, staged, reached, half)
        && dirs.stages == if reached < |staged| then old(dirs.stages)
                          else old(dirs.stages)[config.run := HashCandidates(disk.files, staged)]
    {
      var staged := dirs.stages[config.run];
      AuthoriseStaged(reached);
      if half && reached < |staged| {
        var k := staged[reached];
        if k.path in disk.files && k.survivor in disk.files {
          var sourceSha, proofSha := Sha256(disk.files[k.path]), Sha256(disk.files[k.survivor]);
          if sourceSha == proofSha {
            ledger.VerifyCopy(config.run, k.survivor, proofSha, |disk.files[k.survivor]|, "observed:survivor");
          }
        }
      }
    }

    /** The loop of `authorise_staged`: re-hash both sides now; only then observe the copy and request the delete. */
    method AuthoriseStaged(reached: nat)
      requires config.run in dirs.stages && reached <= |dirs.stages[config.run]|
      modifies ledger`rows, dirs
      ensures var staged := old(dirs.stages)[config.run];
        && ledger.rows == old(ledger.rows) + AuthoriseRows(config.run, disk.files, staged[..reached])
        && dirs.stages == if reached < |staged| then old(dirs.stages)
                          else old(dirs.stages)[config.run := HashCandidates(disk.files, staged)]
    {
      var staged := dirs.stages[config.run];
      var hashed: seq<Candidate> := [];
      for i := 0 to reached
        invariant dirs.stages == old(dirs.stages)
        invariant ledger.rows == old(ledger.rows) + AuthoriseRows(config.run, disk.files, staged[..i])
        invariant hashed == HashCandidates(disk.files, staged[..i])
      {
        assert staged[..i + 1][..i] == staged[..i];
        var k := staged[i];
        if k.path in disk.files && k.survivor in disk.files {
          var sourceSha, proofSha := Sha256(disk.files[k.path]), Sha256(disk.files[k.survivor]);
          if sourceSha == proofSha {
            ledger.VerifyCopy(config.run, k.survivor, proofSha, |disk.files[k.survivor]|, "observed:survivor");
            ledger.RequestDelete(config.run, k.path, sourceSha, k.bytes, |disk.files[k.path]|, "plan:staged");
            k := k.(sha := Some(sourceSha));
          }
        }
        hashed := hashed + [k];
      }
      if reached == |staged| {
        assert staged[..reached] == staged;
        dirs.stages := dirs.stages[config.run := hashed];
      }
    }

    /** The lines of the summary other than verification stand as given. */
    ghost predicate Keep(others: map<Deed, Tally>)
      reads summary
    {
      forall d :: d in others && d != Verified ==> summary.Slot(d) == others[d]
    }

    /** The body of the loop of `verify`. */
    method VerifyNext(files: Files, row: PlanRow, ghost before: Tally, ghost others: map<Deed, Tally>)
      returns (good: bool)
      requires summary.Slot(Verified) == before && Keep(others)
      modifies summary`actions
      ensures good == Verifies(files, row)
      ensures summary.Slot(Verified) == if good && row.action.CopyTo? then Add(before, row.Size()) else before
      ensures Keep(others)
    {
      good := Verifies(files, row);
      if good && row.action.CopyTo? { summary.Bump(Verified, row.Size()); }
    }

    /** `verify`: every planned destination is looked at, and each good one is counted. */
    method Verify(plan: seq<PlanRow>, ghost base: Tally, ghost others: map<Deed, Tally>) returns (ok: bool)
      requires summary.Slot(Verified) == base && Keep(others)
      modifies summary`actions
      ensures ok <==> AllVerify(disk.files, plan)
      ensures summary.Slot(Verified) == Plus(base, Checked(disk.files, plan))
      ensures Keep(others)
    {
      var files := disk.files;
      ghost var good := (n: nat) => n <= |plan| && AllVerify(files, plan[..n]);
      ghost var counted := (n: nat) => if n <= |plan| then Plus(base, Checked(files, plan[..n])) else base;
      var bad: seq<PlanRow> := [];
      for i := 0 to |plan|
        invariant bad == [] <==> good(i)
        invariant summary.Slot(Verified) == counted(i)
        invariant Keep(others)
      {
        CheckedNext(files, plan, i, base);
        var next := VerifyNext(files, plan[i], counted(i), others);
        if !next { bad := bad + [plan[i]]; }
      }
      TakeAll(plan);
      ok := bad == [];
    }

    /** The overlap buckets of the summary are those of the plan. */
    ghost predicate Tabulated(plan: seq<PlanRow>)
      reads summary`overlap
    {
      forall b :: b in summary.overlap && summary.overlap[b] == InBucket(plan, b)
    }

    /** Scan, overlap and plan. */
    method MakePlan(walks: Walks, head: D.Memo, full: D.Memo, stamps: map<Path, int>)
      returns (plan: Option<seq<PlanRow>>)
      requires D.Truthful(head, disk.files, stamps, true) && D.Truthful(full, disk.files, stamps, false)
      requires Tabulated([])
      modifies summary`overlap
      ensures plan == MergePlan(config, walks, disk.files)
      ensures plan.Some? ==> Tabulated(plan.value)
    {
      var found := Scan(walks);
      var seen := Overlap(found, walks, head, full, stamps);
      PlanIsPlanRows(config, walks, disk.files);
      plan := Plan(seen);
    }

    /** What the copies of this run add to the summary, deed by deed; verification only adds to its own line. */
    ghost predicate Tallied(m: MergeCall, plan: seq<PlanRow>, start: Worlds.World, slots: Deed -> Tally, relocated: nat)
      reads summary
    {
      var done := L.CompletedPaths(start.rows, config.run);
      var reached := plan[..Min(m.copies, |plan|)];
      var from := Progress(start.files, start.rows, []);
      && (forall d :: d != Verified ==>
            summary.Slot(d) == Plus(slots(d), Did(config.run, done, m.ios, from, reached, d)))
      && summary.relocated == relocated + Did(config.run, done, m.ios, from, reached, CopyCopy).bytes
    }

    /** The copies of an applied run. */
    method CarryOut(m: MergeCall, plan: seq<PlanRow>, ghost goal: Progress, ghost slots: Deed -> Tally)
      returns (carried: seq<PlanRow>)
      requires m.config == config && Orderly(m.ios) && Named(plan)
      requires goal == Carry(World(), m, plan) && forall d :: summary.Slot(d) == slots(d)
      modifies disk, ledger`rows, summary`actions, summary`relocated
      ensures Progress(disk.files, ledger.rows, carried) == goal
      ensures Tallied(m, plan, old(World()), slots, old(summary.relocated))
    {
      carried := ApplyPlan(plan, m.ios, Min(m.copies, |plan|), slots);
    }

    /** The end of an applied run: authority, then verification. */
    method Prove(m: MergeCall, staged: seq<Candidate>, carried: seq<PlanRow>, ghost goal: Worlds.World,
                 ghost base: Tally, ghost others: map<Deed, Tally>)
      returns (verified: Option<bool>)
      requires m.config == config && config.run in dirs.stages && dirs.stages[config.run] == staged
      requires goal == Worlds.Authorise(World(), m, staged)
      requires summary.Slot(Verified) == base && Keep(others)
      modifies ledger`rows, dirs, summary`actions
      ensures World() == goal
      ensures verified == if m.proofs >= |staged| then Some(AllVerify(disk.files, carried)) else None
      ensures summary.Slot(Verified) == if m.proofs >= |staged| then Plus(base, Checked(disk.files, carried)) else base
      ensures Keep(others)
    {
      verified := None;
      Authorise(Min(m.proofs, |staged|), m.halfProof);
      if m.proofs >= |staged| {
        var ok := Verify(carried, base, others);
        verified := Some(ok);
      }
    }

    /** Copies, authority, verification: the part of `execute` that runs only with --apply. */
    method Apply(m: MergeCall, plan: seq<PlanRow>, staged: seq<Candidate>, ghost goal: Progress,
                 ghost slots: Deed -> Tally)
      returns (verified: Option<bool>)
      requires m.config == config && Orderly(m.ios) && Named(plan)
      requires config.run in dirs.stages && dirs.stages[config.run] == staged
      requires goal == Carry(World(), m, plan) && forall d :: summary.Slot(d) == slots(d)
      modifies disk, ledger`rows, dirs, summary`actions, summary`relocated
      ensures var w2 := old(World()).(files := goal.files, rows := goal.rows);
        World() == if m.copies < |plan| then w2 else Worlds.Authorise(w2, m, staged)
      ensures Tallied(m, plan, old(World()), slots, old(summary.relocated))
      ensures verified ==
        if m.copies >= |plan| && m.proofs >= |staged| then Some(AllVerify(disk.files, goal.plan)) else None
    {
      verified := None;
      var carried := CarryOut(m, plan, goal, slots);
      if m.copies >= |plan| {
        ghost var now := map d: Deed | true :: summary.Slot(d);
        verified := Prove(m, staged, carried, Worlds.Authorise(World(), m, staged), now[Verified], now);
      }
    }

    /** The result of `verify`, when the run gets that far: on a clear disk, that every planned destination is there. */
    ghost predicate Answered(verified: Option<bool>, m: MergeCall, plan: seq<PlanRow>, clear: bool)
      reads disk
    {
      && (verified.Some? <==> config.apply && m.enoughSpace && m.copies >= |plan| &&
                              m.proofs >= |Candidates(Placed(plan), plan)|)
      && (clear && verified.Some? ==> (verified.value <==>
            forall i :: 0 <= i < |plan| && plan[i].action.CopyTo? ==> plan[i].action.dst in disk.files))
    }

    /** `execute`. Returns the plan it writes out, and the result of `verify` when the run gets that far. */
    method Execute(m: MergeCall, head: D.Memo, full: D.Memo, stamps: map<Path, int>, ghost slots: Deed -> Tally)
      returns (plan: Option<seq<PlanRow>>, verified: Option<bool>)
      requires m.config == config && Orderly(m.ios)
      requires D.Truthful(head, disk.files, stamps, true) && D.Truthful(full, disk.files, stamps, false)
      requires Tabulated([]) && forall d :: summary.Slot(d) == slots(d)
      modifies disk, ledger`rows, dirs, summary
      ensures plan == MergePlan(config, m.walks, old(disk.files))
      ensures World() == if plan.None? then old(World()) else AfterPlan(old(World()), m, plan.value)
      ensures plan.Some? ==> Tabulated(plan.value) && summary.predictedGrowth == InBucket(plan.value, NetNew).bytes
      ensures plan.Some? && config.apply && m.enoughSpace ==>
        Tallied(m, plan.value, old(World()), slots, old(summary.relocated))
      ensures if plan.None? then verified == None
              else Answered(verified, m, plan.value, old(Clear(config, disk.files)))
    {
      verified := None;
      plan := MakePlan(m.walks, head, full, stamps);
      if plan.Some? {
        PlanIsNamed(config, m.walks, disk.files, plan.value);
        if Clear(config, disk.files) { PlanIsNew(config, m.walks, disk.files, plan.value); }
        PlanSizes(config, m.walks, disk.files, plan.value);
        verified := StageAndApply(m, plan.value, AfterPlan(World(), m, plan.value), slots);
      }
    }

    /** What this run booked under one deed, given the summary it started with. */
    function Gained(d: Deed, slots: Deed -> Tally): int
      reads summary`actions
    {
      summary.Slot(d).bytes - slots(d).bytes
    }

    /** The four buckets sum to the scan. */
    ghost predicate BucketsAddUp(found: seq<Found>)
      reads summary`overlap, summary`predictedGrowth
    {
      && (forall b :: b in summary.overlap)
      && summary.overlap[OnDestBucket].files + summary.overlap[InLibraryBucket].files +
         summary.overlap[DupAcrossSources].files + summary.overlap[NetNew].files == |found|
      && summary.overlap[OnDestBucket].bytes + summary.overlap[InLibraryBucket].bytes +
         summary.overlap[DupAcrossSources].bytes + summary.overlap[NetNew].bytes == ScannedBytes(found)
      && summary.predictedGrowth == summary.overlap[NetNew].bytes
    }

    /** The predicted growth is what was copied, reflinked, skipped on resume, or failed. */
    ghost predicate GrowthAddsUp(slots: Deed -> Tally)
      reads summary`actions, summary`predictedGrowth
    {
      Gained(CopyCopy, slots) + Gained(CopyReflink, slots) + Gained(ResumeSkip, slots) + Gained(CopyFailed, slots) ==
        summary.predictedGrowth
    }

    lemma {:induction false} AccountScan(walks: Walks, files: Files, plan: seq<PlanRow>)
      requires MergePlan(config, walks, files) == Some(plan)
      requires Tabulated(plan) && summary.predictedGrowth == InBucket(plan, NetNew).bytes
      ensures BucketsAddUp(Planning.Scan(files, walks, config.srcs))
    {
      BucketsPartitionScan(config, walks, files, plan);
    }

    lemma {:induction false} GainedIs(m: MergeCall, plan: seq<PlanRow>, start: Worlds.World, slots: Deed -> Tally,
                                      relocated: nat, d: Deed)
      requires Tallied(m, plan, start, slots, relocated) && m.copies >= |plan| && d != Verified
      ensures Gained(d, slots) ==
        Did(config.run, L.CompletedPaths(start.rows, config.run), m.ios, Progress(start.files, start.rows, []),
            plan, d).bytes
    {
      assert plan[..Min(m.copies, |plan|)] == plan;
    }

    lemma {:induction false} AccountGrowth(m: MergeCall, plan: seq<PlanRow>, start: Worlds.World, slots: Deed -> Tally,
                                           relocated: nat)
      requires Clear(config, start.files) && MergePlan(config, m.walks, start.files) == Some(plan)
      requires Tallied(m, plan, start, slots, relocated) && m.copies >= |plan|
      requires summary.predictedGrowth == InBucket(plan, NetNew).bytes
      ensures GrowthAddsUp(slots)
    {
      PlanGrowth(config, m, start, plan);
      GainedIs(m, plan, start, slots, relocated, CopyCopy);
      GainedIs(m, plan, start, slots, relocated, CopyReflink);
      GainedIs(m, plan, start, slots, relocated, ResumeSkip);
      GainedIs(m, plan, start, slots, relocated, CopyFailed);
    }

    /** The merge verb: `start_run`, then `execute`, on any disk. The buckets add up to the scan; on a clear disk, once
        every copy row is reached the predicted growth is accounted for. */
    method RunMerge(m: MergeCall, head: D.Memo, full: D.Memo, stamps: map<Path, int>, ghost slots: Deed -> Tally)
      returns (plan: Option<seq<PlanRow>>, verified: Option<bool>)
      requires m.config == config && Orderly(m.ios)
      requires D.Truthful(head, disk.files, stamps, true) && D.Truthful(full, disk.files, stamps, false)
      requires Tabulated([]) && forall d :: summary.Slot(d) == slots(d)
      modifies disk, ledger, dirs, summary
      ensures World() == Merge(old(World()), m)
      ensures plan == MergePlan(config, m.walks, old(disk.files))
      ensures plan.Some? ==> BucketsAddUp(Planning.Scan(old(disk.files), m.walks, config.srcs))
      ensures plan.Some? && config.apply && m.enoughSpace && m.copies >= |plan.value| &&
              old(Clear(config, disk.files)) ==>
        GrowthAddsUp(slots)
      ensures if plan.None? then verified == None
              else Answered(verified, m, plan.value, old(Clear(config, disk.files)))
    {
      ghost var relocated := summary.relocated;
      MergeCases(World(), m);
      ledger.StartRun(config.run, config.medium);
      ghost var start := World();
      plan, verified := Execute(m, head, full, stamps, slots);
      if plan.Some? {
        AccountScan(m.walks, start.files, plan.value);
        if config.apply && m.enoughSpace && m.copies >= |plan.value| && Clear(config, start.files) {
          AccountGrowth(m, plan.value, start, slots, relocated);
        }
      }
    }

    /** From the finished plan to the end of `execute`; `goal` is where that leaves the world. */
    method StageAndApply(m: MergeCall, plan: seq<PlanRow>, ghost goal: Worlds.World, ghost slots: Deed -> Tally)
      returns (verified: Option<bool>)
      requires m.config == config && Orderly(m.ios) && Named(plan)
      requires goal == AfterPlan(World(), m, plan) && forall d :: summary.Slot(d) == slots(d)
      requires Clear(config, disk.files) ==> NewTargets(disk.files, plan)
      requires forall row :: row in plan ==> row.Path() in disk.files && row.Size() == |disk.files[row.Path()]|
      modifies disk, ledger`rows, dirs, summary`actions, summary`relocated, summary`predictedGrowth
      ensures World() == goal
      ensures summary.predictedGrowth == InBucket(plan, NetNew).bytes
      ensures config.apply && m.enoughSpace ==> Tallied(m, plan, old(World()), slots, old(summary.relocated))
      ensures Answered(verified, m, plan, old(Clear(config, disk.files)))
    {
      verified := None;
      var staged := StageDeletes(plan);
      summary.predictedGrowth := NetNewBytes(plan);
      if config.apply && m.enoughSpace {
        ghost var goal := Carry(World(), m, plan);
        if m.copies >= |plan| && Clear(config, disk.files) { AnswerMeans(config, m, World(), plan, goal); }
        verified := Apply(m, plan, staged, goal, slots);
      }
    }
  }

  lemma {:induction false} PlanSizes(c: Config, walks: Walks, files: Files, plan: seq<PlanRow>)
    requires MergePlan(c, walks, files) == Some(plan)
    ensures forall row :: row in plan ==> row.Path() in files && row.Size() == |files[row.Path()]|
  {
    PlanIsPlanRows(c, walks, files);
    var seen := InPathOrder(SeenRows(c, walks, files));
    forall row | row in plan ensures row.Path() in files && row.Size() == |files[row.Path()]| {
      var i :| 0 <= i < |plan| && plan[i] == row;
      assert seen[i] in seen;
    }
  }

  /** A plan's targets are new and its rows carry the present sizes, so its growth is accounted for. */
  lemma {:induction false} PlanGrowth(c: Config, m: MergeCall, w: Worlds.World, plan: seq<PlanRow>)
    requires Clear(c, w.files) && MergePlan(c, m.walks, w.files) == Some(plan)
    ensures Booked(c.run, L.CompletedPaths(w.rows, c.run), m.ios, Progress(w.files, w.rows, []), plan) ==
      InBucket(plan, NetNew)
  {
    PlanSizes(c, m.walks, w.files, plan);
    PlanIsNew(c, m.walks, w.files, plan);
    GrowthIsAccounted(c.run, L.CompletedPaths(w.rows, c.run), m.ios, Progress(w.files, w.rows, []), plan);
  }

  /** What verification answers, once every row is reached. */
  lemma {:induction false} AnswerMeans(c: Config, m: MergeCall, w: Worlds.World, plan: seq<PlanRow>, goal: Progress)
    requires m.config == c && m.copies >= |plan| && goal == Carry(w, m, plan) && NewTargets(w.files, plan)
    requires forall row :: row in plan ==> row.Path() in w.files && row.Size() == |w.files[row.Path()]|
    ensures AllVerify(goal.files, goal.plan) <==>
      forall i :: 0 <= i < |plan| && plan[i].action.CopyTo? ==> plan[i].action.dst in goal.files
  {
    assert plan[..Min(m.copies, |plan|)] == plan;
    VerifiedIffLanded(c.run, L.CompletedPaths(w.rows, c.run), m.ios, Progress(w.files, w.rows, []), plan);
  }

  /** Every copy target has a name. */
  ghost predicate Named(plan: seq<PlanRow>) {
    forall row :: row in plan && row.action.CopyTo? ==> row.action.dst != []
  }

  lemma {:induction false} PlanIsNamed(c: Config, walks: Walks, files: Files, plan: seq<PlanRow>)
    requires MergePlan(c, walks, files) == Some(plan)
    ensures Named(plan)
  {
    PlanIsPlanRows(c, walks, files);
    var seen := InPathOrder(SeenRows(c, walks, files));
    forall row | row in plan && row.action.CopyTo? ensures row.action.dst != [] {
      var i :| 0 <= i < |plan| && plan[i] == row;
      PlanRowsAt(c, files, seen, i);
      DecidedIsNamed(c, files, plan[..i], seen[i], row);
    }
  }

  lemma {:induction false} DecidedIsNamed(c: Config, files: Files, rows: seq<PlanRow>, s: Seen, row: PlanRow)
    requires s.found.rel != [] && s.found.path != [] && Decide(c, files, rows, s) == Some(row)
    ensures row.action.CopyTo? ==> row.action.dst != []
  {
  }

  /** sum(row['size'] for row in rows if row['action'] == 'copy'). */
  function NetNewBytes(rows: seq<PlanRow>): (r: nat)
    ensures r == InBucket(rows, NetNew).bytes
  {
    if rows == [] then 0
    else NetNewBytes(rows[..|rows| - 1]) + if rows[|rows| - 1].action.CopyTo? then rows[|rows| - 1].Size() else 0
  }

  lemma {:induction false} BookPlus(deed: Option<(Deed, nat)>, d: Deed, a: Tally, b: Tally)
    ensures Report.Book(deed, d, Plus(a, b)) == Plus(a, Report.Book(deed, d, b))
  {
  }

  /** A copy among orderly failures is exactly the specified step. */
  lemma {:induction false} CopyMeans(before: Files, after: Files, src: Path, dst: Path, io: Io, r: Outcome)
    requires dst != [] && io.cleans && !r.Dead?
    requires Lands(before, src, dst, true, None, io) ==>
      after == (before - {Staging(dst)})[dst := Landed(before, src, io)]
    requires r.Raised? && !Lands(before, src, dst, true, None, io) ==>
      after == if io.fate == Raises(Directories) then before else before - {Staging(dst)}
    requires r.Copied? <==> Succeeds(before, src, dst, true, None, io)
    ensures after == Written(before, src, dst, io)
  {
  }

  lemma {:induction false} ApplyAppend(run: L.RunId, done: set<Path>, ios: map<Path, Io>, start: Progress,
                                       plan: seq<PlanRow>, i: nat, p: Progress)
    requires i < |plan| && p == ApplyRows(run, done, ios, start, plan[..i])
    ensures var q := ApplyRow(run, done, ios, Progress(p.files, p.rows, []), plan[i]);
      && |q.plan| == 1
      && ApplyRows(run, done, ios, start, plan[..i + 1]) == Progress(q.files, q.rows, p.plan + q.plan)
    ensures var o := DeedOf(run, done, ios, Progress(p.files, p.rows, []), plan[i]);
      forall d :: Did(run, done, ios, start, plan[..i + 1], d) ==
        Report.Book(o, d, Did(run, done, ios, start, plan[..i], d))
  {
    assert plan[..i + 1][..i] == plan[..i];
  }

  lemma {:induction false} NoScopes(scopes: set<Scope>)
    requires OnDest !in scopes && InLibrary !in scopes
    ensures scopes == {}
  {
    forall l | l in scopes ensures l == OnDest || l == InLibrary { }
  }
}
