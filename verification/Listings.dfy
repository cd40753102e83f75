/** What a merge lists, decides and targets, spelled out from the arguments and the disk alone. */
module Listings {
  import opened Basics
  import opened Paths
  import opened Names
  import opened Fsx
  import opened Ledger
  import opened Planning
  import opened PlanProofs
  import opened Worlds
  import opened Histories
  import opened Reclaims

  // ---- what a walk contributes ----

  lemma {:induction false} PathsSnoc(found: seq<Found>, f: Found)
    ensures PathsOf(found + [f]) == PathsOf(found) + [f.path]
  {
    assert (found + [f])[..|found|] == found;
  }

  lemma {:induction false} FoundSnoc(files: Files, root: Path, init: seq<Path>, last: Path)
    ensures PathsOf(FoundUnder(files, root, init + [last])) ==
      PathsOf(FoundUnder(files, root, init)) + if last in files && root < last then [last] else []
  {
    var listed := init + [last];
    assert listed[..|listed| - 1] == init;
    var found := FoundUnder(files, root, init);
    if last in files && root < last {
      PathsSnoc(found, Found(last, |files[last]|, last[|root|..]));
    } else {
      assert FoundUnder(files, root, listed) == found + [];
    }
  }

  /** A listing contributes every file that is on disk below the root, as often as it is listed, and nothing else. */
  lemma {:induction false} FoundCounts(files: Files, root: Path, listed: seq<Path>, p: Path)
    ensures multiset(PathsOf(FoundUnder(files, root, listed)))[p] ==
      if p in files && root < p then multiset(listed)[p] else 0
  {
    if listed != [] {
      var init, last := listed[..|listed| - 1], listed[|listed| - 1];
      assert listed == init + [last];
      FoundCounts(files, root, init, p);
      FoundSnoc(files, root, init, last);
    }
  }

  lemma {:induction false} FoundIff(files: Files, root: Path, listed: seq<Path>, p: Path)
    ensures p in PathsOf(FoundUnder(files, root, listed)) <==> p in listed && p in files && root < p
  {
    FoundCounts(files, root, listed, p);
    var paths := PathsOf(FoundUnder(files, root, listed));
    assert p in paths <==> p in multiset(paths);
    assert p in listed <==> p in multiset(listed);
  }

  /** The scan finds exactly the files on disk that some source's walk lists below that source. */
  lemma {:induction false} ScanIff(files: Files, walks: Walks, srcs: seq<Path>, p: Path)
    ensures p in PathsOf(Scan(files, walks, srcs)) <==>
      exists s :: s in srcs && s in walks && p in walks[s] && p in files && s < p
  {
    if srcs != [] {
      var init, last := srcs[..|srcs| - 1], srcs[|srcs| - 1];
      ScanIff(files, walks, init, p);
      FoundIff(files, last, Walk(walks, last), p);
      PathsOfConcat(Scan(files, walks, init), FoundUnder(files, last, Walk(walks, last)));
      assert forall s :: s in srcs <==> s in init || s == last;
    }
  }

  /** Below the layout root: the destination itself when it is the library, else its subtree. */
  lemma {:induction false} DestIff(files: Files, c: Config, walks: Walks, q: Path)
    ensures q in DestFiles(files, c, walks) <==>
      var root := if c.library == Some(c.dest) then c.dest else c.dest + [c.subtree];
      root in walks && q in walks[root] && q in files && root < q
  {
    FoundIff(files, c.LayoutRoot(), Walk(walks, c.LayoutRoot()), q);
  }

  /** In the library, unless that is the destination or there is none. */
  lemma {:induction false} LibraryIff(files: Files, c: Config, walks: Walks, q: Path)
    ensures q in LibraryFiles(files, c, walks) <==>
      c.library.Some? && c.library.value != c.dest && c.library.value in walks &&
      q in walks[c.library.value] && q in files && c.library.value < q
  {
    assert c.LibraryRoot() == if c.library.Some? && c.library.value != c.dest then c.library else None;
    if c.LibraryRoot().Some? {
      FoundIff(files, c.LibraryRoot().value, Walk(walks, c.LibraryRoot().value), q);
    }
  }

  // ---- who holds a content, in these terms ----

  /** A walk of the root lists a file that holds the bytes. */
  ghost predicate ListedAt(files: Files, walks: Walks, root: Path, bytes: Bytes) {
    exists q :: root in walks && q in walks[root] && q in files && root < q && files[q] == bytes
  }

  /** The same, leaving out what the library's walk lists too. */
  ghost predicate ListedOnlyAt(files: Files, walks: Walks, root: Path, library: Path, bytes: Bytes) {
    exists q :: root in walks && q in walks[root] && q in files && root < q && files[q] == bytes &&
      !(library in walks && q in walks[library] && library < q)
  }

  /** A source's walk lists a file with the bytes that sorts before this one. */
  ghost predicate EarlierSource(files: Files, walks: Walks, srcs: seq<Path>, p: Path)
    requires p in files
  {
    exists s, q :: s in srcs && s in walks && q in walks[s] && q in files && s < q && files[q] == files[p] &&
      !Before(p, q)
  }

  lemma {:induction false} HeldOnDestIff(c: Config, walks: Walks, files: Files, bytes: Bytes)
    ensures HeldOnlyOnDest(c, walks, files, bytes) <==>
      if c.library == Some(c.dest) then ListedAt(files, walks, c.dest, bytes)
      else if c.library == None then ListedAt(files, walks, c.dest + [c.subtree], bytes)
      else ListedOnlyAt(files, walks, c.dest + [c.subtree], c.library.value, bytes)
  {
    forall q
      ensures q in DestFiles(files, c, walks) <==>
        var root := if c.library == Some(c.dest) then c.dest else c.dest + [c.subtree];
        root in walks && q in walks[root] && q in files && root < q
      ensures q in LibraryFiles(files, c, walks) <==>
        c.library.Some? && c.library.value != c.dest && c.library.value in walks &&
        q in walks[c.library.value] && q in files && c.library.value < q
    {
      DestIff(files, c, walks, q);
      LibraryIff(files, c, walks, q);
    }
  }

  lemma {:induction false} HeldInLibraryIff(c: Config, walks: Walks, files: Files, bytes: Bytes)
    ensures HeldIn(files, LibraryFiles(files, c, walks), bytes) <==>
      c.library.Some? && c.library.value != c.dest && ListedAt(files, walks, c.library.value, bytes)
  {
    forall q
      ensures q in LibraryFiles(files, c, walks) <==>
        c.library.Some? && c.library.value != c.dest && c.library.value in walks &&
        q in walks[c.library.value] && q in files && c.library.value < q
    {
      LibraryIff(files, c, walks, q);
    }
  }

  lemma {:induction false} LeastIff(walks: Walks, files: Files, srcs: seq<Path>, p: Path)
    requires p in files
    ensures LeastCopy(files, Scan(files, walks, srcs), p) <==> !EarlierSource(files, walks, srcs, p)
  {
    var found := Scan(files, walks, srcs);
    if s, q :|
      s in srcs && s in walks && q in walks[s] && q in files && s < q && files[q] == files[p] && !Before(p, q)
    {
      ScanIff(files, walks, srcs, q);
      var i :| 0 <= i < |found| && PathsOf(found)[i] == q;
      assert found[i] in found;
    }
    forall f | f in found && files[f.path] == files[p] && !Before(p, f.path)
      ensures EarlierSource(files, walks, srcs, p)
    {
      PathsIn(found, f);
      ScanIff(files, walks, srcs, f.path);
    }
  }

  /** The plan, spelled out for sources apart from destination and library: on the destination, in the library, copied
      by the least of its sources, or a duplicate. */
  lemma {:induction false} PlanSpelledOut(c: Config, walks: Walks, files: Files, row: PlanRow)
    requires SourcesApart(c) && MergePlan(c, walks, files).Some? && row in MergePlan(c, walks, files).value
    ensures row.Path() in files
    ensures var bytes := files[row.Path()];
      var onDest := if c.library == Some(c.dest) then ListedAt(files, walks, c.dest, bytes)
                    else if c.library == None then ListedAt(files, walks, c.dest + [c.subtree], bytes)
                    else ListedOnlyAt(files, walks, c.dest + [c.subtree], c.library.value, bytes);
      var inLibrary := c.library.Some? && c.library.value != c.dest && ListedAt(files, walks, c.library.value, bytes);
      var later := EarlierSource(files, walks, c.srcs, row.Path());
      && (row.action.AlreadyOnDest? <==> onDest)
      && (row.action.AlreadyInLibrary? <==> !onDest && inLibrary)
      && (row.action.CopyTo? <==> !onDest && !inLibrary && !later)
      && (row.action.DuplicateOf? <==> !onDest && !inLibrary && later)
  {
    PlanMeans(c, walks, files, row);
    HeldOnDestIff(c, walks, files, files[row.Path()]);
    HeldInLibraryIff(c, walks, files, files[row.Path()]);
    LeastIff(walks, files, c.srcs, row.Path());
  }

  // ---- where a copy goes ----

  /** A copy keeps the folders between its source root and its file, below the layout root. */
  lemma {:induction false} TargetKeepsFolder(c: Config, walks: Walks, files: Files, row: PlanRow, dst: Path)
    returns (s: Path)
    requires MergePlan(c, walks, files).Some? && row in MergePlan(c, walks, files).value && row.action == CopyTo(dst)
    ensures s in c.srcs && s < row.Path() && dst != []
    ensures dst[..|dst| - 1] == (if c.library == Some(c.dest) then c.dest else c.dest + [c.subtree]) +
                                row.Path()[|s|..|row.Path()| - 1]
  {
    s := TargetRoot(c, walks, files, row, dst);
  }

  lemma {:induction false} TargetRoot(c: Config, walks: Walks, files: Files, row: PlanRow, dst: Path) returns (s: Path)
    requires MergePlan(c, walks, files).Some? && row in MergePlan(c, walks, files).value && row.action == CopyTo(dst)
    ensures s in c.srcs && s < row.Path() && FolderIs(c, row.Path(), |s|, dst)
  {
    var before := RowIsDecided(c, walks, files, row);
    DecidedFolder(c, files, before, row.seen, dst);
    s := RootOf(files, walks, c.srcs, row.seen.found);
    FolderFrom(c, row.seen.found, row.Path(), dst, |s|);
  }

  predicate FolderIs(c: Config, p: Path, n: nat, dst: Path) {
    n < |p| && dst != [] &&
    dst[..|dst| - 1] == (if c.library == Some(c.dest) then c.dest else c.dest + [c.subtree]) + p[n..|p| - 1]
  }

  lemma {:induction false} RootOf(files: Files, walks: Walks, srcs: seq<Path>, f: Found) returns (s: Path)
    requires f in Scan(files, walks, srcs)
    ensures s in srcs && s < f.path && f.rel == f.path[|s|..]
  {
    s :| s in srcs && Under(s, f.path) && f.rel == f.path[|s|..];
  }

  lemma {:induction false} DecidedFolder(c: Config, files: Files, before: seq<PlanRow>, s: Seen, dst: Path)
    requires s.found.rel != [] && s.found.path != []
    requires Decide(c, files, before, s).Some? && Decide(c, files, before, s).value.action == CopyTo(dst)
    ensures dst != [] && dst[..|dst| - 1] == TargetDir(c, s.found)
  {
    var dir := TargetDir(c, s.found);
    var claimed := ClaimedOnDisk(c, files, dir) + ClaimedByRun(c, before, dir);
    var name := UniqueName(claimed, c.naming.key, c.naming.sanitise(Leaf(s.found.path))).value;
    assert dst == dir + [name] && dst[..|dst| - 1] == dir;
  }

  lemma {:induction false} FolderFrom(c: Config, f: Found, p: Path, dst: Path, n: nat)
    requires f.path == p && n < |p| && f.rel == p[n..] && dst != [] && dst[..|dst| - 1] == TargetDir(c, f)
    ensures FolderIs(c, p, n, dst)
  {
    assert Parent(f.rel) == p[n..|p| - 1];
  }

  /** A name of this key stands on the disk in the directory, and is no staging name. */
  ghost predicate NamedOnDisk(c: Config, files: Files, dir: Path, k: string) {
    exists p :: p in files && dir < p && !(".mediatool-" <= p[|dir|]) && c.naming.key(p[|dir|]) == k
  }

  /** One of these rows copies into the directory under a name of this key. */
  ghost predicate NamedByRows(c: Config, rows: seq<PlanRow>, dir: Path, k: string) {
    exists j :: 0 <= j < |rows| && TargetsName(c, rows[j], dir, k)
  }

  predicate TargetsName(c: Config, row: PlanRow, dir: Path, k: string) {
    row.action.CopyTo? && row.action.dst != [] && row.action.dst[..|row.action.dst| - 1] == dir &&
    c.naming.key(row.action.dst[|row.action.dst| - 1]) == k
  }

  lemma {:induction false} DiskClaims(c: Config, files: Files, dir: Path, k: string)
    ensures k in ClaimedOnDisk(c, files, dir) <==> NamedOnDisk(c, files, dir, k)
  {
    if p :| p in files && dir < p && !(".mediatool-" <= p[|dir|]) && c.naming.key(p[|dir|]) == k {
      assert p in files.Keys && p[|dir|] in ListDir(files.Keys, dir);
    }
  }

  lemma {:induction false} RowClaims(c: Config, rows: seq<PlanRow>, dir: Path, k: string)
    ensures k in ClaimedByRun(c, rows, dir) <==> NamedByRows(c, rows, dir, k)
  {
    if k in ClaimedByRun(c, rows, dir) {
      var j :| 0 <= j < |rows| && rows[j].action.CopyTo? && rows[j].action.dst != [] &&
        Parent(rows[j].action.dst) == dir && c.naming.key(Leaf(rows[j].action.dst)) == k;
      assert TargetsName(c, rows[j], dir, k);
    }
  }

  lemma {:induction false} DecidedName(c: Config, files: Files, before: seq<PlanRow>, s: Seen, dst: Path)
    returns (claimed: set<string>)
    requires s.found.rel != [] && s.found.path != []
    requires Decide(c, files, before, s).Some? && Decide(c, files, before, s).value.action == CopyTo(dst)
    ensures dst != []
    ensures UniqueName(claimed, c.naming.key, c.naming.sanitise(Leaf(s.found.path))) == Some(dst[|dst| - 1])
    ensures claimed == ClaimedOnDisk(c, files, dst[..|dst| - 1]) + ClaimedByRun(c, before, dst[..|dst| - 1])
  {
    var dir := TargetDir(c, s.found);
    claimed := ClaimedOnDisk(c, files, dir) + ClaimedByRun(c, before, dir);
    var name := UniqueName(claimed, c.naming.key, c.naming.sanitise(Leaf(s.found.path))).value;
    assert dst == dir + [name] && dst[..|dst| - 1] == dir;
  }

  /** A copy takes the name that `unique` gives its sanitised one among the keys that stand in the directory, staging
      names aside, or that an earlier row of the plan takes there. */
  lemma {:induction false} TargetName(c: Config, walks: Walks, files: Files, plan: seq<PlanRow>, i: nat, dst: Path)
    returns (claimed: set<string>)
    requires MergePlan(c, walks, files) == Some(plan) && i < |plan| && plan[i].action == CopyTo(dst)
    ensures plan[i].Path() != [] && dst != []
    ensures UniqueName(claimed, c.naming.key, c.naming.sanitise(Leaf(plan[i].Path()))) == Some(dst[|dst| - 1])
    ensures forall k :: k in claimed <==>
      NamedOnDisk(c, files, dst[..|dst| - 1], k) || NamedByRows(c, plan[..i], dst[..|dst| - 1], k)
  {
    PlanIsPlanRows(c, walks, files);
    var seen := InPathOrder(SeenRows(c, walks, files));
    PlanRowsAt(c, files, seen, i);
    claimed := DecidedName(c, files, plan[..i], seen[i], dst);
    forall k ensures k in claimed <==>
                     NamedOnDisk(c, files, dst[..|dst| - 1], k) || NamedByRows(c, plan[..i], dst[..|dst| - 1], k)
    {
      DiskClaims(c, files, dst[..|dst| - 1], k);
      RowClaims(c, plan[..i], dst[..|dst| - 1], k);
    }
  }
}
