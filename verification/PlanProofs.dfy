/** Properties of a plan: who survives, who is copied where, and what proves a candidate. */
module PlanProofs {
  import opened Basics
  import opened Paths
  import opened Names
  import opened Fsx
  import opened Planning
  import D = Duplicates

  // ---- groups ----

  lemma {:induction false} SameBytesMembers(index: seq<Path>, files: Files, bytes: Bytes)
    ensures forall q :: q in D.SameBytes(index, files, bytes) <==> q in index && q in files && files[q] == bytes
    ensures Sorted(D.SameBytes(index, files, bytes), Before)
  {
    var picked := Pick(index, D.WithDigest(files, false, Digest(bytes)));
    SameMembers(D.SameBytes(index, files, bytes), picked);
    BeforeIsOrder();
    SortBySorts(picked, Before);
  }

  lemma {:induction false} GroupReads(files: Files, index: seq<Path>, path: Path)
    requires path in files
    ensures var same := D.SameBytes(index, files, files[path]);
      GroupFor(files, index, path) == if |same| >= 2 then same else [path]
  {
  }

  /** A path's group is itself and every indexed file holding the same bytes; the first is the least. */
  lemma {:induction false} GroupMembers(files: Files, index: seq<Path>, path: Path)
    requires path in files && path in index
    ensures forall q :: q in GroupFor(files, index, path) <==>
      q == path || (q in index && q in files && files[q] == files[path])
    ensures forall q :: q in GroupFor(files, index, path) ==> Before(GroupFor(files, index, path)[0], q)
  {
    SameBytesMembers(index, files, files[path]);
    BeforeIsOrder();
    GroupReads(files, index, path);
    var same := D.SameBytes(index, files, files[path]);
    assert path in same;
    if |same| < 2 {
      assert same == [path];
      forall q | q in index && q in files && files[q] == files[path] ensures q == path { assert q in same; }
    }
  }

  // ---- copy targets ----

  lemma {:induction false} NumberedNotStaging(candidate: Component, n: nat)
    requires !IsStaging(candidate)
    ensures !IsStaging(Numbered(candidate, n))
  {
    var p := Split(candidate);
    var kept := KeptStem(p, n);
    assert Numbered(candidate, n) == kept + Mid(n) + Tail(p);
    NumberedPrefix(candidate, kept, Mid(n) + Tail(p));
    assert kept + Mid(n) + Tail(p) == kept + (Mid(n) + Tail(p));
  }

  /** What follows a kept stem starts with a space, which the staging prefix does not contain. */
  lemma {:induction false} NumberedPrefix(candidate: string, kept: string, rest: string)
    requires !(TMP_PREFIX <= candidate) && kept <= candidate && rest != "" && rest[0] == ' '
    ensures !(TMP_PREFIX <= kept + rest)
  {
    var name := kept + rest;
    if |kept| < |TMP_PREFIX| {
      assert name[|kept|] == ' ';
    } else {
      assert name[..|TMP_PREFIX|] == candidate[..|TMP_PREFIX|];
    }
  }

  lemma {:induction false} UniqueNameIsFree(claimed: set<string>, key: Key, candidate: Component)
    requires !IsStaging(candidate) && UniqueName(claimed, key, candidate).Some?
    ensures var name := UniqueName(claimed, key, candidate).value;
      key(name) !in claimed && !IsStaging(name)
  {
    var tries := Attempts(candidate);
    FirstFreeIsFree(claimed, key, tries, 0);
    var name := UniqueName(claimed, key, candidate).value;
    var k :| 0 <= k <= LAST_ATTEMPT && name == tries(k);
    if k > 0 { NumberedNotStaging(candidate, k + 1); }
  }

  lemma {:induction false} ListedOnDisk(files: Files, p: Path)
    requires p != [] && p in files
    ensures Leaf(p) in ListDir(files.Keys, Parent(p))
  {
    assert p in files.Keys && Parent(p) < p && p[|Parent(p)|] == Leaf(p);
  }

  /** What `Decide` guarantees of one copy target, given the rows before it. */
  lemma {:induction false} DecidedTarget(c: Config, files: Files, rows: seq<PlanRow>, s: Seen)
    requires s.found.rel != [] && s.found.path != []
    requires !IsStaging(c.naming.sanitise(Leaf(s.found.path)))
    requires Decide(c, files, rows, s).Some? && Decide(c, files, rows, s).value.action.CopyTo?
    ensures var dst := Decide(c, files, rows, s).value.action.dst;
      && dst != [] && Parent(dst) == TargetDir(c, s.found) && Under(c.LayoutRoot(), dst)
      && dst !in files && !IsStaging(Leaf(dst))
      && c.naming.key(Leaf(dst)) !in ClaimedOnDisk(c, files, Parent(dst))
      && c.naming.key(Leaf(dst)) !in ClaimedByRun(c, rows, Parent(dst))
  {
    var dir := TargetDir(c, s.found);
    var claimed := ClaimedOnDisk(c, files, dir) + ClaimedByRun(c, rows, dir);
    var candidate := c.naming.sanitise(Leaf(s.found.path));
    UniqueNameIsFree(claimed, c.naming.key, candidate);
    var name := UniqueName(claimed, c.naming.key, candidate).value;
    var dst := dir + [name];
    assert Parent(dst) == dir && Leaf(dst) == name;
    if dst in files { ListedOnDisk(files, dst); }
  }

  /** The hypothesis on names: sanitising a source's name never yields a staging name. */
  ghost predicate CleanNames(c: Config, seen: seq<Seen>) {
    forall s :: s in seen ==>
      s.found.path != [] && s.found.rel != [] && !IsStaging(c.naming.sanitise(Leaf(s.found.path)))
  }

  lemma {:induction false} PlanRowsAt(c: Config, files: Files, seen: seq<Seen>, i: nat)
    requires forall s :: s in seen ==> s.found.rel != [] && s.found.path != []
    requires PlanRows(c, files, seen).Some? && i < |seen|
    ensures var rows := PlanRows(c, files, seen).value;
      Decide(c, files, rows[..i], seen[i]) == Some(rows[i])
  {
    var rows := PlanRows(c, files, seen).value;
    var before := PlanRows(c, files, seen[..|seen| - 1]).value;
    assert rows[..|seen| - 1] == before;
    if i < |seen| - 1 {
      PlanRowsAt(c, files, seen[..|seen| - 1], i);
      assert rows[..i] == before[..i];
    }
  }

  /** Copies go to fresh names: new on disk, and no two share a folded name in a directory. */
  ghost predicate FreshTargets(c: Config, files: Files, rows: seq<PlanRow>) {
    && (forall i :: 0 <= i < |rows| && rows[i].action.CopyTo? ==> FreshTarget(c, files, rows[i].action.dst))
    && (forall i, j :: 0 <= i < j < |rows| && rows[i].action.CopyTo? && rows[j].action.CopyTo? ==>
          Apart(c, rows[i].action.dst, rows[j].action.dst))
  }

  ghost predicate FreshTarget(c: Config, files: Files, dst: Path) {
    && dst != [] && Under(c.LayoutRoot(), dst) && dst !in files && !IsStaging(Leaf(dst))
    && forall leaf :: leaf in ListDir(files.Keys, Parent(dst)) && !IsStaging(leaf) ==>
         c.naming.key(leaf) != c.naming.key(Leaf(dst))
  }

  ghost predicate Apart(c: Config, a: Path, b: Path) {
    a != b && (a != [] && b != [] && Parent(a) == Parent(b) ==> c.naming.key(Leaf(a)) != c.naming.key(Leaf(b)))
  }

  lemma {:induction false} PlanTargetsAreFresh(c: Config, files: Files, seen: seq<Seen>)
    requires CleanNames(c, seen) && PlanRows(c, files, seen).Some?
    ensures FreshTargets(c, files, PlanRows(c, files, seen).value)
  {
    var rows := PlanRows(c, files, seen).value;
    forall i | 0 <= i < |rows| && rows[i].action.CopyTo? ensures FreshTarget(c, files, rows[i].action.dst) {
      PlanRowsAt(c, files, seen, i);
      DecidedTarget(c, files, rows[..i], seen[i]);
    }
    forall i, j | 0 <= i < j < |rows| && rows[i].action.CopyTo? && rows[j].action.CopyTo?
      ensures Apart(c, rows[i].action.dst, rows[j].action.dst)
    {
      PlanRowsAt(c, files, seen, j);
      DecidedTarget(c, files, rows[..j], seen[j]);
      var a, b := rows[i].action.dst, rows[j].action.dst;
      assert rows[..j][i] == rows[i];
      assert FreshTarget(c, files, a);
      if Parent(a) == Parent(b) {
        assert c.naming.key(Leaf(a)) in ClaimedByRun(c, rows[..j], Parent(b));
      }
    }
  }

  // ---- scans ----

  lemma {:induction false} ScanAppend(files: Files, walks: Walks, init: seq<Path>, last: Path)
    ensures Scan(files, walks, init + [last]) == Scan(files, walks, init) + FoundUnder(files, last, Walk(walks, last))
  {
    assert (init + [last])[..|init|] == init;
  }

  lemma {:induction false} PathsOfConcat(a: seq<Found>, b: seq<Found>)
    ensures PathsOf(a + b) == PathsOf(a) + PathsOf(b)
  {
    forall i | 0 <= i < |a + b| ensures PathsOf(a + b)[i] == (PathsOf(a) + PathsOf(b))[i] { }
  }

  // ---- which row each source gets ----

  /** Neither path lies inside the other. */
  predicate Unnested(a: Path, b: Path) { !(a <= b) && !(b <= a) }

  /** The hypothesis on roots: sources share no file with the destination's tree or the library. */
  ghost predicate SourcesApart(c: Config) {
    forall s :: s in c.srcs ==>
      Unnested(s, c.dest) && (c.library.Some? ==> Unnested(s, c.library.value))
  }

  lemma {:induction false} UnderBoth(a: Path, b: Path, p: Path)
    requires a <= p && b <= p
    ensures !Unnested(a, b)
  {
    if |a| <= |b| { assert a == p[..|a|] == b[..|a|]; } else { assert b == p[..|b|] == a[..|b|]; }
  }

  lemma {:induction false} SourceOutside(c: Config, p: Path, s: Path)
    requires SourcesApart(c) && s in c.srcs && Under(s, p)
    ensures !Under(c.dest, p) && !Under(c.LayoutRoot(), p)
    ensures c.library.Some? ==> !Under(c.library.value, p)
  {
    if Under(c.dest, p) { UnderBoth(s, c.dest, p); }
    if Under(c.LayoutRoot(), p) { UnderBoth(s, c.dest, p); }
    if c.library.Some? && Under(c.library.value, p) { UnderBoth(s, c.library.value, p); }
  }

  /** Everything a source row is judged by, restated without groups or digests. */
  ghost predicate HeldIn(files: Files, listed: seq<Path>, bytes: Bytes) {
    exists q :: q in listed && q in files && files[q] == bytes
  }

  ghost predicate LeastCopy(files: Files, found: seq<Found>, path: Path)
    requires path in files
  {
    forall f :: f in found && f.path in files && files[f.path] == files[path] ==> Before(path, f.path)
  }

  lemma {:induction false} ListedRoots(files: Files, c: Config, walks: Walks)
    ensures forall q :: q in DestFiles(files, c, walks) ==> q in files && Under(c.LayoutRoot(), q)
    ensures forall q :: q in LibraryFiles(files, c, walks) ==>
      q in files && c.library.Some? && c.LibraryRoot().Some? && Under(c.library.value, q)
  {
  }

  /** One row of `overlap` against any index: scopes are the labels of the other holders of the bytes, the survivor is
      the least holder. */
  lemma {:induction false} SeeMeans(files: Files, index: seq<Path>, scopes: map<Path, Scope>, sources: set<Path>,
                                    f: Found)
    requires f.path in files && f.path in index
    requires forall q :: q in scopes ==> q in index && q in files
    ensures var s := See(files, index, scopes, sources, f);
      && (forall l :: l in s.scopes <==>
            exists q :: q in scopes && scopes[q] == l && files[q] == files[f.path] && q != f.path)
      && s.survivor in files && files[s.survivor] == files[f.path] && s.survivor in index
      && (forall q :: q in index && q in files && files[q] == files[f.path] ==> Before(s.survivor, q))
  {
    GroupMembers(files, index, f.path);
    var s := See(files, index, scopes, sources, f);
    var group := GroupFor(files, index, f.path);
    assert s.survivor == group[0] && group[0] in group;
    forall q | q in scopes && files[q] == files[f.path] && q != f.path ensures scopes[q] in s.scopes {
      assert q in group;
    }
  }

  /** Its peers are the other sources that hold the bytes. */
  lemma {:induction false} PeersHold(files: Files, index: seq<Path>, scopes: map<Path, Scope>, sources: set<Path>,
                                     f: Found)
    requires f.path in files && f.path in index
    ensures forall q :: q in See(files, index, scopes, sources, f).peers <==>
      q in sources && q in index && q in files && files[q] == files[f.path] && q != f.path
  {
    GroupMembers(files, index, f.path);
  }

  /** What a row says about the run's own listings, when the sources are apart from both roots. */
  ghost predicate Reads(c: Config, walks: Walks, files: Files, s: Seen)
    requires s.found.path in files
  {
    var bytes := files[s.found.path];
    var found := Scan(files, walks, c.srcs);
    && (InLibrary in s.scopes <==> HeldIn(files, LibraryFiles(files, c, walks), bytes))
    && (OnDest in s.scopes <==> HeldOnlyOnDest(c, walks, files, bytes))
    && (s.scopes == {} ==>
          && s.survivor in files && files[s.survivor] == bytes && s.survivor in PathsOf(found)
          && LeastCopy(files, found, s.survivor)
          && (s.survivor == s.found.path <==> LeastCopy(files, found, s.found.path)))
  }

  /** Some destination file that the library listing does not repeat holds these bytes. */
  ghost predicate HeldOnlyOnDest(c: Config, walks: Walks, files: Files, bytes: Bytes) {
    exists q :: q in DestFiles(files, c, walks) && q !in LibraryFiles(files, c, walks) && q in files &&
      files[q] == bytes
  }

  lemma {:induction false} ScopeFacts(files: Files, c: Config, walks: Walks)
    ensures var dest, library, scopes := DestFiles(files, c, walks), LibraryFiles(files, c, walks),
      ScopeOf(files, c, walks);
      && (forall q :: q in scopes <==> q in dest || q in library)
      && (forall q :: q in scopes ==> q in files && q in Indexed(files, c, walks))
      && (forall q :: q in scopes ==> scopes[q] == if q in library then InLibrary else OnDest)
  {
    ListedRoots(files, c, walks);
    forall q | q in ScopeOf(files, c, walks)
      ensures ScopeOf(files, c, walks)[q] == if q in LibraryFiles(files, c, walks) then InLibrary else OnDest
    {
      ScopeReads(files, c, walks, q);
    }
  }

  /** A file that both walks list counts as in the library. */
  lemma {:induction false} ScopeReads(files: Files, c: Config, walks: Walks, q: Path)
    requires q in ScopeOf(files, c, walks)
    ensures ScopeOf(files, c, walks)[q] == if q in LibraryFiles(files, c, walks) then InLibrary else OnDest
  {
  }

  lemma {:induction false} SourceFacts(c: Config, walks: Walks, files: Files, f: Found)
    requires SourcesApart(c) && f in Scan(files, walks, c.srcs)
    ensures f.path in files && f.path in Indexed(files, c, walks) && f.path !in ScopeOf(files, c, walks)
  {
    var src :| src in c.srcs && Under(src, f.path);
    SourceOutside(c, f.path, src);
    ListedRoots(files, c, walks);
    PathsIn(Scan(files, walks, c.srcs), f);
  }

  /** Without scopes, the survivor is the least source holding the bytes. */
  lemma {:induction false} SurvivorReads(files: Files, found: seq<Found>, index: seq<Path>, scopes: map<Path, Scope>,
                                         f: Found, survivor: Path)
    requires f in found && f.path in files
    requires survivor in files && files[survivor] == files[f.path]
    requires survivor in PathsOf(found)
    requires forall p :: p in PathsOf(found) && p in files && files[p] == files[f.path] ==> Before(survivor, p)
    ensures LeastCopy(files, found, survivor) && (survivor == f.path <==> LeastCopy(files, found, f.path))
  {
    forall g | g in found && g.path in files && files[g.path] == files[f.path] ensures Before(survivor, g.path) {
      PathsIn(found, g);
    }
    BeforeIsOrder();
    if LeastCopy(files, found, f.path) {
      var i :| 0 <= i < |found| && PathsOf(found)[i] == survivor;
      assert found[i] in found;
    }
  }

  lemma {:induction false} SeenReads(c: Config, walks: Walks, files: Files, f: Found)
    requires SourcesApart(c) && f in Scan(files, walks, c.srcs)
    ensures var sources := SourcesOf(Scan(files, walks, c.srcs));
      Reads(c, walks, files, See(files, Indexed(files, c, walks), ScopeOf(files, c, walks), sources, f))
  {
    var found := Scan(files, walks, c.srcs);
    var index, scopes := Indexed(files, c, walks), ScopeOf(files, c, walks);
    SourceFacts(c, walks, files, f);
    ScopeFacts(files, c, walks);
    ReadsFrom(c, walks, files, f, found, index, scopes);
  }

  lemma {:induction false} ReadsFrom(c: Config, walks: Walks, files: Files, f: Found, found: seq<Found>,
                                     index: seq<Path>, scopes: map<Path, Scope>)
    requires found == Scan(files, walks, c.srcs) && f in found
    requires f.path in files && f.path in index && f.path !in scopes
    requires forall q :: q in index <==> q in PathsOf(found) || q in scopes
    requires forall q :: q in scopes <==> q in DestFiles(files, c, walks) || q in LibraryFiles(files, c, walks)
    requires forall q :: q in scopes ==> q in files
    requires forall q :: q in scopes ==> scopes[q] == if q in LibraryFiles(files, c, walks) then InLibrary else OnDest
    ensures Reads(c, walks, files, See(files, index, scopes, SourcesOf(found), f))
  {
    SeeMeans(files, index, scopes, SourcesOf(found), f);
    var s := See(files, index, scopes, SourcesOf(found), f);
    if s.scopes == {} {
      assert forall q :: q in scopes && files[q] == files[f.path] ==> scopes[q] in s.scopes;
      SurvivorReads(files, found, index, scopes, f, s.survivor);
    }
  }

  lemma {:induction false} PathsIn(found: seq<Found>, f: Found)
    requires f in found
    ensures f.path in PathsOf(found)
  {
    var i :| 0 <= i < |found| && found[i] == f;
    assert PathsOf(found)[i] == f.path;
  }

  // ---- what a plan says of each source ----

  /** The destination or the library already holds these bytes. */
  ghost predicate AlreadyThere(c: Config, walks: Walks, files: Files, bytes: Bytes) {
    HeldOnlyOnDest(c, walks, files, bytes) || HeldIn(files, LibraryFiles(files, c, walks), bytes)
  }

  /** The action of a row, in terms of who holds its bytes: four cases, each an equivalence. */
  ghost predicate RowMeans(c: Config, walks: Walks, files: Files, row: PlanRow) {
    var found := Scan(files, walks, c.srcs);
    && row.seen.found in found && row.Path() in files && row.Size() == |files[row.Path()]|
    && var bytes := files[row.Path()];
    && (row.action.AlreadyOnDest? <==> HeldOnlyOnDest(c, walks, files, bytes))
    && (row.action.AlreadyInLibrary? <==>
          !HeldOnlyOnDest(c, walks, files, bytes) && HeldIn(files, LibraryFiles(files, c, walks), bytes))
    && (row.action.CopyTo? <==> !AlreadyThere(c, walks, files, bytes) && LeastCopy(files, found, row.Path()))
    && (row.action.DuplicateOf? <==> !AlreadyThere(c, walks, files, bytes) && !LeastCopy(files, found, row.Path()))
    && (row.action.DuplicateOf? ==>
          && row.seen.survivor in files && files[row.seen.survivor] == bytes
          && row.seen.survivor in PathsOf(found) && LeastCopy(files, found, row.seen.survivor))
  }

  /** A row of this run's overlap. */
  ghost predicate IsSeen(c: Config, walks: Walks, files: Files, s: Seen) {
    var found := Scan(files, walks, c.srcs);
    && s.found in found && s.found.rel != [] && s.found.path != []
    && s == See(files, Indexed(files, c, walks), ScopeOf(files, c, walks), SourcesOf(found), s.found)
  }

  lemma {:induction false} SeenRowsAreSeen(c: Config, walks: Walks, files: Files)
    ensures forall s :: s in SeenRows(c, walks, files) ==> IsSeen(c, walks, files, s)
  {
    var rows := SeenRows(c, walks, files);
    var found := Scan(files, walks, c.srcs);
    forall s | s in rows ensures IsSeen(c, walks, files, s) {
      var i :| 0 <= i < |rows| && rows[i] == s;
      assert found[i] in found;
    }
  }

  lemma {:induction false} PlanIsPlanRows(c: Config, walks: Walks, files: Files)
    ensures var seen := InPathOrder(SeenRows(c, walks, files));
      && MergePlan(c, walks, files) == PlanRows(c, files, seen)
      && (forall s :: s in seen ==> IsSeen(c, walks, files, s) && s.found.rel != [] && s.found.path != [])
  {
    SeenRowsAreSeen(c, walks, files);
  }

  lemma {:induction false} FoundIsSeen(c: Config, walks: Walks, files: Files, f: Found)
    requires f in Scan(files, walks, c.srcs)
    ensures exists s :: s in InPathOrder(SeenRows(c, walks, files)) && s.found == f
  {
    var rows := SeenRows(c, walks, files);
    var found := Scan(files, walks, c.srcs);
    var i :| 0 <= i < |found| && found[i] == f;
    assert rows[i] in rows;
    assert rows[i] in InPathOrder(rows);
  }

  /** The branch `plan` takes, in terms of the overlap row alone. */
  lemma {:induction false} DecideCases(c: Config, files: Files, before: seq<PlanRow>, s: Seen)
    requires s.found.rel != [] && s.found.path != [] && Decide(c, files, before, s).Some?
    ensures var row := Decide(c, files, before, s).value;
      && row.seen == s
      && (row.action.AlreadyOnDest? <==> OnDest in s.scopes)
      && (row.action.AlreadyInLibrary? <==> OnDest !in s.scopes && InLibrary in s.scopes)
      && (row.action.DuplicateOf? <==> s.scopes == {} && s.survivor != s.found.path)
      && (row.action.CopyTo? <==> s.scopes == {} && s.survivor == s.found.path)
  {
    assert s.scopes == {} <==> InLibrary !in s.scopes && OnDest !in s.scopes by {
      forall l | l in s.scopes ensures l == InLibrary || l == OnDest { }
    }
  }

  lemma {:induction false} RowFromReads(c: Config, walks: Walks, files: Files, row: PlanRow)
    requires row.seen.found in Scan(files, walks, c.srcs) && row.seen.found.path in files
    requires Reads(c, walks, files, row.seen)
    requires row.action.AlreadyOnDest? <==> OnDest in row.seen.scopes
    requires row.action.AlreadyInLibrary? <==> OnDest !in row.seen.scopes && InLibrary in row.seen.scopes
    requires row.action.DuplicateOf? <==> row.seen.scopes == {} && row.seen.survivor != row.seen.found.path
    requires row.action.CopyTo? <==> row.seen.scopes == {} && row.seen.survivor == row.seen.found.path
    ensures RowMeans(c, walks, files, row)
  {
    var s := row.seen.scopes;
    assert s == {} <==> InLibrary !in s && OnDest !in s;
  }

  /** The row that one overlap row is planned as. */
  lemma {:induction false} PlannedRow(c: Config, walks: Walks, files: Files, seen: seq<Seen>, i: nat)
    requires SourcesApart(c) && i < |seen| && IsSeen(c, walks, files, seen[i])
    requires forall s :: s in seen ==> s.found.rel != [] && s.found.path != []
    requires PlanRows(c, files, seen).Some?
    ensures RowMeans(c, walks, files, PlanRows(c, files, seen).value[i])
  {
    var rows := PlanRows(c, files, seen).value;
    PlanRowsAt(c, files, seen, i);
    SeenReads(c, walks, files, seen[i].found);
    DecideCases(c, files, rows[..i], seen[i]);
    RowFromReads(c, walks, files, rows[i]);
  }

  /** Every planned row means what its action says. */
  lemma {:induction false} PlanMeans(c: Config, walks: Walks, files: Files, row: PlanRow)
    requires SourcesApart(c) && MergePlan(c, walks, files).Some? && row in MergePlan(c, walks, files).value
    ensures RowMeans(c, walks, files, row)
  {
    PlanIsPlanRows(c, walks, files);
    var seen := InPathOrder(SeenRows(c, walks, files));
    var rows := PlanRows(c, files, seen).value;
    var i :| 0 <= i < |rows| && rows[i] == row;
    PlannedRow(c, walks, files, seen, i);
  }

  lemma {:induction false} RowForFound(c: Config, walks: Walks, files: Files, f: Found)
    requires MergePlan(c, walks, files).Some? && f in Scan(files, walks, c.srcs)
    ensures exists row :: row in MergePlan(c, walks, files).value && row.seen.found == f
  {
    FoundIsSeen(c, walks, files, f);
    PlanIsPlanRows(c, walks, files);
    var seen := InPathOrder(SeenRows(c, walks, files));
    var s :| s in seen && s.found == f;
    var i :| 0 <= i < |seen| && seen[i] == s;
    assert MergePlan(c, walks, files).value[i] in MergePlan(c, walks, files).value;
  }

  /** `kept` is the copied row that a duplicate row names as its survivor. */
  ghost predicate Stands(files: Files, kept: PlanRow, row: PlanRow) {
    && kept.action.CopyTo? && kept.Path() == row.seen.survivor
    && kept.Path() in files && row.Path() in files && files[kept.Path()] == files[row.Path()]
  }

  /** A duplicate's survivor is itself copied by the same plan. */
  lemma {:induction false} SurvivorIsCopied(c: Config, walks: Walks, files: Files, row: PlanRow)
    requires SourcesApart(c) && MergePlan(c, walks, files).Some?
    requires row in MergePlan(c, walks, files).value && row.action.DuplicateOf?
    ensures exists kept :: kept in MergePlan(c, walks, files).value && Stands(files, kept, row)
  {
    PlanMeans(c, walks, files, row);
    var kept := RowAtPath(c, walks, files, row.seen.survivor);
    PlanMeans(c, walks, files, kept);
    LeastIsCopied(c, walks, files, row, kept);
  }

  lemma {:induction false} RowAtPath(c: Config, walks: Walks, files: Files, p: Path) returns (row: PlanRow)
    requires MergePlan(c, walks, files).Some? && p in PathsOf(Scan(files, walks, c.srcs))
    ensures row in MergePlan(c, walks, files).value && row.Path() == p
  {
    var found := Scan(files, walks, c.srcs);
    var i :| 0 <= i < |found| && PathsOf(found)[i] == p;
    RowForFound(c, walks, files, found[i]);
    row :| row in MergePlan(c, walks, files).value && row.seen.found == found[i];
  }

  lemma {:induction false} LeastIsCopied(c: Config, walks: Walks, files: Files, row: PlanRow, kept: PlanRow)
    requires RowMeans(c, walks, files, row) && RowMeans(c, walks, files, kept)
    requires row.action.DuplicateOf? && kept.Path() == row.seen.survivor
    ensures Stands(files, kept, row)
  {
  }

  ghost function CopyRowsOf(files: Files, rows: seq<PlanRow>, bytes: Bytes): set<nat> {
    set i | 0 <= i < |rows| && rows[i].action.CopyTo? && rows[i].Path() in files && files[rows[i].Path()] == bytes
  }

  /** One row is the whole set of copy rows of its class. */
  ghost predicate OnlyCopy(c: Config, walks: Walks, files: Files, bytes: Bytes, i: nat) {
    MergePlan(c, walks, files).Some? &&
    var rows := MergePlan(c, walks, files).value;
    && i < |rows| && CopyRowsOf(files, rows, bytes) == {i}
    && rows[i].Path() in files && LeastCopy(files, Scan(files, walks, c.srcs), rows[i].Path())
  }

  /** The counting argument alone: rows that copy exactly the least paths of absent classes. */
  lemma {:induction false} CountCopies(files: Files, rows: seq<PlanRow>, found: seq<Found>, there: Bytes -> bool,
                                       f: Found)
    returns (i: nat)
    requires f in found && f.path in files && !there(files[f.path])
    requires forall k :: 0 <= k < |rows| ==> rows[k].Path() in files && rows[k].seen.found in found
    requires forall k :: 0 <= k < |rows| ==>
      (rows[k].action.CopyTo? <==> !there(files[rows[k].Path()]) && LeastCopy(files, found, rows[k].Path()))
    requires forall g :: g in found ==> exists k :: 0 <= k < |rows| && rows[k].seen.found == g
    requires forall j, k :: 0 <= j < k < |rows| && rows[j].Path() == rows[k].Path() ==>
      files[rows[j].Path()] != files[f.path] || !LeastCopy(files, found, rows[j].Path())
    requires exists g ::
      g in found && g.path in files && files[g.path] == files[f.path] && LeastCopy(files, found, g.path)
    ensures i < |rows| && CopyRowsOf(files, rows, files[f.path]) == {i} && LeastCopy(files, found, rows[i].Path())
  {
    var g :| g in found && g.path in files && files[g.path] == files[f.path] && LeastCopy(files, found, g.path);
    i :| 0 <= i < |rows| && rows[i].seen.found == g;
    forall j | j in CopyRowsOf(files, rows, files[f.path]) ensures j == i {
      BeforeIsOrder();
      assert rows[j].seen.found in found;
      assert rows[j].Path() == rows[i].Path();
    }
    assert i in CopyRowsOf(files, rows, files[f.path]);
  }

  lemma {:induction false} LeastExists(files: Files, found: seq<Found>, bytes: Bytes)
    requires exists f :: f in found && f.path in files && files[f.path] == bytes
    ensures exists g :: g in found && g.path in files && files[g.path] == bytes && LeastCopy(files, found, g.path)
  {
    var init, last := found[..|found| - 1], found[|found| - 1];
    assert forall f :: f in found <==> f in init || f == last;
    BeforeIsOrder();
    if exists f :: f in init && f.path in files && files[f.path] == bytes {
      LeastExists(files, init, bytes);
      var g :| g in init && g.path in files && files[g.path] == bytes && LeastCopy(files, init, g.path);
      var least := if last.path in files && files[last.path] == bytes && !Before(g.path, last.path) then last else g;
      assert LeastCopy(files, found, least.path);
    } else {
      assert LeastCopy(files, found, last.path);
    }
  }

  /** A present content has no copy row; an absent one has exactly one, for its least path. */
  ghost predicate CopiedOnce(c: Config, walks: Walks, files: Files, bytes: Bytes) {
    MergePlan(c, walks, files).Some? &&
    if AlreadyThere(c, walks, files, bytes) then CopyRowsOf(files, MergePlan(c, walks, files).value, bytes) == {}
    else exists i :: OnlyCopy(c, walks, files, bytes, i)
  }

  /** The scan lists the class's least path at one place. */
  ghost predicate LeastOnce(files: Files, found: seq<Found>, bytes: Bytes) {
    forall g :: g in found && g.path in files && files[g.path] == bytes && LeastCopy(files, found, g.path) ==>
      AtMostOnce(PathsOf(found), g.path)
  }

  /** A class is copied once, by its least path, or is there already and not copied: exactly when it is there
      already or the scan lists its least path once. */
  lemma {:induction false} CopiedOnceIff(c: Config, walks: Walks, files: Files, f: Found)
    requires SourcesApart(c) && MergePlan(c, walks, files).Some? && f in Scan(files, walks, c.srcs)
    ensures f.path in files
    ensures CopiedOnce(c, walks, files, files[f.path]) <==>
      AlreadyThere(c, walks, files, files[f.path]) || LeastOnce(files, Scan(files, walks, c.srcs), files[f.path])
  {
    var rows, bytes := MergePlan(c, walks, files).value, files[f.path];
    if AlreadyThere(c, walks, files, bytes) {
      forall k | 0 <= k < |rows| && rows[k].action.CopyTo? && rows[k].Path() in files
        ensures files[rows[k].Path()] != bytes
      {
        PlanMeans(c, walks, files, rows[k]);
      }
    } else if LeastOnce(files, Scan(files, walks, c.srcs), bytes) {
      var i := AbsentCopy(c, walks, files, f);
      assert OnlyCopy(c, walks, files, bytes, i);
    } else {
      var g :| g in Scan(files, walks, c.srcs) && g.path in files && files[g.path] == bytes &&
        LeastCopy(files, Scan(files, walks, c.srcs), g.path) &&
        !AtMostOnce(PathsOf(Scan(files, walks, c.srcs)), g.path);
      RepeatedLeast(c, walks, files, g);
    }
  }

  /** A least path listed at two places has two copy rows. */
  lemma {:induction false} RepeatedLeast(c: Config, walks: Walks, files: Files, g: Found)
    requires SourcesApart(c) && MergePlan(c, walks, files).Some? && g in Scan(files, walks, c.srcs)
    requires g.path in files && !AlreadyThere(c, walks, files, files[g.path])
    requires LeastCopy(files, Scan(files, walks, c.srcs), g.path)
    requires !AtMostOnce(PathsOf(Scan(files, walks, c.srcs)), g.path)
    ensures !CopiedOnce(c, walks, files, files[g.path])
  {
    var m, n := TwoPlacesOf(Scan(files, walks, c.srcs), g.path);
    var i, j := RowsForTwo(c, walks, files, m, n);
    RowCopies(c, walks, files, g, i);
    RowCopies(c, walks, files, g, j);
    forall k ensures !OnlyCopy(c, walks, files, files[g.path], k) {
      if OnlyCopy(c, walks, files, files[g.path], k) {
        OnlyCopyIs(c, walks, files, files[g.path], k, i);
        OnlyCopyIs(c, walks, files, files[g.path], k, j);
      }
    }
  }

  lemma {:induction false} TwoPlacesOf(found: seq<Found>, p: Path) returns (m: nat, n: nat)
    requires !AtMostOnce(PathsOf(found), p)
    ensures m < n < |found| && found[m].path == p == found[n].path
  {
    m, n :| 0 <= m < n < |found| && PathsOf(found)[m] == p == PathsOf(found)[n];
  }

  lemma {:induction false} OnlyCopyIs(c: Config, walks: Walks, files: Files, bytes: Bytes, k: nat, i: nat)
    requires OnlyCopy(c, walks, files, bytes, k) && i in CopyRowsOf(files, MergePlan(c, walks, files).value, bytes)
    ensures i == k
  {
    assert i in {k};
  }

  lemma {:induction false} RowCopies(c: Config, walks: Walks, files: Files, g: Found, i: nat)
    requires SourcesApart(c) && MergePlan(c, walks, files).Some? && i < |MergePlan(c, walks, files).value|
    requires g.path in files && !AlreadyThere(c, walks, files, files[g.path])
    requires LeastCopy(files, Scan(files, walks, c.srcs), g.path)
    requires MergePlan(c, walks, files).value[i].Path() == g.path
    ensures i in CopyRowsOf(files, MergePlan(c, walks, files).value, files[g.path])
  {
    CopyRowMeans(c, walks, files, MergePlan(c, walks, files).value[i]);
  }

  /** Two scanned places are two rows of the plan. */
  lemma {:induction false} RowsForTwo(c: Config, walks: Walks, files: Files, m: nat, n: nat) returns (i: nat, j: nat)
    requires MergePlan(c, walks, files).Some? && m < n < |Scan(files, walks, c.srcs)|
    ensures i < |MergePlan(c, walks, files).value| && j < |MergePlan(c, walks, files).value| && i != j
    ensures MergePlan(c, walks, files).value[i].seen.found == Scan(files, walks, c.srcs)[m]
    ensures MergePlan(c, walks, files).value[j].seen.found == Scan(files, walks, c.srcs)[n]
  {
    var seen := SeenRows(c, walks, files);
    i, j := PlacesOf(seen, InPathOrder(seen), m, n);
    PlanIsPlanRows(c, walks, files);
  }

  lemma {:induction false} PlacesOf(xs: seq<Seen>, ys: seq<Seen>, m: nat, n: nat) returns (i: nat, j: nat)
    requires multiset(xs) == multiset(ys) && m < n < |xs|
    ensures i < |ys| && j < |ys| && i != j && ys[i] == xs[m] && ys[j] == xs[n]
  {
    if xs[m] == xs[n] {
      i, j := TwoPlaces(xs, ys, m, n);
    } else {
      SameMembers(xs, ys);
      assert xs[m] in xs && xs[n] in xs;
      i :| 0 <= i < |ys| && ys[i] == xs[m];
      j :| 0 <= j < |ys| && ys[j] == xs[n];
    }
  }

  /** A class the destination and library lack is copied once, by its least path; others not at all. */
  lemma {:induction false} OneCopyPerClass(c: Config, walks: Walks, files: Files, f: Found)
    requires SourcesApart(c) && MergePlan(c, walks, files).Some?
    requires f in Scan(files, walks, c.srcs) && Distinct(PathsOf(Scan(files, walks, c.srcs)))
    ensures f.path in files
    ensures CopiedOnce(c, walks, files, files[f.path])
  {
    forall g | g in Scan(files, walks, c.srcs) ensures AtMostOnce(PathsOf(Scan(files, walks, c.srcs)), g.path) {
      DistinctIsOnce(PathsOf(Scan(files, walks, c.srcs)), g.path);
    }
    CopiedOnceIff(c, walks, files, f);
  }

  lemma {:induction false} CopyRowMeans(c: Config, walks: Walks, files: Files, row: PlanRow)
    requires SourcesApart(c) && MergePlan(c, walks, files).Some? && row in MergePlan(c, walks, files).value
    ensures row.Path() in files && row.seen.found in Scan(files, walks, c.srcs)
    ensures row.action.CopyTo? <==>
      !AlreadyThere(c, walks, files, files[row.Path()]) && LeastCopy(files, Scan(files, walks, c.srcs), row.Path())
  {
    PlanMeans(c, walks, files, row);
  }

  lemma {:induction false} AbsentCopy(c: Config, walks: Walks, files: Files, f: Found) returns (i: nat)
    requires SourcesApart(c) && MergePlan(c, walks, files).Some?
    requires f in Scan(files, walks, c.srcs) && f.path in files && !AlreadyThere(c, walks, files, files[f.path])
    requires LeastOnce(files, Scan(files, walks, c.srcs), files[f.path])
    ensures OnlyCopy(c, walks, files, files[f.path], i)
  {
    var found := Scan(files, walks, c.srcs);
    var rows := MergePlan(c, walks, files).value;
    var there := b => AlreadyThere(c, walks, files, b);
    forall k | 0 <= k < |rows|
      ensures rows[k].Path() in files && rows[k].seen.found in found
      ensures rows[k].action.CopyTo? <==> !there(files[rows[k].Path()]) && LeastCopy(files, found, rows[k].Path())
    {
      CopyRowMeans(c, walks, files, rows[k]);
    }
    forall g | g in found ensures exists k :: 0 <= k < |rows| && rows[k].seen.found == g {
      RowForFound(c, walks, files, g);
    }
    forall j, k | 0 <= j < k < |rows| && rows[j].Path() == rows[k].Path()
      ensures files[rows[j].Path()] != files[f.path] || !LeastCopy(files, found, rows[j].Path())
    {
      if files[rows[j].Path()] == files[f.path] && LeastCopy(files, found, rows[j].Path()) {
        assert rows[j].seen.found in found;
        RowsFollowPaths(c, walks, files, j, k);
      }
    }
    LeastExists(files, found, files[f.path]);
    i := CountCopies(files, rows, found, there, f);
  }

  lemma {:induction false} RowPath(c: Config, walks: Walks, files: Files, i: nat)
    requires MergePlan(c, walks, files).Some? && i < |MergePlan(c, walks, files).value|
    ensures i < |InPathOrder(SeenRows(c, walks, files))|
    ensures MergePlan(c, walks, files).value[i].Path() == InPathOrder(SeenRows(c, walks, files))[i].found.path
  {
    PlanIsPlanRows(c, walks, files);
  }

  /** A path scanned once has one row. */
  lemma {:induction false} RowsFollowPaths(c: Config, walks: Walks, files: Files, i: nat, j: nat)
    requires MergePlan(c, walks, files).Some?
    requires i < |MergePlan(c, walks, files).value| && j < |MergePlan(c, walks, files).value|
    requires MergePlan(c, walks, files).value[i].Path() == MergePlan(c, walks, files).value[j].Path()
    requires AtMostOnce(PathsOf(Scan(files, walks, c.srcs)), MergePlan(c, walks, files).value[i].Path())
    ensures i == j
  {
    if i < j {
      TwoRowsTwoPlaces(c, walks, files, i, j);
    } else if j < i {
      TwoRowsTwoPlaces(c, walks, files, j, i);
    }
  }

  lemma {:induction false} TwoRowsTwoPlaces(c: Config, walks: Walks, files: Files, i: nat, j: nat)
    requires MergePlan(c, walks, files).Some? && i < j < |MergePlan(c, walks, files).value|
    requires MergePlan(c, walks, files).value[i].Path() == MergePlan(c, walks, files).value[j].Path()
    ensures !AtMostOnce(PathsOf(Scan(files, walks, c.srcs)), MergePlan(c, walks, files).value[i].Path())
  {
    RowPath(c, walks, files, i);
    RowPath(c, walks, files, j);
    var rows, paths := SeenRows(c, walks, files), PathsOf(Scan(files, walks, c.srcs));
    var m, n := PlacesOf(InPathOrder(rows), rows, i, j);
    assert paths[m] == paths[n] == MergePlan(c, walks, files).value[i].Path();
  }
}
