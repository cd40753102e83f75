/** The smallest merges, worked out: the hypotheses of the theorems can be met, and the plan is what one expects. */
module Scenarios {
  import opened Basics
  import opened Paths
  import opened Names
  import opened Fsx
  import opened Ledger
  import opened Planning
  import opened PlanProofs
  import opened Worlds
  import opened Histories
  import opened PurgeProofs
  import opened Reclaims
  import opened Twins

  // ---- one file, nothing like it ----

  /** One source holding one file, no library, a destination that lists nothing with its bytes and has none but
      staging names at the top. */
  ghost predicate OneFile(c: Config, walks: Walks, files: Files, s: Path, leaf: Component, bytes: Bytes) {
    && c.srcs == [s] && SourcesApart(c) && c.library == None
    && s + [leaf] in files && files[s + [leaf]] == bytes && s in walks && walks[s] == [s + [leaf]]
    && !HeldIn(files, DestFiles(files, c, walks), bytes) && ClaimedOnDisk(c, files, c.LayoutRoot()) == {}
  }

  lemma {:induction false} OneFound(c: Config, walks: Walks, files: Files, s: Path, leaf: Component, bytes: Bytes)
    requires OneFile(c, walks, files, s, leaf, bytes)
    ensures Scan(files, walks, c.srcs) == [Found(s + [leaf], |bytes|, [leaf])]
  {
    var p := s + [leaf];
    assert p[|s|..] == [leaf];
    ScanOne(files, walks, s, p);
  }

  /** Nothing else holds its bytes, so it is its own survivor. */
  lemma {:induction false} OneSeen(c: Config, walks: Walks, files: Files, s: Path, leaf: Component, bytes: Bytes)
    returns (seen: Seen)
    requires OneFile(c, walks, files, s, leaf, bytes)
    ensures InPathOrder(SeenRows(c, walks, files)) == [seen]
    ensures seen.found == Found(s + [leaf], |bytes|, [leaf]) && seen.scopes == {} && seen.survivor == s + [leaf]
  {
    OneFound(c, walks, files, s, leaf, bytes);
    var rows := SeenRows(c, walks, files);
    seen := rows[0];
    assert rows == [seen];
    assert multiset(InPathOrder(rows)) == multiset{seen};
    Alone(InPathOrder(rows), seen);
    SeenReads(c, walks, files, seen.found);
    NoScope(seen.scopes);
  }

  lemma {:induction false} Alone(xs: seq<Seen>, x: Seen)
    requires multiset(xs) == multiset{x}
    ensures xs == [x]
  {
    assert |xs| == |multiset(xs)| == 1;
    assert xs[0] in multiset(xs);
  }

  lemma {:induction false} NoScope(scopes: set<Scope>)
    requires OnDest !in scopes && InLibrary !in scopes
    ensures scopes == {}
  {
    forall x ensures x !in scopes { assert x == OnDest || x == InLibrary; }
  }

  lemma {:induction false} DecidedCopy(c: Config, files: Files, seen: Seen)
    requires seen.found.rel != [] && seen.found.path != [] && seen.scopes == {} && seen.survivor == seen.found.path
    requires ClaimedOnDisk(c, files, TargetDir(c, seen.found)) == {}
    ensures Decide(c, files, [], seen) ==
      Some(PlanRow(seen, CopyTo(TargetDir(c, seen.found) + [c.naming.sanitise(Leaf(seen.found.path))]), None))
  {
    FirstIsFree(c.naming.key, c.naming.sanitise(Leaf(seen.found.path)));
    assert ClaimedByRun(c, [], TargetDir(c, seen.found)) == {};
  }

  lemma {:induction false} OneRow(c: Config, files: Files, seen: Seen, row: PlanRow)
    requires seen.found.rel != [] && seen.found.path != [] && Decide(c, files, [], seen) == Some(row)
    ensures PlanRows(c, files, [seen]) == Some([row])
  {
    var all, rows: seq<PlanRow> := [seen], [];
    assert all[..|all| - 1] == [] && all[|all| - 1] == seen;
    assert PlanRows(c, files, []) == Some(rows);
    assert Decide(c, files, rows, all[|all| - 1]) == Some(row);
    assert rows + [row] == [row];
    assert PlanRows(c, files, all) == Some(rows + [row]);
  }

  /** The plan copies it under its own sanitised name. */
  lemma {:induction false} OneFileIsCopied(c: Config, walks: Walks, files: Files, s: Path, leaf: Component,
                                           bytes: Bytes)
    returns (row: PlanRow)
    requires OneFile(c, walks, files, s, leaf, bytes)
    ensures MergePlan(c, walks, files) == Some([row])
    ensures row.Path() == s + [leaf] && row.action == CopyTo(c.LayoutRoot() + [c.naming.sanitise(leaf)])
  {
    var seen := OneSeen(c, walks, files, s, leaf, bytes);
    assert TargetDir(c, seen.found) == c.LayoutRoot();
    DecidedCopy(c, files, seen);
    row := PlanRow(seen, CopyTo(c.LayoutRoot() + [c.naming.sanitise(leaf)]), None);
    OneRow(c, files, seen, row);
  }

  lemma {:induction false} FirstIsFree(key: Key, name: Component)
    ensures UniqueName({}, key, name) == Some(name)
  {
    var tries := Attempts(name);
    assert tries(0) == name;
    assert FirstFree({}, key, tries, 0) == Some(tries(0));
  }

  // ---- one file, and its twin on the destination ----

  /** One source holding one file, and one file with the same bytes below the layout root; a fresh table. */
  ghost predicate TwoFiles(w: World, m: MergeCall, s: Path, source: Path, twin: Path, bytes: Bytes) {
    var c := m.config;
    && c.srcs == [s] && SourcesApart(c) && c.library == None && w.rows == []
    && s < source && s in m.walks && m.walks[s] == [source]
    && c.LayoutRoot() < twin && c.LayoutRoot() in m.walks && m.walks[c.LayoutRoot()] == [twin]
    && w.files.Keys == {source, twin} && w.files[source] == bytes == w.files[twin]
  }

  lemma {:induction false} TwoScanned(w: World, m: MergeCall, s: Path, source: Path, twin: Path, bytes: Bytes)
    requires TwoFiles(w, m, s, source, twin, bytes)
    ensures var found := Scan(w.files, m.walks, m.config.srcs);
      source != twin && SourcesOf(found) == {source} && |found| == 1 && forall q :: q in PathsOf(found) <==> q == source
  {
    SourceOutside(m.config, source, s);
    ScanOne(w.files, m.walks, s, source);
    SourcesArePaths(Scan(w.files, m.walks, m.config.srcs));
  }

  lemma {:induction false} TwinListed(w: World, m: MergeCall, s: Path, source: Path, twin: Path, bytes: Bytes)
    requires TwoFiles(w, m, s, source, twin, bytes)
    ensures DestFiles(w.files, m.config, m.walks) == [twin] && LibraryFiles(w.files, m.config, m.walks) == []
    ensures twin in ScopeOf(w.files, m.config, m.walks)
  {
    OneListed(w.files, m.config.LayoutRoot(), twin);
    assert PathsOf([Found(twin, |bytes|, twin[|m.config.LayoutRoot()|..])]) == [twin];
  }

  lemma {:induction false} TwoIndexed(w: World, m: MergeCall, s: Path, source: Path, twin: Path, bytes: Bytes)
    requires TwoFiles(w, m, s, source, twin, bytes)
    ensures forall q :: q in Indexed(w.files, m.config, m.walks) <==> q in w.files
  {
    TwoScanned(w, m, s, source, twin, bytes);
    TwinListed(w, m, s, source, twin, bytes);
    IndexedIs(m.config, m.walks, w.files, {source}, {twin});
    assert w.files.Keys == {source} + {twin};
  }

  /** Nothing was proven before, so a source that is the least stays and any other goes. */
  lemma {:induction false} LeftOver(files: Files, source: Path, least: Path, sha: Digest)
    ensures files - Trapped([], {source}, least, sha) == if source == least then files else files - {source}
  {
    assert Trapped([], {source}, least, sha) == if source == least then {} else {source};
    assert files - {} == files;
  }

  lemma {:induction false} TwinRound(w: World, m: MergeCall, p: PurgeCall, source: Path, least: Path)
    requires Together(m.config, m.walks, w.files, least) && IsLeast(least, w.files.Keys) && Followed(w, m, p)
    requires w.rows == [] && SourcesOf(Scan(w.files, m.walks, m.config.srcs)) == {source}
    ensures Purge(Merge(w, m), p).files == if source == least then w.files else w.files - {source}
  {
    AllOneContent(m.config, m.walks, w.files, least);
    OneContentPurge(w, m, p, least);
    LeftOver(w.files, source, least, Sha256(w.files[least]));
  }

  lemma {:induction false} TwinRequest(w: World, m: MergeCall, p: PurgeCall, least: Path)
    requires Together(m.config, m.walks, w.files, least) && IsLeast(least, w.files.Keys) && Followed(w, m, p)
    requires w.rows == [] && SourcesOf(Scan(w.files, m.walks, m.config.srcs)) == {least}
    ensures var rows := Merge(w, m).rows;
      var id := PendingDelete(rows, p.run, least);
      id.Some? && Unclaimed(rows, p.run, id.value)
  {
    AllOneContent(m.config, m.walks, w.files, least);
    var ks := OneContentMerge(w, m, p, least);
    SelfProofIsUnclaimed(p.run, w.files, w.rows, ks, Merge(w, m).rows, Scan(w.files, m.walks, m.config.srcs), least);
  }

  lemma {:induction false} LookTogether(c: Config, walks: Walks, files: Files, source: Path, twin: Path, bytes: Bytes,
                                        least: Path)
    requires (forall q :: q in Indexed(files, c, walks) <==> q in files) && twin in ScopeOf(files, c, walks)
    requires source != twin && (forall q :: q in PathsOf(Scan(files, walks, c.srcs)) <==> q == source)
    requires least in files && forall q :: q in files ==> files[q] == bytes
    ensures Together(c, walks, files, least)
  {
  }

  lemma {:induction false} TwoTogether(w: World, m: MergeCall, s: Path, source: Path, twin: Path, bytes: Bytes,
                                       least: Path)
    requires TwoFiles(w, m, s, source, twin, bytes) && least in w.files
    ensures Together(m.config, m.walks, w.files, least)
  {
    TwoIndexed(w, m, s, source, twin, bytes);
    TwinListed(w, m, s, source, twin, bytes);
    TwoScanned(w, m, s, source, twin, bytes);
    LookTogether(m.config, m.walks, w.files, source, twin, bytes, least);
  }

  /** The source is staged either way. The purge takes it when the twin sorts first; a source that sorts first is
      staged as its own proof, and both files stay. */
  lemma {:induction false} TwinIsReclaimedIff(w: World, m: MergeCall, p: PurgeCall, s: Path, source: Path, twin: Path,
                                              bytes: Bytes)
    requires TwoFiles(w, m, s, source, twin, bytes) && Followed(w, m, p)
    ensures Purge(Merge(w, m), p).files == if Before(source, twin) then w.files else w.files - {source}
  {
    var least := if Before(source, twin) then source else twin;
    LeastOfEither(source, twin);
    TwoTogether(w, m, s, source, twin, bytes, least);
    TwoScanned(w, m, s, source, twin, bytes);
    TwinRound(w, m, p, source, least);
  }

  /** And then the delete that the merge requested is one the table itself calls unclaimed. */
  lemma {:induction false} SelfProofStaysUnclaimed(w: World, m: MergeCall, p: PurgeCall, s: Path, source: Path,
                                                   twin: Path, bytes: Bytes)
    requires TwoFiles(w, m, s, source, twin, bytes) && Followed(w, m, p) && Before(source, twin)
    ensures var rows := Merge(w, m).rows;
      var id := PendingDelete(rows, p.run, source);
      id.Some? && Unclaimed(rows, p.run, id.value)
  {
    LeastOf(source, twin);
    TwoTogether(w, m, s, source, twin, bytes, source);
    TwoScanned(w, m, s, source, twin, bytes);
    TwinRequest(w, m, p, source);
  }
}
