/** The shape of a run's roots, checked before anything is touched. */
module Gate {
  import opened Basics
  import opened Paths
  import opened Fsx
  import opened Planning
  import opened PlanProofs

  /** Strictly inside, one way or the other: the nesting that startswith(x + '/') finds. */
  predicate Nested(a: Path, b: Path) { a < b || b < a }

  ghost predicate Acceptable(dest: Path, srcs: seq<Path>, dirs: set<Path>, writable: bool, allow: bool) {
    && srcs != [] && dest in dirs && writable
    && (forall s :: s in srcs ==> s in dirs && s != dest)
    && (!allow ==>
          && (forall s :: s in srcs ==> !Nested(s, dest))
          && (forall i, j :: 0 <= i < j < |srcs| ==> !Nested(srcs[i], srcs[j])))
  }

  /** `check_paths` on resolved paths; `dirs` are the directories that exist. */
  method CheckPaths(dest: Path, srcs: seq<Path>, dirs: set<Path>, writable: bool, allowNested: bool, reason: string)
    returns (accepted: Option<seq<Path>>)
    ensures accepted == if Acceptable(dest, srcs, dirs, writable, allowNested && reason != "") then Some(srcs) else None
  {
    if srcs == [] || dest !in dirs || !writable { return None; }
    var roots: seq<Path> := [];
    for i := 0 to |srcs|
      invariant roots == srcs[..i]
      invariant Acceptable(dest, srcs[..i], dirs, writable, allowNested && reason != "") || i == 0
    {
      var s := srcs[i];
      assert s in srcs;
      if s !in dirs || s == dest { return None; }
      var nested := Nested(s, dest);
      for j := 0 to |roots|
        invariant nested <==> Nested(s, dest) || exists k :: 0 <= k < j && Nested(roots[k], s)
      {
        if Nested(roots[j], s) { nested := true; }
      }
      if nested && !(allowNested && reason != "") {
        if !Nested(s, dest) {
          var k :| 0 <= k < |roots| && Nested(roots[k], s);
          assert Nested(srcs[k], srcs[i]);
        }
        return None;
      }
      assert srcs[..i + 1] == roots + [s];
      roots := roots + [s];
    }
    assert srcs[..|srcs|] == srcs;
    return Some(roots);
  }

  /** Some path lies below both roots. */
  ghost predicate Overlap(a: Path, b: Path) { exists p :: Under(a, p) && Under(b, p) }

  lemma {:induction false} OverlapIff(a: Path, b: Path)
    ensures Overlap(a, b) <==> a == b || Nested(a, b)
  {
    if p :| Under(a, p) && Under(b, p) {
      UnderBoth(a, b, p);
    } else if a <= b {
      assert Under(a, b + ["x"]) && Under(b, b + ["x"]);
    } else if b <= a {
      assert Under(a, a + ["x"]) && Under(b, a + ["x"]);
    }
  }

  /** Accepted: there is a source, every root is a directory, the destination can be written and is no source, and,
      unless there is a reason for it, no two different roots have a path in common. */
  lemma {:induction false} AcceptedIff(dest: Path, srcs: seq<Path>, dirs: set<Path>, writable: bool, allow: bool)
    ensures Acceptable(dest, srcs, dirs, writable, allow) <==>
      && |srcs| > 0 && dest in dirs && dest !in srcs && writable && (forall s :: s in srcs ==> s in dirs)
      && (allow || (forall s :: s in srcs ==> !Overlap(s, dest)))
      && (allow || (forall s, r :: s in srcs && r in srcs && Overlap(s, r) ==> s == r))
  {
    forall s, r ensures Overlap(s, r) <==> s == r || Nested(s, r) { OverlapIff(s, r); }
    forall s, r | s in srcs && r in srcs
      ensures exists i, j :: 0 <= i < |srcs| && 0 <= j < |srcs| && srcs[i] == s && srcs[j] == r
    {
      var i :| 0 <= i < |srcs| && srcs[i] == s;
      var j :| 0 <= j < |srcs| && srcs[j] == r;
    }
  }

  /** Without a recorded reason, accepted sources share no file with the destination's tree, and
      two sources share files only when they are the same root. */
  lemma {:induction false} AcceptedAreApart(dest: Path, srcs: seq<Path>, dirs: set<Path>, writable: bool, s: Path,
                                            t: Path, p: Path)
    requires Acceptable(dest, srcs, dirs, writable, false) && s in srcs && t in srcs && Under(s, p)
    ensures Unnested(s, dest) && !Under(dest, p)
    ensures Under(t, p) ==> s == t
  {
    if Under(dest, p) { UnderBoth(s, dest, p); }
    if Under(t, p) {
      UnderBoth(s, t, p);
      var i :| 0 <= i < |srcs| && srcs[i] == s;
      var j :| 0 <= j < |srcs| && srcs[j] == t;
      assert i < j ==> !Nested(srcs[i], srcs[j]);
      assert j < i ==> !Nested(srcs[j], srcs[i]);
    }
  }

  // ---- distinct roots copy once ----

  lemma {:induction false} OnceMore(before: seq<Found>, f: Found)
    requires Distinct(PathsOf(before)) && f.path !in PathsOf(before)
    ensures Distinct(PathsOf(before + [f]))
  {
    assert (before + [f])[..|before|] == before;
  }

  lemma {:induction false} FoundOnce(files: Files, root: Path, listed: seq<Path>)
    requires Distinct(listed)
    ensures Distinct(PathsOf(FoundUnder(files, root, listed)))
  {
    if listed != [] {
      var init, last := listed[..|listed| - 1], listed[|listed| - 1];
      assert last !in init;
      FoundOnce(files, root, init);
      FoundPaths(files, root, init);
      if last in files && Under(root, last) {
        OnceMore(FoundUnder(files, root, init), Found(last, |files[last]|, last[|root|..]));
      }
    }
  }

  lemma {:induction false} FoundPaths(files: Files, root: Path, listed: seq<Path>)
    ensures forall p :: p in PathsOf(FoundUnder(files, root, listed)) ==> p in listed && Under(root, p)
  {
    var found := FoundUnder(files, root, listed);
    forall p | p in PathsOf(found) ensures p in listed && Under(root, p) {
      var i :| 0 <= i < |found| && PathsOf(found)[i] == p;
      assert found[i] in found;
    }
  }

  lemma {:induction false} ScannedPaths(files: Files, walks: Walks, srcs: seq<Path>)
    ensures forall p :: p in PathsOf(Scan(files, walks, srcs)) ==> exists s :: s in srcs && Under(s, p)
  {
    var found := Scan(files, walks, srcs);
    forall p | p in PathsOf(found) ensures exists s :: s in srcs && Under(s, p) {
      var i :| 0 <= i < |found| && PathsOf(found)[i] == p;
      assert found[i] in found;
    }
  }

  /** No root repeats another or lies in one, and no walk lists a path twice. */
  ghost predicate SeparateRoots(walks: Walks, srcs: seq<Path>) {
    && (forall i, j :: 0 <= i < j < |srcs| ==> srcs[i] != srcs[j] && !Nested(srcs[i], srcs[j]))
    && (forall s :: s in srcs ==> Distinct(Walk(walks, s)))
  }

  lemma {:induction false} LastIsSeparate(walks: Walks, srcs: seq<Path>, p: Path, s: Path)
    requires SeparateRoots(walks, srcs) && srcs != [] && s in srcs[..|srcs| - 1]
    requires Under(s, p)
    ensures !Under(srcs[|srcs| - 1], p)
  {
    var i :| 0 <= i < |srcs| - 1 && srcs[i] == s;
    if Under(srcs[|srcs| - 1], p) { UnderBoth(s, srcs[|srcs| - 1], p); }
  }

  /** Separate roots are scanned without repetition. */
  lemma {:induction false} ScannedOnce(files: Files, walks: Walks, srcs: seq<Path>)
    requires SeparateRoots(walks, srcs)
    ensures Distinct(PathsOf(Scan(files, walks, srcs)))
  {
    if srcs != [] {
      var init, last := srcs[..|srcs| - 1], srcs[|srcs| - 1];
      assert last in srcs && forall i :: 0 <= i < |init| ==> init[i] == srcs[i];
      ScannedOnce(files, walks, init);
      var before, more := Scan(files, walks, init), FoundUnder(files, last, Walk(walks, last));
      FoundOnce(files, last, Walk(walks, last));
      FoundPaths(files, last, Walk(walks, last));
      ScannedPaths(files, walks, init);
      PathsOfConcat(before, more);
      forall p | p in PathsOf(before) ensures p !in PathsOf(more) {
        var s :| s in init && Under(s, p);
        LastIsSeparate(walks, srcs, p, s);
      }
      DistinctConcat(PathsOf(before), PathsOf(more));
    }
  }

  lemma {:induction false} AcceptedAreSeparate(c: Config, walks: Walks, dirs: set<Path>, writable: bool)
    requires Acceptable(c.dest, c.srcs, dirs, writable, false) && Distinct(c.srcs)
    requires c.library.Some? ==> forall s :: s in c.srcs ==> Unnested(s, c.library.value)
    requires forall s :: s in c.srcs ==> Distinct(Walk(walks, s))
    ensures SourcesApart(c) && SeparateRoots(walks, c.srcs)
  {
  }

  /** Accepted roots, pairwise distinct and apart from the library: a content absent from destination and library
      is copied exactly once, by its least path, and a present one not at all. */
  lemma {:induction false} AcceptedCopiesOnce(c: Config, walks: Walks, files: Files, dirs: set<Path>, writable: bool,
                                              f: Found)
    requires Acceptable(c.dest, c.srcs, dirs, writable, false) && Distinct(c.srcs)
    requires c.library.Some? ==> forall s :: s in c.srcs ==> Unnested(s, c.library.value)
    requires forall s :: s in c.srcs ==> Distinct(Walk(walks, s))
    requires MergePlan(c, walks, files).Some? && f in Scan(files, walks, c.srcs)
    ensures f.path in files && CopiedOnce(c, walks, files, files[f.path])
  {
    AcceptedAreSeparate(c, walks, dirs, writable);
    ScannedOnce(files, walks, c.srcs);
    OneCopyPerClass(c, walks, files, f);
  }

  // ---- repeated roots copy twice ----

  /** A root given twice is accepted ... */
  lemma {:induction false} RepeatedSourceIsAccepted(dest: Path, srcs: seq<Path>, dirs: set<Path>, writable: bool,
                                                    s: Path)
    requires Acceptable(dest, srcs, dirs, writable, false) && s in srcs
    ensures Acceptable(dest, srcs + [s], dirs, writable, false)
  {
    var all := srcs + [s];
    forall i, j | 0 <= i < j < |all| ensures !Nested(all[i], all[j]) {
      var k :| 0 <= k < |srcs| && srcs[k] == s;
      if j == |srcs| {
        assert i < k ==> !Nested(srcs[i], srcs[k]);
        assert k < i ==> !Nested(srcs[k], srcs[i]);
      }
    }
  }

  /** ... and then a file below it that is the one to copy is planned to be copied twice, to two names. */
  lemma {:induction false} RepeatedSourceCopiesTwice(c: Config, walks: Walks, files: Files, k: nat, l: nat, f: Found)
    requires k < l < |c.srcs| && c.srcs[k] == c.srcs[l] && SourcesApart(c) && MergePlan(c, walks, files).Some?
    requires f in FoundUnder(files, c.srcs[k], Walk(walks, c.srcs[k])) && f.path in files
    requires !AlreadyThere(c, walks, files, files[f.path]) && LeastCopy(files, Scan(files, walks, c.srcs), f.path)
    ensures var rows := MergePlan(c, walks, files).value;
      exists i, j :: 0 <= i < j < |rows| && rows[i].seen.found == f == rows[j].seen.found &&
                     rows[i].action.CopyTo? && rows[j].action.CopyTo?
  {
    var m, n := ScannedTwice(files, walks, c.srcs, k, l, f);
    var i, j := RowsForTwo(c, walks, files, m, n);
    if j < i { i, j := j, i; }
    var rows := MergePlan(c, walks, files).value;
    PlanMeans(c, walks, files, rows[i]);
    PlanMeans(c, walks, files, rows[j]);
  }

  /** A root given twice, and below it the file that its absent content is copied from. */
  ghost predicate CopiesTwice(c: Config, walks: Walks, files: Files, k: nat, l: nat, f: Found) {
    && k < l < |c.srcs| && c.srcs[k] == c.srcs[l]
    && f in FoundUnder(files, c.srcs[k], Walk(walks, c.srcs[k])) && f.path in files
    && !AlreadyThere(c, walks, files, files[f.path]) && LeastCopy(files, Scan(files, walks, c.srcs), f.path)
  }

  /** No root below which the path lies is given twice. */
  ghost predicate RootedOnce(files: Files, walks: Walks, srcs: seq<Path>, p: Path) {
    forall k, l :: 0 <= k < l < |srcs| && srcs[k] == srcs[l] ==>
      p !in PathsOf(FoundUnder(files, srcs[k], Walk(walks, srcs[k])))
  }

  ghost predicate Unnesting(walks: Walks, srcs: seq<Path>) {
    && (forall i, j :: 0 <= i < j < |srcs| ==> !Nested(srcs[i], srcs[j]))
    && (forall s :: s in srcs ==> Distinct(Walk(walks, s)))
  }

  /** Then the scan lists the path once. */
  lemma {:induction false} ScannedAtMostOnce(files: Files, walks: Walks, srcs: seq<Path>, p: Path)
    requires Unnesting(walks, srcs) && RootedOnce(files, walks, srcs, p)
    ensures AtMostOnce(PathsOf(Scan(files, walks, srcs)), p)
  {
    if srcs != [] {
      var init, last := srcs[..|srcs| - 1], srcs[|srcs| - 1];
      assert last in srcs && forall i :: 0 <= i < |init| ==> init[i] == srcs[i];
      ScannedAtMostOnce(files, walks, init, p);
      var before, more := Scan(files, walks, init), FoundUnder(files, last, Walk(walks, last));
      FoundOnce(files, last, Walk(walks, last));
      DistinctIsOnce(PathsOf(more), p);
      PathsOfConcat(before, more);
      if p in PathsOf(before) && p in PathsOf(more) {
        var k := ScannedBelow(files, walks, init, p);
        FoundPaths(files, srcs[k], Walk(walks, srcs[k]));
        FoundPaths(files, last, Walk(walks, last));
        SameRoot(srcs, k, p);
        assert false;
      }
      OnceConcat(PathsOf(before), PathsOf(more), p);
    }
  }

  lemma {:induction false} SameRoot(srcs: seq<Path>, k: nat, p: Path)
    requires k < |srcs| - 1 && !Nested(srcs[k], srcs[|srcs| - 1])
    requires Under(srcs[k], p) && Under(srcs[|srcs| - 1], p)
    ensures srcs[k] == srcs[|srcs| - 1]
  {
    if srcs[k] != srcs[|srcs| - 1] { UnderBoth(srcs[k], srcs[|srcs| - 1], p); }
  }

  /** A scanned path lies below one of the roots. */
  lemma {:induction false} ScannedBelow(files: Files, walks: Walks, srcs: seq<Path>, p: Path) returns (k: nat)
    requires p in PathsOf(Scan(files, walks, srcs))
    ensures k < |srcs| && p in PathsOf(FoundUnder(files, srcs[k], Walk(walks, srcs[k])))
  {
    var init, last := srcs[..|srcs| - 1], srcs[|srcs| - 1];
    PathsOfConcat(Scan(files, walks, init), FoundUnder(files, last, Walk(walks, last)));
    if p in PathsOf(Scan(files, walks, init)) { k := ScannedBelow(files, walks, init, p); } else { k := |init|; }
  }

  /** A path below a repeated root is listed twice. */
  lemma {:induction false} BelowRepeated(files: Files, walks: Walks, srcs: seq<Path>, k: nat, l: nat, f: Found)
    requires k < l < |srcs| && srcs[k] == srcs[l] && f in FoundUnder(files, srcs[k], Walk(walks, srcs[k]))
    ensures f in Scan(files, walks, srcs) && !AtMostOnce(PathsOf(Scan(files, walks, srcs)), f.path)
  {
    var m, n := ScannedTwice(files, walks, srcs, k, l, f);
    var found := Scan(files, walks, srcs);
    assert PathsOf(found)[m] == f.path == PathsOf(found)[n];
  }

  /** The copies of one content, for accepted roots. */
  lemma {:induction false} ClassIsCopiedOnce(c: Config, walks: Walks, files: Files, f: Found)
    requires SourcesApart(c) && Unnesting(walks, c.srcs) && MergePlan(c, walks, files).Some?
    requires f in Scan(files, walks, c.srcs) && forall k: nat, l: nat, g :: !CopiesTwice(c, walks, files, k, l, g)
    ensures f.path in files && CopiedOnce(c, walks, files, files[f.path])
  {
    var found := Scan(files, walks, c.srcs);
    if !AlreadyThere(c, walks, files, files[f.path]) {
      forall g | g in found && g.path in files && files[g.path] == files[f.path] && LeastCopy(files, found, g.path)
        ensures AtMostOnce(PathsOf(found), g.path)
      {
        LeastIsRootedOnce(c, walks, files, g);
        ScannedAtMostOnce(files, walks, c.srcs, g.path);
      }
    }
    CopiedOnceIff(c, walks, files, f);
  }

  lemma {:induction false} LeastIsRootedOnce(c: Config, walks: Walks, files: Files, g: Found)
    requires g.path in files && forall k: nat, l: nat, h :: !CopiesTwice(c, walks, files, k, l, h)
    requires !AlreadyThere(c, walks, files, files[g.path]) && LeastCopy(files, Scan(files, walks, c.srcs), g.path)
    ensures RootedOnce(files, walks, c.srcs, g.path)
  {
    forall k, l | 0 <= k < l < |c.srcs| && c.srcs[k] == c.srcs[l]
      ensures g.path !in PathsOf(FoundUnder(files, c.srcs[k], Walk(walks, c.srcs[k])))
    {
      var below := FoundUnder(files, c.srcs[k], Walk(walks, c.srcs[k]));
      if g.path in PathsOf(below) {
        var i :| 0 <= i < |below| && PathsOf(below)[i] == g.path;
        assert below[i] in below && CopiesTwice(c, walks, files, k, l, below[i]);
      }
    }
  }

  /** Accepted roots apart from the library: every scanned content is copied once if absent and not at all if present,
      if and only if no root that is given twice has below it the least path of an absent content. */
  lemma {:induction false} AcceptedCopiesOnceIff(c: Config, walks: Walks, files: Files, dirs: set<Path>, writable: bool)
    requires Acceptable(c.dest, c.srcs, dirs, writable, false) && MergePlan(c, walks, files).Some?
    requires c.library.Some? ==> forall s :: s in c.srcs ==> Unnested(s, c.library.value)
    requires forall s :: s in c.srcs ==> Distinct(Walk(walks, s))
    ensures (forall f :: f in Scan(files, walks, c.srcs) ==> CopiedOnce(c, walks, files, files[f.path])) <==>
            (forall k: nat, l: nat, f :: !CopiesTwice(c, walks, files, k, l, f))
  {
    AcceptedSourcesApart(c, dirs, writable);
    if k: nat, l: nat, f :| CopiesTwice(c, walks, files, k, l, f) {
      BelowRepeated(files, walks, c.srcs, k, l, f);
      RepeatedLeast(c, walks, files, f);
    } else {
      forall f | f in Scan(files, walks, c.srcs) ensures CopiedOnce(c, walks, files, files[f.path]) {
        ClassIsCopiedOnce(c, walks, files, f);
      }
    }
  }

  lemma {:induction false} AcceptedSourcesApart(c: Config, dirs: set<Path>, writable: bool)
    requires Acceptable(c.dest, c.srcs, dirs, writable, false)
    requires c.library.Some? ==> forall s :: s in c.srcs ==> Unnested(s, c.library.value)
    ensures SourcesApart(c)
  {
  }

  predicate At(found: seq<Found>, m: nat, f: Found) { m < |found| && found[m] == f }

  lemma {:induction false} AtHead(head: seq<Found>, tail: seq<Found>, m: nat, f: Found)
    requires At(head, m, f)
    ensures At(head + tail, m, f)
  {
  }

  lemma {:induction false} AtTail(head: seq<Found>, tail: seq<Found>, f: Found) returns (n: nat)
    requires f in tail
    ensures n >= |head| && At(head + tail, n, f)
  {
    var i :| 0 <= i < |tail| && tail[i] == f;
    n := |head| + i;
  }

  lemma {:induction false} ScannedSomewhere(files: Files, walks: Walks, srcs: seq<Path>, k: nat, f: Found)
    returns (m: nat)
    requires k < |srcs| && f in FoundUnder(files, srcs[k], Walk(walks, srcs[k]))
    ensures At(Scan(files, walks, srcs), m, f)
  {
    var init, last := srcs[..|srcs| - 1], srcs[|srcs| - 1];
    var head, tail := Scan(files, walks, init), FoundUnder(files, last, Walk(walks, last));
    if k < |srcs| - 1 {
      m := ScannedSomewhere(files, walks, init, k, f);
      AtHead(head, tail, m, f);
    } else {
      m := AtTail(head, tail, f);
    }
  }

  /** One file below a root lies in the scan once for each time the root is given. */
  lemma {:induction false} ScannedTwice(files: Files, walks: Walks, srcs: seq<Path>, k: nat, l: nat, f: Found)
    returns (m: nat, n: nat)
    requires k < l < |srcs| && srcs[k] == srcs[l] && f in FoundUnder(files, srcs[k], Walk(walks, srcs[k]))
    ensures m < n && At(Scan(files, walks, srcs), m, f) && At(Scan(files, walks, srcs), n, f)
  {
    var init, last := srcs[..|srcs| - 1], srcs[|srcs| - 1];
    var head, tail := Scan(files, walks, init), FoundUnder(files, last, Walk(walks, last));
    if l < |srcs| - 1 {
      m, n := ScannedTwice(files, walks, init, k, l, f);
      AtHead(head, tail, n, f);
    } else {
      m := ScannedSomewhere(files, walks, init, k, f);
      n := AtTail(head, tail, f);
    }
    AtHead(head, tail, m, f);
  }
}
