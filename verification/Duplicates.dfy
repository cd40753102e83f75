/** The duplicate index: size, then head hash, then full hash, each only as far as it must. */
module Duplicates {
  import opened Basics
  import opened Paths
  import opened Fsx

  const HEAD_BYTES: nat := 0x10_0000

  datatype Entry = Entry(path: Path, size: nat)

  datatype Group = Group(size: nat, digest: Digest, paths: seq<Path>)

  /** `_stat_key`: this version of this file. */
  datatype Token = Token(path: Path, size: nat, mtime: int)

  type Memo = map<Token, Digest>

  /** The two hashes of the escalation: of the first megabyte, or of everything. */
  function Blake(bytes: Bytes, head: bool): Digest {
    Digest(if head then bytes[..Min(|bytes|, HEAD_BYTES)] else bytes)
  }

  function TokenOf(files: Files, stamps: map<Path, int>, path: Path): Token
    requires path in files
  {
    Token(path, |files[path]|, if path in stamps then stamps[path] else 0)
  }

  /** No cached digest is about other bytes than the file holds now. */
  ghost predicate Truthful(memo: Memo, files: Files, stamps: map<Path, int>, head: bool) {
    forall p :: p in files && TokenOf(files, stamps, p) in memo ==>
      memo[TokenOf(files, stamps, p)] == Blake(files[p], head)
  }

  /** A file that is written again, with another time or another size than any cached, is not answered from the cache:
      what was truthful stays so. */
  lemma {:induction false} RewrittenIsRead(memo: Memo, files: Files, stamps: map<Path, int>, head: bool, path: Path,
                                           bytes: Bytes, mtime: int)
    requires Truthful(memo, files, stamps, head)
    requires forall t :: t in memo && t.path == path ==> t.mtime != mtime || t.size != |bytes|
    ensures Truthful(memo, files[path := bytes], stamps[path := mtime], head)
  {
    var files', stamps' := files[path := bytes], stamps[path := mtime];
    forall p | p in files' && TokenOf(files', stamps', p) in memo
      ensures memo[TokenOf(files', stamps', p)] == Blake(files'[p], head)
    {
      if p != path { assert TokenOf(files', stamps', p) == TokenOf(files, stamps, p); }
    }
  }

  // ---- the specification: classes of equal size and equal bytes ----

  function PathsOfSize(entries: seq<Entry>, size: nat): seq<Path> {
    if entries == [] then []
    else
      var last := entries[|entries| - 1];
      PathsOfSize(entries[..|entries| - 1], size) + if last.size == size then [last.path] else []
  }

  function WithDigest(files: Files, head: bool, d: Digest): set<Path> {
    set p | p in files && Blake(files[p], head) == d
  }

  /** The paths whose file holds exactly these bytes, in path order. */
  function SameBytes(candidates: seq<Path>, files: Files, bytes: Bytes): seq<Path> {
    SortBy(Pick(candidates, WithDigest(files, false, Digest(bytes))), Before)
  }

  /** The class of the added paths of one size that hold the same bytes. */
  function ClassOf(files: Files, entries: seq<Entry>, size: nat, bytes: Bytes): seq<Path> {
    SameBytes(PathsOfSize(entries, size), files, bytes)
  }

  predicate MoreSaving(a: Group, b: Group) {
    a.size * (|a.paths| - 1) >= b.size * (|b.paths| - 1)
  }

  /** The buckets are the candidates on disk, split by digest, in order. */
  ghost predicate SplitBy(b: Buckets<Digest, Path>, candidates: seq<Path>, files: Files, isHead: bool) {
    forall d: Digest ::
      if d in b.items
      then b.items[d] == Pick(candidates, WithDigest(files, isHead, d)) && b.items[d] != []
      else Pick(candidates, WithDigest(files, isHead, d)) == []
  }

  lemma {:induction false} PickStep(xs: seq<Path>, i: nat, s: set<Path>)
    requires i < |xs|
    ensures Pick(xs[..i + 1], s) == Pick(xs[..i], s) + if xs[i] in s then [xs[i]] else []
  {
    assert xs[..i + 1][..i] == xs[..i];
  }

  lemma {:induction false} SplitStep(b: Buckets<Digest, Path>, xs: seq<Path>, i: nat, files: Files, isHead: bool)
    requires b.Valid() && i < |xs| && SplitBy(b, xs[..i], files, isHead)
    ensures var x := xs[i];
      var b' := if x in files then b.Add(Blake(files[x], isHead), x) else b;
      SplitBy(b', xs[..i + 1], files, isHead)
  {
    var x := xs[i];
    var b' := if x in files then b.Add(Blake(files[x], isHead), x) else b;
    forall d: Digest
      ensures if d in b'.items
              then b'.items[d] == Pick(xs[..i + 1], WithDigest(files, isHead, d)) && b'.items[d] != []
              else Pick(xs[..i + 1], WithDigest(files, isHead, d)) == []
    {
      PickStep(xs, i, WithDigest(files, isHead, d));
      assert x in WithDigest(files, isHead, d) <==> x in files && Blake(files[x], isHead) == d;
    }
  }

  lemma {:induction false} PickLength(xs: seq<Path>, s: set<Path>)
    ensures |Pick(xs, s)| <= |xs|
  {
    if xs != [] { PickLength(xs[..|xs| - 1], s); }
  }

  /** The buckets hold the added paths, split by the size they were added with. */
  ghost predicate SplitBySize(b: Buckets<nat, Path>, entries: seq<Entry>) {
    forall n: nat ::
      if n in b.items then b.items[n] == PathsOfSize(entries, n) else PathsOfSize(entries, n) == []
  }

  lemma {:induction false} SizeStep(b: Buckets<nat, Path>, entries: seq<Entry>, i: nat)
    requires b.Valid() && i < |entries| && SplitBySize(b, entries[..i])
    ensures SplitBySize(b.Add(entries[i].size, entries[i].path), entries[..i + 1])
  {
    assert entries[..i + 1][..i] == entries[..i];
  }

  /** Head first, then full: the files left are the whole class, because equal bytes have equal heads. */
  lemma {:induction false} EscalationIsExact(candidates: seq<Path>, files: Files, bytes: Bytes)
    ensures var sameHead := Pick(SortBy(candidates, Before), WithDigest(files, true, Blake(bytes, true)));
      Pick(sameHead, WithDigest(files, false, Digest(bytes))) == SameBytes(candidates, files, bytes)
  {
    var h, f := WithDigest(files, true, Blake(bytes, true)), WithDigest(files, false, Digest(bytes));
    PickPick(SortBy(candidates, Before), h, f);
    assert h * f == f;
    BeforeIsOrder();
    PickOfSort(candidates, f, Before);
  }

  lemma {:induction false} SameBytesSorted(candidates: seq<Path>, files: Files, bytes: Bytes)
    ensures var c := SameBytes(candidates, files, bytes);
      Sorted(c, Before) && SortBy(c, Before) == c && |c| <= |candidates|
  {
    BeforeIsOrder();
    var picked := Pick(candidates, WithDigest(files, false, Digest(bytes)));
    var c := SameBytes(candidates, files, bytes);
    SortBySorts(picked, Before);
    SortBySorts(c, Before);
    SortedUnique(SortBy(c, Before), c, Before);
    PickLength(candidates, WithDigest(files, false, Digest(bytes)));
  }

  /** A group is one whole class of two or more paths. */
  ghost predicate Sound(g: Group, size: nat, classes: Bytes -> seq<Path>) {
    g.size == size && g.paths == classes(g.digest.of) && |g.paths| >= 2
  }

  ghost predicate Finds(groups: seq<Group>, size: nat, classes: Bytes -> seq<Path>, bytes: Bytes) {
    |classes(bytes)| >= 2 ==> Group(size, Digest(bytes), classes(bytes)) in groups
  }

  /** The groups made so far are exactly the shared digests among those looked at. */
  ghost predicate Emitted(groups: seq<Group>, digests: seq<Digest>, size: nat, classes: Bytes -> seq<Path>) {
    && Distinct(groups)
    && (forall g :: g in groups ==> Sound(g, size, classes) && g.digest in digests)
    && (forall d :: d in digests ==> Finds(groups, size, classes, d.of))
  }

  lemma {:induction false} EmitOne(groups: seq<Group>, digests: seq<Digest>, size: nat, classes: Bytes -> seq<Path>,
                                   d: Digest)
    requires Emitted(groups, digests, size, classes) && d !in digests
    ensures Emitted(if |classes(d.of)| > 1 then groups + [Group(size, d, classes(d.of))] else groups,
                    digests + [d], size, classes)
  {
    assert Digest(d.of) == d;
  }

  lemma {:induction false} SavingIsOrder()
    ensures TotalOrder(MoreSaving)
  {
  }

  class Duplicates {
    var paths: seq<Entry>
    var head: Memo
    var full: Memo

    constructor (head: Memo, full: Memo)
      ensures paths == [] && this.head == head && this.full == full
    {
      this.paths, this.head, this.full := [], head, full;
    }

    ghost predicate Honest(files: Files, stamps: map<Path, int>)
      reads this
    {
      Truthful(head, files, stamps, true) && Truthful(full, files, stamps, false)
    }

    method Add(path: Path, size: nat)
      modifies this`paths
      ensures paths == old(paths) + [Entry(path, size)]
    {
      paths := paths + [Entry(path, size)];
    }

    /** `_digest_of`: the cached digest of this version of the file, or a fresh one. */
    method DigestOf(path: Path, isHead: bool, files: Files, stamps: map<Path, int>)
      returns (d: Option<Digest>)
      requires Honest(files, stamps)
      modifies this`head, this`full
      ensures Honest(files, stamps)
      ensures d == if path in files then Some(Blake(files[path], isHead)) else None
    {
      if path !in files { return None; }
      var token := TokenOf(files, stamps, path);
      var memo := if isHead then head else full;
      if token in memo { return Some(memo[token]); }
      var value := Blake(files[path], isHead);
      if isHead { head := head[token := value]; } else { full := full[token := value]; }
      return Some(value);
    }

    method BySize() returns (b: Buckets<nat, Path>)
      ensures b.Valid() && SplitBySize(b, paths)
    {
      b := Buckets([], map[]);
      for i := 0 to |paths|
        invariant b.Valid() && SplitBySize(b, paths[..i])
      {
        SizeStep(b, paths, i);
        b := b.Add(paths[i].size, paths[i].path);
      }
      assert paths[..|paths|] == paths;
    }

    /** One level of the escalation: split a list of paths by digest. */
    method ByDigest(candidates: seq<Path>, isHead: bool, files: Files, stamps: map<Path, int>)
      returns (b: Buckets<Digest, Path>)
      requires Honest(files, stamps)
      modifies this`head, this`full
      ensures Honest(files, stamps) && b.Valid() && SplitBy(b, candidates, files, isHead)
    {
      b := Buckets([], map[]);
      for i := 0 to |candidates|
        invariant Honest(files, stamps) && b.Valid() && SplitBy(b, candidates[..i], files, isHead)
      {
        var d := DigestOf(candidates[i], isHead, files, stamps);
        SplitStep(b, candidates, i, files, isHead);
        if d.Some? { b := b.Add(d.value, candidates[i]); }
      }
      assert candidates[..|candidates|] == candidates;
    }

    /** The last loop of the escalation: one group for every full digest shared by two paths. */
    method Emit(size: nat, b: Buckets<Digest, Path>, sort: seq<Path> -> seq<Path>, ghost classes: Bytes -> seq<Path>)
      returns (groups: seq<Group>)
      requires b.Valid()
      requires forall d :: d in b.items ==>
        classes(d.of) == b.items[d] && sort(b.items[d]) == b.items[d]
      ensures Emitted(groups, b.keys, size, classes)
    {
      groups := [];
      ghost var emitted := (gs: seq<Group>, ds: seq<Digest>) => Emitted(gs, ds, size, classes);
      for i := 0 to |b.keys|
        invariant emitted(groups, b.keys[..i])
      {
        var d := b.keys[i];
        var identical := b.items[d];
        assert b.keys[..i + 1] == b.keys[..i] + [d];
        EmitOne(groups, b.keys[..i], size, classes, d);
        if |identical| > 1 {
          groups := groups + [Group(size, d, sort(identical))];
        }
      }
      assert b.keys[..|b.keys|] == b.keys;
    }

    /** The innermost dictionary: the groups among paths of one size and one head hash. */
    method GroupsOfHead(size: nat, sameHead: seq<Path>, files: Files, stamps: map<Path, int>,
                        ghost headDigest: Digest, ghost classes: Bytes -> seq<Path>)
      returns (groups: seq<Group>)
      requires Honest(files, stamps)
      requires forall p :: p in sameHead && p in files ==> Blake(files[p], true) == headDigest
      requires forall bytes :: Blake(bytes, true) == headDigest ==>
        classes(bytes) == Pick(sameHead, WithDigest(files, false, Digest(bytes))) &&
        SortBy(classes(bytes), Before) == classes(bytes)
      modifies this`head, this`full
      ensures Honest(files, stamps) && Distinct(groups)
      ensures forall g :: g in groups ==> Sound(g, size, classes) && Blake(g.digest.of, true) == headDigest
      ensures forall bytes :: Blake(bytes, true) == headDigest ==> Finds(groups, size, classes, bytes)
    {
      forall bytes | Blake(bytes, true) == headDigest ensures |classes(bytes)| <= |sameHead| {
        PickLength(sameHead, WithDigest(files, false, Digest(bytes)));
      }
      groups := [];
      if |sameHead| < 2 { return; }
      var b := ByDigest(sameHead, false, files, stamps);
      forall d | d in b.items ensures Blake(d.of, true) == headDigest {
        assert b.items[d][0] in WithDigest(files, false, d);
      }
      groups := Emit(size, b, paths => SortBy(paths, Before), classes);
      forall bytes | Blake(bytes, true) == headDigest ensures Finds(groups, size, classes, bytes) {
        if |classes(bytes)| >= 2 {
          assert Digest(bytes) in b.keys;
          assert Finds(groups, size, classes, Digest(bytes).of);
        }
      }
    }

    method GroupsOfSize(size: nat, candidates: seq<Path>, files: Files, stamps: map<Path, int>,
                        ghost classes: Bytes -> seq<Path>)
      returns (groups: seq<Group>)
      requires Honest(files, stamps)
      requires forall bytes :: classes(bytes) == SameBytes(candidates, files, bytes)
      modifies this`head, this`full
      ensures Honest(files, stamps) && Distinct(groups)
      ensures forall g :: g in groups ==> Sound(g, size, classes)
      ensures forall bytes :: Finds(groups, size, classes, bytes)
    {
      forall bytes ensures |classes(bytes)| <= |candidates| { SameBytesSorted(candidates, files, bytes); }
      if |candidates| < 2 { return []; }
      HeadClasses(candidates, files, classes);
      groups := Escalate(size, SortBy(candidates, Before), files, stamps, classes);
    }

    /** The middle dictionary: one head hash after another. */
    method Escalate(size: nat, sorted: seq<Path>, files: Files, stamps: map<Path, int>,
                    ghost classes: Bytes -> seq<Path>)
      returns (groups: seq<Group>)
      requires Honest(files, stamps)
      requires forall bytes :: Escalates(sorted, files, bytes, classes)
      modifies this`head, this`full
      ensures Honest(files, stamps) && Distinct(groups)
      ensures forall g :: g in groups ==> Sound(g, size, classes)
      ensures forall bytes :: Finds(groups, size, classes, bytes)
    {
      groups := [];
      var b := ByDigest(sorted, true, files, stamps);
      for i := 0 to |b.keys|
        invariant Honest(files, stamps) && Distinct(groups)
        invariant forall g :: g in groups ==> Sound(g, size, classes) && Blake(g.digest.of, true) in b.keys[..i]
        invariant forall bytes :: Blake(bytes, true) in b.keys[..i] ==> Finds(groups, size, classes, bytes)
      {
        var h := b.keys[i];
        forall bytes | Blake(bytes, true) == h
          ensures classes(bytes) == Pick(b.items[h], WithDigest(files, false, Digest(bytes)))
          ensures SortBy(classes(bytes), Before) == classes(bytes)
        {
          assert Escalates(sorted, files, bytes, classes);
        }
        var more := GroupsOfHead(size, b.items[h], files, stamps, h, classes);
        groups := groups + more;
      }
      forall bytes ensures Finds(groups, size, classes, bytes) {
        assert Escalates(sorted, files, bytes, classes);
        if |classes(bytes)| >= 2 {
          assert Blake(bytes, true) in b.items;
          assert Blake(bytes, true) in b.keys[..|b.keys|];
        }
      }
    }

    /** The loop of `groups` over sizes, largest first, and the final sort by saving. */
    method Collect(b: Buckets<nat, Path>, files: Files, stamps: map<Path, int>,
                   ghost classes: nat -> Bytes -> seq<Path>)
      returns (groups: seq<Group>)
      requires Honest(files, stamps) && b.Valid()
      requires forall n: nat, bytes: Bytes ::
        classes(n)(bytes) == (if n in b.items then SameBytes(b.items[n], files, bytes) else [])
      modifies this`head, this`full
      ensures Honest(files, stamps) && Distinct(groups) && Sorted(groups, MoreSaving)
      ensures forall g :: g in groups ==> Sound(g, g.size, classes(g.size))
      ensures forall n: nat, bytes :: Finds(groups, n, classes(n), bytes)
    {
      var sizes := SortBy(b.keys, (m: nat, n: nat) => m >= n);
      SameMembers(sizes, b.keys);
      DistinctPermutes(b.keys, sizes);
      var out: seq<Group> := [];
      for i := 0 to |sizes|
        invariant Honest(files, stamps) && Distinct(out)
        invariant forall g :: g in out ==> Sound(g, g.size, classes(g.size)) && g.size in sizes[..i]
        invariant forall n: nat, bytes :: n in sizes[..i] ==> Finds(out, n, classes(n), bytes)
      {
        var n := sizes[i];
        var more := GroupsOfSize(n, b.items[n], files, stamps, classes(n));
        assert n !in sizes[..i];
        DistinctConcat(out, more);
        forall m: nat, bytes | m in sizes[..i + 1] ensures Finds(out + more, m, classes(m), bytes) {
          if m in sizes[..i] {
            assert Finds(out, m, classes(m), bytes);
          } else {
            assert Finds(more, m, classes(m), bytes);
          }
        }
        out := out + more;
      }
      assert sizes[..|sizes|] == sizes;
      groups := SortBy(out, MoreSaving);
      SavingIsOrder();
      SortBySorts(out, MoreSaving);
      SameMembers(groups, out);
      DistinctPermutes(out, groups);
      forall n: nat, bytes ensures Finds(groups, n, classes(n), bytes) {
        if n in b.items {
          assert n in sizes;
          assert Finds(out, n, classes(n), bytes);
        }
      }
    }

    /** `groups`: every class of two or more added paths, once, largest saving first. */
    method Groups(files: Files, stamps: map<Path, int>) returns (groups: seq<Group>)
      requires Honest(files, stamps)
      modifies this`head, this`full
      ensures Honest(files, stamps)
      ensures IsAnswer(groups, files, paths) && Sorted(groups, MoreSaving)
    {
      var b := BySize();
      ghost var entries := paths;
      ghost var classes := (n: nat) => (bytes: Bytes) => ClassOf(files, entries, n, bytes);
      forall n: nat, bytes: Bytes
        ensures classes(n)(bytes) == (if n in b.items then SameBytes(b.items[n], files, bytes) else [])
      {
        assert n !in b.items ==> PathsOfSize(paths, n) == [];
      }
      groups := Collect(b, files, stamps, classes);
      forall n: nat, bytes | |ClassOf(files, paths, n, bytes)| >= 2
        ensures Group(n, Digest(bytes), ClassOf(files, paths, n, bytes)) in groups
      {
        assert Finds(groups, n, classes(n), bytes);
      }
    }
  }

  /** One class, found by the head split and then the full split of a sorted list. */
  ghost predicate Escalates(sorted: seq<Path>, files: Files, bytes: Bytes, classes: Bytes -> seq<Path>) {
    && classes(bytes) == Pick(Pick(sorted, WithDigest(files, true, Blake(bytes, true))),
                              WithDigest(files, false, Digest(bytes)))
    && SortBy(classes(bytes), Before) == classes(bytes)
  }

  /** What the head split hands down: whole classes, already sorted. */
  lemma {:induction false} HeadClasses(candidates: seq<Path>, files: Files, classes: Bytes -> seq<Path>)
    requires forall bytes :: classes(bytes) == SameBytes(candidates, files, bytes)
    ensures forall bytes :: Escalates(SortBy(candidates, Before), files, bytes, classes)
  {
    forall bytes ensures Escalates(SortBy(candidates, Before), files, bytes, classes) {
      EscalationIsExact(candidates, files, bytes);
      SameBytesSorted(candidates, files, bytes);
    }
  }

  // ---- what the answer means ----

  /** The contract of `groups`. */
  ghost predicate IsAnswer(groups: seq<Group>, files: Files, entries: seq<Entry>) {
    && Distinct(groups)
    && (forall g :: g in groups ==> g.paths == ClassOf(files, entries, g.size, g.digest.of) && |g.paths| >= 2)
    && (forall n: nat, bytes :: |ClassOf(files, entries, n, bytes)| >= 2 ==>
        Group(n, Digest(bytes), ClassOf(files, entries, n, bytes)) in groups)
  }

  /** The answer is forced: whatever truthful cache was used, the same groups come out. */
  lemma {:induction false} CacheDoesNotMatter(a: seq<Group>, b: seq<Group>, files: Files, entries: seq<Entry>)
    requires IsAnswer(a, files, entries) && IsAnswer(b, files, entries)
    ensures multiset(a) == multiset(b)
  {
    forall g ensures multiset(a)[g] == multiset(b)[g] {
      if g in a { InOther(a, b, files, entries, g); }
      if g in b { InOther(b, a, files, entries, g); }
      DistinctCounts(a);
      DistinctCounts(b);
      assert g in multiset(a) <==> g in a;
      assert g in multiset(b) <==> g in b;
    }
  }

  lemma {:induction false} InOther(a: seq<Group>, b: seq<Group>, files: Files, entries: seq<Entry>, g: Group)
    requires IsAnswer(a, files, entries) && IsAnswer(b, files, entries) && g in a
    ensures g in b
  {
    assert g.paths == ClassOf(files, entries, g.size, g.digest.of);
    assert Digest(g.digest.of) == g.digest;
    assert Group(g.size, g.digest, g.paths) == g;
  }

  lemma {:induction false} AddedHasSize(entries: seq<Entry>, path: Path, size: nat)
    requires Entry(path, size) in entries
    ensures path in PathsOfSize(entries, size)
  {
    var n := |entries| - 1;
    if entries[n] != Entry(path, size) { AddedHasSize(entries[..n], path, size); }
  }

  lemma {:induction false} ClassMembers(files: Files, entries: seq<Entry>, size: nat, bytes: Bytes, path: Path)
    ensures path in ClassOf(files, entries, size, bytes) <==>
            path in PathsOfSize(entries, size) && path in files && files[path] == bytes
  {
    var picked := Pick(PathsOfSize(entries, size), WithDigest(files, false, Digest(bytes)));
    SameMembers(SortBy(picked, Before), picked);
    assert path in WithDigest(files, false, Digest(bytes)) <==> path in files && files[path] == bytes;
  }

  lemma {:induction false} EqualAreGrouped(groups: seq<Group>, files: Files, entries: seq<Entry>, p: Path, q: Path)
    requires IsAnswer(groups, files, entries) && p != q && p in files && q in files && files[p] == files[q]
    requires Entry(p, |files[p]|) in entries && Entry(q, |files[p]|) in entries
    ensures exists g :: g in groups && p in g.paths && q in g.paths
  {
    var n, bytes := |files[p]|, files[p];
    AddedHasSize(entries, p, n);
    AddedHasSize(entries, q, n);
    ClassMembers(files, entries, n, bytes, p);
    ClassMembers(files, entries, n, bytes, q);
    var class_ := ClassOf(files, entries, n, bytes);
    assert p in class_ && q in class_;
    assert Group(n, Digest(bytes), class_) in groups;
  }

  /** Two added files are in one group exactly when they hold the same bytes. */
  lemma {:induction false} GroupedIffEqual(groups: seq<Group>, files: Files, entries: seq<Entry>, p: Path, q: Path)
    requires IsAnswer(groups, files, entries) && p != q && p in files && q in files
    requires Entry(p, |files[p]|) in entries && Entry(q, |files[q]|) in entries
    ensures (exists g :: g in groups && p in g.paths && q in g.paths) <==> files[p] == files[q]
  {
    if g :| g in groups && p in g.paths && q in g.paths {
      ClassMembers(files, entries, g.size, g.digest.of, p);
      ClassMembers(files, entries, g.size, g.digest.of, q);
    } else if files[p] == files[q] {
      EqualAreGrouped(groups, files, entries, p, q);
    }
  }
}
