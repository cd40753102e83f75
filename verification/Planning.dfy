/** What one merge decides, as functions of the disk: scan, overlap, plan, staged candidates. */
module Planning {
  import opened Basics
  import opened Paths
  import opened Names
  import opened Fsx
  import opened Ledger
  import D = Duplicates

  // ---- one run's arguments ----

  /** Name folding and sanitising, both left abstract. */
  datatype Naming = Naming(key: Key, sanitise: Component -> Component)

  datatype Config = Config(
    run: RunId, medium: string, srcs: seq<Path>, dest: Path,
    library: Option<Path>, subtree: Component, naming: Naming, apply: bool)
  {
    /** `layout_root`. */
    function LayoutRoot(): Path {
      if library == Some(dest) then dest else dest + [subtree]
    }

    /** `library_root`: the medium's library, unless the run already points at it. */
    function LibraryRoot(): Option<Path> {
      if library == Some(dest) then None else library
    }
  }

  /** What os.walk and its filters list below each root. */
  type Walks = map<Path, seq<Path>>

  function Walk(walks: Walks, root: Path): seq<Path> {
    if root in walks then walks[root] else []
  }

  // ---- scan ----

  datatype Found = Found(path: Path, size: nat, rel: Path)

  /** One source's files; a path that cannot be stated is skipped. */
  function FoundUnder(files: Files, root: Path, listed: seq<Path>): (r: seq<Found>)
    ensures forall f :: f in r ==> Under(root, f.path) && f.path in files && f.path in listed
    ensures forall f :: f in r ==>
      |root| < |f.path| && f.size == |files[f.path]| && f.rel == f.path[|root|..] != []
  {
    if listed == [] then [] else
      var p := listed[|listed| - 1];
      FoundUnder(files, root, listed[..|listed| - 1]) +
        if p in files && Under(root, p) then [Found(p, |files[p]|, p[|root|..])] else []
  }

  function Scan(files: Files, walks: Walks, srcs: seq<Path>): (r: seq<Found>)
    ensures forall f :: f in r ==> f.path in files && f.size == |files[f.path]| && f.rel != [] && f.path != []
    ensures forall f :: f in r ==> exists s :: s in srcs && Under(s, f.path) && f.rel == f.path[|s|..]
  {
    if srcs == [] then [] else
      var last := srcs[|srcs| - 1];
      Scan(files, walks, srcs[..|srcs| - 1]) + FoundUnder(files, last, Walk(walks, last))
  }

  // ---- overlap ----

  datatype Scope = OnDest | InLibrary

  datatype Seen = Seen(found: Found, scopes: set<Scope>, peers: seq<Path>, survivor: Path)

  function PathsOf(found: seq<Found>): (r: seq<Path>)
    ensures |r| == |found| && forall i :: 0 <= i < |found| ==> r[i] == found[i].path
  {
    if found == [] then [] else PathsOf(found[..|found| - 1]) + [found[|found| - 1].path]
  }

  /** The files the destination and the library already hold, each with its label. */
  function DestFiles(files: Files, c: Config, walks: Walks): seq<Path> {
    PathsOf(FoundUnder(files, c.LayoutRoot(), Walk(walks, c.LayoutRoot())))
  }

  function LibraryFiles(files: Files, c: Config, walks: Walks): seq<Path> {
    match c.LibraryRoot()
    case None => []
    case Some(root) => PathsOf(FoundUnder(files, root, Walk(walks, root)))
  }

  /** A path listed under both roots keeps the later label. */
  function ScopeOf(files: Files, c: Config, walks: Walks): map<Path, Scope> {
    map p | p in DestFiles(files, c, walks) + LibraryFiles(files, c, walks)
      :: if p in LibraryFiles(files, c, walks) then InLibrary else OnDest
  }

  /** Everything the duplicate index is given, in the order it is given. */
  function Indexed(files: Files, c: Config, walks: Walks): seq<Path> {
    PathsOf(Scan(files, walks, c.srcs)) + (DestFiles(files, c, walks) + LibraryFiles(files, c, walks))
  }

  /** The group the index answers for a path: all its copies in path order, or itself alone. */
  function GroupFor(files: Files, index: seq<Path>, path: Path): (g: seq<Path>)
    ensures g != []
  {
    if path !in files then [path]
    else
      var same := D.SameBytes(index, files, files[path]);
      if |same| >= 2 then same else [path]
  }

  function See(files: Files, index: seq<Path>, scopes: map<Path, Scope>, sources: set<Path>, f: Found): Seen {
    var group := GroupFor(files, index, f.path);
    var others := set q | q in group && q != f.path;
    Seen(f, set q | q in others && q in scopes :: scopes[q], Pick(group, others * sources), group[0])
  }

  /** `overlap`, row by row. */
  function Overlap(files: Files, index: seq<Path>, scopes: map<Path, Scope>, sources: set<Path>, found: seq<Found>)
    : (r: seq<Seen>)
    ensures |r| == |found|
    ensures forall i :: 0 <= i < |found| ==> r[i] == See(files, index, scopes, sources, found[i])
  {
    if found == [] then [] else
      var last := found[|found| - 1];
      Overlap(files, index, scopes, sources, found[..|found| - 1]) + [See(files, index, scopes, sources, last)]
  }

  // ---- plan ----

  datatype Action = AlreadyOnDest | AlreadyInLibrary | DuplicateOf(peer: Option<Path>) | CopyTo(dst: Path)

  datatype PlanRow = PlanRow(seen: Seen, action: Action, sha: Option<Digest>) {
    function Path(): Path { seen.found.path }

    function Size(): nat { seen.found.size }
  }

  predicate SeenBefore(a: Seen, b: Seen) { Before(a.found.path, b.found.path) }

  function TargetDir(c: Config, f: Found): Path
    requires f.rel != []
  {
    c.LayoutRoot() + Parent(f.rel)
  }

  /** `_claimed_names`, plus what this run already claimed in that directory. */
  function ClaimedOnDisk(c: Config, files: Files, dir: Path): set<string> {
    set leaf | leaf in ListDir(files.Keys, dir) && !IsStaging(leaf) :: c.naming.key(leaf)
  }

  function ClaimedByRun(c: Config, rows: seq<PlanRow>, dir: Path): set<string> {
    set i | 0 <= i < |rows| && rows[i].action.CopyTo? && rows[i].action.dst != [] && Parent(rows[i].action.dst) == dir
      :: c.naming.key(Leaf(rows[i].action.dst))
  }

  function Decide(c: Config, files: Files, rows: seq<PlanRow>, s: Seen): Option<PlanRow>
    requires s.found.rel != [] && s.found.path != []
  {
    if OnDest in s.scopes then Some(PlanRow(s, AlreadyOnDest, None))
    else if InLibrary in s.scopes then Some(PlanRow(s, AlreadyInLibrary, None))
    else if s.survivor != s.found.path then
      var peers := SortBy(s.peers, Before);
      Some(PlanRow(s, DuplicateOf(if peers == [] then None else Some(peers[0])), None))
    else
      var dir := TargetDir(c, s.found);
      var claimed := ClaimedOnDisk(c, files, dir) + ClaimedByRun(c, rows, dir);
      match UniqueName(claimed, c.naming.key, c.naming.sanitise(Leaf(s.found.path)))
      case None => None
      case Some(name) => Some(PlanRow(s, CopyTo(dir + [name]), None))
  }

  /** `plan` over rows in path order; None when a directory has no free name left. */
  function PlanRows(c: Config, files: Files, seen: seq<Seen>): (r: Option<seq<PlanRow>>)
    requires forall s :: s in seen ==> s.found.rel != [] && s.found.path != []
    ensures r.Some? ==> |r.value| == |seen|
    ensures r.Some? ==> forall i :: 0 <= i < |seen| ==> r.value[i].seen == seen[i] && r.value[i].sha.None?
  {
    if seen == [] then Some([])
    else
      match PlanRows(c, files, seen[..|seen| - 1])
      case None => None
      case Some(rows) =>
        match Decide(c, files, rows, seen[|seen| - 1])
        case None => None
        case Some(row) => Some(rows + [row])
  }

  function SourcesOf(found: seq<Found>): set<Path> { set f | f in found :: f.path }

  /** The rows `overlap` hands to `plan`. */
  function SeenRows(c: Config, walks: Walks, files: Files): (r: seq<Seen>)
    ensures |r| == |Scan(files, walks, c.srcs)|
    ensures forall i :: 0 <= i < |r| ==> r[i].found == Scan(files, walks, c.srcs)[i]
  {
    var found := Scan(files, walks, c.srcs);
    Overlap(files, Indexed(files, c, walks), ScopeOf(files, c, walks), SourcesOf(found), found)
  }

  /** sorted(found, key=path). */
  function InPathOrder(seen: seq<Seen>): (r: seq<Seen>)
    ensures multiset(r) == multiset(seen)
    ensures forall s :: s in r <==> s in seen
  {
    SameMembers(SortBy(seen, SeenBefore), seen);
    SortBy(seen, SeenBefore)
  }

  /** The rows one merge plans on this disk. */
  function MergePlan(c: Config, walks: Walks, files: Files): Option<seq<PlanRow>> {
    PlanRows(c, files, InPathOrder(SeenRows(c, walks, files)))
  }

  // ---- staged candidates ----

  datatype Candidate = Candidate(path: Path, bytes: nat, sha: Option<Digest>, survivor: Path, why: Action)

  function CandidateOf(placed: map<Path, Path>, row: PlanRow): Candidate {
    Candidate(row.Path(), row.Size(), row.sha, Proof(placed, row.seen.survivor), row.action)
  }

  /** Where this run puts each copied source. */
  function Placed(rows: seq<PlanRow>): map<Path, Path> {
    if rows == [] then map[]
    else
      var row := rows[|rows| - 1];
      var before := Placed(rows[..|rows| - 1]);
      if row.action.CopyTo? then before[row.Path() := row.action.dst] else before
  }

  function Proof(placed: map<Path, Path>, survivor: Path): Path {
    if survivor in placed then placed[survivor] else survivor
  }

  /** `stage_deletes`: every row that is not a copy, with the path that proves its bytes survive. */
  function Candidates(placed: map<Path, Path>, rows: seq<PlanRow>): (r: seq<Candidate>)
    ensures forall k :: k in r ==>
      exists i :: 0 <= i < |rows| && !rows[i].action.CopyTo? && k == CandidateOf(placed, rows[i])
  {
    if rows == [] then []
    else
      var row := rows[|rows| - 1];
      Candidates(placed, rows[..|rows| - 1]) +
        if row.action.CopyTo? then []
        else [CandidateOf(placed, row)]
  }
}
