/** The state a history moves through, and one merge or purge as a function of it. */
module Worlds {
  import opened Basics
  import opened Paths
  import opened Fsx
  import opened Ledger
  import opened Planning

  /** Disk, commit table, staged-deletes files and registered runs of one destination. */
  datatype World = World(files: Files, rows: Rows, stages: map<RunId, seq<Candidate>>, runs: map<RunId, string>)

  // ---- apply_plan ----

  /** Disk and table while a plan is carried out; `plan` is the rows with their hashes filled in. */
  datatype Progress = Progress(files: Files, rows: Rows, plan: seq<PlanRow>)

  const CLEAN_IO := Io(Completes, [], [], true, true, true)

  function IoAt(ios: map<Path, Io>, dst: Path): Io {
    if dst in ios then ios[dst] else CLEAN_IO
  }

  function Replaces(files: Files, src: Path, dst: Path, io: Io): bool
    requires dst != []
  {
    Lands(files, src, dst, true, None, io)
  }

  /** The disk after one verifying copy: the staging name is free again, whatever it held, unless the call stopped
      before it came to that. */
  function Written(files: Files, src: Path, dst: Path, io: Io): Files
    requires dst != []
  {
    if Replaces(files, src, dst, io) then (files - {Staging(dst)})[dst := files[src]]
    else if io.fate == Raises(Directories) then files
    else files - {Staging(dst)}
  }

  /** One row of `apply_plan`. A destination the run already recorded is skipped. */
  function ApplyRow(run: RunId, done: set<Path>, ios: map<Path, Io>, p: Progress, row: PlanRow): Progress {
    match row.action
    case CopyTo(dst) =>
      if dst == [] || dst in done then p.(plan := p.plan + [row])
      else
        var io := IoAt(ios, dst);
        var files := Written(p.files, row.Path(), dst, io);
        if Succeeds(p.files, row.Path(), dst, true, None, io) then
          var sha := Sha256(files[dst]);
          Progress(files, p.rows + [CopyRow(run, dst, sha, |files[dst]|, "apply:copy")],
                   p.plan + [row.(sha := Some(sha))])
        else Progress(files, p.rows, p.plan + [row])
    case AlreadyOnDest =>
      if row.sha.Some? then
        p.(rows := p.rows + [CopyRow(run, row.seen.survivor, row.sha.value, row.Size(), "observed:already-on-dest")],
           plan := p.plan + [row])
      else p.(plan := p.plan + [row])
    case _ => p.(plan := p.plan + [row])
  }

  function ApplyRows(run: RunId, done: set<Path>, ios: map<Path, Io>, start: Progress, rows: seq<PlanRow>): Progress {
    if rows == [] then start
    else ApplyRow(run, done, ios, ApplyRows(run, done, ios, start, rows[..|rows| - 1]), rows[|rows| - 1])
  }

  // ---- authorise_staged ----

  predicate Proves(files: Files, k: Candidate) {
    k.path in files && k.survivor in files && Sha256(files[k.path]) == Sha256(files[k.survivor])
  }

  /** The two rows a proven candidate leaves: the survivor observed, the delete requested. */
  function ProofRows(run: RunId, files: Files, k: Candidate): Rows {
    if Proves(files, k) then
      [CopyRow(run, k.survivor, Sha256(files[k.survivor]), |files[k.survivor]|, "observed:survivor"),
       DeleteRow(run, k.path, Sha256(files[k.path]), if k.bytes != 0 then k.bytes else |files[k.path]|, "plan:staged")]
    else []
  }

  function AuthoriseRows(run: RunId, files: Files, ks: seq<Candidate>): Rows {
    if ks == [] then []
    else AuthoriseRows(run, files, ks[..|ks| - 1]) + ProofRows(run, files, ks[|ks| - 1])
  }

  function WithHash(files: Files, k: Candidate): Candidate {
    if Proves(files, k) then k.(sha := Some(Sha256(files[k.path]))) else k
  }

  function HashCandidates(files: Files, ks: seq<Candidate>): (r: seq<Candidate>)
    ensures |r| == |ks| && forall i :: 0 <= i < |ks| ==> r[i] == WithHash(files, ks[i])
  {
    if ks == [] then [] else HashCandidates(files, ks[..|ks| - 1]) + [WithHash(files, ks[|ks| - 1])]
  }

  // ---- one merge ----

  /** A merge invocation: its arguments, what the machine does, and how far it gets.
      `copies` and `proofs` bound the rows reached before the run ends early, and `halfProof` says
      whether it ends between the two rows of a candidate. */
  datatype MergeCall = MergeCall(
    config: Config, walks: Walks, ios: map<Path, Io>, enoughSpace: bool, copies: nat, proofs: nat, halfProof: bool)

  function Register(w: World, run: RunId, medium: string): World {
    if run in w.runs then w else w.(runs := w.runs[run := medium])
  }

  function Carry(w: World, m: MergeCall, plan: seq<PlanRow>): Progress {
    var c := m.config;
    ApplyRows(c.run, CompletedPaths(w.rows, c.run), m.ios, Progress(w.files, w.rows, []),
              plan[..Min(m.copies, |plan|)])
  }

  /** The row of a candidate whose observation is recorded and whose request is not. */
  function HalfRows(run: RunId, files: Files, staged: seq<Candidate>, n: nat, half: bool): Rows {
    if half && n < |staged| && Proves(files, staged[n]) then [ProofRows(run, files, staged[n])[0]] else []
  }

  /** After the copies: authorise the staged candidates, and rewrite them if that finishes. */
  function Authorise(w: World, m: MergeCall, staged: seq<Candidate>): World {
    var run := m.config.run;
    var n := Min(m.proofs, |staged|);
    w.(rows := w.rows + AuthoriseRows(run, w.files, staged[..n]) + HalfRows(run, w.files, staged, n, m.halfProof),
       stages := if m.proofs < |staged| then w.stages else w.stages[run := HashCandidates(w.files, staged)])
  }

  /** Everything after the plan: stage, then copy and authorise as far as the call gets. */
  function AfterPlan(w: World, m: MergeCall, plan: seq<PlanRow>): World {
    var c := m.config;
    var staged := Candidates(Placed(plan), plan);
    var w1 := w.(stages := w.stages[c.run := staged]);
    if !c.apply || !m.enoughSpace then w1
    else
      var p := Carry(w1, m, plan);
      var w2 := w1.(files := p.files, rows := p.rows);
      if m.copies < |plan| then w2 else Authorise(w2, m, staged)
  }

  /** `start_run` and `execute` as one step. */
  function Merge(w: World, m: MergeCall): World {
    var c := m.config;
    match MergePlan(c, m.walks, w.files)
    case None => Register(w, c.run, c.medium)
    case Some(plan) => AfterPlan(Register(w, c.run, c.medium), m, plan)
  }

  // ---- one purge ----

  /** A purge invocation. `removals` bounds the files reached before it ends early, and `halfRemoval` says
      whether it ends between a removal and the row that records it. */
  datatype PurgeCall = PurgeCall(run: RunId, medium: string, confirmed: bool, removals: nat, halfRemoval: bool)

  /** The staged list is a claim: a candidate is allowed only if disk and table agree with it now. */
  predicate Allowed(w: World, run: RunId, k: Candidate) {
    k.path in w.files &&
    var sha := if k.sha.Some? then k.sha.value else Sha256(w.files[k.path]);
    var survivor := FindCopy(w.rows, sha);
    && survivor.Some? && survivor.value in w.files
    && Sha256(w.files[survivor.value]) == sha
    && AuthorisedDelete(w.rows, true, run, k.path).Some?
  }

  function AllowedPaths(w: World, run: RunId, ks: seq<Candidate>): seq<Path> {
    if ks == [] then []
    else AllowedPaths(w, run, ks[..|ks| - 1]) + if Allowed(w, run, ks[|ks| - 1]) then [ks[|ks| - 1].path] else []
  }

  /** `fsx.remove` refuses unless the row is authorised and names exactly the bytes there now. */
  predicate Removable(files: Files, rows: Rows, run: RunId, path: Path) {
    path in files &&
    var id := AuthorisedDelete(rows, true, run, path);
    id.Some? && rows[id.value].srcSha == Some(Sha256(files[path]))
  }

  function RemoveOne(w: World, run: RunId, path: Path): World {
    if Removable(w.files, w.rows, run, path) then
      var id := AuthorisedDelete(w.rows, true, run, path).value;
      w.(files := w.files - {path}, rows := w.rows[id := w.rows[id].(status := Done)])
    else w
  }

  function RemoveAll(w: World, run: RunId, paths: seq<Path>): World {
    if paths == [] then w
    else RemoveOne(RemoveAll(w, run, paths[..|paths| - 1]), run, paths[|paths| - 1])
  }

  /** A file is gone and its row still says pending. */
  function RemoveUnmarked(w: World, run: RunId, path: Path): World {
    if Removable(w.files, w.rows, run, path) then w.(files := w.files - {path}) else w
  }

  /** The removals of a purge that gets to n of the allowed paths. */
  function RemoveSome(w: World, run: RunId, allowed: seq<Path>, n: nat, half: bool): World
    requires n <= |allowed|
  {
    var done := RemoveAll(w, run, allowed[..n]);
    if half && n < |allowed| then RemoveUnmarked(done, run, allowed[n]) else done
  }

  /** `cmd_purge` as one step: refused for an unknown run, and inert unless confirmed. */
  function Purge(w: World, p: PurgeCall): World {
    if p.run !in w.runs || w.runs[p.run] != p.medium || p.run !in w.stages then w
    else
      var allowed := AllowedPaths(w, p.run, w.stages[p.run]);
      if !p.confirmed then w else RemoveSome(w, p.run, allowed, Min(p.removals, |allowed|), p.halfRemoval)
  }
}
