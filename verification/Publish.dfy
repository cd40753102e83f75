/** The audiobook fetch job: resumable transfers into .part files, published by rename under a writer lock. */
module Publish {
  import opened Basics

  const MAX_TRIES := 6

  function Part(dest: string): string { dest + ".part" }

  /** Expected size of every catalog destination; 0 stands for a size the catalog does not give. */
  type Catalog = map<string, nat>

  /** No destination is another one's partial file. */
  ghost predicate Apart(w: Catalog) {
    forall d :: d in w ==> Part(d) !in w
  }

  ghost predicate Sizes(w: Catalog) {
    forall d :: d in w ==> w[d] > 0
  }

  datatype Outcome = OK | SKIP | STOP | FAIL

  /** Where one `_one` call stands inside `fetch`. */
  datatype Phase =
    | Pending
    | Attempt(tries: nat)
    | Looked(tries: nat, have: nat)
    | Transferring(tries: nat, inode: nat)
    | Landed(tries: nat)
    | Sized(tries: nat, got: nat)
    | Finished(outcome: Outcome)
    | Cancelled
    | Raised

  datatype Result = Done | Partial | Failed | Stopped | Crashed

  /** A selected entry: its destination, and the size the catalog gives for it. */
  datatype Pick = Pick(dest: string, want: nat)

  datatype Job = Job(picks: seq<Pick>, tasks: seq<Phase>, stop: bool, result: Option<Result>) {
    predicate Running() { result == None }
  }

  /** Names lead to inodes, as on disk: a rename moves the name, an open transfer keeps the inode. */
  datatype State = State(files: map<string, nat>, sizes: seq<nat>, holder: Option<nat>, jobs: map<nat, Job>) {
    function SizeOf(name: string): nat {
      if name in files && files[name] < |sizes| then sizes[files[name]] else 0
    }

    predicate Task(j: nat, i: nat) {
      j in jobs && jobs[j].Running() && i < |jobs[j].tasks| && i < |jobs[j].picks|
    }

    function Dest(j: nat, i: nat): string
      requires Task(j, i)
    {
      jobs[j].picks[i].dest
    }

    function Want(j: nat, i: nat): nat
      requires Task(j, i)
    {
      jobs[j].picks[i].want
    }
  }

  datatype Event =
    | Start(job: nat, picks: seq<Pick>)
    | Begin(job: nat, task: nat)
    | Look(job: nat, task: nat)
    | Url(job: nat, task: nat, ok: bool)
    | Append(job: nat, task: nat, bytes: nat)
    | Restart(job: nat, task: nat)
    | End(job: nat, task: nat, ok: bool)
    | Measure(job: nat, task: nat)
    | Settle(job: nat, task: nat)
    | Fault(job: nat, task: nat)
    | Cancel(job: nat, task: nat)
    | Stop(job: nat)
    | Finish(job: nat)
    | Kill(job: nat)

  function Goto(s: State, j: nat, i: nat, p: Phase): State
    requires s.Task(j, i)
  {
    s.(jobs := s.jobs[j := s.jobs[j].(tasks := s.jobs[j].tasks[i := p])])
  }

  /** The next attempt, or the end of the retry loop. */
  function Again(tries: nat): Phase {
    if tries + 1 < MAX_TRIES then Attempt(tries + 1) else Finished(FAIL)
  }

  predicate Terminal(p: Phase) { p.Finished? || p.Cancelled? || p.Raised? }

  /** The end of `run`: what the job says about itself. */
  function Verdict(job: Job): Result {
    if Raised in job.tasks then Crashed
    else if job.stop then Stopped
    else if Finished(FAIL) !in job.tasks then Done
    else if Finished(OK) in job.tasks || Finished(SKIP) in job.tasks then Partial
    else Failed
  }

  // ---- one step of one task ----

  /** The existing file is skipped when it has the expected size; anything else is fetched. */
  function BeginTask(s: State, j: nat, i: nat): State
    requires s.Task(j, i)
  {
    var d := s.Dest(j, i);
    Goto(s, j, i, if d in s.files && s.SizeOf(d) == s.Want(j, i) then Finished(SKIP) else Attempt(0))
  }

  /** The top of an attempt: the stop flag, and a partial file longer than the whole is removed. */
  function LookTask(s: State, j: nat, i: nat, k: nat): State
    requires s.Task(j, i)
  {
    var d := s.Dest(j, i);
    var have := s.SizeOf(Part(d));
    if s.jobs[j].stop then Goto(s, j, i, Finished(STOP))
    else if s.Want(j, i) > 0 && have > s.Want(j, i) then Goto(s.(files := s.files - {Part(d)}), j, i, Looked(k, 0))
    else Goto(s, j, i, Looked(k, have))
  }

  /** A transfer into a new partial file, replacing the name of any old one: curl's fresh start. */
  function FreshTask(s: State, j: nat, i: nat, k: nat): State
    requires s.Task(j, i)
  {
    var d := s.Dest(j, i);
    Goto(s.(files := s.files[Part(d) := |s.sizes|], sizes := s.sizes + [0]), j, i, Transferring(k, |s.sizes|))
  }

  /** A download address, then the transfer, unless the partial file is already whole. */
  function UrlTask(s: State, j: nat, i: nat, k: nat, have: nat, ok: bool): State
    requires s.Task(j, i)
  {
    var d := s.Dest(j, i);
    if !ok then Goto(s, j, i, Again(k))
    else if s.Want(j, i) > 0 && have >= s.Want(j, i) then Goto(s, j, i, Landed(k))
    else if Part(d) in s.files then Goto(s, j, i, Transferring(k, s.files[Part(d)]))
    else FreshTask(s, j, i, k)
  }

  function MeasureTask(s: State, j: nat, i: nat, k: nat): State
    requires s.Task(j, i)
  {
    var d := s.Dest(j, i);
    Goto(s, j, i, if Part(d) in s.files then Sized(k, s.SizeOf(Part(d))) else Again(k))
  }

  /** The size test and the rename that publishes. */
  function SettleTask(s: State, j: nat, i: nat, k: nat, got: nat): State
    requires s.Task(j, i)
  {
    var d := s.Dest(j, i);
    if s.Want(j, i) > 0 && got != s.Want(j, i) then Goto(s, j, i, Again(k))
    else if Part(d) !in s.files then Goto(s, j, i, Raised)
    else Goto(s.(files := s.files[d := s.files[Part(d)]] - {Part(d)}), j, i, Finished(OK))
  }

  function TaskStep(s: State, j: nat, i: nat, e: Event): State
    requires s.Task(j, i)
  {
    var p := s.jobs[j].tasks[i];
    match e
    case Begin(_, _) => if p.Pending? then BeginTask(s, j, i) else s
    case Look(_, _) => if p.Attempt? then LookTask(s, j, i, p.tries) else s
    case Url(_, _, ok) => if p.Looked? then UrlTask(s, j, i, p.tries, p.have, ok) else s
    case Append(_, _, n) =>
      if p.Transferring? && p.inode < |s.sizes|
      then s.(sizes := s.sizes[p.inode := s.sizes[p.inode] + n])
      else s
    case Restart(_, _) => if p.Transferring? then FreshTask(s, j, i, p.tries) else s
    case End(_, _, ok) =>
      if p.Transferring? then Goto(s, j, i, if ok then Landed(p.tries) else Again(p.tries)) else s
    case Measure(_, _) => if p.Landed? then MeasureTask(s, j, i, p.tries) else s
    case Settle(_, _) => if p.Sized? then SettleTask(s, j, i, p.tries, p.got) else s
    case Fault(_, _) => if p.Pending? || p.Attempt? || p.Sized? then Goto(s, j, i, Raised) else s
    case Cancel(_, _) => if p.Pending? && s.jobs[j].stop then Goto(s, j, i, Cancelled) else s
    case _ => s
  }

  // ---- one step of any job ----

  predicate OfTask(e: Event) {
    !e.Start? && !e.Stop? && !e.Finish? && !e.Kill?
  }

  /** The lock is taken, or the job refuses to run. */
  function Started(s: State, j: nat, picks: seq<Pick>): State {
    if j in s.jobs || s.holder != None then s
    else s.(holder := Some(j), jobs := s.jobs[j := Job(picks, seq(|picks|, _ => Pending), false, None)])
  }

  function Step(s: State, e: Event): State {
    if OfTask(e) then
      if s.Task(e.job, e.task) then TaskStep(s, e.job, e.task, e) else s
    else if e.Start? then Started(s, e.job, e.picks)
    else if e.job !in s.jobs || !s.jobs[e.job].Running() then s
    else if e.Stop? then
      s.(jobs := s.jobs[e.job := s.jobs[e.job].(stop := true)])
    else if e.Kill? then
      s.(holder := if s.holder == Some(e.job) then None else s.holder, jobs := s.jobs - {e.job})
    else if forall i :: 0 <= i < |s.jobs[e.job].tasks| ==> Terminal(s.jobs[e.job].tasks[i]) then
      var job := s.jobs[e.job];
      s.(holder := if s.holder == Some(e.job) then None else s.holder,
         jobs := s.jobs[e.job := job.(result := Some(Verdict(job)))])
    else s
  }

  /** A job fetches some of the catalog, each destination once. */
  predicate Selects(w: Catalog, picks: seq<Pick>) {
    && (forall i :: 0 <= i < |picks| ==> picks[i].dest in w && picks[i].want == w[picks[i].dest])
    && (forall i, k :: 0 <= i < k < |picks| ==> picks[i].dest != picks[k].dest)
  }

  /** A job takes its entries, and their sizes, from the catalog. */
  predicate Picked(w: Catalog, e: Event) {
    e.Start? ==> Selects(w, e.picks)
  }

  predicate Selecting(w: Catalog, events: seq<Event>) {
    forall e :: e in events ==> Picked(w, e)
  }

  function Run(s: State, events: seq<Event>): State {
    if events == [] then s
    else Step(Run(s, events[..|events| - 1]), events[|events| - 1])
  }

  // ---- the invariant ----

  ghost predicate OnDisk(w: Catalog, s: State, d: string) {
    d in w && d in s.files && s.SizeOf(d) == w[d]
  }

  ghost predicate Links(s: State) {
    && (forall n :: n in s.files ==> s.files[n] < |s.sizes|)
    && (forall m, n :: m in s.files && n in s.files && s.files[m] == s.files[n] ==> m == n)
  }

  /** What a phase of a task knows about its own files. */
  ghost predicate Knows(w: Catalog, s: State, d: string, p: Phase, stop: bool) {
    match p
    case Transferring(_, inode) => Part(d) in s.files && s.files[Part(d)] == inode
    case Sized(_, got) => Part(d) in s.files && s.SizeOf(Part(d)) == got
    case Finished(o) =>
      if o == STOP then stop else (o == OK || o == SKIP) ==> OnDisk(w, s, d)
    case Cancelled => stop
    case _ => true
  }

  /** The task's entry is the catalog's. */
  ghost predicate Listed(w: Catalog, s: State, j: nat, i: nat)
    requires s.Task(j, i)
  {
    s.Dest(j, i) in w && s.Want(j, i) == w[s.Dest(j, i)]
  }

  ghost predicate JobFits(w: Catalog, s: State, j: nat)
    requires j in s.jobs
  {
    var job := s.jobs[j];
    && Selects(w, job.picks) && |job.tasks| == |job.picks|
    && (job.Running() ==> s.holder == Some(j))
    && (job.result == Some(Done) ==>
      forall q :: q in job.picks ==> OnDisk(w, s, q.dest))
  }

  ghost predicate TaskFits(w: Catalog, s: State, j: nat, i: nat) {
    s.Task(j, i) ==> Knows(w, s, s.Dest(j, i), s.jobs[j].tasks[i], s.jobs[j].stop)
  }

  ghost predicate Inv(w: Catalog, s: State) {
    && Links(s)
    && (forall j :: j in s.jobs ==> JobFits(w, s, j))
    && (forall j, i {:trigger TaskFits(w, s, j, i)} :: TaskFits(w, s, j, i))
  }

  // ---- what one task may do to the disk ----

  lemma {:induction false} PartIsInjective(c: string, d: string)
    requires Part(c) == Part(d)
    ensures c == d
  {
    assert c == Part(c)[..|Part(c)| - 5] && d == Part(d)[..|Part(d)| - 5];
  }

  /** Every other name leads to the same bytes as before. */
  ghost predicate OthersKept(s: State, t: State, d: string) {
    forall n :: n != d && n != Part(d) ==>
      (n in t.files <==> n in s.files) && (n in s.files ==> t.files[n] == s.files[n]) && t.SizeOf(n) == s.SizeOf(n)
  }

  /** The bookkeeping of a step of task i of job j: only that task's phase may change. */
  ghost predicate OnlyTask(s: State, t: State, j: nat, i: nat)
    requires s.Task(j, i)
  {
    && t.holder == s.holder && t.jobs.Keys == s.jobs.Keys
    && (forall k :: k in s.jobs && k != j ==> t.jobs[k] == s.jobs[k])
    && t.jobs[j].picks == s.jobs[j].picks && t.jobs[j].stop == s.jobs[j].stop && t.jobs[j].result == s.jobs[j].result
    && |t.jobs[j].tasks| == |s.jobs[j].tasks|
    && (forall k :: 0 <= k < |s.jobs[j].tasks| && k != i ==> t.jobs[j].tasks[k] == s.jobs[j].tasks[k])
  }

  /** Everything a step of one task does, as far as the rest of the system can see. */
  ghost predicate Local(w: Catalog, s: State, t: State, j: nat, i: nat)
    requires s.Task(j, i)
  {
    var d := s.Dest(j, i);
    && OnlyTask(s, t, j, i)
    && Links(t)
    && OthersKept(s, t, d)
    && (OnDisk(w, s, d) ==> OnDisk(w, t, d))
    && TaskFits(w, t, j, i)
  }

  ghost predicate Ready(w: Catalog, s: State, j: nat, i: nat) {
    && Apart(w) && Sizes(w) && Links(s) && s.Task(j, i) && Listed(w, s, j, i)
    && TaskFits(w, s, j, i)
  }

  lemma {:induction false} BeginLocal(w: Catalog, s: State, j: nat, i: nat)
    requires Ready(w, s, j, i)
    ensures Local(w, s, BeginTask(s, j, i), j, i)
  {
  }

  lemma {:induction false} LookLocal(w: Catalog, s: State, j: nat, i: nat, k: nat)
    requires Ready(w, s, j, i)
    ensures Local(w, s, LookTask(s, j, i, k), j, i)
  {
  }

  lemma {:induction false} FreshLocal(w: Catalog, s: State, j: nat, i: nat, k: nat)
    requires Ready(w, s, j, i)
    ensures Local(w, s, FreshTask(s, j, i, k), j, i)
  {
  }

  lemma {:induction false} GotoLocal(w: Catalog, s: State, j: nat, i: nat, p: Phase)
    requires Ready(w, s, j, i) && Knows(w, s, s.Dest(j, i), p, s.jobs[j].stop)
    ensures Local(w, s, Goto(s, j, i, p), j, i)
  {
  }

  lemma {:induction false} UrlLocal(w: Catalog, s: State, j: nat, i: nat, k: nat, have: nat, ok: bool)
    requires Ready(w, s, j, i)
    ensures Local(w, s, UrlTask(s, j, i, k, have, ok), j, i)
  {
    var d := s.Dest(j, i);
    if !ok { GotoLocal(w, s, j, i, Again(k)); }
    else if w[d] > 0 && have >= w[d] { GotoLocal(w, s, j, i, Landed(k)); }
    else if Part(d) in s.files { GotoLocal(w, s, j, i, Transferring(k, s.files[Part(d)])); }
    else { FreshLocal(w, s, j, i, k); }
  }

  lemma {:induction false} AppendLocal(w: Catalog, s: State, j: nat, i: nat, n: nat)
    requires Ready(w, s, j, i)
    ensures Local(w, s, TaskStep(s, j, i, Append(j, i, n)), j, i)
  {
  }

  lemma {:induction false} SettleLocal(w: Catalog, s: State, j: nat, i: nat, k: nat, got: nat)
    requires Ready(w, s, j, i) && s.jobs[j].tasks[i] == Sized(k, got)
    ensures Local(w, s, SettleTask(s, j, i, k, got), j, i)
  {
  }

  /** The steps that only move on: nothing on disk changes. */
  lemma {:induction false} QuietLocal(w: Catalog, s: State, j: nat, i: nat, e: Event)
    requires Ready(w, s, j, i)
    requires e.End? || e.Measure? || e.Fault? || e.Cancel?
    ensures Local(w, s, TaskStep(s, j, i, e), j, i)
  {
    var p, t := s.jobs[j].tasks[i], TaskStep(s, j, i, e);
    if t != s { GotoLocal(w, s, j, i, t.jobs[j].tasks[i]); }
  }

  lemma {:induction false} TaskLocal(w: Catalog, s: State, j: nat, i: nat, e: Event)
    requires Ready(w, s, j, i) && OfTask(e) && e.job == j && e.task == i
    ensures Local(w, s, TaskStep(s, j, i, e), j, i)
  {
    var p := s.jobs[j].tasks[i];
    var t := TaskStep(s, j, i, e);
    if t == s {
      StillLocal(w, s, j, i);
    } else if e.Begin? {
      BeginLocal(w, s, j, i);
    } else if e.Look? {
      LookLocal(w, s, j, i, p.tries);
    } else if e.Url? {
      UrlLocal(w, s, j, i, p.tries, p.have, e.ok);
    } else if e.Append? {
      AppendLocal(w, s, j, i, e.bytes);
    } else if e.Restart? {
      FreshLocal(w, s, j, i, p.tries);
    } else if e.Settle? {
      SettleLocal(w, s, j, i, p.tries, p.got);
    } else {
      QuietLocal(w, s, j, i, e);
    }
  }

  lemma {:induction false} StillLocal(w: Catalog, s: State, j: nat, i: nat)
    requires Ready(w, s, j, i)
    ensures Local(w, s, s, j, i)
  {
  }

  // ---- the invariant is kept ----

  /** A task with other files is not disturbed. */
  lemma {:induction false} OtherTask(w: Catalog, s: State, t: State, j: nat, i: nat, k: nat)
    requires Apart(w) && Inv(w, s) && s.Task(j, i) && Local(w, s, t, j, i)
    requires i != k && s.Task(j, k)
    ensures TaskFits(w, t, j, k)
  {
    assert JobFits(w, s, j) && TaskFits(w, s, j, k);
    var c, d := s.Dest(j, k), s.Dest(j, i);
    assert c != d && c in w && d in w;
    if Part(c) == Part(d) { PartIsInjective(c, d); }
    assert Part(c) != d && c != Part(d);
    assert t.jobs[j].tasks[k] == s.jobs[j].tasks[k];
  }

  /** What is on disk under its expected size stays there through any step of any task. */
  lemma {:induction false} OthersOnDisk(w: Catalog, s: State, t: State, j: nat, i: nat, c: string)
    requires Apart(w) && s.Task(j, i) && Local(w, s, t, j, i) && OnDisk(w, s, c) && Listed(w, s, j, i)
    ensures OnDisk(w, t, c)
  {
    var d := s.Dest(j, i);
    if c != d { assert c != Part(d); }
  }

  /** The writer lock: two running jobs are one job. */
  lemma {:induction false} OneRunner(w: Catalog, s: State, j: nat, k: nat)
    requires Inv(w, s) && j in s.jobs && k in s.jobs && s.jobs[j].Running() && s.jobs[k].Running()
    ensures j == k
  {
    assert JobFits(w, s, j) && JobFits(w, s, k);
  }

  lemma {:induction false} TaskKeepsInv(w: Catalog, s: State, t: State, j: nat, i: nat)
    requires Apart(w) && Inv(w, s) && s.Task(j, i) && Local(w, s, t, j, i) && Listed(w, s, j, i)
    ensures Inv(w, t)
  {
    forall k | k in t.jobs ensures JobFits(w, t, k) {
      assert JobFits(w, s, k);
      if s.jobs[k].result == Some(Done) {
        forall q | q in s.jobs[k].picks ensures OnDisk(w, t, q.dest) { OthersOnDisk(w, s, t, j, i, q.dest); }
      }
    }
    forall k, m ensures TaskFits(w, t, k, m) {
      if t.Task(k, m) {
        OneRunner(w, s, j, k);
        if m != i { OtherTask(w, s, t, j, i, m); }
      }
    }
  }

  /** Only the holder of the writer lock runs, so only its steps touch any file. */
  lemma {:induction false} OnlyHolderWrites(w: Catalog, s: State, e: Event)
    requires Inv(w, s)
    requires var t := Step(s, e); t.files != s.files || t.sizes != s.sizes
    ensures s.holder == Some(e.job) && OfTask(e)
  {
    assert JobFits(w, s, e.job);
  }

  lemma {:induction false} JobEventFits(w: Catalog, s: State, e: Event, k: nat)
    requires Inv(w, s) && Picked(w, e) && (e.Start? || e.Stop? || e.Kill?) && k in Step(s, e).jobs
    ensures JobFits(w, Step(s, e), k)
  {
    var t := Step(s, e);
    if k in s.jobs { assert JobFits(w, s, k); }
    if e.job in s.jobs && k in s.jobs && s.jobs[k].Running() && s.jobs[e.job].Running() { OneRunner(w, s, e.job, k); }
    if t.jobs[k].result == Some(Done) {
      forall q | q in t.jobs[k].picks ensures OnDisk(w, t, q.dest) { assert OnDisk(w, s, q.dest); }
    }
  }

  lemma {:induction false} TaskEventFits(w: Catalog, s: State, e: Event, k: nat, m: nat)
    requires Inv(w, s) && Picked(w, e) && (e.Start? || e.Stop? || e.Kill?)
    ensures TaskFits(w, Step(s, e), k, m)
  {
    var t := Step(s, e);
    assert TaskFits(w, s, k, m);
    if t.Task(k, m) && k in s.jobs && t.jobs[k].tasks[m].Finished? && t.jobs[k].tasks[m].outcome in {OK, SKIP} {
      assert OnDisk(w, s, s.Dest(k, m));
    }
  }

  /** Starting, stopping and dying leave the disk alone. */
  lemma {:induction false} JobKeepsInv(w: Catalog, s: State, e: Event)
    requires Inv(w, s) && Picked(w, e) && (e.Start? || e.Stop? || e.Kill?)
    ensures Inv(w, Step(s, e))
  {
    var t := Step(s, e);
    forall k | k in t.jobs ensures JobFits(w, t, k) { JobEventFits(w, s, e, k); }
    forall k: nat, m: nat ensures TaskFits(w, t, k, m) { TaskEventFits(w, s, e, k, m); }
  }

  /** A job that calls itself done has every selected entry on disk at its expected size. */
  lemma {:induction false} DoneMeansOnDisk(w: Catalog, s: State, j: nat, i: nat)
    requires Inv(w, s) && s.Task(j, i) && Verdict(s.jobs[j]) == Done
    requires Terminal(s.jobs[j].tasks[i])
    ensures OnDisk(w, s, s.Dest(j, i))
  {
    assert TaskFits(w, s, j, i);
    assert s.jobs[j].tasks[i] in s.jobs[j].tasks;
  }

  lemma {:induction false} FinishKeepsInv(w: Catalog, s: State, j: nat)
    requires Inv(w, s)
    ensures Inv(w, Step(s, Finish(j)))
  {
    var t := Step(s, Finish(j));
    if t != s {
      forall k | k in t.jobs ensures JobFits(w, t, k) {
        assert JobFits(w, s, k);
        if s.jobs[k].Running() { OneRunner(w, s, j, k); }
        if t.jobs[k].result == Some(Done) {
          forall q | q in t.jobs[k].picks ensures OnDisk(w, t, q.dest) {
            var i :| 0 <= i < |t.jobs[k].picks| && t.jobs[k].picks[i] == q;
            if k == j { DoneMeansOnDisk(w, s, j, i); }
            assert OnDisk(w, s, q.dest);
          }
        }
      }
      forall k, m ensures TaskFits(w, t, k, m) {
        if s.Task(k, m) { OneRunner(w, s, j, k); }
      }
    }
  }

  lemma {:induction false} StepKeepsInv(w: Catalog, s: State, e: Event)
    requires Apart(w) && Sizes(w) && Inv(w, s) && Picked(w, e)
    ensures Inv(w, Step(s, e))
  {
    if OfTask(e) {
      if s.Task(e.job, e.task) && Listed(w, s, e.job, e.task) {
        assert TaskFits(w, s, e.job, e.task);
        TaskLocal(w, s, e.job, e.task, e);
        TaskKeepsInv(w, s, Step(s, e), e.job, e.task);
      }
    } else if e.Finish? {
      FinishKeepsInv(w, s, e.job);
    } else {
      JobKeepsInv(w, s, e);
    }
  }

  // ---- every run ----

  /** A disk before any job: names lead to different inodes; nothing else is asked of it. */
  ghost predicate Fresh(s: State) {
    Links(s) && s.holder == None && s.jobs == map[]
  }

  lemma {:induction false} RunKeepsInv(w: Catalog, s: State, events: seq<Event>)
    requires Apart(w) && Sizes(w) && Fresh(s) && Selecting(w, events)
    ensures Inv(w, Run(s, events))
  {
    if events == [] {
      forall k, m ensures TaskFits(w, s, k, m) {}
    } else {
      RunKeepsInv(w, s, events[..|events| - 1]);
      StepKeepsInv(w, Run(s, events[..|events| - 1]), events[|events| - 1]);
    }
  }

  /** In every run, a job that ended `done` has each file it selected on disk at its expected size, from then on. */
  lemma {:induction false} DoneIsDone(w: Catalog, s: State, events: seq<Event>, j: nat, q: Pick)
    requires Apart(w) && Sizes(w) && Fresh(s) && Selecting(w, events)
    requires var t := Run(s, events); j in t.jobs && t.jobs[j].result == Some(Done) && q in t.jobs[j].picks
    ensures OnDisk(w, Run(s, events), q.dest) && w[q.dest] == q.want
  {
    RunKeepsInv(w, s, events);
    assert JobFits(w, Run(s, events), j);
  }

  lemma {:induction false} StepKeepsPublished(w: Catalog, s: State, e: Event, d: string)
    requires Apart(w) && Sizes(w) && Inv(w, s) && OnDisk(w, s, d)
    ensures OnDisk(w, Step(s, e), d)
  {
    if OfTask(e) && s.Task(e.job, e.task) && Listed(w, s, e.job, e.task) {
      assert TaskFits(w, s, e.job, e.task);
      TaskLocal(w, s, e.job, e.task, e);
      OthersOnDisk(w, s, Step(s, e), e.job, e.task, d);
    }
  }

  /** A step that makes a destination name appear, or changes it, gives it its expected size. */
  lemma {:induction false} StepPublishesWhole(w: Catalog, s: State, e: Event, d: string)
    requires Apart(w) && Sizes(w) && Inv(w, s) && d in w
    requires var t := Step(s, e);
      d in t.files && (d !in s.files || t.files[d] != s.files[d] || t.SizeOf(d) != s.SizeOf(d))
    ensures OnDisk(w, Step(s, e), d)
  {
    var t := Step(s, e);
    OnlyHolderWrites(w, s, e);
    assert TaskFits(w, s, e.job, e.task);
    TaskLocal(w, s, e.job, e.task, e);
    var c := s.Dest(e.job, e.task);
    assert d != Part(c);
    assert c == d;
    TouchesOwn(w, s, e);
  }

  /** Of the steps that touch a destination name, only the rename after the size test does. */
  lemma {:induction false} TouchesOwn(w: Catalog, s: State, e: Event)
    requires Apart(w) && Sizes(w) && Inv(w, s) && OfTask(e) && s.Task(e.job, e.task) && Listed(w, s, e.job, e.task)
    ensures var d, t := s.Dest(e.job, e.task), Step(s, e);
      || OnDisk(w, t, d)
      || ((d in t.files <==> d in s.files) && (d in s.files ==> t.files[d] == s.files[d]) && t.SizeOf(d) == s.SizeOf(d))
  {
    assert TaskFits(w, s, e.job, e.task);
  }

  lemma {:induction false} SelectingInit(w: Catalog, events: seq<Event>, more: seq<Event>)
    requires Selecting(w, events + more) && more != []
    ensures Selecting(w, events + more[..|more| - 1]) && Picked(w, more[|more| - 1])
    ensures (events + more)[..|events + more| - 1] == events + more[..|more| - 1]
  {
    var init, last := more[..|more| - 1], more[|more| - 1];
    forall e | e in events + init ensures Picked(w, e) { assert e in events + more; }
    assert last in events + more;
  }

  /** Once published, a file keeps its expected size through every later run, kill or cancel. */
  lemma {:induction false} PublishedStays(w: Catalog, s: State, events: seq<Event>, more: seq<Event>, d: string)
    requires Apart(w) && Sizes(w) && Fresh(s) && Selecting(w, events + more) && OnDisk(w, Run(s, events), d)
    ensures OnDisk(w, Run(s, events + more), d)
  {
    if more == [] {
      assert events + more == events;
    } else {
      var init, last := more[..|more| - 1], more[|more| - 1];
      SelectingInit(w, events, more);
      PublishedStays(w, s, events, init, d);
      RunKeepsInv(w, s, events + init);
      StepKeepsPublished(w, Run(s, events + init), last, d);
      assert (events + more)[|events + more| - 1] == last;
    }
  }

  /** A library whose names are all whole is whole after every run: a partial transfer never looks finished. */
  lemma {:induction false} NamesAreWhole(w: Catalog, s: State, events: seq<Event>, d: string)
    requires Apart(w) && Sizes(w) && Fresh(s) && Selecting(w, events) && d in w &&
      (d in s.files ==> s.SizeOf(d) == w[d])
    ensures var t := Run(s, events); d in t.files ==> t.SizeOf(d) == w[d]
  {
    if events != [] {
      var before := events[..|events| - 1];
      NamesAreWhole(w, s, before, d);
      RunKeepsInv(w, s, before);
      var u, e := Run(s, before), events[|events| - 1];
      var t := Step(u, e);
      if d in t.files && (d !in u.files || t.files[d] != u.files[d] || t.SizeOf(d) != u.SizeOf(d)) {
        StepPublishesWhole(w, u, e, d);
      }
    }
  }

  // ---- how a task and a job end ----

  /** A job ends when every one of its entries was skipped, fetched, given up, stopped, cancelled or raised; it says
      crashed if one raised, stopped if it was told to, done if none was given up, partial if some of them came, and
      failed if none did. */
  lemma {:induction false} FinishSays(s: State, j: nat)
    requires j in s.jobs && s.jobs[j].Running()
    ensures var tasks, t := s.jobs[j].tasks, Step(s, Finish(j));
      var ended := forall i :: 0 <= i < |tasks| ==>
        tasks[i] in {Finished(OK), Finished(SKIP), Finished(STOP), Finished(FAIL), Cancelled, Raised};
      && t.files == s.files && t.sizes == s.sizes && j in t.jobs && t.jobs[j].picks == s.jobs[j].picks
      && t.holder == (if ended && s.holder == Some(j) then None else s.holder)
      && t.jobs[j].result ==
         if !ended then None
         else if exists i :: 0 <= i < |tasks| && tasks[i] == Raised then Some(Crashed)
         else if s.jobs[j].stop then Some(Stopped)
         else if forall i :: 0 <= i < |tasks| ==> tasks[i] != Finished(FAIL) then Some(Done)
         else if exists i :: 0 <= i < |tasks| && (tasks[i] == Finished(OK) || tasks[i] == Finished(SKIP)) then
           Some(Partial)
         else Some(Failed)
  {
    var tasks := s.jobs[j].tasks;
    forall i | 0 <= i < |tasks|
      ensures Terminal(tasks[i]) <==>
        tasks[i] in {Finished(OK), Finished(SKIP), Finished(STOP), Finished(FAIL), Cancelled, Raised}
    {
      Ended(tasks[i]);
    }
  }

  lemma {:induction false} Ended(p: Phase)
    ensures Terminal(p) <==>
      p in {Finished(OK), Finished(SKIP), Finished(STOP), Finished(FAIL), Cancelled, Raised}
  {
    if p.Finished? {
      match p.outcome
      case OK => assert p == Finished(OK);
      case SKIP => assert p == Finished(SKIP);
      case STOP => assert p == Finished(STOP);
      case FAIL => assert p == Finished(FAIL);
    }
  }

  /** A job starts exactly when it is new and nobody holds the lock; it then holds it, and every entry is pending. */
  lemma {:induction false} StartsIff(s: State, j: nat, picks: seq<Pick>)
    ensures var t := Step(s, Start(j, picks));
      if j in s.jobs || s.holder != None then t == s
      else
        && t.files == s.files && t.sizes == s.sizes && t.holder == Some(j)
        && t.jobs.Keys == s.jobs.Keys + {j} && (forall k :: k in s.jobs ==> t.jobs[k] == s.jobs[k])
        && t.jobs[j].picks == picks && !t.jobs[j].stop && t.jobs[j].result == None && |t.jobs[j].tasks| == |picks|
        && forall i :: 0 <= i < |picks| ==> t.jobs[j].tasks[i] == Pending
  {
  }

  /** A killed process lets go of the lock it held, and of no other; what is on disk stays. */
  lemma {:induction false} KillFrees(s: State, j: nat)
    requires j in s.jobs && s.jobs[j].Running()
    ensures var t := Step(s, Kill(j));
      && t.files == s.files && t.sizes == s.sizes && t.jobs == s.jobs - {j}
      && t.holder == if s.holder == Some(j) then None else s.holder
  {
  }

  /** One attempt whose address lookup fails. */
  function Refusal(j: nat, i: nat): seq<Event> { [Look(j, i), Url(j, i, false)] }

  function Refusals(j: nat, i: nat, n: nat): seq<Event> {
    if n == 0 then [] else Refusals(j, i, n - 1) + Refusal(j, i)
  }

  /** The task has failed n attempts: up to five it is at its next one, after six it is given up. */
  ghost predicate Refused(s: State, j: nat, i: nat, n: nat) {
    s.Task(j, i) && !s.jobs[j].stop && s.jobs[j].tasks[i] == if n < 6 then Attempt(n) else Finished(FAIL)
  }

  lemma {:induction false} SixAttempts(s: State, j: nat, i: nat, n: nat)
    requires Refused(s, j, i, 0) && n <= 6
    ensures Refused(Run(s, Refusals(j, i, n)), j, i, n)
    decreases n
  {
    if n > 0 {
      SixAttempts(s, j, i, n - 1);
      RunTwo(s, Refusals(j, i, n - 1), Look(j, i), Url(j, i, false));
      RefusedOnce(Run(s, Refusals(j, i, n - 1)), j, i, n - 1);
    }
  }

  lemma {:induction false} RefusedOnce(s: State, j: nat, i: nat, n: nat)
    requires Refused(s, j, i, n) && n < 6
    ensures Refused(Step(Step(s, Look(j, i)), Url(j, i, false)), j, i, n + 1)
  {
    var u := Step(s, Look(j, i));
    assert u.Task(j, i) && u.jobs[j].tasks[i].Looked? && u.jobs[j].tasks[i].tries == n && !u.jobs[j].stop;
  }

  /** Only a task that has not begun is cancelled, and only after a stop; and an exception ends a task only before its
      attempts, at the top of one, or at the rename. */
  lemma {:induction false} CancelledIff(s: State, j: nat, i: nat)
    requires s.Task(j, i) && !Terminal(s.jobs[j].tasks[i])
    ensures Step(s, Cancel(j, i)).jobs[j].tasks[i] == Cancelled <==> s.jobs[j].tasks[i] == Pending && s.jobs[j].stop
    ensures Step(s, Fault(j, i)).jobs[j].tasks[i] == Raised <==>
      s.jobs[j].tasks[i] == Pending || s.jobs[j].tasks[i].Attempt? || s.jobs[j].tasks[i].Sized?
    ensures s.jobs[j].tasks[i] != Pending ==> Step(s, Begin(j, i)) == s
  {
  }

  lemma {:induction false} RunNext(s: State, events: seq<Event>, e: Event)
    ensures Run(s, events + [e]) == Step(Run(s, events), e)
  {
    assert (events + [e])[..|events|] == events;
  }

  lemma {:induction false} RunTwo(s: State, events: seq<Event>, d: Event, e: Event)
    ensures Run(s, events + [d, e]) == Step(Step(Run(s, events), d), e)
  {
    RunNext(s, events, d);
    RunNext(s, events + [d], e);
    TwoMore(events, d, e);
  }

  lemma {:induction false} TwoMore(events: seq<Event>, d: Event, e: Event)
    ensures events + [d] + [e] == events + [d, e]
  {
  }

  /** What an attempt has to transfer: all of the file, or the rest of a partial one that is not too long. */
  function Rest(s: State, j: nat, i: nat): nat
    requires s.Task(j, i)
  {
    var have := s.SizeOf(Part(s.Dest(j, i)));
    if have > s.Want(j, i) then s.Want(j, i) else s.Want(j, i) - have
  }

  /** The attempt as it goes when nothing fails: what is missing arrives, and nothing at all if nothing is missing. */
  function Attended(s: State, j: nat, i: nat): seq<Event>
    requires s.Task(j, i)
  {
    [Look(j, i), Url(j, i, true)] +
    (if Rest(s, j, i) == 0 then [] else [Append(j, i, Rest(s, j, i)), End(j, i, true)]) +
    [Measure(j, i), Settle(j, i)]
  }

  /** Such an attempt publishes the file at its size, whatever partial file it found, and leaves none. */
  lemma {:induction false} AttemptPublishes(s: State, j: nat, i: nat, k: nat)
    requires Links(s) && s.Task(j, i) && !s.jobs[j].stop && s.jobs[j].tasks[i] == Attempt(k) && s.Want(j, i) > 0
    ensures var d, t := s.Dest(j, i), Run(s, Attended(s, j, i));
      t.Task(j, i) && t.jobs[j].tasks[i] == Finished(OK) && d in t.files && t.SizeOf(d) == s.Want(j, i) &&
      Part(d) !in t.files
  {
    var rest, looked := Rest(s, j, i), Step(s, Look(j, i));
    Looks(s, j, i, k);
    Opens(looked, j, i, k, looked.jobs[j].tasks[i].have);
    var begun := Step(looked, Url(j, i, true));
    var head, last := [Look(j, i), Url(j, i, true)], [Measure(j, i), Settle(j, i)];
    RunTwo(s, [], Look(j, i), Url(j, i, true));
    assert [] + head == head;
    if rest == 0 {
      RunTwo(s, head, Measure(j, i), Settle(j, i));
      assert Attended(s, j, i) == head + last;
      LandedPublishes(begun, j, i, k);
    } else {
      var more := head + [Append(j, i, rest), End(j, i, true)];
      RunTwo(s, head, Append(j, i, rest), End(j, i, true));
      RunTwo(s, more, Measure(j, i), Settle(j, i));
      assert Attended(s, j, i) == more + last;
      Arrives(begun, j, i, k, rest);
      LandedPublishes(Step(Step(begun, Append(j, i, rest)), End(j, i, true)), j, i, k);
    }
  }

  lemma {:induction false} Looks(s: State, j: nat, i: nat, k: nat)
    requires Links(s) && s.Task(j, i) && !s.jobs[j].stop && s.jobs[j].tasks[i] == Attempt(k) && s.Want(j, i) > 0
    ensures var d, t := s.Dest(j, i), Step(s, Look(j, i));
      && Links(t) && t.Task(j, i) && t.Dest(j, i) == d && t.Want(j, i) == s.Want(j, i)
      && t.SizeOf(Part(d)) + Rest(s, j, i) == t.Want(j, i) && t.jobs[j].tasks[i] == Looked(k, t.SizeOf(Part(d)))
  {
  }

  lemma {:induction false} Opens(s: State, j: nat, i: nat, k: nat, have: nat)
    requires Links(s) && s.Task(j, i) && s.Want(j, i) > 0 && s.jobs[j].tasks[i] == Looked(k, have)
    requires have == s.SizeOf(Part(s.Dest(j, i))) <= s.Want(j, i)
    ensures var d, t := s.Dest(j, i), Step(s, Url(j, i, true));
      && Links(t) && t.Task(j, i) && t.Dest(j, i) == d && t.Want(j, i) == s.Want(j, i)
      && Part(d) in t.files && t.SizeOf(Part(d)) == have
      && t.jobs[j].tasks[i] == if have == s.Want(j, i) then Landed(k) else Transferring(k, t.files[Part(d)])
  {
  }

  lemma {:induction false} Arrives(s: State, j: nat, i: nat, k: nat, n: nat)
    requires Links(s) && s.Task(j, i) && Part(s.Dest(j, i)) in s.files
    requires s.jobs[j].tasks[i] == Transferring(k, s.files[Part(s.Dest(j, i))])
    ensures var d, t := s.Dest(j, i), Step(Step(s, Append(j, i, n)), End(j, i, true));
      && Links(t) && t.Task(j, i) && t.Dest(j, i) == d && t.Want(j, i) == s.Want(j, i)
      && Part(d) in t.files && t.SizeOf(Part(d)) == s.SizeOf(Part(d)) + n && t.jobs[j].tasks[i] == Landed(k)
  {
    var u := Step(s, Append(j, i, n));
    assert u.Task(j, i) && u.jobs == s.jobs;
  }

  lemma {:induction false} LandedPublishes(s: State, j: nat, i: nat, k: nat)
    requires Links(s) && s.Task(j, i) && s.jobs[j].tasks[i] == Landed(k)
    requires Part(s.Dest(j, i)) in s.files && s.SizeOf(Part(s.Dest(j, i))) == s.Want(j, i)
    ensures var d, t := s.Dest(j, i), Step(Step(s, Measure(j, i)), Settle(j, i));
      t.Task(j, i) && t.jobs[j].tasks[i] == Finished(OK) && d in t.files && t.SizeOf(d) == s.Want(j, i) &&
      Part(d) !in t.files
  {
    var u := Step(s, Measure(j, i));
    assert u.Task(j, i) && u.jobs[j].tasks[i] == Sized(k, s.Want(j, i));
    var d := s.Dest(j, i);
    assert |Part(d)| == |d| + 5;
  }

  // ---- what the hypotheses are for ----

  /** Without an expected size there is no size test: whatever a transfer that reported success left is published. */
  lemma {:induction false} NoSizePublishesAnything(s: State, j: nat, i: nat, k: nat)
    requires Links(s) && s.Task(j, i) && s.Want(j, i) == 0
    requires s.jobs[j].tasks[i] == Landed(k) && Part(s.Dest(j, i)) in s.files
    ensures var d := s.Dest(j, i);
      var t := Step(Step(s, Measure(j, i)), Settle(j, i));
      d in t.files && t.SizeOf(d) == s.SizeOf(Part(d)) && t.jobs[j].tasks[i] == Finished(OK)
  {
    var u := Step(s, Measure(j, i));
    assert u.Task(j, i) && u.jobs[j].tasks[i] == Sized(k, s.SizeOf(Part(s.Dest(j, i))));
  }

  /** What the writer lock rules out: two jobs with one partial file open; the first publishes, the second spoils it.
      The state is given, not reached: by OneRunner no run of this model has two running jobs. */
  lemma {:induction false} WithoutTheLock(w: Catalog, s: State, a: nat, b: nat, i: nat, m: nat, k: nat, l: nat, n: nat)
    requires a != b && s.Task(a, i) && s.Task(b, m) && Links(s) && Apart(w) && Listed(w, s, a, i)
    requires var d := s.Dest(a, i);
      && w[d] > 0 && s.Dest(b, m) == d
      && Part(d) in s.files && s.SizeOf(Part(d)) == w[d]
      && s.jobs[a].tasks[i] == Sized(k, w[d])
      && s.jobs[b].tasks[m] == Transferring(l, s.files[Part(d)])
    requires n > 0
    ensures var d := s.Dest(a, i);
      var t := Step(s, Settle(a, i));
      OnDisk(w, t, d) && !OnDisk(w, Step(t, Append(b, m, n)), d)
  {
    var d := s.Dest(a, i);
    var t := Step(s, Settle(a, i));
    assert Part(d) !in w;
    assert t.files[d] == s.files[Part(d)];
    assert t.Task(b, m) && t.jobs[b].tasks[m] == s.jobs[b].tasks[m];
  }

  /** A destination that is another one's partial file: fetching the other moves the published file away. The state is
      given, not reached: Measure leaves such a size only where both entries have the same one. Jobs.LastTakesPart
      reaches the loss from an empty disk at any two sizes. */
  lemma {:induction false} CollidingNames(w: Catalog, s: State, j: nat, i: nat, k: nat)
    requires Links(s) && s.Task(j, i) && Listed(w, s, j, i)
    requires var d := s.Dest(j, i);
      Part(d) in w && OnDisk(w, s, Part(d)) && s.jobs[j].tasks[i] == Sized(k, w[d])
    ensures !OnDisk(w, Step(s, Settle(j, i)), Part(s.Dest(j, i)))
  {
  }
}
