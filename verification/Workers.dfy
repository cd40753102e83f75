/** The task steps of the publish job, taken by one worker, are a run of `fetch`. */
module Workers {
  import opened Basics
  import opened Publish
  import opened Fetches

  /** The sizes that the names on disk show. */
  function View(s: State): map<string, nat> {
    map n | n in s.files :: s.SizeOf(n)
  }

  /** The same without one destination's partial file, and that file alone. */
  function Others(s: State, d: string): map<string, nat> {
    map n | n in s.files && n != Part(d) :: s.SizeOf(n)
  }

  function Has(s: State, d: string): Option<nat> {
    if Part(d) in s.files then Some(s.SizeOf(Part(d))) else None
  }

  lemma {:induction false} ViewSplits(s: State, d: string)
    ensures Others(s, d) == View(s) - {Part(d)} && Has(s, d) == PartIn(View(s), d)
    ensures View(s) == WithPart(Others(s, d), d, Has(s, d))
  {
  }

  /** Task i of job j stands in this phase, over this disk, with no stop asked for. */
  ghost predicate Worker(s: State, j: nat, i: nat, q: Pick, p: Phase, rest: map<string, nat>, have: Option<nat>) {
    && s.Task(j, i) && Links(s) && s.jobs[j].picks[i] == q && s.jobs[j].tasks[i] == p && !s.jobs[j].stop
    && Others(s, q.dest) == rest && Has(s, q.dest) == have
  }

  /** A transfer is open on the name of the partial file. */
  ghost predicate Open(s: State, d: string, p: Phase) {
    p.Transferring? && Part(d) in s.files && s.files[Part(d)] == p.inode
  }

  /** The jobs, with the phase of one task and the stop flag of its job left out. */
  function Rest(s: State, j: nat, i: nat): map<nat, Job> {
    if j in s.jobs && i < |s.jobs[j].tasks|
    then s.jobs[j := s.jobs[j].(tasks := s.jobs[j].tasks[i := Pending], stop := false)]
    else s.jobs
  }

  /** Apart from task i of job j and the stop flag of the job, nothing changed but the disk. */
  ghost predicate Aside(s: State, t: State, j: nat, i: nat) {
    t.holder == s.holder && Rest(t, j, i) == Rest(s, j, i)
  }

  /** The same, item by item. */
  ghost predicate Beside(s: State, t: State, j: nat, i: nat) {
    && j in s.jobs && t.jobs.Keys == s.jobs.Keys && t.holder == s.holder && i < |s.jobs[j].tasks|
    && (forall k :: k in s.jobs && k != j ==> t.jobs[k] == s.jobs[k])
    && t.jobs[j].picks == s.jobs[j].picks && t.jobs[j].result == s.jobs[j].result
    && |t.jobs[j].tasks| == |s.jobs[j].tasks|
    && forall k :: 0 <= k < |s.jobs[j].tasks| && k != i ==> t.jobs[j].tasks[k] == s.jobs[j].tasks[k]
  }

  lemma {:induction false} BesideIsAside(s: State, t: State, j: nat, i: nat)
    requires Beside(s, t, j, i)
    ensures Aside(s, t, j, i)
  {
    assert t.jobs[j].tasks[i := Pending] == s.jobs[j].tasks[i := Pending];
  }

  lemma {:induction false} AsideIsBeside(s: State, t: State, j: nat, i: nat)
    requires Aside(s, t, j, i) && j in s.jobs && i < |s.jobs[j].tasks| && j in t.jobs && i < |t.jobs[j].tasks|
    ensures Beside(s, t, j, i)
  {
    var a, b := Rest(s, j, i), Rest(t, j, i);
    assert a[j].tasks == s.jobs[j].tasks[i := Pending] && b[j].tasks == t.jobs[j].tasks[i := Pending];
    forall k | 0 <= k < |s.jobs[j].tasks| && k != i ensures t.jobs[j].tasks[k] == s.jobs[j].tasks[k] {
      assert a[j].tasks[k] == s.jobs[j].tasks[k] && b[j].tasks[k] == t.jobs[j].tasks[k];
    }
    forall k | k in s.jobs && k != j ensures k in t.jobs && t.jobs[k] == s.jobs[k] {
      assert k in a && a[k] == s.jobs[k] && k in b && b[k] == t.jobs[k];
    }
    assert t.jobs.Keys == b.Keys && s.jobs.Keys == a.Keys;
  }

  // ---- one step ----

  /** Moving on without touching the disk. */
  lemma {:induction false} GotoMoves(s: State, j: nat, i: nat, q: Pick, p: Phase, next: Phase, rest: map<string, nat>,
                                     have: Option<nat>)
    requires Worker(s, j, i, q, p, rest, have)
    ensures Beside(s, Goto(s, j, i, next), j, i) && Worker(Goto(s, j, i, next), j, i, q, next, rest, have)
  {
  }

  lemma {:induction false} BeginMoves(s: State, j: nat, i: nat, q: Pick, rest: map<string, nat>, have: Option<nat>)
    requires Worker(s, j, i, q, Pending, rest, have)
    ensures var t := Step(s, Begin(j, i));
      Beside(s, t, j, i) &&
      Worker(t, j, i, q, if Skipped(rest, q.dest, q.want) then Finished(SKIP) else Publish.Attempt(0), rest, have)
  {
    PartDiffers(q.dest);
    GotoMoves(s, j, i, q, Pending, if Skipped(rest, q.dest, q.want) then Finished(SKIP) else Publish.Attempt(0), rest,
              have);
  }

  /** The partial file is removed. */
  lemma {:induction false} TrimMoves(s: State, j: nat, i: nat, q: Pick, p: Phase, rest: map<string, nat>,
                                     have: Option<nat>)
    requires Worker(s, j, i, q, p, rest, have)
    ensures Worker(s.(files := s.files - {Part(q.dest)}), j, i, q, p, rest, None)
  {
  }

  lemma {:induction false} LookMoves(s: State, j: nat, i: nat, q: Pick, k: nat, rest: map<string, nat>,
                                     have: Option<nat>)
    requires Worker(s, j, i, q, Publish.Attempt(k), rest, have)
    ensures var t, h := Step(s, Look(j, i)), Trimmed(q.want, have);
      Beside(s, t, j, i) && Worker(t, j, i, q, Looked(k, if h.Some? then h.value else 0), rest, h)
  {
    if Trimmed(q.want, have) == have {
      GotoMoves(s, j, i, q, Publish.Attempt(k), Looked(k, if have.Some? then have.value else 0), rest, have);
    } else {
      TrimMoves(s, j, i, q, Publish.Attempt(k), rest, have);
      GotoMoves(s.(files := s.files - {Part(q.dest)}), j, i, q, Publish.Attempt(k), Looked(k, 0), rest, None);
    }
  }

  lemma {:induction false} StopMoves(s: State, j: nat, i: nat, q: Pick, k: nat, rest: map<string, nat>,
                                     have: Option<nat>)
    requires Worker(s, j, i, q, Publish.Attempt(k), rest, have)
    ensures var t := Step(Step(s, Stop(j)), Look(j, i));
      && Beside(s, t, j, i) && t.jobs[j].tasks[i] == Finished(STOP) && Links(t)
      && Others(t, q.dest) == rest && Has(t, q.dest) == have
  {
    var u := Step(s, Stop(j));
    assert u.Task(j, i) && u.jobs[j].stop && u.jobs[j].tasks[i] == s.jobs[j].tasks[i];
  }

  /** A new partial file: its name leads to a new inode. */
  lemma {:induction false} CreateMoves(s: State, j: nat, i: nat, q: Pick, p: Phase, rest: map<string, nat>,
                                       have: Option<nat>)
    requires Worker(s, j, i, q, p, rest, have)
    ensures var u := s.(files := s.files[Part(q.dest) := |s.sizes|], sizes := s.sizes + [0]);
      Worker(u, j, i, q, p, rest, Some(0))
  {
  }

  lemma {:induction false} FreshMoves(s: State, j: nat, i: nat, q: Pick, p: Phase, k: nat, rest: map<string, nat>,
                                      have: Option<nat>)
    requires Worker(s, j, i, q, p, rest, have)
    ensures var t := FreshTask(s, j, i, k);
      && Beside(s, t, j, i) && Open(t, q.dest, Transferring(k, |s.sizes|))
      && Worker(t, j, i, q, Transferring(k, |s.sizes|), rest, Some(0))
  {
    CreateMoves(s, j, i, q, p, rest, have);
    GotoMoves(s.(files := s.files[Part(q.dest) := |s.sizes|], sizes := s.sizes + [0]), j, i, q, p,
              Transferring(k, |s.sizes|), rest, Some(0));
  }

  /** The transfer opens on the partial file, or on a new one. */
  lemma {:induction false} UrlMoves(s: State, j: nat, i: nat, q: Pick, k: nat, h: nat, rest: map<string, nat>,
                                    have: Option<nat>)
    returns (p: Phase)
    requires Worker(s, j, i, q, Looked(k, h), rest, have) && (q.want == 0 || h < q.want)
    requires h == Base(have, CALM)
    ensures p.Transferring? && p.tries == k
    ensures var t := Step(s, Url(j, i, true));
      Beside(s, t, j, i) && Open(t, q.dest, p) && Worker(t, j, i, q, p, rest, Some(h))
  {
    if have.Some? {
      p := Transferring(k, s.files[Part(q.dest)]);
      GotoMoves(s, j, i, q, Looked(k, h), p, rest, have);
    } else {
      FreshMoves(s, j, i, q, Looked(k, h), k, rest, have);
      p := Transferring(k, |s.sizes|);
    }
  }

  /** A refused resume starts a new partial file. */
  lemma {:induction false} RestartMoves(s: State, j: nat, i: nat, q: Pick, p: Phase, rest: map<string, nat>,
                                        have: Option<nat>)
    returns (p': Phase)
    requires Worker(s, j, i, q, p, rest, have) && p.Transferring?
    ensures p'.Transferring? && p'.tries == p.tries
    ensures var t := Step(s, Restart(j, i));
      Beside(s, t, j, i) && Open(t, q.dest, p') && Worker(t, j, i, q, p', rest, Some(0))
  {
    FreshMoves(s, j, i, q, p, p.tries, rest, have);
    p' := Transferring(p.tries, |s.sizes|);
  }

  lemma {:induction false} AppendMoves(s: State, j: nat, i: nat, q: Pick, p: Phase, rest: map<string, nat>, h: nat,
                                       n: nat)
    requires Worker(s, j, i, q, p, rest, Some(h)) && Open(s, q.dest, p)
    ensures var t := Step(s, Append(j, i, n)); Beside(s, t, j, i) && Worker(t, j, i, q, p, rest, Some(h + n))
  {
  }

  /** The rename: the destination leads where the partial file led. */
  lemma {:induction false} RenameMoves(s: State, j: nat, i: nat, q: Pick, p: Phase, rest: map<string, nat>, h: nat)
    requires Worker(s, j, i, q, p, rest, Some(h))
    ensures var u := s.(files := s.files[q.dest := s.files[Part(q.dest)]] - {Part(q.dest)});
      Worker(u, j, i, q, p, rest[q.dest := h], None)
  {
    PartDiffers(q.dest);
  }

  lemma {:induction false} SettleMoves(s: State, j: nat, i: nat, q: Pick, k: nat, rest: map<string, nat>, h: nat)
    requires Worker(s, j, i, q, Sized(k, h), rest, Some(h)) && (q.want == 0 || h == q.want)
    ensures var t := Step(s, Settle(j, i));
      Beside(s, t, j, i) && Worker(t, j, i, q, Finished(OK), rest[q.dest := h], None)
  {
    var d := q.dest;
    RenameMoves(s, j, i, q, Sized(k, h), rest, h);
    GotoMoves(s.(files := s.files[d := s.files[Part(d)]] - {Part(d)}), j, i, q, Sized(k, h), Finished(OK),
              rest[d := h], None);
  }

  // ---- runs of steps ----

  /** Steps of this task, and the stop request its weather may bring. */
  ghost predicate Own(es: seq<Event>, j: nat, i: nat) {
    forall e :: e in es ==> e.job == j && (e.Stop? || (OfTask(e) && e.task == i))
  }

  /** Such steps lead from one state to the other. */
  ghost predicate Leads(s: State, es: seq<Event>, t: State, j: nat, i: nat) {
    Own(es, j, i) && Run(s, es) == t && Aside(s, t, j, i)
  }

  lemma {:induction false} RunThen(s: State, es: seq<Event>, e: Event)
    ensures Run(s, es + [e]) == Step(Run(s, es), e)
  {
    assert (es + [e])[..|es|] == es;
  }

  /** The run so far, with one more step. */
  lemma {:induction false} Extend(s: State, j: nat, i: nat, es: seq<Event>, t: State, e: Event, u: State)
    returns (more: seq<Event>)
    requires Leads(s, es, t, j, i) && Own([e], j, i) && u == Step(t, e) && Beside(t, u, j, i)
    ensures Leads(s, more, u, j, i)
  {
    more := es + [e];
    RunThen(s, es, e);
    BesideIsAside(t, u, j, i);
    assert e in [e];
  }

  /** A step that only moves on. */
  lemma {:induction false} QuietRuns(s: State, j: nat, i: nat, q: Pick, es: seq<Event>, t: State, p: Phase, e: Event,
                                     next: Phase, rest: map<string, nat>, have: Option<nat>)
    returns (more: seq<Event>, u: State)
    requires Leads(s, es, t, j, i) && Worker(t, j, i, q, p, rest, have) && Own([e], j, i)
    requires Step(t, e) == Goto(t, j, i, next)
    ensures Leads(s, more, u, j, i) && Worker(u, j, i, q, next, rest, have)
  {
    GotoMoves(t, j, i, q, p, next, rest, have);
    u := Goto(t, j, i, next);
    more := Extend(s, j, i, es, t, e, u);
  }

  /** A resume that is not refused. */
  const CALM := Weather(false, true, false, 0, true)

  /** What a transfer starts from. */
  function Base(have: Option<nat>, x: Weather): nat {
    if have.Some? && !x.refused then have.value else 0
  }

  lemma {:induction false} UrlRuns(s: State, j: nat, i: nat, q: Pick, es: seq<Event>, t: State, k: nat,
                                   rest: map<string, nat>, have: Option<nat>)
    returns (more: seq<Event>, u: State, p: Phase)
    requires Leads(s, es, t, j, i) && !Whole(q.want, have)
    requires Worker(t, j, i, q, Looked(k, Base(have, CALM)), rest, have)
    ensures p.Transferring? && p.tries == k && Leads(s, more, u, j, i) && Open(u, q.dest, p)
    ensures Worker(u, j, i, q, p, rest, Some(Base(have, CALM)))
  {
    p := UrlMoves(t, j, i, q, k, Base(have, CALM), rest, have);
    u := Step(t, Url(j, i, true));
    more := Extend(s, j, i, es, t, Url(j, i, true), u);
  }

  lemma {:induction false} RestartRuns(s: State, j: nat, i: nat, q: Pick, es: seq<Event>, t: State, p: Phase,
                                       rest: map<string, nat>, have: Option<nat>)
    returns (more: seq<Event>, u: State, p': Phase)
    requires Leads(s, es, t, j, i) && Worker(t, j, i, q, p, rest, have) && p.Transferring?
    ensures Leads(s, more, u, j, i) && p'.Transferring? && p'.tries == p.tries && Open(u, q.dest, p')
    ensures Worker(u, j, i, q, p', rest, Some(0))
  {
    p' := RestartMoves(t, j, i, q, p, rest, have);
    u := Step(t, Restart(j, i));
    more := Extend(s, j, i, es, t, Restart(j, i), u);
  }

  lemma {:induction false} AppendRuns(s: State, j: nat, i: nat, q: Pick, es: seq<Event>, t: State, p: Phase,
                                      rest: map<string, nat>, h: nat, n: nat)
    returns (more: seq<Event>, u: State)
    requires Leads(s, es, t, j, i) && Worker(t, j, i, q, p, rest, Some(h)) && Open(t, q.dest, p)
    ensures Leads(s, more, u, j, i) && Worker(u, j, i, q, p, rest, Some(h + n))
  {
    AppendMoves(t, j, i, q, p, rest, h, n);
    u := Step(t, Append(j, i, n));
    more := Extend(s, j, i, es, t, Append(j, i, n), u);
  }

  /** A transfer opens: on the partial file, or, if the resume is refused, on a new one. */
  lemma {:induction false} OpenRuns(s: State, j: nat, i: nat, q: Pick, es: seq<Event>, t: State, k: nat,
                                    rest: map<string, nat>, have: Option<nat>, x: Weather)
    returns (more: seq<Event>, u: State, p: Phase)
    requires Leads(s, es, t, j, i) && !Whole(q.want, have)
    requires Worker(t, j, i, q, Looked(k, Base(have, CALM)), rest, have)
    ensures p.Transferring? && p.tries == k && Leads(s, more, u, j, i) && Open(u, q.dest, p)
    ensures Worker(u, j, i, q, p, rest, Some(Base(have, x)))
  {
    more, u, p := UrlRuns(s, j, i, q, es, t, k, rest, have);
    if x.refused { more, u, p := RestartRuns(s, j, i, q, more, u, p, rest, Some(Base(have, CALM))); }
  }

  /** Its bytes arrive, and it ends. */
  lemma {:induction false} PourRuns(s: State, j: nat, i: nat, q: Pick, es: seq<Event>, t: State, p: Phase,
                                    rest: map<string, nat>, h: nat, x: Weather, k: nat, after: nat)
    returns (more: seq<Event>, u: State)
    requires Leads(s, es, t, j, i) && Worker(t, j, i, q, p, rest, Some(h)) && Open(t, q.dest, p)
    requires p.tries == k && after == h + x.bytes
    ensures Leads(s, more, u, j, i)
    ensures Worker(u, j, i, q, if x.complete then Landed(k) else Again(k), rest, Some(after))
  {
    more, u := AppendRuns(s, j, i, q, es, t, p, rest, h, x.bytes);
    more, u := QuietRuns(s, j, i, q, more, u, p, End(j, i, x.complete),
                         if x.complete then Landed(k) else Again(k), rest, Some(after));
  }

  lemma {:induction false} SettleRuns(s: State, j: nat, i: nat, q: Pick, es: seq<Event>, t: State, k: nat,
                                      rest: map<string, nat>, h: nat)
    returns (more: seq<Event>, u: State)
    requires Leads(s, es, t, j, i) && Worker(t, j, i, q, Sized(k, h), rest, Some(h)) && (q.want == 0 || h == q.want)
    ensures Leads(s, more, u, j, i) && Worker(u, j, i, q, Finished(OK), rest[q.dest := h], None)
  {
    SettleMoves(t, j, i, q, k, rest, h);
    u := Step(t, Settle(j, i));
    more := Extend(s, j, i, es, t, Settle(j, i), u);
  }

  /** A transfer that landed is measured, and published or tried again. */
  lemma {:induction false} LandedRuns(s: State, j: nat, i: nat, q: Pick, es: seq<Event>, t: State, k: nat,
                                      rest: map<string, nat>, h: nat)
    returns (more: seq<Event>, u: State)
    requires Leads(s, es, t, j, i) && Worker(t, j, i, q, Landed(k), rest, Some(h))
    ensures Leads(s, more, u, j, i)
    ensures if q.want == 0 || h == q.want then Worker(u, j, i, q, Finished(OK), rest[q.dest := h], None)
            else Worker(u, j, i, q, Again(k), rest, Some(h))
  {
    more, u := QuietRuns(s, j, i, q, es, t, Landed(k), Measure(j, i), Sized(k, h), rest, Some(h));
    if q.want == 0 || h == q.want {
      more, u := SettleRuns(s, j, i, q, more, u, k, rest, h);
    } else {
      more, u := QuietRuns(s, j, i, q, more, u, Sized(k, h), Settle(j, i), Again(k), rest, Some(h));
    }
  }

  // ---- one attempt ----

  /** One attempt, as `Fetches` describes it. */
  predicate Good(want: nat, have: Option<nat>, x: Weather) {
    && x.address && (Whole(want, Trimmed(want, have)) || x.complete)
    && (want > 0 ==> AfterAttempt(want, have, x) == Some(want))
  }

  /** Where an attempt that is not stopped leads: published, or on to the next, over the partial file it leaves. */
  ghost predicate Attempted(u: State, j: nat, i: nat, q: Pick, k: nat, rest: map<string, nat>, good: bool,
                            after: Option<nat>) {
    if good then after.Some? && Worker(u, j, i, q, Finished(OK), rest[q.dest := after.value], None)
    else Worker(u, j, i, q, Again(k), rest, after)
  }

  /** The three courses of an attempt. */
  lemma {:induction false} AttemptCases(want: nat, have: Option<nat>, x: Weather)
    ensures var trimmed, good, after := Trimmed(want, have), Good(want, have, x), AfterAttempt(want, have, x);
      && (!x.address ==> !good && after == trimmed)
      && (x.address && Whole(want, trimmed) ==> good && after == trimmed == Some(want) && want > 0)
      && (x.address && !Whole(want, trimmed) ==>
            && after == Some(Base(trimmed, x) + x.bytes)
            && (good <==> x.complete && (want == 0 || Base(trimmed, x) + x.bytes == want)))
  {
  }

  /** The partial file is whole already: nothing is transferred. */
  lemma {:induction false} WholeRuns(s: State, j: nat, i: nat, q: Pick, es: seq<Event>, t: State, k: nat,
                                     rest: map<string, nat>)
    returns (more: seq<Event>, u: State)
    requires q.want > 0 && Leads(s, es, t, j, i) && Worker(t, j, i, q, Looked(k, q.want), rest, Some(q.want))
    ensures Leads(s, more, u, j, i) && Worker(u, j, i, q, Finished(OK), rest[q.dest := q.want], None)
  {
    more, u := QuietRuns(s, j, i, q, es, t, Looked(k, q.want), Url(j, i, true), Landed(k), rest, Some(q.want));
    more, u := LandedRuns(s, j, i, q, more, u, k, rest, q.want);
  }

  lemma {:induction false} OpenPourRuns(s: State, j: nat, i: nat, q: Pick, es: seq<Event>, t: State, k: nat,
                                        rest: map<string, nat>, have: Option<nat>, x: Weather, after: nat)
    returns (more: seq<Event>, u: State)
    requires Leads(s, es, t, j, i) && !Whole(q.want, have) && after == Base(have, x) + x.bytes
    requires Worker(t, j, i, q, Looked(k, Base(have, CALM)), rest, have)
    ensures Leads(s, more, u, j, i)
    ensures Worker(u, j, i, q, if x.complete then Landed(k) else Again(k), rest, Some(after))
  {
    var p;
    more, u, p := OpenRuns(s, j, i, q, es, t, k, rest, have, x);
    more, u := PourRuns(s, j, i, q, more, u, p, rest, Base(have, x), x, k, after);
  }

  /** A transfer, and if it reports success the size test. */
  lemma {:induction false} FetchRuns(s: State, j: nat, i: nat, q: Pick, es: seq<Event>, t: State, k: nat,
                                     rest: map<string, nat>, have: Option<nat>, x: Weather, after: nat)
    returns (more: seq<Event>, u: State)
    requires Leads(s, es, t, j, i) && !Whole(q.want, have) && after == Base(have, x) + x.bytes
    requires Worker(t, j, i, q, Looked(k, Base(have, CALM)), rest, have)
    ensures Leads(s, more, u, j, i)
    ensures if x.complete && (q.want == 0 || after == q.want)
            then Worker(u, j, i, q, Finished(OK), rest[q.dest := after], None)
            else Worker(u, j, i, q, Again(k), rest, Some(after))
  {
    more, u := OpenPourRuns(s, j, i, q, es, t, k, rest, have, x, after);
    if x.complete { more, u := LandedRuns(s, j, i, q, more, u, k, rest, after); }
  }

  lemma {:induction false} LookRuns(s: State, j: nat, i: nat, q: Pick, es: seq<Event>, t: State, k: nat,
                                    rest: map<string, nat>, have: Option<nat>)
    returns (more: seq<Event>, u: State)
    requires Leads(s, es, t, j, i) && Worker(t, j, i, q, Publish.Attempt(k), rest, have)
    ensures Leads(s, more, u, j, i)
    ensures Worker(u, j, i, q, Looked(k, Base(Trimmed(q.want, have), CALM)), rest, Trimmed(q.want, have))
  {
    LookMoves(t, j, i, q, k, rest, have);
    u := Step(t, Look(j, i));
    more := Extend(s, j, i, es, t, Look(j, i), u);
  }

  lemma {:induction false} TransferAttempt(s: State, j: nat, i: nat, q: Pick, es: seq<Event>, t: State, k: nat,
                                           rest: map<string, nat>, have: Option<nat>, x: Weather, good: bool,
                                           after: nat)
    returns (more: seq<Event>, u: State)
    requires Leads(s, es, t, j, i) && Worker(t, j, i, q, Looked(k, Base(have, CALM)), rest, have) &&
      !Whole(q.want, have)
    requires after == Base(have, x) + x.bytes && (good <==> x.complete && (q.want == 0 || after == q.want))
    ensures Leads(s, more, u, j, i) && Attempted(u, j, i, q, k, rest, good, Some(after))
  {
    more, u := FetchRuns(s, j, i, q, es, t, k, rest, have, x, after);
  }

  lemma {:induction false} NoAddressRuns(s: State, j: nat, i: nat, q: Pick, es: seq<Event>, t: State, k: nat,
                                         rest: map<string, nat>, have: Option<nat>)
    returns (more: seq<Event>, u: State)
    requires Leads(s, es, t, j, i) && Worker(t, j, i, q, Looked(k, Base(have, CALM)), rest, have)
    ensures Leads(s, more, u, j, i) && Attempted(u, j, i, q, k, rest, false, have)
  {
    more, u := QuietRuns(s, j, i, q, es, t, Looked(k, Base(have, CALM)), Url(j, i, false), Again(k), rest, have);
  }

  lemma {:induction false} LookedRuns(s: State, j: nat, i: nat, q: Pick, es: seq<Event>, t: State, k: nat,
                                      rest: map<string, nat>, trimmed: Option<nat>, x: Weather, good: bool,
                                      after: Option<nat>)
    returns (more: seq<Event>, u: State)
    requires Leads(s, es, t, j, i) && Worker(t, j, i, q, Looked(k, Base(trimmed, CALM)), rest, trimmed)
    requires !x.address ==> !good && after == trimmed
    requires x.address && Whole(q.want, trimmed) ==> good && after == trimmed == Some(q.want) && q.want > 0
    requires x.address && !Whole(q.want, trimmed) ==>
      && after == Some(Base(trimmed, x) + x.bytes)
      && (good <==> x.complete && (q.want == 0 || Base(trimmed, x) + x.bytes == q.want))
    ensures Leads(s, more, u, j, i) && Attempted(u, j, i, q, k, rest, good, after)
  {
    if !x.address {
      more, u := NoAddressRuns(s, j, i, q, es, t, k, rest, trimmed);
    } else if Whole(q.want, trimmed) {
      more, u := WholeRuns(s, j, i, q, es, t, k, rest);
    } else {
      more, u := TransferAttempt(s, j, i, q, es, t, k, rest, trimmed, x, good, Base(trimmed, x) + x.bytes);
    }
  }

  lemma {:induction false} AttemptRuns(s: State, j: nat, i: nat, q: Pick, es: seq<Event>, t: State, k: nat,
                                       rest: map<string, nat>, have: Option<nat>, x: Weather)
    returns (more: seq<Event>, u: State)
    requires Leads(s, es, t, j, i) && Worker(t, j, i, q, Publish.Attempt(k), rest, have) && !x.stop
    ensures Leads(s, more, u, j, i)
    ensures Attempted(u, j, i, q, k, rest, Good(q.want, have, x), AfterAttempt(q.want, have, x))
  {
    more, u := LookRuns(s, j, i, q, es, t, k, rest, have);
    AttemptCases(q.want, have, x);
    more, u := LookedRuns(s, j, i, q, more, u, k, rest, Trimmed(q.want, have), x, Good(q.want, have, x),
                          AfterAttempt(q.want, have, x));
  }

  // ---- the whole fetch ----

  lemma {:induction false} StopRuns(s: State, j: nat, i: nat, q: Pick, es: seq<Event>, t: State, k: nat,
                                    rest: map<string, nat>, have: Option<nat>)
    returns (more: seq<Event>, u: State)
    requires Leads(s, es, t, j, i) && Worker(t, j, i, q, Publish.Attempt(k), rest, have)
    ensures Leads(s, more, u, j, i) && u.jobs[j].tasks[i] == Finished(STOP) && Links(u)
    ensures Others(u, q.dest) == rest && Has(u, q.dest) == have
  {
    StopMoves(t, j, i, q, k, rest, have);
    var v := Step(t, Stop(j));
    u := Step(v, Look(j, i));
    RunThen(s, es, Stop(j));
    RunThen(s, es + [Stop(j)], Look(j, i));
    more := es + [Stop(j)] + [Look(j, i)];
    BesideIsAside(t, u, j, i);
  }

  /** The task has ended, and the disk is as the fetch leaves it. */
  ghost predicate Ends(u: State, j: nat, i: nat, q: Pick, before: map<string, nat>, weather: seq<Weather>) {
    && j in u.jobs && i < |u.jobs[j].tasks| && u.jobs[j].tasks[i].Finished? && Links(u)
    && (u.jobs[j].stop ==> u.jobs[j].tasks[i].outcome == STOP)
    && Fetched(q.want, q.dest, before, View(u), weather, u.jobs[j].tasks[i].outcome)
  }

  /** The state at attempt k of a fetch. */
  ghost predicate Trying(t: State, j: nat, i: nat, q: Pick, k: nat, before: map<string, nat>, weather: seq<Weather>) {
    var have := PartIn(before, q.dest);
    && k < |weather| && Reached(q.want, have, weather, k)
    && Worker(t, j, i, q, Publish.Attempt(k), before - {Part(q.dest)}, PartAfter(q.want, have, weather, k))
  }

  lemma {:induction false} WithPartOf(before: map<string, nat>, d: string, have: Option<nat>)
    ensures WithPart(before - {Part(d)}, d, have) == WithPart(before, d, have)
    ensures WithPart(before - {Part(d)}, d, None) == before - {Part(d)}
  {
  }

  lemma {:induction false} StopEnds(s: State, j: nat, i: nat, q: Pick, es: seq<Event>, t: State, k: nat,
                                    before: map<string, nat>, weather: seq<Weather>)
    returns (more: seq<Event>, u: State)
    requires !Skipped(before, q.dest, q.want) && Leads(s, es, t, j, i) && Trying(t, j, i, q, k, before, weather)
    requires weather[k].stop
    ensures Leads(s, more, u, j, i) && Ends(u, j, i, q, before, weather)
  {
    var have := PartAfter(q.want, PartIn(before, q.dest), weather, k);
    more, u := StopRuns(s, j, i, q, es, t, k, before - {Part(q.dest)}, have);
    ViewSplits(u, q.dest);
    WithPartOf(before, q.dest, have);
    assert StopsAt(q.want, q.dest, before, View(u), weather, k);
  }

  lemma {:induction false} PublishedView(u: State, j: nat, i: nat, q: Pick, k: nat, before: map<string, nat>,
                                         weather: seq<Weather>, h: nat)
    requires k < |weather| && !Skipped(before, q.dest, q.want) && !weather[k].stop
    requires Reached(q.want, PartIn(before, q.dest), weather, k) && Verified(q.want, PartIn(before, q.dest), weather, k)
    requires PartAfter(q.want, PartIn(before, q.dest), weather, k + 1) == Some(h)
    requires Worker(u, j, i, q, Finished(OK), (before - {Part(q.dest)})[q.dest := h], None)
    ensures Publishes(q.want, q.dest, before, View(u), weather, k)
  {
    PartDiffers(q.dest);
    ViewSplits(u, q.dest);
    assert View(u) == (before - {Part(q.dest)})[q.dest := h];
  }

  lemma {:induction false} FailedView(u: State, j: nat, i: nat, q: Pick, before: map<string, nat>, after: Option<nat>)
    requires Worker(u, j, i, q, Finished(FAIL), before - {Part(q.dest)}, after)
    ensures View(u) == WithPart(before, q.dest, after)
  {
    ViewSplits(u, q.dest);
    WithPartOf(before, q.dest, after);
  }

  lemma {:induction false} NextTry(u: State, j: nat, i: nat, q: Pick, k: nat, before: map<string, nat>,
                                   weather: seq<Weather>, after: Option<nat>)
    requires k + 1 < |weather| == MAX_TRIES && !weather[k].stop
    requires Reached(q.want, PartIn(before, q.dest), weather, k) &&
      !Verified(q.want, PartIn(before, q.dest), weather, k)
    requires after == PartAfter(q.want, PartIn(before, q.dest), weather, k + 1)
    requires Worker(u, j, i, q, Again(k), before - {Part(q.dest)}, after)
    ensures Trying(u, j, i, q, k + 1, before, weather)
  {
  }

  /** What an attempt left, read as the end of the fetch or the start of the next attempt. */
  lemma {:induction false} Tried(u: State, j: nat, i: nat, q: Pick, k: nat, before: map<string, nat>,
                                 weather: seq<Weather>, have: Option<nat>)
    requires |weather| == MAX_TRIES && k < MAX_TRIES && !Skipped(before, q.dest, q.want) && !weather[k].stop
    requires Reached(q.want, PartIn(before, q.dest), weather, k)
    requires have == PartAfter(q.want, PartIn(before, q.dest), weather, k)
    requires Attempted(u, j, i, q, k, before - {Part(q.dest)}, Good(q.want, have, weather[k]),
      AfterAttempt(q.want, have, weather[k]))
    ensures Ends(u, j, i, q, before, weather) || Trying(u, j, i, q, k + 1, before, weather)
  {
    var after := AfterAttempt(q.want, have, weather[k]);
    assert after == PartAfter(q.want, PartIn(before, q.dest), weather, k + 1);
    if Good(q.want, have, weather[k]) {
      PublishedView(u, j, i, q, k, before, weather, after.value);
    } else if k + 1 == MAX_TRIES {
      FailedView(u, j, i, q, before, after);
    } else {
      NextTry(u, j, i, q, k, before, weather, after);
    }
  }

  lemma {:induction false} AttemptsRun(s: State, j: nat, i: nat, q: Pick, es: seq<Event>, t: State, k: nat,
                                       before: map<string, nat>, weather: seq<Weather>)
    returns (more: seq<Event>, u: State)
    requires |weather| == MAX_TRIES && !Skipped(before, q.dest, q.want)
    requires Leads(s, es, t, j, i) && Trying(t, j, i, q, k, before, weather)
    ensures Leads(s, more, u, j, i) && Ends(u, j, i, q, before, weather)
    decreases MAX_TRIES - k
  {
    if weather[k].stop {
      more, u := StopEnds(s, j, i, q, es, t, k, before, weather);
    } else {
      var have := PartAfter(q.want, PartIn(before, q.dest), weather, k);
      more, u := AttemptRuns(s, j, i, q, es, t, k, before - {Part(q.dest)}, have, weather[k]);
      Tried(u, j, i, q, k, before, weather, have);
      if !Ends(u, j, i, q, before, weather) {
        more, u := AttemptsRun(s, j, i, q, more, u, k + 1, before, weather);
      }
    }
  }

  lemma {:induction false} BeginRuns(s: State, j: nat, i: nat, q: Pick, before: map<string, nat>, weather: seq<Weather>)
    returns (es: seq<Event>, t: State)
    requires Worker(s, j, i, q, Pending, before - {Part(q.dest)}, PartIn(before, q.dest)) && |weather| == MAX_TRIES
    ensures Leads(s, es, t, j, i)
    ensures if Skipped(before, q.dest, q.want) then Ends(t, j, i, q, before, weather)
            else Trying(t, j, i, q, 0, before, weather)
  {
    PartDiffers(q.dest);
    BeginMoves(s, j, i, q, before - {Part(q.dest)}, PartIn(before, q.dest));
    t := Step(s, Begin(j, i));
    es := Extend(s, j, i, [], s, Begin(j, i), t);
    ViewSplits(t, q.dest);
    WithPartOf(before, q.dest, PartIn(before, q.dest));
    WithPartTwice(before, q.dest, None, None);
  }

  /** Whatever the weather, the task steps of one worker end like `fetch` on the same disk: same outcome, same sizes. */
  lemma {:induction false} WorkerIsFetch(s: State, j: nat, i: nat, weather: seq<Weather>)
    returns (es: seq<Event>, u: State)
    requires s.Task(j, i) && s.jobs[j].tasks[i] == Pending && !s.jobs[j].stop && Links(s) && |weather| == MAX_TRIES
    ensures Own(es, j, i) && u == Run(s, es) && Beside(s, u, j, i) && u.jobs[j].tasks[i].Finished? && Links(u)
    ensures u.jobs[j].stop ==> u.jobs[j].tasks[i].outcome == STOP
    ensures Fetched(s.Want(j, i), s.Dest(j, i), View(s), View(u), weather, u.jobs[j].tasks[i].outcome)
  {
    var q, before := s.jobs[j].picks[i], View(s);
    ViewSplits(s, q.dest);
    es, u := BeginRuns(s, j, i, q, before, weather);
    if !Skipped(before, q.dest, q.want) { es, u := AttemptsRun(s, j, i, q, es, u, 0, before, weather); }
    AsideIsBeside(s, u, j, i);
  }
}
