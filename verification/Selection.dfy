/** The model selection: two files that must agree, and a switch that rolls back. */
module Selection {
  import opened Basics

  datatype Pair = Pair(model: string, preset: string)

  const UNSET := "(unset)"
  const CAPACITY := "capacity"

  /** The config, the plain model record, and the JSON record that is authoritative when the two agree. */
  datatype Files = Files(config: Option<string>, state: Option<string>, record: Option<Pair>)

  datatype Selected = Chosen(pair: Pair) | Disagree

  function Model(f: Files): string {
    if f.state.Some? then f.state.value else UNSET
  }

  /** `selection`. */
  function Selection(f: Files): Selected {
    if f.record.None? then Chosen(Pair(Model(f), CAPACITY))
    else if f.record.value.model == Model(f) then Chosen(f.record.value)
    else Disagree
  }

  /** A pair is chosen unless there are a record and a plain file, or none, that name different models. */
  lemma {:induction false} ChosenIff(f: Files, p: Pair)
    ensures Selection(f) == Chosen(p) <==>
      if f.record.Some? then f.record == Some(p) && (f.state == Some(p.model) || (f.state == None && p.model == UNSET))
      else p.preset == CAPACITY && (f.state == Some(p.model) || (f.state == None && p.model == UNSET))
  {
  }

  // ---- save_selection and its crash points ----

  /** The files a crash inside `save_selection` may leave: nothing, the first, or both replaced. */
  function Saved(f: Files, p: Pair, done: nat): Files
    requires done <= 2
  {
    Files(f.config, if done >= 1 then Some(p.model) else f.state, if done >= 2 then Some(p) else f.record)
  }

  /** With agreeing files to start from, a crash gives the old pair, the new pair or an error, if and only if
      the JSON record was there, or the half-written pair happens to be one of the two. */
  lemma {:induction false} CrashWhileSaving(f: Files, p: Pair, before: Pair)
    requires Selection(f) == Chosen(before)
    ensures Selection(Saved(f, p, 0)) == Chosen(before) && Selection(Saved(f, p, 2)) == Chosen(p)
    ensures (Selection(Saved(f, p, 1)) in {Chosen(before), Chosen(p), Disagree}) <==>
            (f.record.Some? || p.preset == CAPACITY || p.model == before.model)
    ensures f.record.Some? && p.model != before.model ==> Selection(Saved(f, p, 1)) == Disagree
  {
    var mid := Selection(Saved(f, p, 1));
    if f.record.None? {
      assert mid == Chosen(Pair(p.model, CAPACITY)) && before.preset == CAPACITY;
    } else if f.record.value.model == p.model {
      assert mid == Chosen(before);
    }
  }

  /** A pair nobody chose: the JSON record is missing and the crash falls between the two writes. */
  lemma {:induction false} MissingRecordMixes()
    ensures var f := Files(None, Some("muse"), None);
      var mid := Selection(Saved(f, Pair("qwen", "long"), 1));
      mid == Chosen(Pair("qwen", CAPACITY)) && mid != Selection(f) && mid != Chosen(Pair("qwen", "long"))
  {
  }

  /** Each file on its own is from the old pair or the new one. */
  ghost predicate FromEither(f: Files, before: Pair, after: Pair) {
    Model(f) in {before.model, after.model} && f.record in {Some(before), Some(after)}
  }

  /** However old and new writes are interleaved, no third pair can be read. */
  lemma {:induction false} NoThirdPair(f: Files, before: Pair, after: Pair)
    requires FromEither(f, before, after)
    ensures Selection(f) in {Chosen(before), Chosen(after), Disagree}
  {
  }

  // ---- the switch ----

  /** One step of the forward path or of the rollback. */
  datatype Act =
    | StopService
    | WriteConfig(text: string)
    | WriteState(model: string)
    | WriteRecord(pair: Pair)
    | RestartService
    | Warm
    | Resume

  /** A failing step: before its effect, or after it. */
  datatype Failure = NoFailure | Fails(step: nat, late: bool)

  datatype Gate = GateOk | Refused | DrainFails(drained: bool) | Busy

  datatype Outcome = Switched | RolledBack | LeftBroken | NotTried

  class Controller {
    var files: Files
    var loaded: Option<string>
    var drained: bool
    /** Every state the files have been in: what a crash may leave. */
    ghost var seen: set<Files>

    constructor (files: Files, loaded: Option<string>)
      ensures this.files == files && this.loaded == loaded && !drained && seen == {files}
    {
      this.files, this.loaded, this.drained, this.seen := files, loaded, false, {files};
    }

    /** One step, unless it is the one that fails. */
    method Do(act: Act, step: nat, failure: Failure) returns (ok: bool)
      modifies this
      ensures ok <==> failure == NoFailure || failure.step != step
      ensures files == (if ok || failure.late then Wrote(old(files), act) else old(files))
      ensures seen == old(seen) + {files}
      ensures ok ==> loaded == Serving(old(files), act, old(loaded))
      ensures ok ==> drained == (old(drained) && !act.Resume?)
      ensures !ok ==> drained == old(drained) || !drained
    {
      ok := failure == NoFailure || failure.step != step;
      if ok || failure.late {
        match act
        case StopService => loaded := None;
        case RestartService => loaded := files.config;
        case Resume => drained := false;
        case _ => files := Wrote(files, act);
      }
      seen := seen + {files};
    }

    /** `save_selection`, as steps step and step + 1. */
    method SaveSelection(p: Pair, step: nat, failure: Failure) returns (ok: bool)
      modifies this
      ensures ok <==> failure == NoFailure || (failure.step != step && failure.step != step + 1)
      ensures ok ==> files == Saved(old(files), p, 2) && loaded == old(loaded) && drained == old(drained)
      ensures files in {old(files), Saved(old(files), p, 1), Saved(old(files), p, 2)}
      ensures seen <= old(seen) + {old(files), Saved(old(files), p, 1), Saved(old(files), p, 2)}
    {
      ok := Do(WriteState(p.model), step, failure);
      if !ok { return; }
      ok := Do(WriteRecord(p), step + 1, failure);
    }

    /** The body of the `try`: stop, replace config and selection, restart, warm, save again, resume. */
    method Forward(text: string, p: Pair, failure: Failure, ghost before: Pair) returns (ok: bool)
      modifies this
      ensures ok <==> failure == NoFailure || failure.step >= 9
      ensures ok ==> files == Files(Some(text), Some(p.model), Some(p)) && loaded == Some(text) && !drained
      ensures FromEither(old(files), before, p) ==>
        FromEither(files, before, p) && forall f :: f in seen ==> f in old(seen) || FromEither(f, before, p)
    {
      ok := Do(StopService, 0, failure);
      if !ok { return; }
      ok := Do(WriteConfig(text), 1, failure);
      if !ok { return; }
      ok := SaveSelection(p, 2, failure);
      if !ok { return; }
      ok := Do(RestartService, 4, failure);
      if !ok { return; }
      ok := Do(Warm, 5, failure);
      if !ok { return; }
      ok := SaveSelection(p, 6, failure);
      if !ok { return; }
      ok := Do(Resume, 8, failure);
    }

    /** The handler: the previous config and selection put back, and the service restarted on them. */
    method Rollback(text: string, p: Pair, warmable: bool, failure: Failure, ghost after: Pair) returns (ok: bool)
      modifies this
      ensures failure == NoFailure || failure.step >= 8 ==> ok
      ensures ok ==> files == Files(Some(text), Some(p.model), Some(p)) && loaded == Some(text) && !drained
      ensures FromEither(old(files), p, after) ==>
        forall f :: f in seen ==> f in old(seen) || FromEither(f, p, after)
    {
      ok := Do(WriteConfig(text), 0, failure);
      if !ok { return; }
      ok := SaveSelection(p, 1, failure);
      if !ok { return; }
      ok := Do(RestartService, 3, failure);
      if !ok { return; }
      if warmable {
        ok := Do(Warm, 4, failure);
        if !ok { return; }
      }
      ok := SaveSelection(p, 5, failure);
      if !ok { return; }
      ok := Do(Resume, 7, failure);
    }

    /** `switch`: the checks, then all of the new selection or all of the old one. */
    method Switch(p: Pair, text: Option<string>, gate: Gate, warmable: bool, failure: Failure, undo: Failure)
      returns (outcome: Outcome)
      requires !drained
      modifies this
      ensures outcome == NotTried <==> Selection(old(files)) == Disagree || text.None? || gate != GateOk
      ensures outcome == NotTried ==> files == old(files) && loaded == old(loaded)
      ensures outcome == NotTried ==>
        (drained <==> Selection(old(files)) != Disagree && text.Some? && (gate == Busy || gate == DrainFails(true)))
      ensures outcome == Switched ==> failure == NoFailure || failure.step >= 9
      ensures outcome == Switched ==>
        files.config == text && Selection(files) == Chosen(p) && loaded == text && !drained
      ensures outcome == RolledBack ==>
        && files.config == old(files).config && Selection(files) == Selection(old(files))
        && loaded == files.config && !drained
      ensures outcome == RolledBack ==> failure != NoFailure && failure.step < 9 && old(files).config.Some?
      ensures outcome == LeftBroken ==>
        (failure != NoFailure && failure.step < 9) && (old(files).config.None? || (undo != NoFailure && undo.step < 8))
      ensures old(files).record.Some? ==>
        forall f :: f in seen ==>
          f in old(seen) || Selection(f) in {Selection(old(files)), Chosen(p), Disagree}
    {
      var previous := files.config;
      var chosen := Selection(files);
      if chosen == Disagree || text.None? || gate == Refused { return NotTried; }
      drained := gate != DrainFails(false);
      if gate != GateOk { return NotTried; }
      ghost var either := FromEither(files, chosen.pair, p);
      var ok := Forward(text.value, p, failure, chosen.pair);
      if ok {
        outcome := Switched;
      } else if previous.None? {
        outcome := LeftBroken;
      } else {
        var back := Rollback(previous.value, chosen.pair, warmable, undo, p);
        outcome := if back then RolledBack else LeftBroken;
      }
      forall f | f in seen && f !in old(seen) && either
        ensures Selection(f) in {Chosen(chosen.pair), Chosen(p), Disagree}
      {
        NoThirdPair(f, chosen.pair, p);
      }
    }
  }

  /** What the service runs after a step. */
  function Serving(f: Files, act: Act, loaded: Option<string>): Option<string> {
    if act.StopService? then None else if act.RestartService? then f.config else loaded
  }

  /** `atomic`: a file is replaced whole. */
  function Wrote(f: Files, act: Act): Files {
    match act
    case WriteConfig(text) => f.(config := Some(text))
    case WriteState(model) => f.(state := Some(model))
    case WriteRecord(pair) => f.(record := Some(pair))
    case _ => f
  }
}
