/** `fetch` as one worker runs it, and the task steps of the publish job as runs of it. */
module Fetches {
  import opened Basics
  import opened Publish

  /** What one attempt meets: the stop flag, the address lookup, the bytes that arrive, how the transfer ends. */
  datatype Weather = Weather(stop: bool, address: bool, refused: bool, bytes: nat, complete: bool)

  /** A partial file longer than the whole is removed at the top of an attempt. */
  function Trimmed(want: nat, have: Option<nat>): Option<nat> {
    if want > 0 && have.Some? && have.value > want then None else have
  }

  function Whole(want: nat, have: Option<nat>): bool {
    want > 0 && have.Some? && have.value >= want
  }

  /** The partial file one attempt leaves. */
  function AfterAttempt(want: nat, have: Option<nat>, x: Weather): Option<nat> {
    var h := Trimmed(want, have);
    if !x.address || Whole(want, h) then h
    else Some((if h.Some? && !x.refused then h.value else 0) + x.bytes)
  }

  /** The partial file the first k attempts leave. */
  function PartAfter(want: nat, have: Option<nat>, weather: seq<Weather>, k: nat): Option<nat>
    requires k <= |weather|
  {
    if k == 0 then have else AfterAttempt(want, PartAfter(want, have, weather, k - 1), weather[k - 1])
  }

  /** Attempt k ends in a verified transfer. */
  predicate Verified(want: nat, have: Option<nat>, weather: seq<Weather>, k: nat)
    requires k < |weather|
  {
    && weather[k].address
    && (Whole(want, Trimmed(want, PartAfter(want, have, weather, k))) || weather[k].complete)
    && (want > 0 ==> PartAfter(want, have, weather, k + 1) == Some(want))
  }

  /** Attempt k is reached: no earlier one was verified, and the stop flag was never seen. */
  ghost predicate Reached(want: nat, have: Option<nat>, weather: seq<Weather>, k: nat)
    requires k <= |weather|
  {
    forall j :: 0 <= j < k ==> !weather[j].stop && !Verified(want, have, weather, j)
  }

  /** The sizes on disk with this partial file, or without one. */
  function WithPart(sizes: map<string, nat>, dest: string, have: Option<nat>): map<string, nat> {
    if have.Some? then sizes[Part(dest) := have.value] else sizes - {Part(dest)}
  }

  function PartIn(sizes: map<string, nat>, dest: string): Option<nat> {
    if Part(dest) in sizes then Some(sizes[Part(dest)]) else None
  }

  predicate Skipped(sizes: map<string, nat>, dest: string, want: nat) {
    dest in sizes && sizes[dest] == want
  }

  /** Attempt k is reached and publishes what its transfer left. */
  ghost predicate Publishes(want: nat, dest: string, before: map<string, nat>, after: map<string, nat>,
                            weather: seq<Weather>, k: nat)
  {
    var have := PartIn(before, dest);
    && k < |weather| && Reached(want, have, weather, k) && !weather[k].stop && Verified(want, have, weather, k)
    && PartAfter(want, have, weather, k + 1).Some?
    && after == (before - {Part(dest)})[dest := PartAfter(want, have, weather, k + 1).value]
  }

  /** The stop flag is first seen before attempt k. */
  ghost predicate StopsAt(want: nat, dest: string, before: map<string, nat>, after: map<string, nat>,
                          weather: seq<Weather>, k: nat)
  {
    var have := PartIn(before, dest);
    && k < |weather| && Reached(want, have, weather, k) && weather[k].stop
    && after == WithPart(before, dest, PartAfter(want, have, weather, k))
  }

  /** How a fetch ends, and the sizes on disk after it. */
  ghost predicate Fetched(want: nat, dest: string, before: map<string, nat>, after: map<string, nat>,
                          weather: seq<Weather>, state: Outcome)
  {
    if Skipped(before, dest, want) then state == SKIP && after == before
    else
      match state
      case SKIP => false
      case OK => exists k :: Publishes(want, dest, before, after, weather, k)
      case STOP => exists k :: StopsAt(want, dest, before, after, weather, k)
      case FAIL =>
        && Reached(want, PartIn(before, dest), weather, |weather|)
        && after == WithPart(before, dest, PartAfter(want, PartIn(before, dest), weather, |weather|))
  }

  /** The weather decides how a fetch ends. */
  lemma {:induction false} FetchedDecides(want: nat, dest: string, before: map<string, nat>, weather: seq<Weather>,
                                          a: map<string, nat>, x: Outcome, b: map<string, nat>, y: Outcome)
    requires Fetched(want, dest, before, a, weather, x) && Fetched(want, dest, before, b, weather, y)
    ensures x == y && a == b
  {
  }

  lemma {:induction false} WithPartTwice(sizes: map<string, nat>, dest: string, a: Option<nat>, b: Option<nat>)
    ensures WithPart(WithPart(sizes, dest, a), dest, b) == WithPart(sizes, dest, b)
    ensures PartIn(WithPart(sizes, dest, a), dest) == a
    ensures WithPart(sizes, dest, PartIn(sizes, dest)) == sizes
    ensures WithPart(sizes, dest, a) - {Part(dest)} == sizes - {Part(dest)}
  {
  }

  lemma {:induction false} PartDiffers(dest: string)
    ensures Part(dest) != dest
  {
    assert |Part(dest)| == |dest| + 5;
  }

  class Library {
    var sizes: map<string, nat>

    constructor (sizes: map<string, nat>)
      ensures this.sizes == sizes
    {
      this.sizes := sizes;
    }

    /** `pcloud.transfer`: resume, or start over when the resume is refused. */
    method Transfer(part: string, x: Weather) returns (ok: bool)
      modifies this`sizes
      ensures ok == x.complete
      ensures sizes == old(sizes)[part :=
        (if part in old(sizes) && !x.refused then old(sizes)[part] else 0) + x.bytes]
    {
      var have := if part in sizes && !x.refused then sizes[part] else 0;
      sizes := sizes[part := have + x.bytes];
      ok := x.complete;
    }

    /** One attempt of `fetch`, up to the size test. */
    method Attempt(dest: string, want: nat, x: Weather) returns (landed: bool)
      modifies this`sizes
      ensures var have := PartIn(old(sizes), dest);
        && sizes == WithPart(old(sizes), dest, AfterAttempt(want, have, x))
        && landed == (x.address && (Whole(want, Trimmed(want, have)) || x.complete))
      ensures landed ==> Part(dest) in sizes
    {
      var part := Part(dest);
      WithPartTwice(sizes, dest, Trimmed(want, PartIn(sizes, dest)), AfterAttempt(want, PartIn(sizes, dest), x));
      var have := if part in sizes then sizes[part] else 0;
      if want > 0 && have > want {
        sizes := sizes - {part};
        have := 0;
      }
      if !x.address { return false; }
      landed := true;
      if !(want > 0 && have >= want) { landed := Transfer(part, x); }
    }

    /** `fetch`: at most MAX_TRIES attempts; published by the first verified one, at the expected size. */
    method Fetch(dest: string, want: nat, weather: seq<Weather>) returns (state: Outcome)
      requires |weather| == MAX_TRIES
      modifies this`sizes
      ensures Fetched(want, dest, old(sizes), sizes, weather, state)
      ensures state == OK ==> Part(dest) !in sizes && dest in sizes && (want > 0 ==> sizes[dest] == want)
      ensures forall n :: n != dest && n != Part(dest) ==>
        (n in sizes <==> n in old(sizes)) && (n in sizes ==> sizes[n] == old(sizes)[n])
    {
      var part := Part(dest);
      ghost var before, have := sizes, PartIn(sizes, dest);
      PartDiffers(dest);
      if dest in sizes && sizes[dest] == want { return SKIP; }
      WithPartTwice(sizes, dest, have, have);
      for attempt := 0 to MAX_TRIES
        invariant Reached(want, have, weather, attempt)
        invariant sizes == WithPart(before, dest, PartAfter(want, have, weather, attempt))
      {
        if weather[attempt].stop {
          assert StopsAt(want, dest, before, sizes, weather, attempt);
          return STOP;
        }
        ghost var now, next := PartAfter(want, have, weather, attempt), PartAfter(want, have, weather, attempt + 1);
        WithPartTwice(before, dest, now, next);
        WithPartTwice(before, dest, next, next);
        var landed := Attempt(dest, want, weather[attempt]);
        if landed && (want == 0 || sizes[part] == want) {
          sizes := sizes[dest := sizes[part]] - {part};
          assert Publishes(want, dest, before, sizes, weather, attempt);
          return OK;
        }
      }
      return FAIL;
    }
  }
}
