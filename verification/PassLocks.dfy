/** Pass locks: a kernel lock per lock file, and a count of its holders inside each process. */
module PassLocks {

  /** One lock file as one process sees it: a key of that process's `_HELD`. */
  datatype Slot = Slot(pid: nat, path: string)

  /** The kernel's owner of each lock file, and every process's counts. */
  datatype Tables = Tables(owner: map<string, nat>, counts: map<Slot, nat>) {
    function Count(slot: Slot): nat {
      if slot in counts then counts[slot] else 0
    }

    predicate Owns(slot: Slot) {
      slot.path in owner && owner[slot.path] == slot.pid
    }
  }

  /** What one call leaves: the tables, and the lock object's own `held`. */
  datatype After = After(tables: Tables, held: nat)

  function Acquired(t: Tables, slot: Slot, held: nat): After {
    if slot in t.counts then
      After(t.(counts := t.counts[slot := t.counts[slot] + 1]), t.counts[slot] + 1)
    else if slot.path in t.owner then
      After(t, held)
    else
      After(Tables(t.owner[slot.path := slot.pid], t.counts[slot := 1]), 1)
  }

  function Released(t: Tables, slot: Slot, held: nat): After {
    if held == 0 || slot !in t.counts then
      After(t, 0)
    else if t.counts[slot] > 1 then
      After(t.(counts := t.counts[slot := t.counts[slot] - 1]), 0)
    else
      After(Tables(t.owner - {slot.path}, t.counts - {slot}), 0)
  }

  class Machine {
    var tables: Tables

    constructor ()
      ensures tables == Tables(map[], map[])
    {
      tables := Tables(map[], map[]);
    }
  }

  class PassLock {
    const machine: Machine
    const slot: Slot
    var held: nat

    constructor (machine: Machine, slot: Slot)
      ensures this.machine == machine && this.slot == slot && held == 0
    {
      this.machine, this.slot, held := machine, slot, 0;
    }

    /** `acquire`: count up inside the process, or take the kernel lock, or refuse. */
    method Acquire() returns (ok: bool)
      modifies this`held, machine`tables
      ensures After(machine.tables, held) == Acquired(old(machine.tables), slot, old(held))
      ensures ok <==> slot in old(machine.tables).counts || slot.path !in old(machine.tables).owner
    {
      var t := machine.tables;
      if slot in t.counts {
        machine.tables := t.(counts := t.counts[slot := t.counts[slot] + 1]);
        held := machine.tables.counts[slot];
        return true;
      }
      if slot.path in t.owner { return false; }
      machine.tables := Tables(t.owner[slot.path := slot.pid], t.counts[slot := 1]);
      held := 1;
      return true;
    }

    /** `release`: count down, and let the kernel lock go with the last holder. */
    method Release()
      modifies this`held, machine`tables
      ensures After(machine.tables, held) == Released(old(machine.tables), slot, old(held))
    {
      if held == 0 { return; }
      held := 0;
      var t := machine.tables;
      if slot !in t.counts { return; }
      if t.counts[slot] > 1 {
        machine.tables := t.(counts := t.counts[slot := t.counts[slot] - 1]);
        return;
      }
      machine.tables := Tables(t.owner - {slot.path}, t.counts - {slot});
    }
  }

  // ---- every interleaving of every process ----

  datatype Lock = Lock(slot: Slot, held: nat)

  datatype State = State(tables: Tables, locks: map<nat, Lock>) {
    /** The lock objects that hold this slot. */
    function Live(slot: Slot): set<nat> {
      set id | id in locks && locks[id].slot == slot && locks[id].held > 0
    }
  }

  datatype Event =
    | Create(id: nat, slot: Slot)
    | Acquire(id: nat)
    | Release(id: nat)
    | Kill(pid: nat)

  predicate Enabled(s: State, e: Event) {
    match e
    case Create(id, _) => id !in s.locks
    case Acquire(id) => id in s.locks
    case Release(id) => id in s.locks
    case Kill(_) => true
  }

  /** The kernel closes a dead process's files; its counts and its lock objects die with it. */
  function Killed(s: State, pid: nat): State {
    State(Tables(map p | p in s.tables.owner && s.tables.owner[p] != pid :: s.tables.owner[p],
                 map k | k in s.tables.counts && k.pid != pid :: s.tables.counts[k]),
          map id | id in s.locks && s.locks[id].slot.pid != pid :: s.locks[id])
  }

  function Put(s: State, id: nat, after: After): State
    requires id in s.locks
  {
    State(after.tables, s.locks[id := Lock(s.locks[id].slot, after.held)])
  }

  function Step(s: State, e: Event): State
    requires Enabled(s, e)
  {
    match e
    case Create(id, slot) => s.(locks := s.locks[id := Lock(slot, 0)])
    case Acquire(id) => Put(s, id, Acquired(s.tables, s.locks[id].slot, s.locks[id].held))
    case Release(id) => Put(s, id, Released(s.tables, s.locks[id].slot, s.locks[id].held))
    case Kill(pid) => Killed(s, pid)
  }

  /** The states a list of events passes through; an event that is not possible is skipped. */
  function Run(s: State, events: seq<Event>): State {
    if events == [] then s
    else
      var before := Run(s, events[..|events| - 1]);
      var e := events[|events| - 1];
      if Enabled(before, e) then Step(before, e) else before
  }

  const INITIAL := State(Tables(map[], map[]), map[])

  /** A lock object is acquired only while it holds nothing. */
  predicate Disciplined(s: State, e: Event) {
    e.Acquire? && e.id in s.locks ==> s.locks[e.id].held == 0
  }

  ghost predicate DisciplinedRun(s: State, events: seq<Event>) {
    forall i {:trigger events[i]} :: 0 <= i < |events| ==> Disciplined(Run(s, events[..i]), events[i])
  }

  /** A slot's count is backed by the kernel lock. */
  ghost predicate Backed(t: Tables, slot: Slot) {
    && (slot in t.counts ==> t.counts[slot] > 0)
    && (slot in t.counts <==> t.Owns(slot))
  }

  /** Kept by every run: counts are backed, and no object holds without being counted. */
  ghost predicate Safe(s: State) {
    forall slot :: Backed(s.tables, slot) && |s.Live(slot)| <= s.tables.Count(slot)
  }

  /** Kept by disciplined runs: the count is exactly the number of holders. */
  ghost predicate Exact(s: State) {
    forall slot :: Backed(s.tables, slot) && s.tables.Count(slot) == |s.Live(slot)|
  }

  // ---- what one step does to one slot ----

  lemma {:induction false} LivePut(s: State, id: nat, held: nat, tables: Tables, slot: Slot)
    requires id in s.locks
    ensures Put(s, id, After(tables, held)).Live(slot) ==
            if s.locks[id].slot != slot then s.Live(slot)
            else if held > 0 then s.Live(slot) + {id} else s.Live(slot) - {id}
  {
  }

  /** An acquire refuses, or adds one to the count of its own slot and leaves every other slot alone. */
  lemma {:induction false} AcquireCounts(s: State, id: nat, slot: Slot)
    requires id in s.locks && Backed(s.tables, slot) && Backed(s.tables, s.locks[id].slot)
    ensures var after := Step(s, Acquire(id));
      && Backed(after.tables, slot)
      && (s.locks[id].slot != slot ==>
        after.tables.Count(slot) == s.tables.Count(slot) && after.Live(slot) == s.Live(slot))
      && (s.locks[id].slot == slot ==>
        || (after == s && s.Live(slot) == after.Live(slot))
        || (after.tables.Count(slot) == s.tables.Count(slot) + 1 && after.Live(slot) == s.Live(slot) + {id}))
  {
    var mine := s.locks[id].slot;
    var a := Acquired(s.tables, mine, s.locks[id].held);
    LivePut(s, id, a.held, a.tables, slot);
    if a.tables == s.tables { assert s.locks[id := Lock(mine, a.held)] == s.locks; }
  }

  /** A release of a holder takes one off the count of its slot; a release of another object does nothing. */
  lemma {:induction false} ReleaseCounts(s: State, id: nat, slot: Slot)
    requires id in s.locks && Backed(s.tables, slot) && Backed(s.tables, s.locks[id].slot)
    ensures var after := Step(s, Release(id));
      && Backed(after.tables, slot)
      && after.Live(slot) == s.Live(slot) - {id}
      && after.tables.Count(slot) ==
         if id in s.Live(slot) && slot in s.tables.counts then s.tables.Count(slot) - 1 else s.tables.Count(slot)
  {
    var mine := s.locks[id].slot;
    var a := Released(s.tables, mine, s.locks[id].held);
    LivePut(s, id, a.held, a.tables, slot);
  }

  lemma {:induction false} KillCounts(s: State, pid: nat, slot: Slot)
    requires Backed(s.tables, slot)
    ensures var after := Killed(s, pid);
      && Backed(after.tables, slot)
      && after.tables.Count(slot) == (if slot.pid == pid then 0 else s.tables.Count(slot))
      && after.Live(slot) == (if slot.pid == pid then {} else s.Live(slot))
  {
  }

  lemma {:induction false} CreateCounts(s: State, id: nat, made: Slot, slot: Slot)
    requires id !in s.locks
    ensures Step(s, Create(id, made)).Live(slot) == s.Live(slot)
  {
  }

  /** One step and one slot: what stays backed, and how count and holders move together. */
  lemma {:induction false} StepCounts(s: State, e: Event, slot: Slot)
    requires Safe(s) && Enabled(s, e)
    ensures var after := Step(s, e);
      && Backed(after.tables, slot)
      && |after.Live(slot)| <= after.tables.Count(slot)
      && (s.tables.Count(slot) > |s.Live(slot)| && e != Kill(slot.pid) ==>
        after.tables.Count(slot) > |after.Live(slot)|)
      && (s.tables.Count(slot) == |s.Live(slot)| && Disciplined(s, e) ==>
        after.tables.Count(slot) == |after.Live(slot)|)
  {
    assert Backed(s.tables, slot);
    match e
    case Create(id, made) => CreateCounts(s, id, made, slot);
    case Acquire(id) =>
      assert Backed(s.tables, s.locks[id].slot);
      AcquireCounts(s, id, slot);
    case Release(id) =>
      assert Backed(s.tables, s.locks[id].slot);
      ReleaseCounts(s, id, slot);
    case Kill(pid) => KillCounts(s, pid, slot);
  }

  lemma {:induction false} StepIsSafe(s: State, e: Event)
    requires Safe(s) && Enabled(s, e)
    ensures Safe(Step(s, e))
  {
    forall slot ensures Backed(Step(s, e).tables, slot) && |Step(s, e).Live(slot)| <= Step(s, e).tables.Count(slot) {
      StepCounts(s, e, slot);
    }
  }

  /** An acquire by an object that already holds is counted, but nothing will ever give it back. */
  lemma {:induction false} SecondAcquireLeaks(s: State, id: nat)
    requires Safe(s) && id in s.locks && s.locks[id].held > 0
    ensures var after := Step(s, Acquire(id));
      after.tables.Count(s.locks[id].slot) > |after.Live(s.locks[id].slot)|
  {
    var slot := s.locks[id].slot;
    assert Backed(s.tables, slot) && |s.Live(slot)| <= s.tables.Count(slot);
    assert id in s.Live(slot);
    AcquireCounts(s, id, slot);
    assert s.Live(slot) + {id} == s.Live(slot);
    assert |s.Live(slot)| > 0;
  }

  // ---- whole runs ----

  lemma {:induction false} RunIsSafe(events: seq<Event>)
    ensures Safe(Run(INITIAL, events))
  {
    if events == [] {
      forall slot ensures Backed(INITIAL.tables, slot) && |INITIAL.Live(slot)| <= INITIAL.tables.Count(slot) {
        assert INITIAL.Live(slot) == {};
      }
    } else {
      var before := events[..|events| - 1];
      RunIsSafe(before);
      if Enabled(Run(INITIAL, before), events[|events| - 1]) {
        StepIsSafe(Run(INITIAL, before), events[|events| - 1]);
      }
    }
  }

  /** In every run, whatever its calls, two objects that hold one lock file are in one process, which owns it. */
  lemma {:induction false} HoldersShareAProcess(events: seq<Event>, id: nat, other: nat)
    requires var s := Run(INITIAL, events);
      && id in s.locks && other in s.locks && s.locks[id].held > 0 && s.locks[other].held > 0
      && s.locks[id].slot.path == s.locks[other].slot.path
    ensures var s := Run(INITIAL, events);
      s.locks[id].slot.pid == s.locks[other].slot.pid && s.tables.Owns(s.locks[id].slot)
  {
    var s := Run(INITIAL, events);
    RunIsSafe(events);
    HolderOwns(s, id);
    HolderOwns(s, other);
  }

  lemma {:induction false} HolderOwns(s: State, id: nat)
    requires Safe(s) && id in s.locks && s.locks[id].held > 0
    ensures s.tables.Owns(s.locks[id].slot)
  {
    var slot := s.locks[id].slot;
    assert id in s.Live(slot);
    assert |s.Live(slot)| <= s.tables.Count(slot);
    assert Backed(s.tables, slot);
  }

  /** A disciplined run keeps every count equal to the number of holders, so the kernel lock goes with the last. */
  lemma {:induction false} DisciplineIsExact(events: seq<Event>)
    requires DisciplinedRun(INITIAL, events)
    ensures Exact(Run(INITIAL, events))
  {
    if events == [] {
      forall slot ensures Backed(INITIAL.tables, slot) && INITIAL.tables.Count(slot) == |INITIAL.Live(slot)| {
        assert INITIAL.Live(slot) == {};
      }
    } else {
      var n := |events| - 1;
      var before := events[..n];
      forall i | 0 <= i < n ensures Disciplined(Run(INITIAL, before[..i]), before[i]) {
        assert before[..i] == events[..i] && events[i] == before[i];
      }
      DisciplineIsExact(before);
      RunIsSafe(before);
      var s := Run(INITIAL, before);
      if Enabled(s, events[n]) {
        forall slot ensures Backed(Step(s, events[n]).tables, slot)
          ensures Step(s, events[n]).tables.Count(slot) == |Step(s, events[n]).Live(slot)|
        {
          assert Backed(s.tables, slot) && s.tables.Count(slot) == |s.Live(slot)|;
          StepCounts(s, events[n], slot);
        }
      }
    }
  }

  /** The kernel lock is owned exactly while some object of the owning process holds. */
  lemma {:induction false} OwnedWhileHeld(events: seq<Event>, slot: Slot)
    requires DisciplinedRun(INITIAL, events)
    ensures var s := Run(INITIAL, events);
      s.tables.Owns(slot) <==> s.Live(slot) != {}
  {
    DisciplineIsExact(events);
    var s := Run(INITIAL, events);
    assert Backed(s.tables, slot) && s.tables.Count(slot) == |s.Live(slot)|;
    assert |s.Live(slot)| == 0 <==> s.Live(slot) == {};
  }

  /** A leaked count outlives every later call: only the death of the process frees the lock file. */
  lemma {:induction false} LeakIsForever(events: seq<Event>, more: seq<Event>, slot: Slot)
    requires var s := Run(INITIAL, events); s.tables.Count(slot) > |s.Live(slot)|
    requires Kill(slot.pid) !in more
    ensures var s := Run(INITIAL, events + more);
      s.tables.Count(slot) > |s.Live(slot)| && s.tables.Owns(slot)
  {
    RunIsSafe(events + more);
    if more == [] {
      assert events + more == events;
    } else {
      var n := |more| - 1;
      LeakIsForever(events, more[..n], slot);
      assert (events + more)[..|events + more| - 1] == events + more[..n];
      var s := Run(INITIAL, events + more[..n]);
      RunIsSafe(events + more[..n]);
      assert more[n] in more;
      if Enabled(s, more[n]) { StepCounts(s, more[n], slot); }
    }
    assert Backed(Run(INITIAL, events + more).tables, slot);
  }

  lemma {:induction false} UndisciplinedLeaks(events: seq<Event>, i: nat)
    requires i < |events| && !Disciplined(Run(INITIAL, events[..i]), events[i])
    requires forall e :: e in events ==> !e.Kill?
    ensures !Exact(Run(INITIAL, events))
  {
    var s := Run(INITIAL, events[..i]);
    RunIsSafe(events[..i]);
    var slot := s.locks[events[i].id].slot;
    SecondAcquireLeaks(s, events[i].id);
    assert events[..i + 1][..i] == events[..i];
    var rest := events[i + 1..];
    assert forall e :: e in rest ==> e in events;
    LeakIsForever(events[..i + 1], rest, slot);
    assert events[..i + 1] + rest == events;
    var last := Run(INITIAL, events);
    assert last.tables.Count(slot) != |last.Live(slot)|;
  }

  /** Without deaths, counts stay exact if and only if no object was acquired while it held. */
  lemma {:induction false} ExactIffDisciplined(events: seq<Event>)
    requires forall e :: e in events ==> !e.Kill?
    ensures Exact(Run(INITIAL, events)) <==> DisciplinedRun(INITIAL, events)
  {
    if DisciplinedRun(INITIAL, events) {
      DisciplineIsExact(events);
    } else {
      var i :| 0 <= i < |events| && !Disciplined(Run(INITIAL, events[..i]), events[i]);
      UndisciplinedLeaks(events, i);
    }
  }

  // ---- when an acquire succeeds ----

  /** In every reachable state an object that holds nothing gets the lock exactly when no other process has it; it is
      then counted, and the kernel lock is its process's. A refused acquire changes nothing. */
  lemma {:induction false} AcquireIff(events: seq<Event>, id: nat)
    requires var s := Run(INITIAL, events); id in s.locks && s.locks[id].held == 0
    ensures var s := Run(INITIAL, events);
      var slot, t := s.locks[id].slot, Step(s, Acquire(id));
      if slot.path in s.tables.owner && s.tables.owner[slot.path] != slot.pid then t == s
      else
        && t.tables.Owns(slot) && t.tables.Count(slot) == s.tables.Count(slot) + 1
        && t.locks[id].held == t.tables.Count(slot)
  {
    RunIsSafe(events);
    var s := Run(INITIAL, events);
    var slot := s.locks[id].slot;
    assert Backed(s.tables, slot);
    assert s.locks == s.locks[id := Lock(slot, 0)];
  }

  lemma {:induction false} RunNext(s: State, events: seq<Event>, e: Event)
    ensures Run(s, events + [e]) ==
      if Enabled(Run(s, events), e) then Step(Run(s, events), e) else Run(s, events)
  {
    assert (events + [e])[..|events|] == events;
  }

  /** Two processes and one lock file: the second is refused while the first holds it, and served afterwards. */
  lemma {:induction false} TwoProcesses(path: string)
    ensures var made := [Create(0, Slot(1, path)), Create(1, Slot(2, path))];
      var first := Run(INITIAL, made + [Acquire(0)] + [Acquire(1)]);
      var second := Run(INITIAL, made + [Acquire(0)] + [Acquire(1)] + [Release(0)] + [Acquire(1)]);
      && 0 in first.locks && 1 in first.locks && first.locks[0].held == 1 && first.locks[1].held == 0
      && 0 in second.locks && 1 in second.locks && second.locks[0].held == 0 && second.locks[1].held == 1
  {
    var made := [Create(0, Slot(1, path))] + [Create(1, Slot(2, path))];
    RunNext(INITIAL, [], Create(0, Slot(1, path)));
    assert [] + [Create(0, Slot(1, path))] == [Create(0, Slot(1, path))];
    RunNext(INITIAL, [Create(0, Slot(1, path))], Create(1, Slot(2, path)));
    assert made == [Create(0, Slot(1, path)), Create(1, Slot(2, path))];
    RunNext(INITIAL, made, Acquire(0));
    RunNext(INITIAL, made + [Acquire(0)], Acquire(1));
    RunNext(INITIAL, made + [Acquire(0)] + [Acquire(1)], Release(0));
    RunNext(INITIAL, made + [Acquire(0)] + [Acquire(1)] + [Release(0)], Acquire(1));
  }
}
