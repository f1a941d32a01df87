/**
 Mission Control's action engine: one unreleased action per system and target, and a memory of
 the running and the most recently finished records.

 Actions finish concurrently. `Finalize` is four separate critical sections, so each is a method
 of its own and any interleaving of them with `StartAction` is a sequence of calls.
 */
module Engine {
  import opened Text
  import opened Options
  import opened Fifo

  const RECORDS_MAX: nat := 500

  datatype Request = Request(system: string, target: string, verb: string)

  datatype Record = Record(id: string, request: Request, command: string, state: string,
                           exitCode: Option<int>, startedAt: int, endedAt: Option<int>)

  /** How far an action has come; the last four are the sub-steps of finalizing it. */
  datatype Phase = Executing | Recorded | Released | Appended | Closed {
    predicate HoldsSlot() { Executing? || Recorded? }
    predicate Persisted() { Appended? || Closed? }
  }

  /** The body of a terminal event. */
  datatype End = End(state: string, exitCode: int)

  datatype ActionState = ActionState(record: Record, phase: Phase, ends: seq<End>)

  function RunKey(system: string, target: string): string {
    system + ['\0'] + target
  }

  function KeyOf(r: Record): string {
    RunKey(r.request.system, r.request.target)
  }

  /** Slots are per system and target, provided system names hold no NUL. */
  lemma RunKeyInjective(s1: string, t1: string, s2: string, t2: string)
    requires '\0' !in s1 && '\0' !in s2
    requires RunKey(s1, t1) == RunKey(s2, t2)
    ensures s1 == s2 && t1 == t2
  {
    FirstSeparatorUnique(s1, s2, '\0', t1, t2);
  }

  /** Two different systems can be given one slot if and only if one's name continues the other's after a NUL. */
  lemma RunKeysCollideIff(s1: string, s2: string)
    requires s1 != s2
    ensures (exists t1, t2 :: RunKey(s1, t1) == RunKey(s2, t2))
       <==> StartsWith(s2, s1 + ['\0']) || StartsWith(s1, s2 + ['\0'])
  {
    if t1, t2 :| RunKey(s1, t1) == RunKey(s2, t2) {
      SharedRunKey(s1, t1, s2, t2);
    }
    if StartsWith(s2, s1 + ['\0']) {
      ContinuedShareARunKey(s1, s2);
    } else if StartsWith(s1, s2 + ['\0']) {
      ContinuedShareARunKey(s2, s1);
    }
  }

  lemma SharedRunKey(s1: string, t1: string, s2: string, t2: string)
    requires s1 != s2 && RunKey(s1, t1) == RunKey(s2, t2)
    ensures StartsWith(s2, s1 + ['\0']) || StartsWith(s1, s2 + ['\0'])
  {
    var key := RunKey(s1, t1);
    assert key[..|s1|] == s1 && key[..|s2|] == s2;
    assert key[..|s1| + 1] == s1 + ['\0'] && key[..|s2| + 1] == s2 + ['\0'];
    if |s1| < |s2| {
      assert s2[..|s1| + 1] == key[..|s1| + 1];
    } else if |s2| < |s1| {
      assert s1[..|s2| + 1] == key[..|s2| + 1];
    }
  }

  lemma ContinuedShareARunKey(s: string, s': string)
    requires StartsWith(s', s + ['\0'])
    ensures RunKey(s, s'[|s| + 1..] + ['\0']) == RunKey(s', "")
  {
    var rest := s'[|s| + 1..];
    assert s' == s + ['\0'] + rest;
  }

  /**
   All action states (each owned by its goroutine), the engine's three collections, and two
   histories: ids in the order they gave up their slot, and records handed to the store.
   */
  datatype State = State(states: map<string, ActionState>, records: set<string>, running: map<string, string>,
                         terminal: seq<string>, released: seq<string>, attempts: seq<Record>)

  function AttemptsOf(attempts: seq<Record>, id: string): nat {
    if attempts == [] then 0
    else
      var n := |attempts| - 1;
      AttemptsOf(attempts[..n], id) + if attempts[n].id == id then 1 else 0
  }

  ghost predicate RecordOk(st: ActionState) {
    && (st.phase.Executing? <==> st.record.state == "running")
    && (st.phase.Executing? <==> st.record.exitCode.None?)
    && (st.phase.Closed? ==> st.ends == [End(st.record.state, st.record.exitCode.value)])
    && (!st.phase.Closed? ==> st.ends == [])
  }

  ghost predicate ActionOk(s: State, id: string)
    requires id in s.states
  {
    var st := s.states[id];
    && st.record.id == id && RecordOk(st)
    && (st.phase.HoldsSlot() ==> KeyOf(st.record) in s.running && s.running[KeyOf(st.record)] == id)
    && (id in s.released <==> !st.phase.HoldsSlot())
    && AttemptsOf(s.attempts, id) == if st.phase.Persisted() then 1 else 0
  }

  ghost predicate SlotOk(s: State, key: string)
    requires key in s.running
  {
    var id := s.running[key];
    id in s.states && s.states[id].phase.HoldsSlot() && KeyOf(s.states[id].record) == key
  }

  ghost predicate AttemptOk(s: State, r: Record) {
    r.id in s.states && s.states[r.id].record == r && s.states[r.id].phase.Persisted()
  }

  ghost predicate Inv(s: State, max: nat) {
    && (forall id <- s.states :: ActionOk(s, id))
    && (forall key <- s.running :: SlotOk(s, key))
    && (forall id <- s.released :: id in s.states) && Distinct(s.released)
    && s.terminal == LastN(s.released, max)
    && (forall id :: id in s.records <==> id in s.states && (s.states[id].phase.HoldsSlot() || id in s.terminal))
    && (forall r <- s.attempts :: AttemptOk(s, r))
  }

  // ---- what the invariant gives ---------------------------------------------------------------

  /** At most one action that has not released its slot, per system and target. */
  lemma OnePerTarget(s: State, max: nat, a: string, b: string)
    requires Inv(s, max) && a in s.states && b in s.states
    requires s.states[a].phase.HoldsSlot() && s.states[b].phase.HoldsSlot()
    requires s.states[a].record.request.system == s.states[b].record.request.system
    requires s.states[a].record.request.target == s.states[b].record.request.target
    ensures a == b
  {
    assert ActionOk(s, a) && ActionOk(s, b);
  }

  /** The record map is the slot holders and the last `max` that finished, nothing else. */
  lemma RecordsAreRunningAndRecent(s: State, max: nat)
    requires Inv(s, max)
    ensures s.records == (set id <- s.states | s.states[id].phase.HoldsSlot()) + (set id <- LastN(s.released, max))
    ensures forall key <- s.running :: s.running[key] in s.records
    ensures forall id <- s.released :: !s.states[id].phase.HoldsSlot()
  {
    forall key <- s.running ensures s.running[key] in s.records {
      assert SlotOk(s, key);
    }
    forall id <- s.released ensures !s.states[id].phase.HoldsSlot() {
      assert ActionOk(s, id);
    }
    forall id <- LastN(s.released, max) ensures id in s.records {
      LastNInside(s.released, max, id);
    }
  }

  /** A finished action was handed to the store once, as it ended, and ended its stream once. */
  lemma FinishedOnce(s: State, max: nat, id: string)
    requires Inv(s, max) && id in s.states && s.states[id].phase.Closed?
    ensures AttemptsOf(s.attempts, id) == 1 && s.states[id].record in s.attempts
    ensures s.states[id].record.exitCode.Some?
    ensures s.states[id].ends == [End(s.states[id].record.state, s.states[id].record.exitCode.value)]
  {
    assert ActionOk(s, id);
    AttemptIsThere(s.attempts, id);
    var r :| r in s.attempts && r.id == id;
    assert AttemptOk(s, r);
  }

  lemma {:induction false} AttemptIsThere(attempts: seq<Record>, id: string)
    requires AttemptsOf(attempts, id) > 0
    ensures exists r <- attempts :: r.id == id
  {
    var n := |attempts| - 1;
    if attempts[n].id != id {
      AttemptIsThere(attempts[..n], id);
    }
  }

  // ---- every step keeps the invariant -----------------------------------------------------------

  ghost function StartedState(s: State, rec: Record): State {
    s.(states := s.states[rec.id := ActionState(rec, Executing, [])],
       records := s.records + {rec.id}, running := s.running[KeyOf(rec) := rec.id])
  }

  lemma {:induction false} NoAttempt(attempts: seq<Record>, id: string)
    requires forall r <- attempts :: r.id != id
    ensures AttemptsOf(attempts, id) == 0
  {
    if attempts != [] {
      NoAttempt(attempts[..|attempts| - 1], id);
    }
  }

  lemma StartKeeps(s: State, max: nat, rec: Record)
    requires Inv(s, max) && rec.id !in s.states && KeyOf(rec) !in s.running
    requires rec.state == "running" && rec.exitCode.None?
    ensures Inv(StartedState(s, rec), max)
  {
    hide KeyOf, AttemptsOf, Distinct, LastN;
    var s' := StartedState(s, rec);
    assert RecordOk(s'.states[rec.id]) && rec.id !in s.released;
    hide RecordOk;
    forall r <- s.attempts ensures r.id != rec.id {
      assert AttemptOk(s, r);
    }
    NoAttempt(s.attempts, rec.id);
    forall id <- s'.states ensures ActionOk(s', id) {
      if id != rec.id {
        assert ActionOk(s, id);
      }
    }
    forall key <- s'.running ensures SlotOk(s', key) {
      if key != KeyOf(rec) {
        assert SlotOk(s, key);
      }
    }
    forall r <- s'.attempts ensures AttemptOk(s', r) {
      assert AttemptOk(s, r);
    }
    TerminalIsKnown(s, max);
  }

  lemma TerminalIsKnown(s: State, max: nat)
    requires Inv(s, max)
    ensures forall id <- s.terminal :: id in s.states
  {
    forall id <- s.terminal ensures id in s.states {
      LastNInside(s.released, max, id);
    }
  }

  ghost function WithState(s: State, id: string, st: ActionState): State {
    s.(states := s.states[id := st])
  }

  /** Progress of one action that touches no collection and no other action. */
  lemma ProgressKeeps(s: State, max: nat, id: string, st: ActionState)
    requires Inv(s, max) && id in s.states && st.record.id == id && RecordOk(st)
    requires KeyOf(st.record) == KeyOf(s.states[id].record)
    requires st.phase.HoldsSlot() == s.states[id].phase.HoldsSlot()
    requires st.phase.Persisted() == s.states[id].phase.Persisted()
    requires st.phase.Persisted() ==> st.record == s.states[id].record
    ensures Inv(WithState(s, id, st), max)
  {
    hide KeyOf, AttemptsOf, RecordOk, Distinct, LastN;
    var s' := WithState(s, id, st);
    assert ActionOk(s, id);
    forall k <- s'.states ensures ActionOk(s', k) {
      assert ActionOk(s, k);
    }
    forall key <- s'.running ensures SlotOk(s', key) {
      assert SlotOk(s, key);
    }
    forall r <- s'.attempts ensures AttemptOk(s', r) {
      assert AttemptOk(s, r);
    }
  }

  lemma SetOutcomeKeeps(s: State, max: nat, id: string, state: string, exit: int, now: int)
    requires Inv(s, max) && id in s.states && s.states[id].phase.Executing? && state in {"succeeded", "failed"}
    ensures var rec := s.states[id].record.(state := state, exitCode := Some(exit), endedAt := Some(now));
      Inv(WithState(s, id, s.states[id].(record := rec, phase := Recorded)), max)
  {
    assert ActionOk(s, id);
    var rec := s.states[id].record.(state := state, exitCode := Some(exit), endedAt := Some(now));
    ProgressKeeps(s, max, id, s.states[id].(record := rec, phase := Recorded));
  }

  lemma CloseKeeps(s: State, max: nat, id: string)
    requires Inv(s, max) && id in s.states && s.states[id].phase.Appended?
    ensures RecordOk(s.states[id])
    ensures var st := s.states[id];
      Inv(WithState(s, id, st.(phase := Closed, ends := st.ends + [End(st.record.state, st.record.exitCode.value)])), max)
  {
    assert ActionOk(s, id);
    var st := s.states[id];
    ProgressKeeps(s, max, id, st.(phase := Closed, ends := st.ends + [End(st.record.state, st.record.exitCode.value)]));
  }

  ghost function AppendedState(s: State, id: string): State
    requires id in s.states
  {
    s.(states := s.states[id := s.states[id].(phase := Appended)], attempts := s.attempts + [s.states[id].record])
  }

  lemma OneMoreAttempt(attempts: seq<Record>, r: Record, id: string)
    ensures AttemptsOf(attempts + [r], id) == AttemptsOf(attempts, id) + if r.id == id then 1 else 0
  {
    assert (attempts + [r])[..|attempts|] == attempts;
  }

  lemma StillRecordOk(st: ActionState)
    requires RecordOk(st) && st.phase.Released?
    ensures RecordOk(st.(phase := Appended))
  {
  }

  lemma AppendKeeps(s: State, max: nat, id: string)
    requires Inv(s, max) && id in s.states && s.states[id].phase.Released?
    ensures Inv(AppendedState(s, id), max)
  {
    hide KeyOf, AttemptsOf, RecordOk, Distinct;
    var s' := AppendedState(s, id);
    assert ActionOk(s, id) && RecordOk(s'.states[id]) by {
      StillRecordOk(s.states[id]);
    }
    forall k <- s'.states ensures ActionOk(s', k) {
      assert ActionOk(s, k);
      OneMoreAttempt(s.attempts, s.states[id].record, k);
    }
    forall key <- s'.running ensures SlotOk(s', key) {
      assert SlotOk(s, key);
    }
    forall r <- s'.attempts ensures AttemptOk(s', r) {
      if r in s.attempts {
        assert AttemptOk(s, r);
      }
    }
  }

  ghost function ReleasedState(s: State, max: nat, id: string): State
    requires id in s.states
  {
    var all := s.terminal + [id];
    var terminal := LastN(all, max);
    var evicted := all[..|all| - |terminal|];
    s.(states := s.states[id := s.states[id].(phase := Released)],
       records := s.records - Ids(evicted), running := s.running - {KeyOf(s.states[id].record)},
       terminal := terminal, released := s.released + [id])
  }

  lemma ReleaseKeepsActions(s: State, max: nat, id: string)
    requires Inv(s, max) && id in s.states && s.states[id].phase.Recorded?
    ensures var s' := ReleasedState(s, max, id);
      && (forall k <- s'.states :: ActionOk(s', k))
      && (forall key <- s'.running :: SlotOk(s', key))
      && (forall r <- s'.attempts :: AttemptOk(s', r))
      && id !in s.released
  {
    hide KeyOf, AttemptsOf;
    var s' := ReleasedState(s, max, id);
    assert ActionOk(s, id);
    forall k <- s'.states ensures ActionOk(s', k) {
      assert ActionOk(s, k);
    }
    forall key <- s'.running ensures SlotOk(s', key) {
      assert SlotOk(s, key);
    }
    forall r <- s'.attempts ensures AttemptOk(s', r) {
      assert AttemptOk(s, r);
    }
  }

  lemma ReleaseKeepsRecords(s: State, max: nat, id: string)
    requires Inv(s, max) && id in s.states && s.states[id].phase.Recorded?
    ensures var s' := ReleasedState(s, max, id);
      && s'.terminal == LastN(s'.released, max)
      && forall k :: k in s'.records <==> k in s'.states && (s'.states[k].phase.HoldsSlot() || k in s'.terminal)
  {
    hide KeyOf, AttemptsOf, RecordOk;
    var s' := ReleasedState(s, max, id);
    LastNAppend(s.released, id, max);
    assert ActionOk(s, id);
    forall k <- s.terminal ensures k in s.states && !s.states[k].phase.HoldsSlot() && k != id {
      LastNInside(s.released, max, k);
      assert ActionOk(s, k);
    }
    LastNDistinct(s.released, max, id);
    EvictSplits(s.terminal + [id], max);
    hide LastN, Distinct;
  }

  lemma ReleaseKeeps(s: State, max: nat, id: string)
    requires Inv(s, max) && id in s.states && s.states[id].phase.Recorded?
    ensures Inv(ReleasedState(s, max, id), max)
  {
    ReleaseKeepsActions(s, max, id);
    ReleaseKeepsRecords(s, max, id);
    hide KeyOf, AttemptsOf, RecordOk, ActionOk, SlotOk, AttemptOk, LastN;
  }

  lemma SlotTaken(s: State, max: nat, key: string)
    requires Inv(s, max) && key in s.running
    ensures SlotOk(s, key)
  {
  }

  lemma SlotFree(s: State, max: nat, key: string)
    requires Inv(s, max) && key !in s.running
    ensures forall id <- s.states :: s.states[id].phase.HoldsSlot() ==> KeyOf(s.states[id].record) != key
  {
    forall id <- s.states ensures s.states[id].phase.HoldsSlot() ==> KeyOf(s.states[id].record) != key {
      assert ActionOk(s, id);
    }
  }

  // ---- the engine -----------------------------------------------------------------------------

  datatype Resolved = Command(text: string) | Rejected(status: int, msg: string)

  datatype Outcome = Started(record: Record) | Conflict(runningId: string) | Refused(status: int, msg: string)

  class Engine {
    var states: map<string, ActionState>
    var records: set<string>
    var running: map<string, string>
    var terminal: seq<string>
    const recordsMax: nat
    ghost var released: seq<string>
    ghost var attempts: seq<Record>

    ghost function Now(): State
      reads this
    {
      State(states, records, running, terminal, released, attempts)
    }

    ghost predicate Valid()
      reads this
    {
      Inv(Now(), recordsMax)
    }

    constructor (recordsMax: nat)
      ensures Valid() && states == map[] && this.recordsMax == recordsMax
    {
      this.recordsMax := recordsMax;
      states, records, running, terminal := map[], {}, map[], [];
      released, attempts := [], [];
    }

    /** Resolve, claim the slot of the system and target, and register a running record. */
    method StartAction(req: Request, resolved: Resolved, newId: string, now: int) returns (o: Outcome)
      requires Valid() && newId !in states
      modifies this
      ensures Valid()
      ensures o.Refused? <==> resolved.Rejected?
      ensures o.Conflict? ==> o.runningId in states && states[o.runningId].phase.HoldsSlot()
      ensures o.Conflict? ==> KeyOf(states[o.runningId].record) == RunKey(req.system, req.target)
      ensures !o.Started? ==> Now() == old(Now())
      ensures o.Started? ==> o.record == Record(newId, req, resolved.text, "running", None, now, None)
      ensures o.Started? ==> states == old(states)[newId := ActionState(o.record, Executing, [])]
      ensures o.Started? ==> forall id <- old(states) ::
        old(states)[id].phase.HoldsSlot() ==> KeyOf(old(states)[id].record) != RunKey(req.system, req.target)
    {
      hide Inv, RunKey;
      if resolved.Rejected? {
        return Refused(resolved.status, resolved.msg);
      }
      var key := RunKey(req.system, req.target);
      if key in running {
        SlotTaken(Now(), recordsMax, key);
        return Conflict(running[key]);
      }
      var rec := Record(newId, req, resolved.text, "running", None, now, None);
      SlotFree(Now(), recordsMax, key);
      StartKeeps(Now(), recordsMax, rec);
      states := states[newId := ActionState(rec, Executing, [])];
      records := records + {newId};
      running := running[key := newId];
      return Started(rec);
    }

    /** First step of finalizing: the terminal state goes into the record. */
    method SetOutcome(id: string, state: string, exit: int, now: int)
      requires Valid() && id in states && states[id].phase.Executing? && state in {"succeeded", "failed"}
      modifies this`states
      ensures Valid()
      ensures var rec := old(states)[id].record.(state := state, exitCode := Some(exit), endedAt := Some(now));
        states == old(states)[id := old(states)[id].(record := rec, phase := Recorded)]
    {
      hide Inv;
      SetOutcomeKeeps(Now(), recordsMax, id, state, exit, now);
      var rec := states[id].record.(state := state, exitCode := Some(exit), endedAt := Some(now));
      states := states[id := states[id].(record := rec, phase := Recorded)];
    }

    method Evict()
      modifies this`records, this`terminal
      ensures terminal == LastN(old(terminal), recordsMax)
      ensures records == old(records) - Ids(old(terminal)[..|old(terminal)| - |terminal|])
    {
      ghost var all := terminal;
      while |terminal| > recordsMax
        invariant |terminal| <= |all| && terminal == all[|all| - |terminal|..]
        invariant |terminal| >= |LastN(all, recordsMax)|
        invariant records == old(records) - Ids(all[..|all| - |terminal|])
      {
        ghost var cut := |all| - |terminal|;
        assert all[..cut + 1] == all[..cut] + [terminal[0]];
        records := records - {terminal[0]};
        terminal := terminal[1..];
      }
    }

    /** Second step: free the slot and evict the oldest finished records beyond the cap. */
    method Release(id: string)
      requires Valid() && id in states && states[id].phase.Recorded?
      modifies this`states, this`records, this`running, this`terminal, this`released
      ensures Valid()
      ensures states == old(states)[id := old(states)[id].(phase := Released)]
      ensures running == old(running) - {KeyOf(states[id].record)} && released == old(released) + [id]
    {
      hide Inv, KeyOf;
      ghost var s := Now();
      ReleaseKeeps(s, recordsMax, id);
      running := running - {KeyOf(states[id].record)};
      terminal := terminal + [id];
      Evict();
      states := states[id := states[id].(phase := Released)];
      released := released + [id];
    }

    /** Third step: one attempt to persist the record, whether or not the store takes it. */
    method AppendToStore(id: string)
      requires Valid() && id in states && states[id].phase.Released?
      modifies this`states, this`attempts
      ensures Valid()
      ensures states == old(states)[id := old(states)[id].(phase := Appended)]
      ensures attempts == old(attempts) + [states[id].record]
    {
      hide Inv;
      AppendKeeps(Now(), recordsMax, id);
      attempts := attempts + [states[id].record];
      states := states[id := states[id].(phase := Appended)];
    }

    /** Last step: the stream's terminal event. */
    method CloseBroker(id: string)
      requires Valid() && id in states && states[id].phase.Appended?
      modifies this`states
      ensures Valid()
      ensures states.Keys == old(states).Keys && states[id].phase.Closed?
      ensures states[id].record == old(states)[id].record
      ensures forall k <- states :: k != id ==> states[k] == old(states)[k]
    {
      hide Inv;
      CloseKeeps(Now(), recordsMax, id);
      var st := states[id];
      states := states[id := st.(phase := Closed, ends := st.ends + [End(st.record.state, st.record.exitCode.value)])];
    }

    /** The four steps in a row: the id leaves its slot and stays known until `recordsMax` more have finished. */
    method Finalize(id: string, state: string, exit: int, now: int)
      requires Valid() && id in states && states[id].phase.Executing? && state in {"succeeded", "failed"}
      modifies this
      ensures Valid() && id in states && states[id].phase.Closed?
      ensures states[id].record == old(states)[id].record.(state := state, exitCode := Some(exit), endedAt := Some(now))
      ensures states[id].ends == [End(state, exit)] && AttemptsOf(attempts, id) == 1
      ensures RunKey(old(states)[id].record.request.system, old(states)[id].record.request.target) !in running
    {
      hide Inv, AttemptsOf;
      SetOutcome(id, state, exit, now);
      Release(id);
      AppendToStore(id);
      CloseBroker(id);
      FinishedOnce(Now(), recordsMax, id);
    }

    method Lookup(id: string) returns (r: Option<ActionState>)
      requires Valid()
      ensures r.Some? <==> id in states && (states[id].phase.HoldsSlot() || id in LastN(released, recordsMax))
      ensures r.Some? ==> r.value == states[id]
    {
      if id in records {
        return Some(states[id]);
      }
      return None;
    }
  }
}
