/**
 The worker side of task delivery as one state machine.

 Every message copy that has ever existed keeps its index in `copies`; what changes is where
 it is: queued, held unacknowledged by some worker (in a phase of the per-delivery protocol),
 parked in a wait queue, dead-lettered, or gone. Any number of workers act in any order, and
 a worker may crash, lose its connection or see a publish fail between any two steps.
 */
module Delivery {
  import opened Options
  import opened Retry
  import opened Idempotency

  const QUEUE := "document-processing"
  const PREFIX: string := QUEUE + ".retry."

  /** A message body: not JSON at all, or an envelope with its id and its document's id. */
  datatype Body = Garbled | Task(id: string, document: string)

  /** How the handler ended: returned, returned a "failed" status, or raised. */
  datatype Outcome = Completed | ReturnedFailed | Unretryable | Retryable

  /** Where a delivery stands between being handed to a worker and being acknowledged. */
  datatype Phase =
    | Delivered
    | Acquired                // the guard admitted it; the handler has not been called yet
    | Running(run: nat)
    | Handled(run: nat)       // the handler is done; its follow-up publish is due
    | ResultDue(run: nat)     // dead-lettered; the failed task.result is due
    | AckDue

  datatype Place = Queued | InFlight(phase: Phase) | Waiting(tier: nat) | DeadLettered | Gone

  datatype Copy = Copy(body: Body, headers: Headers, place: Place)

  /** One call of the handler, and which of its follow-ups have been published. */
  datatype Run = Run(id: string, attempt: int, outcome: Option<Outcome>,
                     retried: bool, dead: Option<nat>, reported: bool)

  /** A published task.result. */
  datatype Result = Result(id: string, document: string, completed: bool, run: nat)

  datatype State = State(copies: seq<Copy>, guard: Table, now: int, runs: seq<Run>,
                         results: seq<Result>, faults: nat, failOpens: nat, abandoned: set<string>)

  const INITIAL := State([], map[], 0, [], [], 0, 0, {})

  /** A publish is confirmed, is lost, or takes effect without its confirm being seen. */
  datatype Verdict = Confirmed | Lost | Unconfirmed

  datatype Action =
    | Publish(body: Body, headers: Headers)
    | Tick(d: nat)
    | Deliver(c: nat)
    | RejectGarbled(c: nat, verdict: Verdict)
    | Guard(c: nat, infraError: bool)
    | Start(c: nat)
    | Finish(c: nat, outcome: Outcome)
    | FollowUp(c: nat, verdict: Verdict)
    | Ack(c: nat)
    | Redeliver(c: nat)       // crash, connection loss or nack: back to the queue
    | Expire(c: nat)

  // ---- the decisions the consumer takes --------------------------------------

  function Attempt(h: Headers): int {
    DeathCount(h, PREFIX)
  }

  function Key(id: string, attempt: int): string {
    KeyForAttempt(QUEUE, id, attempt)
  }

  datatype Follow = ToRetry(tier: nat) | ToDeadLetter | ToResults(completed: bool)

  /** What a finished handler call is followed by. */
  function Route(o: Outcome, attempt: int): Follow {
    match o
    case Completed => ToResults(true)
    case ReturnedFailed => ToResults(false)
    case Unretryable => ToDeadLetter
    case Retryable =>
      if SelectTier(attempt).None? then ToDeadLetter
      else ToRetry(if attempt < 0 then 0 else attempt)
  }

  // ---- transitions ------------------------------------------------------------

  function Moved(s: State, c: nat, place: Place): State
    requires c < |s.copies|
  {
    s.(copies := s.copies[c := s.copies[c].(place := place)])
  }

  /** Between the guard's admission and the effect of the last follow-up publish. */
  predicate Unfinished(phase: Phase) {
    phase != Delivered && phase != AckDue
  }

  /** Back to the queue; an envelope requeued with its attempt unfinished is abandoned. */
  function Requeued(s: State, c: nat, unfinished: bool): State
    requires c < |s.copies|
  {
    var body := s.copies[c].body;
    Moved(s, c, Queued).(
      faults := s.faults + 1,
      abandoned := s.abandoned + if unfinished && body.Task? then {body.id} else {})
  }

  function WithRun(s: State, r: nat, run: Run): State
    requires r < |s.runs|
  {
    s.(runs := s.runs[r := run])
  }

  /** The effect of a follow-up publish, apart from the publisher's own progress. */
  function Published(s: State, c: nat, r: nat, f: Follow): State
    requires c < |s.copies| && r < |s.runs|
    requires s.copies[c].body.Task?
  {
    var m := s.copies[c];
    match f
    case ToRetry(t) =>
      WithRun(s, r, s.runs[r].(retried := true)).(copies := s.copies + [m.(place := Waiting(t))])
    case ToDeadLetter =>
      WithRun(s, r, s.runs[r].(dead := Some(|s.copies|))).(copies := s.copies + [m.(place := DeadLettered)])
    case ToResults(ok) =>
      WithRun(s, r, s.runs[r].(reported := true)).(
        results := s.results + [Result(m.body.id, m.body.document, ok, r)])
  }

  /** Carries the verdict of a publish: go on, requeue, or both take effect and requeue. */
  function AfterPublish(before: State, published: State, c: nat, verdict: Verdict, next: Phase): State
    requires c < |before.copies| && c < |published.copies|
  {
    match verdict
    case Confirmed => Moved(published, c, InFlight(next))
    case Lost => Requeued(before, c, true)
    case Unconfirmed => Requeued(published, c, Unfinished(next))
  }

  predicate PhaseIs(s: State, c: nat, phase: Phase) {
    c < |s.copies| && s.copies[c].place == InFlight(phase)
  }

  function RunIn(phase: Phase): Option<nat> {
    match phase
    case Running(r) => Some(r)
    case Handled(r) => Some(r)
    case ResultDue(r) => Some(r)
    case _ => None
  }

  function RunHeld(p: Place): Option<nat> {
    if p.InFlight? then RunIn(p.phase) else None
  }

  ghost predicate Enabled(s: State, a: Action) {
    match a
    case Publish(body, headers) => OnRung(headers, PREFIX, 0)
    case Tick(d) => true
    case Deliver(c) => c < |s.copies| && s.copies[c].place.Queued?
    case RejectGarbled(c, v) => PhaseIs(s, c, Delivered) && s.copies[c].body.Garbled?
    case Guard(c, e) => PhaseIs(s, c, Delivered) && s.copies[c].body.Task?
    case Start(c) => PhaseIs(s, c, Acquired) && s.copies[c].body.Task?
    case Finish(c, o) =>
      && c < |s.copies| && s.copies[c].place.InFlight? && s.copies[c].place.phase.Running?
      && s.copies[c].place.phase.run < |s.runs|
    case FollowUp(c, v) =>
      && c < |s.copies| && s.copies[c].place.InFlight? && s.copies[c].body.Task?
      && var p := s.copies[c].place.phase;
         || (p.Handled? && p.run < |s.runs| && s.runs[p.run].outcome.Some?)
         || (p.ResultDue? && p.run < |s.runs|)
    case Ack(c) => PhaseIs(s, c, AckDue)
    case Redeliver(c) => c < |s.copies| && s.copies[c].place.InFlight?
    case Expire(c) => c < |s.copies| && s.copies[c].place.Waiting? && s.copies[c].place.tier < MAX_RETRIES
  }

  function Next(s: State, a: Action): State
    requires Enabled(s, a)
  {
    match a
    case Publish(body, headers) => s.(copies := s.copies + [Copy(body, headers, Queued)])
    case Tick(d) => s.(now := s.now + d)
    case Deliver(c) => Moved(s, c, InFlight(Delivered))
    case RejectGarbled(c, v) =>
      var dead := s.copies[c].(place := DeadLettered);
      AfterPublish(s, s.(copies := s.copies + [dead]), c, v, AckDue)
    case Guard(c, infraError) => AfterGuard(s, c, infraError)
    case Start(c) =>
      var m := s.copies[c];
      Moved(s, c, InFlight(Running(|s.runs|))).(
        runs := s.runs + [Run(m.body.id, Attempt(m.headers), None, false, None, false)])
    case Finish(c, o) =>
      var r := s.copies[c].place.phase.run;
      WithRun(Moved(s, c, InFlight(Handled(r))), r, s.runs[r].(outcome := Some(o)))
    case FollowUp(c, v) => AfterFollowUp(s, c, v)
    case Ack(c) => Moved(s, c, Gone)
    case Redeliver(c) => Requeued(s, c, Unfinished(s.copies[c].place.phase))
    case Expire(c) =>
      var m := s.copies[c];
      s.(copies := s.copies[c := m.(headers := OnExpiry(m.headers, WaitQueue(PREFIX, m.place.tier)),
                                    place := Queued)])
  }

  /** An id-less envelope skips the guard; a guard error fails open; a held key is a duplicate. */
  function AfterGuard(s: State, c: nat, infraError: bool): State
    requires c < |s.copies| && s.copies[c].body.Task?
  {
    var m := s.copies[c];
    var key := Key(m.body.id, Attempt(m.headers));
    if m.body.id == "" then Moved(s, c, InFlight(Acquired))
    else if infraError then Moved(s, c, InFlight(Acquired)).(failOpens := s.failOpens + 1)
    else
      Moved(s, c, InFlight(if Held(s.guard, key, s.now) then AckDue else Acquired)).(
        guard := AfterBegin(s.guard, key, DEFAULT_TTL_SECONDS, s.now))
  }

  /** The publish that copy `c` owes: the routed one, or the failed result after a dead letter. */
  function Owed(s: State, c: nat): Follow
    requires c < |s.copies| && s.copies[c].place.InFlight?
    requires var p := s.copies[c].place.phase;
             p.ResultDue? || (p.Handled? && p.run < |s.runs| && s.runs[p.run].outcome.Some?)
  {
    var p := s.copies[c].place.phase;
    if p.Handled? then Route(s.runs[p.run].outcome.value, Attempt(s.copies[c].headers)) else ToResults(false)
  }

  function PhaseAfter(r: nat, f: Follow): Phase {
    if f.ToDeadLetter? then ResultDue(r) else AckDue
  }

  function AfterFollowUp(s: State, c: nat, v: Verdict): State
    requires Enabled(s, FollowUp(c, v))
  {
    var r := s.copies[c].place.phase.run;
    var f := Owed(s, c);
    AfterPublish(s, Published(s, c, r, f), c, v, PhaseAfter(r, f))
  }

  // ---- runs of the machine ------------------------------------------------------

  ghost predicate Step(s: State, s': State) {
    exists a :: Enabled(s, a) && s' == Next(s, a)
  }

  /** A finite run from the empty system. */
  ghost predicate IsRun(ss: seq<State>) {
    && |ss| > 0 && ss[0] == INITIAL
    && forall i :: 0 <= i < |ss| - 1 ==> Step(ss[i], ss[i + 1])
  }

  /** The guard has never failed and no key it holds can have lapsed yet. */
  ghost predicate GuardReliable(s: State) {
    s.failOpens == 0 && s.now < DEFAULT_TTL_SECONDS
  }
}
