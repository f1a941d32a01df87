/**
 What holds in every run of the delivery protocol, crashes and lost publishes included.
 */
module DeliverySafety {
  import opened Options
  import opened Retry
  import opened Idempotency
  import opened Delivery

  // ---- the invariant ------------------------------------------------------------

  ghost predicate Live(p: Place) {
    p.Queued? || p.InFlight? || p.Waiting?
  }

  /** Some call of the handler for (id, attempt) has had its retry published. */
  ghost predicate HasRetried(runs: seq<Run>, id: string, attempt: int) {
    exists r :: 0 <= r < |runs| && runs[r].id == id && runs[r].attempt == attempt && runs[r].retried
  }

  /** The handler calls that end in the dead-letter queue: unretryable, or retryable after the last tier. */
  ghost predicate IsPoison(o: Outcome, attempt: int) {
    o.Unretryable? || (o.Retryable? && attempt >= MAX_RETRIES)
  }

  /** What a phase says about the handler call it belongs to. */
  ghost predicate PhaseOk(m: Copy, phase: Phase, runs: seq<Run>) {
    && (phase != Delivered && phase != AckDue ==> m.body.Task?)
    && match RunIn(phase)
       case None => true
       case Some(r) =>
         && r < |runs| && runs[r].id == m.body.id && runs[r].attempt == Attempt(m.headers)
         && !runs[r].retried && !runs[r].reported
         && (phase.Running? ==> runs[r].outcome.None? && runs[r].dead.None?)
         && (phase.Handled? ==> runs[r].outcome.Some? && runs[r].dead.None?)
         && (phase.ResultDue? ==> runs[r].outcome.Some? && runs[r].dead.Some?)
  }

  ghost predicate CopyOk(m: Copy, runs: seq<Run>) {
    var a := Attempt(m.headers);
    && 0 <= a && OnRung(m.headers, PREFIX, a)
    && (m.place.Waiting? ==> m.body.Task? && m.place.tier == a < MAX_RETRIES && HasRetried(runs, m.body.id, a))
    && (m.body.Task? && a > 0 && Live(m.place) ==> HasRetried(runs, m.body.id, a - 1))
    && (m.place.InFlight? ==> PhaseOk(m, m.place.phase, runs))
  }

  ghost predicate RunOk(run: Run, runs: seq<Run>, copies: seq<Copy>) {
    && 0 <= run.attempt <= MAX_RETRIES
    && (run.attempt > 0 ==> HasRetried(runs, run.id, run.attempt - 1))
    && (run.retried ==> run.outcome == Some(Retryable) && run.attempt < MAX_RETRIES && !run.reported)
    && (run.reported ==>
          && run.outcome.Some? && !Route(run.outcome.value, run.attempt).ToRetry?
          && (IsPoison(run.outcome.value, run.attempt) ==> run.dead.Some?))
    && (run.dead.Some? ==>
          && run.outcome.Some? && IsPoison(run.outcome.value, run.attempt) && !run.retried
          && run.dead.value < |copies| && copies[run.dead.value].place.DeadLettered?
          && copies[run.dead.value].body.Task? && copies[run.dead.value].body.id == run.id
          && Attempt(copies[run.dead.value].headers) == run.attempt)
  }

  ghost predicate ResultOk(x: Result, runs: seq<Run>) {
    && x.run < |runs| && runs[x.run].reported && runs[x.run].id == x.id
    && runs[x.run].outcome.Some? && (x.completed <==> runs[x.run].outcome.value == Completed)
  }

  /** Shape of copies, handler calls and results, in every reachable state. */
  ghost predicate Shape(s: State) {
    && (forall c :: 0 <= c < |s.copies| ==> CopyOk(s.copies[c], s.runs))
    && (forall r :: 0 <= r < |s.runs| ==> RunOk(s.runs[r], s.runs, s.copies))
    && (forall j :: 0 <= j < |s.results| ==> ResultOk(s.results[j], s.runs))
  }

  /** No handler call is worked on by two deliveries, dead-lettered twice, or reported twice. */
  ghost predicate Exclusive(s: State) {
    && (forall c, d :: 0 <= c < d < |s.copies| && RunHeld(s.copies[c].place).Some? ==>
          RunHeld(s.copies[c].place) != RunHeld(s.copies[d].place))
    && (forall i, j :: 0 <= i < j < |s.results| ==> s.results[i].run != s.results[j].run)
    && (forall c :: 0 <= c < |s.copies| && s.copies[c].place.DeadLettered? && s.copies[c].body.Task? ==>
          exists r :: 0 <= r < |s.runs| && s.runs[r].dead == Some(c))
  }

  /** The (id, attempt) a copy has been admitted for and not yet handed to the handler. */
  ghost function AdmittedFor(m: Copy): Option<(string, int)> {
    if m.place == InFlight(Acquired) && m.body.Task? && m.body.id != "" then
      Some((m.body.id, Attempt(m.headers)))
    else None
  }

  ghost predicate HasRun(runs: seq<Run>, id: string, attempt: int) {
    exists r :: 0 <= r < |runs| && runs[r].id == id && runs[r].attempt == attempt
  }

  /** While the guard is reliable it admits each (id, attempt) once, and still holds its key. */
  ghost predicate Admission(s: State) {
    && (forall k <- s.guard :: s.guard[k] >= DEFAULT_TTL_SECONDS)
    && (forall r :: 0 <= r < |s.runs| && s.runs[r].id != "" ==>
          Key(s.runs[r].id, s.runs[r].attempt) in s.guard)
    && (forall c :: 0 <= c < |s.copies| && AdmittedFor(s.copies[c]).Some? ==>
          var (id, a) := AdmittedFor(s.copies[c]).value;
          Key(id, a) in s.guard && !HasRun(s.runs, id, a))
    && (forall c, d :: 0 <= c < d < |s.copies| && AdmittedFor(s.copies[c]).Some? ==>
          AdmittedFor(s.copies[c]) != AdmittedFor(s.copies[d]))
    && (forall q, r :: 0 <= q < r < |s.runs| && s.runs[q].id == s.runs[r].id != "" ==>
          s.runs[q].attempt != s.runs[r].attempt)
  }

  ghost predicate Safe(s: State) {
    && s.now >= 0
    && Shape(s)
    && Exclusive(s)
    && (GuardReliable(s) ==> Admission(s))
  }

  // ---- it is kept by every step ---------------------------------------------------

  /** Runs only grow: ids and attempts stay, and a published retry stays published. */
  ghost predicate Extends(runs: seq<Run>, runs': seq<Run>) {
    && |runs| <= |runs'|
    && forall r :: 0 <= r < |runs| ==>
         && runs[r].id == runs'[r].id && runs[r].attempt == runs'[r].attempt
         && (runs[r].retried ==> runs'[r].retried)
  }

  lemma RetriedStays(runs: seq<Run>, runs': seq<Run>)
    requires Extends(runs, runs')
    ensures forall id, a :: HasRetried(runs, id, a) ==> HasRetried(runs', id, a)
  {
  }

  lemma CopyStays(m: Copy, runs: seq<Run>, runs': seq<Run>)
    requires CopyOk(m, runs) && Extends(runs, runs')
    requires RunHeld(m.place).Some? ==> runs'[RunHeld(m.place).value] == runs[RunHeld(m.place).value]
    ensures CopyOk(m, runs')
  {
  }

  /** Dead-lettered copies stay where they are and what they are. */
  ghost predicate DeadStay(copies: seq<Copy>, copies': seq<Copy>) {
    && |copies| <= |copies'|
    && forall c :: 0 <= c < |copies| && copies[c].place.DeadLettered? ==> copies'[c] == copies[c]
  }

  lemma RunStays(run: Run, runs: seq<Run>, runs': seq<Run>, copies: seq<Copy>, copies': seq<Copy>)
    requires RunOk(run, runs, copies) && Extends(runs, runs') && DeadStay(copies, copies')
    ensures RunOk(run, runs', copies')
  {
  }

  /** A step that touches copy `c` and handler call `r` only, and may append. */
  ghost predicate Touches(s: State, s': State, c: nat, r: nat) {
    && |s.copies| <= |s'.copies| && |s.runs| <= |s'.runs| && |s.results| <= |s'.results|
    && (forall d :: 0 <= d < |s.copies| && d != c ==> s'.copies[d] == s.copies[d])
    && (forall q :: 0 <= q < |s.runs| && q != r ==> s'.runs[q] == s.runs[q])
    && (forall j :: 0 <= j < |s.results| ==> s'.results[j] == s.results[j])
    && (c < |s.copies| ==> !s.copies[c].place.DeadLettered?)
    && (r < |s.runs| ==>
          && c < |s.copies| && RunHeld(s.copies[c].place) == Some(r)
          && s'.runs[r].id == s.runs[r].id && s'.runs[r].attempt == s.runs[r].attempt)
  }

  lemma ShapeFrame(s: State, s': State, c: nat, r: nat)
    requires Shape(s) && Exclusive(s) && Touches(s, s', c, r)
    requires forall d :: 0 <= d < |s'.copies| && (d == c || |s.copies| <= d) ==> CopyOk(s'.copies[d], s'.runs)
    requires forall q :: 0 <= q < |s'.runs| && (q == r || |s.runs| <= q) ==> RunOk(s'.runs[q], s'.runs, s'.copies)
    requires forall j :: |s.results| <= j < |s'.results| ==> ResultOk(s'.results[j], s'.runs)
    ensures Shape(s')
  {
    if r < |s.runs| {
      assert CopyOk(s.copies[c], s.runs);
    }
    assert Extends(s.runs, s'.runs);
    forall d | 0 <= d < |s'.copies| ensures CopyOk(s'.copies[d], s'.runs) {
      if d != c && d < |s.copies| {
        CopyStays(s.copies[d], s.runs, s'.runs);
      }
    }
    forall q | 0 <= q < |s'.runs| ensures RunOk(s'.runs[q], s'.runs, s'.copies) {
      if q != r && q < |s.runs| {
        RunStays(s.runs[q], s.runs, s'.runs, s.copies, s'.copies);
      }
    }
    forall j | 0 <= j < |s'.results| ensures ResultOk(s'.results[j], s'.runs) {
      if j < |s.results| {
        assert ResultOk(s.results[j], s.runs);
      }
    }
  }

  /** The copy an action works on; publishing and the clock touch none. */
  function Subject(a: Action): Option<nat> {
    match a
    case Publish(_, _) => None
    case Tick(_) => None
    case Deliver(c) => Some(c)
    case RejectGarbled(c, _) => Some(c)
    case Guard(c, _) => Some(c)
    case Start(c) => Some(c)
    case Finish(c, _) => Some(c)
    case FollowUp(c, _) => Some(c)
    case Ack(c) => Some(c)
    case Redeliver(c) => Some(c)
    case Expire(c) => Some(c)
  }

  lemma ShapeKeptPublish(s: State, a: Action)
    requires Shape(s) && Exclusive(s) && Enabled(s, a) && (a.Publish? || a.Tick?)
    ensures Shape(Next(s, a))
  {
    hide DeathCount;
    if a.Publish? {
      RungIsCount(a.headers, PREFIX, 0);
    }
    ShapeFrame(s, Next(s, a), |s.copies|, |s.runs|);
  }

  lemma ShapeKeptSimple(s: State, a: Action)
    requires Shape(s) && Exclusive(s) && Enabled(s, a)
    requires a.Deliver? || a.Guard? || a.Ack? || a.Redeliver?
    ensures Shape(Next(s, a))
  {
    hide Attempt, OnRung, KeyForAttempt;
    var s' := Next(s, a);
    var c := Subject(a).value;
    assert CopyOk(s.copies[c], s.runs);
    assert CopyOk(s'.copies[c], s'.runs);
    ShapeFrame(s, s', c, |s.runs|);
  }

  lemma ShapeKeptReject(s: State, a: Action)
    requires Shape(s) && Exclusive(s) && Enabled(s, a) && a.RejectGarbled?
    ensures Shape(Next(s, a))
  {
    hide Attempt, OnRung;
    var s' := Next(s, a);
    assert CopyOk(s.copies[a.c], s.runs);
    assert CopyOk(s'.copies[a.c], s'.runs);
    ShapeFrame(s, s', a.c, |s.runs|);
  }

  lemma ShapeKeptStart(s: State, a: Action)
    requires Shape(s) && Exclusive(s) && Enabled(s, a) && a.Start?
    ensures Shape(Next(s, a))
  {
    hide Attempt, OnRung;
    var s' := Next(s, a);
    var m := s.copies[a.c];
    assert CopyOk(m, s.runs);
    assert Extends(s.runs, s'.runs);
    RetriedStays(s.runs, s'.runs);
    assert CopyOk(s'.copies[a.c], s'.runs);
    ShapeFrame(s, s', a.c, |s.runs|);
  }

  lemma ShapeKeptFinish(s: State, a: Action)
    requires Shape(s) && Exclusive(s) && Enabled(s, a) && a.Finish?
    ensures Shape(Next(s, a))
  {
    hide Attempt, OnRung;
    var s' := Next(s, a);
    var r := s.copies[a.c].place.phase.run;
    assert CopyOk(s.copies[a.c], s.runs) && RunOk(s.runs[r], s.runs, s.copies);
    assert Extends(s.runs, s'.runs);
    RetriedStays(s.runs, s'.runs);
    assert CopyOk(s'.copies[a.c], s'.runs);
    ShapeFrame(s, s', a.c, r);
  }

  lemma ShapeKeptExpire(s: State, a: Action)
    requires Shape(s) && Exclusive(s) && Enabled(s, a) && a.Expire?
    ensures Shape(Next(s, a))
  {
    var m := s.copies[a.c];
    assert CopyOk(m, s.runs);
    ExpiryClimbs(m.headers, PREFIX, m.place.tier);
    ShapeFrame(s, Next(s, a), a.c, |s.runs|);
  }

  /** Copy `c` holds handler call `r` and its next publish is `f`. */
  ghost predicate Publishing(s: State, c: nat, r: nat, f: Follow) {
    && c < |s.copies| && s.copies[c].body.Task? && s.copies[c].place.InFlight?
    && r < |s.runs| && RunIn(s.copies[c].place.phase) == Some(r)
    && (s.copies[c].place.phase.ResultDue? || (s.copies[c].place.phase.Handled? && s.runs[r].outcome.Some?))
    && f == Owed(s, c)
  }

  /** Where copy `c` may stand right after the publish took effect. */
  ghost predicate AfterEffect(place: Place, r: nat, f: Follow) {
    place == Queued || place == InFlight(PhaseAfter(r, f))
  }

  lemma RouteOnRung(o: Outcome, attempt: int)
    requires 0 <= attempt <= MAX_RETRIES
    ensures Route(o, attempt).ToRetry? <==> o == Retryable && attempt < MAX_RETRIES
    ensures Route(o, attempt).ToRetry? ==> Route(o, attempt).tier == attempt
  {
  }

  lemma PoisonIsDeadLettered(o: Outcome, attempt: int)
    ensures Route(o, attempt).ToDeadLetter? <==> IsPoison(o, attempt)
  {
  }

  lemma WaitingCopyOk(m: Copy, runs: seq<Run>, tier: nat)
    requires CopyOk(m, runs) && m.body.Task? && Live(m.place)
    requires tier == Attempt(m.headers) < MAX_RETRIES && HasRetried(runs, m.body.id, tier)
    ensures CopyOk(m.(place := Waiting(tier)), runs)
  {
  }

  lemma RetriedRunOk(run: Run, runs: seq<Run>, copies: seq<Copy>)
    requires RunOk(run, runs, copies) && run.outcome == Some(Retryable) && run.attempt < MAX_RETRIES
    requires !run.reported && run.dead.None?
    ensures RunOk(run.(retried := true), runs, copies)
  {
  }

  lemma ReleasedCopyOk(m: Copy, runs: seq<Run>, place: Place)
    requires CopyOk(m, runs) && Live(m.place) && (place == Queued || place == InFlight(AckDue))
    ensures CopyOk(m.(place := place), runs)
  {
  }

  /** What is known of a copy about to publish its retry. */
  lemma RetryFacts(s: State, c: nat, r: nat, f: Follow)
    requires Shape(s) && Publishing(s, c, r, f) && f.ToRetry?
    ensures CopyOk(s.copies[c], s.runs) && RunOk(s.runs[r], s.runs, s.copies)
    ensures s.runs[r].id == s.copies[c].body.id && s.runs[r].attempt == f.tier == Attempt(s.copies[c].headers) < MAX_RETRIES
    ensures s.runs[r].outcome == Some(Retryable) && !s.runs[r].reported && s.runs[r].dead.None?
  {
    hide Attempt, OnRung, Route, HasRetried;
    assert CopyOk(s.copies[c], s.runs) && RunOk(s.runs[r], s.runs, s.copies);
    RouteOnRung(s.runs[r].outcome.value, Attempt(s.copies[c].headers));
  }

  lemma PublishedRetry(s: State, c: nat, r: nat, f: Follow, place: Place)
    requires Shape(s) && Exclusive(s) && Publishing(s, c, r, f) && AfterEffect(place, r, f) && f.ToRetry?
    ensures Shape(Moved(Published(s, c, r, f), c, place))
  {
    RetryFacts(s, c, r, f);
    hide Attempt, OnRung, Route, CopyOk, RunOk, IsPoison, Shape, Exclusive;
    var s' := Moved(Published(s, c, r, f), c, place);
    var m := s.copies[c];
    assert s'.runs[r].retried && s'.runs[r].id == m.body.id && s'.runs[r].attempt == f.tier;
    assert Extends(s.runs, s'.runs);
    ReleasedCopyOk(m, s.runs, place);
    CopyStays(m.(place := place), s.runs, s'.runs);
    WaitingCopyOk(m.(place := place), s'.runs, f.tier);
    RetriedRunOk(s.runs[r], s.runs, s.copies);
    RunStays(s'.runs[r], s.runs, s'.runs, s.copies, s'.copies);
    ShapeFrame(s, s', c, r);
  }

  lemma PublishedDead(s: State, c: nat, r: nat, f: Follow, place: Place)
    requires Shape(s) && Exclusive(s) && Publishing(s, c, r, f) && AfterEffect(place, r, f) && f.ToDeadLetter?
    ensures Shape(Moved(Published(s, c, r, f), c, place))
  {
    hide Attempt, OnRung;
    var s' := Moved(Published(s, c, r, f), c, place);
    assert CopyOk(s.copies[c], s.runs) && RunOk(s.runs[r], s.runs, s.copies);
    assert Extends(s.runs, s'.runs);
    RetriedStays(s.runs, s'.runs);
    assert CopyOk(s'.copies[c], s'.runs) && CopyOk(s'.copies[|s.copies|], s'.runs);
    assert RunOk(s'.runs[r], s'.runs, s'.copies);
    ShapeFrame(s, s', c, r);
  }

  lemma ReportedRunOk(run: Run, runs: seq<Run>, copies: seq<Copy>)
    requires RunOk(run, runs, copies) && run.outcome.Some? && !run.retried
    requires !Route(run.outcome.value, run.attempt).ToRetry?
    requires IsPoison(run.outcome.value, run.attempt) ==> run.dead.Some?
    ensures RunOk(run.(reported := true), runs, copies)
  {
  }

  /** What is known of a copy about to publish its result. */
  lemma ResultFacts(s: State, c: nat, r: nat, f: Follow)
    requires Shape(s) && Publishing(s, c, r, f) && f.ToResults?
    ensures CopyOk(s.copies[c], s.runs) && RunOk(s.runs[r], s.runs, s.copies)
    ensures s.runs[r].id == s.copies[c].body.id && s.runs[r].outcome.Some? && !s.runs[r].retried
    ensures !Route(s.runs[r].outcome.value, s.runs[r].attempt).ToRetry?
    ensures IsPoison(s.runs[r].outcome.value, s.runs[r].attempt) ==> s.runs[r].dead.Some?
    ensures f.completed <==> s.runs[r].outcome.value == Completed
  {
    hide Attempt, OnRung, HasRetried;
    assert CopyOk(s.copies[c], s.runs) && RunOk(s.runs[r], s.runs, s.copies);
  }

  lemma ReportedShape(s: State, s': State, c: nat, r: nat, m: Copy, x: Result)
    requires Shape(s) && Exclusive(s) && c < |s.copies| && r < |s.runs|
    requires !s.copies[c].place.DeadLettered? && RunHeld(s.copies[c].place) == Some(r)
    requires s'.copies == s.copies[c := m] && s'.results == s.results + [x]
    requires s'.runs == s.runs[r := s.runs[r].(reported := true)]
    requires CopyOk(m, s.runs) && RunHeld(m.place).None?
    requires RunOk(s'.runs[r], s.runs, s.copies) && ResultOk(x, s'.runs)
    ensures Shape(s')
  {
    hide CopyOk, RunOk, Shape, Exclusive, ResultOk;
    assert Extends(s.runs, s'.runs) && DeadStay(s.copies, s'.copies);
    CopyStays(m, s.runs, s'.runs);
    RunStays(s'.runs[r], s.runs, s'.runs, s.copies, s'.copies);
    ShapeFrame(s, s', c, r);
  }

  lemma PublishedResult(s: State, c: nat, r: nat, f: Follow, place: Place)
    requires Shape(s) && Exclusive(s) && Publishing(s, c, r, f) && AfterEffect(place, r, f) && f.ToResults?
    ensures Shape(Moved(Published(s, c, r, f), c, place))
  {
    ResultFacts(s, c, r, f);
    hide Attempt, OnRung, Route, CopyOk, RunOk, IsPoison, Shape, Exclusive;
    var m := s.copies[c];
    ReleasedCopyOk(m, s.runs, place);
    ReportedRunOk(s.runs[r], s.runs, s.copies);
    ReportedShape(s, Moved(Published(s, c, r, f), c, place), c, r,
                  m.(place := place), Result(m.body.id, m.body.document, f.completed, r));
  }

  lemma ShapeKeptFollowUp(s: State, a: Action)
    requires Shape(s) && Exclusive(s) && Enabled(s, a) && a.FollowUp?
    ensures Shape(Next(s, a))
  {
    hide Attempt, Route, OnRung, HasRetried;
    var p, f := s.copies[a.c].place.phase, Owed(s, a.c);
    var place := if a.verdict.Unconfirmed? then Queued else InFlight(PhaseAfter(p.run, f));
    if a.verdict.Lost? {
      ShapeKeptSimple(s, Redeliver(a.c));
    } else if f.ToRetry? {
      PublishedRetry(s, a.c, p.run, f, place);
    } else if f.ToDeadLetter? {
      PublishedDead(s, a.c, p.run, f, place);
    } else {
      PublishedResult(s, a.c, p.run, f, place);
    }
  }

  lemma ShapeKept(s: State, a: Action)
    requires Shape(s) && Exclusive(s) && Enabled(s, a)
    ensures Shape(Next(s, a))
  {
    match a
    case RejectGarbled(_, _) => ShapeKeptReject(s, a);
    case Start(_) => ShapeKeptStart(s, a);
    case Finish(_, _) => ShapeKeptFinish(s, a);
    case FollowUp(_, _) => ShapeKeptFollowUp(s, a);
    case Expire(_) => ShapeKeptExpire(s, a);
    case Publish(_, _) => ShapeKeptPublish(s, a);
    case Tick(_) => ShapeKeptPublish(s, a);
    case _ => ShapeKeptSimple(s, a);
  }

  /** Handler calls in hand stay apart when `c` keeps or drops its call and new copies hold none. */
  lemma ExclusiveFrame(s: State, s': State, c: nat)
    requires Exclusive(s)
    requires |s.copies| <= |s'.copies| && |s.runs| <= |s'.runs|
    requires forall d :: 0 <= d < |s.copies| && d != c ==> s'.copies[d] == s.copies[d]
    requires forall d :: |s.copies| <= d < |s'.copies| ==> RunHeld(s'.copies[d].place).None?
    requires c < |s.copies| ==>
      && !s.copies[c].place.DeadLettered? && !s'.copies[c].place.DeadLettered?
      && (RunHeld(s'.copies[c].place).Some? ==>
            RunHeld(s'.copies[c].place) == RunHeld(s.copies[c].place)
            || forall d :: 0 <= d < |s.copies| ==> RunHeld(s.copies[d].place) != RunHeld(s'.copies[c].place))
    requires forall i, j :: 0 <= i < j < |s'.results| ==> s'.results[i].run != s'.results[j].run
    requires forall q :: 0 <= q < |s.runs| && s.runs[q].dead.Some? ==> s'.runs[q].dead == s.runs[q].dead
    requires forall d :: |s.copies| <= d < |s'.copies| && s'.copies[d].place.DeadLettered? && s'.copies[d].body.Task? ==>
      exists r :: 0 <= r < |s'.runs| && s'.runs[r].dead == Some(d)
    ensures Exclusive(s')
  {
    forall d | 0 <= d < |s'.copies| && s'.copies[d].place.DeadLettered? && s'.copies[d].body.Task?
      ensures exists r :: 0 <= r < |s'.runs| && s'.runs[r].dead == Some(d)
    {
      if d < |s.copies| {
        assert s.copies[d] == s'.copies[d];
        var r :| 0 <= r < |s.runs| && s.runs[r].dead == Some(d);
        assert s'.runs[r].dead == Some(d);
      }
    }
  }

  lemma ExclusiveKeptSimple(s: State, a: Action)
    requires Exclusive(s) && Enabled(s, a)
    requires a.Publish? || a.Tick? || a.Deliver? || a.Guard? || a.Ack? || a.Redeliver? || a.Expire?
    ensures Exclusive(Next(s, a))
  {
    var s' := Next(s, a);
    assert s'.runs == s.runs && s'.results == s.results;
    ExclusiveFrame(s, s', if Subject(a).Some? then Subject(a).value else |s.copies|);
  }

  lemma ExclusiveKeptReject(s: State, a: Action)
    requires Exclusive(s) && Enabled(s, a) && a.RejectGarbled?
    ensures Exclusive(Next(s, a))
  {
    var s' := Next(s, a);
    assert s'.runs == s.runs && s'.results == s.results;
    ExclusiveFrame(s, s', a.c);
  }

  lemma NoRunBeyond(s: State)
    requires Shape(s)
    ensures forall d :: 0 <= d < |s.copies| ==> RunHeld(s.copies[d].place) != Some(|s.runs|)
  {
    forall d | 0 <= d < |s.copies| ensures RunHeld(s.copies[d].place) != Some(|s.runs|) {
      assert CopyOk(s.copies[d], s.runs);
    }
  }

  lemma ExclusiveKeptHandler(s: State, a: Action)
    requires Shape(s) && Exclusive(s) && Enabled(s, a)
    requires a.Start? || a.Finish?
    ensures Exclusive(Next(s, a))
  {
    NoRunBeyond(s);
    ExclusiveFrame(s, Next(s, a), a.c);
  }

  /** A handler call still in hand has not been reported, so no result refers to it. */
  lemma NoResultYet(s: State, c: nat, r: nat)
    requires Shape(s) && c < |s.copies| && RunHeld(s.copies[c].place) == Some(r)
    ensures forall j :: 0 <= j < |s.results| ==> s.results[j].run != r
  {
    assert CopyOk(s.copies[c], s.runs);
    forall j | 0 <= j < |s.results| ensures s.results[j].run != r {
      assert ResultOk(s.results[j], s.runs);
    }
  }

  lemma ExclusiveKeptPublished(s: State, c: nat, r: nat, f: Follow, place: Place)
    requires Exclusive(s) && Publishing(s, c, r, f) && AfterEffect(place, r, f)
    requires f.ToDeadLetter? ==> s.runs[r].dead.None?
    requires forall j :: 0 <= j < |s.results| ==> s.results[j].run != r
    ensures Exclusive(Moved(Published(s, c, r, f), c, place))
  {
    hide Attempt, OnRung;
    var s' := Moved(Published(s, c, r, f), c, place);
    match f {
      case ToRetry(t) =>
        assert s'.copies[|s.copies|].place == Waiting(t);
        ExclusiveFrame(s, s', c);
      case ToDeadLetter =>
        assert s'.runs[r].dead == Some(|s.copies|);
        ExclusiveFrame(s, s', c);
      case ToResults(ok) =>
        ExclusiveFrame(s, s', c);
    }
  }

  lemma ExclusiveKeptFollowUp(s: State, a: Action)
    requires Shape(s) && Exclusive(s) && Enabled(s, a) && a.FollowUp?
    ensures Exclusive(Next(s, a))
  {
    hide Attempt, Route, OnRung, HasRetried;
    var p, f := s.copies[a.c].place.phase, Owed(s, a.c);
    var place := if a.verdict.Unconfirmed? then Queued else InFlight(PhaseAfter(p.run, f));
    if a.verdict.Lost? {
      ExclusiveKeptSimple(s, Redeliver(a.c));
    } else {
      assert CopyOk(s.copies[a.c], s.runs);
      NoResultYet(s, a.c, p.run);
      ExclusiveKeptPublished(s, a.c, p.run, f, place);
    }
  }

  lemma ExclusiveKept(s: State, a: Action)
    requires Shape(s) && Exclusive(s) && Enabled(s, a)
    ensures Exclusive(Next(s, a))
  {
    match a
    case Start(_) => ExclusiveKeptHandler(s, a);
    case Finish(_, _) => ExclusiveKeptHandler(s, a);
    case FollowUp(_, _) => ExclusiveKeptFollowUp(s, a);
    case RejectGarbled(_, _) => ExclusiveKeptReject(s, a);
    case _ => ExclusiveKeptSimple(s, a);
  }

  /** Steps that admit nobody, call no handler and leave the guard alone keep Admission. */
  lemma AdmissionFrame(s: State, s': State)
    requires Admission(s) && s'.guard == s.guard && |s'.runs| == |s.runs|
    requires forall r :: 0 <= r < |s.runs| ==>
               s'.runs[r].id == s.runs[r].id && s'.runs[r].attempt == s.runs[r].attempt
    requires forall d :: 0 <= d < |s'.copies| && AdmittedFor(s'.copies[d]).Some? ==>
               d < |s.copies| && AdmittedFor(s.copies[d]) == AdmittedFor(s'.copies[d])
    ensures Admission(s')
  {
    hide Attempt, KeyForAttempt;
    forall c | 0 <= c < |s'.copies| && AdmittedFor(s'.copies[c]).Some?
      ensures var (id, a) := AdmittedFor(s'.copies[c]).value; Key(id, a) in s'.guard && !HasRun(s'.runs, id, a)
    {
      var (id, a) := AdmittedFor(s.copies[c]).value;
      assert !HasRun(s.runs, id, a);
    }
  }

  lemma AdmissionKeptSimple(s: State, a: Action)
    requires Admission(s) && Enabled(s, a) && !a.Guard? && !a.Start? && !a.FollowUp? && !a.Finish?
    ensures Admission(Next(s, a))
  {
    hide OnRung, DeathCount, OnExpiry, Admission;
    AdmissionFrame(s, Next(s, a));
  }

  lemma AdmissionKeptGuard(s: State, a: Action)
    requires Admission(s) && s.now >= 0 && Enabled(s, a) && a.Guard? && GuardReliable(Next(s, a))
    ensures Admission(Next(s, a))
  {
    hide Attempt, KeyForAttempt;
    var s', m := Next(s, a), s.copies[a.c];
    var id, n := m.body.id, Attempt(m.headers);
    if id != "" && !Held(s.guard, Key(id, n), s.now) {
      assert Key(id, n) !in s.guard;
      assert AdmittedFor(s'.copies[a.c]) == Some((id, n));
      assert !HasRun(s'.runs, id, n);
    }
  }

  lemma AdmissionKeptStart(s: State, a: Action)
    requires Admission(s) && Enabled(s, a) && a.Start?
    ensures Admission(Next(s, a))
  {
    hide Attempt, KeyForAttempt;
    var m := s.copies[a.c];
    if m.body.id != "" {
      assert AdmittedFor(m) == Some((m.body.id, Attempt(m.headers)));
      assert !HasRun(s.runs, m.body.id, Attempt(m.headers));
    }
  }

  /** A follow-up publish neither admits a copy nor renames a handler call. */
  lemma NothingAdmitted(s: State, c: nat, r: nat, f: Follow, v: Verdict)
    requires Publishing(s, c, r, f)
    ensures var s' := AfterPublish(s, Published(s, c, r, f), c, v, PhaseAfter(r, f));
            && (forall q :: 0 <= q < |s.runs| ==>
                  s'.runs[q].id == s.runs[q].id && s'.runs[q].attempt == s.runs[q].attempt)
            && (forall d :: 0 <= d < |s'.copies| && AdmittedFor(s'.copies[d]).Some? ==>
                  d < |s.copies| && AdmittedFor(s.copies[d]) == AdmittedFor(s'.copies[d]))
  {
    hide Attempt, Route;
  }

  lemma AdmissionKeptHandled(s: State, a: Action)
    requires Admission(s) && Enabled(s, a) && (a.FollowUp? || a.Finish?)
    ensures Admission(Next(s, a))
  {
    hide Attempt, Route, Admission;
    var s' := Next(s, a);
    assert |s'.runs| == |s.runs| && s'.guard == s.guard;
    if a.Finish? {
      AdmissionFrame(s, s');
    } else {
      NothingAdmitted(s, a.c, s.copies[a.c].place.phase.run, Owed(s, a.c), a.verdict);
      AdmissionFrame(s, s');
    }
  }

  lemma AdmissionKept(s: State, a: Action)
    requires Admission(s) && s.now >= 0 && Enabled(s, a) && GuardReliable(Next(s, a))
    ensures Admission(Next(s, a))
  {
    match a
    case Guard(_, _) => AdmissionKeptGuard(s, a);
    case Start(_) => AdmissionKeptStart(s, a);
    case Finish(_, _) => AdmissionKeptHandled(s, a);
    case FollowUp(_, _) => AdmissionKeptHandled(s, a);
    case _ => AdmissionKeptSimple(s, a);
  }

  lemma ReliabilityIsLost(s: State, a: Action)
    requires Enabled(s, a)
    ensures GuardReliable(Next(s, a)) ==> GuardReliable(s)
    ensures Next(s, a).abandoned >= s.abandoned
  {
  }

  /** The invariant survives every step, whatever fails. */
  lemma SafeKept(s: State, a: Action)
    requires Safe(s) && Enabled(s, a)
    ensures Safe(Next(s, a))
  {
    hide Shape, Exclusive, Admission;
    ShapeKept(s, a);
    ExclusiveKept(s, a);
    ReliabilityIsLost(s, a);
    if GuardReliable(Next(s, a)) {
      AdmissionKept(s, a);
    }
  }

  lemma {:induction false} ReachableIsSafe(ss: seq<State>, n: nat)
    requires IsRun(ss) && n < |ss|
    ensures Safe(ss[n])
  {
    if n > 0 {
      ReachableIsSafe(ss, n - 1);
      assert Step(ss[n - 1], ss[n - 1 + 1]);
      var a :| Enabled(ss[n - 1], a) && ss[n] == Next(ss[n - 1], a);
      SafeKept(ss[n - 1], a);
    }
  }

  // ---- what every run guarantees ----------------------------------------------------

  lemma CopyIsOk(s: State, c: nat)
    requires Shape(s) && c < |s.copies|
    ensures CopyOk(s.copies[c], s.runs)
  {
  }

  /** Attempt numbers below a handler call's own were each retried. */
  lemma {:induction false} RetriedBelow(s: State, q: nat, a: nat)
    requires Shape(s) && q < |s.runs| && a < s.runs[q].attempt
    ensures HasRetried(s.runs, s.runs[q].id, a)
    decreases s.runs[q].attempt - a
  {
    hide Route, Attempt, CopyOk;
    assert RunOk(s.runs[q], s.runs, s.copies);
    if a < s.runs[q].attempt - 1 {
      var r :| 0 <= r < |s.runs| && s.runs[r].id == s.runs[q].id
               && s.runs[r].attempt == s.runs[q].attempt - 1 && s.runs[r].retried;
      RetriedBelow(s, r, a);
    }
  }

  /** Of two handler calls for one envelope, only the last can be terminal. */
  lemma OneTerminalCall(s: State, q: nat, r: nat)
    requires Shape(s) && Admission(s)
    requires q < |s.runs| && r < |s.runs| && q != r && s.runs[q].id == s.runs[r].id != ""
    ensures s.runs[q].retried || s.runs[r].retried
  {
    hide Route, Attempt, CopyOk, KeyForAttempt;
    if s.runs[q].attempt < s.runs[r].attempt {
      assert RunOk(s.runs[q], s.runs, s.copies);
      RetriedBelow(s, r, s.runs[q].attempt);
      var p :| 0 <= p < |s.runs| && s.runs[p].id == s.runs[q].id
               && s.runs[p].attempt == s.runs[q].attempt && s.runs[p].retried;
      assert p == q;
    } else {
      assert RunOk(s.runs[r], s.runs, s.copies);
      RetriedBelow(s, q, s.runs[r].attempt);
      var p :| 0 <= p < |s.runs| && s.runs[p].id == s.runs[r].id
               && s.runs[p].attempt == s.runs[r].attempt && s.runs[p].retried;
      assert p == r;
    }
  }

  /**
   In every run, with any crashes, lost publishes and guard failures, a copy's counted
   `x-death` entries are exactly tiers 0..attempt-1 once each, and attempts never exceed 3.
   */
  lemma CopiesStayOnLadder(ss: seq<State>, n: nat, c: nat)
    requires IsRun(ss) && n < |ss| && c < |ss[n].copies|
    ensures var h := ss[n].copies[c].headers;
            0 <= Attempt(h) <= MAX_RETRIES && OnRung(h, PREFIX, Attempt(h))
  {
    ReachableIsSafe(ss, n);
    assert CopyOk(ss[n].copies[c], ss[n].runs);
  }

  /** While the guard is reliable, each (envelope, attempt) reaches the handler at most once. */
  lemma HandlerAtMostOnce(ss: seq<State>, n: nat, q: nat, r: nat)
    requires IsRun(ss) && n < |ss| && GuardReliable(ss[n])
    requires q < r < |ss[n].runs| && ss[n].runs[q].id == ss[n].runs[r].id != ""
    ensures ss[n].runs[q].attempt != ss[n].runs[r].attempt
  {
    ReachableIsSafe(ss, n);
  }

  ghost function CallsFor(runs: seq<Run>, id: string): set<nat> {
    set r: nat | r < |runs| && runs[r].id == id
  }

  lemma {:induction false} FewWhenInjective(calls: set<nat>, runs: seq<Run>, bound: nat)
    requires forall r <- calls :: r < |runs| && 0 <= runs[r].attempt < bound
    requires forall q <- calls, r <- calls :: q != r ==> runs[q].attempt != runs[r].attempt
    ensures |calls| <= bound
  {
    if calls != {} {
      var top := set r <- calls | runs[r].attempt == bound - 1;
      if top == {} {
        var q :| q in calls;
        assert forall r <- calls :: r !in top;
        FewWhenInjective(calls, runs, bound - 1);
      } else {
        var r :| r in top;
        assert calls == (calls - {r}) + {r};
        FewWhenInjective(calls - {r}, runs, bound - 1);
      }
    }
  }

  /** ... so it is called at most four times for an envelope. */
  lemma HandlerAtMostFourTimes(ss: seq<State>, n: nat, id: string)
    requires IsRun(ss) && n < |ss| && GuardReliable(ss[n]) && id != ""
    ensures |CallsFor(ss[n].runs, id)| <= 4
  {
    ReachableIsSafe(ss, n);
    var s := ss[n];
    forall r <- CallsFor(s.runs, id) ensures 0 <= s.runs[r].attempt < 4 {
      assert RunOk(s.runs[r], s.runs, s.copies);
    }
    FewWhenInjective(CallsFor(s.runs, id), s.runs, 4);
  }

  /** At most one task.result is ever published for an envelope. */
  lemma AtMostOneResult(ss: seq<State>, n: nat, i: nat, j: nat)
    requires IsRun(ss) && n < |ss| && GuardReliable(ss[n])
    requires i < |ss[n].results| && j < |ss[n].results|
    requires ss[n].results[i].id == ss[n].results[j].id != ""
    ensures i == j
  {
    ReachableIsSafe(ss, n);
    UniqueResult(ss[n], i, j);
  }

  lemma UniqueResult(s: State, i: nat, j: nat)
    requires Safe(s) && GuardReliable(s)
    requires i < |s.results| && j < |s.results| && s.results[i].id == s.results[j].id != ""
    ensures i == j
  {
    hide Route, Attempt, CopyOk, KeyForAttempt;
    assert ResultOk(s.results[i], s.runs) && ResultOk(s.results[j], s.runs);
    var q, r := s.results[i].run, s.results[j].run;
    assert RunOk(s.runs[q], s.runs, s.copies) && RunOk(s.runs[r], s.runs, s.copies);
    if q != r {
      OneTerminalCall(s, q, r);
    }
  }

  /** At most one dead-lettered copy exists for an envelope. */
  lemma AtMostOneDeadLetter(ss: seq<State>, n: nat, c: nat, d: nat)
    requires IsRun(ss) && n < |ss| && GuardReliable(ss[n])
    requires c < |ss[n].copies| && d < |ss[n].copies|
    requires ss[n].copies[c].place.DeadLettered? && ss[n].copies[d].place.DeadLettered?
    requires ss[n].copies[c].body.Task? && ss[n].copies[d].body.Task?
    requires ss[n].copies[c].body.id == ss[n].copies[d].body.id != ""
    ensures c == d
  {
    hide Route, Attempt, CopyOk, KeyForAttempt;
    ReachableIsSafe(ss, n);
    var s := ss[n];
    var q :| 0 <= q < |s.runs| && s.runs[q].dead == Some(c);
    var r :| 0 <= r < |s.runs| && s.runs[r].dead == Some(d);
    assert RunOk(s.runs[q], s.runs, s.copies) && RunOk(s.runs[r], s.runs, s.copies);
    if q != r {
      OneTerminalCall(s, q, r);
    }
  }

  // ---- bodies that do not parse --------------------------------------------------------

  /** An unparseable copy on its way out has its dead letter, headers and all. */
  ghost predicate Buried(copies: seq<Copy>, c: nat)
    requires c < |copies|
  {
    exists d :: 0 <= d < |copies| && copies[d] == copies[c].(place := DeadLettered)
  }

  predicate Leaving(m: Copy) {
    m.body.Garbled? && (m.place.Gone? || m.place == InFlight(AckDue))
  }

  ghost predicate GarbledKept(s: State) {
    forall c :: 0 <= c < |s.copies| && Leaving(s.copies[c]) ==> Buried(s.copies, c)
  }

  lemma BuriedStays(copies: seq<Copy>, copies': seq<Copy>, c: nat)
    requires c < |copies| && DeadStay(copies, copies') && Buried(copies, c)
    requires copies'[c].body == copies[c].body && copies'[c].headers == copies[c].headers
    ensures Buried(copies', c)
  {
    var d :| 0 <= d < |copies| && copies[d] == copies[c].(place := DeadLettered);
    assert copies'[d] == copies'[c].(place := DeadLettered);
  }

  lemma DeadStayNext(s: State, a: Action)
    requires Enabled(s, a)
    ensures DeadStay(s.copies, Next(s, a).copies)
  {
    hide Attempt, OnRung, OnExpiry, Route, KeyForAttempt, Owed;
  }

  /** A copy with an unparseable body starts to leave only by being dead-lettered. */
  lemma GarbledStep(s: State, a: Action, c: nat)
    requires Enabled(s, a) && c < |Next(s, a).copies| && Leaving(Next(s, a).copies[c])
    ensures c < |s.copies| && (Leaving(s.copies[c]) || Buried(Next(s, a).copies, c))
    ensures Leaving(s.copies[c]) ==> Next(s, a).copies[c].headers == s.copies[c].headers
  {
    hide Attempt, OnRung, OnExpiry, Route, KeyForAttempt, DeadStay;
    if a.FollowUp? {
      hide Enabled, Next;
      FollowUpIsOfTasks(s, a, c);
    } else if a.RejectGarbled? && a.c == c {
      assert Next(s, a).copies[|s.copies|] == s.copies[c].(place := DeadLettered);
    }
  }

  lemma FollowUpIsOfTasks(s: State, a: Action, c: nat)
    requires Enabled(s, a) && a.FollowUp? && c < |Next(s, a).copies| && Next(s, a).copies[c].body.Garbled?
    ensures c < |s.copies| && Next(s, a).copies[c] == s.copies[c]
  {
    hide Attempt, OnRung, Route, Owed, Published;
    PublishedAppends(s, a.c, s.copies[a.c].place.phase.run, Owed(s, a.c));
  }

  lemma PublishedAppends(s: State, c: nat, r: nat, f: Follow)
    requires c < |s.copies| && r < |s.runs| && s.copies[c].body.Task?
    ensures var copies := Published(s, c, r, f).copies;
      && |s.copies| <= |copies| && copies[..|s.copies|] == s.copies
      && forall d :: |s.copies| <= d < |copies| ==> copies[d].body == s.copies[c].body
  {
  }

  lemma GarbledKeptNext(s: State, a: Action)
    requires GarbledKept(s) && Enabled(s, a)
    ensures GarbledKept(Next(s, a))
  {
    hide Next, Enabled, DeadStay, Buried;
    var s' := Next(s, a);
    DeadStayNext(s, a);
    forall c | 0 <= c < |s'.copies| && Leaving(s'.copies[c]) ensures Buried(s'.copies, c) {
      GarbledStep(s, a, c);
      if Leaving(s.copies[c]) {
        BuriedStays(s.copies, s'.copies, c);
      }
    }
  }

  lemma {:induction false} GarbledIsKept(ss: seq<State>, n: nat)
    requires IsRun(ss) && n < |ss|
    ensures GarbledKept(ss[n])
  {
    hide Next, Enabled;
    if n > 0 {
      GarbledIsKept(ss, n - 1);
      assert Step(ss[n - 1], ss[n - 1 + 1]);
      var a :| Enabled(ss[n - 1], a) && ss[n] == Next(ss[n - 1], a);
      GarbledKeptNext(ss[n - 1], a);
    }
  }

  /** In every run a body that does not parse is gone only when its dead letter, unchanged, is there. */
  lemma GarbledIsDeadLettered(ss: seq<State>, n: nat, c: nat)
    requires IsRun(ss) && n < |ss| && c < |ss[n].copies|
    requires ss[n].copies[c].body.Garbled? && ss[n].copies[c].place.Gone?
    ensures exists d :: 0 <= d < |ss[n].copies| && ss[n].copies[d].place.DeadLettered?
              && ss[n].copies[d].body.Garbled? && ss[n].copies[d].headers == ss[n].copies[c].headers
  {
    hide IsRun;
    GarbledIsKept(ss, n);
    assert Buried(ss[n].copies, c);
  }
}
