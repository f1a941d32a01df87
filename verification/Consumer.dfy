/**
 The worker's delivery handler, in the order the source performs its effects. Each effect is
 one step of the machine in module Delivery; the environment decides what fails.
 */
module Consumer {
  import opened Options
  import opened Retry
  import opened Idempotency
  import opened Delivery
  import opened DeliverySafety

  /** `acts` lead from `s` to `t`, each enabled where it is taken. */
  ghost predicate Leads(s: State, acts: seq<Action>, t: State) {
    if acts == [] then s == t
    else
      var n := |acts| - 1;
      exists m :: Leads(s, acts[..n], m) && Enabled(m, acts[n]) && t == Next(m, acts[n])
  }

  lemma LeadsOn(s: State, acts: seq<Action>, t: State, a: Action)
    requires Leads(s, acts, t) && Enabled(t, a)
    ensures Leads(s, acts + [a], Next(t, a))
  {
    hide Enabled, Next;
    assert (acts + [a])[..|acts|] == acts;
  }

  /** Following a path from a reachable state stays inside the safe states. */
  lemma {:induction false} PathsAreSafe(s: State, acts: seq<Action>, t: State)
    requires Safe(s) && Leads(s, acts, t)
    ensures Safe(t)
  {
    hide Enabled, Next, Safe;
    if acts != [] {
      var n := |acts| - 1;
      var m :| Leads(s, acts[..n], m) && Enabled(m, acts[n]) && t == Next(m, acts[n]);
      PathsAreSafe(s, acts[..n], m);
      SafeKept(m, acts[n]);
    }
  }

  /** What the environment makes of one delivery. */
  datatype Fate = Fate(guardFails: bool, outcome: Outcome, publish: Verdict, result: Verdict, ackOk: bool)

  function EndPath(c: nat, fate: Fate): seq<Action> {
    [if fate.ackOk then Ack(c) else Redeliver(c)]
  }

  predicate PublishOk(f: Follow, fate: Fate) {
    match f
    case ToRetry(_) => fate.publish.Confirmed?
    case ToDeadLetter => fate.publish.Confirmed? && fate.result.Confirmed?
    case ToResults(_) => fate.result.Confirmed?
  }

  function PublishPath(c: nat, f: Follow, fate: Fate): seq<Action> {
    match f
    case ToRetry(_) => [FollowUp(c, fate.publish)]
    case ToDeadLetter =>
      [FollowUp(c, fate.publish)] + if fate.publish.Confirmed? then [FollowUp(c, fate.result)] else []
    case ToResults(_) => [FollowUp(c, fate.result)]
  }

  /** Handler, its follow-up publishes, and the ack unless a publish raised. */
  function ProcessPath(c: nat, attempt: int, fate: Fate): seq<Action> {
    var f := Route(fate.outcome, attempt);
    [Start(c), Finish(c, fate.outcome)] + PublishPath(c, f, fate)
      + if PublishOk(f, fate) then EndPath(c, fate) else []
  }

  /** The steps that one delivery consists of. */
  function DeliveryPath(s: State, c: nat, fate: Fate): seq<Action>
    requires c < |s.copies|
  {
    var m := s.copies[c];
    if m.body.Garbled? then
      [RejectGarbled(c, fate.publish)] + if fate.publish.Confirmed? then EndPath(c, fate) else []
    else
      var duplicate := m.body.id != "" && !fate.guardFails && Held(s.guard, Key(m.body.id, Attempt(m.headers)), s.now);
      [Guard(c, fate.guardFails)]
        + if duplicate then EndPath(c, fate) else ProcessPath(c, Attempt(m.headers), fate)
  }

  lemma PublishedFits(s: State, c: nat, r: nat, f: Follow)
    requires c < |s.copies| && r < |s.runs| && s.copies[c].body.Task?
    ensures var p := Published(s, c, r, f);
      c < |p.copies| && r < |p.runs| && p.copies[c] == s.copies[c]
  {
  }

  // ---- what one delivery leaves behind when nothing fails -----------------------------------

  /** One more handler call on copy `c`, held as `m`, and the answer to it. */
  ghost predicate Answers(o: Outcome, attempt: int, c: nat, m: Copy, before: State, after: State)
    requires c < |before.copies| && m.body.Task?
  {
    var r, done := |before.runs|, before.copies[c := m.(place := Gone)];
    && |after.runs| == r + 1 && after.runs[..r] == before.runs
    && after.runs[r].id == m.body.id && after.runs[r].attempt == attempt && after.runs[r].outcome == Some(o)
    && if o == Completed then
      && after.copies == done
      && after.results == before.results + [Result(m.body.id, m.body.document, true, r)]
    else if o == ReturnedFailed then
      && after.copies == done
      && after.results == before.results + [Result(m.body.id, m.body.document, false, r)]
    else if o == Retryable && attempt < MAX_RETRIES then
      && after.copies == done + [m.(place := Waiting(if attempt < 0 then 0 else attempt))]
      && after.results == before.results
    else
      && after.copies == done + [m.(place := DeadLettered)]
      && after.results == before.results + [Result(m.body.id, m.body.document, false, r)]
  }

  /** What a delivery without faults leaves: a dead letter, nothing, or a handler call and its answer. */
  ghost predicate Settles(o: Outcome, c: nat, m: Copy, before: State, after: State)
    requires c < |before.copies|
  {
    if m.body.Garbled? then
      && after.copies == before.copies[c := m.(place := Gone)] + [m.(place := DeadLettered)]
      && after.results == before.results && after.runs == before.runs && after.guard == before.guard
    else
      var key := Key(m.body.id, Attempt(m.headers));
      if m.body.id != "" && key in before.guard && before.now < before.guard[key] then
        && after.copies == before.copies[c := m.(place := Gone)]
        && after.results == before.results && after.runs == before.runs && after.guard == before.guard
      else
        && Answers(o, Attempt(m.headers), c, m, before, after)
        && after.guard == if m.body.id == "" then before.guard
                          else before.guard[key := before.now + DEFAULT_TTL_SECONDS]
  }

  /** What one publish for the delivery `m` adds: a waiting copy, a dead letter, or a result. */
  ghost predicate Adds(f: Follow, m: Copy, r: nat, copies: seq<Copy>, results: seq<Result>,
                       copies': seq<Copy>, results': seq<Result>)
    requires m.body.Task?
  {
    match f
    case ToRetry(tier) => copies' == copies + [m.(place := Waiting(tier))] && results' == results
    case ToDeadLetter => copies' == copies + [m.(place := DeadLettered)] && results' == results
    case ToResults(completed) =>
      copies' == copies && results' == results + [Result(m.body.id, m.body.document, completed, r)]
  }

  /** A publish that took effect and was confirmed. */
  ghost function Sent(s: State, c: nat, r: nat, f: Follow): State
    requires c < |s.copies| && r < |s.runs| && s.copies[c].body.Task?
  {
    PublishedFits(s, c, r, f);
    Moved(Published(s, c, r, f), c, InFlight(PhaseAfter(r, f)))
  }

  /** All publishes of an answer: a dead letter is followed by the failed result. */
  ghost function Answered(s: State, c: nat, r: nat, f: Follow): State
    requires c < |s.copies| && r < |s.runs| && s.copies[c].body.Task?
  {
    PublishedFits(s, c, r, f);
    if f.ToDeadLetter? then Sent(Sent(s, c, r, f), c, r, ToResults(false)) else Sent(s, c, r, f)
  }

  /** Where the delivery stood before the handler call plays no part. */
  lemma AnswersFromAnywhere(o: Outcome, attempt: int, c: nat, m: Copy, place: Place, before: State, mid: State, after: State)
    requires c < |before.copies| && before.copies[c] == m && m.body.Task?
    requires mid.copies == before.copies[c := m.(place := place)]
    requires mid.runs == before.runs && mid.results == before.results
    requires Answers(o, attempt, c, mid.copies[c], mid, after)
    ensures Answers(o, attempt, c, m, before, after)
  {
    assert mid.copies[c := m.(place := Gone)] == before.copies[c := m.(place := Gone)];
  }

  lemma AnswerIs(before: State, s: State, c: nat, r: nat, o: Outcome, attempt: int)
    requires c < |before.copies| && before.copies[c].body.Task? && r == |before.runs|
    requires s.copies == before.copies[c := before.copies[c].(place := InFlight(Handled(r)))]
    requires s.results == before.results
    requires s.runs == before.runs + [Run(before.copies[c].body.id, attempt, Some(o), false, None, false)]
    ensures var f := Route(o, attempt);
      Answers(o, attempt, c, before.copies[c], before, Moved(Answered(s, c, r, f), c, Gone))
  {
    var m := before.copies[c];
    var f := Route(o, attempt);
    var t := Moved(Answered(s, c, r, f), c, Gone);
    var done := before.copies[c := m.(place := Gone)];
    match f
    case ToResults(_) => assert t.copies == done;
    case ToRetry(tier) => assert t.copies == done + [m.(place := Waiting(tier))];
    case ToDeadLetter => assert t.copies == done + [m.(place := DeadLettered)];
  }

  lemma Rejected(s: State, c: nat, v: Verdict)
    requires PhaseIs(s, c, Delivered) && s.copies[c].body.Garbled?
    ensures Enabled(s, RejectGarbled(c, v))
    ensures var dead := s.copies[c].(place := DeadLettered);
      Next(s, RejectGarbled(c, v)) ==
        match v
        case Confirmed => Moved(s.(copies := s.copies + [dead]), c, InFlight(AckDue))
        case Lost => Requeued(s, c, true)
        case Unconfirmed => Requeued(s.(copies := s.copies + [dead]), c, false)
  {
  }

  /** A copy put at the end stays out of the way of what happens to the others. */
  lemma BesideDead(copies: seq<Copy>, c: nat, m: Copy, m': Copy, dead: Copy)
    requires c < |copies|
    ensures (copies + [dead])[c := m] == copies[c := m] + [dead] && (copies[c := m] + [dead])[c] == m
    ensures (copies[c := m] + [dead])[c := m'] == copies[c := m'] + [dead]
  {
  }

  lemma RejectPath(s: State, c: nat, fate: Fate)
    requires c < |s.copies| && s.copies[c].body.Garbled?
    ensures var reject := [] + [RejectGarbled(c, fate.publish)];
      DeliveryPath(s, c, fate) == if fate.publish.Confirmed? then reject + EndPath(c, fate) else reject
  {
  }

  class Consumer {
    const guard: InMemoryGuard
    var copies: seq<Copy>
    var now: int
    var runs: seq<Run>
    var results: seq<Result>
    var faults: nat
    var failOpens: nat
    var abandoned: set<string>

    constructor (guard: InMemoryGuard)
      ensures this.guard == guard && copies == [] && runs == [] && results == []
      ensures now == 0 && faults == 0 && failOpens == 0 && abandoned == {}
    {
      this.guard := guard;
      copies, runs, results := [], [], [];
      now, faults, failOpens, abandoned := 0, 0, 0, {};
    }

    ghost function Net(): State
      reads this, guard
    {
      State(copies, guard.seen, now, runs, results, faults, failOpens, abandoned)
    }

    method MoveTo(c: nat, place: Place)
      requires c < |copies|
      modifies this`copies
      ensures Net() == Moved(old(Net()), c, place)
    {
      copies := copies[c := copies[c].(place := place)];
    }

    /** The last resort of the outer handler: nack with requeue. */
    method Nack(c: nat, unfinished: bool)
      requires c < |copies|
      modifies this`copies, this`faults, this`abandoned
      ensures Net() == Requeued(old(Net()), c, unfinished)
    {
      if unfinished && copies[c].body.Task? {
        abandoned := abandoned + {copies[c].body.id};
      }
      MoveTo(c, Queued);
      faults := faults + 1;
    }

    /** True: process it. False: a duplicate. A guard failure counts as admission. */
    method Acquire(c: nat, attempt: int, guardFails: bool) returns (admit: bool)
      requires PhaseIs(Net(), c, Delivered) && copies[c].body.Task? && attempt == Attempt(copies[c].headers)
      modifies this`copies, this`failOpens, guard
      ensures Net() == Next(old(Net()), Guard(c, guardFails))
      ensures copies == old(copies)[c := old(copies)[c].(place := InFlight(if admit then Acquired else AckDue))]
      ensures var key := KeyForAttempt(QUEUE, copies[c].body.id, attempt);
        && (admit <==> copies[c].body.id == "" || guardFails || !(key in old(guard.seen) && now < old(guard.seen)[key]))
        && guard.seen == if admit && copies[c].body.id != "" && !guardFails
                         then old(guard.seen)[key := now + DEFAULT_TTL_SECONDS] else old(guard.seen)
    {
      var id := copies[c].body.id;
      if id == "" {
        admit := true;
      } else if guardFails {
        failOpens := failOpens + 1;
        admit := true;
      } else {
        admit := guard.Begin(KeyForAttempt(QUEUE, id, attempt), DEFAULT_TTL_SECONDS, now);
      }
      MoveTo(c, InFlight(if admit then Acquired else AckDue));
    }

    /** The call of the handler: entered, and left with `outcome`. */
    method CallHandler(c: nat, attempt: int, outcome: Outcome, ghost s: State, ghost trace: seq<Action>)
      returns (r: nat)
      requires PhaseIs(Net(), c, Acquired) && copies[c].body.Task? && attempt == Attempt(copies[c].headers)
      requires Leads(s, trace, Net())
      modifies this`copies, this`runs
      ensures Leads(s, trace + [Start(c), Finish(c, outcome)], Net())
      ensures r == |old(runs)| && runs == old(runs) + [Run(old(copies)[c].body.id, attempt, Some(outcome), false, None, false)]
      ensures copies == old(copies)[c := old(copies)[c].(place := InFlight(Handled(r)))]
    {
      hide Attempt, OnRung, Route, Leads, KeyForAttempt;
      r := |runs|;
      runs := runs + [Run(copies[c].body.id, attempt, None, false, None, false)];
      MoveTo(c, InFlight(Running(r)));
      assert Net() == Next(old(Net()), Start(c));
      LeadsOn(s, trace, old(Net()), Start(c));
      ghost var mid := Net();
      runs := runs[r := runs[r].(outcome := Some(outcome))];
      MoveTo(c, InFlight(Handled(r)));
      assert Enabled(mid, Finish(c, outcome)) && Net() == Next(mid, Finish(c, outcome));
      LeadsOn(s, trace + [Start(c)], mid, Finish(c, outcome));
      assert trace + [Start(c)] + [Finish(c, outcome)] == trace + [Start(c), Finish(c, outcome)];
    }

    /** One publish; when it raises, the outer handler requeues the delivery. */
    method Emit(c: nat, r: nat, f: Follow, v: Verdict, ghost s: State, ghost trace: seq<Action>) returns (ok: bool)
      requires Enabled(Net(), FollowUp(c, v)) && copies[c].place.phase.run == r && f == Owed(Net(), c)
      requires Leads(s, trace, Net())
      modifies this
      ensures Leads(s, trace + [FollowUp(c, v)], Net())
      ensures ok <==> v.Confirmed?
      ensures ok ==> PhaseIs(Net(), c, PhaseAfter(r, f)) && copies[c].body.Task? && r < |runs|
      ensures ok ==> Net() == Sent(old(Net()), c, r, f)
      ensures var m := old(copies)[c];
        var moved := old(copies)[c := m.(place := if ok then InFlight(PhaseAfter(r, f)) else Queued)];
        if v.Lost? then copies == moved && results == old(results)
        else Adds(f, m, r, moved, old(results), copies, results)
    {
      hide Attempt, OnRung, Route, Leads, Published;
      LeadsOn(s, trace, Net(), FollowUp(c, v));
      PublishedFits(Net(), c, r, f);
      if !v.Lost? {
        TakeEffect(c, r, f);
      }
      if v.Confirmed? {
        MoveTo(c, InFlight(PhaseAfter(r, f)));
      } else {
        Nack(c, v.Lost? || f.ToDeadLetter?);
      }
      ok := v.Confirmed?;
    }

    /** The publish reaches the broker. */
    method TakeEffect(c: nat, r: nat, f: Follow)
      requires c < |copies| && r < |runs| && copies[c].body.Task?
      modifies this`copies, this`runs, this`results
      ensures Net() == Published(old(Net()), c, r, f)
      ensures Adds(f, old(copies)[c], r, old(copies), old(results), copies, results)
    {
      var m := copies[c];
      match f {
        case ToRetry(tier) =>
          runs := runs[r := runs[r].(retried := true)];
          copies := copies + [m.(place := Waiting(tier))];
        case ToDeadLetter =>
          runs := runs[r := runs[r].(dead := Some(|copies|))];
          copies := copies + [m.(place := DeadLettered)];
        case ToResults(completed) =>
          runs := runs[r := runs[r].(reported := true)];
          results := results + [Result(m.body.id, m.body.document, completed, r)];
      }
    }

    /** Ack, or requeue when the ack itself fails. */
    method Settle(c: nat, fate: Fate, ghost s: State, ghost trace: seq<Action>)
      requires PhaseIs(Net(), c, AckDue) && Leads(s, trace, Net())
      modifies this`copies, this`faults, this`abandoned
      ensures Leads(s, trace + EndPath(c, fate), Net())
      ensures fate.ackOk ==> Net() == Moved(old(Net()), c, Gone)
      ensures copies == old(copies)[c := old(copies)[c].(place := if fate.ackOk then Gone else Queued)]
    {
      hide Attempt, OnRung, Route;
      if fate.ackOk {
        MoveTo(c, Gone);
        LeadsOn(s, trace, old(Net()), Ack(c));
      } else {
        Nack(c, false);
        LeadsOn(s, trace, old(Net()), Redeliver(c));
      }
    }

    ghost predicate AtFollowUp(c: nat, r: nat, o: Outcome, attempt: int)
      reads this, guard
    {
      && c < |copies| && copies[c].place == InFlight(Handled(r)) && copies[c].body.Task?
      && r < |runs| && runs[r].outcome == Some(o) && attempt == Attempt(copies[c].headers)
    }

    /** Follow-up of a raised, retryable failure: the next tier, or the dead-letter exchange. */
    method RetryOrDeadLetter(c: nat, r: nat, attempt: int, fate: Fate, ghost s: State, ghost trace: seq<Action>)
      returns (ok: bool)
      requires AtFollowUp(c, r, Retryable, attempt) && Leads(s, trace, Net())
      modifies this
      ensures Leads(s, trace + PublishPath(c, Route(Retryable, attempt), fate), Net())
      ensures ok <==> PublishOk(Route(Retryable, attempt), fate)
      ensures ok ==> PhaseIs(Net(), c, AckDue) && Net() == Answered(old(Net()), c, r, Route(Retryable, attempt))
    {
      hide Attempt, OnRung, Leads, DeathCount;
      var tier := SelectTier(attempt);
      if tier.None? {
        ok := DeadLetter(c, r, Retryable, attempt, fate, s, trace);
      } else {
        ok := Emit(c, r, Route(Retryable, attempt), fate.publish, s, trace);
      }
    }

    /** The poison copy first, then the failed task.result. */
    method DeadLetter(c: nat, r: nat, ghost o: Outcome, ghost attempt: int, fate: Fate,
                      ghost s: State, ghost trace: seq<Action>)
      returns (ok: bool)
      requires AtFollowUp(c, r, o, attempt) && Leads(s, trace, Net()) && Route(o, attempt) == ToDeadLetter
      modifies this
      ensures Leads(s, trace + PublishPath(c, ToDeadLetter, fate), Net())
      ensures ok <==> PublishOk(ToDeadLetter, fate)
      ensures ok ==> PhaseIs(Net(), c, AckDue) && Net() == Answered(old(Net()), c, r, ToDeadLetter)
    {
      hide Attempt, OnRung, Route, Leads, Retry.SelectTier;
      ok := Emit(c, r, ToDeadLetter, fate.publish, s, trace);
      if ok {
        ok := Emit(c, r, ToResults(false), fate.result, s, trace + [FollowUp(c, fate.publish)]);
        assert trace + [FollowUp(c, fate.publish)] + [FollowUp(c, fate.result)]
            == trace + PublishPath(c, ToDeadLetter, fate);
      } else {
        assert PublishPath(c, ToDeadLetter, fate) == [FollowUp(c, fate.publish)];
      }
    }

    /** A body that does not parse can never succeed: dead-letter it, with no result. */
    method RejectUnparseable(c: nat, fate: Fate)
      requires PhaseIs(Net(), c, Delivered) && copies[c].body.Garbled?
      modifies this
      ensures Leads(old(Net()), DeliveryPath(old(Net()), c, fate), Net())
      ensures fate.publish.Lost? ==> copies == old(copies)[c := old(copies)[c].(place := Queued)]
      ensures !fate.publish.Lost? ==>
        copies == old(copies)[c := old(copies)[c].(place := if fate.publish.Confirmed? && fate.ackOk then Gone else Queued)]
                  + [old(copies)[c].(place := DeadLettered)]
      ensures results == old(results) && runs == old(runs)
    {
      ghost var s := Net();
      Rejected(s, c, fate.publish);
      assert Leads(s, [], s);
      LeadsOn(s, [], s, RejectGarbled(c, fate.publish));
      RejectPath(s, c, fate);
      hide Leads, Next, Enabled, DeliveryPath, EndPath;
      Bury(c, fate.publish);
      ghost var m := s.copies[c];
      BesideDead(s.copies, c, m.(place := InFlight(AckDue)), m.(place := if fate.ackOk then Gone else Queued),
                 m.(place := DeadLettered));
      if fate.publish.Confirmed? {
        Settle(c, fate, s, [] + [RejectGarbled(c, fate.publish)]);
      }
    }

    /** The publish of the dead letter: confirmed, the delivery is due for its ack; otherwise it is requeued. */
    method Bury(c: nat, v: Verdict)
      requires PhaseIs(Net(), c, Delivered) && copies[c].body.Garbled?
      modifies this`copies, this`faults, this`abandoned
      ensures Enabled(old(Net()), RejectGarbled(c, v)) && Net() == Next(old(Net()), RejectGarbled(c, v))
      ensures v.Lost? ==> copies == old(copies)[c := old(copies)[c].(place := Queued)]
      ensures !v.Lost? ==> var m := old(copies)[c];
        copies == old(copies)[c := m.(place := if v.Confirmed? then InFlight(AckDue) else Queued)] + [m.(place := DeadLettered)]
    {
      Rejected(Net(), c, v);
      ghost var m := copies[c].(place := if v.Confirmed? then InFlight(AckDue) else Queued);
      BesideDead(copies, c, m, m, copies[c].(place := DeadLettered));
      hide Next, Enabled;
      if !v.Lost? {
        copies := copies + [copies[c].(place := DeadLettered)];
      }
      if v.Confirmed? {
        MoveTo(c, InFlight(AckDue));
      } else {
        Nack(c, v.Lost?);
      }
    }

    /** The part after the guard: handler, follow-up, ack. */
    method Process(c: nat, attempt: int, fate: Fate, ghost s: State, ghost trace: seq<Action>)
      requires PhaseIs(Net(), c, Acquired) && copies[c].body.Task? && attempt == Attempt(copies[c].headers)
      requires Leads(s, trace, Net())
      modifies this
      ensures Leads(s, trace + ProcessPath(c, attempt, fate), Net())
      ensures fate.publish.Confirmed? && fate.result.Confirmed? && fate.ackOk ==>
        Answers(fate.outcome, attempt, c, old(copies)[c], old(Net()), Net())
    {
      hide OnRung, Attempt, KeyForAttempt, SelectTier, Enabled, Leads, Answered, Answers;
      var r := CallHandler(c, attempt, fate.outcome, s, trace);
      ghost var called := trace + [Start(c), Finish(c, fate.outcome)];
      ghost var f, mid := Route(fate.outcome, attempt), Net();
      var ok;
      match fate.outcome {
        case Unretryable =>
          ok := DeadLetter(c, r, Unretryable, attempt, fate, s, called);
        case Retryable =>
          ok := RetryOrDeadLetter(c, r, attempt, fate, s, called);
        case _ =>
          ok := Report(c, r, attempt, fate, s, called);
      }
      if ok {
        AnswerIs(old(Net()), mid, c, r, fate.outcome, attempt);
        Settle(c, fate, s, called + PublishPath(c, f, fate));
        assert called + PublishPath(c, f, fate) + EndPath(c, fate) == trace + ProcessPath(c, attempt, fate);
      } else {
        assert called + PublishPath(c, f, fate) == trace + ProcessPath(c, attempt, fate);
      }
    }

    /** The handler returned: publish what it says. */
    method Report(c: nat, r: nat, ghost attempt: int, fate: Fate, ghost s: State, ghost trace: seq<Action>)
      returns (ok: bool)
      requires AtFollowUp(c, r, fate.outcome, attempt) && Leads(s, trace, Net())
      requires fate.outcome == Completed || fate.outcome == ReturnedFailed
      modifies this
      ensures Leads(s, trace + PublishPath(c, Route(fate.outcome, attempt), fate), Net())
      ensures ok <==> PublishOk(Route(fate.outcome, attempt), fate)
      ensures ok ==> PhaseIs(Net(), c, AckDue) && Net() == Answered(old(Net()), c, r, Route(fate.outcome, attempt))
    {
      hide Attempt, OnRung;
      ok := Emit(c, r, ToResults(fate.outcome == Completed), fate.result, s, trace);
    }

    /**
     One delivery, as `_handle_delivery` takes it: whatever fails, its effects are exactly the
     steps of `DeliveryPath`, and when nothing fails it ends acknowledged.
     */
    method HandleDelivery(c: nat, fate: Fate)
      requires PhaseIs(Net(), c, Delivered)
      modifies this, guard
      ensures Leads(old(Net()), DeliveryPath(old(Net()), c, fate), Net())
      ensures !fate.guardFails && fate.publish.Confirmed? && fate.result.Confirmed? && fate.ackOk ==>
        Settles(fate.outcome, c, old(copies)[c], old(Net()), Net())
    {
      hide OnRung, KeyForAttempt, Route, Enabled, Next, Leads, DeliveryPath, Answers;
      if copies[c].body.Garbled? {
        RejectUnparseable(c, fate);
        return;
      }
      ghost var s := Net();
      var attempt := CountDeaths(copies[c].headers, PREFIX);
      assert attempt == Attempt(copies[c].headers);
      hide Attempt, DeathCount;
      var admit := Acquire(c, attempt, fate.guardFails);
      TaskPath(s, c, fate);
      ghost var trace := [Guard(c, fate.guardFails)];
      if admit {
        ghost var mid := Net();
        Process(c, attempt, fate, s, trace);
        if !fate.guardFails && fate.publish.Confirmed? && fate.result.Confirmed? && fate.ackOk {
          AnswersFromAnywhere(fate.outcome, attempt, c, s.copies[c], InFlight(Acquired), s, mid, Net());
        }
      } else {
        Settle(c, fate, s, trace);
      }
    }
  }

  /** The path of a task: past the guard it is the handler's, or just the ack of a duplicate. */
  lemma TaskPath(s: State, c: nat, fate: Fate)
    requires PhaseIs(s, c, Delivered) && s.copies[c].body.Task?
    ensures var g := Guard(c, fate.guardFails);
      && Enabled(s, g) && Leads(s, [g], Next(s, g))
      && c < |Next(s, g).copies| && var m := Next(s, g).copies[c];
      && m.body == s.copies[c].body && m.headers == s.copies[c].headers
      && (m.place == InFlight(Acquired) || m.place == InFlight(AckDue))
      && DeliveryPath(s, c, fate) == [g] +
           if m.place == InFlight(Acquired) then ProcessPath(c, Attempt(m.headers), fate) else EndPath(c, fate)
  {
    hide OnRung, Attempt, KeyForAttempt, Route, ProcessPath, EndPath;
    assert Leads(s, [], s);
    LeadsOn(s, [], s, Guard(c, fate.guardFails));
    assert [] + [Guard(c, fate.guardFails)] == [Guard(c, fate.guardFails)];
  }
}
