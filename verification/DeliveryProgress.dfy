/**
 The delivery protocol makes progress: each fault-free step lowers a measure over all copies,
 a live copy always has such a step, and a published copy pays for at most 28 of them.
 */
module DeliveryProgress {
  import opened Options
  import opened Retry
  import opened Counting
  import opened Idempotency
  import opened Delivery
  import opened DeliverySafety

  // ---- every step is progress -------------------------------------------------------------

  /** Steps still ahead of a queued copy on rung `a`, with room for the copies it may leave. */
  function QueuedRank(a: int): nat {
    if 0 <= a <= MAX_RETRIES then 7 * (MAX_RETRIES - a) + 7 else 0
  }

  function Rank(m: Copy): nat {
    var q := QueuedRank(Attempt(m.headers));
    match m.place
    case Gone => 0
    case DeadLettered => 0
    case Queued => q
    case Waiting(t) => QueuedRank(t + 1) + 1
    case InFlight(Delivered) => if q < 1 then 0 else q - 1
    case InFlight(Acquired) => if q < 2 then 0 else q - 2
    case InFlight(Running(_)) => if q < 3 then 0 else q - 3
    case InFlight(Handled(_)) => if q < 4 then 0 else q - 4
    case InFlight(ResultDue(_)) => 2
    case InFlight(AckDue) => 1
  }

  ghost function TotalRank(copies: seq<Copy>): nat {
    if copies == [] then 0 else TotalRank(copies[..|copies| - 1]) + Rank(copies[|copies| - 1])
  }

  lemma {:induction false} RankOfUpdate(copies: seq<Copy>, c: nat, m: Copy)
    requires c < |copies|
    ensures TotalRank(copies[c := m]) == TotalRank(copies) - Rank(copies[c]) + Rank(m)
  {
    hide Rank;
    var last := |copies| - 1;
    if c == last {
      assert copies[c := m][..last] == copies[..last];
    } else {
      assert copies[c := m][..last] == copies[..last][c := m];
      RankOfUpdate(copies[..last], c, m);
    }
  }

  lemma RankOfAppend(copies: seq<Copy>, m: Copy)
    ensures TotalRank(copies + [m]) == TotalRank(copies) + Rank(m)
  {
    hide Rank;
    assert (copies + [m])[..|copies|] == copies;
  }

  predicate IsWork(a: Action) {
    !a.Publish? && !a.Tick?
  }

  /** A step on copy `c` that leaves `added` behind: what the ranks must satisfy. */
  lemma WorkOnOneCopy(s: State, s': State, c: nat, m: Copy, added: seq<Copy>)
    requires c < |s.copies| && |added| <= 1 && s'.copies == s.copies[c := m] + added
    requires Rank(m) + (if added == [] then 0 else Rank(added[0])) < Rank(s.copies[c])
    ensures TotalRank(s'.copies) < TotalRank(s.copies)
  {
    hide Rank;
    RankOfUpdate(s.copies, c, m);
    if added == [] {
      assert s'.copies == s.copies[c := m];
    } else {
      assert added == [added[0]];
      RankOfAppend(s.copies[c := m], added[0]);
    }
  }

  lemma PlainStepFalls(s: State, a: Action)
    requires Shape(s) && Enabled(s, a) && Next(s, a).faults == s.faults
    requires IsWork(a) && !a.FollowUp? && !a.RejectGarbled? && !a.Expire?
    ensures TotalRank(Next(s, a).copies) < TotalRank(s.copies)
  {
    hide Attempt, OnRung, KeyForAttempt, HasRetried;
    var s', c := Next(s, a), Subject(a).value;
    CopyIsOk(s, c);
    assert 0 <= Attempt(s.copies[c].headers) <= MAX_RETRIES by { RungBound(s.copies[c].headers); }
    WorkOnOneCopy(s, s', c, s'.copies[c], []);
  }

  lemma RungBound(h: Headers)
    requires 0 <= Attempt(h) && OnRung(h, PREFIX, Attempt(h))
    ensures Attempt(h) <= MAX_RETRIES
  {
  }

  lemma ExpiryFalls(s: State, a: Action)
    requires Shape(s) && Enabled(s, a) && a.Expire?
    ensures TotalRank(Next(s, a).copies) < TotalRank(s.copies)
  {
    hide HasRetried, OnExpiry, DeathCount;
    var s' := Next(s, a);
    assert CopyOk(s.copies[a.c], s.runs);
    ExpiryClimbs(s.copies[a.c].headers, PREFIX, s.copies[a.c].place.tier);
    WorkOnOneCopy(s, s', a.c, s'.copies[a.c], []);
  }

  lemma RejectFalls(s: State, a: Action)
    requires Shape(s) && Enabled(s, a) && a.RejectGarbled? && Next(s, a).faults == s.faults
    ensures TotalRank(Next(s, a).copies) < TotalRank(s.copies)
  {
    hide Attempt, OnRung, HasRetried;
    var s', m := Next(s, a), s.copies[a.c];
    assert CopyOk(m, s.runs);
    RungBound(m.headers);
    assert a.verdict.Confirmed?;
    var dead := m.(place := DeadLettered);
    assert s'.copies == s.copies[a.c := m.(place := InFlight(AckDue))] + [dead];
    WorkOnOneCopy(s, s', a.c, m.(place := InFlight(AckDue)), [dead]);
  }

  lemma FollowUpFalls(s: State, a: Action)
    requires Shape(s) && Enabled(s, a) && a.FollowUp? && Next(s, a).faults == s.faults
    ensures TotalRank(Next(s, a).copies) < TotalRank(s.copies)
  {
    hide Attempt, OnRung, HasRetried, Route, RunOk, ResultOk;
    var s', m := Next(s, a), s.copies[a.c];
    var r, f := m.place.phase.run, Owed(s, a.c);
    assert CopyOk(m, s.runs);
    RungBound(m.headers);
    assert a.verdict.Confirmed?;
    var m' := m.(place := InFlight(PhaseAfter(r, f)));
    if m.place.phase.Handled? {
      RouteOnRung(s.runs[r].outcome.value, Attempt(m.headers));
    }
    match f {
      case ToRetry(t) =>
        assert s'.copies == s.copies[a.c := m'] + [m.(place := Waiting(t))];
        WorkOnOneCopy(s, s', a.c, m', [m.(place := Waiting(t))]);
      case ToDeadLetter =>
        assert s'.copies == s.copies[a.c := m'] + [m.(place := DeadLettered)];
        WorkOnOneCopy(s, s', a.c, m', [m.(place := DeadLettered)]);
      case ToResults(_) =>
        assert s'.copies == s.copies[a.c := m'] + [];
        WorkOnOneCopy(s, s', a.c, m', []);
    }
  }

  /** Deliveries, expiries and everything a worker does without a fault lower the total rank. */
  lemma WorkFalls(s: State, a: Action)
    requires Shape(s) && Enabled(s, a) && IsWork(a) && Next(s, a).faults == s.faults
    ensures TotalRank(Next(s, a).copies) < TotalRank(s.copies)
  {
    hide Shape, Next, Enabled, TotalRank;
    match a
    case FollowUp(_, _) => FollowUpFalls(s, a);
    case RejectGarbled(_, _) => RejectFalls(s, a);
    case Expire(_) => ExpiryFalls(s, a);
    case _ => PlainStepFalls(s, a);
  }

  /** As long as a copy is live, some fault-free step is possible on it. */
  lemma NeverStuck(s: State, c: nat) returns (a: Action)
    requires Shape(s) && c < |s.copies| && Live(s.copies[c].place)
    ensures Enabled(s, a) && IsWork(a) && Next(s, a).faults == s.faults && Subject(a) == Some(c)
  {
    hide Attempt, OnRung, HasRetried, RunOk, ResultOk, KeyForAttempt, OnExpiry, Route;
    var m := s.copies[c];
    assert CopyOk(m, s.runs);
    match m.place
    case Queued => a := Deliver(c);
    case Waiting(_) => a := Expire(c);
    case InFlight(phase) =>
      match phase {
        case Delivered => a := if m.body.Garbled? then RejectGarbled(c, Confirmed) else Guard(c, false);
        case Acquired => a := Start(c);
        case Running(_) => a := Finish(c, Completed);
        case Handled(_) => a := FollowUp(c, Confirmed);
        case ResultDue(_) => a := FollowUp(c, Confirmed);
        case AckDue => a := Ack(c);
      }
  }

  // ---- bounded work ---------------------------------------------------------------------------

  /** A run together with the actions that drove it. */
  ghost predicate Driven(ss: seq<State>, acts: seq<Action>) {
    && |ss| == |acts| + 1 && ss[0] == INITIAL
    && forall i :: 0 <= i < |acts| ==> Enabled(ss[i], acts[i]) && ss[i + 1] == Next(ss[i], acts[i])
  }

  function WorkSteps(acts: seq<Action>): nat {
    if acts == [] then 0
    else WorkSteps(acts[..|acts| - 1]) + (if IsWork(acts[|acts| - 1]) then 1 else 0)
  }

  function Publishes(acts: seq<Action>): nat {
    if acts == [] then 0
    else Publishes(acts[..|acts| - 1]) + (if acts[|acts| - 1].Publish? then 1 else 0)
  }

  lemma DrivenIsRun(ss: seq<State>, acts: seq<Action>)
    requires Driven(ss, acts)
    ensures IsRun(ss)
  {
    forall i | 0 <= i < |ss| - 1 ensures Step(ss[i], ss[i + 1]) {
      assert Enabled(ss[i], acts[i]) && ss[i + 1] == Next(ss[i], acts[i]);
    }
  }

  /**
   A fault-free run takes at most 28 steps per published copy, however the steps interleave: four
   calls of the handler, three waits, a dead letter and a result.
   */
  lemma WorkIsBounded(ss: seq<State>, acts: seq<Action>)
    requires Driven(ss, acts) && ss[|acts|].faults == 0
    ensures |set i: nat | i < |acts| && !acts[i].Publish? && !acts[i].Tick?|
         <= 28 * |set i: nat | i < |acts| && acts[i].Publish?|
  {
    WorkIsPaid(ss, acts);
    StepsCount(acts, |acts|);
    assert acts[..|acts|] == acts;
  }

  lemma {:induction false} StepsCount(acts: seq<Action>, n: nat)
    requires n <= |acts|
    ensures WorkSteps(acts[..n]) == |set i: nat | i < n && !acts[i].Publish? && !acts[i].Tick?|
    ensures Publishes(acts[..n]) == |set i: nat | i < n && acts[i].Publish?|
  {
    var work := set i: nat | i < n && !acts[i].Publish? && !acts[i].Tick?;
    var published := set i: nat | i < n && acts[i].Publish?;
    if n == 0 {
      NoPosition(work);
      NoPosition(published);
    } else {
      StepsCount(acts, n - 1);
      assert acts[..n][..n - 1] == acts[..n - 1];
      OneMorePosition(n - 1, (set i: nat | i < n - 1 && !acts[i].Publish? && !acts[i].Tick?), work,
                      !acts[n - 1].Publish? && !acts[n - 1].Tick?);
      OneMorePosition(n - 1, (set i: nat | i < n - 1 && acts[i].Publish?), published, acts[n - 1].Publish?);
    }
  }

  lemma {:induction false} WorkIsPaid(ss: seq<State>, acts: seq<Action>)
    requires Driven(ss, acts) && ss[|acts|].faults == 0
    ensures WorkSteps(acts) + TotalRank(ss[|acts|].copies) <= 28 * Publishes(acts)
  {
    hide Shape, Enabled, Next;
    if acts != [] {
      var n := |acts| - 1;
      var a := acts[n];
      assert Enabled(ss[n], a) && ss[n + 1] == Next(ss[n], a);
      FaultsGrow(ss[n], a);
      WorkIsPaid(ss[..n + 1], acts[..n]);
      DrivenIsRun(ss, acts);
      ReachableIsSafe(ss, n);
      if IsWork(a) {
        WorkFalls(ss[n], a);
      } else {
        OutsideStepAdds(ss[n], a);
      }
    }
  }

  lemma FaultsGrow(s: State, a: Action)
    requires Enabled(s, a)
    ensures s.faults <= Next(s, a).faults
  {
  }

  lemma OutsideStepAdds(s: State, a: Action)
    requires Enabled(s, a) && !IsWork(a)
    ensures TotalRank(Next(s, a).copies) <= TotalRank(s.copies) + (if a.Publish? then 28 else 0)
  {
    if a.Publish? {
      RungIsCount(a.headers, PREFIX, 0);
      RankOfAppend(s.copies, Copy(a.body, a.headers, Queued));
    }
  }
}
