/**
 Runs that show the edges of the delivery theorems: one that loses an envelope, one that handles an
 attempt twice, one that delivers without a fault, and one in which a result is written from a read
 that has gone stale.
 */
module Witnesses {
  import opened Options
  import opened Retry
  import opened Idempotency
  import opened Documents
  import D = Delivery
  import O = Outbox
  import Loss = DeliveryLoss
  import E = EndToEnd

  // ---- reaching a state ---------------------------------------------------------------------

  ghost predicate Reached(s: D.State) {
    exists ss :: D.IsRun(ss) && ss[|ss| - 1] == s
  }

  lemma ReachedNext(s: D.State, a: D.Action)
    requires Reached(s) && D.Enabled(s, a)
    ensures Reached(D.Next(s, a))
  {
    hide D.Enabled, D.Next;
    var ss :| D.IsRun(ss) && ss[|ss| - 1] == s;
    var ss' := ss + [D.Next(s, a)];
    forall i | 0 <= i < |ss'| - 1 ensures D.Step(ss'[i], ss'[i + 1]) {
      if i < |ss| - 1 {
        assert D.Step(ss[i], ss[i + 1]);
      }
    }
    assert D.IsRun(ss') && ss'[|ss'| - 1] == D.Next(s, a);
  }

  lemma ReachedInitial()
    ensures Reached(D.INITIAL)
  {
    assert D.IsRun([D.INITIAL]);
  }

  // ---- one envelope on its way through the worker ---------------------------------------------

  const TASK := D.Task("e", "d")

  function Copy(place: D.Place): D.Copy {
    D.Copy(TASK, NoDeaths, place)
  }

  function Taken(): Table {
    map[D.Key("e", 0) := DEFAULT_TTL_SECONDS]
  }

  /** The state with just that copy, before or after the guard has admitted it. */
  function At(place: D.Place, guard: Table): D.State {
    D.INITIAL.(copies := [Copy(place)], guard := guard)
  }

  lemma NoAttempts()
    ensures D.Attempt(NoDeaths) == 0 && OnRung(NoDeaths, D.PREFIX, 0)
  {
  }

  /** Published, delivered, admitted. */
  lemma Admitted()
    ensures Reached(At(D.InFlight(D.Acquired), Taken()))
    ensures Reached(At(D.Queued, map[]))
  {
    hide KeyForAttempt, Reached;
    ReachedInitial();
    NoAttempts();
    ReachedNext(D.INITIAL, D.Publish(TASK, NoDeaths));
    assert D.Next(D.INITIAL, D.Publish(TASK, NoDeaths)) == At(D.Queued, map[]);
    ReachedNext(At(D.Queued, map[]), D.Deliver(0));
    assert D.Next(At(D.Queued, map[]), D.Deliver(0)) == At(D.InFlight(D.Delivered), map[]);
    ReachedNext(At(D.InFlight(D.Delivered), map[]), D.Guard(0, false));
    assert D.Next(At(D.InFlight(D.Delivered), map[]), D.Guard(0, false)) == At(D.InFlight(D.Acquired), Taken());
  }

  function Abandoned(place: D.Place): D.State {
    At(place, Taken()).(faults := 1, abandoned := {"e"})
  }

  /**
   A worker lets go right after the guard admitted the attempt; the redelivery is taken for a
   duplicate and acknowledged. Nothing is live, the guard was reliable, and there is no result.
   */
  lemma EnvelopeLost() returns (ss: seq<D.State>)
    ensures D.IsRun(ss)
    ensures var s := ss[|ss| - 1];
      && D.GuardReliable(s) && Loss.Quiescent(s)
      && |s.copies| == 1 && s.copies[0].body == TASK && Loss.Identified(TASK)
      && !Loss.HasResult(s, "e") && s.abandoned == {"e"}
  {
    hide KeyForAttempt, Reached;
    NoAttempts();
    Admitted();
    ReachedNext(At(D.InFlight(D.Acquired), Taken()), D.Redeliver(0));
    assert D.Next(At(D.InFlight(D.Acquired), Taken()), D.Redeliver(0)) == Abandoned(D.Queued);
    ReachedNext(Abandoned(D.Queued), D.Deliver(0));
    assert D.Next(Abandoned(D.Queued), D.Deliver(0)) == Abandoned(D.InFlight(D.Delivered));
    ReachedNext(Abandoned(D.InFlight(D.Delivered)), D.Guard(0, false));
    assert D.Next(Abandoned(D.InFlight(D.Delivered)), D.Guard(0, false)) == Abandoned(D.InFlight(D.AckDue));
    ReachedNext(Abandoned(D.InFlight(D.AckDue)), D.Ack(0));
    assert D.Next(Abandoned(D.InFlight(D.AckDue)), D.Ack(0)) == Abandoned(D.Gone);
    ss := RunTo(Abandoned(D.Gone));
  }

  lemma RunTo(s: D.State) returns (ss: seq<D.State>)
    requires Reached(s)
    ensures D.IsRun(ss) && ss[|ss| - 1] == s
  {
    ss :| D.IsRun(ss) && ss[|ss| - 1] == s;
  }

  /** A crash while the handler runs, and then a whole time to live of the guard's keys. */
  function Lapsed(place: D.Place, guard: Table, now: int, calls: seq<D.Run>): D.State {
    At(place, guard).(faults := 1, abandoned := {"e"}, now := now, runs := calls)
  }

  /**
   Once a key has lapsed the same attempt is handled again: that the handler sees it at most once
   needs the guard to keep what it holds.
   */
  lemma LapsedKeyRunsTwice() returns (ss: seq<D.State>)
    ensures D.IsRun(ss)
    ensures var s := ss[|ss| - 1];
      && s.failOpens == 0 && s.now == 86_400
      && |s.runs| == 2 && s.runs[0].id == s.runs[1].id == "e" && s.runs[0].attempt == s.runs[1].attempt == 0
  {
    hide KeyForAttempt, Reached;
    NoAttempts();
    Admitted();
    var call := D.Run("e", 0, None, false, None, false);
    var running := At(D.InFlight(D.Running(0)), Taken()).(runs := [call]);
    ReachedNext(At(D.InFlight(D.Acquired), Taken()), D.Start(0));
    assert D.Next(At(D.InFlight(D.Acquired), Taken()), D.Start(0)) == running;
    var ttl := DEFAULT_TTL_SECONDS;
    ReachedNext(running, D.Redeliver(0));
    assert D.Next(running, D.Redeliver(0)) == Lapsed(D.Queued, Taken(), 0, [call]);
    ReachedNext(Lapsed(D.Queued, Taken(), 0, [call]), D.Tick(ttl));
    assert D.Next(Lapsed(D.Queued, Taken(), 0, [call]), D.Tick(ttl)) == Lapsed(D.Queued, Taken(), ttl, [call]);
    ReachedNext(Lapsed(D.Queued, Taken(), ttl, [call]), D.Deliver(0));
    assert D.Next(Lapsed(D.Queued, Taken(), ttl, [call]), D.Deliver(0)) == Lapsed(D.InFlight(D.Delivered), Taken(), ttl, [call]);
    var again := Taken()[D.Key("e", 0) := ttl + ttl];
    ReachedNext(Lapsed(D.InFlight(D.Delivered), Taken(), ttl, [call]), D.Guard(0, false));
    assert D.Next(Lapsed(D.InFlight(D.Delivered), Taken(), ttl, [call]), D.Guard(0, false))
        == Lapsed(D.InFlight(D.Acquired), again, ttl, [call]);
    ReachedNext(Lapsed(D.InFlight(D.Acquired), again, ttl, [call]), D.Start(0));
    assert D.Next(Lapsed(D.InFlight(D.Acquired), again, ttl, [call]), D.Start(0))
        == Lapsed(D.InFlight(D.Running(1)), again, ttl, [call, call]);
    ss := RunTo(Lapsed(D.InFlight(D.Running(1)), again, ttl, [call, call]));
  }

  /** The state while the handler runs and after it, with the results published so far. */
  function Handling(place: D.Place, outcome: Option<D.Outcome>, reported: bool): D.State {
    At(place, Taken()).(runs := [D.Run("e", 0, outcome, false, None, reported)],
                        results := if reported then [D.Result("e", "d", true, 0)] else [])
  }

  /** A run without any fault that ends with nothing live: what the outcome theorems speak of exists. */
  lemma EnvelopeDelivered() returns (ss: seq<D.State>)
    ensures D.IsRun(ss)
    ensures var s := ss[|ss| - 1];
      && D.GuardReliable(s) && Loss.Quiescent(s) && s.faults == 0
      && |s.copies| == 1 && s.copies[0].body == TASK && Loss.Identified(TASK)
      && s.results == [D.Result("e", "d", true, 0)]
  {
    hide KeyForAttempt, Reached;
    NoAttempts();
    Admitted();
    var done := Some(D.Completed);
    ReachedNext(At(D.InFlight(D.Acquired), Taken()), D.Start(0));
    assert D.Next(At(D.InFlight(D.Acquired), Taken()), D.Start(0)) == Handling(D.InFlight(D.Running(0)), None, false);
    ReachedNext(Handling(D.InFlight(D.Running(0)), None, false), D.Finish(0, D.Completed));
    assert D.Next(Handling(D.InFlight(D.Running(0)), None, false), D.Finish(0, D.Completed))
        == Handling(D.InFlight(D.Handled(0)), done, false);
    ReachedNext(Handling(D.InFlight(D.Handled(0)), done, false), D.FollowUp(0, D.Confirmed));
    assert D.Next(Handling(D.InFlight(D.Handled(0)), done, false), D.FollowUp(0, D.Confirmed))
        == Handling(D.InFlight(D.AckDue), done, true);
    ReachedNext(Handling(D.InFlight(D.AckDue), done, true), D.Ack(0));
    assert D.Next(Handling(D.InFlight(D.AckDue), done, true), D.Ack(0)) == Handling(D.Gone, done, true);
    ss := RunTo(Handling(D.Gone, done, true));
  }

  // ---- two handlings of one result ---------------------------------------------------------------

  ghost predicate ReachedSystem(s: E.System) {
    exists ss :: E.IsRun(ss) && ss[|ss| - 1] == s
  }

  lemma ReachedSystemNext(s: E.System, a: E.Action)
    requires ReachedSystem(s) && E.Enabled(s, a)
    ensures ReachedSystem(E.Next(s, a))
  {
    hide E.Enabled, E.Next;
    var ss :| E.IsRun(ss) && ss[|ss| - 1] == s;
    var ss' := ss + [E.Next(s, a)];
    forall i | 0 <= i < |ss'| - 1 ensures E.Step(ss'[i], ss'[i + 1]) {
      if i < |ss| - 1 {
        assert E.Step(ss[i], ss[i + 1]);
      }
    }
    assert E.IsRun(ss') && ss'[|ss'| - 1] == E.Next(s, a);
  }

  function Row(sent: bool, calls: nat): O.Row {
    O.Row("e", "d", sent, 0, calls, calls, 0)
  }

  /** The envelope's row and its relay, before the broker has anything. */
  function Outboxed(row: O.Row, relays: map<nat, O.Tx>, net: D.State): E.System {
    E.System(map["d" := Processing], O.State([row], relays), net, [])
  }

  lemma FirstPublish()
    ensures var begun := Outboxed(Row(false, 0), map[0 := O.Tx([0], [])], D.INITIAL);
      E.Next(begun, E.Relay(O.TryPublish(0, true), false))
        == Outboxed(Row(false, 1), map[0 := O.Tx([0], [true])], At(D.Queued, map[]))
  {
    NoAttempts();
    var begun := O.State([Row(false, 0)], map[0 := O.Tx([0], [])]);
    var tried := O.Next(begun, O.TryPublish(0, true));
    assert tried.rows == [Row(false, 1)] && [] + [true] == [true];
    assert tried.relays == map[0 := O.Tx([0], [true])];
    assert tried == O.State([Row(false, 1)], map[0 := O.Tx([0], [true])]);
    assert D.Next(D.INITIAL, E.PublishOf(Row(false, 0))).copies == [Copy(D.Queued)];
    assert D.Next(D.INITIAL, E.PublishOf(Row(false, 0))) == At(D.Queued, map[]);
  }

  /** Uploaded, relayed with a confirm, committed. */
  lemma Relayed()
    ensures ReachedSystem(Outboxed(Row(true, 1), map[], At(D.Queued, map[])))
  {
    hide ReachedSystem;
    ReachedSystemInitial();
    NoAttempts();
    var idle := Outboxed(Row(false, 0), map[], D.INITIAL);
    ReachedSystemNext(E.INITIAL, E.Upload("d", "e"));
    assert E.Next(E.INITIAL, E.Upload("d", "e")) == idle;
    var begun := Outboxed(Row(false, 0), map[0 := O.Tx([0], [])], D.INITIAL);
    ReachedSystemNext(idle, E.Relay(O.Begin(0, 1), false));
    assert O.PendingFrom([Row(false, 0)], {}, 0, 1) == [0];
    assert O.HeldRows(idle.outbox) == {};
    assert E.Next(idle, E.Relay(O.Begin(0, 1), false)) == begun;
    var tried := Outboxed(Row(false, 1), map[0 := O.Tx([0], [true])], At(D.Queued, map[]));
    ReachedSystemNext(begun, E.Relay(O.TryPublish(0, true), false));
    assert E.Next(begun, E.Relay(O.TryPublish(0, true), false)) == tried by {
      FirstPublish();
    }
    ReachedSystemNext(tried, E.Relay(O.Commit(0), false));
    assert O.Position([0], 0) == 0;
    assert E.Next(tried, E.Relay(O.Commit(0), false)).outbox.rows == [Row(true, 1)];
  }

  lemma ReachedSystemInitial()
    ensures ReachedSystem(E.INITIAL)
  {
    assert E.IsRun([E.INITIAL]);
  }

  /** What the worker does, as seen by the whole system. */
  lemma Worked(net: D.State, act: D.Action)
    requires ReachedSystem(Outboxed(Row(true, 1), map[], net)) && D.Enabled(net, act) && !act.Publish?
    requires net.results == []
    ensures |D.Next(net, act).results| == 0 ==> ReachedSystem(Outboxed(Row(true, 1), map[], D.Next(net, act)))
    ensures |D.Next(net, act).results| == 1 ==>
      ReachedSystem(Outboxed(Row(true, 1), map[], D.Next(net, act)).(inbox := [E.Handling(0, E.Arrived)]))
  {
    hide ReachedSystem, D.Enabled, D.Next;
    var s := Outboxed(Row(true, 1), map[], net);
    ReachedSystemNext(s, E.Work(act));
    if |D.Next(net, act).results| == 1 {
      assert E.Grown([], 0, 1) == [E.Handling(0, E.Arrived)];
    }
  }

  /** Everything but the documents and the handlings is at rest. */
  function Resting(st: Status, inbox: seq<E.Handling>): E.System {
    Outboxed(Row(true, 1), map[], Handling(D.Gone, Some(D.Completed), true)).(docs := map["d" := st], inbox := inbox)
  }

  lemma Reported()
    ensures ReachedSystem(Resting(Processing, [E.Handling(0, E.Arrived)]))
  {
    hide KeyForAttempt, ReachedSystem;
    NoAttempts();
    Relayed();
    var done := Some(D.Completed);
    Worked(At(D.Queued, map[]), D.Deliver(0));
    assert D.Next(At(D.Queued, map[]), D.Deliver(0)) == At(D.InFlight(D.Delivered), map[]);
    Worked(At(D.InFlight(D.Delivered), map[]), D.Guard(0, false));
    assert D.Next(At(D.InFlight(D.Delivered), map[]), D.Guard(0, false)) == At(D.InFlight(D.Acquired), Taken());
    Worked(At(D.InFlight(D.Acquired), Taken()), D.Start(0));
    assert D.Next(At(D.InFlight(D.Acquired), Taken()), D.Start(0)) == Handling(D.InFlight(D.Running(0)), None, false);
    Worked(Handling(D.InFlight(D.Running(0)), None, false), D.Finish(0, D.Completed));
    assert D.Next(Handling(D.InFlight(D.Running(0)), None, false), D.Finish(0, D.Completed))
        == Handling(D.InFlight(D.Handled(0)), done, false);
    var due := Handling(D.InFlight(D.AckDue), done, true);
    Worked(Handling(D.InFlight(D.Handled(0)), done, false), D.FollowUp(0, D.Confirmed));
    assert D.Next(Handling(D.InFlight(D.Handled(0)), done, false), D.FollowUp(0, D.Confirmed)) == due;
    var s := Outboxed(Row(true, 1), map[], due).(inbox := [E.Handling(0, E.Arrived)]);
    ReachedSystemNext(s, E.Work(D.Ack(0)));
    assert D.Next(due, D.Ack(0)) == Handling(D.Gone, done, true);
    assert E.Next(s, E.Work(D.Ack(0))) == Resting(Processing, [E.Handling(0, E.Arrived)]);
  }

  /**
   A redelivery overtakes the first handling: the document is completed while the first handler
   still holds the status it read before, and is about to write.
   */
  lemma StaleReadIsReached()
    ensures ReachedSystem(Resting(Completed, [E.Handling(0, E.Read(Some(Processing))), E.Handling(0, E.Settled)]))
  {
    hide ReachedSystem;
    Reported();
    var arrived := E.Handling(0, E.Arrived);
    var held := E.Handling(0, E.Read(Some(Processing)));
    ReachedSystemNext(Resting(Processing, [arrived]), E.ReadDocument(0));
    assert E.Next(Resting(Processing, [arrived]), E.ReadDocument(0)) == Resting(Processing, [held]);
    ReachedSystemNext(Resting(Processing, [held]), E.RedeliverResult(0, false));
    assert E.Next(Resting(Processing, [held]), E.RedeliverResult(0, false)) == Resting(Processing, [held, arrived]);
    ReachedSystemNext(Resting(Processing, [held, arrived]), E.ReadDocument(1));
    assert E.Next(Resting(Processing, [held, arrived]), E.ReadDocument(1)) == Resting(Processing, [held, held]);
    ReachedSystemNext(Resting(Processing, [held, held]), E.WriteDocument(1, true));
    assert E.Next(Resting(Processing, [held, held]), E.WriteDocument(1, true))
        == Resting(Completed, [held, E.Handling(0, E.Settled)]);
  }

  /** Its late write repeats the status, and then everything is quiet: the end-to-end theorem applies. */
  lemma StaleWriteIsHarmless() returns (ss: seq<E.System>)
    ensures E.IsRun(ss)
    ensures var s := ss[|ss| - 1];
      E.AllQuiet(s) && D.GuardReliable(s.net) && s.net.faults == 0 && s.docs == map["d" := Completed]
  {
    hide ReachedSystem;
    StaleReadIsReached();
    var held, settled := E.Handling(0, E.Read(Some(Processing))), E.Handling(0, E.Settled);
    ReachedSystemNext(Resting(Completed, [held, settled]), E.WriteDocument(0, true));
    assert E.Next(Resting(Completed, [held, settled]), E.WriteDocument(0, true)) == Resting(Completed, [settled, settled]);
    ss := SystemRunTo(Resting(Completed, [settled, settled]));
  }

  lemma SystemRunTo(s: E.System) returns (ss: seq<E.System>)
    requires ReachedSystem(s)
    ensures E.IsRun(ss) && ss[|ss| - 1] == s
  {
    ss :| E.IsRun(ss) && ss[|ss| - 1] == s;
  }
}
