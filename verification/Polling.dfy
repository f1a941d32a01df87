/**
 The deadline poller of the experiment runner: how long it can go on, and what a verdict rests on.
 Time is the monotonic clock, in real seconds; probes and reads of the clock take any time at all.
 */
module Polling {
  import opened Options

  /** A probe of one assertion: when it was made, and the elapsed time of the round it was made in. */
  datatype Probe = Probe(index: nat, passed: bool, note: string, at: real, elapsed: real)

  datatype AssertionResult = AssertionResult(index: nat, passed: bool, note: string, elapsed: real)

  /** Clock and probed systems. */
  class World {
    var now: real
    ghost var log: seq<Probe>

    constructor ()
      ensures log == []
    {
      now, log := 0.0, [];
    }

    method Pass()
      modifies this`now
      ensures now >= old(now)
    {
      var d: real := *;
      if d > 0.0 {
        now := now + d;
      }
    }

    method Monotonic() returns (t: real)
      modifies this`now
      ensures t == now >= old(now)
    {
      Pass();
      t := now;
    }

    /** Sleeps at least as long as it is told to. */
    method Sleep(d: real)
      requires d >= 0.0
      modifies this`now
      ensures now >= old(now) + d
    {
      now := now + d;
      Pass();
    }

    method ProbeOnce(i: nat, ghost elapsed: real) returns (passed: bool, note: string)
      modifies this`now, this`log
      ensures now >= old(now)
      ensures log == old(log) + [Probe(i, passed, note, old(now), elapsed)]
    {
      passed, note := *, *;
      log := log + [Probe(i, passed, note, now, elapsed)];
      Pass();
    }
  }

  ghost function ProbesOf(log: seq<Probe>, i: nat): (r: seq<Probe>)
    ensures forall p <- r :: p.index == i
  {
    if log == [] then []
    else
      var last := log[|log| - 1];
      ProbesOf(log[..|log| - 1], i) + if last.index == i then [last] else []
  }

  lemma ProbesOfOneMore(log: seq<Probe>, p: Probe, i: nat)
    ensures ProbesOf(log + [p], i) == ProbesOf(log, i) + if p.index == i then [p] else []
  {
    assert (log + [p])[..|log|] == log;
  }

  /** No probe comes before the round it belongs to. */
  ghost predicate Timed(log: seq<Probe>, start: real) {
    forall p <- log :: 0.0 <= p.elapsed <= p.at - start
  }

  /** A probe that leaves its assertion pending. */
  ghost predicate Inconclusive(p: Probe, deadline: real) {
    !p.passed && p.elapsed < deadline
  }

  /**
   What a verdict rests on: every probe but the last was inconclusive; the last one passed, or
   failed in a round that began at or after the deadline; and the verdict repeats it.
   */
  ghost predicate Justified(r: Option<AssertionResult>, i: nat, probes: seq<Probe>, deadline: real) {
    match r
    case None => forall p <- probes :: Inconclusive(p, deadline)
    case Some(x) =>
      && probes != []
      && var last := probes[|probes| - 1];
      && x == AssertionResult(i, last.passed, last.note, last.elapsed)
      && (last.passed || last.elapsed >= deadline)
      && forall p <- probes[..|probes| - 1] :: Inconclusive(p, deadline)
  }

  ghost predicate AllJustified(results: seq<Option<AssertionResult>>, log: seq<Probe>, deadlines: seq<real>)
    requires |results| == |deadlines|
  {
    forall i :: 0 <= i < |results| ==> Justified(results[i], i, ProbesOf(log, i), deadlines[i])
  }

  function Settled(results: seq<Option<AssertionResult>>): nat {
    if results == [] then 0
    else Settled(results[..|results| - 1]) + if results[|results| - 1].Some? then 1 else 0
  }

  lemma {:induction false} SettledBound(results: seq<Option<AssertionResult>>)
    ensures Settled(results) <= |results|
    ensures Settled(results) == |results| <==> forall r <- results :: r.Some?
  {
    if results != [] {
      var n := |results| - 1;
      SettledBound(results[..n]);
      assert results == results[..n] + [results[n]];
    }
  }

  lemma {:induction false} SettleOne(results: seq<Option<AssertionResult>>, i: nat, r: AssertionResult)
    requires i < |results| && results[i].None?
    ensures Settled(results[i := Some(r)]) == Settled(results) + 1
  {
    var n := |results| - 1;
    if i == n {
      assert results[i := Some(r)][..n] == results[..n];
    } else {
      SettleOne(results[..n], i, r);
      assert results[i := Some(r)][..n] == results[..n][i := Some(r)];
    }
  }

  function Largest(deadlines: seq<real>): real {
    if deadlines == [] then 0.0
    else
      var m := Largest(deadlines[1..]);
      if deadlines[0] > m then deadlines[0] else m
  }

  lemma {:induction false} LargestBounds(deadlines: seq<real>)
    ensures Largest(deadlines) >= 0.0 && forall d <- deadlines :: d <= Largest(deadlines)
  {
    if deadlines != [] {
      LargestBounds(deadlines[1..]);
      assert deadlines == [deadlines[0]] + deadlines[1..];
    }
  }

  /** Some time that no timeout exceeds. */
  ghost predicate NoneLonger(deadlines: seq<real>, m: real) {
    m >= 0.0 && forall d <- deadlines :: d <= m
  }

  lemma {:induction false} LargestIsLeast(deadlines: seq<real>, m: real)
    requires NoneLonger(deadlines, m)
    ensures Largest(deadlines) <= m
  {
    if deadlines != [] {
      assert deadlines[0] in deadlines && forall d <- deadlines[1..] :: d in deadlines;
      LargestIsLeast(deadlines[1..], m);
    }
  }

  /** The bound on rounds is one for any time that no timeout exceeds. */
  lemma WholeIntervalsOf(deadlines: seq<real>, interval: real, m: real)
    requires interval > 0.0 && NoneLonger(deadlines, m)
    ensures WholeIntervals(deadlines, interval) <= (m / interval).Floor
  {
    LargestIsLeast(deadlines, m);
    var x := Largest(deadlines) / interval;
    assert x * interval == Largest(deadlines);
    AtMostQuotient(x, m, interval);
  }

  /** Whole intervals in the largest timeout; negative timeouts count as zero. */
  function WholeIntervals(deadlines: seq<real>, interval: real): int
    requires interval > 0.0
  {
    (Largest(deadlines) / interval).Floor
  }

  lemma FullSleepsFit(full: nat, deadlines: seq<real>, interval: real)
    requires interval > 0.0 && full as real * interval <= Largest(deadlines)
    ensures full <= WholeIntervals(deadlines, interval)
  {
    AtMostQuotient(full as real, Largest(deadlines), interval);
  }

  lemma AtMostQuotient(x: real, a: real, d: real)
    requires d > 0.0 && x * d <= a
    ensures x <= a / d
  {
    var q := a / d;
    assert (q - x) * d == a - x * d >= 0.0;
  }

  /** Some pending assertion is past its deadline. */
  ghost predicate Due(results: seq<Option<AssertionResult>>, deadlines: seq<real>, elapsed: real)
    requires |results| == |deadlines|
  {
    exists i :: 0 <= i < |results| && results[i].None? && deadlines[i] <= elapsed
  }

  lemma {:induction false} SettledGrows(before: seq<Option<AssertionResult>>, results: seq<Option<AssertionResult>>, k: nat)
    requires |before| == |results| && forall i :: 0 <= i < |before| && before[i].Some? ==> results[i].Some?
    ensures Settled(results) >= Settled(before)
      + if k < |before| && before[k].None? && results[k].Some? then 1 else 0
  {
    if before != [] {
      SettledGrows(before[..|before| - 1], results[..|before| - 1], k);
    }
  }

  /** What a round has done about assertion `i`: nothing yet, or one probe if it was pending. */
  ghost predicate Handled(before: Option<AssertionResult>, after: Option<AssertionResult>,
                          probesBefore: seq<Probe>, probesAfter: seq<Probe>,
                          deadline: real, elapsed: real, visited: bool) {
    if before.Some? || !visited then after == before && probesAfter == probesBefore
    else |probesAfter| == |probesBefore| + 1 && (after.None? ==> elapsed < deadline)
  }

  /** One pending assertion: probe it, and settle it if it passes or its time is up. */
  method Consider(w: World, i: nat, deadline: real, elapsed: real, ghost start: real) returns (r: Option<AssertionResult>)
    requires Justified(None, i, ProbesOf(w.log, i), deadline)
    requires Timed(w.log, start) && 0.0 <= elapsed <= w.now - start
    modifies w
    ensures w.now >= old(w.now) && Timed(w.log, start)
    ensures Justified(r, i, ProbesOf(w.log, i), deadline)
    ensures Handled(None, r, ProbesOf(old(w.log), i), ProbesOf(w.log, i), deadline, elapsed, true)
    ensures forall k: nat :: k != i ==> ProbesOf(w.log, k) == ProbesOf(old(w.log), k)
  {
    ghost var log, at := w.log, w.now;
    var passed, note := w.ProbeOnce(i, elapsed);
    forall k: nat
      ensures ProbesOf(w.log, k) == ProbesOf(log, k) + if k == i then [Probe(i, passed, note, at, elapsed)] else []
    {
      ProbesOfOneMore(log, Probe(i, passed, note, at, elapsed), k);
    }
    assert forall p <- ProbesOf(log, i) :: Inconclusive(p, deadline);
    if passed {
      return Some(AssertionResult(i, true, note, elapsed));
    } else if elapsed >= deadline {
      return Some(AssertionResult(i, false, note, elapsed));
    }
    return None;
  }

  /** One pass over the pending assertions, one probe each. */
  method Round(w: World, deadlines: seq<real>, before: seq<Option<AssertionResult>>, elapsed: real, ghost start: real)
    returns (results: seq<Option<AssertionResult>>)
    requires |before| == |deadlines| && AllJustified(before, w.log, deadlines)
    requires Timed(w.log, start) && 0.0 <= elapsed <= w.now - start
    modifies w
    ensures w.now >= old(w.now) && Timed(w.log, start)
    ensures |results| == |deadlines| && AllJustified(results, w.log, deadlines)
    ensures forall i :: 0 <= i < |results| ==>
      Handled(before[i], results[i], ProbesOf(old(w.log), i), ProbesOf(w.log, i), deadlines[i], elapsed, true)
    ensures Settled(results) >= Settled(before) + if Due(before, deadlines, elapsed) then 1 else 0
  {
    hide Justified, ProbesOf, Timed;
    results := before;
    for i := 0 to |deadlines|
      invariant |results| == |deadlines| && w.now >= old(w.now) && Timed(w.log, start)
      invariant AllJustified(results, w.log, deadlines)
      invariant forall k :: 0 <= k < |results| ==>
        Handled(before[k], results[k], ProbesOf(old(w.log), k), ProbesOf(w.log, k), deadlines[k], elapsed, k < i)
    {
      if results[i].Some? {
        continue;
      }
      var r := Consider(w, i, deadlines[i], elapsed, start);
      results := results[i := r];
    }
    ghost var due := |before|;
    if Due(before, deadlines, elapsed) {
      due :| 0 <= due < |before| && before[due].None? && deadlines[due] <= elapsed;
    }
    SettledGrows(before, results, due);
  }

  /** How long to sleep before the next round; None when nothing is pending. */
  method NextSleep(w: World, deadlines: seq<real>, results: seq<Option<AssertionResult>>, start: real, interval: real)
    returns (sleep: Option<real>, ghost least: nat)
    requires |results| == |deadlines| && interval > 0.0
    modifies w`now
    ensures w.now >= old(w.now)
    ensures sleep.None? <==> forall r <- results :: r.Some?
    ensures sleep.Some? ==> least < |results| && results[least].None? && sleep.value >= 0.0
    ensures sleep.Some? ==>
      || (sleep.value == interval && old(w.now) - start + interval <= deadlines[least])
      || w.now + sleep.value - start >= deadlines[least]
    ensures sleep.Some? ==> sleep.value <= interval
    ensures sleep.Some? && sleep.value > 0.0 ==>
      forall i :: 0 <= i < |results| && results[i].None? ==> old(w.now) - start + sleep.value <= deadlines[i]
  {
    var min: Option<real> := None;
    least := 0;
    for i := 0 to |results|
      invariant w.now >= old(w.now)
      invariant min.None? <==> forall k :: 0 <= k < i ==> results[k].Some?
      invariant min.Some? ==> least < i && results[least].None?
      invariant min.Some? ==> old(w.now) - start + min.value <= deadlines[least] <= w.now - start + min.value
      invariant min.Some? ==>
        forall k :: 0 <= k < i && results[k].None? ==> old(w.now) - start + min.value <= deadlines[k]
    {
      if results[i].None? {
        var t := w.Monotonic();
        var pending := deadlines[i] - (t - start);
        if min.None? || pending < min.value {
          min, least := Some(pending), i;
        }
      }
    }
    if min.None? {
      return None, least;
    }
    var s := if min.value < interval then min.value else interval;
    return Some(if s > 0.0 then s else 0.0), least;
  }

  /** `full` whole sleeps fit into the time gone by and into the largest timeout. */
  ghost predicate Paced(full: nat, deadlines: seq<real>, interval: real, elapsed: real)
    requires interval > 0.0
  {
    full <= WholeIntervals(deadlines, interval) && full as real * interval <= elapsed
  }

  lemma OneFullSleep(full: nat, deadlines: seq<real>, interval: real, elapsed: real, deadline: real)
    requires interval > 0.0 && Paced(full, deadlines, interval, elapsed)
    requires deadline in deadlines && elapsed + interval <= deadline
    ensures Paced(full + 1, deadlines, interval, elapsed + interval)
  {
    assert (full + 1) as real * interval == full as real * interval + interval;
    LargestBounds(deadlines);
    FullSleepsFit(full + 1, deadlines, interval);
  }

  lemma PacedLater(full: nat, deadlines: seq<real>, interval: real, elapsed: real, later: real)
    requires interval > 0.0 && Paced(full, deadlines, interval, elapsed) && elapsed <= later
    ensures Paced(full, deadlines, interval, later)
  {
  }

  /** Sleeps before the next round: a whole interval, or until some pending assertion is due. */
  method Wait(w: World, deadlines: seq<real>, results: seq<Option<AssertionResult>>, start: real, interval: real, ghost full: nat)
    returns (done: bool, ghost full': nat)
    requires |results| == |deadlines| && interval > 0.0 && Paced(full, deadlines, interval, w.now - start)
    modifies w`now
    ensures done <==> forall r <- results :: r.Some?
    ensures Paced(full', deadlines, interval, w.now - start) && w.now >= old(w.now)
    ensures full' == full + 1 || (full' == full && (done || Due(results, deadlines, w.now - start)))
  {
    hide Paced;
    full' := full;
    ghost var before := w.now;
    var sleep, least := NextSleep(w, deadlines, results, start, interval);
    if sleep.None? {
      PacedLater(full, deadlines, interval, before - start, w.now - start);
      return true, full';
    }
    w.Sleep(sleep.value);
    if sleep.value == interval && before - start + interval <= deadlines[least] {
      OneFullSleep(full, deadlines, interval, before - start, deadlines[least]);
      full' := full + 1;
      PacedLater(full', deadlines, interval, before - start + interval, w.now - start);
    } else {
      PacedLater(full, deadlines, interval, before - start, w.now - start);
    }
    return false, full';
  }

  /**
   Polls until every assertion is settled. It ends, after at most one round plus one per assertion
   plus one per whole interval in the largest timeout.
   */
  method PollAssertions(w: World, deadlines: seq<real>, interval: real)
    returns (results: seq<AssertionResult>, ghost rounds: nat, ghost start: real)
    requires interval > 0.0 && w.log == []
    modifies w
    ensures old(w.now) <= start <= w.now && Timed(w.log, start)
    ensures |results| == |deadlines|
    ensures forall i :: 0 <= i < |results| ==> Justified(Some(results[i]), i, ProbesOf(w.log, i), deadlines[i])
    ensures deadlines == [] ==> rounds == 0
    ensures forall m :: NoneLonger(deadlines, m) ==> rounds <= 1 + |deadlines| + (m / interval).Floor
  {
    hide Justified, Paced, Due, WholeIntervals, Settled, ProbesOf, Handled, NoneLonger;
    var settled: seq<Option<AssertionResult>> := seq(|deadlines|, _ => None);
    var began := w.Monotonic();
    start := began;
    ghost var full: nat := Begin(w.log, settled, deadlines, interval, w.now - start);
    rounds := 0;
    ghost var due := false;
    var done := deadlines == [];
    while !done
      invariant |settled| == |deadlines| && AllJustified(settled, w.log, deadlines)
      invariant Timed(w.log, start) && old(w.now) <= start == began <= w.now
      invariant done <==> Settled(settled) == |deadlines|
      invariant Settled(settled) <= |deadlines|
      invariant rounds <= full + Settled(settled) + if due || done then 1 else 0
      invariant due && !done ==> Due(settled, deadlines, w.now - start)
      invariant Paced(full, deadlines, interval, w.now - start) && full <= WholeIntervals(deadlines, interval)
      invariant deadlines == [] ==> rounds == 0
      decreases 1 + |deadlines| + WholeIntervals(deadlines, interval) - rounds
    {
      ghost var elapsed := w.now - start;
      var t := w.Monotonic();
      DueLater(settled, deadlines, elapsed, t - start);
      settled := Round(w, deadlines, settled, t - began, start);
      rounds := rounds + 1;
      SettledBound(settled);
      PacedLater(full, deadlines, interval, elapsed, w.now - start);
      ghost var before := full;
      done, full := Wait(w, deadlines, settled, began, interval, full);
      PacedIsWhole(full, deadlines, interval, w.now - start);
      due := full == before;
    }
    SettledBound(settled);
    assert forall i :: 0 <= i < |settled| ==> settled[i] in settled;
    results := seq(|settled|, i requires 0 <= i < |settled| => settled[i].value);
    assert forall i :: 0 <= i < |results| ==> settled[i] == Some(results[i]);
    forall m | NoneLonger(deadlines, m) ensures rounds <= 1 + |deadlines| + (m / interval).Floor {
      WholeIntervalsOf(deadlines, interval, m);
    }
  }

  lemma DueLater(results: seq<Option<AssertionResult>>, deadlines: seq<real>, elapsed: real, later: real)
    requires |results| == |deadlines| && elapsed <= later
    ensures Due(results, deadlines, elapsed) ==> Due(results, deadlines, later)
  {
  }

  lemma PacedIsWhole(full: nat, deadlines: seq<real>, interval: real, elapsed: real)
    requires interval > 0.0 && Paced(full, deadlines, interval, elapsed)
    ensures full <= WholeIntervals(deadlines, interval)
  {
  }

  lemma Begin(log: seq<Probe>, settled: seq<Option<AssertionResult>>, deadlines: seq<real>, interval: real, elapsed: real)
    returns (full: nat)
    requires log == [] && |settled| == |deadlines| && (forall r <- settled :: r.None?) && interval > 0.0 && elapsed >= 0.0
    ensures full == 0 && Paced(full, deadlines, interval, elapsed) && 0 <= WholeIntervals(deadlines, interval)
    ensures AllJustified(settled, log, deadlines) && Settled(settled) == 0
  {
    full := 0;
    LargestBounds(deadlines);
    FullSleepsFit(0, deadlines, interval);
    NoneSettled(settled);
  }

  lemma {:induction false} NoneSettled(settled: seq<Option<AssertionResult>>)
    requires forall r <- settled :: r.None?
    ensures Settled(settled) == 0
  {
    if settled != [] {
      assert settled[|settled| - 1] in settled;
      NoneSettled(settled[..|settled| - 1]);
    }
  }
}
