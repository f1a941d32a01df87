/**
 Which envelopes reach an outcome. With a reliable guard an envelope can be lost in one way
 only: a worker lets go of a delivery after the guard has admitted its attempt and before the
 follow-up publish has taken effect. The redelivery then looks like a duplicate. All other
 crashes, redeliveries, duplicates and unseen confirms are harmless.
 */
module DeliveryLoss {
  import opened Options
  import opened Retry
  import opened Idempotency
  import opened Delivery
  import opened DeliverySafety

  ghost predicate HasResult(s: State, id: string) {
    exists j :: 0 <= j < |s.results| && s.results[j].id == id
  }

  /** This copy will still bring `id` forward: its next guard key is free, or it is past the guard. */
  ghost predicate Carries(m: Copy, id: string, guard: Table) {
    && m.body.Task? && m.body.id == id
    && match m.place
       case Queued => Key(id, Attempt(m.headers)) !in guard
       case Waiting(_) => Key(id, Attempt(m.headers) + 1) !in guard
       case InFlight(Delivered) => Key(id, Attempt(m.headers)) !in guard
       case InFlight(phase) => phase != AckDue
       case _ => false
  }

  ghost predicate Covered(s: State, id: string) {
    HasResult(s, id) || exists c :: 0 <= c < |s.copies| && Carries(s.copies[c], id, s.guard)
  }

  predicate Identified(body: Body) {
    body.Task? && body.id != ""
  }

  /** An envelope that was not abandoned still has its result or a copy that will bring it. */
  ghost predicate NothingElseLost(s: State) {
    forall c :: 0 <= c < |s.copies| && Identified(s.copies[c].body) && s.copies[c].body.id !in s.abandoned ==>
      Covered(s, s.copies[c].body.id)
  }

  /** An abandoned envelope has neither, and its first key is spent. */
  ghost predicate AbandonedLost(s: State) {
    forall id <- s.abandoned :: id != "" ==> Key(id, 0) in s.guard && !Covered(s, id)
  }

  ghost predicate AckedAttemptsSpent(s: State) {
    forall c :: 0 <= c < |s.copies| && s.copies[c].place == InFlight(AckDue) && Identified(s.copies[c].body) ==>
      Key(s.copies[c].body.id, Attempt(s.copies[c].headers)) in s.guard
  }

  /** A key was taken by a call of the handler, by a copy just admitted, or by one since abandoned. */
  ghost predicate Accounted(s: State, key: string) {
    || (exists r :: 0 <= r < |s.runs| && s.runs[r].id != "" && Key(s.runs[r].id, s.runs[r].attempt) == key)
    || (exists c :: 0 <= c < |s.copies| && AdmittedFor(s.copies[c]).Some?
          && Key(AdmittedFor(s.copies[c]).value.0, AdmittedFor(s.copies[c]).value.1) == key)
    || AbandonedKey(s, key)
  }

  ghost predicate AbandonedKey(s: State, key: string) {
    exists id, n :: id in s.abandoned && key == Key(id, n)
  }

  ghost predicate HasCopy(s: State, id: string) {
    exists c :: 0 <= c < |s.copies| && s.copies[c].body.Task? && s.copies[c].body.id == id
  }

  ghost predicate Orderly(s: State) {
    && (forall k <- s.guard :: Accounted(s, k))
    && (forall r :: 0 <= r < |s.runs| ==> HasCopy(s, s.runs[r].id))
    && AckedAttemptsSpent(s)
    && NothingElseLost(s)
    && AbandonedLost(s)
  }

  // ---- accounting for keys -------------------------------------------------------------

  /** Copies keep their bodies, handler calls keep their names, and nothing is removed. */
  ghost predicate Keeps(s: State, s': State) {
    && |s.copies| <= |s'.copies| && |s.runs| <= |s'.runs| && |s.results| <= |s'.results|
    && (forall c :: 0 <= c < |s.copies| ==> s'.copies[c].body == s.copies[c].body)
    && (forall r :: 0 <= r < |s.runs| ==>
          s'.runs[r].id == s.runs[r].id && s'.runs[r].attempt == s.runs[r].attempt)
    && (forall j :: 0 <= j < |s.results| ==> s'.results[j] == s.results[j])
  }

  lemma PublishedKeeps(s: State, c: nat, r: nat, f: Follow)
    requires c < |s.copies| && r < |s.runs| && s.copies[c].body.Task?
    ensures Keeps(s, Published(s, c, r, f)) && Published(s, c, r, f).abandoned == s.abandoned
  {
  }

  lemma StepKeeps(s: State, a: Action)
    requires Enabled(s, a)
    ensures Keeps(s, Next(s, a)) && s.abandoned <= Next(s, a).abandoned
  {
    hide Attempt, OnRung, OnExpiry, Route, KeyForAttempt, Published;
    if a.FollowUp? {
      PublishedKeeps(s, a.c, s.copies[a.c].place.phase.run, Owed(s, a.c));
    }
  }

  lemma AccountedStays(s: State, s': State, key: string)
    requires Keeps(s, s') && Accounted(s, key)
    requires forall c :: 0 <= c < |s.copies| ==> AdmissionGoesOn(s.copies[c], s'.copies[c], s')
    requires s.abandoned <= s'.abandoned
    ensures Accounted(s', key)
  {
    hide Attempt, KeyForAttempt;
    if r :| 0 <= r < |s.runs| && s.runs[r].id != "" && Key(s.runs[r].id, s.runs[r].attempt) == key {
      assert s'.runs[r].id == s.runs[r].id;
    } else if !AbandonedKey(s, key) {
      var c :| 0 <= c < |s.copies| && AdmittedFor(s.copies[c]).Some?
               && Key(AdmittedFor(s.copies[c]).value.0, AdmittedFor(s.copies[c]).value.1) == key;
      var (id, n) := AdmittedFor(s.copies[c]).value;
      if AdmittedFor(s'.copies[c]) != AdmittedFor(s.copies[c]) && id !in s'.abandoned {
        var r :| 0 <= r < |s'.runs| && s'.runs[r].id == id && s'.runs[r].attempt == n;
      }
    }
  }

  /** A delivery admitted for (id, attempt) stays admitted, reaches the handler, or is abandoned. */
  ghost predicate AdmissionGoesOn(m: Copy, m': Copy, s': State) {
    AdmittedFor(m).Some? ==>
      || AdmittedFor(m') == AdmittedFor(m)
      || HasRun(s'.runs, AdmittedFor(m).value.0, AdmittedFor(m).value.1)
      || AdmittedFor(m).value.0 in s'.abandoned
  }

  lemma AdmissionsGoOn(s: State, a: Action, c: nat)
    requires Enabled(s, a) && c < |s.copies|
    ensures c < |Next(s, a).copies| && AdmissionGoesOn(s.copies[c], Next(s, a).copies[c], Next(s, a))
  {
    hide Attempt, KeyForAttempt, Route, OnRung, OnExpiry;
    StepKeeps(s, a);
    StepTouches(s, a);
    if Subject(a) == Some(c) && AdmittedFor(s.copies[c]).Some? {
      AdmittedSubject(s, a);
    }
    hide Next, Enabled, HasRun, AdmittedFor;
  }

  /** From the admitted phase a copy can only be handed to the handler or requeued. */
  lemma AdmittedSubject(s: State, a: Action)
    requires Enabled(s, a) && Subject(a).Some? && Subject(a).value < |s.copies|
    requires AdmittedFor(s.copies[Subject(a).value]).Some?
    ensures var m := s.copies[Subject(a).value];
      || HasRun(Next(s, a).runs, AdmittedFor(m).value.0, AdmittedFor(m).value.1)
      || AdmittedFor(m).value.0 in Next(s, a).abandoned
  {
    hide Attempt, KeyForAttempt, Route, OnRung, OnExpiry, AfterFollowUp, AfterGuard, AfterPublish;
    if a.Start? {
      assert Next(s, a).runs[|s.runs|].id == s.copies[a.c].body.id;
    }
  }

  lemma KeysAccounted(s: State, a: Action)
    requires (forall k <- s.guard :: Accounted(s, k)) && Enabled(s, a)
    ensures forall k <- Next(s, a).guard :: Accounted(Next(s, a), k)
  {
    hide Attempt, KeyForAttempt, Accounted, Next, Enabled, AdmittedFor, HasRun;
    var s' := Next(s, a);
    StepKeeps(s, a);
    forall c | 0 <= c < |s.copies| ensures AdmissionGoesOn(s.copies[c], s'.copies[c], s') {
      AdmissionsGoOn(s, a, c);
    }
    forall k <- s'.guard ensures Accounted(s', k) {
      if k in s.guard {
        AccountedStays(s, s', k);
      } else {
        NewKeyAccounted(s, a, k);
      }
    }
  }

  lemma NewKeyAccounted(s: State, a: Action, k: string)
    requires Enabled(s, a) && k in Next(s, a).guard && k !in s.guard
    ensures a.Guard? && s.copies[a.c].body.Task? && s.copies[a.c].body.id != ""
    ensures k == Key(s.copies[a.c].body.id, Attempt(s.copies[a.c].headers))
    ensures Next(s, a).copies[a.c].place == InFlight(Acquired)
    ensures Accounted(Next(s, a), k)
  {
    hide Attempt, KeyForAttempt, Route, OnRung, OnExpiry;
    var s' := Next(s, a);
    assert s'.guard != s.guard;
    var m := s'.copies[a.c];
    assert AdmittedFor(m) == Some((m.body.id, Attempt(m.headers)));
  }

  lemma CallsHaveCopies(s: State, a: Action)
    requires (forall r :: 0 <= r < |s.runs| ==> HasCopy(s, s.runs[r].id)) && Enabled(s, a)
    requires Shape(s)
    ensures forall r :: 0 <= r < |Next(s, a).runs| ==> HasCopy(Next(s, a), Next(s, a).runs[r].id)
  {
    hide Attempt, KeyForAttempt, Route, OnRung, OnExpiry, CopyOk, RunOk;
    var s' := Next(s, a);
    StepKeeps(s, a);
    forall r | 0 <= r < |s'.runs| ensures HasCopy(s', s'.runs[r].id) {
      if r < |s.runs| {
        var c :| 0 <= c < |s.copies| && s.copies[c].body.Task? && s.copies[c].body.id == s.runs[r].id;
        assert s'.copies[c].body == s.copies[c].body;
      } else {
        assert s'.copies[a.c].body == s.copies[a.c].body;
      }
    }
  }

  // ---- no envelope is lost ---------------------------------------------------------------

  ghost predicate KeyOfOther(other: Body, id: string, key: string) {
    other.Task? && other.id != id && exists n :: key == Key(other.id, n)
  }

  /** Coverage survives when only copy `c` and keys of its own envelope change. */
  lemma CoverageFrame(s: State, s': State, c: nat, id: string)
    requires Keeps(s, s') && Covered(s, id) && c < |s.copies|
    requires forall d :: 0 <= d < |s.copies| && d != c ==> s'.copies[d] == s.copies[d]
    requires forall k <- s'.guard :: k in s.guard || KeyOfOther(s.copies[c].body, id, k)
    requires Carries(s.copies[c], id, s.guard) ==> Covered(s', id)
    ensures Covered(s', id)
  {
    hide Attempt, KeyForAttempt;
    if j :| 0 <= j < |s.results| && s.results[j].id == id {
      assert s'.results[j].id == id;
    } else {
      var d :| 0 <= d < |s.copies| && Carries(s.copies[d], id, s.guard);
      if d != c {
        CarrierStays(s.copies[d], id, s.guard, s'.guard, s.copies[c].body);
        assert Carries(s'.copies[d], id, s'.guard);
      }
    }
  }

  lemma CarrierStays(m: Copy, id: string, guard: Table, guard': Table, other: Body)
    requires Carries(m, id, guard)
    requires forall k <- guard' :: k in guard || KeyOfOther(other, id, k)
    ensures Carries(m, id, guard')
  {
    hide Attempt;
    forall a: int | Key(id, a) in guard' ensures Key(id, a) in guard {
      if Key(id, a) !in guard {
        var n :| Key(id, a) == Key(other.id, n);
        KeysInjective(QUEUE, id, a, other.id, n);
      }
    }
  }

  /** The next attempt's key is free until the retry has been published. */
  lemma NextKeyFree(s: State, c: nat, r: nat)
    requires Safe(s) && GuardReliable(s) && Orderly(s)
    requires c < |s.copies| && s.copies[c].place == InFlight(Handled(r)) && s.copies[c].body.Task?
    requires s.copies[c].body.id != "" && s.copies[c].body.id !in s.abandoned
    ensures Key(s.copies[c].body.id, Attempt(s.copies[c].headers) + 1) !in s.guard
  {
    hide KeyForAttempt, Route, OnRung, Attempt, NothingElseLost, AbandonedLost, AckedAttemptsSpent, Exclusive, RunOk, ResultOk, Accounted;
    var id, n := s.copies[c].body.id, Attempt(s.copies[c].headers);
    assert CopyOk(s.copies[c], s.runs);
    if Key(id, n + 1) in s.guard {
      KeyMeansRetried(s, id, n);
    }
  }

  lemma KeyMeansRetried(s: State, id: string, n: nat)
    requires Shape(s) && Accounted(s, Key(id, n + 1)) && id !in s.abandoned
    ensures HasRetried(s.runs, id, n)
  {
    hide KeyForAttempt, Route, OnRung, DeathCount;
    if r :| 0 <= r < |s.runs| && s.runs[r].id != "" && Key(s.runs[r].id, s.runs[r].attempt) == Key(id, n + 1) {
      KeysInjective(QUEUE, s.runs[r].id, s.runs[r].attempt, id, n + 1);
      assert RunOk(s.runs[r], s.runs, s.copies);
    } else if AbandonedKey(s, Key(id, n + 1)) {
      var id', n' :| id' in s.abandoned && Key(id, n + 1) == Key(id', n');
      KeysInjective(QUEUE, id', n', id, n + 1);
    } else {
      var c :| 0 <= c < |s.copies| && AdmittedFor(s.copies[c]).Some?
               && Key(AdmittedFor(s.copies[c]).value.0, AdmittedFor(s.copies[c]).value.1) == Key(id, n + 1);
      var (id', a') := AdmittedFor(s.copies[c]).value;
      KeysInjective(QUEUE, id', a', id, n + 1);
      assert CopyOk(s.copies[c], s.runs);
    }
  }

  /** The envelope of the copy a step works on is still covered after the step. */
  lemma SubjectCovered(s: State, a: Action, id: string)
    requires Safe(s) && Orderly(s) && Enabled(s, a) && id !in Next(s, a).abandoned
    requires Subject(a).Some? && !a.FollowUp?
    requires id != "" && Carries(s.copies[Subject(a).value], id, s.guard)
    ensures Covered(Next(s, a), id)
  {
    hide KeyForAttempt, Route, OnRung, OnExpiry, DeathCount, Shape, Exclusive, Orderly;
    var c, s' := Subject(a).value, Next(s, a);
    if a.Expire? {
      CopyIsOk(s, c);
      ExpiryClimbs(s.copies[c].headers, PREFIX, s.copies[c].place.tier);
    }
    assert Carries(s'.copies[c], id, s'.guard);
  }


  lemma FollowUpCovers(s: State, a: Action, id: string)
    requires Safe(s) && GuardReliable(s) && Orderly(s) && Enabled(s, a) && a.FollowUp?
    requires id !in Next(s, a).abandoned
    requires id != "" && Carries(s.copies[a.c], id, s.guard)
    ensures Covered(Next(s, a), id)
  {
    hide KeyForAttempt, Route, OnRung, Attempt, Shape, Exclusive, Orderly, Admission;
    var s' := Next(s, a);
    var p, f := s.copies[a.c].place.phase, Owed(s, a.c);
    StepKeeps(s, a);
    match f {
      case ToRetry(t) =>
        NextKeyFree(s, a.c, p.run);
        assert Carries(s'.copies[|s.copies|], id, s'.guard);
      case ToDeadLetter =>
        assert Carries(s'.copies[a.c], id, s'.guard);
      case ToResults(ok) =>
        assert s'.results[|s.results|].id == id;
    }
  }

  /** A copy published again is either new to the guard or of an envelope already covered. */
  lemma PublishCovers(s: State, a: Action)
    requires Safe(s) && Orderly(s) && Enabled(s, a) && a.Publish?
    requires a.body.Task? && a.body.id != "" && a.body.id !in s.abandoned
    ensures Covered(Next(s, a), a.body.id)
  {
    hide KeyForAttempt, Route, Shape, Exclusive, Admission;
    var s', id := Next(s, a), a.body.id;
    RungIsCount(a.headers, PREFIX, 0);
    if Key(id, 0) !in s.guard {
      assert Carries(s'.copies[|s.copies|], id, s'.guard);
    } else {
      KeyMeansCopy(s, id, 0);
      var c :| 0 <= c < |s.copies| && s.copies[c].body.Task? && s.copies[c].body.id == id;
      if j :| 0 <= j < |s.results| && s.results[j].id == id {
        assert s'.results[j].id == id;
      } else {
        var d :| 0 <= d < |s.copies| && Carries(s.copies[d], id, s.guard);
        assert s'.copies[d] == s.copies[d];
      }
    }
  }

  lemma KeyMeansCopy(s: State, id: string, n: int)
    requires Orderly(s) && Key(id, n) in s.guard && id !in s.abandoned
    ensures HasCopy(s, id)
  {
    hide KeyForAttempt, Attempt, NothingElseLost, AbandonedLost, AckedAttemptsSpent;
    assert Accounted(s, Key(id, n));
    if r :| 0 <= r < |s.runs| && s.runs[r].id != "" && Key(s.runs[r].id, s.runs[r].attempt) == Key(id, n) {
      KeysInjective(QUEUE, s.runs[r].id, s.runs[r].attempt, id, n);
    } else if AbandonedKey(s, Key(id, n)) {
      var id', n' :| id' in s.abandoned && Key(id, n) == Key(id', n');
      KeysInjective(QUEUE, id', n', id, n);
    } else {
      var c :| 0 <= c < |s.copies| && AdmittedFor(s.copies[c]).Some?
               && Key(AdmittedFor(s.copies[c]).value.0, AdmittedFor(s.copies[c]).value.1) == Key(id, n);
      KeysInjective(QUEUE, AdmittedFor(s.copies[c]).value.0, AdmittedFor(s.copies[c]).value.1, id, n);
      assert s.copies[c].body.id == id;
    }
  }

  lemma StepTouches(s: State, a: Action)
    requires Enabled(s, a)
    ensures Subject(a).Some? ==> Subject(a).value < |s.copies|
    ensures forall d :: 0 <= d < |s.copies| && Subject(a) != Some(d) ==> Next(s, a).copies[d] == s.copies[d]
    ensures Subject(a).Some? ==>
      forall d :: |s.copies| <= d < |Next(s, a).copies| ==> Next(s, a).copies[d].body == s.copies[Subject(a).value].body
  {
    hide Attempt, OnRung, OnExpiry, Route, Key;
  }

  lemma CoveredKept(s: State, a: Action, id: string)
    requires Safe(s) && GuardReliable(s) && Orderly(s) && Enabled(s, a)
    requires id != "" && id !in Next(s, a).abandoned && Covered(s, id)
    ensures Covered(Next(s, a), id)
  {
    hide KeyForAttempt, Route, OnRung, OnExpiry, Attempt, Shape, Exclusive, Admission, Orderly, Next, Enabled, Carries;
    var s' := Next(s, a);
    StepKeeps(s, a);
    StepTouches(s, a);
    if Subject(a).None? {
      PassiveStep(s, a);
      CoverageUntouched(s, s', id);
    } else {
      var c := Subject(a).value;
      if Carries(s.copies[c], id, s.guard) {
        if a.FollowUp? {
          FollowUpCovers(s, a, id);
        } else {
          SubjectCovered(s, a, id);
        }
      } else {
        KeysForCoverage(s, a, id);
        CoverageFrame(s, s', c, id);
      }
    }
  }

  lemma PassiveStep(s: State, a: Action)
    requires Enabled(s, a) && Subject(a).None?
    ensures Next(s, a).guard == s.guard
  {
  }

  lemma CoverageUntouched(s: State, s': State, id: string)
    requires Keeps(s, s') && Covered(s, id) && s'.guard == s.guard
    requires forall d :: 0 <= d < |s.copies| ==> s'.copies[d] == s.copies[d]
    ensures Covered(s', id)
  {
    hide KeyForAttempt, Attempt, Carries;
    if j :| 0 <= j < |s.results| && s.results[j].id == id {
      assert s'.results[j].id == id;
    } else {
      var d :| 0 <= d < |s.copies| && Carries(s.copies[d], id, s.guard);
      assert Carries(s'.copies[d], id, s'.guard);
    }
  }

  /** A key taken by a step belongs to its copy's envelope, whose copy was carrying it. */
  lemma KeysForCoverage(s: State, a: Action, id: string)
    requires Enabled(s, a) && Subject(a).Some? && !Carries(s.copies[Subject(a).value], id, s.guard)
    ensures forall k <- Next(s, a).guard :: k in s.guard || KeyOfOther(s.copies[Subject(a).value].body, id, k)
  {
    hide KeyForAttempt, Route, OnRung, OnExpiry, Attempt;
    forall k <- Next(s, a).guard ensures k in s.guard || KeyOfOther(s.copies[Subject(a).value].body, id, k) {
      if k !in s.guard {
        NewKeyAccounted(s, a, k);
      }
    }
  }

  // ---- an abandoned envelope stays lost ----------------------------------------------------

  /** Attempt `a` of `id` is the front of its chain: everything up to it spent, nothing beyond begun. */
  ghost predicate Front(s: State, id: string, a: int) {
    && a >= 0 && !HasRetried(s.runs, id, a)
    && (forall k :: 0 <= k < a ==> HasRetried(s.runs, id, k))
    && (forall k :: 0 <= k <= a ==> Key(id, k) in s.guard)
  }

  ghost predicate InHand(m: Copy, id: string) {
    m.body.Task? && m.body.id == id && m.place.InFlight? && Unfinished(m.place.phase)
  }

  lemma {:induction false} RetriedChain(s: State, id: string, a: int, k: int)
    requires Shape(s) && HasRetried(s.runs, id, a) && 0 <= k <= a
    ensures HasRetried(s.runs, id, k)
  {
    hide Route, Attempt, CopyOk, RunOk;
    var r :| 0 <= r < |s.runs| && s.runs[r].id == id && s.runs[r].attempt == a && s.runs[r].retried;
    if k < a {
      RetriedBelow(s, r, k);
    }
  }

  lemma RetriedMeansKey(s: State, id: string, k: int)
    requires Admission(s) && HasRetried(s.runs, id, k) && id != ""
    ensures Key(id, k) in s.guard && HasRun(s.runs, id, k)
  {
    hide Attempt, KeyForAttempt;
    var r :| 0 <= r < |s.runs| && s.runs[r].id == id && s.runs[r].attempt == k && s.runs[r].retried;
  }

  /** The attempt of a delivery in hand: its key is taken and its retry not published. */
  lemma InHandAttempt(s: State, c: nat, id: string)
    requires Shape(s) && Admission(s) && c < |s.copies| && InHand(s.copies[c], id) && id != ""
    ensures Key(id, Attempt(s.copies[c].headers)) in s.guard
    ensures !HasRetried(s.runs, id, Attempt(s.copies[c].headers))
  {
    hide Route, KeyForAttempt, RunOk, ResultOk, DeathCount, OnRung;
    var m := s.copies[c];
    var a := Attempt(m.headers);
    CopyIsOk(s, c);
    if m.place.phase == Acquired {
      assert AdmittedFor(m) == Some((id, a));
      assert !HasRun(s.runs, id, a);
    }
  }

  lemma InHandIsFront(s: State, c: nat, id: string)
    requires Shape(s) && Admission(s) && c < |s.copies| && InHand(s.copies[c], id) && id != ""
    ensures Front(s, id, Attempt(s.copies[c].headers))
  {
    hide Route, KeyForAttempt, RunOk, ResultOk, DeathCount, OnRung, Shape, Admission;
    var a := Attempt(s.copies[c].headers);
    CopyIsOk(s, c);
    InHandAttempt(s, c, id);
    forall k | 0 <= k < a ensures HasRetried(s.runs, id, k) && Key(id, k) in s.guard {
      RetriedChain(s, id, a - 1, k);
      RetriedMeansKey(s, id, k);
    }
  }

  /** Only one delivery of an envelope can be in hand. */
  lemma OneInHand(s: State, c: nat, d: nat, id: string)
    requires Shape(s) && Exclusive(s) && Admission(s) && id != ""
    requires c < |s.copies| && d < |s.copies| && InHand(s.copies[c], id) && InHand(s.copies[d], id)
    ensures c == d
  {
    hide Route, KeyForAttempt, RunOk, ResultOk, DeathCount, OnRung;
    InHandIsFront(s, c, id);
    InHandIsFront(s, d, id);
    CopyIsOk(s, c);
    CopyIsOk(s, d);
    var a := Attempt(s.copies[c].headers);
    assert a == Attempt(s.copies[d].headers);
    if s.copies[c].place.phase == Acquired {
      assert AdmittedFor(s.copies[c]) == Some((id, a));
    }
    if s.copies[d].place.phase == Acquired {
      assert AdmittedFor(s.copies[d]) == Some((id, a));
    }
  }

  /** A delivery in hand is its envelope's only carrier, and there is no result yet. */
  lemma SoleCarrier(s: State, c: nat, id: string)
    requires Shape(s) && Exclusive(s) && Admission(s) && id != ""
    requires c < |s.copies| && InHand(s.copies[c], id)
    ensures !HasResult(s, id)
    ensures forall d :: 0 <= d < |s.copies| && Carries(s.copies[d], id, s.guard) ==> d == c
  {
    hide Route, KeyForAttempt, RunOk, DeathCount, OnRung, Shape, Exclusive, Admission;
    var a := Attempt(s.copies[c].headers);
    InHandIsFront(s, c, id);
    forall d | 0 <= d < |s.copies| && Carries(s.copies[d], id, s.guard) ensures d == c {
      if InHand(s.copies[d], id) {
        OneInHand(s, c, d, id);
      } else {
        NotBeyondFront(s, d, id, a);
      }
    }
    if HasResult(s, id) {
      NoResultAtFront(s, c, id);
    }
  }

  lemma NotBeyondFront(s: State, d: nat, id: string, a: int)
    requires Shape(s) && Front(s, id, a) && d < |s.copies| && !InHand(s.copies[d], id)
    ensures !Carries(s.copies[d], id, s.guard)
  {
    hide Route, KeyForAttempt, RunOk, ResultOk, DeathCount, OnRung;
    if Carries(s.copies[d], id, s.guard) {
      CopyIsOk(s, d);
      var b := Attempt(s.copies[d].headers) + (if s.copies[d].place.Waiting? then 1 else 0);
      assert b > a;
      assert HasRetried(s.runs, id, b - 1);
      RetriedChain(s, id, b - 1, a);
    }
  }

  lemma NoResultAtFront(s: State, c: nat, id: string)
    requires Shape(s) && Admission(s) && id != "" && c < |s.copies| && InHand(s.copies[c], id)
    ensures !HasResult(s, id)
  {
    hide Route, KeyForAttempt, DeathCount, OnRung;
    var a := Attempt(s.copies[c].headers);
    InHandIsFront(s, c, id);
    CopyIsOk(s, c);
    if j :| 0 <= j < |s.results| && s.results[j].id == id {
      var q := s.results[j].run;
      assert ResultOk(s.results[j], s.runs);
      assert RunOk(s.runs[q], s.runs, s.copies);
      var b := s.runs[q].attempt;
      if b < a {
        var p :| 0 <= p < |s.runs| && s.runs[p].id == id && s.runs[p].attempt == b && s.runs[p].retried;
        assert p == q;
      } else if b > a {
        RetriedBelow(s, q, a);
      } else {
        NotReportedInHand(s, c, q, id);
      }
    }
  }

  lemma NotReportedInHand(s: State, c: nat, q: nat, id: string)
    requires Shape(s) && Admission(s) && id != "" && c < |s.copies| && InHand(s.copies[c], id)
    requires q < |s.runs| && s.runs[q].id == id && s.runs[q].attempt == Attempt(s.copies[c].headers)
    ensures !s.runs[q].reported
  {
    hide Route, KeyForAttempt, DeathCount, OnRung, RunOk, ResultOk;
    CopyIsOk(s, c);
    if s.copies[c].place.phase == Acquired {
      assert AdmittedFor(s.copies[c]) == Some((id, Attempt(s.copies[c].headers)));
      assert HasRun(s.runs, id, s.runs[q].attempt);
    }
  }

  /** What a step that abandons an envelope looks like. */
  lemma AbandoningStep(s: State, a: Action, id: string)
    requires Enabled(s, a) && id in Next(s, a).abandoned && id !in s.abandoned
    ensures Subject(a).Some? && Subject(a).value < |s.copies| && InHand(s.copies[Subject(a).value], id)
    ensures Abandons(s, Next(s, a), Subject(a).value)
  {
    hide Attempt, OnRung, OnExpiry, Route, KeyForAttempt;
    if a.FollowUp? {
      var r, f := s.copies[a.c].place.phase.run, Owed(s, a.c);
      var p := Published(s, a.c, r, f);
      assert p.abandoned == s.abandoned;
      if a.verdict.Lost? {
        assert Next(s, a) == Requeued(s, a.c, true);
      } else {
        assert f.ToDeadLetter? && Next(s, a) == Requeued(p, a.c, true);
      }
    } else {
      assert a.Redeliver?;
    }
  }

  /** Copy `c` goes back to the queue; at most a dead letter appears. */
  ghost predicate Abandons(s: State, s': State, c: nat) {
    && c < |s.copies| <= |s'.copies|
    && s'.guard == s.guard && s'.results == s.results
    && s'.copies[c] == s.copies[c].(place := Queued)
    && (forall d :: 0 <= d < |s.copies| && d != c ==> s'.copies[d] == s.copies[d])
    && (forall d :: |s.copies| <= d < |s'.copies| ==> s'.copies[d].place.DeadLettered?)
  }

  lemma AbandonedIsLost(s: State, a: Action, id: string)
    requires Safe(s) && GuardReliable(s) && Enabled(s, a) && id != ""
    requires id in Next(s, a).abandoned && id !in s.abandoned
    ensures Key(id, 0) in Next(s, a).guard && !Covered(Next(s, a), id)
  {
    hide Attempt, OnRung, OnExpiry, Route, KeyForAttempt, Shape, Exclusive, Admission, Next, Enabled;
    AbandoningStep(s, a, id);
    var s', c := Next(s, a), Subject(a).value;
    SoleCarrier(s, c, id);
    InHandIsFront(s, c, id);
    forall d | 0 <= d < |s'.copies| ensures !Carries(s'.copies[d], id, s'.guard) {
      if d != c && d < |s.copies| {
        assert s'.copies[d] == s.copies[d];
      }
    }
  }

  /** A copy that carries nothing goes on carrying nothing. */
  lemma IdleSubjectStaysIdle(s: State, a: Action, id: string)
    requires Safe(s) && AckedAttemptsSpent(s) && Enabled(s, a) && GuardReliable(Next(s, a))
    requires Subject(a).Some? && id != "" && !Carries(s.copies[Subject(a).value], id, s.guard)
    requires Subject(a).value < |Next(s, a).copies|
    ensures !Carries(Next(s, a).copies[Subject(a).value], id, Next(s, a).guard)
  {
    hide OnRung, OnExpiry, Route, KeyForAttempt, Shape, Exclusive, DeathCount, AfterFollowUp;
    if a.Expire? {
      CopyIsOk(s, a.c);
      RungBeforeExpiry(s, a.c);
    } else if a.FollowUp? {
      FollowUpKeepsCopy(s, a);
    }
  }

  lemma RungBeforeExpiry(s: State, c: nat)
    requires Shape(s) && c < |s.copies| && s.copies[c].place.Waiting?
    ensures s.copies[c].place.tier < MAX_RETRIES
    ensures Attempt(OnExpiry(s.copies[c].headers, WaitQueue(PREFIX, s.copies[c].place.tier)))
              == Attempt(s.copies[c].headers) + 1
  {
    hide HasRetried;
    assert CopyOk(s.copies[c], s.runs);
    ExpiryClimbs(s.copies[c].headers, PREFIX, s.copies[c].place.tier);
  }

  /** A step brings new copies or results of an envelope only by publishing it or from a delivery in hand. */
  lemma WhatStepsAdd(s: State, a: Action, id: string)
    requires Enabled(s, a)
    requires Subject(a).Some? ==> !InHand(s.copies[Subject(a).value], id)
    ensures var s' := Next(s, a);
      && (forall j :: |s.results| <= j < |s'.results| ==> s'.results[j].id != id)
      && (forall d :: |s.copies| <= d < |s'.copies| && s'.copies[d].body.Task? && s'.copies[d].body.id == id ==>
            a.Publish? && s'.copies[d] == Copy(a.body, a.headers, Queued))
  {
    hide Attempt, OnRung, OnExpiry, Route, KeyForAttempt;
  }

  lemma LostStaysLost(s: State, a: Action, id: string)
    requires Safe(s) && AckedAttemptsSpent(s) && Enabled(s, a) && GuardReliable(Next(s, a))
    requires id != "" && Key(id, 0) in s.guard && !Covered(s, id)
    ensures Key(id, 0) in Next(s, a).guard && !Covered(Next(s, a), id)
  {
    hide Attempt, OnExpiry, Route, KeyForAttempt, Shape, Exclusive, Admission, AckedAttemptsSpent, OnRung;
    var s' := Next(s, a);
    StepKeeps(s, a);
    StepTouches(s, a);
    GuardGrows(s, a);
    WhatStepsAdd(s, a, id);
    forall d | 0 <= d < |s'.copies| ensures !Carries(s'.copies[d], id, s'.guard) {
      if d >= |s.copies| {
        if a.Publish? {
          NoRetriesYet(a.headers);
        }
      } else if Subject(a) == Some(d) {
        IdleSubjectStaysIdle(s, a, id);
      } else {
        assert s'.copies[d] == s.copies[d];
      }
    }
  }

  lemma NoRetriesYet(h: Headers)
    requires OnRung(h, PREFIX, 0)
    ensures Attempt(h) == 0
  {
    RungIsCount(h, PREFIX, 0);
  }

  lemma GuardGrows(s: State, a: Action)
    requires Enabled(s, a)
    ensures s.guard.Keys <= Next(s, a).guard.Keys
  {
    hide Attempt, OnRung, OnExpiry, Route, KeyForAttempt;
  }

  // ---- reachable states ----------------------------------------------------------------------

  /** The copy a step leaves awaiting its ack has spent its key. */
  lemma AckedSubject(s: State, a: Action)
    requires Safe(s) && GuardReliable(s) && AckedAttemptsSpent(s) && Enabled(s, a) && Subject(a).Some?
    requires Subject(a).value < |Next(s, a).copies|
    ensures var m := Next(s, a).copies[Subject(a).value];
      m.place == InFlight(AckDue) && Identified(m.body) ==> Key(m.body.id, Attempt(m.headers)) in Next(s, a).guard
  {
    hide Attempt, OnRung, OnExpiry, Route, KeyForAttempt, Shape, Exclusive, Admission, AfterFollowUp;
    if a.FollowUp? {
      FollowUpKeepsCopy(s, a);
      if Identified(s.copies[a.c].body) {
        InHandAttempt(s, a.c, s.copies[a.c].body.id);
      }
    }
  }

  lemma FollowUpKeepsCopy(s: State, a: Action)
    requires Enabled(s, a) && a.FollowUp?
    ensures Next(s, a).guard == s.guard && a.c < |Next(s, a).copies|
    ensures Next(s, a).copies[a.c].body == s.copies[a.c].body && Next(s, a).copies[a.c].headers == s.copies[a.c].headers
  {
    hide Attempt, Route;
  }

  lemma NewCopiesAreNotInFlight(s: State, a: Action)
    requires Enabled(s, a)
    ensures forall c :: |s.copies| <= c < |Next(s, a).copies| ==> !Next(s, a).copies[c].place.InFlight?
  {
    hide Attempt, OnRung, OnExpiry, Route, KeyForAttempt;
  }

  lemma AckedSpentKept(s: State, a: Action)
    requires Safe(s) && GuardReliable(s) && AckedAttemptsSpent(s) && Enabled(s, a)
    ensures AckedAttemptsSpent(Next(s, a))
  {
    hide Attempt, KeyForAttempt, Safe, Enabled, Next, GuardReliable;
    var s' := Next(s, a);
    GuardGrows(s, a);
    StepTouches(s, a);
    NewCopiesAreNotInFlight(s, a);
    forall c | 0 <= c < |s'.copies| && s'.copies[c].place == InFlight(AckDue) && Identified(s'.copies[c].body)
      ensures Key(s'.copies[c].body.id, Attempt(s'.copies[c].headers)) in s'.guard
    {
      if Subject(a) == Some(c) {
        AckedSubject(s, a);
      } else {
        assert s'.copies[c] == s.copies[c];
      }
    }
  }

  lemma OrderlyKept(s: State, a: Action)
    requires Safe(s) && Orderly(s) && Enabled(s, a) && GuardReliable(Next(s, a))
    ensures Orderly(Next(s, a))
  {
    hide KeyForAttempt, Route, OnRung, OnExpiry, Attempt, Exclusive, Admission, Covered, Accounted, HasCopy, CopyOk, RunOk, ResultOk, AckedAttemptsSpent;
    var s' := Next(s, a);
    ReliabilityIsLost(s, a);
    KeysAccounted(s, a);
    CallsHaveCopies(s, a);
    AckedSpentKept(s, a);
    StepKeeps(s, a);
    StepTouches(s, a);
    forall id <- s'.abandoned | id != "" ensures Key(id, 0) in s'.guard && !Covered(s', id) {
      if id in s.abandoned {
        LostStaysLost(s, a, id);
      } else {
        AbandonedIsLost(s, a, id);
      }
    }
    forall c | 0 <= c < |s'.copies| && Identified(s'.copies[c].body) && s'.copies[c].body.id !in s'.abandoned
      ensures Covered(s', s'.copies[c].body.id)
    {
      CopiesCovered(s, a, c);
    }
  }

  lemma CopiesCovered(s: State, a: Action, c: nat)
    requires Safe(s) && GuardReliable(s) && Orderly(s) && Enabled(s, a)
    requires c < |Next(s, a).copies| && Identified(Next(s, a).copies[c].body)
    requires Next(s, a).copies[c].body.id !in Next(s, a).abandoned
    ensures Covered(Next(s, a), Next(s, a).copies[c].body.id)
  {
    hide KeyForAttempt, Route, OnRung, OnExpiry, Attempt, Shape, Exclusive, Admission, Covered, Accounted, HasCopy, AckedAttemptsSpent, AbandonedLost;
    StepKeeps(s, a);
    StepTouches(s, a);
    if c < |s.copies| {
      assert s.copies[c].body == Next(s, a).copies[c].body;
      CoveredKept(s, a, s.copies[c].body.id);
    } else if a.Publish? {
      PublishCovers(s, a);
    } else {
      CoveredKept(s, a, s.copies[Subject(a).value].body.id);
    }
  }

  lemma {:induction false} ReachableIsOrderly(ss: seq<State>, n: nat)
    requires IsRun(ss) && n < |ss| && GuardReliable(ss[n])
    ensures Orderly(ss[n])
  {
    hide Safe, Orderly, Next, Enabled, GuardReliable;
    if n == 0 {
      InitialOrderly();
    } else {
      assert Step(ss[n - 1], ss[n - 1 + 1]);
      var a :| Enabled(ss[n - 1], a) && ss[n] == Next(ss[n - 1], a);
      ReliabilityIsLost(ss[n - 1], a);
      ReachableIsOrderly(ss, n - 1);
      ReachableIsSafe(ss, n - 1);
      OrderlyKept(ss[n - 1], a);
    }
  }

  lemma InitialOrderly()
    ensures Orderly(INITIAL)
  {
  }

  // ---- what becomes of an envelope ---------------------------------------------------------------

  ghost predicate Quiescent(s: State) {
    forall c :: 0 <= c < |s.copies| ==> !Live(s.copies[c].place)
  }

  /**
   When no copy is live any more, a published envelope has a result if and only if it was never
   abandoned: no worker let go of it between the guard's admission and the follow-up's effect.
   */
  lemma ResultIffNotAbandoned(ss: seq<State>, n: nat, c: nat)
    requires IsRun(ss) && n < |ss| && GuardReliable(ss[n]) && Quiescent(ss[n])
    requires c < |ss[n].copies| && Identified(ss[n].copies[c].body)
    ensures HasResult(ss[n], ss[n].copies[c].body.id) <==> ss[n].copies[c].body.id !in ss[n].abandoned
  {
    hide Route, Attempt, CopyOk, KeyForAttempt, Carries, Accounted, HasCopy, IsRun, AckedAttemptsSpent, Safe;
    ReachableIsOrderly(ss, n);
    var s, id := ss[n], ss[n].copies[c].body.id;
    if d :| 0 <= d < |s.copies| && Carries(s.copies[d], id, s.guard) {
      CarrierIsLive(s.copies[d], id, s.guard);
    }
  }

  /** Before that, an envelope that was not abandoned is never out of sight. */
  lemma NeverOutOfSight(ss: seq<State>, n: nat, c: nat)
    requires IsRun(ss) && n < |ss| && GuardReliable(ss[n])
    requires c < |ss[n].copies| && Identified(ss[n].copies[c].body)
    ensures Covered(ss[n], ss[n].copies[c].body.id) <==> ss[n].copies[c].body.id !in ss[n].abandoned
  {
    hide Covered, Accounted, HasCopy, AckedAttemptsSpent, IsRun;
    ReachableIsOrderly(ss, n);
  }

  lemma CarrierIsLive(m: Copy, id: string, guard: Table)
    requires Carries(m, id, guard)
    ensures Live(m.place)
  {
    hide Attempt, KeyForAttempt;
  }

  /**
   The result is unique. It says completed exactly when its handler call returned normally, and
   the envelope is dead-lettered, as that call had it, exactly when the call was unretryable, or
   retryable with no tier left.
   */
  lemma OutcomeOfResult(ss: seq<State>, n: nat, j: nat)
    requires IsRun(ss) && n < |ss| && GuardReliable(ss[n])
    requires j < |ss[n].results| && ss[n].results[j].id != ""
    ensures var s, id := ss[n], ss[n].results[j].id;
      && (forall i :: 0 <= i < |s.results| && s.results[i].id == id ==> i == j)
      && s.results[j].run < |s.runs| && s.runs[s.results[j].run].outcome.Some?
      && var call := s.runs[s.results[j].run];
         && (s.results[j].completed <==> call.outcome.value == Completed)
         && (HasDeadLetter(s, id) <==> call.outcome == Some(Unretryable)
                                       || (call.outcome == Some(Retryable) && call.attempt == MAX_RETRIES))
         && (HasDeadLetter(s, id) ==> DeadLetterOf(s, id, call.attempt))
  {
    hide Route, Attempt, CopyOk, KeyForAttempt, IsRun;
    ReachableIsSafe(ss, n);
    var s, id := ss[n], ss[n].results[j].id;
    forall i | 0 <= i < |s.results| && s.results[i].id == id ensures i == j {
      UniqueResult(s, i, j);
    }
    var r := s.results[j].run;
    assert ResultOk(s.results[j], s.runs);
    assert RunOk(s.runs[r], s.runs, s.copies);
    if d :| 0 <= d < |s.copies| && s.copies[d].place.DeadLettered?
            && s.copies[d].body.Task? && s.copies[d].body.id == id {
      var q :| 0 <= q < |s.runs| && s.runs[q].dead == Some(d);
      assert RunOk(s.runs[q], s.runs, s.copies);
      if q != r {
        OneTerminalCall(s, q, r);
      }
    }
  }

  lemma AbandoningIsAFault(s: State, a: Action)
    requires Enabled(s, a) && (s.faults == 0 ==> s.abandoned == {})
    ensures Next(s, a).faults == 0 ==> Next(s, a).abandoned == {}
  {
    hide Attempt, OnRung, Route, KeyForAttempt, OnExpiry;
  }

  lemma {:induction false} NoFaultsNoneAbandoned(ss: seq<State>, n: nat)
    requires IsRun(ss) && n < |ss|
    ensures ss[n].faults == 0 ==> ss[n].abandoned == {}
  {
    hide Next, Enabled;
    if n > 0 {
      NoFaultsNoneAbandoned(ss, n - 1);
      assert Step(ss[n - 1], ss[n - 1 + 1]);
      var a :| Enabled(ss[n - 1], a) && ss[n] == Next(ss[n - 1], a);
      AbandoningIsAFault(ss[n - 1], a);
    }
  }

  /**
   Without crashes, requeues and failed publishes every envelope comes out with exactly one result
   once nothing is live, and with a dead-lettered copy exactly when its last call was unretryable,
   or retryable with no tier left.
   */
  lemma ExactlyOneOutcome(ss: seq<State>, n: nat, c: nat) returns (j: nat)
    requires IsRun(ss) && n < |ss| && GuardReliable(ss[n]) && Quiescent(ss[n]) && ss[n].faults == 0
    requires c < |ss[n].copies| && Identified(ss[n].copies[c].body)
    ensures var s, id := ss[n], ss[n].copies[c].body.id;
      && j < |s.results| && s.results[j].id == id
      && (forall i :: 0 <= i < |s.results| && s.results[i].id == id ==> i == j)
      && s.results[j].run < |s.runs| && s.runs[s.results[j].run].outcome.Some?
      && var call := s.runs[s.results[j].run];
         && (s.results[j].completed <==> call.outcome == Some(Completed))
         && (HasDeadLetter(s, id) <==> call.outcome == Some(Unretryable)
                                       || (call.outcome == Some(Retryable) && call.attempt == MAX_RETRIES))
  {
    hide IsRun, Quiescent, HasDeadLetter, DeadLetterOf;
    NoFaultsNoneAbandoned(ss, n);
    ResultIffNotAbandoned(ss, n, c);
    j :| 0 <= j < |ss[n].results| && ss[n].results[j].id == ss[n].copies[c].body.id;
    OutcomeOfResult(ss, n, j);
  }

  ghost predicate HasDeadLetter(s: State, id: string) {
    exists d :: 0 <= d < |s.copies| && s.copies[d].place.DeadLettered?
                && s.copies[d].body.Task? && s.copies[d].body.id == id
  }

  ghost predicate DeadLetterOf(s: State, id: string, attempt: int) {
    exists d :: 0 <= d < |s.copies| && s.copies[d].place.DeadLettered?
                && s.copies[d].body.Task? && s.copies[d].body.id == id && Attempt(s.copies[d].headers) == attempt
  }
}
