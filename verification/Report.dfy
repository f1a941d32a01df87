/**
 The scored-run report: what the experiment runner writes, and what Mission Control reads back.
 Documents are element trees; writing and parsing XML is taken to be faithful.
 */
module Report {
  import opened Text
  import opened Counting
  import opened Options

  /** A result as the runner holds it. */
  datatype Scored = Scored(name: string, passed: bool, note: string)

  /** A `<failure>`, `<error>` or `<skipped>` child. */
  datatype Child = Child(message: string, text: string)

  datatype Case = Case(name: string, failure: Option<Child>, error: Option<Child>, skipped: Option<Child>)

  datatype Suite = Suite(name: string, tests: nat, failures: nat, cases: seq<Case>)

  /** A result as Mission Control shows it. */
  datatype Assertion = Assertion(name: string, passed: bool, detail: string, skipped: bool)

  datatype ExperimentReport = ExperimentReport(passed: bool, total: nat, failed: nat, assertions: seq<Assertion>)

  // ---- the writer -------------------------------------------------------------------------

  function Failures(results: seq<Scored>): nat {
    if results == [] then 0
    else Failures(results[..|results| - 1]) + if results[|results| - 1].passed then 0 else 1
  }

  function CaseOf(r: Scored): Case {
    Case(r.name, if r.passed then None else Some(Child(r.note, r.name + ": " + r.note)), None, None)
  }

  function Junit(expId: string, results: seq<Scored>): Suite {
    Suite(expId, |results|, Failures(results), seq(|results|, i requires 0 <= i < |results| => CaseOf(results[i])))
  }

  lemma {:induction false} FailuresUpTo(results: seq<Scored>, n: nat)
    requires n <= |results|
    ensures Failures(results[..n]) == |set i: nat | i < n && !results[i].passed|
  {
    var hits := set i: nat | i < n && !results[i].passed;
    if n == 0 {
      NoPosition(hits);
    } else {
      FailuresUpTo(results, n - 1);
      assert results[..n][..n - 1] == results[..n - 1];
      OneMorePosition(n - 1, (set i: nat | i < n - 1 && !results[i].passed), hits, !results[n - 1].passed);
    }
  }

  lemma FailuresCount(results: seq<Scored>)
    ensures Failures(results) == |set i: nat | i < |results| && !results[i].passed|
  {
    FailuresUpTo(results, |results|);
    assert results[..|results|] == results;
  }

  method WriteJunit(expId: string, results: seq<Scored>) returns (suite: Suite)
    ensures suite == Junit(expId, results)
    ensures suite.name == expId && suite.tests == |suite.cases| == |results|
    ensures suite.failures == |set i: nat | i < |results| && !results[i].passed|
    ensures forall i :: 0 <= i < |results| ==> suite.cases[i].name == results[i].name
    ensures forall i :: 0 <= i < |results| ==> suite.cases[i].error.None? && suite.cases[i].skipped.None?
    ensures forall i :: 0 <= i < |results| ==>
      suite.cases[i].failure == if results[i].passed then None
                                else Some(Child(results[i].note, results[i].name + ": " + results[i].note))
  {
    FailuresCount(results);
    var failures := 0;
    for i := 0 to |results|
      invariant failures == Failures(results[..i])
    {
      assert results[..i + 1][..i] == results[..i];
      if !results[i].passed {
        failures := failures + 1;
      }
    }
    assert results[..|results|] == results;
    var cases: seq<Case> := [];
    for i := 0 to |results|
      invariant |cases| == i && forall k :: 0 <= k < i ==> cases[k] == CaseOf(results[k])
    {
      var failure := None;
      if !results[i].passed {
        failure := Some(Child(results[i].note, results[i].name + ": " + results[i].note));
      }
      cases := cases + [Case(results[i].name, failure, None, None)];
    }
    suite := Suite(expId, |results|, failures, cases);
  }

  // ---- the reader ----------------------------------------------------------------------------

  function FailureDetail(f: Child, fallback: string): string {
    if TrimSpace(f.message) != "" then TrimSpace(f.message)
    else if TrimSpace(f.text) != "" then TrimSpace(f.text)
    else fallback
  }

  function AssertionOf(c: Case): Assertion {
    if c.failure.Some? then Assertion(c.name, false, FailureDetail(c.failure.value, ""), false)
    else if c.error.Some? then Assertion(c.name, false, FailureDetail(c.error.value, "error"), false)
    else if c.skipped.Some? then Assertion(c.name, false, FailureDetail(c.skipped.value, "skipped"), true)
    else Assertion(c.name, true, "", false)
  }

  function NotPassed(cases: seq<Case>): nat {
    if cases == [] then 0
    else NotPassed(cases[..|cases| - 1]) + if AssertionOf(cases[|cases| - 1]).passed then 0 else 1
  }

  function Parsed(suite: Suite): ExperimentReport {
    ExperimentReport(NotPassed(suite.cases) == 0, |suite.cases|, NotPassed(suite.cases),
                     seq(|suite.cases|, i requires 0 <= i < |suite.cases| => AssertionOf(suite.cases[i])))
  }

  method ParseExperimentReport(suite: Suite) returns (rep: ExperimentReport)
    ensures rep == Parsed(suite)
    ensures rep.total == |rep.assertions| == |suite.cases| && (rep.passed <==> rep.failed == 0)
    ensures rep.failed == |set i: nat | i < |rep.assertions| && !rep.assertions[i].passed|
    ensures forall i :: 0 <= i < |suite.cases| ==> var c, a := suite.cases[i], rep.assertions[i];
      && a.name == c.name
      && (a.passed <==> c.failure.None? && c.error.None? && c.skipped.None?)
      && (a.skipped <==> c.failure.None? && c.error.None? && c.skipped.Some?)
      && (a.passed ==> a.detail == "")
      && (c.failure.Some? ==> a.detail == FailureDetail(c.failure.value, ""))
      && (c.failure.None? && c.error.Some? ==> a.detail == FailureDetail(c.error.value, "error"))
      && (a.skipped ==> a.detail == FailureDetail(c.skipped.value, "skipped"))
  {
    hide TrimSpace;
    var failed := 0;
    var assertions: seq<Assertion> := [];
    for i := 0 to |suite.cases|
      invariant failed == NotPassed(suite.cases[..i]) && |assertions| == i
      invariant forall k :: 0 <= k < i ==> assertions[k] == AssertionOf(suite.cases[k])
    {
      assert suite.cases[..i + 1][..i] == suite.cases[..i];
      var tc := suite.cases[i];
      var ar := Assertion(tc.name, true, "", false);
      if tc.failure.Some? {
        ar := ar.(passed := false, detail := FailureDetail(tc.failure.value, ""));
        failed := failed + 1;
      } else if tc.error.Some? {
        ar := ar.(passed := false, detail := FailureDetail(tc.error.value, "error"));
        failed := failed + 1;
      } else if tc.skipped.Some? {
        ar := ar.(passed := false, skipped := true, detail := FailureDetail(tc.skipped.value, "skipped"));
        failed := failed + 1;
      }
      assertions := assertions + [ar];
    }
    assert suite.cases[..|suite.cases|] == suite.cases;
    rep := ExperimentReport(failed == 0, |suite.cases|, failed, assertions);
    NotPassedCount(suite.cases);
    assert (set i: nat | i < |suite.cases| && !AssertionOf(suite.cases[i]).passed)
        == (set i: nat | i < |rep.assertions| && !rep.assertions[i].passed);
  }

  lemma {:induction false} NotPassedUpTo(cases: seq<Case>, n: nat)
    requires n <= |cases|
    ensures NotPassed(cases[..n]) == |set i: nat | i < n && !AssertionOf(cases[i]).passed|
  {
    hide AssertionOf;
    var hits := set i: nat | i < n && !AssertionOf(cases[i]).passed;
    if n == 0 {
      NoPosition(hits);
    } else {
      NotPassedUpTo(cases, n - 1);
      assert cases[..n][..n - 1] == cases[..n - 1];
      OneMorePosition(n - 1, (set i: nat | i < n - 1 && !AssertionOf(cases[i]).passed), hits, !AssertionOf(cases[n - 1]).passed);
    }
  }

  lemma NotPassedCount(cases: seq<Case>)
    ensures NotPassed(cases) == |set i: nat | i < |cases| && !AssertionOf(cases[i]).passed|
  {
    hide AssertionOf, NotPassed;
    NotPassedUpTo(cases, |cases|);
    assert cases[..|cases|] == cases;
  }

  /** The first of message and text that is not blank, trimmed, and the fallback when both are. */
  lemma DetailIsFirstNotBlank(f: Child, fallback: string)
    ensures TrimSpace(f.message) != "" ==> FailureDetail(f, fallback) == TrimSpace(f.message)
    ensures TrimSpace(f.message) == "" && TrimSpace(f.text) != "" ==> FailureDetail(f, fallback) == TrimSpace(f.text)
    ensures TrimSpace(f.message) == "" && TrimSpace(f.text) == "" ==> FailureDetail(f, fallback) == fallback
  {
  }

  // ---- what a reader can rely on ----------------------------------------------------------------

  lemma {:induction false} NoneNotPassed(cases: seq<Case>)
    ensures NotPassed(cases) <= |cases|
    ensures NotPassed(cases) == 0 <==> forall c <- cases :: AssertionOf(c).passed
  {
    if cases != [] {
      var n := |cases| - 1;
      NoneNotPassed(cases[..n]);
      assert cases == cases[..n] + [cases[n]];
    }
  }

  /** For any document: passed means every case passed, and a case with any child did not. */
  lemma ParsedIsStrict(suite: Suite)
    ensures var rep := Parsed(suite);
      && (rep.passed <==> forall a <- rep.assertions :: a.passed)
      && |rep.assertions| == rep.total && rep.failed <= rep.total
    ensures forall i :: 0 <= i < |suite.cases| ==> var c, a := suite.cases[i], Parsed(suite).assertions[i];
      && (a.passed <==> c.failure.None? && c.error.None? && c.skipped.None?)
      && (c.failure.None? && !a.passed ==> a.detail != "")
  {
    hide TrimSpace, AssertionOf;
    NoneNotPassed(suite.cases);
    var rep := Parsed(suite);
    forall c <- suite.cases ensures AssertionOf(c) in rep.assertions {
      var i :| 0 <= i < |suite.cases| && suite.cases[i] == c;
      assert rep.assertions[i] == AssertionOf(c);
    }
    assert forall a <- rep.assertions :: exists c <- suite.cases :: AssertionOf(c) == a;
    forall i | 0 <= i < |suite.cases|
      ensures var c, a := suite.cases[i], rep.assertions[i];
        && (a.passed <==> c.failure.None? && c.error.None? && c.skipped.None?)
        && (c.failure.None? && !a.passed ==> a.detail != "")
    {
      CaseIsStrict(suite.cases[i]);
    }
  }

  lemma CaseIsStrict(c: Case)
    ensures AssertionOf(c).passed <==> c.failure.None? && c.error.None? && c.skipped.None?
    ensures c.failure.None? && !AssertionOf(c).passed ==> AssertionOf(c).detail != ""
  {
    hide TrimSpace;
  }

  /** The detail of a failure the runner wrote: the note, or the label when the note is blank. */
  lemma WrittenDetail(r: Scored)
    requires !r.passed
    ensures var d := AssertionOf(CaseOf(r)).detail;
      && d != ""
      && d == if TrimSpace(r.note) != "" then TrimSpace(r.note) else TrimSpace(r.name + ": " + r.note)
  {
    var text := r.name + ": " + r.note;
    assert text[|r.name|] == ':';
    TrimSpaceKeeps(text, |r.name|);
    hide TrimSpace;
  }

  lemma {:induction false} FailuresAreNotPassed(expId: string, results: seq<Scored>)
    ensures NotPassed(Junit(expId, results).cases) == Failures(results)
  {
    if results != [] {
      var n := |results| - 1;
      FailuresAreNotPassed(expId, results[..n]);
      assert Junit(expId, results).cases[..n] == Junit(expId, results[..n]).cases;
    }
  }

  /** Reading back what was written restores names, verdicts and counts, and explains each failure. */
  lemma RoundTrip(expId: string, results: seq<Scored>)
    ensures var suite, rep := Junit(expId, results), Parsed(Junit(expId, results));
      && rep.total == suite.tests == |results| == |rep.assertions|
      && rep.failed == suite.failures == |set i: nat | i < |results| && !results[i].passed|
      && forall i :: 0 <= i < |results| ==> Restores(rep.assertions[i], results[i])
    ensures forall i :: 0 <= i < |results| ==> var a, r := Parsed(Junit(expId, results)).assertions[i], results[i];
      && a.name == r.name && a.passed == r.passed && !a.skipped
      && (r.passed ==> a.detail == "")
      && (!r.passed ==> a.detail != "")
      && (!r.passed ==> a.detail == if TrimSpace(r.note) != "" then TrimSpace(r.note) else TrimSpace(r.name + ": " + r.note))
  {
    hide TrimSpace;
    FailuresCount(results);
    FailuresAreNotPassed(expId, results);
    forall i | 0 <= i < |results| ensures Restores(AssertionOf(CaseOf(results[i])), results[i]) {
      if !results[i].passed {
        WrittenDetail(results[i]);
      }
    }
  }

  predicate Restores(a: Assertion, r: Scored) {
    a.name == r.name && a.passed == r.passed && !a.skipped && (a.detail == "" <==> r.passed)
  }

  // ---- the verdict -----------------------------------------------------------------------------

  /** The results `cmd_run` reports: a failed step is recorded as one failing case. */
  function Reported(stepErr: Option<string>, polled: seq<Scored>): seq<Scored> {
    if stepErr.Some? then [Scored("steps", false, stepErr.value)] else polled
  }

  /** The exit status of a run that got as far as its steps. */
  function ExitCode(stepErr: Option<string>, polled: seq<Scored>): int {
    if stepErr.None? && polled != [] && (forall r <- polled :: r.passed) then 0 else 1
  }

  lemma {:induction false} NoFailures(results: seq<Scored>)
    ensures Failures(results) == 0 <==> forall r <- results :: r.passed
  {
    if results != [] {
      var n := |results| - 1;
      NoFailures(results[..n]);
      assert results == results[..n] + [results[n]];
    }
  }

  /** The report says passed exactly when the runner exits 0, unless nothing was reported at all. */
  lemma VerdictsAgreeIff(expId: string, stepErr: Option<string>, polled: seq<Scored>)
    ensures (Parsed(Junit(expId, Reported(stepErr, polled))).passed <==> ExitCode(stepErr, polled) == 0)
       <==> Reported(stepErr, polled) != []
  {
    var results := Reported(stepErr, polled);
    FailuresAreNotPassed(expId, results);
    NoFailures(results);
    if stepErr.Some? {
      assert !results[0].passed;
    }
  }

  /** A failed step is reported as one failing case called "steps" that shows the error. */
  lemma StepErrorIsShown(expId: string, error: string, polled: seq<Scored>)
    ensures var rep := Parsed(Junit(expId, Reported(Some(error), polled)));
      && !rep.passed && rep.failed == rep.total == |rep.assertions| == 1
      && rep.assertions[0].name == "steps" && !rep.assertions[0].passed
      && rep.assertions[0].detail == if TrimSpace(error) != "" then TrimSpace(error) else TrimSpace("steps: " + error)
  {
    hide TrimSpace;
    var results := Reported(Some(error), polled);
    assert "steps" + ": " + error == "steps: " + error;
    RoundTrip(expId, results);
    FailuresCount(results);
    assert Failures(results[..0]) == 0 && Failures(results) == 1;
  }

  // ---- which document ----------------------------------------------------------------------------

  predicate Above(p: string, q: string) {
    if p == "" then false
    else if q == "" then true
    else p[0] > q[0] || (p[0] == q[0] && Above(p[1..], q[1..]))
  }

  /** The paths agree up to `k`, and there the first goes on or has the greater character. */
  predicate GreaterAt(p: string, q: string, k: nat) {
    k < |p| && k <= |q| && p[..k] == q[..k] && (k == |q| || p[k] > q[k])
  }

  lemma {:induction false} GreaterIsAbove(p: string, q: string, k: nat)
    requires GreaterAt(p, q, k)
    ensures Above(p, q)
  {
    if k > 0 {
      assert p[0] == p[..k][0] == q[0];
      assert p[1..][..k - 1] == p[..k][1..] == q[1..][..k - 1];
      GreaterIsAbove(p[1..], q[1..], k - 1);
    }
  }

  lemma {:induction false} AboveIsGreater(p: string, q: string) returns (k: nat)
    requires Above(p, q)
    ensures GreaterAt(p, q, k)
  {
    k := 0;
    if q != "" && p[0] == q[0] {
      k := AboveIsGreater(p[1..], q[1..]);
      assert p[..k + 1] == [p[0]] + p[1..][..k] && q[..k + 1] == [q[0]] + q[1..][..k];
      k := k + 1;
    }
  }

  /** The greater path is the one that is greater where they first differ. */
  lemma AboveIs(p: string, q: string)
    ensures Above(p, q) <==> exists k :: GreaterAt(p, q, k)
  {
    if Above(p, q) {
      var k := AboveIsGreater(p, q);
    }
    if k :| GreaterAt(p, q, k) {
      GreaterIsAbove(p, q, k);
    }
  }

  lemma {:induction false} AboveOrders(p: string, q: string, r: string)
    ensures !Above(p, p)
    ensures Above(p, q) && Above(q, r) ==> Above(p, r)
  {
    if p != "" {
      if q != "" && r != "" {
        AboveOrders(p[1..], q[1..], r[1..]);
      } else {
        AboveOrders(p[1..], "", "");
      }
    }
  }

  /** A path and its modification time, when it can be had. */
  datatype Candidate = Candidate(path: string, modified: Option<int>)

  /** When every time can be had, the last of the most recent documents; when none can, the greatest path. */
  method NewestReport(candidates: seq<Candidate>) returns (best: string)
    requires candidates != []
    ensures exists c <- candidates :: c.path == best
    ensures (forall c <- candidates :: c.modified.Some? && c.modified.value >= 0) ==>
      exists i :: 0 <= i < |candidates| && IsNewest(candidates, i) && candidates[i].path == best
    ensures (forall c <- candidates :: c.modified.None?) ==> forall c <- candidates :: !Above(c.path, best)
  {
    best := candidates[0].path;
    var bestMod := -1;
    ghost var at := 0;
    for i := 0 to |candidates|
      invariant at < |candidates| && candidates[at].path == best
      invariant i > 0 && (forall k :: 0 <= k < i ==> candidates[k].modified.Some? && candidates[k].modified.value >= 0) ==>
        at < i && candidates[at].modified == Some(bestMod) && NewestOf(candidates, at, i)
      invariant i == 0 ==> bestMod == -1
      invariant bestMod >= -1
      invariant (forall k :: 0 <= k < |candidates| ==> candidates[k].modified.None?) ==>
        forall k :: 0 <= k < i ==> !Above(candidates[k].path, best)
    {
      var c := candidates[i];
      forall k | 0 <= k <= i
        ensures !Above(candidates[k].path, candidates[k].path)
        ensures Above(candidates[k].path, c.path) && Above(c.path, best) ==> Above(candidates[k].path, best)
      {
        AboveOrders(candidates[k].path, c.path, best);
      }
      if c.modified.None? {
        if Above(c.path, best) {
          best, at := c.path, i;
        }
        continue;
      }
      if c.modified.value >= bestMod {
        bestMod, best, at := c.modified.value, c.path, i;
      }
    }
    if forall c <- candidates :: c.modified.Some? && c.modified.value >= 0 {
      assert forall k :: 0 <= k < |candidates| ==> candidates[k] in candidates;
      assert IsNewest(candidates, at);
    }
  }

  /** No earlier one of the first `n` is more recent than candidate `i`, and each later one is older. */
  predicate NewestOf(candidates: seq<Candidate>, i: nat, n: nat)
    requires i < n <= |candidates| && forall k :: 0 <= k < n ==> candidates[k].modified.Some?
  {
    && (forall k :: 0 <= k < i ==> candidates[k].modified.value <= candidates[i].modified.value)
    && (forall k :: i < k < n ==> candidates[k].modified.value < candidates[i].modified.value)
  }

  predicate IsNewest(candidates: seq<Candidate>, i: nat) {
    i < |candidates| && (forall k :: 0 <= k < |candidates| ==> candidates[k].modified.Some?)
    && NewestOf(candidates, i, |candidates|)
  }
}
