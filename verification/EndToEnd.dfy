/**
 Upload, outbox, broker, worker and result consumer as one machine. A result is handled in a
 separate read and write; redeliveries start further handlings of it while earlier ones, on this
 or another replica, go on with what they read; documents may be deleted meanwhile.
 */
module EndToEnd {
  import opened Options
  import opened Retry
  import opened Documents
  import O = Outbox
  import D = Delivery
  import Safety = DeliverySafety
  import Loss = DeliveryLoss

  /** One handling of a published result: delivered, its document read, done, or cut short. */
  datatype Stage = Arrived | Read(seen: Option<Status>) | Settled | CutShort

  datatype Handling = Handling(result: nat, stage: Stage)

  datatype System = System(docs: Docs, outbox: O.State, net: D.State, inbox: seq<Handling>)

  const INITIAL := System(map[], O.INITIAL, D.INITIAL, [])

  datatype Action =
    | Upload(doc: string, envelope: string)
    | Relay(step: O.Action, reached: bool)      // `reached`: an unconfirmed publish may still arrive
    | Work(act: D.Action)
    | ReadDocument(h: nat)
    | WriteDocument(h: nat, dbOk: bool)
    | RedeliverResult(h: nat, cut: bool)        // `cut`: the handler is gone; otherwise it still runs
    | DeleteDocument(doc: string)

  function StatusText(completed: bool): string {
    if completed then "completed" else "failed"
  }

  function StatusOf(completed: bool): Status {
    if completed then Completed else Failed
  }

  /** The copy a relay puts on the exchange: the stored envelope, never seen by a wait queue. */
  function PublishOf(row: O.Row): D.Action {
    D.Publish(D.Task(row.id, row.document), NoDeaths)
  }

  predicate Handled(s: System, h: nat) {
    h < |s.inbox| && s.inbox[h].result < |s.net.results|
  }

  ghost predicate Enabled(s: System, a: Action) {
    match a
    case Upload(doc, envelope) =>
      && O.Enabled(s.outbox, O.Add(envelope, doc)) && doc !in s.docs
      && forall i :: 0 <= i < |s.outbox.rows| ==> s.outbox.rows[i].document != doc
    case Relay(step, _) => !step.Add? && O.Enabled(s.outbox, step)
    case Work(act) => !act.Publish? && D.Enabled(s.net, act)
    case ReadDocument(h) => Handled(s, h) && s.inbox[h].stage.Arrived?
    case WriteDocument(h, _) => Handled(s, h) && s.inbox[h].stage.Read?
    case RedeliverResult(h, _) => Handled(s, h)
    case DeleteDocument(doc) => true
  }

  function PublishedBy(s: System, step: O.Action, reached: bool): D.State
    requires O.Enabled(s.outbox, step)
  {
    if step.TryPublish? && (step.ok || reached) then
      var tx := s.outbox.relays[step.relay];
      Arrive(s.net, s.outbox.rows[tx.batch[|tx.outcomes|]])
    else s.net
  }

  function Arrive(net: D.State, row: O.Row): D.State {
    NoDeathsOnRung();
    D.Next(net, PublishOf(row))
  }

  lemma NoDeathsOnRung()
    ensures OnRung(NoDeaths, D.PREFIX, 0)
  {
  }

  /** Each new result is delivered once to begin with. */
  function Grown(inbox: seq<Handling>, n: nat, n': nat): seq<Handling> {
    if n' <= n then inbox else Grown(inbox, n, n' - 1) + [Handling(n' - 1, Arrived)]
  }

  function Staged(s: System, h: nat, stage: Stage): seq<Handling>
    requires h < |s.inbox|
  {
    s.inbox[h := s.inbox[h].(stage := stage)]
  }

  function Next(s: System, a: Action): System
    requires Enabled(s, a)
  {
    match a
    case Upload(doc, envelope) =>
      s.(docs := s.docs[doc := Processing], outbox := O.Next(s.outbox, O.Add(envelope, doc)))
    case Relay(step, reached) =>
      s.(outbox := O.Next(s.outbox, step), net := PublishedBy(s, step, reached))
    case Work(act) =>
      var net := D.Next(s.net, act);
      s.(net := net, inbox := Grown(s.inbox, |s.net.results|, |net.results|))
    case ReadDocument(h) =>
      s.(inbox := Staged(s, h, Read(Lookup(s.docs, s.net.results[s.inbox[h].result].document))))
    case WriteDocument(h, dbOk) =>
      var x := s.net.results[s.inbox[h].result];
      var st := Decide(s.inbox[h].stage.seen, StatusText(x.completed));
      if st.None? then s.(inbox := Staged(s, h, Settled))
      else if !dbOk || x.document !in s.docs then s.(inbox := Staged(s, h, Arrived))
      else s.(docs := Written(s.docs, x.document, st.value), inbox := Staged(s, h, Settled))
    case RedeliverResult(h, cut) =>
      s.(inbox := (if cut then Staged(s, h, CutShort) else s.inbox) + [Handling(s.inbox[h].result, Arrived)])
    case DeleteDocument(doc) => s.(docs := s.docs - {doc})
  }

  ghost predicate Step(s: System, s': System) {
    exists a :: Enabled(s, a) && s' == Next(s, a)
  }

  ghost predicate IsRun(ss: seq<System>) {
    && |ss| > 0 && ss[0] == INITIAL
    && forall i :: 0 <= i < |ss| - 1 ==> Step(ss[i], ss[i + 1])
  }

  // ---- the invariant ---------------------------------------------------------------------

  ghost predicate HasRow(rows: seq<O.Row>, id: string, document: string) {
    exists i :: 0 <= i < |rows| && rows[i].id == id && rows[i].document == document
  }

  ghost predicate HasStatusResult(s: System, doc: string, st: Status) {
    exists j :: 0 <= j < |s.net.results| && s.net.results[j].document == doc
                && st == StatusOf(s.net.results[j].completed)
  }

  /** What was read still bounds what the document can be. */
  ghost predicate StageOk(p: Stage, doc: string, docs: Docs) {
    match p
    case Arrived => true
    case CutShort => true
    case Read(None) => doc !in docs
    case Read(Some(st)) => doc in docs && Terminal(st) ==> Terminal(docs[doc])
    case Settled => doc in docs ==> Terminal(docs[doc])
  }

  /** Rows, copies and results agree on which envelope belongs to which document. */
  ghost predicate Linked(rows: seq<O.Row>, net: D.State) {
    && (forall i, j :: 0 <= i < j < |rows| ==> rows[i].document != rows[j].document)
    && (forall c :: 0 <= c < |net.copies| ==>
          net.copies[c].body.Task? && HasRow(rows, net.copies[c].body.id, net.copies[c].body.document))
    && (forall j :: 0 <= j < |net.results| ==> HasRow(rows, net.results[j].id, net.results[j].document))
    && (forall i :: 0 <= i < |rows| && rows[i].confirms > 0 ==> Loss.HasCopy(net, rows[i].id))
  }

  ghost predicate DocsOk(s: System) {
    && (forall d <- s.docs :: exists i :: 0 <= i < |s.outbox.rows| && s.outbox.rows[i].document == d)
    && (forall d <- s.docs :: s.docs[d] == Processing || (Terminal(s.docs[d]) && HasStatusResult(s, d, s.docs[d])))
    && (forall h :: 0 <= h < |s.inbox| ==> HandlingOk(s, s.inbox[h]))
    && (forall j :: 0 <= j < |s.net.results| ==> InHands(s.inbox, j))
  }

  ghost predicate HandlingOk(s: System, x: Handling) {
    x.result < |s.net.results| && StageOk(x.stage, s.net.results[x.result].document, s.docs)
  }

  /** Some handling of result `j` is done or can still go on. */
  ghost predicate InHands(inbox: seq<Handling>, j: nat) {
    exists h :: 0 <= h < |inbox| && inbox[h].result == j && !inbox[h].stage.CutShort?
  }

  ghost predicate Inv(s: System) {
    && O.Inv(s.outbox)
    && Safety.Safe(s.net)
    && (D.GuardReliable(s.net) ==> Loss.Orderly(s.net))
    && Linked(s.outbox.rows, s.net)
    && DocsOk(s)
  }

  // ---- it is kept by every step ------------------------------------------------------------

  lemma NetKept(net: D.State, act: D.Action)
    requires D.Enabled(net, act)
    requires Safety.Safe(net) && (D.GuardReliable(net) ==> Loss.Orderly(net))
    ensures Safety.Safe(D.Next(net, act))
    ensures D.GuardReliable(D.Next(net, act)) ==> D.GuardReliable(net) && Loss.Orderly(D.Next(net, act))
  {
    hide Safety.Safe, Loss.Orderly, D.GuardReliable, D.Next, D.Enabled;
    Safety.SafeKept(net, act);
    Safety.ReliabilityIsLost(net, act);
    if D.GuardReliable(D.Next(net, act)) {
      Loss.OrderlyKept(net, act);
    }
  }

  /** Every new result carries the id and document of a copy. */
  lemma NewResultsAreOfCopies(net: D.State, act: D.Action)
    requires D.Enabled(net, act)
    ensures forall j :: |net.results| <= j < |D.Next(net, act).results| ==>
      exists c :: 0 <= c < |net.copies| && net.copies[c].body.Task?
        && net.copies[c].body.id == D.Next(net, act).results[j].id
        && net.copies[c].body.document == D.Next(net, act).results[j].document
  {
    hide D.Attempt, D.Route, OnRung, D.Key, OnExpiry;
    var net' := D.Next(net, act);
    if act.FollowUp? {
      assert net.copies[act.c].body.Task?;
    }
  }

  lemma LinkedKeptWork(rows: seq<O.Row>, net: D.State, act: D.Action)
    requires Linked(rows, net) && D.Enabled(net, act) && !act.Publish?
    ensures Linked(rows, D.Next(net, act))
  {
    hide D.Next, D.Enabled, HasRow;
    var net' := D.Next(net, act);
    Loss.StepKeeps(net, act);
    Loss.StepTouches(net, act);
    NewResultsAreOfCopies(net, act);
    if Safety.Subject(act).None? {
      SubjectOrNothing(net, act);
    }
    forall c | 0 <= c < |net'.copies|
      ensures net'.copies[c].body.Task? && HasRow(rows, net'.copies[c].body.id, net'.copies[c].body.document)
    {
      var d := if c < |net.copies| then c else Safety.Subject(act).value;
      assert net'.copies[c].body == net.copies[d].body;
    }
    forall j | 0 <= j < |net'.results| ensures HasRow(rows, net'.results[j].id, net'.results[j].document) {
      if j < |net.results| {
        assert net'.results[j] == net.results[j];
      } else {
        var c :| 0 <= c < |net.copies| && net.copies[c].body.Task?
          && net.copies[c].body.id == net'.results[j].id && net.copies[c].body.document == net'.results[j].document;
      }
    }
    forall i | 0 <= i < |rows| && rows[i].confirms > 0 ensures Loss.HasCopy(net', rows[i].id) {
      CopyStaysKnown(net, net', rows[i].id);
    }
  }

  lemma SubjectOrNothing(net: D.State, act: D.Action)
    requires D.Enabled(net, act) && !act.Publish? && Safety.Subject(act).None?
    ensures D.Next(net, act).copies == net.copies
  {
  }

  lemma CopyStaysKnown(net: D.State, net': D.State, id: string)
    requires Loss.Keeps(net, net') && Loss.HasCopy(net, id)
    ensures Loss.HasCopy(net', id)
  {
    var c :| 0 <= c < |net.copies| && net.copies[c].body.Task? && net.copies[c].body.id == id;
    assert net'.copies[c].body == net.copies[c].body;
  }

  lemma RowsKept(rows: seq<O.Row>, rows': seq<O.Row>)
    requires |rows| <= |rows'|
    requires forall i :: 0 <= i < |rows| ==> rows'[i].id == rows[i].id && rows'[i].document == rows[i].document
    ensures forall id, document :: HasRow(rows, id, document) ==> HasRow(rows', id, document)
  {
    forall id, document | HasRow(rows, id, document) ensures HasRow(rows', id, document) {
      var i :| 0 <= i < |rows| && rows[i].id == id && rows[i].document == document;
      assert rows'[i].id == id;
    }
  }

  lemma LinkedKeptUpload(rows: seq<O.Row>, net: D.State, doc: string, envelope: string)
    requires Linked(rows, net)
    requires forall i :: 0 <= i < |rows| ==> rows[i].document != doc
    ensures Linked(rows + [O.NewRow(envelope, doc)], net)
  {
    hide HasRow, Loss.HasCopy;
    RowsKept(rows, rows + [O.NewRow(envelope, doc)]);
  }

  /** What a relay step does to rows: names stay, and confirms grow only where it publishes. */
  lemma RelayRows(s: O.State, step: O.Action)
    requires O.Enabled(s, step) && !step.Add?
    ensures var rows, rows' := s.rows, O.Next(s, step).rows;
      && |rows'| == |rows|
      && forall i :: 0 <= i < |rows| ==>
           && rows'[i].id == rows[i].id && rows'[i].document == rows[i].document
           && (rows'[i].confirms == rows[i].confirms
               || (step.TryPublish? && step.ok
                   && i == s.relays[step.relay].batch[|s.relays[step.relay].outcomes|]))
  {
    hide O.Position, O.Held;
  }

  lemma LinkedKeptRelay(s: System, step: O.Action, reached: bool)
    requires Linked(s.outbox.rows, s.net) && Enabled(s, Relay(step, reached))
    ensures Linked(O.Next(s.outbox, step).rows, PublishedBy(s, step, reached))
  {
    hide O.Next, HasRow, D.Attempt, OnRung;
    var rows, rows' := s.outbox.rows, O.Next(s.outbox, step).rows;
    var net, net' := s.net, PublishedBy(s, step, reached);
    RelayRows(s.outbox, step);
    RowsKept(rows, rows');
    var arrived := step.TryPublish? && (step.ok || reached);
    if arrived {
      var tx := s.outbox.relays[step.relay];
      var row := rows[tx.batch[|tx.outcomes|]];
      OwnRow(rows, tx.batch[|tx.outcomes|]);
      assert net'.copies == net.copies + [D.Copy(D.Task(row.id, row.document), NoDeaths, D.Queued)];
      assert net'.results == net.results;
    } else {
      assert net' == net;
    }
    forall i | 0 <= i < |rows'| && rows'[i].confirms > 0 ensures Loss.HasCopy(net', rows'[i].id) {
      if rows[i].confirms > 0 {
        KnownInPrefix(net, net', rows[i].id);
      } else {
        assert net'.copies[|net.copies|].body.id == rows'[i].id;
      }
    }
  }

  lemma OwnRow(rows: seq<O.Row>, i: nat)
    requires i < |rows|
    ensures HasRow(rows, rows[i].id, rows[i].document)
  {
  }

  lemma KnownInPrefix(net: D.State, net': D.State, id: string)
    requires Loss.HasCopy(net, id) && |net.copies| <= |net'.copies|
    requires net'.copies[..|net.copies|] == net.copies
    ensures Loss.HasCopy(net', id)
  {
    var c :| 0 <= c < |net.copies| && net.copies[c].body.Task? && net.copies[c].body.id == id;
    assert net'.copies[c] == net.copies[c];
  }

  // ---- documents -----------------------------------------------------------------------------

  lemma DocsKeptUpload(s: System, a: Action)
    requires Inv(s) && Enabled(s, a) && a.Upload?
    ensures DocsOk(Next(s, a))
  {
    hide O.Inv, Safety.Safe, Loss.Orderly, O.Enabled;
    var s' := Next(s, a);
    var rows := s.outbox.rows;
    assert s'.outbox.rows == rows + [O.NewRow(a.envelope, a.doc)];
    forall d <- s'.docs ensures exists i :: 0 <= i < |s'.outbox.rows| && s'.outbox.rows[i].document == d {
      if d == a.doc {
        assert s'.outbox.rows[|rows|].document == d;
      } else {
        var i :| 0 <= i < |rows| && rows[i].document == d;
        assert s'.outbox.rows[i].document == d;
      }
    }
    forall d <- s'.docs ensures s'.docs[d] == Processing || (Terminal(s'.docs[d]) && HasStatusResult(s', d, s'.docs[d])) {
      if d != a.doc && s.docs[d] != Processing {
        StatusResultStays(s, s', d, s.docs[d]);
      }
    }
    forall h | 0 <= h < |s'.inbox| ensures HandlingOk(s', s'.inbox[h]) {
      assert HandlingOk(s, s.inbox[h]);
      var x := s.net.results[s.inbox[h].result];
      assert HasRow(rows, x.id, x.document);
    }
  }

  lemma StatusResultStays(s: System, s': System, d: string, st: Status)
    requires HasStatusResult(s, d, st) && |s.net.results| <= |s'.net.results|
    requires forall j :: 0 <= j < |s.net.results| ==> s'.net.results[j] == s.net.results[j]
    ensures HasStatusResult(s', d, st)
  {
    var j :| 0 <= j < |s.net.results| && s.net.results[j].document == d && st == StatusOf(s.net.results[j].completed);
    assert s'.net.results[j] == s.net.results[j];
  }

  lemma {:induction false} GrownIs(inbox: seq<Handling>, n: nat, n': nat)
    ensures inbox <= Grown(inbox, n, n')
    ensures forall h :: |inbox| <= h < |Grown(inbox, n, n')| ==>
      Grown(inbox, n, n')[h].stage.Arrived? && n <= Grown(inbox, n, n')[h].result < n'
    ensures forall j :: n <= j < n' ==> InHands(Grown(inbox, n, n'), j)
  {
    if n < n' {
      GrownIs(inbox, n, n' - 1);
      var g := Grown(inbox, n, n' - 1);
      forall j | n <= j < n' ensures InHands(Grown(inbox, n, n'), j) {
        if j < n' - 1 {
          StillInHands(g, Grown(inbox, n, n'), j);
        } else {
          assert Grown(inbox, n, n')[|g|].result == j;
        }
      }
    }
  }

  lemma StillInHands(inbox: seq<Handling>, inbox': seq<Handling>, j: nat)
    requires InHands(inbox, j) && inbox <= inbox'
    ensures InHands(inbox', j)
  {
    var h :| 0 <= h < |inbox| && inbox[h].result == j && !inbox[h].stage.CutShort?;
    assert inbox'[h] == inbox[h];
  }

  /** Steps that leave the documents alone, keep results and only add arrivals. */
  lemma DocsFrame(s: System, s': System)
    requires DocsOk(s) && s'.docs == s.docs
    requires |s.outbox.rows| <= |s'.outbox.rows|
    requires forall i :: 0 <= i < |s.outbox.rows| ==> s'.outbox.rows[i].document == s.outbox.rows[i].document
    requires |s.net.results| <= |s'.net.results|
    requires forall j :: 0 <= j < |s.net.results| ==> s'.net.results[j] == s.net.results[j]
    requires s'.inbox == Grown(s.inbox, |s.net.results|, |s'.net.results|)
    ensures DocsOk(s')
  {
    forall d <- s'.docs ensures exists i :: 0 <= i < |s'.outbox.rows| && s'.outbox.rows[i].document == d {
      var i :| 0 <= i < |s.outbox.rows| && s.outbox.rows[i].document == d;
      assert s'.outbox.rows[i].document == d;
    }
    forall d <- s'.docs ensures s'.docs[d] == Processing || (Terminal(s'.docs[d]) && HasStatusResult(s', d, s'.docs[d])) {
      if s.docs[d] != Processing {
        StatusResultStays(s, s', d, s.docs[d]);
      }
    }
    GrownIs(s.inbox, |s.net.results|, |s'.net.results|);
    forall h | 0 <= h < |s'.inbox| ensures HandlingOk(s', s'.inbox[h]) {
      if h < |s.inbox| {
        assert HandlingOk(s, s.inbox[h]);
      }
    }
    forall j | 0 <= j < |s'.net.results| ensures InHands(s'.inbox, j) {
      if j < |s.net.results| {
        StillInHands(s.inbox, s'.inbox, j);
      }
    }
  }

  lemma DocsKeptRelayWork(s: System, a: Action)
    requires Inv(s) && Enabled(s, a) && (a.Relay? || a.Work?)
    ensures DocsOk(Next(s, a))
  {
    hide O.Inv, Safety.Safe, Loss.Orderly, O.Next, D.Next, O.Enabled, D.Enabled, Linked, DocsOk;
    var s' := Next(s, a);
    if a.Relay? {
      RelayRows(s.outbox, a.step);
      RelayKeepsResults(s, a.step, a.reached);
    } else {
      Loss.StepKeeps(s.net, a.act);
    }
    DocsFrame(s, s');
  }

  lemma RelayKeepsResults(s: System, step: O.Action, reached: bool)
    requires O.Enabled(s.outbox, step)
    ensures PublishedBy(s, step, reached).results == s.net.results
  {
    hide OnRung;
  }

  lemma DocsKeptResult(s: System, a: Action)
    requires Inv(s) && Enabled(s, a)
    requires a.ReadDocument? || a.WriteDocument? || a.RedeliverResult? || a.DeleteDocument?
    ensures DocsOk(Next(s, a))
  {
    hide O.Inv, Safety.Safe, Loss.Orderly, Linked, StageOk, HasStatusResult, InHands;
    var s' := Next(s, a);
    forall d <- s'.docs ensures s'.docs[d] == Processing || (Terminal(s'.docs[d]) && HasStatusResult(s', d, s'.docs[d])) {
      StatusKept(s, a, d);
    }
    forall h | 0 <= h < |s'.inbox| ensures HandlingOk(s', s'.inbox[h]) {
      HandlingKept(s, a, h);
    }
    forall j | 0 <= j < |s'.net.results| ensures InHands(s'.inbox, j) {
      KeptInHands(s, a, j);
    }
  }

  lemma StatusKept(s: System, a: Action, d: string)
    requires DocsOk(s) && Enabled(s, a) && d in Next(s, a).docs
    requires a.ReadDocument? || a.WriteDocument? || a.RedeliverResult? || a.DeleteDocument?
    ensures var st := Next(s, a).docs[d];
      d in s.docs && (st == Processing || (Terminal(st) && HasStatusResult(Next(s, a), d, st)))
  {
    hide StageOk, InHands;
    var s' := Next(s, a);
    if s.docs[d] == s'.docs[d] {
      if s.docs[d] != Processing {
        StatusResultStays(s, s', d, s.docs[d]);
      }
    } else {
      var j := s.inbox[a.h].result;
      assert s.net.results[j].document == d && s'.docs[d] == StatusOf(s.net.results[j].completed);
    }
  }

  lemma HandlingKept(s: System, a: Action, h: nat)
    requires DocsOk(s) && Enabled(s, a) && h < |Next(s, a).inbox|
    requires a.ReadDocument? || a.WriteDocument? || a.RedeliverResult? || a.DeleteDocument?
    ensures HandlingOk(Next(s, a), Next(s, a).inbox[h])
  {
    hide HasStatusResult, InHands, D.Next, D.Enabled, O.Next, O.Enabled, Linked;
    if h < |s.inbox| {
      assert HandlingOk(s, s.inbox[h]);
    }
  }

  lemma KeptInHands(s: System, a: Action, j: nat)
    requires Enabled(s, a) && InHands(s.inbox, j)
    requires a.ReadDocument? || a.WriteDocument? || a.RedeliverResult? || a.DeleteDocument?
    ensures InHands(Next(s, a).inbox, j)
  {
    hide D.Next, D.Enabled, O.Next, O.Enabled;
    var inbox' := Next(s, a).inbox;
    var h :| 0 <= h < |s.inbox| && s.inbox[h].result == j && !s.inbox[h].stage.CutShort?;
    assert inbox'[h].result == j;
    if a.RedeliverResult? {
      assert inbox'[|s.inbox|] == Handling(s.inbox[a.h].result, Arrived);
    }
  }

  lemma InvKept(s: System, a: Action)
    requires Inv(s) && Enabled(s, a)
    ensures Inv(Next(s, a))
  {
    hide O.Inv, Safety.Safe, Loss.Orderly, O.Next, D.Next, O.Enabled, D.Enabled, Linked, DocsOk, D.GuardReliable;
    match a
    case Upload(doc, envelope) =>
      O.InvKept(s.outbox, O.Add(envelope, doc));
      UploadAddsRow(s, a);
      LinkedKeptUpload(s.outbox.rows, s.net, doc, envelope);
      DocsKeptUpload(s, a);
    case Relay(step, reached) =>
      O.InvKept(s.outbox, step);
      LinkedKeptRelay(s, step, reached);
      DocsKeptRelayWork(s, a);
      NoDeathsOnRung();
      if step.TryPublish? && (step.ok || reached) {
        ArrivalKept(s, step);
      }
    case Work(act) =>
      NetKept(s.net, act);
      LinkedKeptWork(s.outbox.rows, s.net, act);
      DocsKeptRelayWork(s, a);
    case _ =>
      DocsKeptResult(s, a);
  }

  lemma UploadAddsRow(s: System, a: Action)
    requires Enabled(s, a) && a.Upload?
    ensures Next(s, a).outbox.rows == s.outbox.rows + [O.NewRow(a.envelope, a.doc)]
  {
  }

  lemma ArrivalKept(s: System, step: O.Action)
    requires Inv(s) && O.Enabled(s.outbox, step) && step.TryPublish?
    ensures var tx := s.outbox.relays[step.relay];
      var net' := Arrive(s.net, s.outbox.rows[tx.batch[|tx.outcomes|]]);
      Safety.Safe(net') && (D.GuardReliable(net') ==> Loss.Orderly(net'))
  {
    hide Safety.Safe, Loss.Orderly, D.Next, Linked, DocsOk, D.GuardReliable, O.Inv;
    NoDeathsOnRung();
    var tx := s.outbox.relays[step.relay];
    NetKept(s.net, PublishOf(s.outbox.rows[tx.batch[|tx.outcomes|]]));
  }

  lemma {:induction false} ReachableInv(ss: seq<System>, n: nat)
    requires IsRun(ss) && n < |ss|
    ensures Inv(ss[n])
  {
    hide Next, Enabled, Inv;
    if n == 0 {
      InitialInv();
    } else {
      assert Step(ss[n - 1], ss[n - 1 + 1]);
      var a :| Enabled(ss[n - 1], a) && ss[n] == Next(ss[n - 1], a);
      ReachableInv(ss, n - 1);
      InvKept(ss[n - 1], a);
    }
  }

  lemma InitialInv()
    ensures Inv(INITIAL)
  {
    Loss.InitialOrderly();
    Safety.ReachableIsSafe([D.INITIAL], 0);
  }

  // ---- what every run guarantees for a document ----------------------------------------------

  ghost predicate HasDocRow(s: System, d: string) {
    exists i :: 0 <= i < |s.outbox.rows| && s.outbox.rows[i].document == d
  }

  lemma StepKeepsRows(s: System, a: Action)
    requires Enabled(s, a)
    ensures O.RowsPersist(s.outbox, Next(s, a).outbox)
  {
    hide O.Next, O.Enabled, D.Next, D.Enabled;
    match a
    case Upload(doc, envelope) => O.StepPersists(s.outbox, O.Add(envelope, doc));
    case Relay(step, _) => O.StepPersists(s.outbox, step);
    case _ =>
  }

  lemma {:induction false} RowsStay(ss: seq<System>, m: nat, n: nat)
    requires IsRun(ss) && m <= n < |ss|
    ensures O.RowsPersist(ss[m].outbox, ss[n].outbox)
  {
    hide Next, Enabled;
    if m < n {
      assert Step(ss[n - 1], ss[n - 1 + 1]);
      var a :| Enabled(ss[n - 1], a) && ss[n] == Next(ss[n - 1], a);
      RowsStay(ss, m, n - 1);
      StepKeepsRows(ss[n - 1], a);
    }
  }

  /**
   In every run a committed upload has exactly one outbox row, and it is the same row with the
   same envelope ever after, whatever becomes of the document.
   */
  lemma OneRowPerUpload(ss: seq<System>, m: nat, n: nat, d: string) returns (i: nat)
    requires IsRun(ss) && m <= n < |ss| && d in ss[m].docs
    ensures i < |ss[m].outbox.rows| <= |ss[n].outbox.rows|
    ensures ss[m].outbox.rows[i].document == d && ss[n].outbox.rows[i].document == d
    ensures ss[n].outbox.rows[i].id == ss[m].outbox.rows[i].id
    ensures ss[m].outbox.rows[i].sent ==> ss[n].outbox.rows[i].sent
    ensures forall k :: 0 <= k < |ss[n].outbox.rows| && ss[n].outbox.rows[k].document == d ==> k == i
  {
    hide IsRun, O.Inv, Safety.Safe, Loss.Orderly, D.GuardReliable;
    ReachableInv(ss, m);
    ReachableInv(ss, n);
    RowsStay(ss, m, n);
    i :| 0 <= i < |ss[m].outbox.rows| && ss[m].outbox.rows[i].document == d;
  }

  // ---- a handling is the result handler's call ------------------------------------------------

  /** The envelope a result travels in. */
  function MessageOf(x: D.Result): Message {
    Message("task.result", Some(ResultPayload(if x.completed then "completed" else "failed", Document(x.document))))
  }

  /**
   Read and write with nothing in between do what the result handler does with the message the
   result is published as: a processing document gets the result's status and the handling is
   over; when the write fails nothing has changed and the result is to come again.
   */
  lemma HandlingIsHandle(s: System, h: nat)
    requires Enabled(s, ReadDocument(h))
    ensures var x, r := s.net.results[s.inbox[h].result], Next(s, ReadDocument(h));
      && Enabled(r, WriteDocument(h, true)) && Enabled(r, WriteDocument(h, false)) && r.docs == s.docs
      && var done, undone := Next(r, WriteDocument(h, true)), Next(r, WriteDocument(h, false));
         && done.docs == AfterMessage(s.docs, MessageOf(x)) && done.inbox[h].stage == Settled
         && undone.docs == s.docs
         && (undone.inbox[h].stage == if done.docs == s.docs then Settled else Arrived)
         && (x.document in s.docs && s.docs[x.document] == Processing ==>
               done.docs == s.docs[x.document := if x.completed then Completed else Failed])
         && (x.document !in s.docs || s.docs[x.document] in {Completed, Failed} ==> done.docs == s.docs)
  {
    hide D.Next, D.Enabled, O.Next, O.Enabled;
  }

  /**
   Whatever happens between read and write, a write changes a document only if the status read
   was not terminal, and only to that of its result.
   */
  lemma WriteIsOfItsRead(s: System, h: nat, dbOk: bool)
    requires Enabled(s, WriteDocument(h, dbOk))
    ensures var x, seen, s' := s.net.results[s.inbox[h].result], s.inbox[h].stage.seen, Next(s, WriteDocument(h, dbOk));
      s'.docs == if dbOk && x.document in s.docs && (seen == Some(Pending) || seen == Some(Processing))
                 then s.docs[x.document := if x.completed then Completed else Failed] else s.docs
  {
    hide D.Next, D.Enabled, O.Next, O.Enabled;
  }

  /** A document has one envelope, an envelope one result: hence a document has one result. */
  lemma SameDocumentSameResult(s: System, i: nat, j: nat)
    requires Inv(s) && D.GuardReliable(s.net)
    requires i < |s.net.results| && j < |s.net.results| && s.net.results[i].document == s.net.results[j].document
    ensures i == j
  {
    hide Safety.Safe, Loss.Orderly, D.GuardReliable, DocsOk, O.Balanced, O.TxOk, O.BeingTried;
    var x, y := s.net.results[i], s.net.results[j];
    var rows := s.outbox.rows;
    assert HasRow(rows, x.id, x.document) && HasRow(rows, y.id, y.document);
    var p :| 0 <= p < |rows| && rows[p].id == x.id && rows[p].document == x.document;
    var q :| 0 <= q < |rows| && rows[q].id == y.id && rows[q].document == y.document;
    assert p == q;
    assert O.RowOk(rows[p], O.BeingTried(s.outbox, p));
    Safety.UniqueResult(s.net, i, j);
  }

  /** One step: a document leaves processing for a terminal status, and a terminal one never. */
  lemma StepSettlesAtMost(s: System, a: Action, d: string)
    requires Inv(s) && Enabled(s, a) && D.GuardReliable(Next(s, a).net)
    requires d in s.docs && d in Next(s, a).docs
    ensures Next(s, a).docs[d] == s.docs[d] || (s.docs[d] == Processing && Terminal(Next(s, a).docs[d]))
  {
    hide O.Inv, Safety.Safe, Loss.Orderly, O.Next, O.Enabled, D.GuardReliable, Linked;
    ReliabilityFalls(s, a);
    if a.WriteDocument? && Next(s, a).docs[d] != s.docs[d] && s.docs[d] != Processing {
      var i :| 0 <= i < |s.net.results| && s.net.results[i].document == d
               && s.docs[d] == StatusOf(s.net.results[i].completed);
      SameDocumentSameResult(s, i, s.inbox[a.h].result);
    }
  }

  lemma ReliabilityFalls(s: System, a: Action)
    requires Enabled(s, a) && D.GuardReliable(Next(s, a).net)
    ensures D.GuardReliable(s.net)
  {
    hide OnRung, D.Enabled, D.Next, D.GuardReliable, O.Next, O.Held, O.Position;
    if a.Work? {
      Safety.ReliabilityIsLost(s.net, a.act);
    } else if a.Relay? && a.step.TryPublish? && (a.step.ok || a.reached) {
      NoDeathsOnRung();
      var tx := s.outbox.relays[a.step.relay];
      Safety.ReliabilityIsLost(s.net, PublishOf(s.outbox.rows[tx.batch[|tx.outcomes|]]));
    }
  }

  /** A document that has its row is never created again, so its presence reaches back. */
  lemma PresenceReachesBack(s: System, a: Action, d: string)
    requires Enabled(s, a) && HasDocRow(s, d)
    ensures HasDocRow(Next(s, a), d)
    ensures d in Next(s, a).docs ==> d in s.docs
  {
    hide D.Next, D.Enabled, O.Position, O.Held;
    var i :| 0 <= i < |s.outbox.rows| && s.outbox.rows[i].document == d;
    if a.Relay? {
      RelayRows(s.outbox, a.step);
    }
    assert Next(s, a).outbox.rows[i].document == d;
  }

  /** In every run a terminal status, once reached, is the status for as long as the document exists. */
  lemma {:induction false} TerminalForEver(ss: seq<System>, m: nat, n: nat, d: string)
    requires IsRun(ss) && m <= n < |ss| && D.GuardReliable(ss[n].net)
    requires d in ss[m].docs && Terminal(ss[m].docs[d])
    ensures HasDocRow(ss[n], d)
    ensures d in ss[n].docs ==> ss[n].docs[d] == ss[m].docs[d]
    ensures d !in ss[n].docs || d in ss[m].docs
  {
    hide Next, Enabled, Inv, D.GuardReliable;
    if m == n {
      ReachableInv(ss, n);
      DocumentHasRow(ss[n], d);
    } else {
      assert Step(ss[n - 1], ss[n - 1 + 1]);
      var a :| Enabled(ss[n - 1], a) && ss[n] == Next(ss[n - 1], a);
      ReliabilityFalls(ss[n - 1], a);
      TerminalForEver(ss, m, n - 1, d);
      PresenceReachesBack(ss[n - 1], a, d);
      ReachableInv(ss, n - 1);
      if d in ss[n].docs {
        StepSettlesAtMost(ss[n - 1], a, d);
      }
    }
  }

  lemma DocumentHasRow(s: System, d: string)
    requires Inv(s) && d in s.docs
    ensures HasDocRow(s, d)
  {
  }

  /**
   A document is never pending once committed, and a terminal status is that of the one result
   its envelope has.
   */
  lemma StatusIsThatOfItsResult(ss: seq<System>, n: nat, d: string)
    requires IsRun(ss) && n < |ss| && D.GuardReliable(ss[n].net) && d in ss[n].docs
    ensures ss[n].docs[d] != Pending
    ensures Terminal(ss[n].docs[d]) ==>
      exists j :: 0 <= j < |ss[n].net.results| && ss[n].net.results[j].document == d
        && ss[n].docs[d] == (if ss[n].net.results[j].completed then Completed else Failed)
        && forall i :: 0 <= i < |ss[n].net.results| && ss[n].net.results[i].document == d ==> i == j
  {
    hide O.Inv, Safety.Safe, Loss.Orderly, Linked, D.GuardReliable;
    var s := ss[n];
    ReachableInv(ss, n);
    if Terminal(s.docs[d]) {
      var j :| 0 <= j < |s.net.results| && s.net.results[j].document == d
               && s.docs[d] == StatusOf(s.net.results[j].completed);
      forall i | 0 <= i < |s.net.results| && s.net.results[i].document == d ensures i == j {
        SameDocumentSameResult(s, i, j);
      }
    }
  }

  /** In every run a document has at most one result, however often envelopes and results are redelivered. */
  lemma OneResultPerDocument(ss: seq<System>, n: nat, i: nat, j: nat)
    requires IsRun(ss) && n < |ss| && D.GuardReliable(ss[n].net)
    requires i < |ss[n].net.results| && j < |ss[n].net.results|
    requires ss[n].net.results[i].document == ss[n].net.results[j].document
    ensures i == j
  {
    hide IsRun, Inv, D.GuardReliable;
    ReachableInv(ss, n);
    SameDocumentSameResult(ss[n], i, j);
  }

  /** In every run the only change of a document's status is from processing to a terminal one. */
  lemma StatusStep(ss: seq<System>, n: nat, d: string)
    requires IsRun(ss) && n + 1 < |ss| && D.GuardReliable(ss[n + 1].net)
    requires d in ss[n].docs && d in ss[n + 1].docs
    ensures ss[n + 1].docs[d] == ss[n].docs[d] || (ss[n].docs[d] == Processing && Terminal(ss[n + 1].docs[d]))
  {
    hide Next, Enabled, Inv, D.GuardReliable;
    assert Step(ss[n], ss[n + 1]);
    var a :| Enabled(ss[n], a) && ss[n + 1] == Next(ss[n], a);
    ReachableInv(ss, n);
    StepSettlesAtMost(ss[n], a, d);
  }

  /** Nothing left to do anywhere: rows sent, no live copy, every handling settled or cut short. */
  ghost predicate AllQuiet(s: System) {
    && (forall i :: 0 <= i < |s.outbox.rows| ==> s.outbox.rows[i].sent)
    && Loss.Quiescent(s.net)
    && (forall h :: 0 <= h < |s.inbox| ==> s.inbox[h].stage.Settled? || s.inbox[h].stage.CutShort?)
  }

  /**
   When everything is quiet, each existing document whose envelope was not abandoned has its
   result's status, and each whose envelope was abandoned is still processing.
   */
  lemma EveryDocumentSettles(ss: seq<System>, n: nat, i: nat)
    requires IsRun(ss) && n < |ss| && D.GuardReliable(ss[n].net) && AllQuiet(ss[n])
    requires i < |ss[n].outbox.rows| && ss[n].outbox.rows[i].document in ss[n].docs
    ensures var s, row := ss[n], ss[n].outbox.rows[i];
      && (Terminal(s.docs[row.document]) <==> row.id !in s.net.abandoned)
      && (s.docs[row.document] == Processing <==> row.id in s.net.abandoned)
  {
    hide IsRun, O.Inv, Safety.Safe, Loss.Orderly, Loss.HasCopy, D.GuardReliable;
    var s, row := ss[n], ss[n].outbox.rows[i];
    ReachableInv(ss, n);
    SentIsKnown(s, i);
    QuietOutcome(s, row.id);
    if Loss.HasResult(s.net, row.id) {
      var j :| 0 <= j < |s.net.results| && s.net.results[j].id == row.id;
      ResultOfRow(s, i, j);
      assert InHands(s.inbox, j);
      var h :| 0 <= h < |s.inbox| && s.inbox[h].result == j && !s.inbox[h].stage.CutShort?;
      assert HandlingOk(s, s.inbox[h]);
    }
    if Terminal(s.docs[row.document]) {
      var j :| 0 <= j < |s.net.results| && s.net.results[j].document == row.document
               && s.docs[row.document] == StatusOf(s.net.results[j].completed);
      DocumentOfRow(s, i, j);
      assert Loss.HasResult(s.net, row.id);
    }
  }

  /** The envelope of a sent row has reached the broker. */
  lemma SentIsKnown(s: System, i: nat)
    requires Inv(s) && i < |s.outbox.rows| && s.outbox.rows[i].sent
    ensures Loss.HasCopy(s.net, s.outbox.rows[i].id) && s.outbox.rows[i].id != ""
  {
    hide O.Balanced, O.TxOk, O.BeingTried, Safety.Safe, Loss.Orderly, Loss.HasCopy, D.GuardReliable, DocsOk;
    assert O.RowOk(s.outbox.rows[i], O.BeingTried(s.outbox, i));
  }

  lemma QuietOutcome(s: System, id: string)
    requires Inv(s) && D.GuardReliable(s.net) && Loss.Quiescent(s.net)
    requires Loss.HasCopy(s.net, id) && id != ""
    ensures Loss.HasResult(s.net, id) <==> id !in s.net.abandoned
  {
    hide O.Inv, Safety.Safe, Linked, DocsOk, D.GuardReliable, D.Attempt, D.Key, Loss.Accounted, Loss.AckedAttemptsSpent, Loss.Carries;
    if d :| 0 <= d < |s.net.copies| && Loss.Carries(s.net.copies[d], id, s.net.guard) {
      Loss.CarrierIsLive(s.net.copies[d], id, s.net.guard);
    }
  }

  lemma ResultOfRow(s: System, i: nat, j: nat)
    requires Inv(s) && i < |s.outbox.rows| && j < |s.net.results| && s.net.results[j].id == s.outbox.rows[i].id
    ensures s.net.results[j].document == s.outbox.rows[i].document
  {
    hide Safety.Safe, Loss.Orderly, DocsOk, O.TxOk, O.BeingTried, O.RowOk;
    var rows := s.outbox.rows;
    assert HasRow(rows, s.net.results[j].id, s.net.results[j].document);
  }

  lemma DocumentOfRow(s: System, i: nat, j: nat)
    requires Inv(s) && i < |s.outbox.rows| && j < |s.net.results|
    requires s.net.results[j].document == s.outbox.rows[i].document
    ensures s.net.results[j].id == s.outbox.rows[i].id
  {
    hide Safety.Safe, Loss.Orderly, DocsOk, O.TxOk, O.BeingTried, O.RowOk;
    var rows := s.outbox.rows;
    assert HasRow(rows, s.net.results[j].id, s.net.results[j].document);
  }
}
