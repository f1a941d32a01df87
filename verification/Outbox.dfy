/**
 The transactional outbox: rows committed together with their document, and any number of
 relays that publish pending rows and mark them in one transaction each. A relay may crash or
 roll back at any point between taking its batch and committing.
 */
module Outbox {

  /** A stored envelope. `calls`, `confirms` and `rolledBack` are history, not columns. */
  datatype Row = Row(id: string, document: string, sent: bool, attempts: nat,
                     calls: nat, confirms: nat, rolledBack: nat)

  /** An open relay transaction: the locked rows in order, and how each publish so far ended. */
  datatype Tx = Tx(batch: seq<nat>, outcomes: seq<bool>)

  datatype State = State(rows: seq<Row>, relays: map<nat, Tx>)

  const INITIAL := State([], map[])

  datatype Action =
    | Add(id: string, document: string)
    | Begin(relay: nat, limit: nat)
    | TryPublish(relay: nat, ok: bool)
    | Commit(relay: nat)
    | Rollback(relay: nat)        // error, crash or lost connection: the transaction is undone

  function NewRow(id: string, document: string): Row {
    Row(id, document, false, 0, 0, 0, 0)
  }

  // ---- FOR UPDATE SKIP LOCKED ---------------------------------------------------------

  predicate Held(s: State, i: nat) {
    exists r <- s.relays :: i in s.relays[r].batch
  }

  function HeldRows(s: State): set<nat> {
    set i: nat | i < |s.rows| && Held(s, i)
  }

  /** Unsent, unlocked rows from index `i` on, in id order, at most `limit` of them. */
  function PendingFrom(rows: seq<Row>, locked: set<nat>, i: nat, limit: nat): (b: seq<nat>)
    requires i <= |rows|
    ensures |b| <= limit
    decreases |rows| - i
  {
    if i == |rows| || limit == 0 then []
    else if rows[i].sent || i in locked then PendingFrom(rows, locked, i + 1, limit)
    else [i] + PendingFrom(rows, locked, i + 1, limit - 1)
  }

  ghost predicate Pending(rows: seq<Row>, locked: set<nat>, i: nat) {
    i < |rows| && !rows[i].sent && i !in locked
  }

  ghost predicate Increasing(b: seq<nat>) {
    forall j, k :: 0 <= j < k < |b| ==> b[j] < b[k]
  }

  /** A batch is the oldest pending rows: in order, none skipped, cut only by the limit. */
  lemma {:induction false} BatchIsOldestPending(rows: seq<Row>, locked: set<nat>, i: nat, limit: nat)
    requires i <= |rows|
    ensures var b := PendingFrom(rows, locked, i, limit);
      && Increasing(b)
      && (forall k <- b :: i <= k && Pending(rows, locked, k))
      && (forall p: nat :: i <= p && Pending(rows, locked, p) && p !in b ==>
            |b| == limit && forall k <- b :: k < p)
    decreases |rows| - i
  {
    if i < |rows| && limit > 0 {
      if rows[i].sent || i in locked {
        BatchIsOldestPending(rows, locked, i + 1, limit);
      } else {
        BatchIsOldestPending(rows, locked, i + 1, limit - 1);
        ConsIncreasing(i, PendingFrom(rows, locked, i + 1, limit - 1));
      }
    }
  }

  lemma ConsIncreasing(i: nat, rest: seq<nat>)
    requires Increasing(rest) && forall k <- rest :: i < k
    ensures Increasing([i] + rest)
    ensures forall k: nat :: k in [i] + rest <==> k == i || k in rest
  {
    var b := [i] + rest;
    forall j, k | 0 <= j < k < |b| ensures b[j] < b[k] {
      assert b[k] == rest[k - 1] && b[k] in rest;
    }
  }

  // ---- transitions -------------------------------------------------------------------------

  predicate Open(s: State, relay: nat) {
    relay in s.relays && |s.relays[relay].outcomes| <= |s.relays[relay].batch|
  }

  predicate Enabled(s: State, a: Action) {
    match a
    case Add(id, _) => id != "" && forall i :: 0 <= i < |s.rows| ==> s.rows[i].id != id
    case Begin(r, _) => r !in s.relays
    case TryPublish(r, _) =>
      && Open(s, r) && |s.relays[r].outcomes| < |s.relays[r].batch|
      && s.relays[r].batch[|s.relays[r].outcomes|] < |s.rows|
    case Commit(r) => Open(s, r) && |s.relays[r].outcomes| == |s.relays[r].batch|
    case Rollback(r) => Open(s, r)
  }

  /** What the mark statements write: a sent row is stamped, a failed one counts an attempt. */
  function Marked(row: Row, ok: bool): Row {
    if ok then row.(sent := true) else row.(attempts := row.attempts + 1)
  }

  function Position(batch: seq<nat>, i: nat): (k: nat)
    ensures k <= |batch|
    ensures k < |batch| ==> batch[k] == i
    ensures k == |batch| ==> i !in batch
  {
    if batch == [] then 0 else if batch[0] == i then 0 else 1 + Position(batch[1..], i)
  }

  function CommittedRows(rows: seq<Row>, tx: Tx): seq<Row>
    requires |tx.outcomes| == |tx.batch|
  {
    seq(|rows|, i requires 0 <= i < |rows| =>
      var k := Position(tx.batch, i);
      if k < |tx.batch| then Marked(rows[i], tx.outcomes[k]) else rows[i])
  }

  /** A publish tried and then undone is remembered in the history only. */
  function RolledBackRows(rows: seq<Row>, tx: Tx): seq<Row> {
    seq(|rows|, i requires 0 <= i < |rows| =>
      if Position(tx.batch, i) < |tx.outcomes| then rows[i].(rolledBack := rows[i].rolledBack + 1) else rows[i])
  }

  function Next(s: State, a: Action): State
    requires Enabled(s, a)
  {
    match a
    case Add(id, document) => s.(rows := s.rows + [NewRow(id, document)])
    case Begin(r, limit) =>
      var batch := PendingFrom(s.rows, HeldRows(s), 0, limit);
      if batch == [] then s else s.(relays := s.relays[r := Tx(batch, [])])
    case TryPublish(r, ok) =>
      var tx := s.relays[r];
      var i := tx.batch[|tx.outcomes|];
      var row := s.rows[i];
      State(s.rows[i := row.(calls := row.calls + 1, confirms := row.confirms + if ok then 1 else 0)],
            s.relays[r := tx.(outcomes := tx.outcomes + [ok])])
    case Commit(r) => State(CommittedRows(s.rows, s.relays[r]), s.relays - {r})
    case Rollback(r) => State(RolledBackRows(s.rows, s.relays[r]), s.relays - {r})
  }

  ghost predicate Step(s: State, s': State) {
    exists a :: Enabled(s, a) && s' == Next(s, a)
  }

  ghost predicate IsRun(ss: seq<State>) {
    && |ss| > 0 && ss[0] == INITIAL
    && forall i :: 0 <= i < |ss| - 1 ==> Step(ss[i], ss[i + 1])
  }

  // ---- the invariant ----------------------------------------------------------------------

  /** Row `i` has been published within a transaction that is still open. */
  ghost predicate TriedIn(tx: Tx, i: nat) {
    exists k :: 0 <= k < |tx.outcomes| && k < |tx.batch| && tx.batch[k] == i
  }

  ghost predicate BeingTried(s: State, i: nat) {
    exists r <- s.relays :: TriedIn(s.relays[r], i)
  }

  ghost predicate ConfirmedIn(tx: Tx, i: nat) {
    exists k :: 0 <= k < |tx.outcomes| && k < |tx.batch| && tx.batch[k] == i && tx.outcomes[k]
  }

  ghost predicate TxOk(tx: Tx, rows: seq<Row>) {
    && Increasing(tx.batch) && |tx.outcomes| <= |tx.batch|
    && (forall i <- tx.batch :: i < |rows| && !rows[i].sent)
    && (forall i <- tx.batch :: ConfirmedIn(tx, i) ==> rows[i].confirms >= 1)
  }

  /** Every publish call is accounted for. */
  ghost predicate Balanced(row: Row, trying: bool) {
    row.calls == row.attempts + (if row.sent then 1 else 0) + row.rolledBack + (if trying then 1 else 0)
  }

  ghost predicate Inv(s: State) {
    && (forall i, j :: 0 <= i < j < |s.rows| ==> s.rows[i].id != s.rows[j].id)
    && (forall r <- s.relays :: TxOk(s.relays[r], s.rows))
    && (forall q <- s.relays, r <- s.relays :: q != r ==>
          forall i <- s.relays[q].batch :: i !in s.relays[r].batch)
    && (forall i :: 0 <= i < |s.rows| ==> RowOk(s.rows[i], BeingTried(s, i)))
  }

  ghost predicate RowOk(row: Row, trying: bool) {
    && row.id != "" && Balanced(row, trying)
    && (row.sent ==> row.confirms >= 1)
  }

  lemma NotTriedOutside(tx: Tx, i: nat)
    requires i !in tx.batch
    ensures !TriedIn(tx, i)
  {
  }

  lemma TriedIsPosition(tx: Tx, i: nat)
    requires Increasing(tx.batch) && |tx.outcomes| <= |tx.batch|
    ensures TriedIn(tx, i) <==> Position(tx.batch, i) < |tx.outcomes|
  {
    var p := Position(tx.batch, i);
    if k :| 0 <= k < |tx.outcomes| && tx.batch[k] == i {
      assert tx.batch[p] == tx.batch[k];
    }
  }

  lemma InvKeptAdd(s: State, a: Action)
    requires Inv(s) && Enabled(s, a) && a.Add?
    ensures Inv(Next(s, a))
  {
    var s' := Next(s, a);
    var n := |s.rows|;
    forall r <- s.relays ensures !TriedIn(s.relays[r], n) {
      assert TxOk(s.relays[r], s.rows);
      NotTriedOutside(s.relays[r], n);
    }
    assert forall i :: 0 <= i < n ==> (BeingTried(s', i) <==> BeingTried(s, i));
  }

  lemma NothingTriedYet(s: State, s': State, relay: nat, batch: seq<nat>, i: nat)
    requires relay !in s.relays && s'.relays == s.relays[relay := Tx(batch, [])]
    ensures BeingTried(s', i) <==> BeingTried(s, i)
  {
    if r :| r in s.relays && TriedIn(s.relays[r], i) {
      assert TriedIn(s'.relays[r], i);
    }
  }

  lemma InvKeptBegin(s: State, a: Action)
    requires Inv(s) && Enabled(s, a) && a.Begin?
    ensures Inv(Next(s, a))
  {
    hide RowOk, BeingTried;
    var s' := Next(s, a);
    BatchIsOldestPending(s.rows, HeldRows(s), 0, a.limit);
    var batch := PendingFrom(s.rows, HeldRows(s), 0, a.limit);
    if batch != [] {
      forall r <- s.relays, i <- s.relays[r].batch ensures i !in batch {
        assert i < |s.rows|;
        assert Held(s, i);
      }
      forall i | 0 <= i < |s'.rows| ensures BeingTried(s', i) <==> BeingTried(s, i) {
        NothingTriedYet(s, s', a.relay, batch, i);
      }
    }
  }

  /** The row a relay publishes next has not been tried in any open transaction. */
  lemma NextNotTried(s: State, relay: nat)
    requires Inv(s) && relay in s.relays && |s.relays[relay].outcomes| < |s.relays[relay].batch|
    ensures !BeingTried(s, s.relays[relay].batch[|s.relays[relay].outcomes|])
  {
    var tx := s.relays[relay];
    assert TxOk(tx, s.rows);
  }

  lemma InvKeptTry(s: State, a: Action)
    requires Inv(s) && Enabled(s, a) && a.TryPublish?
    ensures Inv(Next(s, a))
  {
    hide TxOk, BeingTried, RowOk;
    var s' := Next(s, a);
    forall i | 0 <= i < |s.rows| ensures RowOk(s'.rows[i], BeingTried(s', i)) {
      TriedRowOk(s, a, i);
    }
    forall r <- s'.relays ensures TxOk(s'.relays[r], s'.rows) {
      TxOkGrows(s, s', a.relay, r, a.ok);
    }
  }

  lemma TriedRowOk(s: State, a: Action, i: nat)
    requires Inv(s) && Enabled(s, a) && a.TryPublish? && i < |s.rows|
    ensures RowOk(Next(s, a).rows[i], BeingTried(Next(s, a), i))
  {
    hide TxOk, BeingTried, Increasing;
    TriedGrows(s, Next(s, a), a.relay, i);
    NextNotTried(s, a.relay);
  }

  lemma TriedGrows(s: State, s': State, relay: nat, i: nat)
    requires relay in s.relays && s'.relays.Keys == s.relays.Keys
    requires forall r <- s.relays :: r != relay ==> s'.relays[r] == s.relays[r]
    requires var tx, tx' := s.relays[relay], s'.relays[relay];
      && |tx.outcomes| < |tx.batch| && tx'.batch == tx.batch
      && |tx'.outcomes| == |tx.outcomes| + 1 && tx'.outcomes[..|tx.outcomes|] == tx.outcomes
    ensures BeingTried(s', i) <==> BeingTried(s, i) || i == s.relays[relay].batch[|s.relays[relay].outcomes|]
  {
    var tx, tx' := s.relays[relay], s'.relays[relay];
    if BeingTried(s, i) {
      var r :| r in s.relays && TriedIn(s.relays[r], i);
      assert TriedIn(s'.relays[r], i);
    }
    if i == tx.batch[|tx.outcomes|] {
      assert TriedIn(tx', i);
    }
    if BeingTried(s', i) {
      var r :| r in s'.relays && TriedIn(s'.relays[r], i);
      if r == relay {
        var k :| 0 <= k < |tx'.outcomes| && tx'.batch[k] == i;
        if k < |tx.outcomes| {
          assert TriedIn(tx, i);
        }
      } else {
        assert TriedIn(s.relays[r], i);
      }
    }
  }

  lemma ConfirmedGrows(tx: Tx, ok: bool, i: nat)
    requires |tx.outcomes| < |tx.batch| && ConfirmedIn(tx.(outcomes := tx.outcomes + [ok]), i)
    ensures ConfirmedIn(tx, i) || (ok && i == tx.batch[|tx.outcomes|])
  {
    var outcomes := tx.outcomes + [ok];
    var k :| 0 <= k < |outcomes| && tx.batch[k] == i && outcomes[k];
    if k < |tx.outcomes| {
      assert ConfirmedIn(tx, i);
    }
  }

  lemma TxOkGrows(s: State, s': State, relay: nat, r: nat, ok: bool)
    requires Inv(s) && Enabled(s, TryPublish(relay, ok)) && s' == Next(s, TryPublish(relay, ok))
    requires r in s'.relays
    ensures TxOk(s'.relays[r], s'.rows)
  {
    hide RowOk, BeingTried, ConfirmedIn;
    var tx, tx' := s.relays[r], s'.relays[r];
    assert TxOk(tx, s.rows);
    forall i <- tx'.batch | ConfirmedIn(tx', i) ensures s'.rows[i].confirms >= 1 {
      if r == relay {
        ConfirmedGrows(tx, ok, i);
      }
    }
  }

  lemma CommittedRowOk(row: Row, tx: Tx, i: nat, rows: seq<Row>)
    requires TxOk(tx, rows) && |tx.outcomes| == |tx.batch| && i in tx.batch && row == rows[i]
    requires RowOk(row, true)
    ensures Position(tx.batch, i) < |tx.batch|
    ensures RowOk(Marked(row, tx.outcomes[Position(tx.batch, i)]), false)
  {
    var k := Position(tx.batch, i);
    if tx.outcomes[k] {
      assert ConfirmedIn(tx, i);
    }
  }

  lemma InvKeptClose(s: State, a: Action)
    requires Inv(s) && Enabled(s, a) && (a.Commit? || a.Rollback?)
    ensures Inv(Next(s, a))
  {
    hide Position, TriedIn, ConfirmedIn, RowOk;
    var s' := Next(s, a);
    var tx := s.relays[a.relay];
    assert TxOk(tx, s.rows);
    forall i | 0 <= i < |s.rows| ensures RowOk(s'.rows[i], BeingTried(s', i)) {
      ClosedRowOk(s, a, i);
    }
    forall r <- s'.relays ensures TxOk(s'.relays[r], s'.rows) {
      assert TxOk(s.relays[r], s.rows);
      TxOkElsewhere(s, s', tx, r);
    }
  }

  lemma ClosedRowOk(s: State, a: Action, i: nat)
    requires Inv(s) && Enabled(s, a) && (a.Commit? || a.Rollback?) && i < |s.rows|
    ensures RowOk(Next(s, a).rows[i], BeingTried(Next(s, a), i))
  {
    hide Position, BeingTried, TriedIn;
    var s' := Next(s, a);
    var tx := s.relays[a.relay];
    assert TxOk(tx, s.rows) && RowOk(s.rows[i], BeingTried(s, i));
    ClosingRow(s, s', a.relay, i);
    TriedIsPosition(tx, i);
    if i in tx.batch && a.Commit? {
      PositionFound(tx.batch, i);
      CommittedRowOk(s.rows[i], tx, i, s.rows);
    }
  }

  lemma PositionFound(batch: seq<nat>, i: nat)
    requires i in batch
    ensures Position(batch, i) < |batch|
  {
  }

  lemma TxOkElsewhere(s: State, s': State, tx: Tx, r: nat)
    requires r in s.relays && TxOk(s.relays[r], s.rows)
    requires |s'.rows| == |s.rows| && s'.relays.Keys <= s.relays.Keys
    requires forall i <- s.relays[r].batch :: i !in tx.batch
    requires forall i :: 0 <= i < |s.rows| && i !in tx.batch ==> s'.rows[i] == s.rows[i]
    ensures TxOk(s.relays[r], s'.rows)
  {
  }

  lemma ClosingRow(s: State, s': State, relay: nat, i: nat)
    requires Inv(s) && relay in s.relays && s'.relays == s.relays - {relay}
    ensures i in s.relays[relay].batch ==> !BeingTried(s', i) && (BeingTried(s, i) <==> TriedIn(s.relays[relay], i))
    ensures i !in s.relays[relay].batch ==> (BeingTried(s', i) <==> BeingTried(s, i))
  {
    if r :| r in s'.relays && TriedIn(s'.relays[r], i) {
      assert r in s.relays && TriedIn(s.relays[r], i);
    }
    if r :| r in s.relays && TriedIn(s.relays[r], i) {
      if i !in s.relays[relay].batch {
        assert r in s'.relays && TriedIn(s'.relays[r], i);
      } else {
        assert r == relay;
      }
    }
  }

  lemma InvKept(s: State, a: Action)
    requires Inv(s) && Enabled(s, a)
    ensures Inv(Next(s, a))
  {
    hide Inv, Next;
    match a
    case Add(_, _) => InvKeptAdd(s, a);
    case Begin(_, _) => InvKeptBegin(s, a);
    case TryPublish(_, _) => InvKeptTry(s, a);
    case _ => InvKeptClose(s, a);
  }

  lemma {:induction false} ReachableInv(ss: seq<State>, n: nat)
    requires IsRun(ss) && n < |ss|
    ensures Inv(ss[n])
  {
    hide Next, Enabled;
    if n > 0 {
      assert Step(ss[n - 1], ss[n - 1 + 1]);
      var a :| Enabled(ss[n - 1], a) && ss[n] == Next(ss[n - 1], a);
      ReachableInv(ss, n - 1);
      InvKept(ss[n - 1], a);
    }
  }

  // ---- what every run guarantees -----------------------------------------------------------

  /** Publish calls per row: committed attempts, plus one if sent, plus tries that were undone. */
  lemma CallsAreConserved(ss: seq<State>, n: nat, i: nat)
    requires IsRun(ss) && n < |ss| && i < |ss[n].rows|
    ensures var row := ss[n].rows[i];
      && row.calls == row.attempts + (if row.sent then 1 else 0) + row.rolledBack
                      + (if BeingTried(ss[n], i) then 1 else 0)
      && (row.sent ==> row.confirms >= 1 && !BeingTried(ss[n], i))
  {
    ReachableInv(ss, n);
    if r :| r in ss[n].relays && TriedIn(ss[n].relays[r], i) {
      assert i in ss[n].relays[r].batch;
    }
  }

  /** No row is ever in the hands of two relays. */
  lemma NoRowHeldTwice(ss: seq<State>, n: nat, q: nat, r: nat, i: nat)
    requires IsRun(ss) && n < |ss| && q in ss[n].relays && r in ss[n].relays
    requires i in ss[n].relays[q].batch && i in ss[n].relays[r].batch
    ensures q == r
  {
    ReachableInv(ss, n);
  }

  /** An envelope id names one row for ever: rows are never removed, renamed or un-sent. */
  ghost predicate RowsPersist(s: State, s': State) {
    && |s.rows| <= |s'.rows|
    && forall i :: 0 <= i < |s.rows| ==>
         && s'.rows[i].id == s.rows[i].id && s'.rows[i].document == s.rows[i].document
         && (s.rows[i].sent ==> s'.rows[i].sent)
         && s.rows[i].attempts <= s'.rows[i].attempts && s.rows[i].calls <= s'.rows[i].calls
  }

  lemma StepPersists(s: State, a: Action)
    requires Enabled(s, a)
    ensures RowsPersist(s, Next(s, a))
  {
  }

  lemma {:induction false} CommittedRowsPersist(ss: seq<State>, m: nat, n: nat)
    requires IsRun(ss) && m <= n < |ss|
    ensures RowsPersist(ss[m], ss[n])
  {
    hide Next, Enabled;
    if m < n {
      assert Step(ss[n - 1], ss[n - 1 + 1]);
      var a :| Enabled(ss[n - 1], a) && ss[n] == Next(ss[n - 1], a);
      CommittedRowsPersist(ss, m, n - 1);
      StepPersists(ss[n - 1], a);
    }
  }

  /** A row not yet sent is picked by the next batch, unless held or behind `limit` older rows. */
  lemma PendingRowIsPicked(s: State, i: nat, limit: nat)
    requires i < |s.rows| && !s.rows[i].sent && !Held(s, i)
    ensures var b := PendingFrom(s.rows, HeldRows(s), 0, limit);
      i in b || (|b| == limit && forall k <- b :: k < i)
  {
    BatchIsOldestPending(s.rows, HeldRows(s), 0, limit);
    assert Pending(s.rows, HeldRows(s), i);
  }

  // ---- the relay's transaction, step by step ----------------------------------------------------

  class Store {
    var rows: seq<Row>

    /** Insert within the caller's transaction. */
    method Add(id: string, document: string)
      modifies this
      ensures rows == old(rows) + [NewRow(id, document)]
    {
      rows := rows + [NewRow(id, document)];
    }

    method MarkSent(ids: seq<nat>)
      modifies this
      ensures |rows| == |old(rows)|
      ensures forall i :: 0 <= i < |rows| ==>
        rows[i] == if i in ids then old(rows)[i].(sent := true) else old(rows)[i]
    {
      if ids == [] {
        return;
      }
      rows := seq(|rows|, i requires 0 <= i < |rows| reads this =>
        if i in ids then rows[i].(sent := true) else rows[i]);
    }

    method MarkFailed(ids: seq<nat>)
      modifies this
      ensures |rows| == |old(rows)|
      ensures forall i :: 0 <= i < |rows| ==>
        rows[i] == if i in ids then old(rows)[i].(attempts := old(rows)[i].attempts + 1) else old(rows)[i]
    {
      if ids == [] {
        return;
      }
      rows := seq(|rows|, i requires 0 <= i < |rows| reads this =>
        if i in ids then rows[i].(attempts := rows[i].attempts + 1) else rows[i]);
    }

    /**
     One batch: take it, publish each row, mark, commit. `publishes` says which publishes are
     confirmed, `commits` whether the transaction reaches its end; `locked` are rows of others.
     */
    method RelayOnce(limit: nat, locked: set<nat>, publishes: seq<bool>, commits: bool) returns (n: nat)
      requires |publishes| == limit
      modifies this
      ensures rows == AfterRelay(old(rows), locked, limit, publishes, commits)
      ensures n == if commits then |PendingFrom(old(rows), locked, 0, limit)| else 0
      ensures !commits ==> rows == old(rows)
      ensures commits ==> var batch := PendingFrom(old(rows), locked, 0, limit);
        && |rows| == |old(rows)|
        && (forall i :: 0 <= i < |rows| && i !in batch ==> rows[i] == old(rows)[i])
        && forall k :: 0 <= k < |batch| ==> batch[k] < |rows| && var row := old(rows)[batch[k]];
             rows[batch[k]] == if publishes[k] then row.(sent := true) else row.(attempts := row.attempts + 1)
    {
      if commits {
        AfterRelayMarks(rows, locked, limit, publishes);
      }
      hide Position, Increasing, CommittedRows;
      var batch := PendingFrom(rows, locked, 0, limit);
      BatchIsOldestPending(rows, locked, 0, limit);
      if batch == [] {
        NothingToCommit(rows);
        return 0;
      }
      var sent, failed: seq<nat> := [], [];
      var k := 0;
      while k < |batch|
        invariant 0 <= k <= |batch|
        invariant Marks(batch, publishes, k, sent, failed)
        invariant rows == old(rows)
      {
        MarksGrow(batch, publishes, k, sent, failed);
        if !publishes[k] {
          failed := failed + [batch[k]];
        } else {
          sent := sent + [batch[k]];
        }
        k := k + 1;
      }
      if !commits {
        return 0;
      }
      MarkSent(sent);
      MarkFailed(failed);
      MarksCommit(old(rows), batch, publishes, sent, failed, rows);
      return |batch|;
    }
  }

  lemma AfterRelayMarks(rows: seq<Row>, locked: set<nat>, limit: nat, publishes: seq<bool>)
    requires |publishes| == limit
    ensures var batch, rows' := PendingFrom(rows, locked, 0, limit), AfterRelay(rows, locked, limit, publishes, true);
      && |rows'| == |rows|
      && (forall i :: 0 <= i < |rows| && i !in batch ==> rows'[i] == rows[i])
      && forall k :: 0 <= k < |batch| ==> batch[k] < |rows| && var row := rows[batch[k]];
           rows'[batch[k]] == if publishes[k] then row.(sent := true) else row.(attempts := row.attempts + 1)
  {
    BatchIsOldestPending(rows, locked, 0, limit);
    var batch := PendingFrom(rows, locked, 0, limit);
    hide PendingFrom;
    forall k | 0 <= k < |batch| ensures batch[k] < |rows| && Position(batch, batch[k]) == k {
      assert batch[k] in batch;
      PositionOfElement(batch, k);
    }
    forall i | 0 <= i < |rows| && i !in batch ensures Position(batch, i) == |batch| {
      var p := Position(batch, i);
    }
    hide Position;
  }

  /** The table after one batch transaction, committed or undone. */
  function AfterRelay(rows: seq<Row>, locked: set<nat>, limit: nat, publishes: seq<bool>, commits: bool): seq<Row>
    requires |publishes| == limit
  {
    var batch := PendingFrom(rows, locked, 0, limit);
    if commits then CommittedRows(rows, Tx(batch, publishes[..|batch|])) else rows
  }

  /** After `k` publishes: the ids to be stamped and those to count an attempt. */
  ghost predicate Marks(batch: seq<nat>, publishes: seq<bool>, k: nat, sent: seq<nat>, failed: seq<nat>)
    requires k <= |batch| <= |publishes|
  {
    && (forall i: nat :: i in sent <==> Position(batch, i) < k && publishes[Position(batch, i)])
    && (forall i: nat :: i in failed <==> Position(batch, i) < k && !publishes[Position(batch, i)])
  }

  lemma MarksGrow(batch: seq<nat>, publishes: seq<bool>, k: nat, sent: seq<nat>, failed: seq<nat>)
    requires k < |batch| <= |publishes| && Increasing(batch) && Marks(batch, publishes, k, sent, failed)
    ensures publishes[k] ==> Marks(batch, publishes, k + 1, sent + [batch[k]], failed)
    ensures !publishes[k] ==> Marks(batch, publishes, k + 1, sent, failed + [batch[k]])
  {
    hide Position;
    PositionOfElement(batch, k);
  }

  lemma MarksCommit(rows: seq<Row>, batch: seq<nat>, publishes: seq<bool>, sent: seq<nat>, failed: seq<nat>,
                    rows': seq<Row>)
    requires |batch| <= |publishes| && Marks(batch, publishes, |batch|, sent, failed) && |rows'| == |rows|
    requires forall i :: 0 <= i < |rows| ==>
      rows'[i] == if i in sent then Marked(rows[i], true) else if i in failed then Marked(rows[i], false) else rows[i]
    ensures rows' == CommittedRows(rows, Tx(batch, publishes[..|batch|]))
  {
    hide Position;
  }

  lemma NothingToCommit(rows: seq<Row>)
    ensures CommittedRows(rows, Tx([], [])) == rows
  {
  }

  // ---- the transaction is a path of the machine -------------------------------------------------

  /** The columns of a row, without the history the machine keeps beside them. */
  function Columns(row: Row): Row {
    row.(calls := 0, confirms := 0, rolledBack := 0)
  }

  ghost predicate SameTable(a: seq<Row>, b: seq<Row>) {
    |a| == |b| && forall i :: 0 <= i < |a| ==> Columns(a[i]) == Columns(b[i])
  }

  ghost predicate Does(s: State, a: Action, s': State) {
    Enabled(s, a) && s' == Next(s, a)
  }

  /** A relay takes a batch, publishes with these outcomes one by one, and closes its transaction. */
  ghost predicate IsRelayPath(ss: seq<State>, relay: nat, limit: nat, outcomes: seq<bool>, close: Action) {
    && |ss| == |outcomes| + 3
    && Does(ss[0], Begin(relay, limit), ss[1])
    && (forall k :: 0 <= k < |outcomes| ==> Does(ss[k + 1], TryPublish(relay, outcomes[k]), ss[k + 2]))
    && Does(ss[|outcomes| + 1], close, ss[|outcomes| + 2])
  }

  lemma {:induction false} TriesPath(s: State, relay: nat, batch: seq<nat>, outcomes: seq<bool>) returns (ss: seq<State>)
    requires relay in s.relays && s.relays[relay] == Tx(batch, []) && |outcomes| <= |batch|
    requires forall i <- batch :: i < |s.rows|
    ensures |ss| == |outcomes| + 1 && ss[0] == s
    ensures forall k :: 0 <= k < |outcomes| ==> Does(ss[k], TryPublish(relay, outcomes[k]), ss[k + 1])
    ensures var last := ss[|outcomes|];
      && last.relays == s.relays[relay := Tx(batch, outcomes)] && SameTable(last.rows, s.rows)
  {
    if outcomes == [] {
      ss := [s];
    } else {
      var n := |outcomes| - 1;
      var before := TriesPath(s, relay, batch, outcomes[..n]);
      assert outcomes == outcomes[..n] + [outcomes[n]];
      assert batch[n] in batch;
      ss := before + [Next(before[n], TryPublish(relay, outcomes[n]))];
    }
  }

  lemma CommitKeepsTable(a: seq<Row>, b: seq<Row>, tx: Tx)
    requires SameTable(a, b) && |tx.outcomes| == |tx.batch|
    ensures SameTable(CommittedRows(a, tx), CommittedRows(b, tx))
  {
    hide Position;
    forall i | 0 <= i < |a| ensures Columns(CommittedRows(a, tx)[i]) == Columns(CommittedRows(b, tx)[i]) {
      assert Columns(a[i]) == Columns(b[i]);
    }
  }

  /**
   What RelayOnce does to the table is what a path of the machine does to it: the batch, its
   publishes in order, and the commit; or, undone, a rollback after any number of them.
   */
  lemma RelayOnceIsPath(s: State, relay: nat, limit: nat, publishes: seq<bool>, tried: nat, commits: bool)
    returns (ss: seq<State>)
    requires relay !in s.relays && |publishes| == limit && PendingFrom(s.rows, HeldRows(s), 0, limit) != []
    requires var n := |PendingFrom(s.rows, HeldRows(s), 0, limit)|; tried <= n && (commits ==> tried == n)
    ensures IsRelayPath(ss, relay, limit, publishes[..tried], if commits then Commit(relay) else Rollback(relay))
    ensures ss[0] == s && ss[tried + 2].relays == s.relays
    ensures SameTable(ss[tried + 2].rows, AfterRelay(s.rows, HeldRows(s), limit, publishes, commits))
  {
    hide Position, CommittedRows;
    var batch := PendingFrom(s.rows, HeldRows(s), 0, limit);
    BatchIsOldestPending(s.rows, HeldRows(s), 0, limit);
    var begun := Next(s, Begin(relay, limit));
    var tries := TriesPath(begun, relay, batch, publishes[..tried]);
    var close := if commits then Commit(relay) else Rollback(relay);
    var last := tries[tried];
    ss := [s] + tries + [Next(last, close)];
    assert last.relays - {relay} == s.relays;
    if commits {
      CommitKeepsTable(last.rows, s.rows, Tx(batch, publishes[..tried]));
    } else {
      RollbackKeepsTable(last.rows, s.rows, Tx(batch, publishes[..tried]));
    }
  }

  lemma RollbackKeepsTable(a: seq<Row>, b: seq<Row>, tx: Tx)
    requires SameTable(a, b)
    ensures SameTable(RolledBackRows(a, tx), b)
  {
    hide Position;
    forall i | 0 <= i < |a| ensures Columns(RolledBackRows(a, tx)[i]) == Columns(b[i]) {
      assert Columns(a[i]) == Columns(b[i]);
    }
  }

  lemma PositionOfElement(batch: seq<nat>, k: nat)
    requires Increasing(batch) && k < |batch|
    ensures Position(batch, batch[k]) == k
    ensures forall i: nat :: Position(batch, i) == k ==> i == batch[k]
  {
    var p := Position(batch, batch[k]);
    assert batch[p] == batch[k];
  }
}
