/**
 Login, refresh and logout: rotation of refresh tokens and detection of their reuse.

 Service calls are taken one at a time. A token is identified by its jti; fresh jtis are never
 repeated, and decoding a token yields the jti and user it was issued with.
 */
module Refresh {
  import opened Options
  import opened Fifo

  /** A row of the `sessions` table; its id is its index. */
  datatype Session = Session(userId: string, current: string, previous: Option<string>,
                             expiresAt: int, revokedAt: Option<int>)

  datatype AuditEntry = ReuseDetected(userId: Option<string>, session: nat, jti: string)

  /** The tables, and what has been issued and exchanged: `chains[i]` are session `i`'s jtis in order. */
  datatype State = State(sessions: seq<Session>, audit: seq<AuditEntry>,
                         chains: seq<seq<string>>, owner: map<string, Slot>, exchanged: seq<string>)

  datatype Slot = Slot(session: nat, pos: nat)

  const INITIAL := State([], [], [], map[], [])

  /** What `verifyRefreshToken` makes of a token. */
  datatype Presented = Bad | Good(jti: string)

  datatype Action =
    | OpenSession(userId: string, jti: string, expiresAt: int)
    | RefreshTokens(token: Presented, now: int, userActive: bool, newJti: string, newExpiresAt: int)
    | LogOut(presented: Option<string>, now: int)

  // ---- the tables -------------------------------------------------------------------------

  function FindCurrent(sessions: seq<Session>, jti: string): (r: Option<nat>)
    ensures r.Some? ==> r.value < |sessions| && sessions[r.value].current == jti
    ensures r.Some? ==> forall i :: r.value < i < |sessions| ==> sessions[i].current != jti
    ensures r.None? ==> forall i :: 0 <= i < |sessions| ==> sessions[i].current != jti
  {
    if sessions == [] then None
    else if sessions[|sessions| - 1].current == jti then Some(|sessions| - 1)
    else FindCurrent(sessions[..|sessions| - 1], jti)
  }

  function FindPrevious(sessions: seq<Session>, jti: string): (r: Option<nat>)
    ensures r.Some? ==> r.value < |sessions| && sessions[r.value].previous == Some(jti)
    ensures r.None? ==> forall i :: 0 <= i < |sessions| ==> sessions[i].previous != Some(jti)
  {
    if sessions == [] then None
    else if sessions[|sessions| - 1].previous == Some(jti) then Some(|sessions| - 1)
    else FindPrevious(sessions[..|sessions| - 1], jti)
  }

  function Revoked(sessions: seq<Session>, i: nat, now: int): seq<Session>
    requires i < |sessions|
  {
    if sessions[i].revokedAt.Some? then sessions else sessions[i := sessions[i].(revokedAt := Some(now))]
  }

  // ---- one call -----------------------------------------------------------------------------

  /** Not the current token of a live session: possibly a replay. */
  function AfterReuse(s: State, jti: string, known: Option<nat>, now: int): State
    requires known.Some? ==> known.value < |s.sessions|
  {
    var reused := FindPrevious(s.sessions, jti);
    if reused.Some? then
      s.(sessions := Revoked(s.sessions, reused.value, now),
         audit := s.audit + [ReuseDetected(Some(s.sessions[reused.value].userId), reused.value, jti)])
    else if known.Some? then s.(audit := s.audit + [ReuseDetected(None, known.value, jti)])
    else s
  }

  function Rotated(s: State, i: nat, jti: string, newJti: string, newExpiresAt: int): State
    requires i < |s.sessions| && i < |s.chains|
  {
    s.(sessions := s.sessions[i := s.sessions[i].(current := newJti, previous := Some(jti), expiresAt := newExpiresAt)],
       chains := s.chains[i := s.chains[i] + [newJti]], owner := s.owner[newJti := Slot(i, |s.chains[i]|)],
       exchanged := s.exchanged + [jti])
  }

  ghost predicate Enabled(s: State, a: Action) {
    |s.chains| == |s.sessions| &&
    match a
    case OpenSession(_, jti, _) => jti !in s.owner
    case RefreshTokens(_, _, _, newJti, _) => newJti !in s.owner
    case LogOut(_, _) => true
  }

  function Next(s: State, a: Action): State
    requires Enabled(s, a)
  {
    match a
    case OpenSession(user, jti, exp) =>
      s.(sessions := s.sessions + [Session(user, jti, None, exp, None)], chains := s.chains + [[jti]],
         owner := s.owner[jti := Slot(|s.sessions|, 0)])
    case RefreshTokens(Bad, _, _, _, _) => s
    case RefreshTokens(Good(jti), now, active, newJti, newExp) =>
      var found := FindCurrent(s.sessions, jti);
      if found.None? || s.sessions[found.value].revokedAt.Some? then AfterReuse(s, jti, found, now)
      else if s.sessions[found.value].expiresAt <= now || !active then s
      else Rotated(s, found.value, jti, newJti, newExp)
    case LogOut(jti, now) =>
      if jti.None? then s
      else
        var found := FindCurrent(s.sessions, jti.value);
        if found.Some? then s.(sessions := Revoked(s.sessions, found.value, now)) else s
  }

  // ---- the invariant ------------------------------------------------------------------------

  ghost predicate ChainOk(x: Session, chain: seq<string>) {
    && |chain| > 0 && x.current == chain[|chain| - 1]
    && x.previous == if |chain| > 1 then Some(chain[|chain| - 2]) else None
  }

  ghost predicate Issued(s: State, i: int, k: int) {
    0 <= i < |s.chains| && 0 <= k < |s.chains[i]|
  }

  /** Rows end their chains. */
  ghost predicate RowsOk(s: State) {
    |s.chains| == |s.sessions| && forall i :: 0 <= i < |s.sessions| ==> ChainOk(s.sessions[i], s.chains[i])
  }

  /** Every issued jti has one place: `owner` is the inverse of `chains`. */
  ghost predicate PlacesOk(s: State) {
    forall i, k :: Issued(s, i, k) ==> s.chains[i][k] in s.owner && s.owner[s.chains[i][k]] == Slot(i, k)
  }

  ghost predicate OwnerOk(s: State, j: string)
    requires j in s.owner
  {
    Issued(s, s.owner[j].session, s.owner[j].pos) && s.chains[s.owner[j].session][s.owner[j].pos] == j
  }

  ghost predicate Superseded(s: State, j: string)
    requires j in s.owner && OwnerOk(s, j)
  {
    s.owner[j].pos + 1 < |s.chains[s.owner[j].session]|
  }

  /** Exchanged, once each, are all jtis but the last of each chain. */
  ghost predicate ExchangedOk(s: State) {
    && Distinct(s.exchanged)
    && forall j :: j in s.exchanged <==> j in s.owner && OwnerOk(s, j) && Superseded(s, j)
  }

  ghost predicate Inv(s: State) {
    RowsOk(s) && PlacesOk(s) && (forall j <- s.owner :: OwnerOk(s, j)) && ExchangedOk(s)
  }

  lemma FoundIsOwner(s: State, jti: string)
    requires Inv(s)
    ensures var f := FindCurrent(s.sessions, jti);
      f.Some? <==> jti in s.owner && s.owner[jti].pos + 1 == |s.chains[s.owner[jti].session]|
    ensures var f := FindCurrent(s.sessions, jti);
      f.Some? ==> s.owner[jti].session == f.value
  {
    var f := FindCurrent(s.sessions, jti);
    if f.Some? {
      var i := f.value;
      assert ChainOk(s.sessions[i], s.chains[i]) && Issued(s, i, |s.chains[i]| - 1);
    }
    if jti in s.owner {
      var i := s.owner[jti].session;
      assert ChainOk(s.sessions[i], s.chains[i]);
    }
  }

  lemma FoundPreviousIsOwner(s: State, jti: string)
    requires Inv(s)
    ensures var f := FindPrevious(s.sessions, jti);
      f.Some? <==> jti in s.owner && s.owner[jti].pos + 2 == |s.chains[s.owner[jti].session]|
    ensures var f := FindPrevious(s.sessions, jti);
      f.Some? ==> s.owner[jti].session == f.value
  {
    var f := FindPrevious(s.sessions, jti);
    if f.Some? {
      var i := f.value;
      assert ChainOk(s.sessions[i], s.chains[i]) && Issued(s, i, |s.chains[i]| - 2);
    }
    if jti in s.owner {
      var i := s.owner[jti].session;
      assert ChainOk(s.sessions[i], s.chains[i]);
    }
  }

  lemma InvKeptOpen(s: State, a: Action)
    requires Inv(s) && Enabled(s, a) && a.OpenSession?
    ensures Inv(Next(s, a))
  {
    var s' := Next(s, a);
    forall i, k | Issued(s', i, k) ensures s'.chains[i][k] in s'.owner && s'.owner[s'.chains[i][k]] == Slot(i, k) {
      if i < |s.chains| {
        assert Issued(s, i, k);
      }
    }
  }

  lemma RotatedRows(s: State, i: nat, jti: string, newJti: string, exp: int)
    requires RowsOk(s) && i < |s.sessions| && s.sessions[i].current == jti
    ensures RowsOk(Rotated(s, i, jti, newJti, exp))
  {
    assert ChainOk(s.sessions[i], s.chains[i]);
  }

  lemma RotatedPlaces(s: State, i: nat, jti: string, newJti: string, exp: int)
    requires Inv(s) && i < |s.sessions| && newJti !in s.owner
    ensures PlacesOk(Rotated(s, i, jti, newJti, exp))
  {
    var s' := Rotated(s, i, jti, newJti, exp);
    forall r, k | Issued(s', r, k) ensures s'.chains[r][k] in s'.owner && s'.owner[s'.chains[r][k]] == Slot(r, k) {
      if r != i || k < |s.chains[i]| {
        assert Issued(s, r, k) && s'.chains[r][k] == s.chains[r][k];
      }
    }
  }

  lemma RotatedOwner(s: State, i: nat, jti: string, newJti: string, exp: int, j: string)
    requires Inv(s) && i < |s.sessions| && s.sessions[i].current == jti && newJti !in s.owner
    requires j in s.owner || j == newJti
    ensures var s' := Rotated(s, i, jti, newJti, exp);
      OwnerOk(s', j) && (Superseded(s', j) <==> j != newJti && (Superseded(s, j) || j == jti))
  {
    hide ExchangedOk, PlacesOk;
    assert ChainOk(s.sessions[i], s.chains[i]) && Issued(s, i, |s.chains[i]| - 1);
    assert s.owner[jti] == Slot(i, |s.chains[i]| - 1) by {
      OwnerOfCurrent(s, i);
    }
    if j != newJti {
      assert OwnerOk(s, j);
    }
  }

  lemma OwnerOfCurrent(s: State, i: nat)
    requires Inv(s) && i < |s.sessions|
    ensures s.sessions[i].current in s.owner && s.owner[s.sessions[i].current] == Slot(i, |s.chains[i]| - 1)
  {
    assert ChainOk(s.sessions[i], s.chains[i]) && Issued(s, i, |s.chains[i]| - 1);
  }

  /** After the rotation `jti` has a successor, `newJti` has none, and nothing else changes. */
  ghost predicate SupersededNext(s: State, s': State, jti: string, newJti: string, j: string)
    requires j in s'.owner && (j != newJti ==> j in s.owner && OwnerOk(s, j))
  {
    OwnerOk(s', j) && (Superseded(s', j) <==> j != newJti && (Superseded(s, j) || j == jti))
  }

  lemma RotatedExchanged(s: State, i: nat, jti: string, newJti: string, exp: int)
    requires Inv(s) && i < |s.sessions| && s.sessions[i].current == jti && newJti !in s.owner
    requires forall j <- Rotated(s, i, jti, newJti, exp).owner :: SupersededNext(s, Rotated(s, i, jti, newJti, exp), jti, newJti, j)
    ensures ExchangedOk(Rotated(s, i, jti, newJti, exp))
  {
    OwnerOfCurrent(s, i);
    assert OwnerOk(s, jti) && !Superseded(s, jti);
    hide PlacesOk, OwnerOk, Superseded, RowsOk;
  }

  lemma InvKeptRotated(s: State, i: nat, jti: string, newJti: string, exp: int)
    requires Inv(s) && i < |s.sessions| && s.sessions[i].current == jti && newJti !in s.owner
    ensures Inv(Rotated(s, i, jti, newJti, exp))
  {
    var s' := Rotated(s, i, jti, newJti, exp);
    RotatedPlaces(s, i, jti, newJti, exp);
    forall j <- s'.owner ensures SupersededNext(s, s', jti, newJti, j) {
      RotatedOwner(s, i, jti, newJti, exp, j);
    }
    RotatedRows(s, i, jti, newJti, exp);
    RotatedExchanged(s, i, jti, newJti, exp);
    hide PlacesOk, OwnerOk, Superseded, RowsOk, ExchangedOk;
  }

  /** Revoking and auditing touch nothing the invariant speaks of. */
  lemma InvKeptRevoking(s: State, s': State)
    requires Inv(s) && s'.chains == s.chains && s'.owner == s.owner && s'.exchanged == s.exchanged
    requires |s'.sessions| == |s.sessions|
    requires forall i :: 0 <= i < |s.sessions| ==>
      s'.sessions[i].current == s.sessions[i].current && s'.sessions[i].previous == s.sessions[i].previous
    ensures Inv(s')
  {
    forall i | 0 <= i < |s'.sessions| ensures ChainOk(s'.sessions[i], s'.chains[i]) {
      assert ChainOk(s.sessions[i], s.chains[i]);
    }
    forall i, k | Issued(s', i, k) ensures s'.chains[i][k] in s'.owner && s'.owner[s'.chains[i][k]] == Slot(i, k) {
      assert Issued(s, i, k);
    }
    forall j <- s'.owner ensures OwnerOk(s', j) && (Superseded(s', j) <==> Superseded(s, j)) {
      assert OwnerOk(s, j);
    }
    hide OwnerOk, Superseded;
  }

  lemma InvKept(s: State, a: Action)
    requires Inv(s) && Enabled(s, a)
    ensures Inv(Next(s, a))
  {
    hide Inv, FindCurrent, FindPrevious;
    match a
    case OpenSession(_, _, _) => InvKeptOpen(s, a);
    case RefreshTokens(token, now, active, newJti, newExp) =>
      if Next(s, a).chains == s.chains {
        InvKeptRevoking(s, Next(s, a));
      } else {
        InvKeptRotated(s, FindCurrent(s.sessions, token.jti).value, token.jti, newJti, newExp);
      }
    case LogOut(_, _) => InvKeptRevoking(s, Next(s, a));
  }

  // ---- whole runs ----------------------------------------------------------------------------

  ghost predicate Step(s: State, s': State) {
    exists a :: Enabled(s, a) && s' == Next(s, a)
  }

  ghost predicate IsRun(ss: seq<State>) {
    && |ss| > 0 && ss[0] == INITIAL
    && forall i :: 0 <= i < |ss| - 1 ==> Step(ss[i], ss[i + 1])
  }

  lemma {:induction false} ReachableInv(ss: seq<State>, n: nat)
    requires IsRun(ss) && n < |ss|
    ensures Inv(ss[n])
  {
    hide Next, Enabled;
    if n > 0 {
      assert Step(ss[n - 1], ss[n - 1 + 1]);
      var a :| Enabled(ss[n - 1], a) && ss[n] == Next(ss[n - 1], a);
      ReachableInv(ss, n - 1);
      InvKept(ss[n - 1], a);
    }
  }

  /** No jti is ever issued twice, in any run. */
  lemma IssuedOnce(ss: seq<State>, n: nat, i: nat, k: nat, j: nat, l: nat)
    requires IsRun(ss) && n < |ss| && Issued(ss[n], i, k) && Issued(ss[n], j, l)
    requires ss[n].chains[i][k] == ss[n].chains[j][l]
    ensures i == j && k == l
  {
    ReachableInv(ss, n);
  }

  /** No jti is ever exchanged twice, and the exchanged ones are exactly those followed by another. */
  lemma ExchangedOnce(ss: seq<State>, n: nat)
    requires IsRun(ss) && n < |ss|
    ensures Distinct(ss[n].exchanged)
    ensures forall i, k :: Issued(ss[n], i, k) ==> (ss[n].chains[i][k] in ss[n].exchanged <==> k + 1 < |ss[n].chains[i]|)
  {
    ReachableInv(ss, n);
  }

  /** What later states keep of earlier ones; a revoked chain is frozen. */
  ghost predicate Continues(s: State, s': State) {
    && |s.chains| <= |s'.chains| && |s.sessions| == |s.chains| && |s'.sessions| == |s'.chains|
    && s.exchanged <= s'.exchanged && s.audit <= s'.audit
    && forall i :: 0 <= i < |s.chains| ==> ContinuesAt(s, s', i)
  }

  ghost predicate ContinuesAt(s: State, s': State, i: nat)
    requires i < |s.chains| <= |s'.chains| && |s.sessions| == |s.chains| && |s'.sessions| == |s'.chains|
  {
    && s.chains[i] <= s'.chains[i] && s'.sessions[i].userId == s.sessions[i].userId
    && (s.sessions[i].revokedAt.Some? ==> s'.sessions[i] == s.sessions[i] && s'.chains[i] == s.chains[i])
  }

  lemma StepContinues(s: State, a: Action)
    requires Inv(s) && Enabled(s, a)
    ensures Continues(s, Next(s, a))
  {
    hide Inv, FindCurrent, FindPrevious;
    var s' := Next(s, a);
    assert |s'.sessions| == |s'.chains| && s.exchanged <= s'.exchanged && s.audit <= s'.audit;
    forall i | 0 <= i < |s.chains| ensures ContinuesAt(s, s', i) {
    }
  }

  lemma ContinuesOn(s: State, t: State, u: State)
    requires Continues(s, t) && Continues(t, u)
    ensures Continues(s, u)
  {
    forall i | 0 <= i < |s.chains| ensures ContinuesAt(s, u, i) {
      assert ContinuesAt(s, t, i) && ContinuesAt(t, u, i);
    }
  }

  lemma {:induction false} HistoryContinues(ss: seq<State>, m: nat, n: nat)
    requires IsRun(ss) && m <= n < |ss|
    ensures Continues(ss[m], ss[n])
  {
    hide Next, Enabled, Continues;
    if m < n {
      assert Step(ss[n - 1], ss[n - 1 + 1]);
      var a :| Enabled(ss[n - 1], a) && ss[n] == Next(ss[n - 1], a);
      ReachableInv(ss, n - 1);
      StepContinues(ss[n - 1], a);
      HistoryContinues(ss, m, n - 1);
      ContinuesOn(ss[m], ss[n - 1], ss[n]);
    } else {
      ReachableInv(ss, m);
      ContinuesItself(ss[m]);
    }
  }

  lemma ContinuesItself(s: State)
    requires Inv(s)
    ensures Continues(s, s)
  {
  }

  /** Once a chain is revoked, none of its jtis is ever exchanged again. */
  lemma RevokedForEver(ss: seq<State>, m: nat, n: nat, i: nat, jti: string)
    requires IsRun(ss) && m <= n < |ss| && i < |ss[m].sessions| && ss[m].sessions[i].revokedAt.Some?
    requires i < |ss[m].chains| && jti in ss[m].chains[i]
    ensures i < |ss[n].sessions| == |ss[n].chains|
    ensures ss[n].sessions[i].revokedAt.Some? && ss[n].chains[i] == ss[m].chains[i]
    ensures jti in ss[n].exchanged <==> jti in ss[m].exchanged
  {
    HistoryContinues(ss, m, n);
    assert ContinuesAt(ss[m], ss[n], i);
    ExchangedOnce(ss, m);
    ExchangedOnce(ss, n);
    hide IsRun;
    var k :| 0 <= k < |ss[m].chains[i]| && ss[m].chains[i][k] == jti;
    assert Issued(ss[m], i, k) && Issued(ss[n], i, k);
  }

  // ---- the fate of a presented token ----------------------------------------------------------

  ghost predicate Reachable(s: State) {
    exists ss :: IsRun(ss) && ss[|ss| - 1] == s
  }

  lemma ReachableIsInv(s: State)
    requires Reachable(s)
    ensures Inv(s)
  {
    var ss :| IsRun(ss) && ss[|ss| - 1] == s;
    ReachableInv(ss, |ss| - 1);
  }

  predicate Refreshes(s: State, a: Action)
    requires Enabled(s, a)
  {
    |Next(s, a).exchanged| > |s.exchanged|
  }

  lemma RefreshEffect(s: State, a: Action)
    requires Enabled(s, a) && a.RefreshTokens? && a.token.Good?
    ensures var f := FindCurrent(s.sessions, a.token.jti);
      && (Refreshes(s, a) <==> f.Some? && s.sessions[f.value].revokedAt.None?
                               && a.now < s.sessions[f.value].expiresAt && a.userActive)
      && (Refreshes(s, a) ==> Next(s, a) == Rotated(s, f.value, a.token.jti, a.newJti, a.newExpiresAt))
  {
    hide FindCurrent, FindPrevious;
  }

  /** A token is exchanged exactly when it ends the chain of a live, unexpired session of an active user. */
  lemma ExchangedIff(s: State, a: Action, i: nat, k: nat)
    requires Reachable(s) && Enabled(s, a) && a.RefreshTokens? && a.token.Good?
    requires Issued(s, i, k) && s.chains[i][k] == a.token.jti
    ensures var x := s.sessions[i];
      Refreshes(s, a) <==> k + 1 == |s.chains[i]| && x.revokedAt.None? && a.now < x.expiresAt && a.userActive
    ensures Refreshes(s, a) ==>
      && Next(s, a).sessions == s.sessions[i :=
           Session(s.sessions[i].userId, a.newJti, Some(a.token.jti), a.newExpiresAt, None)]
      && Next(s, a).chains == s.chains[i := s.chains[i] + [a.newJti]] && Next(s, a).audit == s.audit
  {
    ReachableIsInv(s);
    FoundIsOwner(s, a.token.jti);
    assert s.owner[a.token.jti] == Slot(i, k);
    RefreshEffect(s, a);
    if Refreshes(s, a) {
      RotatedRow(s, i, a.token.jti, a.newJti, a.newExpiresAt);
    }
    hide Reachable, Inv, FindCurrent, FindPrevious, Next, Refreshes, Rotated;
  }

  lemma RotatedRow(s: State, i: nat, jti: string, newJti: string, exp: int)
    requires i < |s.sessions| && i < |s.chains| && s.sessions[i].revokedAt.None?
    ensures var s' := Rotated(s, i, jti, newJti, exp);
      && s'.sessions == s.sessions[i := Session(s.sessions[i].userId, newJti, Some(jti), exp, None)]
      && s'.chains == s.chains[i := s.chains[i] + [newJti]] && s'.audit == s.audit
  {
  }

  /** Logging out with the last token of a live chain revokes that chain, at that time, and does nothing else. */
  lemma LogOutRevokes(s: State, a: Action, i: nat)
    requires Reachable(s) && Enabled(s, a) && a.LogOut? && a.presented.Some?
    requires i < |s.chains| && |s.chains[i]| > 0 && s.chains[i][|s.chains[i]| - 1] == a.presented.value
    requires i < |s.sessions| && s.sessions[i].revokedAt.None?
    ensures Next(s, a) == s.(sessions := s.sessions[i := s.sessions[i].(revokedAt := Some(a.now))])
  {
    ReachableIsInv(s);
    assert Issued(s, i, |s.chains[i]| - 1);
    FoundIsOwner(s, a.presented.value);
  }

  /** Logging out with anything else, no token included, changes nothing. */
  lemma LogOutElseIsInert(s: State, a: Action)
    requires Reachable(s) && Enabled(s, a) && a.LogOut?
    requires a.presented.Some? ==> forall i, k :: Issued(s, i, k) && s.chains[i][k] == a.presented.value ==>
      k + 1 < |s.chains[i]| || s.sessions[i].revokedAt.Some?
    ensures Next(s, a) == s
  {
    ReachableIsInv(s);
    if a.presented.Some? {
      FoundIsOwner(s, a.presented.value);
      if FindCurrent(s.sessions, a.presented.value).Some? {
        var i := FindCurrent(s.sessions, a.presented.value).value;
        assert ChainOk(s.sessions[i], s.chains[i]) && Issued(s, i, |s.chains[i]| - 1);
      }
    }
  }

  /** After a logout none of the chain's tokens is exchanged, in whatever follows. */
  lemma LoggedOutForEver(ss: seq<State>, m: nat, n: nat, a: Action, i: nat, jti: string)
    requires IsRun(ss) && m < n < |ss| && Enabled(ss[m], a) && ss[m + 1] == Next(ss[m], a)
    requires a.LogOut? && a.presented.Some? && i < |ss[m].sessions| == |ss[m].chains| && ss[m].sessions[i].revokedAt.None?
    requires |ss[m].chains[i]| > 0 && ss[m].chains[i][|ss[m].chains[i]| - 1] == a.presented.value
    requires jti in ss[m].chains[i]
    ensures i < |ss[n].sessions| == |ss[n].chains| && ss[n].chains[i] == ss[m].chains[i]
    ensures ss[n].sessions[i].revokedAt == Some(a.now)
    ensures jti in ss[n].exchanged <==> jti in ss[m].exchanged
  {
    hide Next, Enabled;
    assert IsRun(ss[..m + 1]) && ss[..m + 1][m] == ss[m];
    LogOutRevokes(ss[m], a, i);
    RevokedForEver(ss, m + 1, n, i, jti);
    HistoryContinues(ss, m + 1, n);
    assert ContinuesAt(ss[m + 1], ss[n], i);
  }

  /** Replaying the token just rotated out revokes its live chain, leaves the others, and is audited. */
  lemma ReplayRevokes(s: State, a: Action, i: nat)
    requires Reachable(s) && Enabled(s, a) && a.RefreshTokens? && a.token.Good?
    requires i < |s.chains| && |s.chains[i]| >= 2 && s.chains[i][|s.chains[i]| - 2] == a.token.jti
    ensures Next(s, a) == s.(sessions := Next(s, a).sessions, audit := s.audit + [ReuseDetected(Some(s.sessions[i].userId), i, a.token.jti)])
    ensures s.sessions[i].revokedAt.None? ==>
      Next(s, a).sessions == s.sessions[i := s.sessions[i].(revokedAt := Some(a.now))]
    ensures s.sessions[i].revokedAt.Some? ==> Next(s, a).sessions == s.sessions
  {
    ReachableIsInv(s);
    assert Issued(s, i, |s.chains[i]| - 2);
    FoundIsOwner(s, a.token.jti);
    FoundPreviousIsOwner(s, a.token.jti);
  }

  /** Older tokens, unknown ones and bad ones are rejected and change nothing. */
  lemma OlderIsInert(s: State, a: Action)
    requires Reachable(s) && Enabled(s, a) && a.RefreshTokens?
    requires a.token.Good? ==> forall i, k :: Issued(s, i, k) && s.chains[i][k] == a.token.jti ==> k + 2 < |s.chains[i]|
    ensures Next(s, a) == s
  {
    ReachableIsInv(s);
    if a.token.Good? {
      FoundIsOwner(s, a.token.jti);
      FoundPreviousIsOwner(s, a.token.jti);
    }
  }

  /** The last token of a revoked chain is rejected; the attempt is audited without a user. */
  lemma RevokedCurrentIsRejected(s: State, a: Action, i: nat)
    requires Reachable(s) && Enabled(s, a) && a.RefreshTokens? && a.token.Good?
    requires i < |s.sessions| && s.sessions[i].current == a.token.jti && s.sessions[i].revokedAt.Some?
    ensures Next(s, a) == s.(audit := s.audit + [ReuseDetected(None, i, a.token.jti)])
  {
    ReachableIsInv(s);
    assert ChainOk(s.sessions[i], s.chains[i]) && Issued(s, i, |s.chains[i]| - 1);
    FoundIsOwner(s, a.token.jti);
    FoundPreviousIsOwner(s, a.token.jti);
  }
}
