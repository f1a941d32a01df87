/**
 The authentication service, call by call: each call makes the one step of module Refresh and, for
 a login, the one update of module Lockout that it should.
 */
module Auth {
  import opened Options
  import opened Lockout
  import opened Refresh

  class SessionRepository {
    var sessions: seq<Session>

    constructor ()
      ensures sessions == []
    {
      sessions := [];
    }

    method Create(userId: string, jti: string, expiresAt: int)
      modifies this
      ensures sessions == old(sessions) + [Session(userId, jti, None, expiresAt, None)]
    {
      sessions := sessions + [Session(userId, jti, None, expiresAt, None)];
    }

    method FindByRefreshTokenId(jti: string) returns (r: Option<nat>)
      ensures r == FindCurrent(sessions, jti)
    {
      var n := |sessions|;
      assert sessions[..n] == sessions;
      while n > 0
        invariant 0 <= n <= |sessions| && FindCurrent(sessions, jti) == FindCurrent(sessions[..n], jti)
      {
        if sessions[n - 1].current == jti {
          return Some(n - 1);
        }
        assert sessions[..n][..n - 1] == sessions[..n - 1];
        n := n - 1;
      }
      return None;
    }

    method FindByPreviousTokenId(jti: string) returns (r: Option<nat>)
      ensures r == FindPrevious(sessions, jti)
    {
      var n := |sessions|;
      assert sessions[..n] == sessions;
      while n > 0
        invariant 0 <= n <= |sessions| && FindPrevious(sessions, jti) == FindPrevious(sessions[..n], jti)
      {
        if sessions[n - 1].previous == Some(jti) {
          return Some(n - 1);
        }
        assert sessions[..n][..n - 1] == sessions[..n - 1];
        n := n - 1;
      }
      return None;
    }

    method Rotate(id: nat, newJti: string, previousJti: string, expiresAt: int)
      requires id < |sessions|
      modifies this
      ensures sessions == old(sessions)[id :=
        old(sessions)[id].(current := newJti, previous := Some(previousJti), expiresAt := expiresAt)]
    {
      sessions := sessions[id :=
        sessions[id].(current := newJti, previous := Some(previousJti), expiresAt := expiresAt)];
    }

    method Revoke(id: nat, now: int)
      requires id < |sessions|
      modifies this
      ensures sessions == if old(sessions)[id].revokedAt.Some? then old(sessions)
                          else old(sessions)[id := old(sessions)[id].(revokedAt := Some(now))]
    {
      if sessions[id].revokedAt.None? {
        sessions := sessions[id := sessions[id].(revokedAt := Some(now))];
      }
    }
  }

  datatype Reply = Tokens(jti: string) | InvalidToken | TokenExpired | UserUnavailable

  /** `token` is the current one of this row, which is not revoked. */
  predicate Stands(x: Session, token: Presented) {
    token.Good? && x.current == token.jti && x.revokedAt.None?
  }

  predicate IsLastWith(sessions: seq<Session>, i: nat, jti: string)
    requires i < |sessions|
  {
    sessions[i].current == jti && forall k :: i < k < |sessions| ==> sessions[k].current != jti
  }

  class AuthService {
    const users: UserRepository
    const repo: SessionRepository
    var audit: seq<AuditEntry>
    ghost var chains: seq<seq<string>>
    ghost var owner: map<string, Slot>
    ghost var exchanged: seq<string>

    constructor (users: UserRepository, repo: SessionRepository)
      requires repo.sessions == []
      ensures this.users == users && this.repo == repo && Now() == INITIAL
    {
      this.users, this.repo := users, repo;
      audit, chains, owner, exchanged := [], [], map[], [];
    }

    ghost function Now(): State
      reads this, repo
    {
      State(repo.sessions, audit, chains, owner, exchanged)
    }

    /** Credentials first, then a new chain; `matches` is the result of the password comparison. */
    method Login(email: string, matches: bool, now: int, newJti: string, expiresAt: int)
      returns (o: Outcome, user: Option<User>)
      requires users.Valid() && Enabled(Now(), OpenSession("", newJti, expiresAt))
      modifies this`chains, this`owner, repo, users
      ensures users.Valid()
      ensures user.None? <==> forall id <- old(users.users) :: old(users.users)[id].email != email
      ensures user.None? ==> o == UserNotFound && users.users == old(users.users)
      ensures user.Some? ==> user.value.email == email && user.value in old(users.users).Values
      ensures user.Some? ==> var u, locked := user.value, user.value.lockedUntil.Some? && now < user.value.lockedUntil.value;
        && (o == AccountLocked <==> locked)
        && (o == AccountInactive <==> !locked && !u.active)
        && (o == WrongPassword <==> !locked && u.active && !matches)
        && (o == LoggedIn <==> !locked && u.active && matches)
        && (o == LoggedIn ==> users.users == old(users.users)[u.id := u.(failed := 0, lockedUntil := None)])
        && (o == WrongPassword ==>
              var lock := if u.failed + 1 >= users.policy.attempts then Some(now + users.policy.duration) else u.lockedUntil;
              users.users == old(users.users)[u.id := u.(failed := u.failed + 1, lockedUntil := lock)])
        && (o != LoggedIn && o != WrongPassword ==> users.users == old(users.users))
      ensures user.Some? ==> LoginTook(user.value, Attempt(now, user.value.active, matches), o, old(users.users))
      ensures o == LoggedIn ==>
        repo.sessions == old(repo.sessions) + [Session(user.value.id, newJti, None, expiresAt, None)]
      ensures o != LoggedIn ==> repo.sessions == old(repo.sessions)
      ensures Now() == if o == LoggedIn then Next(old(Now()), OpenSession(user.value.id, newJti, expiresAt)) else old(Now())
    {
      user := users.FindByEmail(email);
      if user.None? {
        return UserNotFound, user;
      }
      var u := user.value;
      if IsLocked(u, now) {
        return AccountLocked, user;
      }
      if !u.active {
        return AccountInactive, user;
      }
      if !matches {
        var _ := users.RecordLoginAttempt(u.id, false, now);
        return WrongPassword, user;
      }
      var _ := users.RecordLoginAttempt(u.id, true, now);
      chains, owner := chains + [[newJti]], owner[newJti := Slot(|repo.sessions|, 0)];
      repo.Create(u.id, newJti, expiresAt);
      return LoggedIn, user;
    }

    /** The row of `u` went through one attempt, and no other row changed. */
    ghost predicate LoginTook(u: User, a: Attempt, o: Outcome, before: map<string, User>)
      reads users
    {
      o == OutcomeOf(u, a) && users.users == before[u.id := AfterLogin(u, a, users.policy)]
    }

    /** One-time use with rotation; anything else may be a replay. */
    method RefreshTokens(token: Presented, userId: string, now: int, newJti: string, newExpiresAt: int)
      returns (r: Reply, ghost a: Action)
      requires |chains| == |repo.sessions| && newJti !in owner
      modifies this, repo
      ensures a == Refresh.RefreshTokens(token, now, userId in users.users && users.users[userId].active, newJti, newExpiresAt)
      ensures Enabled(old(Now()), a) && Now() == Next(old(Now()), a)
      ensures r.Tokens? <==> Refreshes(old(Now()), a)
      ensures r.Tokens? ==> r.jti == newJti
      ensures token.Bad? ==> r == InvalidToken
      ensures r == InvalidToken && token.Good? ==>
        (forall i :: 0 <= i < |old(repo.sessions)| ==> old(repo.sessions)[i].current != token.jti)
        || exists i :: 0 <= i < |old(repo.sessions)| && old(repo.sessions)[i].current == token.jti
                       && old(repo.sessions)[i].revokedAt.Some?
      ensures r == TokenExpired ==> exists i :: 0 <= i < |old(repo.sessions)| && Stands(old(repo.sessions)[i], token)
                                                && old(repo.sessions)[i].expiresAt <= now
      ensures r == UserUnavailable ==>
        && !(userId in users.users && users.users[userId].active)
        && exists i :: 0 <= i < |old(repo.sessions)| && Stands(old(repo.sessions)[i], token)
                       && now < old(repo.sessions)[i].expiresAt
    {
      a := Refresh.RefreshTokens(token, now, userId in users.users && users.users[userId].active, newJti, newExpiresAt);
      if token.Bad? {
        return InvalidToken, a;
      }
      var jti := token.jti;
      var session := repo.FindByRefreshTokenId(jti);
      if session.None? || repo.sessions[session.value].revokedAt.Some? {
        HandlePossibleReuse(jti, session, now);
        return InvalidToken, a;
      }
      if repo.sessions[session.value].expiresAt <= now {
        return TokenExpired, a;
      }
      if userId !in users.users || !users.users[userId].active {
        return UserUnavailable, a;
      }
      ghost var i := session.value;
      owner := owner[newJti := Slot(i, |chains[i]|)];
      chains := chains[i := chains[i] + [newJti]];
      exchanged := exchanged + [jti];
      repo.Rotate(session.value, newJti, jti, newExpiresAt);
      return Tokens(newJti), a;
    }

    method HandlePossibleReuse(jti: string, known: Option<nat>, now: int)
      requires known.Some? ==> known.value < |repo.sessions|
      modifies this`audit, repo
      ensures Now() == AfterReuse(old(Now()), jti, known, now)
    {
      var reused := repo.FindByPreviousTokenId(jti);
      var session := if reused.Some? then reused else known;
      if session.None? {
        return;
      }
      var user := if reused.Some? then Some(repo.sessions[reused.value].userId) else None;
      if reused.Some? && repo.sessions[reused.value].revokedAt.None? {
        repo.Revoke(session.value, now);
      }
      audit := audit + [ReuseDetected(user, session.value, jti)];
    }

    method Logout(jti: Option<string>, now: int)
      requires |chains| == |repo.sessions|
      modifies repo
      ensures Now() == Next(old(Now()), LogOut(jti, now))
      ensures jti.None? ==> repo.sessions == old(repo.sessions)
      ensures jti.Some? && (forall i :: 0 <= i < |old(repo.sessions)| ==> old(repo.sessions)[i].current != jti.value) ==>
        repo.sessions == old(repo.sessions)
      ensures jti.Some? ==> forall i :: 0 <= i < |old(repo.sessions)| && IsLastWith(old(repo.sessions), i, jti.value) ==>
        repo.sessions == if old(repo.sessions)[i].revokedAt.Some? then old(repo.sessions)
                         else old(repo.sessions)[i := old(repo.sessions)[i].(revokedAt := Some(now))]
    {
      if jti.None? {
        return;
      }
      var session := repo.FindByRefreshTokenId(jti.value);
      if session.Some? && repo.sessions[session.value].revokedAt.None? {
        repo.Revoke(session.value, now);
      }
    }
  }
}
