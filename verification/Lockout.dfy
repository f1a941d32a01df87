/**
 The account lockout rule: what one login attempt does to a user row, and how many passwords an
 account can have checked in a stretch of time.
 */
module Lockout {
  import opened Options

  /** `ACCOUNT_LOCKOUT_ATTEMPTS` and `ACCOUNT_LOCKOUT_DURATION_MS`; any number passes validation. */
  datatype Policy = Policy(attempts: int, duration: int)

  datatype User = User(id: string, email: string, active: bool, failed: int, lockedUntil: Option<int>)

  predicate IsLocked(u: User, now: int) {
    u.lockedUntil.Some? && now < u.lockedUntil.value
  }

  /** The row after a recorded attempt. */
  function AfterAttempt(u: User, success: bool, p: Policy, now: int): User {
    if success then u.(failed := 0, lockedUntil := None)
    else u.(failed := u.failed + 1,
            lockedUntil := if u.failed >= p.attempts - 1 then Some(now + p.duration) else u.lockedUntil)
  }

  datatype Outcome = UserNotFound | AccountLocked | AccountInactive | WrongPassword | LoggedIn

  /** One login: the user's activity and whether the password matches are up to the environment. */
  datatype Attempt = Attempt(now: int, active: bool, matches: bool)

  function OutcomeOf(u: User, a: Attempt): Outcome {
    if IsLocked(u, a.now) then AccountLocked
    else if !a.active then AccountInactive
    else if !a.matches then WrongPassword
    else LoggedIn
  }

  function AfterLogin(u: User, a: Attempt, p: Policy): User {
    var o := OutcomeOf(u, a);
    if o == WrongPassword then AfterAttempt(u, false, p, a.now)
    else if o == LoggedIn then AfterAttempt(u, true, p, a.now)
    else u
  }

  function Play(u: User, attempts: seq<Attempt>, p: Policy): User {
    if attempts == [] then u
    else AfterLogin(Play(u, attempts[..|attempts| - 1], p), attempts[|attempts| - 1], p)
  }

  /** How many of the attempts end in `o`. */
  function Count(u: User, attempts: seq<Attempt>, p: Policy, o: Outcome): nat {
    if attempts == [] then 0
    else
      var n := |attempts| - 1;
      Count(u, attempts[..n], p, o) + if OutcomeOf(Play(u, attempts[..n], p), attempts[n]) == o then 1 else 0
  }

  ghost predicate Between(attempts: seq<Attempt>, t0: int, t: int) {
    && t0 <= t
    && (forall k <- attempts :: t0 <= k.now <= t)
    && (forall i, j :: 0 <= i < j < |attempts| ==> attempts[i].now <= attempts[j].now)
  }

  /** Failures the policy allows before the first lock. */
  function Free(p: Policy): (n: nat)
    ensures n >= 1 && n >= p.attempts
  {
    if p.attempts < 1 then 1 else p.attempts
  }

  /**
   Every wrong password past the free ones costs a full lock: `e` counts those, and none of them
   came before `e` lock durations had passed.
   */
  ghost predicate Paid(u: User, p: Policy, t0: int, last: int, e: nat) {
    && u.failed >= 0
    && e * p.duration <= last - t0
    && (u.failed >= Free(p) ==> u.lockedUntil.Some? && e * p.duration <= u.lockedUntil.value - p.duration - t0)
  }

  /**
   `wrong` passwords are accounted for: those before each login that set off no lock, the current
   run, and `e` paid ones.
   */
  ghost predicate Tally(wrong: nat, logins: nat, failed: int, p: Policy, e: nat) {
    wrong <= logins * (Free(p) - 1) + (if failed < Free(p) then failed else Free(p)) + e
  }

  lemma PaidStep(u: User, a: Attempt, p: Policy, t0: int, last: int, wrong: nat, logins: nat, e: nat) returns (e': nat)
    requires p.duration > 0 && last <= a.now && Paid(u, p, t0, last, e) && Tally(wrong, logins, u.failed, p, e)
    ensures Paid(AfterLogin(u, a, p), p, t0, a.now, e')
    ensures var o := OutcomeOf(u, a);
      Tally(wrong + (if o == WrongPassword then 1 else 0), logins + (if o == LoggedIn then 1 else 0),
            AfterLogin(u, a, p).failed, p, e')
  {
    e' := e;
    if !OutcomeOf(u, a).AccountLocked? && !OutcomeOf(u, a).AccountInactive? && u.failed >= Free(p) {
      assert (e + 1) * p.duration == e * p.duration + p.duration;
      e' := e + 1;
    }
    assert (logins + 1) * (Free(p) - 1) == logins * (Free(p) - 1) + Free(p) - 1;
  }

  /** The account kept over a sequence of attempts. */
  ghost predicate Settled(u: User, attempts: seq<Attempt>, p: Policy, t0: int, e: nat) {
    && Paid(Play(u, attempts, p), p, t0, if attempts == [] then t0 else attempts[|attempts| - 1].now, e)
    && Tally(Count(u, attempts, p, WrongPassword), Count(u, attempts, p, LoggedIn), Play(u, attempts, p).failed, p, e)
  }

  lemma {:induction false} EveryLockIsPaid(u: User, attempts: seq<Attempt>, p: Policy, t0: int, t: int) returns (e: nat)
    requires p.duration > 0 && u.failed == 0 && Between(attempts, t0, t)
    ensures Settled(u, attempts, p, t0, e)
  {
    hide Settled;
    if attempts == [] {
      NothingOwed(u, p, t0);
      e := 0;
    } else {
      var n := |attempts| - 1;
      BetweenPrefix(attempts, t0, t);
      e := EveryLockIsPaid(u, attempts[..n], p, t0, t);
      assert attempts == attempts[..n] + [attempts[n]];
      e := OneMorePaid(u, attempts[..n], attempts[n], p, t0, e);
    }
  }

  lemma OneMorePaid(u: User, rest: seq<Attempt>, a: Attempt, p: Policy, t0: int, e: nat) returns (e': nat)
    requires p.duration > 0 && Settled(u, rest, p, t0, e)
    requires (if rest == [] then t0 else rest[|rest| - 1].now) <= a.now
    ensures Settled(u, rest + [a], p, t0, e')
  {
    hide Paid, Tally, Play, Count, AfterLogin, OutcomeOf, Free;
    OneMore(u, rest, a, p, WrongPassword);
    OneMore(u, rest, a, p, LoggedIn);
    e' := PaidStep(Play(u, rest, p), a, p, t0, if rest == [] then t0 else rest[|rest| - 1].now,
                   Count(u, rest, p, WrongPassword), Count(u, rest, p, LoggedIn), e);
  }

  lemma NothingOwed(u: User, p: Policy, t0: int)
    requires u.failed == 0
    ensures Settled(u, [], p, t0, 0)
  {
  }

  lemma BetweenPrefix(attempts: seq<Attempt>, t0: int, t: int)
    requires Between(attempts, t0, t) && attempts != []
    ensures var n := |attempts| - 1;
      Between(attempts[..n], t0, t) && (if n == 0 then t0 else attempts[..n][n - 1].now) <= attempts[n].now
  {
    assert attempts[|attempts| - 1] in attempts;
  }

  lemma DivideBound(e: nat, d: int, span: int)
    requires d > 0 && e * d <= span
    ensures e <= span / d
  {
    var q := span / d;
    assert span < q * d + d;
    assert (e - q - 1) * d == e * d - q * d - d < 0;
  }

  /**
   Lockout bound: from zero failures, the passwords found wrong in [t0, t] are at most the free
   ones, one less than that afresh for every login, and one for each whole lock duration that fits.
   */
  lemma LockoutBound(u: User, attempts: seq<Attempt>, p: Policy, t0: int, t: int)
    requires p.duration > 0 && u.failed == 0 && Between(attempts, t0, t)
    ensures Count(u, attempts, p, WrongPassword)
         <= Count(u, attempts, p, LoggedIn) * (Free(p) - 1) + Free(p) + (t - t0) / p.duration
  {
    var e := EveryLockIsPaid(u, attempts, p, t0, t);
    assert e * p.duration <= t - t0;
    hide Play, Count, Paid, Tally, Between;
    InAll(Count(u, attempts, p, WrongPassword), Count(u, attempts, p, LoggedIn), Play(u, attempts, p).failed, p, e, t - t0);
  }

  lemma InAll(wrong: nat, logins: nat, failed: int, p: Policy, e: nat, span: int)
    requires p.duration > 0 && Tally(wrong, logins, failed, p, e) && e * p.duration <= span
    ensures wrong <= logins * (Free(p) - 1) + Free(p) + span / p.duration
  {
    DivideBound(e, p.duration, span);
  }

  lemma OneMore(u: User, attempts: seq<Attempt>, a: Attempt, p: Policy, o: Outcome)
    ensures Play(u, attempts + [a], p) == AfterLogin(Play(u, attempts, p), a, p)
    ensures Count(u, attempts + [a], p, o)
         == Count(u, attempts, p, o) + if OutcomeOf(Play(u, attempts, p), a) == o then 1 else 0
  {
    assert (attempts + [a])[..|attempts|] == attempts;
  }

  /** An attempt with a wrong password on an active account. */
  function Guess(now: int): Attempt {
    Attempt(now, true, false)
  }

  function Guesses(t0: int, n: nat): seq<Attempt> {
    seq(n, i => Guess(t0))
  }

  /** When the `k`-th lock after the first runs out. */
  function LockEnd(p: Policy, t0: int, k: nat): int {
    t0 + k * p.duration
  }

  lemma LockEndNext(p: Policy, t0: int, k: nat)
    ensures LockEnd(p, t0, k + 1) == LockEnd(p, t0, k) + p.duration && LockEnd(p, t0, 0) == t0
  {
  }

  /** All free guesses at once, then one more as each lock expires. */
  function Patient(p: Policy, t0: int, extra: nat): seq<Attempt> {
    if extra == 0 then Guesses(t0, Free(p)) else Patient(p, t0, extra - 1) + [Guess(LockEnd(p, t0, extra))]
  }

  lemma {:induction false} FreeGuesses(u: User, p: Policy, t0: int, n: nat)
    requires u.failed == 0 && !IsLocked(u, t0) && n <= Free(p)
    ensures var guesses := Guesses(t0, n);
      && Count(u, guesses, p, WrongPassword) == n && Count(u, guesses, p, LoggedIn) == 0 && Play(u, guesses, p).failed == n
      && (n < Free(p) ==> Play(u, guesses, p).lockedUntil == u.lockedUntil)
      && (n == Free(p) ==> Play(u, guesses, p).lockedUntil == Some(t0 + p.duration))
  {
    if n > 0 {
      FreeGuesses(u, p, t0, n - 1);
      var guesses := Guesses(t0, n);
      assert guesses[..n - 1] == Guesses(t0, n - 1);
    }
  }

  lemma {:induction false} PatientBetween(p: Policy, t0: int, extra: nat)
    requires p.duration > 0
    ensures Between(Patient(p, t0, extra), t0, LockEnd(p, t0, extra))
  {
    LockEndNext(p, t0, 0);
    if extra > 0 {
      PatientBetween(p, t0, extra - 1);
      LockEndNext(p, t0, extra - 1);
    }
  }

  /** The account has had `n` wrong passwords checked and stays locked until `until`. */
  ghost predicate LockedAfter(u: User, guesses: seq<Attempt>, p: Policy, n: nat, until: int) {
    && Count(u, guesses, p, WrongPassword) == n && Count(u, guesses, p, LoggedIn) == 0
    && Play(u, guesses, p).failed >= Free(p) && Play(u, guesses, p).lockedUntil == Some(until)
  }

  lemma GuessAtLockEnd(u: User, guesses: seq<Attempt>, p: Policy, n: nat, until: int)
    requires LockedAfter(u, guesses, p, n, until)
    ensures LockedAfter(u, guesses + [Guess(until)], p, n + 1, until + p.duration)
  {
    OneMore(u, guesses, Guess(until), p, WrongPassword);
    OneMore(u, guesses, Guess(until), p, LoggedIn);
    hide Play, Count;
  }

  lemma FirstLock(u: User, p: Policy, t0: int)
    requires u.failed == 0 && !IsLocked(u, t0)
    ensures LockedAfter(u, Patient(p, t0, 0), p, Free(p), LockEnd(p, t0, 1))
  {
    FreeGuesses(u, p, t0, Free(p));
    hide Play, Count, Guesses;
  }

  lemma {:induction false} PatientStaysLocked(u: User, p: Policy, t0: int, extra: nat)
    requires u.failed == 0 && !IsLocked(u, t0)
    ensures LockedAfter(u, Patient(p, t0, extra), p, Free(p) + extra, LockEnd(p, t0, extra + 1))
  {
    hide LockedAfter, LockEnd;
    if extra == 0 {
      FirstLock(u, p, t0);
    } else {
      PatientStaysLocked(u, p, t0, extra - 1);
      GuessAtLockEnd(u, Patient(p, t0, extra - 1), p, Free(p) + extra - 1, LockEnd(p, t0, extra));
      LockEndNext(p, t0, extra);
    }
  }

  /** Logins at one instant, each after as many wrong passwords as set off no lock. */
  function Rounds(p: Policy, t0: int, logins: nat): seq<Attempt> {
    if logins == 0 then []
    else Rounds(p, t0, logins - 1) + Round(p, t0)
  }

  function Round(p: Policy, t0: int): seq<Attempt> {
    Guesses(t0, Free(p) - 1) + [Attempt(t0, true, true)]
  }

  lemma {:induction false} PlayAll(u: User, a: seq<Attempt>, b: seq<Attempt>, p: Policy, o: Outcome)
    ensures Play(u, a + b, p) == Play(Play(u, a, p), b, p)
    ensures Count(u, a + b, p, o) == Count(u, a, p, o) + Count(Play(u, a, p), b, p, o)
  {
    if b == [] {
      assert a + b == a;
    } else {
      var n := |b| - 1;
      PlayAll(u, a, b[..n], p, o);
      assert (a + b)[..|a + b| - 1] == a + b[..n];
    }
  }

  /** One round: no lock, no failure left over. */
  lemma OneRound(u: User, p: Policy, t0: int)
    requires u.failed == 0 && !IsLocked(u, t0)
    ensures var round := Round(p, t0);
      && Count(u, round, p, WrongPassword) == Free(p) - 1 && Count(u, round, p, LoggedIn) == 1
      && Play(u, round, p).failed == 0 && !IsLocked(Play(u, round, p), t0)
  {
    var guesses := Guesses(t0, Free(p) - 1);
    FreeGuesses(u, p, t0, Free(p) - 1);
    OneMore(u, guesses, Attempt(t0, true, true), p, WrongPassword);
    OneMore(u, guesses, Attempt(t0, true, true), p, LoggedIn);
    hide Play, Count, Guesses;
  }

  /** `logins` logins and `wrong` wrong passwords, and an account as at the start. */
  ghost predicate LeavesAsNew(u: User, attempts: seq<Attempt>, p: Policy, t0: int, logins: nat, wrong: nat) {
    && Count(u, attempts, p, WrongPassword) == wrong && Count(u, attempts, p, LoggedIn) == logins
    && Play(u, attempts, p).failed == 0 && !IsLocked(Play(u, attempts, p), t0)
  }

  lemma RoundAfter(u: User, rounds: seq<Attempt>, p: Policy, t0: int, logins: nat, wrong: nat)
    requires LeavesAsNew(u, rounds, p, t0, logins, wrong)
    ensures LeavesAsNew(u, rounds + Round(p, t0), p, t0, logins + 1, wrong + Free(p) - 1)
  {
    hide Free, Round, Play, Count, IsLocked;
    OneRound(Play(u, rounds, p), p, t0);
    PlayAll(u, rounds, Round(p, t0), p, WrongPassword);
    PlayAll(u, rounds, Round(p, t0), p, LoggedIn);
  }

  lemma {:induction false} AllRounds(u: User, p: Policy, t0: int, logins: nat)
    requires u.failed == 0 && !IsLocked(u, t0)
    ensures LeavesAsNew(u, Rounds(p, t0, logins), p, t0, logins, BeforeLogins(p, logins))
  {
    if logins == 0 {
      hide Free;
    } else {
      hide Free, Round, LeavesAsNew, BeforeLogins;
      AllRounds(u, p, t0, logins - 1);
      RoundAfter(u, Rounds(p, t0, logins - 1), p, t0, logins - 1, BeforeLogins(p, logins - 1));
      BeforeOneMore(p, logins - 1);
    }
  }

  function BeforeLogins(p: Policy, logins: nat): (n: nat)
    ensures n == logins * (Free(p) - 1)
  {
    if logins == 0 then 0 else BeforeLogins(p, logins - 1) + Free(p) - 1
  }

  lemma BeforeOneMore(p: Policy, logins: nat)
    ensures BeforeLogins(p, logins + 1) == BeforeLogins(p, logins) + Free(p) - 1
  {
  }

  lemma {:induction false} RoundsAtOnce(p: Policy, t0: int, logins: nat)
    ensures forall k <- Rounds(p, t0, logins) :: k.now == t0
  {
    if logins > 0 {
      RoundsAtOnce(p, t0, logins - 1);
      assert forall k <- Round(p, t0) :: k.now == t0;
    }
  }

  lemma BetweenAll(rounds: seq<Attempt>, patient: seq<Attempt>, t0: int, t: int)
    requires (forall k <- rounds :: k.now == t0) && Between(patient, t0, t)
    ensures Between(rounds + patient, t0, t)
  {
    assert forall k <- patient :: k in rounds + patient;
  }

  /** The bound is met with equality, whatever the policy, the logins and the number of locks that run out. */
  lemma BoundIsReached(u: User, p: Policy, t0: int, logins: nat, extra: nat) returns (attempts: seq<Attempt>)
    requires p.duration > 0 && u.failed == 0 && !IsLocked(u, t0)
    ensures Between(attempts, t0, t0 + extra * p.duration)
    ensures Count(u, attempts, p, LoggedIn) == logins
    ensures Count(u, attempts, p, WrongPassword)
         == logins * (Free(p) - 1) + Free(p) + (t0 + extra * p.duration - t0) / p.duration
  {
    var rounds, patient := Rounds(p, t0, logins), Patient(p, t0, extra);
    attempts := rounds + patient;
    AllRounds(u, p, t0, logins);
    RoundsAtOnce(p, t0, logins);
    PatientBetween(p, t0, extra);
    BetweenAll(rounds, patient, t0, LockEnd(p, t0, extra));
    PatientStaysLocked(Play(u, rounds, p), p, t0, extra);
    hide Patient, Rounds, Count, Play, IsLocked, Between;
    PlayAll(u, rounds, patient, p, LoggedIn);
    PlayAll(u, rounds, patient, p, WrongPassword);
    WholeLocks(p, t0, extra);
  }

  lemma WholeLocks(p: Policy, t0: int, k: nat)
    requires p.duration > 0
    ensures (LockEnd(p, t0, k) - t0) / p.duration == k
  {
    var d := p.duration;
    var q := k * d / d;
    DivideBound(k, d, k * d);
    assert (q - k) * d == q * d - k * d <= 0;
  }

  /** With no positive duration nothing is limited: any number of guesses in one instant. */
  lemma {:induction false} NoDurationNoBound(u: User, p: Policy, t0: int, n: nat)
    requires p.duration <= 0 && !IsLocked(u, t0)
    ensures var guesses := Guesses(t0, n);
      Between(guesses, t0, t0) && Count(u, guesses, p, WrongPassword) == n && !IsLocked(Play(u, guesses, p), t0)
  {
    if n > 0 {
      NoDurationNoBound(u, p, t0, n - 1);
      var guesses := Guesses(t0, n);
      assert guesses[..n - 1] == Guesses(t0, n - 1);
    }
  }

  // ---- the repository ----------------------------------------------------------------------------

  class UserRepository {
    var users: map<string, User>
    const policy: Policy

    /** Rows are keyed by their id. */
    ghost predicate Valid()
      reads this
    {
      forall id <- users :: users[id].id == id
    }

    constructor (policy: Policy)
      ensures Valid() && this.policy == policy && users == map[]
    {
      this.policy := policy;
      users := map[];
    }

    /** The e-mail column is unique; `email` comes normalised. */
    method FindByEmail(email: string) returns (u: Option<User>)
      requires Valid()
      ensures u.None? <==> forall id <- users :: users[id].email != email
      ensures u.Some? ==> u.value.id in users && users[u.value.id] == u.value && u.value.email == email
    {
      if id :| id in users && users[id].email == email {
        return Some(users[id]);
      }
      return None;
    }

    method RecordLoginAttempt(id: string, success: bool, now: int) returns (u: Option<User>)
      requires Valid()
      modifies this`users
      ensures Valid()
      ensures id !in old(users) ==> u.None? && users == old(users)
      ensures id in old(users) ==> users == old(users)[id := AfterAttempt(old(users)[id], success, policy, now)]
      ensures id in old(users) ==> u == Some(users[id]) && users.Keys == old(users).Keys
      ensures id in old(users) && success ==> users[id] == old(users)[id].(failed := 0, lockedUntil := None)
      ensures id in old(users) && !success ==>
        var lock := if old(users)[id].failed + 1 >= policy.attempts then Some(now + policy.duration)
                    else old(users)[id].lockedUntil;
        users[id] == old(users)[id].(failed := old(users)[id].failed + 1, lockedUntil := lock)
      ensures forall other <- users :: other != id ==> users[other] == old(users)[other]
    {
      if id !in users {
        return None;
      }
      var row := users[id];
      var failed := if success then 0 else row.failed + 1;
      var locked :=
        if !success && row.failed >= policy.attempts - 1 then Some(now + policy.duration)
        else if success then None
        else row.lockedUntil;
      users := users[id := row.(failed := failed, lockedUntil := locked)];
      return Some(users[id]);
    }
  }
}
