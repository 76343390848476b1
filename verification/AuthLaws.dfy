/** What holds of refresh sessions and of the login lockout over every run. */
module AuthLaws {
  import opened Prelude
  import opened Auth

  // ─── rotation ───

  /**
   * Sessions only get appended and revoked, a revocation is written once and
   * with the time of the call, and nothing else about a session changes.
   */
  ghost predicate OnlyRevokes(a: seq<Session>, b: seq<Session>, now: int) {
    && |a| <= |b|
    && forall i :: 0 <= i < |a| ==> b[i] == a[i] || (a[i].revokedAt.None? && b[i] == a[i].(revokedAt := Some(now)))
  }

  /** At most one new session, unrevoked, and either of a chain of its own or next in the chain just rotated. */
  ghost predicate Extends(a: seq<Session>, b: seq<Session>) {
    || |b| == |a|
    || (|b| == |a| + 1 && b[|a|].revokedAt.None? && b[|a|].chain == |a|)
    || (|b| == |a| + 1 && b[|a|].revokedAt.None?
        && exists i :: 0 <= i < |a| && a[i].revokedAt.None? && b[i].revokedAt.Some?
            && b[|a|].chain == a[i].chain && b[|a|].user == a[i].user)
  }

  lemma StepOnlyRevokes(st: State, op: Op, now: int)
    ensures OnlyRevokes(st.sessions, Step(st, op, now).0.sessions, now)
    ensures Extends(st.sessions, Step(st, op, now).0.sessions)
  {
    if op.Refresh? && op.token.Some? && op.token.value < |st.sessions| {
      var i := op.token.value;
      assert RevokeOne(st.sessions, i, now)[i] == Revoke(st.sessions[i], now);
    }
  }

  /** Every chain belongs to one user and has at most one unrevoked session, the newest of the chain. */
  ghost predicate OnlyNewestLives(sessions: seq<Session>) {
    && (forall i :: 0 <= i < |sessions| ==> sessions[i].chain <= i)
    && (forall i, j :: 0 <= i < j < |sessions| && sessions[i].chain == sessions[j].chain ==>
          sessions[i].revokedAt.Some? && sessions[i].user == sessions[j].user)
  }

  lemma StepKeepsChains(st: State, op: Op, now: int)
    requires OnlyNewestLives(st.sessions)
    ensures OnlyNewestLives(Step(st, op, now).0.sessions)
  {
    StepOnlyRevokes(st, op, now);
    ChainsExtend(st.sessions, Step(st, op, now).0.sessions, now);
  }

  lemma ChainsExtend(a: seq<Session>, b: seq<Session>, now: int)
    requires OnlyNewestLives(a) && OnlyRevokes(a, b, now) && Extends(a, b)
    ensures OnlyNewestLives(b)
  {
    forall i, j | 0 <= i < j < |b| && b[i].chain == b[j].chain
      ensures b[i].revokedAt.Some? && b[i].user == b[j].user
    {
      assert b[i].chain == a[i].chain;
      if j < |a| {
        assert b[j].chain == a[j].chain;
      } else if b[|a|].chain != |a| {
        var k :| 0 <= k < |a| && a[k].revokedAt.None? && b[k].revokedAt.Some? && b[|a|].chain == a[k].chain;
        if i < k {
          assert a[i].revokedAt.Some?;
        }
      }
    }
  }

  lemma {:induction false} RunKeepsChains(st: State, events: seq<Timed>)
    requires OnlyNewestLives(st.sessions)
    ensures OnlyNewestLives(After(st, events).sessions)
    decreases |events|
  {
    if events != [] {
      var n := |events| - 1;
      RunKeepsChains(st, events[..n]);
      StepKeepsChains(After(st, events[..n]), events[n].op, events[n].at);
    }
  }

  /** Once revoked, revoked for good and at the same time; a session keeps its user, its expiry and its chain. */
  lemma {:induction false} RevokedAtIsWriteOnce(st: State, events: seq<Timed>, i: SessionId)
    requires i < |st.sessions|
    ensures i < |After(st, events).sessions|
    ensures var s := After(st, events).sessions[i];
            && s.(revokedAt := st.sessions[i].revokedAt) == st.sessions[i]
            && (st.sessions[i].revokedAt.Some? ==> s.revokedAt == st.sessions[i].revokedAt)
    decreases |events|
  {
    if events != [] {
      var n := |events| - 1;
      RevokedAtIsWriteOnce(st, events[..n], i);
      StepOnlyRevokes(After(st, events[..n]), events[n].op, events[n].at);
    }
  }

  ghost predicate NoneLive(st: State, user: UserId) {
    forall i :: 0 <= i < |st.sessions| && st.sessions[i].user == user ==> st.sessions[i].revokedAt.Some?
  }

  /** Presenting a revoked token issues nothing and leaves its user without a live session. */
  lemma RevokedTokenEndsSessions(st: State, token: SessionId, now: int)
    requires token < |st.sessions| && st.sessions[token].revokedAt.Some?
    ensures var (st', reply) := Step(st, Refresh(Some(token)), now);
            && reply == RefreshReused
            && |st'.sessions| == |st.sessions|
            && NoneLive(st', st.sessions[token].user)
            && forall i :: 0 <= i < |st.sessions| && st.sessions[i].user != st.sessions[token].user
                 ==> st'.sessions[i] == st.sessions[i]
  {}

  /**
   * Theft shows: once a token was exchanged, whoever presents it again, however
   * much later, gets nothing, and no session of its user survives.
   */
  lemma RotatedTokenNeverWorksAgain(st: State, token: SessionId, at: int, between: seq<Timed>, again: int)
    requires Step(st, Refresh(Some(token)), at).1.Tokens?
    ensures var rotated := Step(st, Refresh(Some(token)), at).0;
            var later := After(rotated, between);
            var (final, reply) := Step(later, Refresh(Some(token)), again);
            reply == RefreshReused && |final.sessions| == |later.sessions| && NoneLive(final, st.sessions[token].user)
  {
    var rotated := Step(st, Refresh(Some(token)), at).0;
    assert rotated.sessions[token].revokedAt == Some(at);
    RevokedAtIsWriteOnce(rotated, between, token);
    RevokedTokenEndsSessions(After(rotated, between), token, again);
  }

  /** Among the sessions of one login there are never two that still work. */
  lemma OneLiveSessionPerLogin(ttl: nat, users: map<UserId, User>, events: seq<Timed>, i: SessionId, j: SessionId)
    requires var st := After(State(ttl, users, []), events);
             && i < |st.sessions| && j < |st.sessions| && st.sessions[i].chain == st.sessions[j].chain
             && st.sessions[i].revokedAt.None? && st.sessions[j].revokedAt.None?
    ensures i == j
  {
    RunKeepsChains(State(ttl, users, []), events);
  }

  /**
   * A refresh gets tokens if and only if its token is known, unrevoked and not
   * expired and its user is active.  The old session then ends now, the new
   * one takes its place in the chain with a full lifetime, and no other
   * session changes.
   */
  lemma RefreshSucceedsIff(st: State, token: SessionId, now: int)
    ensures var (st', reply) := Step(st, Refresh(Some(token)), now);
            && (reply.Tokens? <==>
                  && token < |st.sessions| && st.sessions[token].revokedAt.None?
                  && now <= st.sessions[token].expiresAt && UserActive(st, st.sessions[token].user))
            && (reply.Tokens? ==>
                  && reply.session == |st.sessions| && |st'.sessions| == |st.sessions| + 1 && st'.users == st.users
                  && st'.sessions[token] == st.sessions[token].(revokedAt := Some(now))
                  && st'.sessions[|st.sessions|]
                     == Session(st.sessions[token].user, now + st.ttl, None, st.sessions[token].chain)
                  && forall i :: 0 <= i < |st.sessions| && i != token ==> st'.sessions[i] == st.sessions[i])
  {}

  /** A refresh that does not succeed says why, the reasons in this order. */
  lemma RefreshRefusals(st: State, token: Option<SessionId>, now: int)
    ensures var reply := Step(st, Refresh(token), now).1;
            if token == None then reply == RefreshMissing
            else if token.value >= |st.sessions| then reply == RefreshInvalid
            else if st.sessions[token.value].revokedAt.Some? then reply == RefreshReused
            else if st.sessions[token.value].expiresAt < now || !UserActive(st, st.sessions[token.value].user) then
              reply == RefreshExpired
            else reply.Tokens?
  {}

  /** The calls that set a password or an access right answer by account, code and current password alone. */
  lemma DeskReplies(st: State, user: UserId, own: SessionId, current: Password, next: Password, accepted: bool,
                    blocked: bool, now: int)
    ensures Step(st, ChangePassword(user, own, current, next), now).1 ==
            if user !in st.users then NotFound
            else if st.users[user].password == Some(current) then Done else PasswordWrong
    ensures Step(st, ResetPassword(user, accepted, next), now).1 ==
            if user in st.users && accepted then Done else CodeInvalid
    ensures Step(st, SetAccess(user, blocked), now).1 ==
            if user in st.users && !st.users[user].deleted then Done else NotFound
  {}

  /** A refused call changes nothing, but for counting a wrong password and ending the sessions of a reused token. */
  lemma RefusedCallsChangeNothing(st: State, e: Timed, now: int)
    requires var reply := Step(st, e.op, e.at).1; !reply.Tokens? && !reply.Done?
    ensures Step(st, e.op, e.at).1 == RefreshReused
         || (e.op.Login? && WrongPasswordChecked(st, e, e.op.user))
         || Step(st, e.op, e.at).0 == st
  {}

  // ─── passwords ───

  function PasswordOf(st: State, user: UserId): Option<Password> {
    if user in st.users then st.users[user].password else None
  }

  /** The password of an account after a run: the one that the last accepted call set. */
  function LastPassword(st: State, events: seq<Timed>, user: UserId): Option<Password>
    decreases |events|
  {
    if events == [] then PasswordOf(st, user)
    else
      var n := |events| - 1;
      var e := events[n];
      var accepted := Step(After(st, events[..n]), e.op, e.at).1;
      match e.op
      case Register(who, password) =>
        if who == user && accepted.Tokens? then Some(password) else LastPassword(st, events[..n], user)
      case ResetPassword(who, _, password) =>
        if who == user && accepted.Done? then Some(password) else LastPassword(st, events[..n], user)
      case ChangePassword(who, _, _, next) =>
        if who == user && accepted.Done? then Some(next) else LastPassword(st, events[..n], user)
      case _ => LastPassword(st, events[..n], user)
  }

  /** One call sets the password of one account, or of none. */
  lemma StepPassword(st: State, e: Timed, user: UserId)
    ensures var (st', reply) := Step(st, e.op, e.at);
            PasswordOf(st', user) ==
              if e.op.Register? && e.op.user == user && reply.Tokens? then Some(e.op.password)
              else if e.op.ResetPassword? && e.op.user == user && reply.Done? then Some(e.op.password)
              else if e.op.ChangePassword? && e.op.user == user && reply.Done? then Some(e.op.next)
              else PasswordOf(st, user)
  {}

  lemma {:induction false} PasswordIsTheLastSet(st: State, events: seq<Timed>, user: UserId)
    ensures PasswordOf(After(st, events), user) == LastPassword(st, events, user)
    decreases |events|
  {
    if events != [] {
      var n := |events| - 1;
      PasswordIsTheLastSet(st, events[..n], user);
      StepPassword(After(st, events[..n]), events[n], user);
    }
  }

  lemma LoginNow(st: State, user: UserId, password: Password, now: int)
    ensures var (st', reply) := Step(st, Login(user, password), now);
            && (reply.Tokens? <==> ChecksPassword(st, user, now) && PasswordOf(st, user) == Some(password))
            && (reply.Tokens? ==>
                  && reply.session == |st.sessions|
                  && st'.sessions == st.sessions + [Session(user, now + st.ttl, None, reply.session)])
  {}

  /**
   * After any run a login gets tokens if and only if the account may log in,
   * is not locked, and the password is the one that was set last; the session
   * is then a new one of that user, live and of a chain of its own.
   */
  lemma LoginSucceedsIff(st: State, events: seq<Timed>, user: UserId, password: Password, now: int)
    ensures var later := After(st, events);
            var (st', reply) := Step(later, Login(user, password), now);
            && (reply.Tokens? <==> ChecksPassword(later, user, now) && LastPassword(st, events, user) == Some(password))
            && (reply.Tokens? ==>
                  && reply.session == |later.sessions|
                  && st'.sessions == later.sessions + [Session(user, now + later.ttl, None, reply.session)])
  {
    PasswordIsTheLastSet(st, events, user);
    LoginNow(After(st, events), user, password, now);
  }

  // ─── lockout ───

  /** A login that compares its password with the stored one and finds it wrong. */
  predicate WrongPasswordChecked(st: State, e: Timed, user: UserId) {
    && e.op.Login? && e.op.user == user
    && ChecksPassword(st, user, e.at)
    && st.users[user].password != Some(e.op.password)
  }

  /** A call that wipes the account's counter: a login that succeeds, a password reset, an unblocking. */
  predicate ResetsCounter(st: State, e: Timed, user: UserId) {
    || (e.op.Login? && e.op.user == user && Step(st, e.op, e.at).1.Tokens?)
    || (e.op.ResetPassword? && e.op.user == user && Step(st, e.op, e.at).1.Done?)
    || (e.op.SetAccess? && e.op.user == user && !e.op.blocked && Step(st, e.op, e.at).1.Done?)
  }

  /** The times at which a wrong password was checked since the account's counter was last wiped. */
  function WrongSinceReset(st: State, events: seq<Timed>, user: UserId): seq<int>
    decreases |events|
  {
    if events == [] then []
    else
      var n := |events| - 1;
      var before, e := After(st, events[..n]), events[n];
      if ResetsCounter(before, e, user) then []
      else WrongSinceReset(st, events[..n], user) + if WrongPasswordChecked(before, e, user) then [e.at] else []
  }

  /**
   * The counter is the number of those wrong passwords.  From five of them on
   * the account is locked, for fifteen minutes from the last; and every one
   * past the fifth took a further fifteen minutes to come.
   */
  ghost predicate CounterTells(u: User, times: seq<int>) {
    var n := |times|;
    && u.failed == n
    && u.lockedUntil == (if n >= 5 then Some(times[n - 1] + 900_000) else None)
    && (n > 0 ==> times[0] <= times[n - 1])
    && (n >= 5 ==> times[n - 1] - times[0] >= 900_000 * (n - 5))
  }

  /** What the wrong passwords say of the account, if there is one. */
  ghost predicate AccountTells(st: State, user: UserId, times: seq<int>) {
    if user in st.users then CounterTells(st.users[user], times) else times == []
  }

  /** A call that neither checks a wrong password of the account nor wipes its counter leaves its counter alone. */
  lemma OtherCallsKeepCounter(st: State, e: Timed, user: UserId)
    requires user in st.users && !WrongPasswordChecked(st, e, user) && !ResetsCounter(st, e, user)
    ensures var st' := Step(st, e.op, e.at).0;
            && user in st'.users
            && st'.users[user].failed == st.users[user].failed
            && st'.users[user].lockedUntil == st.users[user].lockedUntil
  {}

  /** An account starts with a clean counter, and a call that wipes it leaves it clean. */
  lemma CleanCounter(st: State, e: Timed, user: UserId)
    requires user !in st.users || ResetsCounter(st, e, user)
    ensures var st' := Step(st, e.op, e.at).0;
            && (ResetsCounter(st, e, user) ==> user in st'.users)
            && (user in st'.users ==> st'.users[user].failed == 0 && st'.users[user].lockedUntil == None)
  {}

  lemma WrongPasswordCounts(st: State, e: Timed, user: UserId, times: seq<int>)
    requires WrongPasswordChecked(st, e, user) && CounterTells(st.users[user], times)
    requires times != [] ==> times[|times| - 1] <= e.at
    ensures var st' := Step(st, e.op, e.at).0;
            user in st'.users && CounterTells(st'.users[user], times + [e.at])
  {
    assert Step(st, e.op, e.at).0.users[user] == Failed(st.users[user], e.at);
    var n := |times|;
    if n >= 5 {
      assert e.at >= times[n - 1] + 900_000;
      assert 900_000 * (n + 1 - 5) == 900_000 * (n - 5) + 900_000;
    }
  }

  /**
   * Over any run from a clean counter, resets included, an account's counter
   * is the number of wrong passwords checked since the last login that
   * succeeded, reset that was accepted or unblocking, and it is locked exactly
   * from five of them on, for fifteen minutes from the last.
   */
  lemma {:induction false} CounterFollows(st: State, events: seq<Timed>, user: UserId)
    requires user in st.users ==> st.users[user].failed == 0 && st.users[user].lockedUntil == None
    requires InOrder(events)
    ensures AccountTells(After(st, events), user, WrongSinceReset(st, events, user))
    ensures forall i :: 0 <= i < |WrongSinceReset(st, events, user)| ==>
              events != [] && WrongSinceReset(st, events, user)[i] <= events[|events| - 1].at
    decreases |events|
  {
    if events != [] {
      var n := |events| - 1;
      CounterFollows(st, events[..n], user);
      CounterStep(After(st, events[..n]), events[n], user, WrongSinceReset(st, events[..n], user));
    }
  }

  /** One call, from an account that tells its wrong passwords. */
  lemma CounterStep(st: State, e: Timed, user: UserId, times: seq<int>)
    requires AccountTells(st, user, times) && (times != [] ==> times[|times| - 1] <= e.at)
    ensures var after := if ResetsCounter(st, e, user) then []
                         else times + if WrongPasswordChecked(st, e, user) then [e.at] else [];
            AccountTells(Step(st, e.op, e.at).0, user, after)
  {
    hide Step;
    if user !in st.users || ResetsCounter(st, e, user) {
      CleanCounter(st, e, user);
    } else if WrongPasswordChecked(st, e, user) {
      WrongPasswordCounts(st, e, user, times);
    } else {
      OtherCallsKeepCounter(st, e, user);
      assert times + [] == times;
    }
  }

  /**
   * The lockout bound.  Over any run from a clean counter, the wrong passwords
   * checked since the counter was last wiped are at most five plus one per
   * full fifteen minutes since the first of them, whatever the timing.
   */
  lemma LockoutBound(st: State, events: seq<Timed>, user: UserId, now: int)
    requires user in st.users ==> st.users[user].failed == 0 && st.users[user].lockedUntil == None
    requires InOrder(events) && (events != [] ==> events[|events| - 1].at <= now)
    ensures var times := WrongSinceReset(st, events, user);
            times != [] ==> |times| <= 5 + (now - times[0]) / 900_000
  {
    CounterFollows(st, events, user);
    var times := WrongSinceReset(st, events, user);
    if times != [] {
      PeriodsBound(|times|, now - times[0]);
    }
  }

  lemma PeriodsBound(n: nat, elapsed: int)
    requires 0 <= elapsed && (n > 5 ==> elapsed >= 900_000 * (n - 5))
    ensures n <= 5 + elapsed / 900_000
  {}

  /** Who the account lets in: blocking and unblocking decide, and an account begins active and not deleted. */
  lemma AccessFollows(st: State, e: Timed, user: UserId)
    ensures var (st', reply) := Step(st, e.op, e.at);
            && (user in st'.users <==> user in st.users || (e.op.Register? && e.op.user == user))
            && (user in st'.users && user !in st.users ==>
                  reply.Tokens? && st'.users[user] == User(Some(e.op.password), true, false, 0, None))
            && (user in st.users ==>
                  && st'.users[user].deleted == st.users[user].deleted
                  && st'.users[user].active ==
                     if e.op.SetAccess? && e.op.user == user && !st.users[user].deleted then !e.op.blocked
                     else st.users[user].active)
            && (e.op.Register? && e.op.user in st.users ==> st' == st && reply == AccountExists)
  {}

  /** A new account gets a session of its own, and its password opens it at once; no other does. */
  lemma NewAccountMayLogIn(st: State, user: UserId, password: Password, tried: Password, at: int, later: int)
    requires user !in st.users
    ensures var (st', reply) := Step(st, Register(user, password), at);
            && reply == Tokens(|st.sessions|)
            && st'.sessions == st.sessions + [Session(user, at + st.ttl, None, |st.sessions|)]
            && Step(st', Login(user, tried), later).1 ==
               if tried == password then Tokens(|st.sessions| + 1) else InvalidCredentials
  {}

  /** A login that does not succeed says why, the reasons in this order, and only a wrong password leaves a trace. */
  lemma LoginRefusals(st: State, user: UserId, password: Password, now: int)
    ensures var (st', reply) := Step(st, Login(user, password), now);
            if user !in st.users || st.users[user].password == None || st.users[user].deleted then
              reply == InvalidCredentials && st' == st
            else if !st.users[user].active then reply == Disabled && st' == st
            else if st.users[user].lockedUntil.Some? && now < st.users[user].lockedUntil.value then
              reply == Locked && st' == st
            else if st.users[user].password != Some(password) then
              reply == InvalidCredentials && st'.sessions == st.sessions
            else reply.Tokens?
  {}
}
