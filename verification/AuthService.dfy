/** The auth service over its two tables, each method one call at a given time. */
module AuthService {
  import opened Prelude
  import opened Auth

  class AuthService {
    const ttl: nat
    var users: map<UserId, User>
    var sessions: seq<Session>

    constructor (ttl: nat)
      ensures Tables() == State(ttl, map[], [])
    {
      this.ttl := ttl;
      users, sessions := map[], [];
    }

    function Tables(): State
      reads this
    {
      State(ttl, users, sessions)
    }

    method IssueTokens(user: UserId, chain: SessionId, now: int) returns (reply: Reply)
      modifies this`sessions
      ensures (Tables(), reply) == Issue(old(Tables()), user, chain, now)
    {
      reply := Tokens(|sessions|);
      sessions := sessions + [Session(user, now + ttl, None, chain)];
    }

    method Register(user: UserId, password: Password, now: int) returns (reply: Reply)
      modifies this
      ensures (Tables(), reply) == Step(old(Tables()), Op.Register(user, password), now)
    {
      if user in users {
        return AccountExists;
      }
      users := users[user := User(Some(password), true, false, 0, None)];
      reply := IssueTokens(user, |sessions|, now);
    }

    method Login(user: UserId, password: Password, now: int) returns (reply: Reply)
      modifies this
      ensures (Tables(), reply) == Step(old(Tables()), Op.Login(user, password), now)
    {
      if user !in users || users[user].password.None? || users[user].deleted {
        return InvalidCredentials;
      }
      var u := users[user];
      if !u.active {
        return Disabled;
      }
      if u.lockedUntil.Some? && u.lockedUntil.value > now {
        return Locked;
      }
      if u.password.value != password {
        var failed := u.failed + 1;
        var lockedUntil := if failed >= MAX_FAILED then Some(now + LOCK_MS) else None;
        users := users[user := u.(failed := failed, lockedUntil := lockedUntil)];
        return InvalidCredentials;
      }
      users := users[user := u.(failed := 0, lockedUntil := None)];
      reply := IssueTokens(user, |sessions|, now);
    }

    /** Rotates a token; a token that was already rotated ends every session of its user. */
    method Refresh(token: Option<SessionId>, now: int) returns (reply: Reply)
      modifies this
      ensures (Tables(), reply) == Step(old(Tables()), Op.Refresh(token), now)
    {
      if token.None? {
        return RefreshMissing;
      }
      if token.value >= |sessions| {
        return RefreshInvalid;
      }
      var s := sessions[token.value];
      if s.revokedAt.Some? {
        sessions := RevokeAll(sessions, s.user, None, now);
        return RefreshReused;
      }
      if s.expiresAt < now || !(s.user in users && users[s.user].active) {
        return RefreshExpired;
      }
      sessions := sessions[token.value := s.(revokedAt := Some(now))];
      reply := IssueTokens(s.user, s.chain, now);
    }

    method Logout(session: Option<SessionId>, token: Option<SessionId>, now: int)
      modifies this
      ensures Tables() == Step(old(Tables()), Op.Logout(session, token), now).0
    {
      if token.Some? {
        sessions := RevokeOne(sessions, token.value, now);
      }
      if session.Some? {
        sessions := RevokeOne(sessions, session.value, now);
      }
    }

    method LogoutEverywhere(user: UserId, now: int)
      modifies this
      ensures Tables() == Step(old(Tables()), Op.LogoutEverywhere(user), now).0
    {
      sessions := RevokeAll(sessions, user, None, now);
    }

    method ResetPassword(user: UserId, codeAccepted: bool, password: Password, now: int) returns (reply: Reply)
      modifies this
      ensures (Tables(), reply) == Step(old(Tables()), Op.ResetPassword(user, codeAccepted, password), now)
    {
      if user !in users || !codeAccepted {
        return CodeInvalid;
      }
      users := users[user := users[user].(password := Some(password), failed := 0, lockedUntil := None)];
      sessions := RevokeAll(sessions, user, None, now);
      return Done;
    }

    method ChangePassword(user: UserId, session: SessionId, current: Password, next: Password, now: int)
      returns (reply: Reply)
      modifies this
      ensures (Tables(), reply) == Step(old(Tables()), Op.ChangePassword(user, session, current, next), now)
    {
      if user !in users {
        return NotFound;
      }
      if users[user].password != Some(current) {
        return PasswordWrong;
      }
      users := users[user := users[user].(password := Some(next))];
      sessions := RevokeAll(sessions, user, Some(session), now);
      return Done;
    }
  }
}
