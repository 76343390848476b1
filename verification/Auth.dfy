/**
 * Accounts and refresh sessions: login with lockout, rotating refresh tokens
 * with reuse detection, and the calls that revoke sessions.
 *
 * Each server call is one step at a time `now` in milliseconds.  Passwords are
 * compared for equality.  A refresh token is a fresh secret stored with its
 * session, so session i and its token are both called i.
 */
module Auth {
  import opened Prelude

  const MAX_FAILED: nat := 5
  const LOCK_MS: nat := 15 * 60_000

  type UserId = nat
  type SessionId = nat
  type Password = nat

  datatype User = User(password: Option<Password>, active: bool, deleted: bool, failed: nat, lockedUntil: Option<int>)

  /** `chain` names the login a session descends from by rotation. */
  datatype Session = Session(user: UserId, expiresAt: int, revokedAt: Option<int>, chain: SessionId)

  /** `ttl` is the configured lifetime of a refresh token. */
  datatype State = State(ttl: nat, users: map<UserId, User>, sessions: seq<Session>)

  datatype Op =
    | Register(user: UserId, password: Password)
    | Login(user: UserId, password: Password)
    | Refresh(token: Option<SessionId>)
    | Logout(session: Option<SessionId>, token: Option<SessionId>)
    | LogoutEverywhere(user: UserId)
    | ResetPassword(user: UserId, codeAccepted: bool, password: Password)
    | ChangePassword(user: UserId, own: SessionId, current: Password, next: Password)
    | SetAccess(user: UserId, blocked: bool)

  datatype Reply =
    | Tokens(session: SessionId)
    | Done
    | AccountExists
    | InvalidCredentials
    | Disabled
    | Locked
    | RefreshMissing
    | RefreshInvalid
    | RefreshReused
    | RefreshExpired
    | CodeInvalid
    | PasswordWrong
    | NotFound

  // ─── sessions ───

  function Revoke(s: Session, now: int): Session {
    if s.revokedAt.None? then s.(revokedAt := Some(now)) else s
  }

  /** `updateMany` over the unrevoked sessions of a user, sparing one of them if asked to. */
  function RevokeAll(sessions: seq<Session>, user: UserId, spared: Option<SessionId>, now: int): (r: seq<Session>)
    ensures |r| == |sessions|
  {
    seq(|sessions|, i requires 0 <= i < |sessions| =>
      if sessions[i].user == user && spared != Some(i) then Revoke(sessions[i], now) else sessions[i])
  }

  function RevokeOne(sessions: seq<Session>, id: SessionId, now: int): (r: seq<Session>)
    ensures |r| == |sessions|
  {
    if id < |sessions| then sessions[id := Revoke(sessions[id], now)] else sessions
  }

  /** A new session for the user: of a new chain at login, of the rotated session's chain at refresh. */
  function Issue(st: State, user: UserId, chain: SessionId, now: int): (State, Reply) {
    (st.(sessions := st.sessions + [Session(user, now + st.ttl, None, chain)]), Tokens(|st.sessions|))
  }

  // ─── the calls ───

  function DoRegister(st: State, user: UserId, password: Password, now: int): (State, Reply) {
    if user in st.users then (st, AccountExists)
    else Issue(st.(users := st.users[user := User(Some(password), true, false, 0, None)]), user, |st.sessions|, now)
  }

  predicate IsLocked(u: User, now: int) {
    u.lockedUntil.Some? && u.lockedUntil.value > now
  }

  /** The account whose password this login attempt is compared with, if it gets that far. */
  predicate ChecksPassword(st: State, user: UserId, now: int) {
    && user in st.users
    && var u := st.users[user];
       u.password.Some? && !u.deleted && u.active && !IsLocked(u, now)
  }

  function Failed(u: User, now: int): User {
    u.(failed := u.failed + 1,
       lockedUntil := if u.failed + 1 >= MAX_FAILED then Some(now + LOCK_MS) else None)
  }

  function DoLogin(st: State, user: UserId, password: Password, now: int): (State, Reply) {
    if user !in st.users || st.users[user].password.None? || st.users[user].deleted then (st, InvalidCredentials)
    else
      var u := st.users[user];
      if !u.active then (st, Disabled)
      else if IsLocked(u, now) then (st, Locked)
      else if u.password.value != password then
        (st.(users := st.users[user := Failed(u, now)]), InvalidCredentials)
      else
        Issue(st.(users := st.users[user := u.(failed := 0, lockedUntil := None)]), user, |st.sessions|, now)
  }

  predicate UserActive(st: State, user: UserId) {
    user in st.users && st.users[user].active
  }

  function DoRefresh(st: State, token: Option<SessionId>, now: int): (State, Reply) {
    if token.None? then (st, RefreshMissing)
    else if token.value >= |st.sessions| then (st, RefreshInvalid)
    else
      var s := st.sessions[token.value];
      if s.revokedAt.Some? then
        (st.(sessions := RevokeAll(st.sessions, s.user, None, now)), RefreshReused)
      else if s.expiresAt < now || !UserActive(st, s.user) then (st, RefreshExpired)
      else
        Issue(st.(sessions := RevokeOne(st.sessions, token.value, now)), s.user, s.chain, now)
  }

  function DoLogout(st: State, session: Option<SessionId>, token: Option<SessionId>, now: int): (State, Reply) {
    var first := if token.Some? then RevokeOne(st.sessions, token.value, now) else st.sessions;
    (st.(sessions := if session.Some? then RevokeOne(first, session.value, now) else first), Done)
  }

  function DoResetPassword(st: State, user: UserId, codeAccepted: bool, password: Password, now: int): (State, Reply) {
    if user !in st.users || !codeAccepted then (st, CodeInvalid)
    else
      (st.(users := st.users[user := st.users[user].(password := Some(password), failed := 0, lockedUntil := None)],
           sessions := RevokeAll(st.sessions, user, None, now)), Done)
  }

  function DoChangePassword(st: State, user: UserId, session: SessionId, current: Password, next: Password, now: int)
    : (State, Reply)
  {
    if user !in st.users then (st, NotFound)
    else if st.users[user].password != Some(current) then (st, PasswordWrong)
    else
      (st.(users := st.users[user := st.users[user].(password := Some(next))],
           sessions := RevokeAll(st.sessions, user, Some(session), now)), Done)
  }

  /** The staff desk blocks an account, ending its sessions, or lets it in again with a clean counter. */
  function DoSetAccess(st: State, user: UserId, blocked: bool, now: int): (State, Reply) {
    if user !in st.users || st.users[user].deleted then (st, NotFound)
    else
      var u := st.users[user];
      if blocked then
        (st.(users := st.users[user := u.(active := false)], sessions := RevokeAll(st.sessions, user, None, now)), Done)
      else
        (st.(users := st.users[user := u.(active := true, failed := 0, lockedUntil := None)]), Done)
  }

  function Step(st: State, op: Op, now: int): (State, Reply) {
    match op
    case Register(user, password) => DoRegister(st, user, password, now)
    case Login(user, password) => DoLogin(st, user, password, now)
    case Refresh(token) => DoRefresh(st, token, now)
    case Logout(session, token) => DoLogout(st, session, token, now)
    case LogoutEverywhere(user) => (st.(sessions := RevokeAll(st.sessions, user, None, now)), Done)
    case ResetPassword(user, codeAccepted, password) => DoResetPassword(st, user, codeAccepted, password, now)
    case ChangePassword(user, session, current, next) => DoChangePassword(st, user, session, current, next, now)
    case SetAccess(user, blocked) => DoSetAccess(st, user, blocked, now)
  }

  // ─── runs ───

  datatype Timed = Timed(op: Op, at: int)

  function After(st: State, events: seq<Timed>): State
    decreases |events|
  {
    if events == [] then st
    else
      var n := |events| - 1;
      Step(After(st, events[..n]), events[n].op, events[n].at).0
  }

  /** The clock never runs backwards. */
  predicate InOrder(events: seq<Timed>) {
    forall i, j :: 0 <= i < j < |events| ==> events[i].at <= events[j].at
  }
}
