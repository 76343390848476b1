/**
 * The browser's API client: a 401 is answered by one silent refresh, shared by
 * every request that meets a 401 meanwhile, and one retry; a 429 by one more
 * retry where repeating is safe.
 *
 * The client runs as the turns of its event loop, interleaved with the server
 * and with everybody else's calls to it.  A token is named by the session it
 * belongs to, as in module Auth.
 */
module Client {
  import opened Prelude
  import opened Auth

  type CallId = nat

  /** Whether the call carries the access token, goes to `/auth/…`, and is a GET or has an idempotency key. */
  datatype Request = Request(auth: bool, toAuth: bool, repeatable: bool)

  /** How a response counts for the client; `Dropped` is a network failure or an abort. */
  datatype Status = Okay | Unauthorized | RateLimited | OtherError | Dropped

  datatype Phase =
    | FirstSent
    | AwaitsRefresh
    | Refreshed(renewed: Option<SessionId>)
    | RetrySent
    | BackingOff
    | LastSent
    | Finished(status: Status)

  /** One call of `api`: how many requests it has sent, and the session the last of them was sent under. */
  datatype ApiCall = ApiCall(request: Request, phase: Phase, sent: nat, bearer: Option<SessionId>)

  /** The refresh under way: on its way out, answered by the server, or failed on the wire. */
  datatype Flight =
    | Requested(token: Option<SessionId>)
    | Answered(token: Option<SessionId>, issued: Option<SessionId>)
    | Broken

  datatype ClientState = ClientState(
    access: Option<SessionId>,
    cookie: Option<SessionId>,
    refreshing: Option<Flight>,
    calls: map<CallId, ApiCall>)

  // ─── the client's turns ───

  /** `refreshSession`: joins the refresh under way, or starts one with the cookie as it is now. */
  function JoinRefresh(c: ClientState): ClientState {
    if c.refreshing.Some? then c else c.(refreshing := Some(Requested(c.cookie)))
  }

  function Bearer(c: ClientState, r: Request, token: Option<SessionId>): Option<SessionId> {
    if r.auth then token else None
  }

  function Begun(c: ClientState, id: CallId, r: Request): ClientState {
    if id in c.calls then c
    else c.(calls := c.calls[id := ApiCall(r, FirstSent, 1, Bearer(c, r, c.access))])
  }

  predicate Refreshable(r: Request) {
    r.auth && !r.toAuth
  }

  /** From the rate-limit test on. */
  function Settle(call: ApiCall, status: Status): ApiCall {
    call.(phase := if status == RateLimited && call.request.repeatable then BackingOff else Finished(status))
  }

  /** A response to the request in flight of a call arrives. */
  function Responded(c: ClientState, id: CallId, status: Status): ClientState {
    if id !in c.calls then c
    else
      var call := c.calls[id];
      match call.phase
      case FirstSent =>
        if status == Unauthorized && Refreshable(call.request) then
          JoinRefresh(c).(calls := c.calls[id := call.(phase := AwaitsRefresh)])
        else c.(calls := c.calls[id := Settle(call, status)])
      case RetrySent => c.(calls := c.calls[id := Settle(call, status)])
      case LastSent => c.(calls := c.calls[id := call.(phase := Finished(status))])
      case _ => c
  }

  /** A call goes on after its refresh or after its pause. */
  function Resumed(c: ClientState, id: CallId): ClientState {
    if id !in c.calls then c
    else
      var call := c.calls[id];
      match call.phase
      case Refreshed(renewed) =>
        var next := if renewed.Some? then ApiCall(call.request, RetrySent, call.sent + 1, renewed)
                    else Settle(call, Unauthorized);
        c.(calls := c.calls[id := next])
      case BackingOff =>
        c.(calls := c.calls[id := ApiCall(call.request, LastSent, call.sent + 1, Bearer(c, call.request, c.access))])
      case _ => c
  }

  function Wake(calls: map<CallId, ApiCall>, renewed: Option<SessionId>): map<CallId, ApiCall> {
    map id | id in calls ::
      if calls[id].phase.AwaitsRefresh? then calls[id].(phase := Refreshed(renewed)) else calls[id]
  }

  /** The refresh comes back: its tokens are stored, a refusal drops the access token, a failure changes neither. */
  function Returned(c: ClientState): ClientState {
    match c.refreshing
    case Some(Answered(_, Some(s))) => ClientState(Some(s), Some(s), None, Wake(c.calls, Some(s)))
    case Some(Answered(_, None)) => ClientState(None, c.cookie, None, Wake(c.calls, None))
    case Some(Broken) => ClientState(c.access, c.cookie, None, Wake(c.calls, None))
    case _ => c
  }

  // ─── the client's fields ───

  class ApiClient {
    var access: Option<SessionId>
    var cookie: Option<SessionId>
    var refreshing: Option<Flight>
    var calls: map<CallId, ApiCall>

    constructor (cookie: Option<SessionId>)
      ensures Value() == ClientState(None, cookie, None, map[])
    {
      access, this.cookie, refreshing, calls := None, cookie, None, map[];
    }

    function Value(): ClientState
      reads this
    {
      ClientState(access, cookie, refreshing, calls)
    }

    method RefreshSession()
      modifies this`refreshing
      ensures Value() == JoinRefresh(old(Value()))
    {
      if refreshing.None? {
        refreshing := Some(Requested(cookie));
      }
    }

    /** The first request of a call, sent at once. */
    method Begin(id: CallId, r: Request)
      requires id !in calls
      modifies this`calls
      ensures Value() == Begun(old(Value()), id, r)
    {
      var bearer := if r.auth then access else None;
      calls := calls[id := ApiCall(r, FirstSent, 1, bearer)];
    }

    method Respond(id: CallId, status: Status)
      requires id in calls
      modifies this`refreshing, this`calls
      ensures Value() == Responded(old(Value()), id, status)
    {
      var call := calls[id];
      if !(call.phase.FirstSent? || call.phase.RetrySent? || call.phase.LastSent?) {
        return;
      }
      if call.phase.FirstSent? && status == Unauthorized && call.request.auth && !call.request.toAuth {
        RefreshSession();
        call := call.(phase := AwaitsRefresh);
      } else if !call.phase.LastSent? && status == RateLimited && call.request.repeatable {
        call := call.(phase := BackingOff);
      } else {
        call := call.(phase := Finished(status));
      }
      calls := calls[id := call];
    }

    method Resume(id: CallId)
      requires id in calls
      modifies this`calls
      ensures Value() == Resumed(old(Value()), id)
    {
      var call := calls[id];
      if call.phase.Refreshed? {
        if call.phase.renewed.Some? {
          call := ApiCall(call.request, RetrySent, call.sent + 1, call.phase.renewed);
        } else {
          call := call.(phase := Finished(Unauthorized));
        }
      } else if call.phase.BackingOff? {
        var bearer := if call.request.auth then access else None;
        call := ApiCall(call.request, LastSent, call.sent + 1, bearer);
      }
      calls := calls[id := call];
    }

    /** The continuation of the refresh, and what it resolves to. */
    method RefreshReturns() returns (renewed: Option<SessionId>)
      requires refreshing.Some? && !refreshing.value.Requested?
      modifies this
      ensures Value() == Returned(old(Value()))
      ensures renewed == match old(refreshing.value) case Answered(_, issued) => issued case _ => None
    {
      renewed := None;
      if refreshing.value.Answered? {
        renewed := refreshing.value.issued;
        access := renewed;
        if renewed.Some? {
          cookie := renewed;
        }
      }
      refreshing := None;
      calls := Wake(calls, renewed);
    }
  }

  // ─── the browser, the server and everybody else ───

  datatype World = World(server: State, client: ClientState)

  datatype Event =
    | Start(id: CallId, request: Request)
    | Response(id: CallId, status: Status)
    | Continue(id: CallId)
    | RefreshNow
    | ServerAnswers(at: int)
    | ServerThrottles
    | RequestLost
    | AnswerLost
    | FlightReturns
    | SignIn(op: Op, at: int)
    | SignOut(recognised: bool, at: int)
    | SignOutEverywhere(at: int)
    | Elsewhere(op: Op, at: int)

  /** The server handles the refresh on its way, if there is one. */
  function Answer(w: World, at: int): World {
    match w.client.refreshing
    case Some(Requested(token)) =>
      var (server, reply) := Step(w.server, Op.Refresh(token), at);
      World(server, w.client.(refreshing := Some(Answered(token, if reply.Tokens? then Some(reply.session) else None))))
    case _ => w
  }

  /** Login or registration in this browser: tokens, when it gets them, replace what it held. */
  function DoSignIn(w: World, op: Op, at: int): World {
    if !op.Login? && !op.Register? then w
    else
      var (server, reply) := Step(w.server, op, at);
      World(server,
            if reply.Tokens? then w.client.(access := Some(reply.session), cookie := Some(reply.session))
            else w.client)
  }

  /** What a sign-out asks the server for: the access token's session counts if the token is still accepted. */
  function SignOutOp(c: ClientState, recognised: bool): Op {
    Op.Logout(if recognised then c.access else None, c.cookie)
  }

  /** Signing out of every device from this browser, under its access token. */
  function EverywhereOp(w: World): Option<Op> {
    match w.client.access
    case None => None
    case Some(a) => if a < |w.server.sessions| then Some(Op.LogoutEverywhere(w.server.sessions[a].user)) else None
  }

  /** Every session of the user ends and the answer clears the cookie; without an accepted token nothing happens. */
  function DoSignOutEverywhere(w: World, at: int): World {
    match EverywhereOp(w)
    case None => w
    case Some(op) => World(Step(w.server, op, at).0, w.client.(cookie := None))
  }

  function Next(w: World, e: Event): World {
    var c := w.client;
    match e
    case Start(id, request) => w.(client := Begun(c, id, request))
    case Response(id, status) => w.(client := Responded(c, id, status))
    case Continue(id) => w.(client := Resumed(c, id))
    case RefreshNow => w.(client := JoinRefresh(c))
    case ServerAnswers(at) => Answer(w, at)
    case ServerThrottles =>
      if c.refreshing.Some? && c.refreshing.value.Requested? then
        w.(client := c.(refreshing := Some(Answered(c.refreshing.value.token, None))))
      else w
    case RequestLost =>
      if c.refreshing.Some? && c.refreshing.value.Requested? then w.(client := c.(refreshing := Some(Broken))) else w
    case AnswerLost =>
      if c.refreshing.Some? && c.refreshing.value.Answered? then w.(client := c.(refreshing := Some(Broken))) else w
    case FlightReturns => w.(client := Returned(c))
    case SignIn(op, at) => DoSignIn(w, op, at)
    case SignOut(recognised, at) =>
      World(Step(w.server, SignOutOp(c, recognised), at).0, c.(access := None, cookie := None))
    case SignOutEverywhere(at) => DoSignOutEverywhere(w, at)
    case Elsewhere(op, at) => w.(server := Step(w.server, op, at).0)
  }

  function After(w: World, events: seq<Event>): World
    decreases |events|
  {
    if events == [] then w
    else Next(After(w, events[..|events| - 1]), events[|events| - 1])
  }
}
