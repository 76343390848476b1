/** What the browser client can rely on, and what ends its session. */
module ClientLaws {
  import opened Prelude
  import Auth
  import opened Client
  import AuthLaws

  // ─── requests per call ───

  /** One request, one more if a 401 may be answered by a refresh, one more if a 429 may be repeated. */
  function Budget(r: Request): nat {
    1 + (if Refreshable(r) then 1 else 0) + (if r.repeatable then 1 else 0)
  }

  ghost predicate CallInBudget(call: ApiCall) {
    var r := call.request;
    && 1 <= call.sent <= Budget(r)
    && match call.phase
       case FirstSent => call.sent == 1
       case AwaitsRefresh => call.sent == 1 && Refreshable(r)
       case Refreshed(_) => call.sent == 1 && Refreshable(r)
       case RetrySent => call.sent == 2 && Refreshable(r)
       case BackingOff => r.repeatable && call.sent < Budget(r)
       case _ => true
  }

  /** Every call is within its budget, and whoever waits for a refresh waits for one that is under way. */
  ghost predicate CallsInOrder(c: ClientState) {
    forall id :: id in c.calls ==>
      CallInBudget(c.calls[id]) && (c.calls[id].phase.AwaitsRefresh? ==> c.refreshing.Some?)
  }

  /** One call changed, within its budget, and a refresh perhaps begun. */
  lemma OneCallChanged(c: ClientState, id: CallId, call: ApiCall, refreshing: Option<Flight>)
    requires CallsInOrder(c) && CallInBudget(call)
    requires (call.phase.AwaitsRefresh? || c.refreshing.Some? ==> refreshing.Some?)
    ensures CallsInOrder(c.(calls := c.calls[id := call], refreshing := refreshing))
  {}

  lemma SettledInBudget(call: ApiCall, status: Status)
    requires CallInBudget(call) && (call.phase.FirstSent? || call.phase.RetrySent? || call.phase.Refreshed?)
    ensures CallInBudget(Settle(call, status)) && !Settle(call, status).phase.AwaitsRefresh?
  {}

  lemma RespondedKeepsCalls(c: ClientState, id: CallId, status: Status)
    requires CallsInOrder(c)
    ensures CallsInOrder(Responded(c, id, status))
  {
    if id in c.calls {
      var call := c.calls[id];
      assert CallInBudget(call);
      hide CallsInOrder;
      match call.phase
      case FirstSent =>
        if status == Unauthorized && Refreshable(call.request) {
          OneCallChanged(c, id, call.(phase := AwaitsRefresh), JoinRefresh(c).refreshing);
        } else {
          SettledInBudget(call, status);
          OneCallChanged(c, id, Settle(call, status), c.refreshing);
        }
      case RetrySent =>
        SettledInBudget(call, status);
        OneCallChanged(c, id, Settle(call, status), c.refreshing);
      case LastSent => OneCallChanged(c, id, call.(phase := Finished(status)), c.refreshing);
      case _ =>
    }
  }

  lemma ResumedKeepsCalls(c: ClientState, id: CallId)
    requires CallsInOrder(c)
    ensures CallsInOrder(Resumed(c, id))
  {
    if id in c.calls {
      var call := c.calls[id];
      assert CallInBudget(call);
      hide CallsInOrder;
      match call.phase
      case Refreshed(renewed) =>
        SettledInBudget(call, Unauthorized);
        OneCallChanged(c, id, Resumed(c, id).calls[id], c.refreshing);
      case BackingOff => OneCallChanged(c, id, Resumed(c, id).calls[id], c.refreshing);
      case _ =>
    }
  }

  lemma ReturnedKeepsCalls(c: ClientState)
    requires CallsInOrder(c)
    ensures CallsInOrder(Returned(c))
  {}

  lemma NextKeepsCalls(w: World, e: Event)
    requires CallsInOrder(w.client)
    ensures CallsInOrder(Next(w, e).client)
  {
    if e.Response? {
      RespondedKeepsCalls(w.client, e.id, e.status);
    } else if e.FlightReturns? {
      ReturnedKeepsCalls(w.client);
    } else if e.Continue? {
      ResumedKeepsCalls(w.client, e.id);
    }
  }

  /** No call ever sends more than its budget, three requests at most, and none waits for a refresh nobody made. */
  lemma {:induction false} AtMostThreeRequests(w: World, events: seq<Event>)
    requires w.client.calls == map[]
    ensures CallsInOrder(After(w, events).client)
    decreases |events|
  {
    if events != [] {
      var n := |events| - 1;
      AtMostThreeRequests(w, events[..n]);
      NextKeepsCalls(After(w, events[..n]), events[n]);
    }
  }

  /**
   * One refresh serves every call that waits for it, after any run.  With
   * tokens, each is sent once more under the session just issued, which is now
   * the one held; without, each is done with its 401.
   */
  lemma WaitersShareTheRefresh(w: World, events: seq<Event>, id: CallId)
    requires w.client.calls == map[]
    requires var c := After(w, events).client;
             && id in c.calls && c.calls[id].phase.AwaitsRefresh?
             && !(c.refreshing.Some? && c.refreshing.value.Requested?)
    ensures var c, c' := After(w, events).client, After(w, events + [FlightReturns, Continue(id)]).client;
            var answered := c.refreshing.Some? && c.refreshing.value.Answered?;
            var issued := if answered then c.refreshing.value.issued else None;
            && c'.refreshing.None? && id in c'.calls
            && (issued.Some? ==>
                  && c'.access == c'.cookie == issued
                  && c'.calls[id] == ApiCall(c.calls[id].request, RetrySent, 2, issued))
            && (issued.None? ==>
                  c'.cookie == c.cookie && c'.calls[id].phase == Finished(Unauthorized) && c'.calls[id].sent == 1)
  {
    AtMostThreeRequests(w, events);
    AfterTwoMore(w, events, FlightReturns, Continue(id));
  }

  lemma AfterTwoMore(w: World, events: seq<Event>, first: Event, second: Event)
    ensures After(w, events + [first, second]) == Next(Next(After(w, events), first), second)
  {
    var once, twice := events + [first], events + [first, second];
    assert twice[..|twice| - 1] == once && once[..|once| - 1] == events;
  }

  // ─── the refresh token is never presented twice ───

  predicate Alive(st: Auth.State, i: Auth.SessionId) {
    i < |st.sessions| && st.sessions[i].revokedAt.None?
  }

  /** The token whose exchange the server has made and the browser does not know of yet. */
  function Exchanged(c: ClientState): Option<Auth.SessionId> {
    match c.refreshing
    case Some(Answered(token, Some(_))) => token
    case _ => None
  }

  /** The session of the refresh under way: the one presented, or the one issued for it. */
  predicate InFlight(c: ClientState, i: Auth.SessionId) {
    match c.refreshing
    case Some(Requested(token)) => token == Some(i)
    case Some(Answered(_, issued)) => issued == Some(i)
    case _ => false
  }

  /** The sessions whose tokens this browser may still present. */
  predicate Holds(c: ClientState, i: Auth.SessionId) {
    InFlight(c, i) || (c.cookie == Some(i) && Exchanged(c) != Some(i))
  }

  /** Every token the browser may present still works as far as revocation goes. */
  ghost predicate Safe(w: World) {
    && (forall i :: Holds(w.client, i) ==> Alive(w.server, i))
    && (Exchanged(w.client).Some? ==>
          Exchanged(w.client).value < |w.server.sessions| && !Alive(w.server, Exchanged(w.client).value))
    && (w.client.refreshing.Some? && w.client.refreshing.value.Answered? && w.client.refreshing.value.issued.Some?
        ==> Exchanged(w.client).Some?)
  }

  /** The guards under which a call ends a session that was live. */
  predicate Ends(st: Auth.State, op: Auth.Op, at: int, i: Auth.SessionId)
  {
    i < |st.sessions| &&
    var owner := st.sessions[i].user;
    match op
    case Register(_, _) => false
    case Login(_, _) => false
    case Refresh(None) => false
    case Refresh(Some(t)) =>
      t < |st.sessions| &&
      (if st.sessions[t].revokedAt.Some? then st.sessions[t].user == owner
       else t == i && at <= st.sessions[t].expiresAt && Auth.UserActive(st, owner))
    case Logout(session, token) => session == Some(i) || token == Some(i)
    case LogoutEverywhere(user) => user == owner
    case ResetPassword(user, codeAccepted, _) => user == owner && codeAccepted && user in st.users
    case ChangePassword(user, own, current, _) =>
      user == owner && own != i && user in st.users && st.users[user].password == Some(current)
    case SetAccess(user, blocked) => user == owner && blocked && user in st.users && !st.users[user].deleted
  }

  /** Exactly the calls that `Ends` names end a live session. */
  lemma EndsExactly(st: Auth.State, op: Auth.Op, at: int, i: Auth.SessionId)
    requires Alive(st, i)
    ensures Alive(Auth.Step(st, op, at).0, i) <==> !Ends(st, op, at, i)
  {}

  /**
   * What may happen without hurting this browser's session: anything but a call
   * elsewhere that ends a session it holds, a sign-out, here or of every device,
   * that ends the session of a refresh under way, and the loss of an answer that exchanged its cookie.
   */
  ghost predicate Harmless(w: World, e: Event) {
    var c := w.client;
    match e
    case Elsewhere(op, at) => forall i | Holds(c, i) :: !Ends(w.server, op, at, i)
    case SignOut(recognised, at) => forall i | InFlight(c, i) :: !Ends(w.server, SignOutOp(c, recognised), at, i)
    case SignOutEverywhere(at) =>
      EverywhereOp(w).Some? ==> forall i | InFlight(c, i) :: !Ends(w.server, EverywhereOp(w).value, at, i)
    case AnswerLost => Exchanged(c).None? || Exchanged(c) != c.cookie
    case _ => true
  }

  // One lemma a kind of event: whether the browser is still safe after it.

  /** The turns of the client's own event loop never add a token to what it holds. */
  lemma TurnsKeepSafe(w: World, e: Event)
    requires Safe(w)
    requires || e.Start? || e.Response? || e.Continue? || e.RefreshNow?
             || e.ServerThrottles? || e.RequestLost? || e.FlightReturns?
    ensures Safe(Next(w, e))
  {
    var c, c' := w.client, Next(w, e).client;
    assert Next(w, e).server == w.server;
    forall i | Holds(c', i)
      ensures Alive(w.server, i)
    {
      assert Holds(c, i);
    }
  }

  lemma AnswerKeepsSafe(w: World, at: int)
    requires Safe(w)
    ensures Safe(Answer(w, at))
  {
    var c := w.client;
    if c.refreshing.Some? && c.refreshing.value.Requested? && c.refreshing.value.token.Some? {
      var t := c.refreshing.value.token.value;
      assert InFlight(c, t) && Holds(c, t);
      var w' := Answer(w, at);
      forall i | Holds(w'.client, i)
        ensures Alive(w'.server, i)
      {
        if i != |w.server.sessions| {
          assert Holds(c, i);
        }
      }
    }
  }

  /** With a token that still works, the server never answers that it was reused. */
  lemma NoReuse(w: World, at: int)
    requires Safe(w) && w.client.refreshing.Some? && w.client.refreshing.value.Requested?
    ensures Auth.Step(w.server, Auth.Refresh(w.client.refreshing.value.token), at).1 != Auth.RefreshReused
  {
    var token := w.client.refreshing.value.token;
    if token.Some? {
      assert InFlight(w.client, token.value) && Holds(w.client, token.value);
    }
  }

  lemma SignInKeepsSafe(w: World, op: Auth.Op, at: int)
    requires Safe(w)
    ensures Safe(DoSignIn(w, op, at))
  {
    var w' := DoSignIn(w, op, at);
    forall i | Holds(w'.client, i)
      ensures Alive(w'.server, i)
    {
      if i != |w.server.sessions| {
        assert Holds(w.client, i);
      }
    }
  }

  lemma ElsewhereSafeIff(w: World, op: Auth.Op, at: int)
    requires Safe(w)
    ensures Safe(Next(w, Elsewhere(op, at))) <==> Harmless(w, Elsewhere(op, at))
  {
    var st' := Auth.Step(w.server, op, at).0;
    AuthLaws.StepOnlyRevokes(w.server, op, at);
    forall i | Holds(w.client, i)
      ensures Alive(st', i) <==> !Ends(w.server, op, at, i)
    {
      EndsExactly(w.server, op, at, i);
    }
  }

  lemma SignOutSafeIff(w: World, recognised: bool, at: int)
    requires Safe(w)
    ensures Safe(Next(w, SignOut(recognised, at))) <==> Harmless(w, SignOut(recognised, at))
  {
    var op := SignOutOp(w.client, recognised);
    var w' := Next(w, SignOut(recognised, at));
    AuthLaws.StepOnlyRevokes(w.server, op, at);
    forall i
      ensures Holds(w'.client, i) <==> InFlight(w.client, i)
    {}
    forall i | InFlight(w.client, i)
      ensures Alive(w'.server, i) <==> !Ends(w.server, op, at, i)
    {
      assert Holds(w.client, i);
      EndsExactly(w.server, op, at, i);
    }
  }

  lemma SignOutEverywhereSafeIff(w: World, at: int)
    requires Safe(w)
    ensures Safe(DoSignOutEverywhere(w, at)) <==> Harmless(w, SignOutEverywhere(at))
  {
    if EverywhereOp(w).Some? {
      var op := EverywhereOp(w).value;
      var w' := DoSignOutEverywhere(w, at);
      AuthLaws.StepOnlyRevokes(w.server, op, at);
      forall i
        ensures Holds(w'.client, i) <==> InFlight(w.client, i)
      {}
      forall i | InFlight(w.client, i)
        ensures Alive(w'.server, i) <==> !Ends(w.server, op, at, i)
      {
        assert Holds(w.client, i);
        EndsExactly(w.server, op, at, i);
      }
    }
  }

  lemma AnswerLostSafeIff(w: World)
    requires Safe(w)
    ensures Safe(Next(w, AnswerLost)) <==> Harmless(w, AnswerLost)
  {
    var c, c' := w.client, Next(w, AnswerLost).client;
    if Harmless(w, AnswerLost) {
      forall i | Holds(c', i)
        ensures Alive(w.server, i)
      {
        assert Holds(c, i);
      }
    } else {
      assert Holds(c', c.cookie.value);
    }
  }

  /** The browser stays safe over an event if and only if the event is harmless. */
  lemma StaysSafeIff(w: World, e: Event)
    requires Safe(w)
    ensures Safe(Next(w, e)) <==> Harmless(w, e)
  {
    match e
    case Elsewhere(op, at) => ElsewhereSafeIff(w, op, at);
    case SignOut(recognised, at) => SignOutSafeIff(w, recognised, at);
    case SignOutEverywhere(at) => SignOutEverywhereSafeIff(w, at);
    case AnswerLost => AnswerLostSafeIff(w);
    case ServerAnswers(at) => AnswerKeepsSafe(w, at);
    case SignIn(op, at) => SignInKeepsSafe(w, op, at);
    case _ => TurnsKeepSafe(w, e);
  }

  /** Every event of the run is harmless when it happens. */
  ghost predicate Undisturbed(w: World, events: seq<Event>)
    decreases |events|
  {
    events == [] ||
    var before := events[..|events| - 1];
    Undisturbed(w, before) && Harmless(After(w, before), events[|events| - 1])
  }

  lemma {:induction false} RunStaysSafe(w: World, events: seq<Event>)
    requires Safe(w) && Undisturbed(w, events)
    ensures Safe(After(w, events))
    decreases |events|
  {
    if events != [] {
      RunStaysSafe(w, events[..|events| - 1]);
      StaysSafeIff(After(w, events[..|events| - 1]), events[|events| - 1]);
    }
  }

  /**
   * From no cookie or one that still works, over any undisturbed run, however
   * many calls meet a 401 at once, no refresh of this browser is ever taken for
   * the reuse of a stolen token.
   */
  lemma NeverTakenForTheft(w: World, events: seq<Event>, at: int)
    requires w.client.refreshing.None? && (w.client.cookie.Some? ==> Alive(w.server, w.client.cookie.value))
    requires Undisturbed(w, events)
    ensures var w' := After(w, events);
            w'.client.refreshing.Some? && w'.client.refreshing.value.Requested? ==>
              Auth.Step(w'.server, Auth.Refresh(w'.client.refreshing.value.token), at).1 != Auth.RefreshReused
  {
    RunStaysSafe(w, events);
    var w' := After(w, events);
    if w'.client.refreshing.Some? && w'.client.refreshing.value.Requested? {
      NoReuse(w', at);
    }
  }

  // ─── and when it is not undisturbed ───

  /** A browser left with a revoked cookie and no refresh under way. */
  predicate HoldsDead(w: World, t: Auth.SessionId) {
    && w.client.refreshing.None? && w.client.cookie == Some(t)
    && t < |w.server.sessions| && !Alive(w.server, t)
  }

  /**
   * Its next refresh is taken for theft: it gets no tokens and every session
   * of its user ends, on every device.
   */
  lemma DeadCookieLooksStolen(w: World, t: Auth.SessionId, at: int)
    requires HoldsDead(w, t)
    ensures var w' := After(w, [RefreshNow, ServerAnswers(at)]);
            && w'.client.refreshing == Some(Answered(Some(t), None))
            && AuthLaws.NoneLive(w'.server, w.server.sessions[t].user)
  {
    AfterTwoMore(w, [], RefreshNow, ServerAnswers(at));
    assert [] + [RefreshNow, ServerAnswers(at)] == [RefreshNow, ServerAnswers(at)];
    DeadTokenAnswered(w, Next(w, RefreshNow), t, at);
  }

  lemma DeadTokenAnswered(w: World, asked: World, t: Auth.SessionId, at: int)
    requires HoldsDead(w, t) && asked == w.(client := JoinRefresh(w.client))
    ensures var w' := Answer(asked, at);
            && w'.client.refreshing == Some(Answered(Some(t), None))
            && AuthLaws.NoneLive(w'.server, w.server.sessions[t].user)
  {
    AuthLaws.RevokedTokenEndsSessions(w.server, t, at);
  }

  /** A lost answer to a refresh does that: the tokens it issued never arrive, the old one is spent. */
  lemma LostAnswerKillsCookie(w: World)
    requires Safe(w) && Exchanged(w.client).Some? && Exchanged(w.client) == w.client.cookie
    ensures HoldsDead(Next(Next(w, AnswerLost), FlightReturns), w.client.cookie.value)
  {}

  /** So does ending all of a user's sessions from another device. */
  lemma LogoutElsewhereKillsCookie(w: World, t: Auth.SessionId, at: int)
    requires Safe(w) && w.client.refreshing.None? && w.client.cookie == Some(t)
    ensures t < |w.server.sessions|
    ensures HoldsDead(Next(w, Elsewhere(Auth.LogoutEverywhere(w.server.sessions[t].user), at)), t)
  {
    assert Holds(w.client, t);
  }

  /**
   * Signing out everywhere and in again on one device is undone by any other
   * device that was signed in: its next refresh ends the new session too.
   */
  lemma LogoutEverywhereBackfires(w: World, t: Auth.SessionId, password: Auth.Password, out: int, back: int, later: int)
    requires Safe(w) && w.client.refreshing.None? && w.client.cookie == Some(t) && t < |w.server.sessions|
    requires var user := w.server.sessions[t].user;
             var gone := Next(w, Elsewhere(Auth.LogoutEverywhere(user), out));
             Auth.Step(gone.server, Auth.Login(user, password), back).1.Tokens?
    ensures var user := w.server.sessions[t].user;
            var gone := Next(w, Elsewhere(Auth.LogoutEverywhere(user), out));
            var anew := |gone.server.sessions|;
            var signedIn := Next(gone, Elsewhere(Auth.Login(user, password), back));
            var end := After(signedIn, [RefreshNow, ServerAnswers(later)]);
            Alive(signedIn.server, anew) && anew < |end.server.sessions| && !Alive(end.server, anew)
  {
    var user := w.server.sessions[t].user;
    LogoutElsewhereKillsCookie(w, t, out);
    var gone := Next(w, Elsewhere(Auth.LogoutEverywhere(user), out));
    var signedIn := Next(gone, Elsewhere(Auth.Login(user, password), back));
    AuthLaws.StepOnlyRevokes(gone.server, Auth.Login(user, password), back);
    DeadCookieLooksStolen(signedIn, t, later);
    SessionsRemain(signedIn, [RefreshNow, ServerAnswers(later)], |gone.server.sessions|);
  }

  lemma {:induction false} SessionsRemain(w: World, events: seq<Event>, i: Auth.SessionId)
    requires i < |w.server.sessions|
    ensures i < |After(w, events).server.sessions|
    ensures After(w, events).server.sessions[i].user == w.server.sessions[i].user
    decreases |events|
  {
    if events != [] {
      SessionsRemain(w, events[..|events| - 1], i);
      NextOnlyRevokes(After(w, events[..|events| - 1]), events[|events| - 1], i);
    }
  }

  lemma NextOnlyRevokes(w: World, e: Event, i: Auth.SessionId)
    requires i < |w.server.sessions|
    ensures i < |Next(w, e).server.sessions| && Next(w, e).server.sessions[i].user == w.server.sessions[i].user
  {
    match e
    case ServerAnswers(at) =>
      if w.client.refreshing.Some? && w.client.refreshing.value.Requested? {
        AuthLaws.StepOnlyRevokes(w.server, Auth.Refresh(w.client.refreshing.value.token), at);
      }
    case SignIn(op, at) => AuthLaws.StepOnlyRevokes(w.server, op, at);
    case SignOut(recognised, at) => AuthLaws.StepOnlyRevokes(w.server, SignOutOp(w.client, recognised), at);
    case SignOutEverywhere(at) =>
      if EverywhereOp(w).Some? {
        AuthLaws.StepOnlyRevokes(w.server, EverywhereOp(w).value, at);
      }
    case Elsewhere(op, at) => AuthLaws.StepOnlyRevokes(w.server, op, at);
    case _ =>
  }
}
