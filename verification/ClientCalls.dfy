/** How a call of the client goes on, response by response, after any run. */
module ClientCalls {
  import opened Prelude
  import Auth
  import opened Client
  import opened ClientLaws

  lemma AfterOneMore(w: World, events: seq<Event>, e: Event)
    ensures After(w, events + [e]) == Next(After(w, events), e)
  {
    assert (events + [e])[..|events + [e]| - 1] == events;
  }

  lemma AfterBoth(w: World, first: seq<Event>, second: seq<Event>)
    ensures After(w, first + second) == After(After(w, first), second)
    decreases |second|
  {
    hide Next;
    if second == [] {
      assert first + second == first;
    } else {
      var n := |second| - 1;
      AfterBoth(w, first, second[..n]);
      assert (first + second)[..|first + second| - 1] == first + second[..n];
    }
  }

  // ─── the first response ───

  /** The run has brought the call `id` to the point where its first request is out. */
  predicate FirstIsOut(c: ClientState, id: CallId) {
    id in c.calls && c.calls[id].phase.FirstSent?
  }

  /**
   * The first response to a call.  A 401 makes an authenticated call outside
   * `/auth/` wait for a refresh: the one under way, or a new one with the
   * cookie as it is.  Any other 401 ends its call, and so does every response
   * but a 429 to a call that may be repeated, which pauses.
   */
  lemma FirstResponse(w: World, events: seq<Event>, id: CallId, status: Status)
    requires w.client.calls == map[] && FirstIsOut(After(w, events).client, id)
    ensures var c, c' := After(w, events).client, After(w, events + [Response(id, status)]).client;
            var was := c.calls[id];
            var renewable := was.request.auth && !was.request.toAuth;
            && was.sent == 1
            && c'.access == c.access && c'.cookie == c.cookie && c'.calls.Keys == c.calls.Keys
            && (forall other :: other in c.calls && other != id ==> c'.calls[other] == c.calls[other])
            && c'.calls[id].request == was.request && c'.calls[id].sent == 1
            && (status == Unauthorized && renewable ==>
                  && c'.calls[id].phase == AwaitsRefresh
                  && c'.refreshing == if c.refreshing.Some? then c.refreshing else Some(Requested(c.cookie)))
            && (!(status == Unauthorized && renewable) ==>
                  && c'.refreshing == c.refreshing
                  && c'.calls[id].phase ==
                     if status == RateLimited && was.request.repeatable then BackingOff else Finished(status))
  {
    AtMostThreeRequests(w, events);
    AfterOneMore(w, events, Response(id, status));
  }

  /** Until its refresh comes back, a waiting call stays as it is and a refresh is under way. */
  lemma {:induction false} WaitsForTheRefresh(w: World, between: seq<Event>, id: CallId)
    requires id in w.client.calls && w.client.calls[id].phase.AwaitsRefresh? && w.client.refreshing.Some?
    requires FlightReturns !in between
    ensures id in After(w, between).client.calls
    ensures After(w, between).client.calls[id] == w.client.calls[id] && After(w, between).client.refreshing.Some?
    decreases |between|
  {
    if between != [] {
      var n := |between| - 1;
      WaitsForTheRefresh(w, between[..n], id);
      assert between[n] in between;
      StaysWaiting(After(w, between[..n]), between[n], id);
    }
  }

  lemma StaysWaiting(w: World, e: Event, id: CallId)
    requires id in w.client.calls && w.client.calls[id].phase.AwaitsRefresh?
    requires w.client.refreshing.Some? && e != FlightReturns
    ensures id in Next(w, e).client.calls
    ensures Next(w, e).client.calls[id] == w.client.calls[id] && Next(w, e).client.refreshing.Some?
  {
    hide Auth.Step;
  }

  /**
   * A 401 to the first request of an authenticated call outside `/auth/` leads
   * to a refresh, and when that brings tokens, however late and whatever
   * happens meanwhile, to exactly one more request, under the new session.
   */
  lemma UnauthorizedIsRetried(w: World, events: seq<Event>, id: CallId, between: seq<Event>, s: Auth.SessionId)
    requires w.client.calls == map[] && FirstIsOut(After(w, events).client, id) && FlightReturns !in between
    requires var r := After(w, events).client.calls[id].request; r.auth && !r.toAuth
    requires var waiting := After(w, events + [Response(id, Unauthorized)] + between).client;
             && waiting.refreshing.Some? && waiting.refreshing.value.Answered?
             && waiting.refreshing.value.issued == Some(s)
    ensures var c' := After(w, events + [Response(id, Unauthorized)] + between + [FlightReturns, Continue(id)]).client;
            && id in c'.calls
            && c'.calls[id] == ApiCall(After(w, events).client.calls[id].request, RetrySent, 2, Some(s))
            && c'.access == c'.cookie == Some(s) && c'.refreshing.None?
  {
    var asked := events + [Response(id, Unauthorized)];
    var waited := asked + between;
    FirstResponse(w, events, id, Unauthorized);
    AfterBoth(w, asked, between);
    WaitsForTheRefresh(After(w, asked), between, id);
    WaitersShareTheRefresh(w, waited, id);
  }

  /** The token `t` can be exchanged at time `at`: unrevoked, not expired, and its user may log in. */
  predicate Exchangeable(st: Auth.State, t: Auth.SessionId, at: int) {
    && Alive(st, t) && at <= st.sessions[t].expiresAt
    && st.sessions[t].user in st.users && st.users[st.sessions[t].user].active
  }

  /** The server's answer to the refresh on its way: a new session for one that works, otherwise a refusal. */
  lemma ServerRenews(w: World, t: Auth.SessionId, at: int)
    requires w.client.refreshing == Some(Requested(Some(t)))
    ensures var w' := Next(w, ServerAnswers(at));
            var n := |w.server.sessions|;
            if Exchangeable(w.server, t, at) then
              && w'.client == w.client.(refreshing := Some(Answered(Some(t), Some(n))))
              && |w'.server.sessions| == n + 1 && !Alive(w'.server, t)
              && w'.server.sessions[n]
                 == Auth.Session(w.server.sessions[t].user, at + w.server.ttl, None, w.server.sessions[t].chain)
            else w'.client == w.client.(refreshing := Some(Answered(Some(t), None)))
  {}

  /**
   * From an expired access token to a working one: while the refresh token
   * works, a 401 to the first request of a call ends in one more request under
   * a new live session of the same user, which the browser then holds.
   */
  lemma ExpiredTokenIsRenewed(w: World, events: seq<Event>, id: CallId, between: seq<Event>, t: Auth.SessionId, at: int)
    requires w.client.calls == map[] && FirstIsOut(After(w, events).client, id) && FlightReturns !in between
    requires var r := After(w, events).client.calls[id].request; r.auth && !r.toAuth
    requires var waiting := After(w, events + [Response(id, Unauthorized)] + between);
             waiting.client.refreshing == Some(Requested(Some(t))) && Exchangeable(waiting.server, t, at)
    ensures var was := After(w, events + [Response(id, Unauthorized)] + between).server;
            var w' := After(w, events + [Response(id, Unauthorized)] + between
                               + [ServerAnswers(at), FlightReturns, Continue(id)]);
            var n := |was.sessions|;
            && id in w'.client.calls
            && w'.client.calls[id] == ApiCall(After(w, events).client.calls[id].request, RetrySent, 2, Some(n))
            && w'.client.access == w'.client.cookie == Some(n)
            && Alive(w'.server, n) && w'.server.sessions[n].user == was.sessions[t].user && !Alive(w'.server, t)
  {
    var asked := events + [Response(id, Unauthorized)];
    var longer := between + [ServerAnswers(at)];
    var n := |After(w, asked + between).server.sessions|;
    assert asked + longer == asked + between + [ServerAnswers(at)];
    AfterOneMore(w, asked + between, ServerAnswers(at));
    ServerRenews(After(w, asked + between), t, at);
    UnauthorizedIsRetried(w, events, id, longer, n);
    AfterTwoMore(w, asked + longer, FlightReturns, Continue(id));
    assert asked + longer + [FlightReturns, Continue(id)]
        == asked + between + [ServerAnswers(at), FlightReturns, Continue(id)];
  }

  /** A refusal comes back to a call that waits for it. */
  lemma RefusalComesBack(w: World, id: CallId)
    requires id in w.client.calls && w.client.calls[id].phase.AwaitsRefresh?
    requires w.client.refreshing.Some? && w.client.refreshing.value.Answered?
    requires w.client.refreshing.value.issued == None
    ensures var c' := Next(Next(w, FlightReturns), Continue(id)).client;
            && id in c'.calls && c'.calls[id].phase == Finished(Unauthorized)
            && c'.calls[id].sent == w.client.calls[id].sent
            && c'.access == None && c'.cookie == w.client.cookie && c'.refreshing.None?
  {}

  /** And when the refresh token does not work, the call ends with its 401 and the access token is dropped. */
  lemma DeadTokenEndsTheCall(w: World, events: seq<Event>, id: CallId, between: seq<Event>, t: Auth.SessionId, at: int)
    requires w.client.calls == map[] && FirstIsOut(After(w, events).client, id) && FlightReturns !in between
    requires var r := After(w, events).client.calls[id].request; r.auth && !r.toAuth
    requires var waiting := After(w, events + [Response(id, Unauthorized)] + between);
             waiting.client.refreshing == Some(Requested(Some(t))) && !Exchangeable(waiting.server, t, at)
    ensures var was := After(w, events + [Response(id, Unauthorized)] + between).client;
            var c' := After(w, events + [Response(id, Unauthorized)] + between
                               + [ServerAnswers(at), FlightReturns, Continue(id)]).client;
            && id in c'.calls && c'.calls[id].phase == Finished(Unauthorized) && c'.calls[id].sent == 1
            && c'.access == None && c'.cookie == was.cookie && c'.refreshing.None?
  {
    var asked := events + [Response(id, Unauthorized)];
    var waited := asked + between + [ServerAnswers(at)];
    FirstResponse(w, events, id, Unauthorized);
    AfterBoth(w, asked, between);
    WaitsForTheRefresh(After(w, asked), between, id);
    AfterOneMore(w, asked + between, ServerAnswers(at));
    ServerRenews(After(w, asked + between), t, at);
    AfterTwoMore(w, waited, FlightReturns, Continue(id));
    hide Next;
    RefusalComesBack(After(w, waited), id);
    assert waited + [FlightReturns, Continue(id)]
        == asked + between + [ServerAnswers(at), FlightReturns, Continue(id)];
  }

  // ─── later responses ───

  lemma RetryAnswered(w: World, id: CallId, status: Status)
    requires id in w.client.calls && w.client.calls[id].phase.RetrySent?
    ensures Next(w, Response(id, status)).client == w.client.(calls := w.client.calls[id := w.client.calls[id].(phase :=
              if status == RateLimited && w.client.calls[id].request.repeatable then BackingOff else Finished(status))])
  {}

  /** The response to the retry: a 429 pauses a call that may be repeated, anything else ends it, a second 401 too. */
  lemma RetryResponse(w: World, events: seq<Event>, id: CallId, status: Status)
    requires var c := After(w, events).client; id in c.calls && c.calls[id].phase.RetrySent?
    ensures var c, c' := After(w, events).client, After(w, events + [Response(id, status)]).client;
            c' == c.(calls := c.calls[id := c.calls[id].(phase :=
              if status == RateLimited && c.calls[id].request.repeatable then BackingOff else Finished(status))])
  {
    AfterOneMore(w, events, Response(id, status));
    hide Next, After;
    RetryAnswered(After(w, events), id, status);
  }

  /** After its pause a call sends exactly one more request, under the access token of that moment, and then ends. */
  lemma PausedCallIsRepeatedOnce(w: World, events: seq<Event>, id: CallId, between: seq<Event>, status: Status)
    requires var c := After(w, events).client; id in c.calls && c.calls[id].phase.BackingOff?
    requires Continue(id) !in between && (forall s :: Response(id, s) !in between)
    ensures var c := After(w, events).client;
            var sent := After(w, events + [Continue(id)]).client;
            && id in sent.calls
            && sent.calls[id].phase == LastSent && sent.calls[id].sent == c.calls[id].sent + 1
            && sent.calls[id].request == c.calls[id].request
            && sent.calls[id].bearer == if c.calls[id].request.auth then c.access else None
    ensures var sent := After(w, events + [Continue(id)]).client;
            var done := After(w, events + [Continue(id)] + between + [Response(id, status)]).client;
            id in done.calls && done.calls[id] == sent.calls[id].(phase := Finished(status))
  {
    var resumed := events + [Continue(id)];
    AfterOneMore(w, events, Continue(id));
    AfterBoth(w, resumed, between);
    StaysSent(After(w, resumed), between, id);
    AfterOneMore(w, resumed + between, Response(id, status));
  }

  lemma {:induction false} StaysSent(w: World, between: seq<Event>, id: CallId)
    requires id in w.client.calls && w.client.calls[id].phase.LastSent?
    requires Continue(id) !in between && (forall s :: Response(id, s) !in between)
    ensures id in After(w, between).client.calls && After(w, between).client.calls[id] == w.client.calls[id]
    decreases |between|
  {
    if between != [] {
      var n := |between| - 1;
      forall s
        ensures Response(id, s) !in between[..n]
      {}
      StaysSent(w, between[..n], id);
      assert between[n] in between;
      OthersLeaveSent(After(w, between[..n]), between[n], id);
    }
  }

  lemma OthersLeaveSent(w: World, e: Event, id: CallId)
    requires id in w.client.calls && w.client.calls[id].phase.LastSent?
    requires e != Continue(id) && !(e.Response? && e.id == id)
    ensures id in Next(w, e).client.calls && Next(w, e).client.calls[id] == w.client.calls[id]
  {
    hide Auth.Step;
  }

  /** A finished call stays finished. */
  lemma FinishedStays(w: World, e: Event, id: CallId)
    requires id in w.client.calls && w.client.calls[id].phase.Finished?
    ensures id in Next(w, e).client.calls && Next(w, e).client.calls[id] == w.client.calls[id]
  {
    hide Auth.Step;
  }

  // ─── the first request, and what the browser holds ───

  /** A call sends its first request at once, under the access token if it is an authenticated one. */
  lemma CallIsSentAtOnce(w: World, events: seq<Event>, id: CallId, r: Request)
    requires id !in After(w, events).client.calls
    ensures var c, c' := After(w, events).client, After(w, events + [Start(id, r)]).client;
            c' == c.(calls := c.calls[id := ApiCall(r, FirstSent, 1, if r.auth then c.access else None)])
  {
    AfterOneMore(w, events, Start(id, r));
    hide After;
  }

  /** What a refresh does to what is held: tokens replace it, a refusal drops the access token, a failure nothing. */
  lemma RefreshOutcomes(w: World, events: seq<Event>)
    requires var f := After(w, events).client.refreshing; f.Some? && !f.value.Requested?
    ensures var c, c' := After(w, events).client, After(w, events + [FlightReturns]).client;
            && c'.refreshing.None?
            && match c.refreshing.value
               case Answered(_, Some(s)) => c'.access == Some(s) && c'.cookie == Some(s)
               case Answered(_, None) => c'.access == None && c'.cookie == c.cookie
               case _ => c'.access == c.access && c'.cookie == c.cookie
  {
    AfterOneMore(w, events, FlightReturns);
    hide After;
  }

  /** A sign-in that gets tokens is what the browser holds, and it works; one that does not changes nothing it holds. */
  lemma SignInIsHeld(w: World, events: seq<Event>, user: Auth.UserId, password: Auth.Password, at: int)
    ensures var before, after := After(w, events), After(w, events + [SignIn(Auth.Login(user, password), at)]);
            var reply := Auth.Step(before.server, Auth.Login(user, password), at).1;
            && (reply.Tokens? ==>
                  && after.client.access == after.client.cookie == Some(reply.session)
                  && Alive(after.server, reply.session) && after.server.sessions[reply.session].user == user)
            && (!reply.Tokens? ==> after.client == before.client)
  {
    AfterOneMore(w, events, SignIn(Auth.Login(user, password), at));
    hide After;
  }

  /** Signing out leaves the browser with nothing, and ends the sessions of its cookie and its accepted access token. */
  lemma SignOutForgets(w: World, events: seq<Event>, recognised: bool, at: int)
    ensures var before, after := After(w, events), After(w, events + [SignOut(recognised, at)]);
            && after.client == before.client.(access := None, cookie := None)
            && (before.client.cookie.Some? ==> !Alive(after.server, before.client.cookie.value))
            && (recognised && before.client.access.Some? ==> !Alive(after.server, before.client.access.value))
  {
    AfterOneMore(w, events, SignOut(recognised, at));
    hide After;
  }
}
