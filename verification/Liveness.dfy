/** The other half of the liveness check: which tokens are accepted, told by the history of look-ups. */
module Liveness {
  import opened Prelude
  import opened Auth
  import opened AuthLaws
  import opened JwtStrategy

  /**
   * For each session the check at which it was last looked up: the first one,
   * and every one that comes ten seconds or more after the look-up before it.
   * Once more than 5000 are remembered, the next look-up starts afresh.
   */
  function LastLooks(events: seq<Event>): (looks: map<SessionId, nat>)
    ensures forall sid :: sid in looks ==>
              looks[sid] < |events| && events[looks[sid]].Check? && events[looks[sid]].sid == sid
    decreases |events|
  {
    if events == [] then map[]
    else
      var n := |events| - 1;
      var before := LastLooks(events[..n]);
      match events[n]
      case Call(_, _) => before
      case Check(sid, at) =>
        if sid in before && at - events[before[sid]].at < 10_000 then before
        else (if |before| > 5000 then map[] else before)[sid := n]
  }

  /** The session is remembered as it stood at its last look-up. */
  ghost predicate RememberedAsLooked(sv: Server, events: seq<Event>, sid: SessionId) {
    var cache, looks := ServerAfter(sv, events).cache, LastLooks(events);
    sid in looks ==>
      && sid in cache && cache[sid].at == events[looks[sid]].at
      && (cache[sid].ok <==> LiveThen(sv, events, looks[sid], sid, events[looks[sid]].at))
  }

  ghost predicate CacheIsHistory(sv: Server, events: seq<Event>) {
    && ServerAfter(sv, events).cache.Keys == LastLooks(events).Keys
    && forall sid :: sid in LastLooks(events) ==> RememberedAsLooked(sv, events, sid)
  }

  lemma SameMoment(sv: Server, events: seq<Event>, k: nat, sid: SessionId, t: int)
    requires events != [] && k < |events|
    ensures LiveThen(sv, events[..|events| - 1], k, sid, t) <==> LiveThen(sv, events, k, sid, t)
  {
    assert events[..|events| - 1][..k] == events[..k];
  }

  lemma KeepsRemembering(sv: Server, events: seq<Event>, sid: SessionId)
    requires events != [] && CacheIsHistory(sv, events[..|events| - 1])
    requires sid in LastLooks(events)
    requires ServerAfter(sv, events).cache.Keys == LastLooks(events).Keys
    ensures RememberedAsLooked(sv, events, sid)
  {
    hide IsLive;
    var n := |events| - 1;
    var before := events[..n];
    if LastLooks(events)[sid] < n {
      assert RememberedAsLooked(sv, before, sid);
      SameMoment(sv, events, LastLooks(events)[sid], sid, events[LastLooks(events)[sid]].at);
    }
  }

  lemma SameKeys(sv: Server, events: seq<Event>)
    requires events != [] && CacheIsHistory(sv, events[..|events| - 1])
    ensures ServerAfter(sv, events).cache.Keys == LastLooks(events).Keys
  {
    var n := |events| - 1;
    var cache, looks := ServerAfter(sv, events[..n]).cache, LastLooks(events[..n]);
    assert |cache| == |cache.Keys| && |looks| == |looks.Keys|;
    if events[n].Check? && events[n].sid in looks {
      assert RememberedAsLooked(sv, events[..n], events[n].sid);
    }
  }

  lemma {:induction false} CacheFollowsHistory(sv: Server, events: seq<Event>)
    requires sv.cache == map[]
    ensures CacheIsHistory(sv, events)
    decreases |events|
  {
    if events != [] {
      CacheFollowsHistory(sv, events[..|events| - 1]);
      SameKeys(sv, events);
      forall sid | sid in LastLooks(events)
        ensures RememberedAsLooked(sv, events, sid)
      {
        KeepsRemembering(sv, events, sid);
      }
    }
  }

  /**
   * A token is accepted if and only if its session was live at its last
   * look-up, when that is less than ten seconds ago, and otherwise if and only
   * if it is live now.
   */
  lemma AcceptedIff(sv: Server, events: seq<Event>, sid: SessionId, now: int)
    requires sv.cache == map[]
    ensures var end, looks := ServerAfter(sv, events), LastLooks(events);
            Accepts(end.tables, end.cache, sid, now) <==>
              if sid in looks && now - events[looks[sid]].at < 10_000
              then LiveThen(sv, events, looks[sid], sid, events[looks[sid]].at)
              else IsLive(end.tables, sid, now)
  {
    CacheFollowsHistory(sv, events);
    if sid in LastLooks(events) {
      assert RememberedAsLooked(sv, events, sid);
    }
  }

  /** The session works at time `t`: it exists, is neither revoked nor expired, and its user may log in. */
  predicate Works(st: State, sid: SessionId, t: int) {
    && sid < |st.sessions| && st.sessions[sid].revokedAt == None && t < st.sessions[sid].expiresAt
    && st.sessions[sid].user in st.users
    && st.users[st.sessions[sid].user].active && !st.users[st.sessions[sid].user].deleted
  }

  /** Event number `k` is a check of session `sid` made less than ten seconds before `now`. */
  predicate CheckedLately(events: seq<Event>, k: int, sid: SessionId, now: int) {
    0 <= k < |events| && events[k].Check? && events[k].sid == sid && now - events[k].at < 10_000
  }

  /**
   * A session that works is not turned away: its token is accepted if it works
   * now and worked at every check of it in the last ten seconds.
   */
  lemma WorkingSessionIsAccepted(sv: Server, events: seq<Event>, sid: SessionId, now: int)
    requires sv.cache == map[] && Works(ServerAfter(sv, events).tables, sid, now)
    requires forall k :: CheckedLately(events, k, sid, now) ==>
               Works(ServerAfter(sv, events[..k]).tables, sid, events[k].at)
    ensures Accepts(ServerAfter(sv, events).tables, ServerAfter(sv, events).cache, sid, now)
  {
    AcceptedIff(sv, events, sid, now);
  }

  /** And one that has not worked for ten seconds is: no check accepts a session that worked at no moment since. */
  lemma AcceptedSessionWorked(sv: Server, events: seq<Event>, sid: SessionId, now: int) returns (k: nat, t: int)
    requires sv.cache == map[]
    requires Accepts(ServerAfter(sv, events).tables, ServerAfter(sv, events).cache, sid, now)
    ensures k <= |events| && Works(ServerAfter(sv, events[..k]).tables, sid, t) && now - 10_000 < t
    ensures (k == |events| && t == now) || (k < |events| && t == events[k].at)
  {
    k, t := AcceptedTokenWasLive(sv, events, sid, now);
  }

  lemma {:induction false} ExpiryStays(sv: Server, events: seq<Event>, k: nat, j: nat, sid: SessionId)
    requires k <= j <= |events| && sid < |ServerAfter(sv, events[..k]).tables.sessions|
    ensures sid < |ServerAfter(sv, events[..j]).tables.sessions|
    ensures ServerAfter(sv, events[..j]).tables.sessions[sid].expiresAt
         == ServerAfter(sv, events[..k]).tables.sessions[sid].expiresAt
    decreases j
  {
    if k < j {
      ExpiryStays(sv, events, k, j - 1, sid);
      var longer := events[..j];
      assert longer[..j - 1] == events[..j - 1];
      if events[j - 1].Call? {
        StepOnlyRevokes(ServerAfter(sv, events[..j - 1]).tables, events[j - 1].op, events[j - 1].at);
      }
    }
  }

  /** No session is accepted ten seconds or more after it expired. */
  lemma ExpiryIsFinal(sv: Server, events: seq<Event>, sid: SessionId, now: int)
    requires sv.cache == map[] && Accepts(ServerAfter(sv, events).tables, ServerAfter(sv, events).cache, sid, now)
    ensures sid < |ServerAfter(sv, events).tables.sessions|
    ensures now < ServerAfter(sv, events).tables.sessions[sid].expiresAt + 10_000
  {
    var k, t := AcceptedSessionWorked(sv, events, sid, now);
    ExpiryStays(sv, events, k, |events|, sid);
    assert events[..|events|] == events;
  }
}
