/**
 * The access-token check: a session's liveness is read from the tables at most
 * every ten seconds and remembered in between.
 */
module JwtStrategy {
  import opened Auth
  import opened AuthLaws

  const LIVE_TTL_MS: nat := 10_000
  const CACHE_LIMIT: nat := 5000

  /** What the strategy remembers of a session: whether it was live, and when it looked. */
  datatype Entry = Entry(ok: bool, at: int)

  type Cache = map<SessionId, Entry>

  /** The session of an access token is live in the tables. */
  predicate IsLive(st: State, sid: SessionId, now: int) {
    && sid < |st.sessions|
    && var s := st.sessions[sid];
       && s.revokedAt.None?
       && s.expiresAt > now
       && s.user in st.users && st.users[s.user].active && !st.users[s.user].deleted
  }

  predicate Fresh(cache: Cache, sid: SessionId, now: int) {
    sid in cache && now - cache[sid].at < LIVE_TTL_MS
  }

  /** Whether a token of this session is accepted. */
  predicate Accepts(st: State, cache: Cache, sid: SessionId, now: int) {
    if Fresh(cache, sid, now) then cache[sid].ok else IsLive(st, sid, now)
  }

  function CacheAfter(st: State, cache: Cache, sid: SessionId, now: int): Cache {
    if Fresh(cache, sid, now) then cache
    else
      var kept := if |cache| > CACHE_LIMIT then map[] else cache;
      kept[sid := Entry(IsLive(st, sid, now), now)]
  }

  class JwtStrategy {
    var live: map<SessionId, Entry>

    constructor ()
      ensures live == map[]
    {
      live := map[];
    }

    /** Accepts or refuses a token; `tables` is what a query would read at this moment. */
    method Validate(tables: State, sid: SessionId, now: int) returns (accepted: bool)
      modifies this
      ensures accepted == Accepts(tables, old(live), sid, now)
      ensures live == CacheAfter(tables, old(live), sid, now)
    {
      if sid in live && now - live[sid].at < LIVE_TTL_MS {
        return live[sid].ok;
      }
      var ok := IsLive(tables, sid, now);
      if |live| > CACHE_LIMIT {
        live := map[];
      }
      live := live[sid := Entry(ok, now)];
      return ok;
    }
  }

  // ─── runs of auth calls and token checks on one server ───

  datatype Event = Call(op: Op, at: int) | Check(sid: SessionId, at: int)

  datatype Server = Server(tables: State, cache: Cache)

  function ServerStep(sv: Server, e: Event): Server {
    match e
    case Call(op, at) => sv.(tables := Step(sv.tables, op, at).0)
    case Check(sid, at) => sv.(cache := CacheAfter(sv.tables, sv.cache, sid, at))
  }

  function ServerAfter(sv: Server, events: seq<Event>): Server
    decreases |events|
  {
    if events == [] then sv
    else ServerStep(ServerAfter(sv, events[..|events| - 1]), events[|events| - 1])
  }

  predicate ClockForward(events: seq<Event>) {
    forall i, j :: 0 <= i < j < |events| ==> events[i].at <= events[j].at
  }

  /** At the k-th moment of the run, the session was live in the tables at time `t`. */
  ghost predicate LiveThen(sv: Server, events: seq<Event>, k: nat, sid: SessionId, t: int) {
    k <= |events| && IsLive(ServerAfter(sv, events[..k]).tables, sid, t)
  }

  /** Everything remembered as live was live when it was looked up, at a check earlier in the run. */
  ghost predicate Backed(sv: Server, events: seq<Event>, sid: SessionId) {
    var cache := ServerAfter(sv, events).cache;
    sid in cache && cache[sid].ok ==>
      exists k: nat :: k < |events| && events[k].at == cache[sid].at && LiveThen(sv, events, k, sid, cache[sid].at)
  }

  lemma {:induction false} CacheIsBacked(sv: Server, events: seq<Event>, sid: SessionId)
    requires sv.cache == map[]
    ensures Backed(sv, events, sid)
    decreases |events|
  {
    if events != [] {
      var n := |events| - 1;
      var before := events[..n];
      CacheIsBacked(sv, before, sid);
      var was, now := ServerAfter(sv, before).cache, ServerAfter(sv, events).cache;
      if sid in now && now[sid].ok {
        if sid in was && now[sid] == was[sid] {
          var k: nat :| k < n && before[k].at == was[sid].at && LiveThen(sv, before, k, sid, was[sid].at);
          assert events[..k] == before[..k];
          assert LiveThen(sv, events, k, sid, now[sid].at);
        } else {
          assert LiveThen(sv, events, n, sid, events[n].at);
        }
      }
    }
  }

  /**
   * Bounded staleness.  An accepted token is backed by its session having been
   * live in the tables less than ten seconds before, at this moment or at an
   * earlier one of the run.
   */
  lemma AcceptedTokenWasLive(sv: Server, events: seq<Event>, sid: SessionId, now: int) returns (k: nat, t: int)
    requires sv.cache == map[]
    requires Accepts(ServerAfter(sv, events).tables, ServerAfter(sv, events).cache, sid, now)
    ensures LiveThen(sv, events, k, sid, t) && now - 10_000 < t
    ensures (k == |events| && t == now) || (k < |events| && t == events[k].at)
  {
    var end := ServerAfter(sv, events);
    if Fresh(end.cache, sid, now) {
      CacheIsBacked(sv, events, sid);
      t := end.cache[sid].at;
      k :| k < |events| && events[k].at == t && LiveThen(sv, events, k, sid, t);
    } else {
      k, t := |events|, now;
      assert events[..k] == events;
    }
  }

  /** The session exists and, if it is revoked, was revoked no earlier than `t`. */
  predicate NotRevokedBefore(st: State, sid: SessionId, t: int) {
    sid < |st.sessions| && (st.sessions[sid].revokedAt.Some? ==> t <= st.sessions[sid].revokedAt.value)
  }

  lemma StepRevokesLater(sv: Server, e: Event, sid: SessionId, t: int)
    requires NotRevokedBefore(sv.tables, sid, t) && t <= e.at
    ensures NotRevokedBefore(ServerStep(sv, e).tables, sid, t)
  {
    if e.Call? {
      StepOnlyRevokes(sv.tables, e.op, e.at);
    }
  }

  /** After the first `j` events, the session has not been revoked before `t`. */
  predicate Unrevoked(sv: Server, events: seq<Event>, j: nat, sid: SessionId, t: int) {
    j <= |events| && NotRevokedBefore(ServerAfter(sv, events[..j]).tables, sid, t)
  }

  lemma OneMoreEvent(sv: Server, events: seq<Event>, j: nat, sid: SessionId, t: int)
    requires j < |events| && t <= events[j].at
    requires Unrevoked(sv, events, j, sid, t)
    ensures Unrevoked(sv, events, j + 1, sid, t)
  {
    var longer := events[..j + 1];
    assert longer[..j] == events[..j];
    StepRevokesLater(ServerAfter(sv, events[..j]), events[j], sid, t);
  }

  /** From a moment at which the session was live, it can only have been revoked later. */
  lemma {:induction false} RevokedNotBefore(sv: Server, events: seq<Event>, k: nat, j: nat, sid: SessionId, t: int)
    requires k <= j <= |events| && forall i :: k <= i < |events| ==> t <= events[i].at
    requires Unrevoked(sv, events, k, sid, t)
    ensures Unrevoked(sv, events, j, sid, t)
    decreases j
  {
    if k < j {
      RevokedNotBefore(sv, events, k, j - 1, sid, t);
      OneMoreEvent(sv, events, j - 1, sid, t);
    }
  }

  lemma LiveIsUnrevoked(sv: Server, events: seq<Event>, k: nat, sid: SessionId, t: int)
    requires LiveThen(sv, events, k, sid, t)
    ensures Unrevoked(sv, events, k, sid, t)
  {}

  /**
   * A session is accepted for less than ten seconds after its revocation,
   * whichever call revoked it.
   */
  lemma RevocationIsFinal(sv: Server, events: seq<Event>, sid: SessionId, now: int)
    requires sv.cache == map[] && ClockForward(events) && (events != [] ==> events[|events| - 1].at <= now)
    requires sid < |ServerAfter(sv, events).tables.sessions|
    requires ServerAfter(sv, events).tables.sessions[sid].revokedAt.Some?
    ensures Accepts(ServerAfter(sv, events).tables, ServerAfter(sv, events).cache, sid, now) ==>
              now < ServerAfter(sv, events).tables.sessions[sid].revokedAt.value + 10_000
  {
    if Accepts(ServerAfter(sv, events).tables, ServerAfter(sv, events).cache, sid, now) {
      var k, t := AcceptedTokenWasLive(sv, events, sid, now);
      LiveIsUnrevoked(sv, events, k, sid, t);
      hide ServerAfter, Accepts, LiveThen, IsLive, Fresh;
      RevokedNotBefore(sv, events, k, |events|, sid, t);
      assert events[..|events|] == events;
    }
  }

  /** The cache never holds more than 5001 sessions. */
  lemma {:induction false} CacheStaysSmall(sv: Server, events: seq<Event>)
    requires sv.cache == map[]
    ensures |ServerAfter(sv, events).cache| <= 5001
    decreases |events|
  {
    if events != [] {
      var n := |events| - 1;
      CacheStaysSmall(sv, events[..n]);
      var before := ServerAfter(sv, events[..n]);
      if events[n].Check? {
        OneMoreKey(if |before.cache| > CACHE_LIMIT then map[] else before.cache, events[n].sid,
                   Entry(IsLive(before.tables, events[n].sid, events[n].at), events[n].at));
      }
    }
  }

  lemma OneMoreKey(m: Cache, sid: SessionId, e: Entry)
    ensures |m[sid := e]| <= |m| + 1
  {
    assert m[sid := e].Keys == m.Keys + {sid};
    assert |m.Keys + {sid}| <= |m.Keys| + 1;
  }
}
