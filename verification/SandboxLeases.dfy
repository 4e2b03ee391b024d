/** The lease table of the remote sandbox server: one method for each critical section, and
    the state each leaves behind (pkg/harnessruntime/http_remote_sandbox_server.go). */
module SandboxLeases {
  import opened Wrappers

  /** Sessions are told apart by the order of their creation. */
  type Session = nat

  /** Times are instants; 0 is Go's zero time. */
  datatype Lease = Lease(session: Session, createdAt: int, lastTouched: int)

  datatype Table = Table(sessions: map<string, Lease>, evicted: nat, rejected: nat, closed: bool)

  /** `maxActive` and `idleTTL` switch their limit off when they are not positive. */
  datatype Config = Config(maxActive: int, idleTTL: int)

  predicate Full(t: Table, c: Config) {
    c.maxActive > 0 && |t.sessions| >= c.maxActive
  }

  function Touched(l: Lease): int {
    if l.lastTouched == 0 then l.createdAt else l.lastTouched
  }

  predicate Expired(l: Lease, now: int, c: Config) {
    c.idleTTL > 0 && Touched(l) != 0 && now - Touched(l) >= c.idleTTL
  }

  function ExpiredIDs(t: Table, now: int, c: Config): set<string> {
    set id | id in t.sessions && Expired(t.sessions[id], now, c)
  }

  function SessionsOf(sessions: map<string, Lease>, ids: set<string>): set<Session> {
    set id | id in ids && id in sessions :: sessions[id].session
  }

  function Prechecked(t: Table, c: Config): Table {
    if Full(t, c) then t.(rejected := t.rejected + 1) else t
  }

  function Inserted(t: Table, c: Config, leaseID: string, session: Session, now: int): Table {
    if Full(t, c) then t.(rejected := t.rejected + 1)
    else t.(sessions := t.sessions[leaseID := Lease(session, now, now)])
  }

  function TouchedAt(t: Table, leaseID: string, now: int): Table {
    if leaseID in t.sessions then t.(sessions := t.sessions[leaseID := t.sessions[leaseID].(lastTouched := now)]) else t
  }

  function Removed(t: Table, leaseID: string): Table {
    t.(sessions := t.sessions - {leaseID})
  }

  function Swept(t: Table, c: Config, now: int): Table {
    var expired := ExpiredIDs(t, now, c);
    t.(sessions := t.sessions - expired, evicted := t.evicted + |expired|)
  }

  function Closed(t: Table): Table {
    if t.closed then t else t.(sessions := map[], closed := true)
  }

  class HTTPRemoteSandboxServer {
    const config: Config
    var sessions: map<string, Lease>
    var evictedLeases: nat
    var rejectedLeases: nat
    var closed: bool

    constructor (config: Config)
      ensures this.config == config && State() == Table(map[], 0, 0, false)
    {
      this.config := config;
      sessions := map[];
      evictedLeases, rejectedLeases, closed := 0, 0, false;
    }

    ghost function State(): Table
      reads this
    {
      Table(sessions, evictedLeases, rejectedLeases, closed)
    }

    /** The first look at the capacity, before a session is created. */
    method Precheck() returns (full: bool)
      modifies this
      ensures full == Full(old(State()), config) && State() == Prechecked(old(State()), config)
      ensures full == (config.maxActive > 0 && |old(sessions)| >= config.maxActive)
      ensures sessions == old(sessions) && rejectedLeases == old(rejectedLeases) + if full then 1 else 0
    {
      if config.maxActive > 0 {
        var active := |sessions|;
        if active >= config.maxActive {
          rejectedLeases := rejectedLeases + 1;
        }
        return active >= config.maxActive;
      }
      return false;
    }

    /** The second look, under the lock, once the session exists; a refused session is closed by
        the caller. */
    method InsertLease(leaseID: string, session: Session, now: int) returns (inserted: bool)
      modifies this
      ensures inserted == !Full(old(State()), config)
      ensures State() == Inserted(old(State()), config, leaseID, session, now)
    {
      if config.maxActive > 0 && |sessions| >= config.maxActive {
        rejectedLeases := rejectedLeases + 1;
        return false;
      }
      sessions := sessions[leaseID := Lease(session, now, now)];
      return true;
    }

    method LoadLease(leaseID: string, touch: bool, now: int) returns (session: Option<Session>)
      modifies this
      ensures session == if leaseID in old(sessions) then Some(old(sessions)[leaseID].session) else None
      ensures State() == if touch then TouchedAt(old(State()), leaseID, now) else old(State())
    {
      if leaseID !in sessions {
        return None;
      }
      if touch {
        sessions := sessions[leaseID := sessions[leaseID].(lastTouched := now)];
      }
      return Some(sessions[leaseID].session);
    }

    /** The locked part of a release; the caller closes the session returned. */
    method TakeLease(leaseID: string) returns (session: Option<Session>)
      modifies this
      ensures session == if leaseID in old(sessions) then Some(old(sessions)[leaseID].session) else None
      ensures State() == Removed(old(State()), leaseID)
    {
      if leaseID !in sessions {
        assert sessions - {leaseID} == sessions;
        return None;
      }
      session := Some(sessions[leaseID].session);
      sessions := sessions - {leaseID};
    }

    /** The body of the sweep's loop. */
    method TakeIfExpired(leaseID: string, now: int) returns (session: Option<Session>)
      requires leaseID in sessions
      modifies this
      ensures session ==
        if Expired(old(sessions)[leaseID], now, config) then Some(old(sessions)[leaseID].session) else None
      ensures State() == if session == None then old(State()) else
        old(State()).(sessions := old(sessions) - {leaseID}, evicted := old(evictedLeases) + 1)
    {
      if !Expired(sessions[leaseID], now, config) {
        return None;
      }
      session := Some(sessions[leaseID].session);
      sessions := sessions - {leaseID};
      evictedLeases := evictedLeases + 1;
    }

    /** The locked part of a sweep, in whatever order the map is walked; the caller closes the
        sessions returned. */
    method TakeExpired(now: int) returns (expired: seq<Session>)
      modifies this
      ensures State() == Swept(old(State()), config, now)
      ensures |expired| == |ExpiredIDs(old(State()), now, config)|
      ensures forall s :: s in expired <==> s in SessionsOf(old(sessions), ExpiredIDs(old(State()), now, config))
    {
      hide Expired, PartlySwept, Gathers, SessionsOf, Swept;
      expired := [];
      ghost var before, out := State(), ExpiredIDs(State(), now, config);
      if config.idleTTL <= 0 {
        NothingExpires(before, now, config);
        return;
      }
      var todo := sessions.Keys;
      ghost var gone: set<string> := {};
      SweepStarts(before, out);
      while todo != {}
        invariant SweptSoFar(before, out, State(), todo, gone, expired)
        decreases |todo|
      {
        hide SweptSoFar;
        var id :| id in todo;
        StillThere(before, out, State(), todo, gone, expired, id);
        SweepOne(before, out, State(), todo, gone, expired, id);
        todo := todo - {id};
        var taken := TakeIfExpired(id, now);
        if taken.Some? {
          expired := expired + [taken.value];
          gone := gone + {id};
        }
      }
      AllWalked(before, out, gone);
      SweepEnds(before, now, config, expired);
    }

    /** The locked part of a shutdown; only the first caller gets the sessions to close. */
    method TakeAll() returns (taken: map<string, Lease>)
      modifies this
      ensures taken == if old(closed) then map[] else old(sessions)
      ensures State() == Closed(old(State()))
    {
      if closed {
        return map[];
      }
      closed := true;
      taken := sessions;
      sessions := map[];
    }
  }

  /** A shutdown empties the table once: a second one takes nothing, not even a lease inserted in
      between. */
  lemma ShutdownIsOnce(t: Table, c: Config, leaseID: string, session: Session, now: int)
    ensures var down := Closed(t);
      && down.closed && (!t.closed ==> down.sessions == map[]) && (t.closed ==> down == t)
      && Closed(Inserted(down, c, leaseID, session, now)) == Inserted(down, c, leaseID, session, now)
  {
  }

  // ---- using the capacity ------------------------------------------------------------------

  /** The table after inserting leases under these IDs, each with a session of its own. */
  function InsertAll(t: Table, c: Config, ids: seq<string>, session: Session, now: int): Table
    decreases |ids|
  {
    if ids == [] then t else InsertAll(Inserted(t, c, ids[0], session, now), c, ids[1..], session + 1, now)
  }

  /** Exactly as many leases as the limit allows can be had, every one of them without a limit, and
      those too many are counted as rejected. */
  lemma {:induction false} CapacityCanBeUsed(t: Table, c: Config, ids: seq<string>, session: Session, now: int)
    requires forall i, j | 0 <= i < j < |ids| :: ids[i] != ids[j]
    requires forall i | 0 <= i < |ids| :: ids[i] !in t.sessions
    requires c.maxActive > 0 ==> |t.sessions| <= c.maxActive
    ensures var after := InsertAll(t, c, ids, session, now);
      && |after.sessions| == (if c.maxActive > 0 && |t.sessions| + |ids| > c.maxActive then c.maxActive
                              else |t.sessions| + |ids|)
      && after.rejected == t.rejected + |t.sessions| + |ids| - |after.sessions|
    decreases |ids|
  {
    if ids != [] {
      var next := Inserted(t, c, ids[0], session, now);
      assert t.sessions[ids[0] := Lease(session, now, now)].Keys == t.sessions.Keys + {ids[0]};
      assert forall i | 0 <= i < |ids| - 1 :: ids[1..][i] == ids[i + 1];
      CapacityCanBeUsed(next, c, ids[1..], session + 1, now);
    }
  }

  // ---- the sweep, one lease at a time ------------------------------------------------------

  function PartlySwept(t: Table, gone: set<string>): Table {
    t.(sessions := t.sessions - gone, evicted := t.evicted + |gone|)
  }

  ghost predicate Gathers(sessions: map<string, Lease>, ids: set<string>, out: seq<Session>) {
    |out| == |ids| && forall s :: s in out <==> s in SessionsOf(sessions, ids)
  }

  /** Of the leases to evict, those visited are gone, and those in `todo` are still there. */
  predicate Walked(t: Table, out: set<string>, todo: set<string>, gone: set<string>) {
    todo <= t.sessions.Keys && gone == out - todo
  }

  /** The table with the leases in `gone` taken out, their sessions in `expired`. */
  ghost predicate SweptSoFar(t: Table, out: set<string>, now: Table, todo: set<string>, gone: set<string>,
                             expired: seq<Session>)
  {
    Walked(t, out, todo, gone) && now == PartlySwept(t, gone) && Gathers(t.sessions, gone, expired)
  }

  lemma SweepStarts(t: Table, out: set<string>)
    requires out <= t.sessions.Keys
    ensures SweptSoFar(t, out, t, t.sessions.Keys, {}, [])
  {
    assert t.sessions - {} == t.sessions;
  }

  lemma StillThere(t: Table, out: set<string>, now: Table, todo: set<string>, gone: set<string>,
                   expired: seq<Session>, id: string)
    requires SweptSoFar(t, out, now, todo, gone, expired) && id in todo
    ensures id in t.sessions && id in now.sessions && now.sessions[id] == t.sessions[id]
  {
    hide Gathers;
  }

  lemma AllWalked(t: Table, out: set<string>, gone: set<string>)
    requires Walked(t, out, {}, gone)
    ensures gone == out
  {
  }

  /** One round of the loop, whether or not the lease has expired. */
  lemma SweepOne(t: Table, out: set<string>, now: Table, todo: set<string>, gone: set<string>,
                 expired: seq<Session>, id: string)
    requires SweptSoFar(t, out, now, todo, gone, expired) && id in todo && id in t.sessions
    ensures id !in out ==> SweptSoFar(t, out, now, todo - {id}, gone, expired)
    ensures id in out ==>
              SweptSoFar(t, out, Removed(now, id).(evicted := now.evicted + 1), todo - {id}, gone + {id},
                expired + [t.sessions[id].session])
  {
    hide Gathers;
    assert gone + {id} == out - (todo - {id}) || id !in out;
    if id in out {
      assert (t.sessions - gone) - {id} == t.sessions - (gone + {id});
      GathersOne(t.sessions, gone, expired, id);
    }
  }

  lemma GathersOne(sessions: map<string, Lease>, gone: set<string>, out: seq<Session>, id: string)
    requires id in sessions && id !in gone && Gathers(sessions, gone, out)
    ensures Gathers(sessions, gone + {id}, out + [sessions[id].session])
  {
    assert SessionsOf(sessions, gone + {id}) == SessionsOf(sessions, gone) + {sessions[id].session};
  }

  lemma SweepEnds(t: Table, now: int, c: Config, out: seq<Session>)
    requires Gathers(t.sessions, ExpiredIDs(t, now, c), out)
    ensures PartlySwept(t, ExpiredIDs(t, now, c)) == Swept(t, c, now)
    ensures |out| == |ExpiredIDs(t, now, c)|
    ensures forall s :: s in out <==> s in SessionsOf(t.sessions, ExpiredIDs(t, now, c))
  {
    hide Expired;
  }

  lemma NothingExpires(t: Table, now: int, c: Config)
    requires c.idleTTL <= 0
    ensures ExpiredIDs(t, now, c) == {} && Swept(t, c, now) == t && SessionsOf(t.sessions, {}) == {}
  {
    assert t.sessions - {} == t.sessions;
  }
}
