/** Acquires, releases, sweeps and shutdown racing on the lease table: each critical section is
    one step, and sessions are created and closed outside the lock
    (pkg/harnessruntime/http_remote_sandbox_server.go). */
module LeaseProtocol {
  import opened SandboxLeases
  import opened Sets

  /** Where an acquire stands: past the first look, or holding a session it just created. */
  datatype Phase = Admitted | Holding(session: Session, now: int)

  /** `closing` holds the sessions some caller has taken off the table and still has to close;
      `closed` counts the closes; `created` and `evicted` remember the past. */
  datatype System = System(
    table: Table, acquirers: map<nat, Phase>, closing: set<Session>, closed: multiset<Session>,
    created: set<Session>, evicted: set<Session>)

  const START := System(Table(map[], 0, 0, false), map[], {}, multiset{}, {}, {})

  datatype Step =
    | Arrive(a: nat)
    | Create(a: nat, session: Session, now: int)
    | CreateFails(a: nat)
    | Insert(a: nat, leaseID: string)
    | Touch(leaseID: string, now: int)
    | Release(leaseID: string)
    | Sweep(now: int)
    | Shutdown
    | FinishClose(session: Session)

  predicate Enabled(s: System, step: Step) {
    match step
    case Arrive(a) => a !in s.acquirers
    case Create(a, session, _) => a in s.acquirers && s.acquirers[a].Admitted? && session !in s.created
    case CreateFails(a) => a in s.acquirers && s.acquirers[a].Admitted?
    case Insert(a, _) => a in s.acquirers && s.acquirers[a].Holding?
    case FinishClose(session) => session in s.closing
    case _ => true
  }

  /** The leases `ids` taken off the table by someone who will close their sessions. */
  function Taken(s: System, table: Table, ids: set<string>): System {
    s.(table := table, closing := s.closing + SessionsOf(s.table.sessions, ids))
  }

  function Next(s: System, c: Config, step: Step): System
    requires Enabled(s, step)
  {
    match step
    case Arrive(a) =>
      s.(table := Prechecked(s.table, c),
         acquirers := if Full(s.table, c) then s.acquirers else s.acquirers[a := Admitted])
    case Create(a, session, now) =>
      s.(acquirers := s.acquirers[a := Holding(session, now)], created := s.created + {session})
    case CreateFails(a) => s.(acquirers := s.acquirers - {a})
    case Insert(a, leaseID) =>
      var held := s.acquirers[a];
      s.(table := Inserted(s.table, c, leaseID, held.session, held.now), acquirers := s.acquirers - {a},
         closing := if Full(s.table, c) then s.closing + {held.session} else s.closing)
    case Touch(leaseID, now) => s.(table := TouchedAt(s.table, leaseID, now))
    case Release(leaseID) => Taken(s, Removed(s.table, leaseID), {leaseID})
    case Sweep(now) =>
      var expired := ExpiredIDs(s.table, now, c);
      Taken(s, Swept(s.table, c, now), expired).(evicted := s.evicted + SessionsOf(s.table.sessions, expired))
    case Shutdown => Taken(s, Closed(s.table), if s.table.closed then {} else s.table.sessions.Keys)
    case FinishClose(session) => s.(closing := s.closing - {session}, closed := s.closed + multiset{session})
  }

  /** An acquire goes on from its first look exactly when the table has room. */
  lemma ArriveNeedsRoom(s: System, c: Config, a: nat)
    requires Enabled(s, Arrive(a))
    ensures var after := Next(s, c, Arrive(a));
      && (a in after.acquirers <==> c.maxActive <= 0 || |s.table.sessions| < c.maxActive)
      && (a in after.acquirers ==> after.acquirers[a] == Admitted)
      && after.table.sessions == s.table.sessions
      && after.table.rejected == s.table.rejected + if a in after.acquirers then 0 else 1
  {
  }

  /** An acquire whose session cannot be created can fail at that point, and leaves nothing behind. */
  lemma FailedCreateIsForgotten(s: System, c: Config, a: nat)
    requires a in s.acquirers && s.acquirers[a] == Admitted
    ensures Enabled(s, CreateFails(a)) && Next(s, c, CreateFails(a)) == s.(acquirers := s.acquirers - {a})
  {
  }

  // ---- capacity ---------------------------------------------------------------------------

  predicate WithinCapacity(s: System, c: Config) {
    c.maxActive > 0 ==> |s.table.sessions| <= c.maxActive
  }

  lemma SubmapIsSmaller(m: map<string, Lease>, ids: set<string>)
    ensures |m - ids| <= |m|
  {
    assert (m - ids).Keys == m.Keys - ids;
    assert |m| == |m.Keys| && |m - ids| == |(m - ids).Keys|;
    assert |m.Keys - ids| == |m.Keys| - |m.Keys * ids|;
  }

  lemma UpdateIsLarger(m: map<string, Lease>, id: string, l: Lease)
    ensures |m[id := l]| <= |m| + 1
    ensures id in m ==> |m[id := l]| == |m|
  {
    assert m[id := l].Keys == m.Keys + {id};
  }

  /** No step takes the table past its capacity, not even with clashing lease IDs. */
  lemma StepKeepsCapacity(s: System, c: Config, step: Step)
    requires WithinCapacity(s, c) && Enabled(s, step)
    ensures WithinCapacity(Next(s, c, step), c)
  {
    hide Expired;
    match step
    case Insert(a, leaseID) =>
      UpdateIsLarger(s.table.sessions, leaseID, Lease(s.acquirers[a].session, s.acquirers[a].now, s.acquirers[a].now));
    case Touch(leaseID, now) =>
      if leaseID in s.table.sessions {
        UpdateIsLarger(s.table.sessions, leaseID, s.table.sessions[leaseID].(lastTouched := now));
      }
    case Release(leaseID) => SubmapIsSmaller(s.table.sessions, {leaseID});
    case Sweep(now) => SubmapIsSmaller(s.table.sessions, ExpiredIDs(s.table, now, c));
    case _ =>
  }

  // ---- every session is in exactly one place ----------------------------------------------

  function HoldersOf(acquirers: map<nat, Phase>, session: Session): set<nat> {
    set a | a in acquirers && acquirers[a].Holding? && acquirers[a].session == session
  }

  function LeasesOf(sessions: map<string, Lease>, session: Session): set<string> {
    set id | id in sessions && sessions[id].session == session
  }

  /** How many places hold the session: acquirers, leases, closers, and closes already done. */
  function Places(s: System, session: Session): nat {
    |HoldersOf(s.acquirers, session)| + |LeasesOf(s.table.sessions, session)| +
    (if session in s.closing then 1 else 0) + s.closed[session]
  }

  ghost predicate OnePlaceEach(s: System) {
    forall session :: Places(s, session) == if session in s.created then 1 else 0
  }

  /** The counter is the number of sessions evicted, each of which is being closed or closed. */
  ghost predicate EvictionsCounted(s: System) {
    |s.evicted| == s.table.evicted && forall session | session in s.evicted ::
      session in s.closing || session in s.closed
  }

  ghost predicate Inv(s: System) {
    OnePlaceEach(s) && EvictionsCounted(s)
  }

  lemma PlacesAt(s: System, session: Session)
    requires OnePlaceEach(s)
    ensures Places(s, session) == if session in s.created then 1 else 0
  {
  }

  /** Of a session's leases, those in `ids` leave the table; it had one lease at most. */
  lemma TakenLeases(sessions: map<string, Lease>, ids: set<string>, session: Session)
    requires |LeasesOf(sessions, session)| <= 1
    ensures |LeasesOf(sessions - ids, session)| ==
            |LeasesOf(sessions, session)| - if session in SessionsOf(sessions, ids) then 1 else 0
  {
    var before := LeasesOf(sessions, session);
    assert LeasesOf(sessions - ids, session) == before - ids;
    assert |before - ids| == |before| - |before * ids|;
    SubsetIsSmaller(before * ids, before);
    if session in SessionsOf(sessions, ids) {
      var id :| id in ids && id in sessions && sessions[id].session == session;
      assert id in before * ids;
    } else {
      assert before * ids == {};
    }
  }

  /** Taking leases off the table moves their sessions, and only theirs, to the closers. */
  lemma TakeMoves(s: System, table: Table, ids: set<string>)
    requires OnePlaceEach(s) && table.sessions == s.table.sessions - ids
    ensures OnePlaceEach(Taken(s, table, ids))
  {
    hide OnePlaceEach, HoldersOf, LeasesOf, SessionsOf;
    forall session ensures Places(Taken(s, table, ids), session) == if session in s.created then 1 else 0 {
      PlacesAt(s, session);
      TakenLeases(s.table.sessions, ids, session);
      if session in SessionsOf(s.table.sessions, ids) {
        SomeLease(s.table.sessions, ids, session);
      }
    }
    AllPlaces(Taken(s, table, ids));
  }

  lemma SomeLease(sessions: map<string, Lease>, ids: set<string>, session: Session)
    requires session in SessionsOf(sessions, ids)
    ensures |LeasesOf(sessions, session)| >= 1
  {
    var id :| id in ids && id in sessions && sessions[id].session == session;
    SubsetIsSmaller({id}, LeasesOf(sessions, session));
  }

  lemma AllPlaces(s: System)
    requires forall session :: Places(s, session) == if session in s.created then 1 else 0
    ensures OnePlaceEach(s)
  {
  }

  lemma HoldersOfUpdate(acquirers: map<nat, Phase>, a: nat, p: Phase, session: Session)
    ensures HoldersOf(acquirers[a := p], session) ==
            HoldersOf(acquirers, session) - {a} + if p.Holding? && p.session == session then {a} else {}
    ensures HoldersOf(acquirers - {a}, session) == HoldersOf(acquirers, session) - {a}
  {
  }

  lemma LeasesOfUpdate(sessions: map<string, Lease>, id: string, l: Lease, session: Session)
    ensures LeasesOf(sessions[id := l], session) ==
            LeasesOf(sessions, session) - {id} + if l.session == session then {id} else {}
  {
  }

  /** An acquire that is admitted, or fails to create a session, holds none. */
  lemma EmptyHandedKeepsPlaces(s: System, c: Config, step: Step)
    requires OnePlaceEach(s) && Enabled(s, step) && (step.Arrive? || step.CreateFails?)
    ensures OnePlaceEach(Next(s, c, step))
  {
    hide OnePlaceEach, LeasesOf, Full;
    var after := Next(s, c, step);
    forall session ensures Places(after, session) == if session in after.created then 1 else 0 {
      PlacesAt(s, session);
      HoldersOfUpdate(s.acquirers, step.a, Admitted, session);
      assert step.a !in HoldersOf(s.acquirers, session);
    }
    AllPlaces(after);
  }

  lemma CreateKeepsPlaces(s: System, c: Config, step: Step)
    requires OnePlaceEach(s) && Enabled(s, step) && step.Create?
    ensures OnePlaceEach(Next(s, c, step))
  {
    hide OnePlaceEach, LeasesOf;
    var after := Next(s, c, step);
    forall session ensures Places(after, session) == if session in after.created then 1 else 0 {
      PlacesAt(s, session);
      HoldersOfUpdate(s.acquirers, step.a, Holding(step.session, step.now), session);
      assert step.a !in HoldersOf(s.acquirers, session);
      if session == step.session {
        assert HoldersOf(s.acquirers, session) == {};
        assert HoldersOf(after.acquirers, session) == {step.a};
      }
    }
    AllPlaces(after);
  }

  /** The session of an acquire leaves the acquire; nothing else about the acquirers changes. */
  lemma HandedOver(s: System, a: nat, session: Session)
    requires a in s.acquirers && s.acquirers[a].Holding?
    ensures |HoldersOf(s.acquirers - {a}, session)| ==
            |HoldersOf(s.acquirers, session)| - if s.acquirers[a].session == session then 1 else 0
  {
    HoldersOfUpdate(s.acquirers, a, Admitted, session);
    assert a in HoldersOf(s.acquirers, session) <==> s.acquirers[a].session == session;
    if s.acquirers[a].session != session {
      assert HoldersOf(s.acquirers, session) - {a} == HoldersOf(s.acquirers, session);
    }
  }

  lemma InsertPlaces(s: System, c: Config, a: nat, leaseID: string, session: Session)
    requires OnePlaceEach(s) && Enabled(s, Insert(a, leaseID)) && (Full(s.table, c) || leaseID !in s.table.sessions)
    ensures Places(Next(s, c, Insert(a, leaseID)), session) == if session in s.created then 1 else 0
  {
    hide OnePlaceEach, Full, HoldersOf, LeasesOf;
    var held := s.acquirers[a];
    PlacesAt(s, session);
    HandedOver(s, a, session);
    HolderCounts(s, a);
    if !Full(s.table, c) {
      LeasesOfUpdate(s.table.sessions, leaseID, Lease(held.session, held.now, held.now), session);
      NotALease(s.table.sessions, leaseID, session);
    }
  }

  lemma HolderCounts(s: System, a: nat)
    requires a in s.acquirers && s.acquirers[a].Holding?
    ensures |HoldersOf(s.acquirers, s.acquirers[a].session)| >= 1
  {
    SubsetIsSmaller({a}, HoldersOf(s.acquirers, s.acquirers[a].session));
  }

  lemma NotALease(sessions: map<string, Lease>, id: string, session: Session)
    requires id !in sessions
    ensures id !in LeasesOf(sessions, session) && LeasesOf(sessions, session) - {id} == LeasesOf(sessions, session)
  {
  }

  /** The session stored under a lease ID that is inserted again is in no place any more. */
  lemma ClashLosesSession(s: System, c: Config, a: nat, leaseID: string)
    requires OnePlaceEach(s) && Enabled(s, Insert(a, leaseID)) && !Full(s.table, c) && leaseID in s.table.sessions
    ensures var lost := s.table.sessions[leaseID].session;
            lost in s.created && Places(Next(s, c, Insert(a, leaseID)), lost) == 0
  {
    hide OnePlaceEach, Full, HoldersOf;
    var held := s.acquirers[a];
    var lost := s.table.sessions[leaseID].session;
    PlacesAt(s, lost);
    SubsetIsSmaller({leaseID}, LeasesOf(s.table.sessions, lost));
    HandedOver(s, a, lost);
    HolderCounts(s, a);
    assert held.session != lost;
    LeasesOfUpdate(s.table.sessions, leaseID, Lease(held.session, held.now, held.now), lost);
  }

  /** The locked second half of an acquire keeps every session in one place exactly when the
      table is full, so that the session is handed to be closed, or the lease ID is fresh; a
      clashing ID drops the session stored under it. */
  lemma InsertKeepsPlaces(s: System, c: Config, a: nat, leaseID: string)
    requires OnePlaceEach(s) && Enabled(s, Insert(a, leaseID))
    ensures OnePlaceEach(Next(s, c, Insert(a, leaseID))) <==> Full(s.table, c) || leaseID !in s.table.sessions
  {
    hide OnePlaceEach, Full, Places;
    var after := Next(s, c, Insert(a, leaseID));
    if Full(s.table, c) || leaseID !in s.table.sessions {
      forall session ensures Places(after, session) == if session in after.created then 1 else 0 {
        InsertPlaces(s, c, a, leaseID, session);
      }
      AllPlaces(after);
    } else {
      ClashLosesSession(s, c, a, leaseID);
      if OnePlaceEach(after) {
        PlacesAt(after, s.table.sessions[leaseID].session);
      }
    }
  }

  lemma FinishKeepsPlaces(s: System, c: Config, session: Session)
    requires OnePlaceEach(s) && session in s.closing
    ensures OnePlaceEach(Next(s, c, FinishClose(session)))
  {
    hide OnePlaceEach, HoldersOf, LeasesOf;
    var after := Next(s, c, FinishClose(session));
    forall x ensures Places(after, x) == if x in after.created then 1 else 0 {
      PlacesAt(s, x);
    }
    AllPlaces(after);
  }

  lemma TouchKeepsPlaces(s: System, c: Config, leaseID: string, now: int)
    requires OnePlaceEach(s)
    ensures OnePlaceEach(Next(s, c, Touch(leaseID, now)))
  {
    hide OnePlaceEach, HoldersOf;
    var after := Next(s, c, Touch(leaseID, now));
    forall x ensures Places(after, x) == if x in after.created then 1 else 0 {
      PlacesAt(s, x);
      assert LeasesOf(after.table.sessions, x) == LeasesOf(s.table.sessions, x);
    }
    AllPlaces(after);
  }

  /** A lease ID drawn for an insert is not in the table. */
  predicate FreshID(s: System, c: Config, step: Step) {
    step.Insert? ==> Full(s.table, c) || step.leaseID !in s.table.sessions
  }

  /** A step keeps every created session in exactly one place exactly when it does not insert
      under a lease ID already in the table. */
  lemma StepKeepsPlaces(s: System, c: Config, step: Step)
    requires OnePlaceEach(s) && Enabled(s, step)
    ensures OnePlaceEach(Next(s, c, step)) <==> FreshID(s, c, step)
  {
    hide OnePlaceEach, Full, Expired, SessionsOf;
    match step
    case Arrive(a) => EmptyHandedKeepsPlaces(s, c, step);
    case Create(a, session, now) => CreateKeepsPlaces(s, c, step);
    case CreateFails(a) => EmptyHandedKeepsPlaces(s, c, step);
    case Insert(a, leaseID) => InsertKeepsPlaces(s, c, a, leaseID);
    case Touch(leaseID, now) => TouchKeepsPlaces(s, c, leaseID, now);
    case Release(leaseID) => TakeMoves(s, Removed(s.table, leaseID), {leaseID});
    case Sweep(now) =>
      var expired := ExpiredIDs(s.table, now, c);
      TakeMoves(s, Swept(s.table, c, now), expired);
      SamePlaces(Taken(s, Swept(s.table, c, now), expired), Next(s, c, step));
    case Shutdown =>
      var ids := if s.table.closed then {} else s.table.sessions.Keys;
      assert Closed(s.table).sessions == s.table.sessions - ids;
      TakeMoves(s, Closed(s.table), ids);
    case FinishClose(session) => FinishKeepsPlaces(s, c, session);
  }

  lemma SamePlaces(a: System, b: System)
    requires OnePlaceEach(a) && b == a.(evicted := b.evicted)
    ensures OnePlaceEach(b)
  {
    hide HoldersOf, LeasesOf;
    forall x ensures Places(b, x) == if x in b.created then 1 else 0 {
      PlacesAt(a, x);
      assert Places(b, x) == Places(a, x);
    }
  }

  // ---- evictions --------------------------------------------------------------------------

  /** Distinct leases hold distinct sessions, none of them with a closer or closed. */
  lemma LeasedSessions(s: System, id: string, other: string)
    requires OnePlaceEach(s) && id in s.table.sessions && other in s.table.sessions
    ensures s.table.sessions[id].session == s.table.sessions[other].session ==> id == other
    ensures s.table.sessions[id].session !in s.closing && s.closed[s.table.sessions[id].session] == 0
  {
    hide OnePlaceEach, HoldersOf;
    var session := s.table.sessions[id].session;
    PlacesAt(s, session);
    SubsetIsSmaller({id}, LeasesOf(s.table.sessions, session));
    if s.table.sessions[other].session == session && id != other {
      SubsetIsSmaller({id, other}, LeasesOf(s.table.sessions, session));
      assert false;
    }
  }

  lemma {:induction false} SessionsOfSize(s: System, ids: set<string>)
    requires OnePlaceEach(s) && ids <= s.table.sessions.Keys
    ensures |SessionsOf(s.table.sessions, ids)| == |ids|
    decreases |ids|
  {
    hide OnePlaceEach;
    if ids == {} {
      assert SessionsOf(s.table.sessions, ids) == {};
    } else {
      var id :| id in ids;
      var rest := ids - {id};
      SessionsOfSize(s, rest);
      var session := s.table.sessions[id].session;
      assert SessionsOf(s.table.sessions, ids) == SessionsOf(s.table.sessions, rest) + {session};
      forall other | other in rest ensures s.table.sessions[other].session != session {
        LeasedSessions(s, id, other);
      }
    }
  }

  lemma SweepCountsEvictions(s: System, c: Config, now: int)
    requires Inv(s)
    ensures EvictionsCounted(Next(s, c, Sweep(now)))
  {
    hide OnePlaceEach, Expired;
    var expired := ExpiredIDs(s.table, now, c);
    var sessions := SessionsOf(s.table.sessions, expired);
    SessionsOfSize(s, expired);
    forall session | session in sessions ensures session !in s.evicted {
      var id :| id in expired && s.table.sessions[id].session == session;
      LeasedSessions(s, id, id);
    }
    assert s.evicted !! sessions;
  }

  lemma StepKeepsInv(s: System, c: Config, step: Step)
    requires Inv(s) && Enabled(s, step) && FreshID(s, c, step)
    ensures Inv(Next(s, c, step))
  {
    hide OnePlaceEach, Expired, FreshID;
    StepKeepsPlaces(s, c, step);
    if step.Sweep? {
      SweepCountsEvictions(s, c, step.now);
    } else {
      EvictionsStayCounted(s, c, step);
    }
  }

  lemma EvictionsStayCounted(s: System, c: Config, step: Step)
    requires EvictionsCounted(s) && Enabled(s, step) && !step.Sweep?
    ensures EvictionsCounted(Next(s, c, step))
  {
    hide Full, SessionsOf;
  }

  // ---- whole runs -------------------------------------------------------------------------

  function Last(steps: seq<Step>): Step
    requires steps != []
  {
    steps[|steps| - 1]
  }

  /** The state after the steps, each of which must be enabled. */
  ghost predicate Reaches(c: Config, steps: seq<Step>, newIDs: bool, s: System)
    decreases |steps|
  {
    if steps == [] then s == START
    else exists before ::
         Advances(c, before, Last(steps), newIDs, s) && Reaches(c, steps[..|steps| - 1], newIDs, before)
  }

  ghost predicate Advances(c: Config, before: System, step: Step, newIDs: bool, after: System) {
    Enabled(before, step) && (newIDs ==> FreshID(before, c, step)) && after == Next(before, c, step)
  }

  /** Under every interleaving the table stays within its capacity. */
  lemma {:induction false} CapacityHolds(c: Config, steps: seq<Step>, newIDs: bool, s: System)
    requires Reaches(c, steps, newIDs, s)
    ensures WithinCapacity(s, c)
    decreases |steps|
  {
    hide Next, Enabled, FreshID, WithinCapacity;
    if steps == [] {
      EmptyIsWithin(c);
    } else {
      var last := |steps| - 1;
      var before :| Advances(c, before, Last(steps), newIDs, s) && Reaches(c, steps[..last], newIDs, before);
      CapacityHolds(c, steps[..last], newIDs, before);
      StepKeepsCapacity(before, c, steps[last]);
    }
  }

  lemma EmptyIsWithin(c: Config)
    ensures WithinCapacity(START, c)
  {
  }

  /** Under every interleaving with fresh lease IDs each session created is in exactly one place
      - held by an acquire, in the table, held by a closer, or closed once - and the eviction
      counter is the number of sessions evicted. */
  lemma {:induction false} SessionsAreNeverLost(c: Config, steps: seq<Step>, s: System)
    requires Reaches(c, steps, true, s)
    ensures Inv(s)
    decreases |steps|
  {
    hide Next, Enabled, FreshID, Inv;
    if steps == [] {
      NothingCreated();
    } else {
      var last := |steps| - 1;
      var before :| Advances(c, before, Last(steps), true, s) && Reaches(c, steps[..last], true, before);
      SessionsAreNeverLost(c, steps[..last], before);
      StepKeepsInv(before, c, steps[last]);
    }
  }

  lemma NothingCreated()
    ensures Inv(START)
  {
    forall session ensures Places(START, session) == 0 {
      assert HoldersOf(START.acquirers, session) == {} && LeasesOf(START.table.sessions, session) == {};
    }
  }

  /** Once no acquire holds a session and every closer is done, each session created is either
      leased, under one ID, or closed, once. */
  lemma QuietSystemIsAccountedFor(c: Config, steps: seq<Step>, s: System, session: Session)
    requires Reaches(c, steps, true, s) && session in s.created
    requires s.closing == {} && forall a | a in s.acquirers :: s.acquirers[a].Admitted?
    ensures s.closed[session] <= 1
    ensures s.closed[session] == 0 <==> exists id :: id in s.table.sessions && s.table.sessions[id].session == session
  {
    hide Reaches, OnePlaceEach;
    SessionsAreNeverLost(c, steps, s);
    PlacesAt(s, session);
    assert HoldersOf(s.acquirers, session) == {};
    if s.closed[session] == 0 {
      assert LeasesOf(s.table.sessions, session) != {};
      var id :| id in LeasesOf(s.table.sessions, session);
    } else if id :| id in s.table.sessions && s.table.sessions[id].session == session {
      LeasedSessions(s, id, id);
    }
  }
}
