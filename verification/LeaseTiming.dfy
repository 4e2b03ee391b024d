/** When leases are evicted.  Each event takes effect at its `time`, in order; an insert and a
    sweep act on a clock they read earlier, before waiting for the lock
    (pkg/harnessruntime/http_remote_sandbox_server.go). */
module LeaseTiming {
  import opened SandboxLeases
  import opened Wrappers

  datatype Event =
    | Insert(leaseID: string, session: Session, read: int, time: int)
    | Touch(leaseID: string, time: int)
    | Release(leaseID: string, time: int)
    | Sweep(read: int, time: int)
    | Shutdown(time: int)

  function Apply(t: Table, c: Config, e: Event): Table {
    match e
    case Insert(leaseID, session, read, _) => Inserted(t, c, leaseID, session, read)
    case Touch(leaseID, time) => TouchedAt(t, leaseID, time)
    case Release(leaseID, _) => Removed(t, leaseID)
    case Sweep(read, _) => Swept(t, c, read)
    case Shutdown(_) => Closed(t)
  }

  function ApplyAll(t: Table, c: Config, events: seq<Event>): Table
    decreases |events|
  {
    if events == [] then t else ApplyAll(Apply(t, c, events[0]), c, events[1..])
  }

  /** Events take effect in order from instant `from` on, and act on clocks read before. */
  predicate Timed(from: int, events: seq<Event>)
    decreases |events|
  {
    events != [] ==>
      var e := events[0];
      0 < from <= e.time && ((e.Insert? || e.Sweep?) ==> 0 < e.read <= e.time) && Timed(e.time, events[1..])
  }

  /** A lease that nobody uses is evicted by exactly the sweeps whose clock is the idle limit past the
      clock its insert read; a touch counts from the moment it takes effect. */
  lemma UnusedLeaseIsEvicted(t: Table, c: Config, leaseID: string, session: Session, read: int, time: int,
                             touched: int, sweep: int, end: int)
    requires (c.maxActive <= 0 || |t.sessions| < c.maxActive) && c.idleTTL > 0 && read > 0 && touched > 0
    ensures var inserted := Apply(t, c, Insert(leaseID, session, read, time));
      && (leaseID in Apply(inserted, c, Sweep(sweep, end)).sessions <==> sweep - read < c.idleTTL)
      && var used := Apply(inserted, c, Touch(leaseID, touched));
         leaseID in Apply(used, c, Sweep(sweep, end)).sessions <==> sweep - touched < c.idleTTL
  {
    hide Expired, Swept;
    var lease := Lease(session, read, read);
    var inserted := Apply(t, c, Insert(leaseID, session, read, time));
    assert inserted.sessions[leaseID] == lease;
    SweptByAge(inserted, c, leaseID, sweep);
    SweptByAge(Apply(inserted, c, Touch(leaseID, touched)), c, leaseID, sweep);
  }

  lemma SweptByAge(t: Table, c: Config, leaseID: string, now: int)
    requires leaseID in t.sessions && t.sessions[leaseID].lastTouched != 0 && c.idleTTL > 0
    ensures leaseID in Swept(t, c, now).sessions <==> now - t.sessions[leaseID].lastTouched < c.idleTTL
  {
    hide Expired;
    ExpiredByAge(t.sessions[leaseID], now, c);
  }

  lemma ExpiredByAge(l: Lease, now: int, c: Config)
    requires l.lastTouched != 0 && c.idleTTL > 0
    ensures Expired(l, now, c) <==> now - l.lastTouched >= c.idleTTL
  {
  }

  // ---- a lease in use is kept ---------------------------------------------------------------

  /** The lease is touched at gaps shorter than the idle limit: every event comes less than
      `ttl` after the last touch. */
  predicate TouchedOften(leaseID: string, last: int, ttl: int, events: seq<Event>)
    decreases |events|
  {
    events != [] ==>
      var e := events[0];
      e.time < last + ttl &&
        TouchedOften(leaseID, if e == Touch(leaseID, e.time) then e.time else last, ttl, events[1..])
  }

  /** Nobody releases the lease, shuts the server down or draws its ID again. */
  predicate Undisturbed(leaseID: string, events: seq<Event>) {
    forall e | e in events :: !e.Shutdown? && (e.Release? || e.Insert? ==> e.leaseID != leaseID)
  }

  lemma EventKeepsLease(t: Table, c: Config, leaseID: string, e: Event, from: int)
    requires leaseID in t.sessions && Timed(from, [e]) && Undisturbed(leaseID, [e])
    requires Touched(t.sessions[leaseID]) > 0 && e.time < Touched(t.sessions[leaseID]) + c.idleTTL
    ensures var after := Apply(t, c, e);
      && leaseID in after.sessions
      && after.sessions[leaseID].session == t.sessions[leaseID].session
      && Touched(after.sessions[leaseID]) == if e == Touch(leaseID, e.time) then e.time
         else Touched(t.sessions[leaseID])
  {
    hide Full;
    assert e in [e];
  }

  /** However sweeps and other leases' events interleave, a lease touched at gaps shorter than
      the idle limit stays in the table with its session. */
  lemma {:induction false} TouchedLeaseSurvives(t: Table, c: Config, leaseID: string, events: seq<Event>, from: int)
    requires leaseID in t.sessions && Touched(t.sessions[leaseID]) > 0
    requires Timed(from, events) && Undisturbed(leaseID, events)
    requires TouchedOften(leaseID, Touched(t.sessions[leaseID]), c.idleTTL, events)
    ensures var after := ApplyAll(t, c, events);
            leaseID in after.sessions && after.sessions[leaseID].session == t.sessions[leaseID].session
    decreases |events|
  {
    hide Touched, Apply;
    if events != [] {
      var e := events[0];
      EventKeepsLease(t, c, leaseID, e, from);
      assert forall later | later in events[1..] :: later in events;
      TouchedLeaseSurvives(Apply(t, c, e), c, leaseID, events[1..], e.time);
    }
  }

  // ---- an idle lease is evicted --------------------------------------------------------------

  /** The clock the last sweep acted on. */
  function LastSweep(events: seq<Event>): Option<int> {
    if events == [] then None
    else if events[|events| - 1].Sweep? then Some(events[|events| - 1].read)
    else LastSweep(events[..|events| - 1])
  }

  function EndTime(events: seq<Event>): int
    requires events != []
  {
    events[|events| - 1].time
  }

  /** Every lease was touched less than the idle limit before `swept`. */
  ghost predicate FreshSince(t: Table, c: Config, swept: Option<int>) {
    forall id | id in t.sessions ::
      Touched(t.sessions[id]) > 0 && (swept.Some? ==> swept.value - Touched(t.sessions[id]) < c.idleTTL)
  }

  const EMPTY := Table(map[], 0, 0, false)

  /** An insert that takes effect read its clock less than the idle limit before the clock of
      the last sweep. */
  predicate InTime(t: Table, c: Config, e: Event, swept: Option<int>) {
    e.Insert? && !Full(t, c) && swept.Some? ==> swept.value - e.read < c.idleTTL
  }

  /** Only an insert that waited too long for the lock can leave a lease that should have gone. */
  lemma EventKeepsFresh(t: Table, c: Config, e: Event, swept: Option<int>)
    requires c.idleTTL > 0 && FreshSince(t, c, swept) && Timed(e.time, [e])
    requires swept.Some? ==> swept.value <= e.time
    ensures FreshSince(Apply(t, c, e), c, if e.Sweep? then Some(e.read) else swept) <==> InTime(t, c, e, swept)
  {
    hide Full;
    assert Timed(e.time, [e]) == (0 < e.time && ((e.Insert? || e.Sweep?) ==> 0 < e.read <= e.time));
    if e.Insert? && !Full(t, c) {
      var after := Apply(t, c, e);
      assert after.sessions[e.leaseID] == Lease(e.session, e.read, e.read);
    }
  }

  /** Every insert of the run is in time. */
  predicate AllInTime(c: Config, events: seq<Event>) {
    forall i | 0 <= i < |events| ::
      InTime(ApplyAll(EMPTY, c, events[..i]), c, events[i], LastSweep(events[..i]))
  }

  lemma ApplyLast(t: Table, c: Config, events: seq<Event>)
    requires events != []
    ensures ApplyAll(t, c, events) == Apply(ApplyAll(t, c, events[..|events| - 1]), c, events[|events| - 1])
    decreases |events|
  {
    hide Apply;
    if |events| == 1 {
      assert events[..0] == [] && events[1..] == [];
    } else {
      ApplyLast(Apply(t, c, events[0]), c, events[1..]);
      assert events[1..][..|events| - 2] == events[..|events| - 1][1..];
    }
  }

  lemma {:induction false} TimedSplit(from: int, events: seq<Event>)
    requires Timed(from, events) && events != []
    ensures var last := events[|events| - 1];
      && Timed(from, events[..|events| - 1]) && Timed(last.time, [last])
      && (|events| > 1 ==> EndTime(events[..|events| - 1]) <= last.time)
    decreases |events|
  {
    if |events| > 1 {
      TimedSplit(events[0].time, events[1..]);
      assert events[1..][..|events| - 2] == events[..|events| - 1][1..];
      if |events| == 2 {
        assert events[..1][1..] == [];
        assert Timed(events[0].time, events[1..]);
      }
    } else {
      assert events == [events[0]];
      assert Timed(events[0].time, []);
    }
  }

  lemma {:induction false} SweptBefore(from: int, events: seq<Event>)
    requires Timed(from, events) && LastSweep(events).Some?
    ensures events != [] && LastSweep(events).value <= EndTime(events)
    decreases |events|
  {
    TimedSplit(from, events);
    var last := events[|events| - 1];
    assert Timed(last.time, [last]) ==> (last.Sweep? ==> last.read <= last.time);
    if !last.Sweep? {
      SweptBefore(from, events[..|events| - 1]);
    }
  }

  lemma {:induction false} LeasesAreFresh(c: Config, from: int, events: seq<Event>)
    requires c.idleTTL > 0 && Timed(from, events) && AllInTime(c, events)
    ensures FreshSince(ApplyAll(EMPTY, c, events), c, LastSweep(events))
    decreases |events|
  {
    hide FreshSince, Apply, InTime;
    if events == [] {
      EmptyIsFresh(c);
    } else {
      var n := |events| - 1;
      TimedSplit(from, events);
      assert forall i | 0 <= i < n :: events[..n][i] == events[i] && events[..n][..i] == events[..i];
      LeasesAreFresh(c, from, events[..n]);
      if LastSweep(events[..n]).Some? {
        SweptBefore(from, events[..n]);
      }
      EventKeepsFresh(ApplyAll(EMPTY, c, events[..n]), c, events[n], LastSweep(events[..n]));
      ApplyLast(EMPTY, c, events);
    }
  }

  lemma EmptyIsFresh(c: Config)
    ensures FreshSince(EMPTY, c, None)
  {
  }

  /** From the first sweep on, at any instant at most `gap` after the clock of the last sweep, no
      lease in the table has been idle for the idle limit plus `gap` or longer. */
  lemma NoLeaseIdlesLong(c: Config, from: int, events: seq<Event>, gap: int, now: int, leaseID: string)
    requires c.idleTTL > 0 && Timed(from, events) && AllInTime(c, events)
    requires LastSweep(events).Some? && now - LastSweep(events).value <= gap
    requires leaseID in ApplyAll(EMPTY, c, events).sessions
    ensures now - Touched(ApplyAll(EMPTY, c, events).sessions[leaseID]) < c.idleTTL + gap
  {
    hide Touched, ApplyAll, LastSweep;
    LeasesAreFresh(c, from, events);
  }

  /** It is enough that every insert gets the lock within the idle limit of reading its clock. */
  lemma PromptInsertsAreInTime(c: Config, from: int, events: seq<Event>)
    requires Timed(from, events) && forall e | e in events && e.Insert? :: e.time - e.read < c.idleTTL
    ensures AllInTime(c, events)
  {
    hide ApplyAll, Full;
    forall i | 0 <= i < |events|
      ensures InTime(ApplyAll(EMPTY, c, events[..i]), c, events[i], LastSweep(events[..i]))
    {
      if LastSweep(events[..i]).Some? {
        TimedPrefix(from, events, i);
        SweptBefore(from, events[..i]);
        assert events[i] in events;
      }
    }
  }

  lemma {:induction false} TimedPrefix(from: int, events: seq<Event>, i: nat)
    requires Timed(from, events) && i < |events|
    ensures Timed(from, events[..i])
    ensures i > 0 ==> EndTime(events[..i]) <= events[i].time
    decreases |events|
  {
    TimedSplit(from, events);
    var n := |events| - 1;
    if i < n {
      TimedPrefix(from, events[..n], i);
      assert events[..n][..i] == events[..i];
    }
  }

  /** Without the condition the bound fails by as much as one likes: a lease inserted right after
      a sweep, by a request that waited long enough for the lock. */
  lemma LateInsertIdles(c: Config, wait: int, leaseID: string)
    requires c.idleTTL > 0 && c.maxActive <= 0 && wait >= c.idleTTL
    ensures var events := [Sweep(1 + wait, 1 + wait), Insert(leaseID, 0, 1, 1 + wait)];
      && Timed(1, events) && LastSweep(events) == Some(1 + wait)
      && leaseID in ApplyAll(EMPTY, c, events).sessions
      && (1 + wait) - Touched(ApplyAll(EMPTY, c, events).sessions[leaseID]) == wait
  {
    var sweep, insert := Sweep(1 + wait, 1 + wait), Insert(leaseID, 0, 1, 1 + wait);
    var events := [sweep, insert];
    assert events[1..] == [insert] && events[1..][1..] == [] && events[..1] == [sweep];
    assert Timed(1 + wait, [insert]);
    var swept := Apply(EMPTY, c, sweep);
    assert ApplyAll(EMPTY, c, events) == Apply(swept, c, insert) by {
      assert ApplyAll(EMPTY, c, events) == ApplyAll(swept, c, [insert]);
      assert ApplyAll(swept, c, [insert]) == ApplyAll(Apply(swept, c, insert), c, []);
    }
    assert LastSweep([sweep]) == Some(1 + wait);
  }
}
