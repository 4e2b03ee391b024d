/** The event log of a run: how events get their IDs, what the stores keep, and what a client
    that reconnects is replayed (pkg/harnessruntime/event_service.go, event_store.go,
    sqlite_state_store.go, event_feed_service.go). */
module RunEvents {
  import opened GoStrings
  import opened Outcomes
  import opened EventTable
  import opened Wrappers

  datatype RunEvent = RunEvent(
    id: string, event: string, data: string, runID: string, threadID: string,
    attempt: int, resumeFromEvent: int, resumeReason: string, outcome: Descriptor)

  datatype EventContext = EventContext(attempt: int, resumeFromEvent: int, resumeReason: string, outcome: Descriptor)

  // ---- event IDs ------------------------------------------------------------------------

  function EventID(runID: string, index: nat): string {
    runID + ":" + NatToDecimal(index)
  }

  /** The positive number an ID ends in, or 0. */
  function EventIndex(id: string): (n: nat) {
    var colon := LastIndexOf(id, ':');
    var suffix := if colon >= 0 && colon + 1 < |id| then Atoi(TrimSpace(id[colon + 1..])) else None;
    if suffix.Some? && suffix.value > 0 then suffix.value
    else
      var whole := if id != "" then Atoi(TrimSpace(id)) else None;
      if whole.Some? && whole.value > 0 then whole.value else 0
  }

  /** The index printed into an event ID is read back, whatever the run ID contains. */
  lemma EventIndexOfID(runID: string, index: nat)
    requires 0 < index <= MAX_INT
    ensures EventIndex(EventID(runID, index)) == index
  {
    var digits := NatToDecimal(index);
    var id := EventID(runID, index);
    assert id[|runID|] == ':' && id[|runID| + 1..] == digits;
    assert forall i | |runID| < i < |id| :: id[i] == digits[i - |runID| - 1] && digits[i - |runID| - 1] in digits;
    assert LastIndexOf(id, ':') == |runID|;
    DigitsAreTrimmed(digits);
    AtoiOfDecimal(index);
  }

  lemma SuffixAfterColon(prefix: string, suffix: string)
    requires ':' !in suffix
    ensures var id := prefix + ":" + suffix;
            LastIndexOf(id, ':') == |prefix| && id[|prefix| + 1..] == suffix
  {
    var id := prefix + ":" + suffix;
    assert id[|prefix|] == ':' && id[|prefix| + 1..] == suffix;
    assert forall i | |prefix| < i < |id| :: id[i] == suffix[i - |prefix| - 1] && suffix[i - |prefix| - 1] in suffix;
  }

  lemma NoNumberHasColon(s: string, n: int)
    requires ':' in s
    ensures Atoi(TrimSpace(s)) != Some(n)
  {
    TrimSpaceCuts(s);
    var i, j :| 0 <= i <= j <= |s| && TrimSpace(s) == s[i..j] &&
      (forall k | 0 <= k < i :: IsSpace(s[k])) && forall k | j <= k < |s| :: IsSpace(s[k]);
    var k :| 0 <= k < |s| && s[k] == ':';
    ColonIsNoDigit(TrimSpace(s), k - i);
  }

  lemma ColonIsNoDigit(t: string, k: nat)
    requires k < |t| && t[k] == ':'
    ensures Atoi(t) == None
  {
    if t[0] == '-' || t[0] == '+' {
      assert t[1..][k - 1] == ':' && !IsDigit(':');
    } else {
      assert t[k] in t && !IsDigit(t[k]);
    }
  }

  /** The index of an ID is the positive number spelled after its last colon, or by all of it when
      it has none, spaces around it aside; any other ID has index 0. */
  lemma EventIndexReads(prefix: string, suffix: string, n: nat)
    requires ':' !in suffix
    ensures n > 0 && Spells(TrimSpace(suffix), n) ==>
            EventIndex(prefix + ":" + suffix) == n && EventIndex(suffix) == n
    ensures (forall m | m > 0 :: !Spells(TrimSpace(suffix), m)) ==>
            EventIndex(prefix + ":" + suffix) == 0 && EventIndex(suffix) == 0
  {
    hide Spells, TrimSpace, Atoi;
    var id := prefix + ":" + suffix;
    SuffixAfterColon(prefix, suffix);
    assert id[|prefix|] == ':';
    assert LastIndexOf(suffix, ':') == -1;
    forall m
      ensures Atoi(TrimSpace(id)) != Some(m)
      ensures Atoi(TrimSpace(suffix)) == Some(m) <==> Spells(TrimSpace(suffix), m)
    {
      NoNumberHasColon(id, m);
      AtoiReads(TrimSpace(suffix), m);
    }
    NothingSpellsNothing();
  }

  lemma NothingSpellsNothing()
    ensures Atoi(TrimSpace("")) == None
  {
    TrimSpaceFixed("");
  }

  // ---- replay ---------------------------------------------------------------------------

  /** An event as the feed shows it: the outcome and the event fill each other's gaps. */
  function ForFeed(event: RunEvent): RunEvent {
    var d := event.outcome;
    var outcome := d.(
      pendingTasks := OrElse(d.pendingTasks, d.lifecycle.pendingTasks),
      expectedArtifacts := OrElse(d.expectedArtifacts, d.lifecycle.expectedArtifacts),
      attempt := if d.attempt <= 0 && event.attempt > 0 then event.attempt else d.attempt,
      resumeFromEvent := if d.resumeFromEvent <= 0 && event.resumeFromEvent > 0 then event.resumeFromEvent
        else d.resumeFromEvent,
      resumeReason := if Blank(d.resumeReason) && !Blank(event.resumeReason) then TrimSpace(event.resumeReason)
        else d.resumeReason);
    event.(
      attempt := if event.attempt <= 0 && outcome.attempt > 0 then outcome.attempt else event.attempt,
      resumeFromEvent := if event.resumeFromEvent <= 0 && outcome.resumeFromEvent > 0 then outcome.resumeFromEvent
        else event.resumeFromEvent,
      resumeReason := if Blank(event.resumeReason) && !Blank(outcome.resumeReason) then outcome.resumeReason
        else event.resumeReason,
      outcome := outcome)
  }

  /** One of two numbers where only positive ones are known; the first one if both are. */
  predicate FillsGap(own: int, other: int, shown: int) {
    if own > 0 then shown == own else if other > 0 then shown == other else shown == own
  }

  /** The feed shows an event under its own ID, name, run and thread with its own data and the run
      status, error and tasks of its outcome.  Attempt, position and reason known to only one of
      event and outcome are shown for both; known ones stay. */
  lemma FeedKeepsEvent(event: RunEvent)
    ensures var shown, d := ForFeed(event), event.outcome;
      && shown.id == event.id && shown.event == event.event && shown.data == event.data
      && shown.runID == event.runID && shown.threadID == event.threadID
      && shown.outcome.runStatus == d.runStatus && shown.outcome.interrupted == d.interrupted
      && shown.outcome.error == d.error && shown.outcome.taskState == d.taskState
      && shown.outcome.lifecycle == d.lifecycle
      && shown.outcome.pendingTasks == (if d.pendingTasks != [] then d.pendingTasks else d.lifecycle.pendingTasks)
      && shown.outcome.expectedArtifacts ==
           (if d.expectedArtifacts != [] then d.expectedArtifacts else d.lifecycle.expectedArtifacts)
      && FillsGap(event.attempt, d.attempt, shown.attempt)
      && FillsGap(d.attempt, event.attempt, shown.outcome.attempt)
      && FillsGap(event.resumeFromEvent, d.resumeFromEvent, shown.resumeFromEvent)
      && FillsGap(d.resumeFromEvent, event.resumeFromEvent, shown.outcome.resumeFromEvent)
      && shown.resumeReason ==
           (if Blank(event.resumeReason) && !Blank(d.resumeReason) then d.resumeReason else event.resumeReason)
      && shown.outcome.resumeReason ==
           (if Blank(d.resumeReason) && !Blank(event.resumeReason) then TrimSpace(event.resumeReason)
            else d.resumeReason)
  {
    hide TrimSpace;
  }

  /** Showing what is already shown changes nothing. */
  lemma FeedIsIdempotent(event: RunEvent)
    ensures ForFeed(ForFeed(event)) == ForFeed(event)
  {
    hide TrimSpace;
    TrimSpaceFixed(event.resumeReason);
  }

  function AllForFeed(events: seq<RunEvent>): (out: seq<RunEvent>)
    ensures |out| == |events| && forall i | 0 <= i < |events| :: out[i] == ForFeed(events[i])
  {
    seq(|events|, i requires 0 <= i < |events| => ForFeed(events[i]))
  }

  /** The events whose index is above `after`, in log order. */
  function After(log: seq<RunEvent>, after: int): seq<RunEvent> {
    if log == [] then []
    else
      var last := log[|log| - 1];
      After(log[..|log| - 1], after) + if EventIndex(last.id) <= after then [] else [last]
  }

  predicate HasEnd(events: seq<RunEvent>) {
    exists e :: e in events && e.event == "end"
  }

  /** The first loop of `ReplayFrom`. */
  method EventsAfter(log: seq<RunEvent>, after: int) returns (filtered: seq<RunEvent>)
    ensures filtered == After(log, after)
  {
    hide EventIndex;
    filtered := [];
    for i := 0 to |log|
      invariant filtered == After(log[..i], after)
    {
      assert log[..i + 1][..i] == log[..i];
      if EventIndex(log[i].id) > after {
        filtered := filtered + [log[i]];
      }
    }
    assert log[..|log|] == log;
  }

  /** The last loop of `ReplayFrom`. */
  method FindEnd(events: seq<RunEvent>) returns (found: bool)
    ensures found <==> HasEnd(events)
    ensures found <==> exists i | 0 <= i < |events| :: events[i].event == "end"
  {
    found := false;
    for i := 0 to |events|
      invariant found <==> exists j | 0 <= j < i :: events[j].event == "end"
    {
      if events[i].event == "end" {
        found := true;
      }
    }
  }

  method ReplayFrom(log: seq<RunEvent>, after: int) returns (events: seq<RunEvent>, replayedEnd: bool)
    ensures events == AllForFeed(if after > 0 then After(log, after) else log)
    ensures replayedEnd <==> HasEnd(events)
    ensures replayedEnd <==> exists i | 0 <= i < |events| :: events[i].event == "end"
  {
    hide After, ForFeed, HasEnd;
    events := log;
    if after > 0 {
      events := EventsAfter(log, after);
    }
    ghost var raw := events;
    for i := 0 to |events|
      invariant |events| == |raw|
      invariant forall j | 0 <= j < |raw| :: events[j] == if j < i then ForFeed(raw[j]) else raw[j]
    {
      events := events[i := ForFeed(events[i])];
    }
    replayedEnd := FindEnd(events);
  }

  /** The IDs that recording one event at a time produces. */
  predicate Sequential(runID: string, log: seq<RunEvent>) {
    |log| <= MAX_INT && forall i | 0 <= i < |log| :: log[i].id == EventID(runID, i + 1)
  }

  /** What a client that has seen the events up to index `after` is sent. */
  function Replayed(log: seq<RunEvent>, after: int): seq<RunEvent> {
    AllForFeed(if after > 0 then After(log, after) else log)
  }

  lemma SuffixStep<E>(log: seq<E>, n: nat, after: nat)
    requires n + 1 == |log|
    ensures after <= n ==> log[..n][after..] + [log[n]] == log[after..]
    ensures after == n + 1 ==> log[after..] == []
  {
  }

  lemma SequentialPrefix(runID: string, log: seq<RunEvent>)
    requires Sequential(runID, log) && log != []
    ensures Sequential(runID, log[..|log| - 1]) && log[|log| - 1].id == EventID(runID, |log|)
  {
    hide EventID;
  }

  lemma {:induction false} AfterIsSuffix(runID: string, log: seq<RunEvent>, after: nat)
    requires Sequential(runID, log)
    ensures After(log, after) == if after <= |log| then log[after..] else []
  {
    hide EventIndex, EventID, ForFeed, Sequential;
    if log != [] {
      var n := |log| - 1;
      assert |log| <= MAX_INT by { SequentialLength(runID, log); }
      SequentialPrefix(runID, log);
      AfterIsSuffix(runID, log[..n], after);
      EventIndexOfID(runID, n + 1);
      SuffixStep(log, n, after);
    }
  }

  lemma SequentialLength(runID: string, log: seq<RunEvent>)
    requires Sequential(runID, log)
    ensures |log| <= MAX_INT
  {
  }

  lemma FeedKeepsEnds(events: seq<RunEvent>)
    ensures HasEnd(AllForFeed(events)) <==> HasEnd(events)
  {
    var shown := AllForFeed(events);
    if e :| e in events && e.event == "end" {
      var i :| 0 <= i < |events| && events[i] == e;
      assert shown[i] in shown;
    }
    if e :| e in shown && e.event == "end" {
      var i :| 0 <= i < |shown| && shown[i] == e;
      assert events[i] in events;
    }
  }

  /** On a sequentially recorded log a replay is exactly the part of the log past the given
      position, and it reports the end exactly when that part holds an end event. */
  lemma ReplayIsTheSuffix(runID: string, log: seq<RunEvent>, after: int)
    requires Sequential(runID, log)
    ensures var start := if after <= 0 then 0 else if after <= |log| then after else |log|;
            && Replayed(log, after) == AllForFeed(log[start..])
            && (HasEnd(Replayed(log, after)) <==> HasEnd(log[start..]))
  {
    hide ForFeed, HasEnd, After, Sequential;
    var start := if after <= 0 then 0 else if after <= |log| then after else |log|;
    if after > 0 {
      AfterIsSuffix(runID, log, after);
    }
    assert log[0..] == log;
    FeedKeepsEnds(log[start..]);
  }

  /** A client that disconnects and later replays from the index of the last event it saw
      misses nothing and sees nothing twice, however far the log has grown. */
  lemma ReconnectIsLossless(runID: string, before: seq<RunEvent>, now: seq<RunEvent>)
    requires Sequential(runID, now) && before <= now && before != []
    ensures var last := before[|before| - 1];
            Replayed(before, 0) + Replayed(now, EventIndex(last.id)) == Replayed(now, 0)
  {
    hide ForFeed, HasEnd, After, EventIndex, EventID;
    var n := |before|;
    assert before[n - 1] == now[n - 1];
    EventIndexOfID(runID, n);
    assert EventIndex(before[n - 1].id) == n;
    ReplayIsTheSuffix(runID, now, n);
    assert Replayed(now, n) == AllForFeed(now[n..]);
    assert Replayed(before, 0) == AllForFeed(before) && Replayed(now, 0) == AllForFeed(now);
    assert AllForFeed(before) + AllForFeed(now[n..]) == AllForFeed(now);
  }

  // ---- the in-memory store and the recorder ---------------------------------------------

  class InMemoryRunEventStore {
    var events: map<string, seq<RunEvent>>

    constructor ()
      ensures forall runID :: Log(runID) == []
    {
      events := map[];
    }

    function Log(runID: string): seq<RunEvent>
      reads this
    {
      if runID in events then events[runID] else []
    }

    method NextRunEventIndex(runID: string) returns (index: nat)
      ensures index == |Log(runID)| + 1
    {
      index := |if runID in events then events[runID] else []| + 1;
    }

    method AppendRunEvent(runID: string, event: RunEvent)
      modifies this
      ensures forall r :: Log(r) == old(Log(r)) + if r == runID then [event] else []
    {
      events := events[runID := (if runID in events then events[runID] else []) + [event]];
    }

    method LoadRunEvents(runID: string) returns (log: seq<RunEvent>)
      ensures log == Log(runID)
    {
      log := if runID in events then events[runID] else [];
    }

    method ReplaceRunEvents(runID: string, log: seq<RunEvent>)
      modifies this
      ensures forall r :: Log(r) == if r == runID then log else old(Log(r))
    {
      events := events[runID := log];
    }

    /** Recording keeps every log sequential, so no event ID is ever issued twice to a run. */
    method RecordWithContext(ctx: EventContext, runID: string, threadID: string, eventType: string, data: string)
      returns (event: RunEvent)
      requires forall r :: Sequential(r, Log(r))
      requires |Log(runID)| < MAX_INT
      modifies this
      ensures forall r :: Sequential(r, Log(r))
      ensures forall r :: Log(r) == old(Log(r)) + if r == runID then [event] else []
      ensures event.id == EventID(runID, |Log(runID)|)
      ensures event == RunEvent(event.id, eventType, data, runID, threadID, ctx.attempt, ctx.resumeFromEvent,
              ctx.resumeReason, ctx.outcome)
    {
      var index := NextRunEventIndex(runID);
      event := RunEvent(EventID(runID, index), eventType, data, runID, threadID,
                        ctx.attempt, ctx.resumeFromEvent, ctx.resumeReason, ctx.outcome);
      AppendRunEvent(runID, event);
    }
  }

  // ---- the table-backed store -----------------------------------------------------------

  class SQLiteRunEventStore {
    var table: map<string, Rows<RunEvent>>

    ghost predicate Valid()
      reads this
    {
      forall r | r in table :: Contiguous(table[r])
    }

    function RowsOf(runID: string): Rows<RunEvent>
      reads this
    {
      if runID in table then table[runID] else map[]
    }

    function Log(runID: string): seq<RunEvent>
      reads this
    {
      Ordered(RowsOf(runID))
    }

    constructor ()
      ensures Valid() && forall runID :: Log(runID) == []
    {
      table := map[];
    }

    method NextRunEventIndex(runID: string) returns (index: int)
      requires Valid()
      ensures index == if Blank(runID) then 1 else |Log(runID)| + 1
    {
      if Blank(runID) {
        return 1;
      }
      index := NextIndex(RowsOf(runID));
      assert Contiguous(RowsOf(runID));
      OrderedLength(RowsOf(runID));
      ContiguousNext(RowsOf(runID), RunEvent("", "", "", "", "", 0, 0, "", NO_DESCRIPTOR));
    }

    /** Like the in-memory store, except that a blank run ID records nothing. */
    method AppendRunEvent(runID: string, event: RunEvent)
      requires Valid()
      modifies this
      ensures Valid()
      ensures forall r :: Log(r) == old(Log(r)) + if r == runID && !Blank(runID) then [event] else []
    {
      if Blank(runID) {
        assert forall r :: old(Log(r)) + [] == old(Log(r));
        return;
      }
      var rows := RowsOf(runID);
      assert Contiguous(rows);
      ContiguousNext(rows, event);
      InsertAppends(rows, event);
      table := table[runID := rows[NextIndex(rows) := event]];
      assert forall r | r != runID :: RowsOf(r) == old(RowsOf(r));
      assert forall r | r != runID :: old(Log(r)) + [] == old(Log(r));
    }

    method LoadRunEvents(runID: string) returns (log: seq<RunEvent>)
      ensures log == if Blank(runID) then [] else Log(runID)
    {
      if Blank(runID) {
        return [];
      }
      log := Ordered(RowsOf(runID));
    }

    method ReplaceRunEvents(runID: string, log: seq<RunEvent>)
      requires Valid()
      modifies this
      ensures Valid()
      ensures forall r :: Log(r) == if r == runID && !Blank(runID) then log else old(Log(r))
    {
      if Blank(runID) {
        return;
      }
      var rows := RowsFor(log);
      table := table[runID := rows];
      assert forall r | r != runID :: RowsOf(r) == old(RowsOf(r));
    }
  }
}
