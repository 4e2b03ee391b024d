/** How an appended event reaches a subscriber of the table-backed event store
    (pkg/harnessruntime/sqlite_state_store.go, event_store.go).

    An appender inserts the row, then reads the set of subscribers, then offers the event to
    each of their live channels without waiting: a full channel loses the offer.  Next to that
    every subscriber has a poller, which rescans the log and sends what it has not sent, and a
    merger, which forwards from both channels whatever key it has not forwarded.  Every channel
    operation and every store access is one step here, and steps of all parties interleave
    freely.  The protocol only ever looks at an event through its two keys. */
module EventSubscription {
  import opened GoStrings
  import opened RunEvents
  import opened Wrappers
  import Sets

  /** The key the poller remembers for the event at a log position, and the merger's key. */
  datatype Keys<!E> = Keys(poll: (nat, E) -> string, merge: E -> string)

  datatype Subscriber<E> = Subscriber(
    capacity: nat,
    live: seq<E>,            // the channel appenders offer to
    snapshot: seq<E>,        // what the poller loaded last,
    pos: nat,                // and how far it has scanned it
    pollSeen: set<string>,
    polled: seq<E>,          // the channel the poller sends to
    held: Option<E>,         // received by the merger and not yet forwarded
    seen: set<string>,
    out: seq<E>,             // forwarded and still in the subscriber's channel
    received: seq<E>)        // taken out of it
  {
    function Delivered(): seq<E> {
      received + out
    }
  }

  datatype System<E> = System(
    log: seq<E>,
    collecting: multiset<E>,          // inserted, subscribers not yet read
    sending: multiset<(nat, E)>,      // offers still to be made
    subs: map<nat, Subscriber<E>>,
    lastID: nat)

  datatype Step<E> =
    | Insert(event: E)
    | Collect(event: E)
    | Offer(id: nat, event: E)
    | Subscribe(buffer: int)
    | Load(id: nat)
    | Scan(id: nat)
    | TakeLive(id: nat)
    | TakePolled(id: nat)
    | Forward(id: nat)
    | Receive(id: nat)

  function Empty<E>(): System<E> {
    System([], multiset{}, multiset{}, map[], 0)
  }

  // ---- the steps of one subscriber ------------------------------------------------------

  function NewSubscriber<E>(buffer: int): Subscriber<E> {
    Subscriber(if buffer <= 0 then 1 else buffer, [], [], 0, {}, [], None, {}, [], [])
  }

  function OfferTo<E>(s: Subscriber<E>, event: E): Subscriber<E> {
    if |s.live| < s.capacity then s.(live := s.live + [event]) else s
  }

  function LoadLog<E>(s: Subscriber<E>, log: seq<E>): Option<Subscriber<E>> {
    if s.pos == |s.snapshot| then Some(s.(snapshot := log, pos := 0)) else None
  }

  /** The poller skips a key it has sent, sends an event that fits, and otherwise waits. */
  function ScanOne<E>(k: Keys<E>, s: Subscriber<E>): Option<Subscriber<E>> {
    if s.pos >= |s.snapshot| then None
    else
      var event := s.snapshot[s.pos];
      var key := k.poll(s.pos, event);
      if key in s.pollSeen then Some(s.(pos := s.pos + 1))
      else if |s.polled| < s.capacity then
        Some(s.(pos := s.pos + 1, polled := s.polled + [event], pollSeen := s.pollSeen + {key}))
      else None
  }

  /** The merger drops a key it has forwarded and holds on to any other event. */
  function Accept<E>(k: Keys<E>, s: Subscriber<E>, event: E): Subscriber<E> {
    if k.merge(event) in s.seen then s else s.(held := Some(event))
  }

  function TakeFromLive<E>(k: Keys<E>, s: Subscriber<E>): Option<Subscriber<E>> {
    if s.held == None && s.live != [] then Some(Accept(k, s.(live := s.live[1..]), s.live[0])) else None
  }

  function TakeFromPolled<E>(k: Keys<E>, s: Subscriber<E>): Option<Subscriber<E>> {
    if s.held == None && s.polled != [] then Some(Accept(k, s.(polled := s.polled[1..]), s.polled[0])) else None
  }

  function ForwardHeld<E>(k: Keys<E>, s: Subscriber<E>): Option<Subscriber<E>> {
    if s.held.Some? && |s.out| < s.capacity then
      Some(s.(held := None, out := s.out + [s.held.value], seen := s.seen + {k.merge(s.held.value)}))
    else None
  }

  function ReceiveOne<E>(s: Subscriber<E>): Option<Subscriber<E>> {
    if s.out != [] then Some(s.(received := s.received + [s.out[0]], out := s.out[1..])) else None
  }

  /** The next state of subscriber `step.id`; None when the step has to wait. */
  function SubscriberNext<E>(k: Keys<E>, log: seq<E>, s: Subscriber<E>, step: Step<E>): Option<Subscriber<E>> {
    match step
    case Load(_) => LoadLog(s, log)
    case Scan(_) => ScanOne(k, s)
    case TakeLive(_) => TakeFromLive(k, s)
    case TakePolled(_) => TakeFromPolled(k, s)
    case Forward(_) => ForwardHeld(k, s)
    case Receive(_) => ReceiveOne(s)
    case _ => None
  }

  // ---- the steps of the system ----------------------------------------------------------

  function Next<E(==)>(k: Keys<E>, s: System<E>, step: Step<E>): Option<System<E>> {
    match step
    case Insert(event) =>
      Some(s.(log := s.log + [event], collecting := s.collecting + multiset{event}))
    case Collect(event) =>
      if event in s.collecting then
        Some(s.(collecting := s.collecting - multiset{event},
                sending := s.sending + multiset(set id | id in s.subs :: (id, event))))
      else None
    case Offer(id, event) =>
      if (id, event) in s.sending && id in s.subs then
        Some(s.(sending := s.sending - multiset{(id, event)},
                subs := s.subs[id := OfferTo(s.subs[id], event)]))
      else None
    case Subscribe(buffer) =>
      Some(s.(lastID := s.lastID + 1, subs := s.subs[s.lastID + 1 := NewSubscriber(buffer)]))
    case _ =>
      if step.id !in s.subs then None
      else
        match SubscriberNext(k, s.log, s.subs[step.id], step)
        case Some(sub) => Some(s.(subs := s.subs[step.id := sub]))
        case None => None
  }

  /** The state after a whole schedule; None when some step of it was not possible. */
  function Run<E(==)>(k: Keys<E>, s: System<E>, steps: seq<Step<E>>): Option<System<E>>
    decreases |steps|
  {
    if steps == [] then Some(s)
    else
      match Next(k, s, steps[0])
      case None => None
      case Some(t) => Run(k, t, steps[1..])
  }

  // ---- the invariant --------------------------------------------------------------------

  predicate AllIn<E(==)>(events: seq<E>, log: seq<E>) {
    forall e | e in events :: e in log
  }

  predicate DistinctKeys<E>(k: Keys<E>, events: seq<E>) {
    forall i, j | 0 <= i < j < |events| :: k.merge(events[i]) != k.merge(events[j])
  }

  predicate KeyIn<E>(k: Keys<E>, events: seq<E>, key: string) {
    exists i | 0 <= i < |events| :: k.merge(events[i]) == key
  }

  predicate AllKeysIn<E>(k: Keys<E>, log: seq<E>, delivered: seq<E>) {
    forall i | 0 <= i < |log| :: KeyIn(k, delivered, k.merge(log[i]))
  }

  /** A key that the merger has forwarded, holds, or will still receive from the poller. */
  predicate InPipeline<E>(k: Keys<E>, s: Subscriber<E>, key: string) {
    || key in s.seen
    || (s.held.Some? && k.merge(s.held.value) == key)
    || KeyIn(k, s.polled, key)
  }

  /** The poller remembers `key` because of position `i`, and that event is not lost. */
  predicate Kept<E>(k: Keys<E>, log: seq<E>, s: Subscriber<E>, key: string, i: int) {
    0 <= i < |log| && k.poll(i, log[i]) == key && InPipeline(k, s, k.merge(log[i]))
  }

  ghost predicate SubscriberInv<E>(k: Keys<E>, log: seq<E>, s: Subscriber<E>) {
    && s.capacity > 0
    && AllIn(s.live, log) && AllIn(s.polled, log) && AllIn(s.Delivered(), log)
    && (s.held.Some? ==> s.held.value in log && k.merge(s.held.value) !in s.seen)
    && s.snapshot <= log && s.pos <= |s.snapshot|
    && (forall i | 0 <= i < s.pos :: k.poll(i, s.snapshot[i]) in s.pollSeen)
    && (forall key | key in s.pollSeen :: exists i :: Kept(k, log, s, key, i))
    && (forall key :: key in s.seen <==> KeyIn(k, s.Delivered(), key))
    && DistinctKeys(k, s.Delivered())
  }

  ghost predicate Inv<E>(k: Keys<E>, s: System<E>) {
    && (forall e | e in s.collecting :: e in s.log)
    && (forall p | p in s.sending :: p.1 in s.log)
    && (forall id | id in s.subs :: id <= s.lastID && SubscriberInv(k, s.log, s.subs[id]))
  }

  lemma KeptAcross<E>(k: Keys<E>, log: seq<E>, s: Subscriber<E>, t: Subscriber<E>)
    requires forall key | key in s.pollSeen :: exists i :: Kept(k, log, s, key, i)
    requires forall key | InPipeline(k, s, key) :: InPipeline(k, t, key)
    ensures forall key | key in s.pollSeen :: exists i :: Kept(k, log, t, key, i)
  {
    forall key | key in s.pollSeen
      ensures exists i :: Kept(k, log, t, key, i)
    {
      var i :| Kept(k, log, s, key, i);
      assert Kept(k, log, t, key, i);
    }
  }

  lemma LoadKeepsInv<E>(k: Keys<E>, log: seq<E>, s: Subscriber<E>)
    requires SubscriberInv(k, log, s) && LoadLog(s, log).Some?
    ensures SubscriberInv(k, log, LoadLog(s, log).value)
  {
    KeptAcross(k, log, s, LoadLog(s, log).value);
  }

  lemma ScanKeepsInv<E>(k: Keys<E>, log: seq<E>, s: Subscriber<E>)
    requires SubscriberInv(k, log, s) && ScanOne(k, s).Some?
    ensures SubscriberInv(k, log, ScanOne(k, s).value)
  {
    var t := ScanOne(k, s).value;
    var event := s.snapshot[s.pos];
    var key := k.poll(s.pos, event);
    assert log[s.pos] == event && event in log;
    assert forall i | 0 <= i < |s.polled| :: t.polled[i] == s.polled[i];
    KeptAcross(k, log, s, t);
    if key !in s.pollSeen {
      assert t.polled[|s.polled|] == event;
      assert Kept(k, log, t, key, s.pos);
    }
  }

  lemma TakeLiveKeepsInv<E>(k: Keys<E>, log: seq<E>, s: Subscriber<E>)
    requires SubscriberInv(k, log, s) && TakeFromLive(k, s).Some?
    ensures SubscriberInv(k, log, TakeFromLive(k, s).value)
  {
    assert s.live[0] in s.live;
    KeptAcross(k, log, s, TakeFromLive(k, s).value);
  }

  lemma TakePolledKeepsInv<E>(k: Keys<E>, log: seq<E>, s: Subscriber<E>)
    requires SubscriberInv(k, log, s) && TakeFromPolled(k, s).Some?
    ensures SubscriberInv(k, log, TakeFromPolled(k, s).value)
  {
    var t := TakeFromPolled(k, s).value;
    assert s.polled[0] in s.polled;
    forall key | InPipeline(k, s, key)
      ensures InPipeline(k, t, key)
    {
      if i :| 0 <= i < |s.polled| && k.merge(s.polled[i]) == key {
        assert i > 0 ==> t.polled[i - 1] == s.polled[i];
      }
    }
    KeptAcross(k, log, s, t);
  }

  lemma ForwardKeepsInv<E>(k: Keys<E>, log: seq<E>, s: Subscriber<E>)
    requires SubscriberInv(k, log, s) && ForwardHeld(k, s).Some?
    ensures SubscriberInv(k, log, ForwardHeld(k, s).value)
  {
    var t := ForwardHeld(k, s).value;
    var event := s.held.value;
    var before := s.Delivered();
    assert t.Delivered() == before + [event];
    assert forall i | 0 <= i < |before| :: t.Delivered()[i] == before[i];
    assert t.Delivered()[|before|] == event;
    KeptAcross(k, log, s, t);
  }

  lemma ReceiveKeepsInv<E>(k: Keys<E>, log: seq<E>, s: Subscriber<E>)
    requires SubscriberInv(k, log, s) && ReceiveOne(s).Some?
    ensures SubscriberInv(k, log, ReceiveOne(s).value)
  {
    var t := ReceiveOne(s).value;
    assert t.Delivered() == s.Delivered();
    KeptAcross(k, log, s, t);
  }

  lemma SubscriberStepKeepsInv<E>(k: Keys<E>, log: seq<E>, s: Subscriber<E>, step: Step<E>)
    requires SubscriberInv(k, log, s) && SubscriberNext(k, log, s, step).Some?
    ensures SubscriberInv(k, log, SubscriberNext(k, log, s, step).value)
  {
    hide SubscriberInv;
    match step {
      case Load(_) => LoadKeepsInv(k, log, s);
      case Scan(_) => ScanKeepsInv(k, log, s);
      case TakeLive(_) => TakeLiveKeepsInv(k, log, s);
      case TakePolled(_) => TakePolledKeepsInv(k, log, s);
      case Forward(_) => ForwardKeepsInv(k, log, s);
      case Receive(_) => ReceiveKeepsInv(k, log, s);
    }
  }

  lemma OfferKeepsInv<E>(k: Keys<E>, log: seq<E>, s: Subscriber<E>, event: E)
    requires SubscriberInv(k, log, s) && event in log
    ensures SubscriberInv(k, log, OfferTo(s, event))
  {
    KeptAcross(k, log, s, OfferTo(s, event));
  }

  lemma InsertKeepsInv<E>(k: Keys<E>, log: seq<E>, s: Subscriber<E>, event: E)
    requires SubscriberInv(k, log, s)
    ensures SubscriberInv(k, log + [event], s)
  {
    forall key | key in s.pollSeen
      ensures exists i :: Kept(k, log + [event], s, key, i)
    {
      var i :| Kept(k, log, s, key, i);
      assert Kept(k, log + [event], s, key, i);
    }
  }

  lemma NewSubscriberInv<E>(k: Keys<E>, log: seq<E>, buffer: int)
    ensures SubscriberInv(k, log, NewSubscriber<E>(buffer))
  {
  }

  lemma OwnStepKeepsInv<E>(k: Keys<E>, s: System<E>, step: Step<E>)
    requires Inv(k, s) && Next(k, s, step).Some?
    requires !step.Insert? && !step.Collect? && !step.Offer? && !step.Subscribe?
    ensures Inv(k, Next(k, s, step).value)
    ensures Next(k, s, step).value.log == s.log
  {
    hide SubscriberInv, SubscriberNext;
    SubscriberStepKeepsInv(k, s.log, s.subs[step.id], step);
  }

  lemma OfferStepKeepsInv<E>(k: Keys<E>, s: System<E>, step: Step<E>)
    requires Inv(k, s) && Next(k, s, step).Some? && (step.Offer? || step.Subscribe?)
    ensures Inv(k, Next(k, s, step).value)
    ensures Next(k, s, step).value.log == s.log
  {
    hide SubscriberInv, SubscriberNext, OfferTo, NewSubscriber;
    match step {
      case Offer(id, event) =>
        assert (id, event).1 in s.log;
        OfferKeepsInv(k, s.log, s.subs[id], event);
      case Subscribe(buffer) =>
        NewSubscriberInv(k, s.log, buffer);
    }
  }

  lemma AppendStepKeepsInv<E>(k: Keys<E>, s: System<E>, step: Step<E>)
    requires Inv(k, s) && Next(k, s, step).Some? && (step.Insert? || step.Collect?)
    ensures Inv(k, Next(k, s, step).value)
    ensures s.log <= Next(k, s, step).value.log
  {
    hide SubscriberInv, SubscriberNext;
    var t := Next(k, s, step).value;
    match step {
      case Insert(event) =>
        forall id | id in s.subs
          ensures SubscriberInv(k, t.log, s.subs[id])
        {
          InsertKeepsInv(k, s.log, s.subs[id], event);
        }
      case Collect(event) =>
        assert forall p | p in t.sending :: p in s.sending || p.1 == event;
    }
  }

  /** Every step of every party keeps the invariant, and no step takes an event off the log. */
  lemma NextKeepsInv<E>(k: Keys<E>, s: System<E>, step: Step<E>)
    requires Inv(k, s) && Next(k, s, step).Some?
    ensures Inv(k, Next(k, s, step).value)
    ensures s.log <= Next(k, s, step).value.log
  {
    hide Inv, Next;
    if step.Insert? || step.Collect? {
      AppendStepKeepsInv(k, s, step);
    } else if step.Offer? || step.Subscribe? {
      OfferStepKeepsInv(k, s, step);
    } else {
      OwnStepKeepsInv(k, s, step);
    }
  }

  lemma {:induction false} RunKeepsInv<E>(k: Keys<E>, s: System<E>, steps: seq<Step<E>>)
    requires Inv(k, s) && Run(k, s, steps).Some?
    ensures Inv(k, Run(k, s, steps).value)
    decreases |steps|
  {
    hide Next, Inv;
    if steps != [] {
      NextKeepsInv(k, s, steps[0]);
      RunKeepsInv(k, Next(k, s, steps[0]).value, steps[1..]);
    }
  }

  // ---- no event twice -------------------------------------------------------------------

  /** Under every interleaving: whatever a subscriber was delivered is in the log, and no key
      was delivered twice. */
  lemma DeliveredAtMostOnce<E>(k: Keys<E>, steps: seq<Step<E>>, id: nat)
    requires Run(k, Empty(), steps).Some? && id in Run(k, Empty(), steps).value.subs
    ensures var s := Run(k, Empty(), steps).value;
            AllIn(s.subs[id].Delivered(), s.log) && DistinctKeys(k, s.subs[id].Delivered())
  {
    hide Run, Next;
    RunKeepsInv(k, Empty(), steps);
  }

  // ---- no event lost --------------------------------------------------------------------

  /** The poller has scanned the whole log and nothing waits between it and the subscriber. */
  predicate Drained<E(==)>(log: seq<E>, s: Subscriber<E>) {
    s.snapshot == log && s.pos == |s.snapshot| && s.live == [] && s.polled == [] && s.held == None
  }

  /** The poller never takes two events for one that the merger would tell apart. */
  predicate PollRespectsMerge<E>(k: Keys<E>, log: seq<E>) {
    forall i, j | 0 <= i < |log| && 0 <= j < |log| && k.poll(i, log[i]) == k.poll(j, log[j]) ::
      k.merge(log[i]) == k.merge(log[j])
  }

  /** Once drained, every event of the log has been delivered, up to its key. */
  lemma DrainedDeliversEveryKey<E>(k: Keys<E>, log: seq<E>, s: Subscriber<E>)
    requires SubscriberInv(k, log, s) && Drained(log, s) && PollRespectsMerge(k, log)
    ensures AllKeysIn(k, log, s.Delivered())
  {
    SentIsDelivered(k, log, s);
  }

  /** The log positions whose poll key the poller has not sent. */
  function Unsent<E>(k: Keys<E>, log: seq<E>, pollSeen: set<string>): set<int> {
    set i | 0 <= i < |log| && k.poll(i, log[i]) !in pollSeen
  }

  lemma SentIsDelivered<E>(k: Keys<E>, log: seq<E>, s: Subscriber<E>)
    requires SubscriberInv(k, log, s) && PollRespectsMerge(k, log)
    requires Unsent(k, log, s.pollSeen) == {} && s.polled == [] && s.held == None
    ensures AllKeysIn(k, log, s.Delivered())
  {
    forall i | 0 <= i < |log|
      ensures KeyIn(k, s.Delivered(), k.merge(log[i]))
    {
      var key := k.poll(i, log[i]);
      assert i !in Unsent(k, log, s.pollSeen);
      assert key in s.pollSeen;
      var m :| Kept(k, log, s, key, m);
      assert k.merge(log[m]) == k.merge(log[i]) && k.merge(log[i]) in s.seen;
    }
  }

  lemma LastIsNew<E>(k: Keys<E>, events: seq<E>)
    requires DistinctKeys(k, events) && events != []
    ensures events[|events| - 1] !in events[..|events| - 1]
  {
    assert forall i | 0 <= i < |events| - 1 :: events[..|events| - 1][i] == events[i];
  }

  lemma {:induction false} DistinctMultiplicity<E>(k: Keys<E>, events: seq<E>, x: E)
    requires DistinctKeys(k, events)
    ensures multiset(events)[x] == if x in events then 1 else 0
  {
    if events != [] {
      var n := |events| - 1;
      DistinctMultiplicity(k, events[..n], x);
      assert events == events[..n] + [events[n]];
      LastIsNew(k, events);
    }
  }

  /** Once a subscriber is drained it has been delivered the log exactly, each event once, if
      and only if no two events of the log share a merge key. */
  lemma DrainedDeliversExactly<E>(k: Keys<E>, steps: seq<Step<E>>, id: nat)
    requires Run(k, Empty(), steps).Some? && id in Run(k, Empty(), steps).value.subs
    requires var s := Run(k, Empty(), steps).value; Drained(s.log, s.subs[id]) && PollRespectsMerge(k, s.log)
    ensures var s := Run(k, Empty(), steps).value;
            multiset(s.subs[id].Delivered()) == multiset(s.log) <==> DistinctKeys(k, s.log)
  {
    hide Run, Next;
    RunKeepsInv(k, Empty(), steps);
    var s := Run(k, Empty(), steps).value;
    var sub := s.subs[id];
    DrainedDeliversEveryKey(k, s.log, sub);
    ExactlyByKeys(k, s.log, sub.Delivered());
  }

  lemma ExactlyByKeys<E>(k: Keys<E>, log: seq<E>, delivered: seq<E>)
    requires DistinctKeys(k, delivered) && AllIn(delivered, log) && AllKeysIn(k, log, delivered)
    ensures multiset(delivered) == multiset(log) <==> DistinctKeys(k, log)
  {
    if DistinctKeys(k, log) {
      SameEvents(k, log, delivered);
    } else if multiset(delivered) == multiset(log) {
      DistinctKeysByMultiset(k, log, delivered);
    }
  }

  lemma SameEvents<E>(k: Keys<E>, log: seq<E>, delivered: seq<E>)
    requires DistinctKeys(k, log) && DistinctKeys(k, delivered) && AllIn(delivered, log)
    requires AllKeysIn(k, log, delivered)
    ensures multiset(delivered) == multiset(log)
  {
    forall x: E
      ensures multiset(delivered)[x] == multiset(log)[x]
    {
      DistinctMultiplicity(k, log, x);
      DistinctMultiplicity(k, delivered, x);
      if x in log {
        var i :| 0 <= i < |log| && log[i] == x;
        var j :| 0 <= j < |delivered| && k.merge(delivered[j]) == k.merge(log[i]);
        assert delivered[j] in delivered;
        var m :| 0 <= m < |log| && log[m] == delivered[j];
        assert m == i;
      }
    }
  }

  lemma DistinctKeysByMultiset<E>(k: Keys<E>, log: seq<E>, delivered: seq<E>)
    requires DistinctKeys(k, delivered) && multiset(delivered) == multiset(log)
    ensures DistinctKeys(k, log)
  {
    forall i, j | 0 <= i < j < |log|
      ensures k.merge(log[i]) != k.merge(log[j])
    {
      assert log[i] in log && log[j] in log;
      assert log[i] in multiset(delivered) && log[j] in multiset(delivered);
      if log[i] == log[j] {
        DistinctMultiplicity(k, delivered, log[i]);
        TwiceInMultiset(log, i, j);
        assert false;
      }
      DifferentKeys(k, delivered, log[i], log[j]);
    }
  }

  lemma DifferentKeys<E>(k: Keys<E>, events: seq<E>, x: E, y: E)
    requires DistinctKeys(k, events) && x in events && y in events && x != y
    ensures k.merge(x) != k.merge(y)
  {
    var a :| 0 <= a < |events| && events[a] == x;
    var b :| 0 <= b < |events| && events[b] == y;
  }

  lemma TwiceInMultiset<E>(s: seq<E>, i: nat, j: nat)
    requires i < j < |s| && s[i] == s[j]
    ensures multiset(s)[s[i]] >= 2
  {
    assert s == s[..j] + s[j..];
    assert s[..j][i] == s[i] && s[i] in multiset(s[..j]);
    assert s[j..][0] == s[j] && s[j] in multiset(s[j..]);
  }

  // ---- no state is stuck ----------------------------------------------------------------

  /** The next step towards a drained subscriber. */
  function DrainStep<E(==)>(log: seq<E>, s: Subscriber<E>, id: nat): Step<E> {
    if s.held.Some? then (if |s.out| < s.capacity then Forward(id) else Receive(id))
    else if s.polled != [] then TakePolled(id)
    else if s.live != [] then TakeLive(id)
    else if s.pos < |s.snapshot| then Scan(id)
    else Load(id)
  }

  /** How much work is left before the subscriber is drained, compared lexicographically. */
  function Backlog<E(==)>(log: seq<E>, s: Subscriber<E>): (int, int, int, int, int) {
    (if s.snapshot == log then 0 else 1, |s.snapshot| - s.pos, |s.polled| + |s.live|,
     if s.held.Some? then 1 else 0, |s.out|)
  }

  predicate Less(a: (int, int, int, int, int), b: (int, int, int, int, int)) {
    || a.0 < b.0
    || (a.0 == b.0 && (a.1 < b.1 ||
        (a.1 == b.1 && (a.2 < b.2 || (a.2 == b.2 && (a.3 < b.3 || (a.3 == b.3 && a.4 < b.4)))))))
  }

  lemma DrainStepProgress<E>(k: Keys<E>, log: seq<E>, s: Subscriber<E>, id: nat)
    requires s.capacity > 0 && s.pos <= |s.snapshot| && !Drained(log, s)
    ensures var next := SubscriberNext(k, log, s, DrainStep(log, s, id));
            next.Some? && Less(Backlog(log, next.value), Backlog(log, s))
  {
  }

  predicate OwnStep<E>(step: Step<E>, id: nat) {
    match step
    case Insert(_) => false
    case Collect(_) => false
    case Offer(_, _) => false
    case Subscribe(_) => false
    case _ => step.id == id
  }

  /** From every state a subscriber can be drained by steps of its own poller, merger and
      reader alone: whatever appenders did before, nothing is ever stuck. */
  lemma {:induction false} CanDrain<E>(k: Keys<E>, s: System<E>, id: nat) returns (steps: seq<Step<E>>)
    requires Inv(k, s) && id in s.subs
    ensures Run(k, s, steps).Some?
    ensures var t := Run(k, s, steps).value; t.log == s.log && id in t.subs && Drained(t.log, t.subs[id])
    ensures forall i | 0 <= i < |steps| :: OwnStep(steps[i], id)
    decreases Backlog(s.log, s.subs[id]).0, Backlog(s.log, s.subs[id]).1, Backlog(s.log, s.subs[id]).2,
              Backlog(s.log, s.subs[id]).3, Backlog(s.log, s.subs[id]).4
  {
    hide SubscriberNext, Next, DrainStep, Drained, AllIn, DistinctKeys, KeyIn, Kept;
    var sub := s.subs[id];
    assert SubscriberInv(k, s.log, sub);
    if Drained(s.log, sub) {
      steps := [];
    } else {
      var step := DrainStep(s.log, sub, id);
      var t := DrainOnce(k, s, id);
      var rest := CanDrain(k, t, id);
      steps := [step] + rest;
      assert steps[1..] == rest;
    }
  }

  lemma DrainOnce<E>(k: Keys<E>, s: System<E>, id: nat) returns (t: System<E>)
    requires Inv(k, s) && id in s.subs && !Drained(s.log, s.subs[id])
    ensures var step := DrainStep(s.log, s.subs[id], id);
            OwnStep(step, id) && Next(k, s, step) == Some(t) && Inv(k, t) && t.log == s.log && id in t.subs &&
            Less(Backlog(t.log, t.subs[id]), Backlog(s.log, s.subs[id]))
  {
    var sub := s.subs[id];
    assert SubscriberInv(k, s.log, sub);
    var step := DrainStep(s.log, sub, id);
    DrainStepProgress(k, s.log, sub, id);
    t := Next(k, s, step).value;
    OwnStepKeepsInv(k, s, step);
  }

  // ---- every schedule catches up --------------------------------------------------------

  /** Rescans of the poller with nothing new to send, the only steps that can go on forever. */
  predicate IdlePoll<E>(k: Keys<E>, log: seq<E>, s: Subscriber<E>, step: Step<E>) {
    (step.Load? || step.Scan?) && Unsent(k, log, s.pollSeen) == {}
  }

  /** Everything logged has been sent and forwarded, and the reader has taken it. */
  predicate CaughtUp<E(==)>(k: Keys<E>, log: seq<E>, s: Subscriber<E>) {
    Unsent(k, log, s.pollSeen) == {} && s.live == [] && s.polled == [] && s.held == None && s.out == []
  }

  /** The steps of the poller before it can have sent everything. */
  function PollLeft<E(==)>(k: Keys<E>, log: seq<E>, s: Subscriber<E>): int {
    if Unsent(k, log, s.pollSeen) == {} then 0
    else (if s.snapshot == log then 0 else |log| + 1) + |s.snapshot| - s.pos
  }

  /** A bound on the steps of poller, merger and reader before they have caught up: an event may
      have to be sent, taken, forwarded and read. */
  function Left<E(==)>(k: Keys<E>, log: seq<E>, s: Subscriber<E>): int {
    PollLeft(k, log, s) + 4 * |Unsent(k, log, s.pollSeen)| + 3 * (|s.polled| + |s.live|) +
    (if s.held.Some? then 2 else 0) + |s.out|
  }

  lemma LeftIsZero<E>(k: Keys<E>, log: seq<E>, s: Subscriber<E>)
    requires SubscriberInv(k, log, s)
    ensures Left(k, log, s) >= 0
    ensures Left(k, log, s) == 0 <==> CaughtUp(k, log, s)
  {
    hide Unsent;
  }

  lemma SentOne<E>(k: Keys<E>, log: seq<E>, pollSeen: set<string>, i: nat)
    requires i < |log| && k.poll(i, log[i]) !in pollSeen
    ensures |Unsent(k, log, pollSeen + {k.poll(i, log[i])})| < |Unsent(k, log, pollSeen)|
  {
    var before, after := Unsent(k, log, pollSeen), Unsent(k, log, pollSeen + {k.poll(i, log[i])});
    assert i in before;
    Sets.SubsetIsSmaller(after, before - {i});
  }

  lemma PollLowersLeft<E>(k: Keys<E>, log: seq<E>, s: Subscriber<E>, step: Step<E>)
    requires SubscriberInv(k, log, s) && (step.Load? || step.Scan?) && SubscriberNext(k, log, s, step).Some?
    ensures var t := SubscriberNext(k, log, s, step).value;
            if IdlePoll(k, log, s, step) then Left(k, log, t) == Left(k, log, s) else Left(k, log, t) < Left(k, log, s)
  {
    if step.Load? && s.snapshot == log {
      assert Unsent(k, log, s.pollSeen) == {};
    }
    hide Unsent;
    if step.Scan? {
      var key := k.poll(s.pos, s.snapshot[s.pos]);
      assert s.snapshot[s.pos] == log[s.pos];
      if key !in s.pollSeen {
        SentOne(k, log, s.pollSeen, s.pos);
        assert |Unsent(k, log, s.pollSeen)| > 0;
      }
    }
  }

  lemma OwnStepLowersLeft<E>(k: Keys<E>, log: seq<E>, s: Subscriber<E>, step: Step<E>)
    requires SubscriberInv(k, log, s) && SubscriberNext(k, log, s, step).Some?
    ensures var t := SubscriberNext(k, log, s, step).value;
            if IdlePoll(k, log, s, step) then Left(k, log, t) == Left(k, log, s) else Left(k, log, t) < Left(k, log, s)
  {
    if step.Load? || step.Scan? {
      PollLowersLeft(k, log, s, step);
    } else {
      hide Unsent, SubscriberInv;
    }
  }

  /** A step of the subscriber other than an idle rescan. */
  predicate Working<E>(k: Keys<E>, s: System<E>, step: Step<E>, id: nat) {
    id in s.subs && OwnStep(step, id) && !IdlePoll(k, s.log, s.subs[id], step)
  }

  predicate IsOffer<E>(step: Step<E>, id: nat) {
    step.Offer? && step.id == id
  }

  lemma StepLowersLeft<E>(k: Keys<E>, s: System<E>, step: Step<E>, id: nat)
    requires Inv(k, s) && id in s.subs && Next(k, s, step).Some? && !step.Insert?
    ensures var t := Next(k, s, step).value;
            t.log == s.log && id in t.subs &&
            Left(k, t.log, t.subs[id]) + (if Working(k, s, step, id) then 1 else 0) <=
            Left(k, s.log, s.subs[id]) + if IsOffer(step, id) then 3 else 0
  {
    hide SubscriberInv, SubscriberNext, Unsent, IdlePoll, PollLeft;
    if OwnStep(step, id) {
      hide Left;
      OwnStepLowersLeft(k, s.log, s.subs[id], step);
    } else if IsOffer(step, id) {
      OfferAddsThree(k, s.log, s.subs[id], step.event);
    }
  }

  lemma OfferAddsThree<E>(k: Keys<E>, log: seq<E>, s: Subscriber<E>, event: E)
    ensures Left(k, log, OfferTo(s, event)) <= Left(k, log, s) + 3
  {
    hide Unsent;
  }

  predicate NoInserts<E>(steps: seq<Step<E>>) {
    forall i | 0 <= i < |steps| :: !steps[i].Insert?
  }

  function WorkingSteps<E>(k: Keys<E>, s: System<E>, steps: seq<Step<E>>, id: nat): nat
    requires Run(k, s, steps).Some?
    decreases |steps|
  {
    if steps == [] then 0
    else
      (if Working(k, s, steps[0], id) then 1 else 0) + WorkingSteps(k, Next(k, s, steps[0]).value, steps[1..], id)
  }

  function OffersTo<E>(steps: seq<Step<E>>, id: nat): nat {
    if steps == [] then 0 else (if IsOffer(steps[0], id) then 1 else 0) + OffersTo(steps[1..], id)
  }

  lemma {:induction false} RunLowersLeft<E>(k: Keys<E>, s: System<E>, steps: seq<Step<E>>, id: nat)
    requires Inv(k, s) && id in s.subs && Run(k, s, steps).Some? && NoInserts(steps)
    ensures var t := Run(k, s, steps).value;
            Inv(k, t) && t.log == s.log && id in t.subs &&
            Left(k, t.log, t.subs[id]) + WorkingSteps(k, s, steps, id) <=
            Left(k, s.log, s.subs[id]) + 3 * OffersTo(steps, id)
    decreases |steps|
  {
    hide Inv, Next, Left, Working, IsOffer;
    if steps != [] {
      StepLowersLeft(k, s, steps[0], id);
      NextKeepsInv(k, s, steps[0]);
      RunLowersLeft(k, Next(k, s, steps[0]).value, steps[1..], id);
    }
  }

  /** A subscriber that has not caught up always has a step to take other than an idle rescan,
      and one that has has none. */
  lemma CaughtUpExactlyWhenQuiet<E>(k: Keys<E>, log: seq<E>, s: Subscriber<E>, id: nat)
    requires SubscriberInv(k, log, s)
    ensures CaughtUp(k, log, s) <==>
            forall step | OwnStep(step, id) && SubscriberNext(k, log, s, step).Some? :: IdlePoll(k, log, s, step)
  {
    hide Unsent;
    if !CaughtUp(k, log, s) {
      var step :=
        if s.out != [] then Receive(id)
        else if s.held.Some? then Forward(id)
        else if s.polled != [] then TakePolled(id)
        else if s.live != [] then TakeLive(id)
        else if s.pos < |s.snapshot| then Scan(id)
        else Load(id);
      assert OwnStep(step, id) && SubscriberNext(k, log, s, step).Some? && !IdlePoll(k, log, s, step);
    }
  }

  /** While nothing is appended no schedule keeps a subscriber from catching up: the steps it can
      take other than idle rescans are bounded by what was left, three for each offer that still
      arrived, and a schedule that takes as many, or after which no such step is possible, leaves
      it caught up. */
  lemma EveryScheduleCatchesUp<E>(k: Keys<E>, s: System<E>, steps: seq<Step<E>>, id: nat)
    requires Inv(k, s) && id in s.subs && Run(k, s, steps).Some? && NoInserts(steps)
    ensures var t := Run(k, s, steps).value;
            var bound := Left(k, s.log, s.subs[id]) + 3 * OffersTo(steps, id);
      && t.log == s.log && id in t.subs
      && WorkingSteps(k, s, steps, id) <= bound
      && (WorkingSteps(k, s, steps, id) == bound ==> CaughtUp(k, t.log, t.subs[id]))
      && (CaughtUp(k, t.log, t.subs[id]) <==> forall step | Next(k, t, step).Some? :: !Working(k, t, step, id))
  {
    hide Next, Left, Working, CaughtUp, IsOffer, SubscriberInv, Run;
    RunLowersLeft(k, s, steps, id);
    var t := Run(k, s, steps).value;
    LeftIsZero(k, t.log, t.subs[id]);
    QuietSystem(k, t, id);
  }

  lemma QuietSystem<E>(k: Keys<E>, s: System<E>, id: nat)
    requires id in s.subs && SubscriberInv(k, s.log, s.subs[id])
    ensures CaughtUp(k, s.log, s.subs[id]) <==> forall step | Next(k, s, step).Some? :: !Working(k, s, step, id)
  {
    hide CaughtUp, SubscriberInv, SubscriberNext, IdlePoll;
    CaughtUpExactlyWhenQuiet(k, s.log, s.subs[id], id);
    forall step | OwnStep(step, id)
      ensures Next(k, s, step).Some? <==> SubscriberNext(k, s.log, s.subs[id], step).Some?
    {
    }
  }

  /** What a reader has then received: every logged key, and the log exactly iff no two of its
      events share a merge key. */
  lemma CaughtUpReceivedExactly<E>(k: Keys<E>, s: System<E>, id: nat)
    requires Inv(k, s) && id in s.subs && CaughtUp(k, s.log, s.subs[id]) && PollRespectsMerge(k, s.log)
    ensures AllKeysIn(k, s.log, s.subs[id].received)
    ensures multiset(s.subs[id].received) == multiset(s.log) <==> DistinctKeys(k, s.log)
  {
    var sub := s.subs[id];
    assert SubscriberInv(k, s.log, sub);
    assert sub.Delivered() == sub.received;
    SentIsDelivered(k, s.log, sub);
    ExactlyByKeys(k, s.log, sub.received);
  }

  // ---- what each step is good for --------------------------------------------------------

  /** No channel holds more than the subscriber was made for. */
  predicate WithinCapacity<E>(s: Subscriber<E>) {
    |s.live| <= s.capacity && |s.polled| <= s.capacity && |s.out| <= s.capacity
  }

  ghost predicate AllWithinCapacity<E>(s: System<E>) {
    forall id | id in s.subs :: id <= s.lastID && WithinCapacity(s.subs[id])
  }

  /** A subscriber gets the capacity it asks for, or one, and keeps it; its channels never hold
      more. */
  lemma StepKeepsCapacity<E>(k: Keys<E>, s: System<E>, step: Step<E>)
    requires AllWithinCapacity(s) && Next(k, s, step).Some?
    ensures var t := Next(k, s, step).value;
      && AllWithinCapacity(t)
      && (forall id | id in s.subs :: id in t.subs && t.subs[id].capacity == s.subs[id].capacity)
      && (forall id | id in t.subs && id !in s.subs ::
            step.Subscribe? && t.subs[id].capacity == if step.buffer >= 1 then step.buffer else 1)
  {
    hide WithinCapacity, SubscriberNext, OfferTo;
    match step
    case Offer(id, event) => OwnStepKeepsCapacity(k, s.log, s.subs[id], step);
    case Subscribe(buffer) => NewSubscriberFits<E>(buffer);
    case Insert(_) =>
    case Collect(_) =>
    case _ => OwnStepKeepsCapacity(k, s.log, s.subs[step.id], step);
  }

  lemma NewSubscriberFits<E>(buffer: int)
    ensures WithinCapacity(NewSubscriber<E>(buffer))
  {
  }

  lemma OwnStepKeepsCapacity<E>(k: Keys<E>, log: seq<E>, s: Subscriber<E>, step: Step<E>)
    requires WithinCapacity(s)
    ensures var t := SubscriberNext(k, log, s, step);
            t.Some? ==> WithinCapacity(t.value) && t.value.capacity == s.capacity
    ensures step.Offer? ==>
            WithinCapacity(OfferTo(s, step.event)) && OfferTo(s, step.event).capacity == s.capacity
  {
  }

  lemma {:induction false} ChannelsHold<E>(k: Keys<E>, s: System<E>, steps: seq<Step<E>>)
    requires AllWithinCapacity(s) && Run(k, s, steps).Some?
    ensures AllWithinCapacity(Run(k, s, steps).value)
    decreases |steps|
  {
    hide Next, AllWithinCapacity;
    if steps != [] {
      StepKeepsCapacity(k, s, steps[0]);
      ChannelsHold(k, Next(k, s, steps[0]).value, steps[1..]);
    }
  }

  /** A pending offer can be made at any time; it arrives exactly when the live channel has room. */
  lemma OfferArrives<E>(k: Keys<E>, s: System<E>, id: nat, event: E)
    requires (id, event) in s.sending && id in s.subs
    ensures Next(k, s, Offer(id, event)).Some?
    ensures var before, after := s.subs[id], Next(k, s, Offer(id, event)).value.subs[id];
            after == before.(live := if |before.live| < before.capacity then before.live + [event] else before.live)
  {
  }

  function Inserts<E(==)>(steps: seq<Step<E>>, event: E): nat {
    if steps == [] then 0 else (if steps[0] == Insert(event) then 1 else 0) + Inserts(steps[1..], event)
  }

  function Collects<E(==)>(steps: seq<Step<E>>, event: E): nat {
    if steps == [] then 0 else (if steps[0] == Collect(event) then 1 else 0) + Collects(steps[1..], event)
  }

  function Offers<E(==)>(steps: seq<Step<E>>, id: nat, event: E): nat {
    if steps == [] then 0 else (if steps[0] == Offer(id, event) then 1 else 0) + Offers(steps[1..], id, event)
  }

  lemma StepCounts<E>(k: Keys<E>, s: System<E>, step: Step<E>, id: nat, event: E)
    requires Next(k, s, step).Some?
    ensures var t := Next(k, s, step).value;
      && t.collecting[event] + (if step == Collect(event) then 1 else 0) ==
           s.collecting[event] + (if step == Insert(event) then 1 else 0)
      && t.sending[(id, event)] + (if step == Offer(id, event) then 1 else 0) ==
           s.sending[(id, event)] + if step == Collect(event) && id in s.subs then 1 else 0
  {
    hide SubscriberNext;
  }

  /** Each inserted event is collected at most once, and then offered at most once to a subscriber:
      what was not yet is still pending. */
  lemma {:induction false} OffersAreBounded<E>(k: Keys<E>, s: System<E>, steps: seq<Step<E>>, id: nat, event: E)
    requires Run(k, s, steps).Some?
    ensures var t := Run(k, s, steps).value;
      && t.collecting[event] + Collects(steps, event) == s.collecting[event] + Inserts(steps, event)
      && t.sending[(id, event)] + Offers(steps, id, event) <= s.sending[(id, event)] + Collects(steps, event)
    decreases |steps|
  {
    hide Next;
    if steps != [] {
      StepCounts(k, s, steps[0], id, event);
      OffersAreBounded(k, Next(k, s, steps[0]).value, steps[1..], id, event);
    }
  }

  /** The next step that takes the live channel to the reader. */
  function LiveStep<E>(s: Subscriber<E>, id: nat): Step<E> {
    if s.held.Some? then (if |s.out| < s.capacity then Forward(id) else Receive(id)) else TakeLive(id)
  }

  predicate MergerStep<E>(step: Step<E>, id: nat) {
    (step.Forward? || step.Receive? || step.TakeLive?) && step.id == id
  }

  lemma LiveOnce<E>(k: Keys<E>, s: System<E>, id: nat, key: string) returns (t: System<E>)
    requires Inv(k, s) && id in s.subs && (s.subs[id].held.Some? || s.subs[id].live != [])
    requires Travels(k, s.subs[id], key)
    ensures Next(k, s, LiveStep(s.subs[id], id)) == Some(t) && MergerStep(LiveStep(s.subs[id], id), id)
    ensures Inv(k, t) && t.log == s.log && id in t.subs && Travels(k, t.subs[id], key)
    ensures LiveLeft(t.subs[id]) < LiveLeft(s.subs[id])
  {
    hide Inv, SubscriberNext, Travels, LiveLeft;
    var sub := s.subs[id];
    assert sub.capacity > 0 by { HasCapacity(k, s, id); }
    LiveStepTravels(k, s.log, sub, id, key);
    t := Next(k, s, LiveStep(sub, id)).value;
    OwnStepKeepsInv(k, s, LiveStep(sub, id));
  }

  lemma HasCapacity<E>(k: Keys<E>, s: System<E>, id: nat)
    requires Inv(k, s) && id in s.subs
    ensures s.subs[id].capacity > 0
  {
    assert SubscriberInv(k, s.log, s.subs[id]);
  }

  lemma LiveStepTravels<E>(k: Keys<E>, log: seq<E>, s: Subscriber<E>, id: nat, key: string)
    requires s.capacity > 0 && (s.held.Some? || s.live != []) && Travels(k, s, key)
    ensures var t := SubscriberNext(k, log, s, LiveStep(s, id));
            t.Some? && Travels(k, t.value, key) && LiveLeft(t.value) < LiveLeft(s)
  {
    if s.held == None {
      assert forall i | 1 <= i < |s.live| :: s.live[i] == s.live[1..][i - 1];
    }
  }

  function LiveLeft<E>(s: Subscriber<E>): nat {
    3 * |s.live| + (if s.held.Some? then 2 else 0) + |s.out|
  }

  /** The key was delivered, or its event is held or in the live channel. */
  predicate Travels<E>(k: Keys<E>, s: Subscriber<E>, key: string) {
    key in s.seen || (s.held.Some? && k.merge(s.held.value) == key) || KeyIn(k, s.live, key)
  }

  /** Whatever arrived on the live channel reaches the reader without any help of the poller. */
  lemma {:induction false} LiveEventsAreDelivered<E>(k: Keys<E>, s: System<E>, id: nat, key: string)
    returns (steps: seq<Step<E>>)
    requires Inv(k, s) && id in s.subs && Travels(k, s.subs[id], key)
    ensures Run(k, s, steps).Some? && forall i | 0 <= i < |steps| :: MergerStep(steps[i], id)
    ensures var t := Run(k, s, steps).value;
            t.log == s.log && id in t.subs && KeyIn(k, t.subs[id].Delivered(), key)
    decreases LiveLeft(s.subs[id])
  {
    hide Next, LiveStep, MergerStep, KeyIn, LiveLeft;
    var sub := s.subs[id];
    assert SubscriberInv(k, s.log, sub);
    if sub.held == None && sub.live == [] {
      steps := [];
      assert key in sub.seen by { NothingTravels(k, sub, key); }
    } else {
      var t := LiveOnce(k, s, id, key);
      var rest := LiveEventsAreDelivered(k, t, id, key);
      steps := [LiveStep(sub, id)] + rest;
      assert steps[1..] == rest;
    }
  }

  lemma NothingTravels<E>(k: Keys<E>, s: Subscriber<E>, key: string)
    requires Travels(k, s, key) && s.held == None && s.live == []
    ensures key in s.seen
  {
  }

  // ---- the keys of run events -----------------------------------------------------------

  function SubscriptionKey(index: int, event: RunEvent): string {
    if !Blank(event.id) then event.id
    else
      IntToDecimal(index) + ":" + event.event + ":" + event.runID + ":" + event.threadID + ":" +
      IntToDecimal(event.attempt) + ":" + event.resumeReason
  }

  /** The poller keys an event by its position in the log, the merger by -1. */
  const RUN_EVENT_KEYS: Keys<RunEvent> :=
    Keys((index: nat, event: RunEvent) => SubscriptionKey(index, event),
      (event: RunEvent) => SubscriptionKey(-1, event))

  predicate AllIdentified(log: seq<RunEvent>) {
    forall e | e in log :: !Blank(e.id)
  }

  predicate DistinctIDs(log: seq<RunEvent>) {
    forall i, j | 0 <= i < j < |log| :: log[i].id != log[j].id
  }

  lemma IdentifiedKeys(log: seq<RunEvent>)
    requires AllIdentified(log)
    ensures NoClash(log)
    ensures DistinctKeys(RUN_EVENT_KEYS, log) <==> DistinctIDs(log)
  {
    assert forall i | 0 <= i < |log| :: log[i] in log;
  }

  /** No event's own ID reads like the key of an event without one at its position. */
  predicate NoClash(log: seq<RunEvent>) {
    forall i, j | 0 <= i < |log| && 0 <= j < |log| && Blank(log[i].id) && !Blank(log[j].id) ::
      SubscriptionKey(i, log[i]) != log[j].id
  }

  lemma DecimalHasNoColon(n: int)
    ensures ':' !in IntToDecimal(n)
  {
    hide NatToDecimal;
    assert forall c | IsDigit(c) :: c != ':';
  }

  lemma ColonIsNoEarlier<E>(a: seq<E>, x: seq<E>, b: seq<E>, y: seq<E>, colon: E)
    requires colon !in b && a + [colon] + x == b + [colon] + y
    ensures |b| <= |a|
  {
    forall i | 0 <= i < |b| ensures (b + [colon] + y)[i] != colon {
      assert (b + [colon] + y)[i] == b[i];
    }
    assert (a + [colon] + x)[|a|] == colon;
  }

  lemma SplitAtFirstColon<E>(a: seq<E>, x: seq<E>, b: seq<E>, y: seq<E>, colon: E)
    requires colon !in a && colon !in b && a + [colon] + x == b + [colon] + y
    ensures a == b
  {
    ColonIsNoEarlier(a, x, b, y, colon);
    ColonIsNoEarlier(b, y, a, x, colon);
    assert a == (a + [colon] + x)[..|a|] && b == (b + [colon] + y)[..|b|];
  }

  /** What the key of an event without an ID holds after its index. */
  function KeyRest(event: RunEvent): string {
    event.event + ":" + event.runID + ":" + event.threadID + ":" + IntToDecimal(event.attempt) + ":" +
      event.resumeReason
  }

  lemma KeyByIndex(index: int, event: RunEvent)
    requires Blank(event.id)
    ensures SubscriptionKey(index, event) == IntToDecimal(index) + [':'] + KeyRest(event)
  {
    hide IntToDecimal, Blank;
    var a, b, c, d, e := event.event, event.runID, event.threadID, IntToDecimal(event.attempt), event.resumeReason;
    assert IntToDecimal(index) + ":" + a + ":" + b + ":" + c + ":" + d + ":" + e ==
           IntToDecimal(index) + ":" + (a + ":" + b + ":" + c + ":" + d + ":" + e);
  }

  /** The poller never takes two events without IDs for one: their keys start with their
      positions. */
  lemma UnidentifiedKeysTellPositions(i: nat, a: RunEvent, j: nat, b: RunEvent)
    requires Blank(a.id) && Blank(b.id) && SubscriptionKey(i, a) == SubscriptionKey(j, b)
    ensures i == j
  {
    hide IntToDecimal, Blank, SubscriptionKey, KeyRest;
    KeyByIndex(i, a);
    KeyByIndex(j, b);
    DecimalHasNoColon(i);
    DecimalHasNoColon(j);
    SplitAtFirstColon(IntToDecimal(i), KeyRest(a), IntToDecimal(j), KeyRest(b), ':');
    IntToDecimalInjective(i, j);
  }

  lemma RunEventPollRespectsMerge(log: seq<RunEvent>)
    requires NoClash(log)
    ensures PollRespectsMerge(RUN_EVENT_KEYS, log)
  {
    hide Blank;
    var k := RUN_EVENT_KEYS;
    forall i, j | 0 <= i < |log| && 0 <= j < |log| && k.poll(i, log[i]) == k.poll(j, log[j])
      ensures k.merge(log[i]) == k.merge(log[j])
    {
      KeysAgree(log, i, j);
    }
  }

  lemma KeysAgree(log: seq<RunEvent>, i: nat, j: nat)
    requires NoClash(log) && i < |log| && j < |log|
    requires SubscriptionKey(i, log[i]) == SubscriptionKey(j, log[j])
    ensures SubscriptionKey(-1, log[i]) == SubscriptionKey(-1, log[j])
  {
    hide Blank, IntToDecimal;
    if Blank(log[i].id) && Blank(log[j].id) {
      UnidentifiedKeysTellPositions(i, log[i], j, log[j]);
    }
  }

  /** For run events with or without IDs: a drained subscriber has been delivered exactly the log
      if and only if no two events of the log share a merge key. */
  lemma RunEventsDeliveredExactly(steps: seq<Step<RunEvent>>, id: nat)
    requires Run(RUN_EVENT_KEYS, Empty(), steps).Some? && id in Run(RUN_EVENT_KEYS, Empty(), steps).value.subs
    requires var s := Run(RUN_EVENT_KEYS, Empty(), steps).value; Drained(s.log, s.subs[id]) && NoClash(s.log)
    ensures var s := Run(RUN_EVENT_KEYS, Empty(), steps).value;
            multiset(s.subs[id].Delivered()) == multiset(s.log) <==> DistinctKeys(RUN_EVENT_KEYS, s.log)
  {
    hide Run, NoClash;
    RunEventPollRespectsMerge(Run(RUN_EVENT_KEYS, Empty(), steps).value.log);
    DrainedDeliversExactly(RUN_EVENT_KEYS, steps, id);
  }

  predicate NoneIdentified(log: seq<RunEvent>) {
    forall e | e in log :: Blank(e.id)
  }

  /** For events without IDs: exactly the log if and only if no two of them print the same event
      name, run ID, thread ID, attempt and resume reason. */
  lemma UnidentifiedEventsDeliveredExactly(steps: seq<Step<RunEvent>>, id: nat)
    requires Run(RUN_EVENT_KEYS, Empty(), steps).Some? && id in Run(RUN_EVENT_KEYS, Empty(), steps).value.subs
    requires var s := Run(RUN_EVENT_KEYS, Empty(), steps).value; Drained(s.log, s.subs[id]) && NoneIdentified(s.log)
    ensures var s := Run(RUN_EVENT_KEYS, Empty(), steps).value;
            multiset(s.subs[id].Delivered()) == multiset(s.log) <==>
            forall i, j | 0 <= i < j < |s.log| :: KeyRest(s.log[i]) != KeyRest(s.log[j])
  {
    hide Run;
    var log := Run(RUN_EVENT_KEYS, Empty(), steps).value.log;
    UnidentifiedKeys(log);
    RunEventsDeliveredExactly(steps, id);
  }

  lemma UnidentifiedKeys(log: seq<RunEvent>)
    requires NoneIdentified(log)
    ensures NoClash(log)
    ensures DistinctKeys(RUN_EVENT_KEYS, log) <==>
            forall i, j | 0 <= i < j < |log| :: KeyRest(log[i]) != KeyRest(log[j])
  {
    hide Blank, IntToDecimal, KeyRest;
    assert forall i | 0 <= i < |log| :: log[i] in log;
    forall i, j | 0 <= i < j < |log|
      ensures RUN_EVENT_KEYS.merge(log[i]) == RUN_EVENT_KEYS.merge(log[j]) <==> KeyRest(log[i]) == KeyRest(log[j])
    {
      MergeByRest(log[i], log[j]);
    }
  }

  lemma MergeByRest(a: RunEvent, b: RunEvent)
    requires Blank(a.id) && Blank(b.id)
    ensures SubscriptionKey(-1, a) == SubscriptionKey(-1, b) <==> KeyRest(a) == KeyRest(b)
  {
    hide Blank, IntToDecimal, SubscriptionKey, KeyRest;
    KeyByIndex(-1, a);
    KeyByIndex(-1, b);
    var index := IntToDecimal(-1);
    assert (index + [':'] + KeyRest(a))[|index| + 1..] == KeyRest(a);
    assert (index + [':'] + KeyRest(b))[|index| + 1..] == KeyRest(b);
  }

  /** For events that carry IDs: a drained subscriber has been delivered exactly the log if and
      only if the IDs are distinct, which recording one event at a time guarantees. */
  lemma IdentifiedEventsDeliveredExactly(steps: seq<Step<RunEvent>>, id: nat)
    requires Run(RUN_EVENT_KEYS, Empty(), steps).Some? && id in Run(RUN_EVENT_KEYS, Empty(), steps).value.subs
    requires var s := Run(RUN_EVENT_KEYS, Empty(), steps).value; Drained(s.log, s.subs[id]) && AllIdentified(s.log)
    ensures var s := Run(RUN_EVENT_KEYS, Empty(), steps).value;
            multiset(s.subs[id].Delivered()) == multiset(s.log) <==> DistinctIDs(s.log)
  {
    hide Run, NoClash;
    IdentifiedKeys(Run(RUN_EVENT_KEYS, Empty(), steps).value.log);
    RunEventsDeliveredExactly(steps, id);
  }

  lemma SequentialIDs(runID: string, log: seq<RunEvent>)
    requires Sequential(runID, log)
    ensures AllIdentified(log) && DistinctIDs(log)
  {
    hide EventID, EventIndex, Blank;
    forall i | 0 <= i < |log|
      ensures !Blank(log[i].id) && EventIndex(log[i].id) == i + 1
    {
      EventIDIsNotBlank(runID, i + 1);
      EventIndexOfID(runID, i + 1);
    }
  }

  lemma EventIDIsNotBlank(runID: string, index: nat)
    ensures !Blank(EventID(runID, index))
  {
    hide Blank, NatToDecimal;
    var id := EventID(runID, index);
    var digits := NatToDecimal(index);
    assert id[|id| - 1] == digits[|digits| - 1] && digits[|digits| - 1] in digits;
    EndsInText(id);
  }

  /** A log recorded one event at a time reaches every drained subscriber exactly. */
  lemma RecordedLogDeliveredExactly(steps: seq<Step<RunEvent>>, id: nat, runID: string)
    requires Run(RUN_EVENT_KEYS, Empty(), steps).Some? && id in Run(RUN_EVENT_KEYS, Empty(), steps).value.subs
    requires var s := Run(RUN_EVENT_KEYS, Empty(), steps).value; Drained(s.log, s.subs[id]) && Sequential(runID, s.log)
    ensures var s := Run(RUN_EVENT_KEYS, Empty(), steps).value;
            multiset(s.subs[id].Delivered()) == multiset(s.log)
  {
    hide Run, Sequential, AllIdentified, DistinctIDs;
    SequentialIDs(runID, Run(RUN_EVENT_KEYS, Empty(), steps).value.log);
    IdentifiedEventsDeliveredExactly(steps, id);
  }

  lemma {:induction false} RunAppend<E>(k: Keys<E>, s: System<E>, first: seq<Step<E>>, second: seq<Step<E>>)
    requires Run(k, s, first).Some?
    ensures Run(k, s, first + second) == Run(k, Run(k, s, first).value, second)
    decreases |first|
  {
    if first == [] {
      assert first + second == second;
    } else {
      assert (first + second)[1..] == first[1..] + second;
      RunAppend(k, Next(k, s, first[0]).value, first[1..], second);
    }
  }

  lemma TwoInserts<E>(k: Keys<E>, a: E, b: E) returns (s: System<E>)
    ensures Run(k, Empty(), [Subscribe(1), Insert(a), Insert(b)]) == Some(s)
    ensures s.log == [a, b] && 1 in s.subs
  {
    var steps := [Subscribe(1), Insert(a), Insert(b)];
    var s1 := Next(k, Empty(), Subscribe(1)).value;
    var s2 := Next(k, s1, Insert(a)).value;
    s := Next(k, s2, Insert(b)).value;
    assert steps[1..] == [Insert(a), Insert(b)] && steps[1..][1..] == [Insert(b)] && steps[1..][1..][1..] == [];
    assert Run(k, s2, steps[1..][1..]) == Some(s);
  }

  lemma CollidingEventsGetLost<E>(k: Keys<E>, a: E, b: E) returns (steps: seq<Step<E>>)
    requires k.merge(a) == k.merge(b)
    ensures Run(k, Empty(), steps).Some?
    ensures var s := Run(k, Empty(), steps).value;
            && s.log == [a, b] && 1 in s.subs && Drained(s.log, s.subs[1])
            && multiset(s.subs[1].Delivered()) != multiset(s.log)
  {
    hide Run, Next, Drained;
    var appended := [Subscribe(1), Insert(a), Insert(b)];
    var middle := TwoInserts(k, a, b);
    RunKeepsInv(k, Empty(), appended);
    var rest := CanDrain(k, middle, 1);
    steps := appended + rest;
    RunAppend(k, Empty(), appended, rest);
    RunKeepsInv(k, Empty(), steps);
    var s := Run(k, Empty(), steps).value;
    assert k.merge(s.log[0]) == k.merge(s.log[1]);
    if multiset(s.subs[1].Delivered()) == multiset(s.log) {
      DistinctKeysByMultiset(k, s.log, s.subs[1].Delivered());
      assert false;
    }
  }

  /** Without IDs the promise fails for any two events that agree in the five fields their keys
      hold, whatever their data: the merger keys both by the position -1, and a drained subscriber
      is delivered one of them. */
  lemma UnidentifiedEventsGetLost(a: RunEvent, b: RunEvent) returns (steps: seq<Step<RunEvent>>)
    requires Blank(a.id) && Blank(b.id)
    requires a.event == b.event && a.runID == b.runID && a.threadID == b.threadID
    requires a.attempt == b.attempt && a.resumeReason == b.resumeReason
    ensures Run(RUN_EVENT_KEYS, Empty(), steps).Some?
    ensures var s := Run(RUN_EVENT_KEYS, Empty(), steps).value;
            && s.log == [a, b] && 1 in s.subs && Drained(s.log, s.subs[1])
            && multiset(s.subs[1].Delivered()) != multiset(s.log)
  {
    hide Blank, IntToDecimal;
    steps := CollidingEventsGetLost(RUN_EVENT_KEYS, a, b);
  }
}
