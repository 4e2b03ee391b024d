/** What the repair of a conversation guarantees (pkg/agent/react.go). */
module RepairedHistory {
  import opened GoStrings
  import opened ToolCalls
  import opened ToolHistory
  import opened Wrappers

  /** Every call would be kept by normalisation, under an ID of its own that has a result. */
  ghost predicate SettledCalls(calls: seq<ToolCall>, results: set<string>) {
    && (forall i | 0 <= i < |calls| :: SettledCall(calls[i], results))
    && (forall i, j | 0 <= i < j < |calls| :: TrimSpace(calls[i].id) != TrimSpace(calls[j].id))
  }

  predicate SettledCall(c: ToolCall, results: set<string>) {
    Usable(c) && !Blank(c.id) && TrimSpace(c.id) in results
  }

  /** A conversation in which every tool call is usable and has a result. */
  ghost predicate Settled(messages: seq<Message>) {
    forall i | 0 <= i < |messages| && HasCalls(messages[i]) :: SettledCalls(messages[i].toolCalls, ResultIDs(messages))
  }

  /** No result carries an ID the counter has yet to give. */
  ghost predicate UnusedIDs(results: set<string>, n: nat) {
    forall name, k: nat | n <= k :: NewCallID(name, k) !in results
  }

  // ---- the calls of one message -----------------------------------------------------------

  ghost predicate DistinctIDs(calls: seq<ToolCall>) {
    forall i, j | 0 <= i < j < |calls| :: calls[i].id != calls[j].id
  }

  lemma {:induction false} NormalizedCallsFacts(calls: seq<ToolCall>, n: nat)
    ensures var r := NormalizedCalls(calls, n);
      && |r.calls| <= |calls| && n <= r.next
      && (forall c | c in r.calls :: NormalCall(c))
      && DistinctIDs(r.calls)
    decreases |calls|
  {
    hide NormalizeToolCall, NormalCall, Usable, NeedsID, Seen;
    if calls != [] {
      var last := |calls| - 1;
      NormalizedCallsFacts(calls[..last], n);
      var before := NormalizedCalls(calls[..last], n);
      NormalizeCallFacts(calls[last], before.next);
      forall c | c in before.calls ensures c.id in Seen(before.calls) {
        SeenHas(before.calls, c);
      }
    }
  }

  /** How many of the calls have a name and no ID. */
  function Unnumbered(calls: seq<ToolCall>): nat {
    if calls == [] then 0
    else
      var last := calls[|calls| - 1];
      Unnumbered(calls[..|calls| - 1]) + if TrimSpace(last.name) != "" && TrimSpace(last.id) == "" then 1 else 0
  }

  /** The counter for new IDs moves on by one for each call that has a name and no ID. */
  lemma {:induction false} CounterCounts(calls: seq<ToolCall>, n: nat)
    ensures NormalizedCalls(calls, n).next == n + Unnumbered(calls)
    decreases |calls|
  {
    hide NormalizeToolCall, TrimSpace, Seen;
    if calls != [] {
      CounterCounts(calls[..|calls| - 1], n);
    }
  }

  lemma SeenHas(calls: seq<ToolCall>, c: ToolCall)
    requires c in calls
    ensures c.id in Seen(calls)
  {
  }

  /** A settled message keeps all its calls, each under its own trimmed ID, and takes no new ID. */
  lemma {:induction false} SettledCallsStay(calls: seq<ToolCall>, results: set<string>, n: nat)
    requires SettledCalls(calls, results)
    ensures var r := NormalizedCalls(calls, n);
      r.next == n && |r.calls| == |calls| && forall i | 0 <= i < |calls| :: r.calls[i].id == TrimSpace(calls[i].id)
    decreases |calls|
  {
    hide NormalizeToolCall, Usable, TrimSpace;
    if calls != [] {
      var last := |calls| - 1;
      SettledCallsStay(calls[..last], results, n);
      NormalizeCallFacts(calls[last], n);
    }
  }

  /** A message that keeps all its calls had only usable ones, with distinct IDs. */
  lemma {:induction false} AllKeptMeansUsable(calls: seq<ToolCall>, n: nat)
    requires |NormalizedCalls(calls, n).calls| == |calls|
    ensures var r := NormalizedCalls(calls, n);
      forall i | 0 <= i < |calls| :: Usable(calls[i]) &&
        (!Blank(calls[i].id) ==> r.calls[i].id == TrimSpace(calls[i].id)) &&
        (Blank(calls[i].id) ==> exists k: nat :: n <= k && r.calls[i].id == NewCallID(TrimSpace(calls[i].name), k))
    decreases |calls|
  {
    hide NormalizeToolCall, Usable, TrimSpace, Seen, NewCallID, NeedsID;
    if calls != [] {
      var last := |calls| - 1;
      NormalizedCallsFacts(calls[..last], n);
      var before := NormalizedCalls(calls[..last], n);
      NormalizeCallFacts(calls[last], before.next);
      AllKeptMeansUsable(calls[..last], n);
    }
  }

  // ---- made-up results ----------------------------------------------------------------------

  lemma SyntheticIDsGrow(entries: seq<Entry>, e: Entry)
    ensures SyntheticIDs(entries + [e]) == SyntheticIDs(entries) + if e.Synthetic? then {e.callID} else {}
  {
  }

  /** A made-up result is a result for its call. */
  lemma SyntheticAnswers(m: Message, call: ToolCall)
    requires NormalCall(call)
    ensures var e := SyntheticEntry(m, call);
            e.callID == call.id && HasResult(e.message) && ResultID(e.message) == call.id
  {
    hide TrimSpace, Trimmed, FailureText;
    TrimSpaceFixed(call.id);
    TrimSpaceFixed(call.name);
    InterruptedIsNotBlank();
  }

  lemma InterruptedIsNotBlank()
    ensures !Blank(INTERRUPTED)
  {
    hide Blank;
    assert INTERRUPTED[|INTERRUPTED| - 1] == ']';
    EndsInText(INTERRUPTED);
  }

  /** Every made-up entry is the answer to its call and no call is answered twice or needlessly. */
  ghost predicate GoodEntries(entries: seq<Entry>, existing: set<string>) {
    && (forall e | e in entries && e.Synthetic? ::
          e.callID !in existing && HasResult(e.message) && ResultID(e.message) == e.callID)
    && (forall i, j | 0 <= i < j < |entries| && entries[i].Synthetic? && entries[j].Synthetic? ::
          entries[i].callID != entries[j].callID)
  }

  lemma GoodEntriesGrow(entries: seq<Entry>, e: Entry, existing: set<string>)
    requires GoodEntries(entries, existing)
    requires e.Synthetic? ==> e.callID !in existing && HasResult(e.message) && ResultID(e.message) == e.callID &&
                              e.callID !in SyntheticIDs(entries)
    ensures GoodEntries(entries + [e], existing)
  {
    hide HasResult, ResultID;
    forall i | 0 <= i < |entries| && entries[i].Synthetic? && e.Synthetic? ensures entries[i].callID != e.callID {
      assert entries[i] in entries;
    }
  }

  /** One call: it is answered unless it has a result or a made-up one already. */
  lemma OneMoreAnswer(before: seq<Entry>, m: Message, call: ToolCall, existing: set<string>)
    requires GoodEntries(before, existing) && NormalCall(call)
    ensures var r := WithAnswer(before, m, call, existing);
            GoodEntries(r, existing) && SyntheticIDs(r) == SyntheticIDs(before) + ({call.id} - existing)
  {
    hide GoodEntries, NormalCall, SyntheticIDs, SyntheticEntry, HasResult, ResultID;
    NormalID(call);
    var e := SyntheticEntry(m, call);
    SyntheticAnswers(m, call);
    IsSynthetic(m, call);
    SyntheticIDsGrow(before, e);
    if call.id !in existing && call.id !in SyntheticIDs(before) {
      GoodEntriesGrow(before, e, existing);
    }
  }

  /** The calls of one message: afterwards each has a result or a made-up one, and nothing else
      was made up. */
  lemma {:induction false} WithResultsFacts(entries: seq<Entry>, m: Message, calls: seq<ToolCall>,
                                            existing: set<string>)
    requires GoodEntries(entries, existing) && forall c | c in calls :: NormalCall(c)
    ensures var r := WithResults(entries, m, calls, existing);
            GoodEntries(r, existing) && SyntheticIDs(r) == SyntheticIDs(entries) + (Seen(calls) - existing)
    decreases |calls|
  {
    hide GoodEntries, NormalCall, SyntheticIDs, SyntheticEntry, Seen, WithAnswer;
    if calls == [] {
      NothingSeen();
    } else {
      var last := |calls| - 1;
      forall c | c in calls[..last] ensures NormalCall(c) {
        assert c in calls;
      }
      WithResultsFacts(entries, m, calls[..last], existing);
      assert calls[last] in calls;
      OneMoreAnswer(WithResults(entries, m, calls[..last], existing), m, calls[last], existing);
      SeenLast(calls);
    }
  }

  lemma IsSynthetic(m: Message, call: ToolCall)
    ensures SyntheticEntry(m, call).Synthetic?
  {
  }

  lemma NothingSeen()
    ensures Seen([]) == {}
  {
  }

  lemma SeenLast(calls: seq<ToolCall>)
    requires calls != []
    ensures Seen(calls) == Seen(calls[..|calls| - 1]) + {calls[|calls| - 1].id}
  {
    assert calls == calls[..|calls| - 1] + [calls[|calls| - 1]];
  }

  lemma NormalID(c: ToolCall)
    requires NormalCall(c)
    ensures TrimSpace(c.id) == c.id && c.id != "" && Usable(c) && !Blank(c.id)
  {
    hide TrimSpace, Trimmed;
    TrimSpaceFixed(c.id);
    TrimSpaceFixed(c.name);
  }

  /** A made-up tool message in the session of `m`: call `c` failed because it was interrupted. */
  predicate Answered(e: Entry, m: Message, c: ToolCall) {
    && e.Synthetic? && e.callID == c.id
    && e.message.sessionID == m.sessionID && e.message.role == Tool && e.message.toolCalls == []
    && e.message.toolResult == Some(ToolResult(c.id, c.name, "failed", "", INTERRUPTED, 0))
    && e.message.content ==
         "Error: Tool '" + c.name + "' failed: " + TrimSpace(INTERRUPTED) +
         ". Continue with available context, or choose an alternative tool."
  }

  predicate AnswersOne(e: Entry, m: Message, calls: seq<ToolCall>) {
    e.Synthetic? && exists c :: c in calls && Answered(e, m, c)
  }

  lemma {:induction false} WithResultsAnswer(entries: seq<Entry>, m: Message, calls: seq<ToolCall>,
                                             existing: set<string>)
    requires forall c | c in calls :: NormalCall(c)
    ensures var r := WithResults(entries, m, calls, existing);
      && |entries| <= |r| && r[..|entries|] == entries
      && forall p | |entries| <= p < |r| :: r[p].Synthetic? && AnswersOne(r[p], m, calls)
    decreases |calls|
  {
    hide NormalCall, SyntheticIDs, FailureText, Answered;
    if calls != [] {
      var last := |calls| - 1;
      forall c | c in calls[..last] ensures NormalCall(c) {
        assert c in calls;
      }
      WithResultsAnswer(entries, m, calls[..last], existing);
      var before, call := WithResults(entries, m, calls[..last], existing), calls[last];
      assert call in calls;
      assert Answered(SyntheticEntry(m, call), m, call) by { SyntheticIsAnAnswer(m, call); }
      forall p | |entries| <= p < |before| ensures AnswersOne(before[p], m, calls) {
        assert AnswersOne(before[p], m, calls[..last]);
        var c :| c in calls[..last] && Answered(before[p], m, c);
        assert c in calls;
      }
    }
  }

  lemma SyntheticIsAnAnswer(m: Message, call: ToolCall)
    requires NormalCall(call)
    ensures Answered(SyntheticEntry(m, call), m, call)
  {
    hide TrimSpace;
    NormalID(call);
    TrimSpaceFixed(call.name);
  }

  // ---- the whole conversation ---------------------------------------------------------------

  /** The original messages among the entries, in order. */
  function KeptOf(entries: seq<Entry>): seq<Message> {
    if entries == [] then []
    else
      KeptOf(entries[..|entries| - 1]) +
      match entries[|entries| - 1] case Kept(m) => [m] case Synthetic(_, _) => []
  }

  lemma {:induction false} KeptOfSynthetic(entries: seq<Entry>, more: seq<Entry>)
    requires forall e | e in more :: e.Synthetic?
    ensures KeptOf(entries + more) == KeptOf(entries)
    decreases |more|
  {
    if more == [] {
      assert entries + more == entries;
    } else {
      var last := |more| - 1;
      assert (entries + more)[..|entries + more| - 1] == entries + more[..last];
      assert more[last] in more;
      forall e | e in more[..last] ensures e.Synthetic? {
        assert e in more;
      }
      KeptOfSynthetic(entries, more[..last]);
    }
  }

  /** An original message with nothing but its calls normalised, and those only if it has any. */
  predicate SameButCalls(m: Message, original: Message) {
    m == original.(toolCalls := m.toolCalls) && (!HasCalls(original) ==> m == original)
  }

  /** Each kept message with calls has normal calls with distinct IDs, each with a result. */
  ghost predicate Covered(kept: seq<Message>, results: set<string>) {
    forall i | 0 <= i < |kept| && HasCalls(kept[i]) :: CoveredCalls(kept[i].toolCalls, results)
  }

  ghost predicate CoveredCalls(calls: seq<ToolCall>, results: set<string>) {
    DistinctIDs(calls) && (forall c | c in calls :: NormalCall(c)) && Seen(calls) <= results
  }

  lemma CoveredGrows(kept: seq<Message>, results: set<string>, m: Message, more: set<string>)
    requires Covered(kept, results) && results <= more && (HasCalls(m) ==> CoveredCalls(m.toolCalls, more))
    ensures Covered(kept + [m], more)
  {
    hide DistinctIDs, NormalCall, Seen;
  }

  /** What the repair has done to the messages so far. */
  ghost predicate Repairs(messages: seq<Message>, patch: Patch, existing: set<string>, n: nat) {
    var kept := KeptOf(patch.entries);
    && GoodEntries(patch.entries, existing)
    && |kept| == |messages| && (forall i | 0 <= i < |messages| :: SameButCalls(kept[i], messages[i]))
    && Covered(kept, existing + SyntheticIDs(patch.entries))
    && n <= patch.next
  }

  lemma PatchMessageRepairs(messages: seq<Message>, before: Patch, m: Message, existing: set<string>, n: nat)
    requires Repairs(messages, before, existing, n)
    ensures Repairs(messages + [m], PatchMessage(before, m, existing), existing, n)
    ensures SyntheticIDs(before.entries) <= SyntheticIDs(PatchMessage(before, m, existing).entries)
  {
    hide AnswersOne, GoodEntries, NormalCall, NormalizedCalls, WithResults, Seen, SyntheticIDs, DistinctIDs, Covered;
    var r := NormalizedCalls(m.toolCalls, before.next);
    NormalizedCallsFacts(m.toolCalls, before.next);
    var kept := if HasCalls(m) then m.(toolCalls := r.calls) else m;
    var start := before.entries + [Kept(kept)];
    assert start[..|start| - 1] == before.entries;
    GoodEntriesGrow(before.entries, Kept(kept), existing);
    SyntheticIDsGrow(before.entries, Kept(kept));
    var after := PatchMessage(before, m, existing);
    if HasCalls(m) {
      WithResultsFacts(start, kept, r.calls, existing);
      WithResultsAnswer(start, kept, r.calls, existing);
      assert after.entries == start + after.entries[|start|..];
      KeptOfSynthetic(start, after.entries[|start|..]);
    }
    CoveredGrows(KeptOf(before.entries), existing + SyntheticIDs(before.entries), kept,
      existing + SyntheticIDs(after.entries));
  }

  lemma {:induction false} PatchRepairs(messages: seq<Message>, existing: set<string>, n: nat)
    ensures Repairs(messages, PatchFrom(messages, existing, n), existing, n)
    decreases |messages|
  {
    hide Repairs, PatchMessage;
    if messages == [] {
      NothingToRepair(existing, n);
    } else {
      var last := |messages| - 1;
      PatchRepairs(messages[..last], existing, n);
      PatchMessageRepairs(messages[..last], PatchFrom(messages[..last], existing, n), messages[last], existing, n);
      assert messages[..last] + [messages[last]] == messages;
    }
  }

  lemma NothingToRepair(existing: set<string>, n: nat)
    ensures Repairs([], Patch([], n, false), existing, n)
  {
  }

  lemma {:induction false} KeptIsAnEntry(entries: seq<Entry>)
    ensures forall m | m in KeptOf(entries) :: Kept(m) in entries
    ensures forall i | 0 <= i < |entries| && entries[i].Kept? :: entries[i].message in KeptOf(entries)
    decreases |entries|
  {
    if entries != [] {
      KeptIsAnEntry(entries[..|entries| - 1]);
    }
  }

  /** A message as the repair keeps it when the counter for new IDs stands at `n`. */
  function KeptMessage(m: Message, n: nat): Message {
    if HasCalls(m) then m.(toolCalls := NormalizedCalls(m.toolCalls, n).calls) else m
  }

  /** The IDs of the calls in a conversation. */
  function CallIDs(messages: seq<Message>): set<string> {
    if messages == [] then {}
    else
      var m := messages[|messages| - 1];
      CallIDs(messages[..|messages| - 1]) + if m.role == AI then Seen(m.toolCalls) else {}
  }

  /** Entry `p` answers a call of the message at `q`, with nothing but made-up results between. */
  predicate Follows(entries: seq<Entry>, q: nat, p: nat)
    requires p < |entries|
  {
    && q < p && entries[q].Kept? && entries[q].message.role == AI
    && AnswersOne(entries[p], entries[q].message, entries[q].message.toolCalls)
    && forall r | q < r < p :: entries[r].Synthetic?
  }

  ghost predicate Placed(entries: seq<Entry>) {
    forall p | 0 <= p < |entries| && entries[p].Synthetic? :: exists q :: Follows(entries, q, p)
  }

  /** The made-up results of one message come right after it and answer its calls. */
  lemma StillPlaced(before: seq<Entry>, after: seq<Entry>, m: Message)
    requires Placed(before) && |before| < |after| && after[..|before|] == before && after[|before|] == Kept(m)
    requires forall p | |before| < p < |after| ::
      m.role == AI && AnswersOne(after[p], m, m.toolCalls)
    ensures Placed(after)
  {
    hide Answered;
    forall p | 0 <= p < |after| && after[p].Synthetic? ensures exists q :: Follows(after, q, p) {
      if p < |before| {
        assert after[p] == before[p];
        var q :| Follows(before, q, p);
        assert forall r | 0 <= r < |before| :: after[r] == before[r];
        assert Follows(after, q, p);
      } else {
        assert Follows(after, |before|, p);
      }
    }
  }

  lemma PatchMessagePlaces(before: Patch, m: Message, existing: set<string>)
    requires Placed(before.entries)
    ensures Placed(PatchMessage(before, m, existing).entries)
    ensures KeptOf(PatchMessage(before, m, existing).entries) == KeptOf(before.entries) + [KeptMessage(m, before.next)]
  {
    hide Placed, NormalCall, NormalizedCalls, WithResults, Seen, SyntheticIDs, DistinctIDs;
    var r := NormalizedCalls(m.toolCalls, before.next);
    NormalizedCallsFacts(m.toolCalls, before.next);
    var kept := KeptMessage(m, before.next);
    var start := before.entries + [Kept(kept)];
    assert start[..|start| - 1] == before.entries;
    var after := PatchMessage(before, m, existing).entries;
    if HasCalls(m) {
      WithResultsAnswer(start, kept, r.calls, existing);
      assert after == start + after[|start|..];
      KeptOfSynthetic(start, after[|start|..]);
    }
    assert after[..|start|] == start && start[|before.entries|] == Kept(kept);
    assert after[..|before.entries|] == before.entries;
    StillPlaced(before.entries, after, kept);
  }

  /** Every original message is kept, with its calls normalised from where the counter stood. */
  lemma {:induction false} PatchKeeps(messages: seq<Message>, existing: set<string>, n: nat)
    ensures var entries := PatchFrom(messages, existing, n).entries;
      && Placed(entries)
      && |KeptOf(entries)| == |messages|
      && forall i | 0 <= i < |messages| ::
           KeptOf(entries)[i] == KeptMessage(messages[i], PatchFrom(messages[..i], existing, n).next)
    decreases |messages|
  {
    hide Placed, PatchMessage, KeptMessage, KeptOf;
    if messages == [] {
      NothingPlaced();
    } else {
      var last := |messages| - 1;
      PatchKeeps(messages[..last], existing, n);
      PatchMessagePlaces(PatchFrom(messages[..last], existing, n), messages[last], existing);
      PrefixOfPrefix(messages, last);
    }
  }

  lemma PrefixOfPrefix<E>(s: seq<E>, k: nat)
    requires k <= |s|
    ensures forall i | 0 <= i < k :: s[..k][i] == s[i]
    ensures forall i | 0 <= i < k :: s[..k][..i] == s[..i]
  {
  }

  lemma NothingPlaced()
    ensures Placed([]) && KeptOf([]) == []
  {
  }

  lemma PatchMessageAnswers(before: Patch, m: Message, existing: set<string>)
    requires GoodEntries(before.entries, existing)
    requires SyntheticIDs(before.entries) == CallIDs(KeptOf(before.entries)) - existing
    ensures var after := PatchMessage(before, m, existing).entries;
            SyntheticIDs(after) == CallIDs(KeptOf(before.entries) + [KeptMessage(m, before.next)]) - existing
  {
    hide GoodEntries, NormalCall, NormalizedCalls, WithResults, Seen, SyntheticIDs, DistinctIDs, KeptOf;
    var r := NormalizedCalls(m.toolCalls, before.next);
    NormalizedCallsFacts(m.toolCalls, before.next);
    var kept := KeptMessage(m, before.next);
    GoodEntriesGrow(before.entries, Kept(kept), existing);
    SyntheticIDsGrow(before.entries, Kept(kept));
    NothingSeen();
    var conversation := KeptOf(before.entries) + [kept];
    assert conversation[..|conversation| - 1] == KeptOf(before.entries);
    if HasCalls(m) {
      WithResultsFacts(before.entries + [Kept(kept)], kept, r.calls, existing);
      WithResultsAnswer(before.entries + [Kept(kept)], kept, r.calls, existing);
    }
  }

  /** Results are made up for exactly the calls kept that have none. */
  lemma {:induction false} PatchAnswers(messages: seq<Message>, existing: set<string>, n: nat)
    ensures var entries := PatchFrom(messages, existing, n).entries;
            SyntheticIDs(entries) == CallIDs(KeptOf(entries)) - existing
    decreases |messages|
  {
    hide PatchMessage, KeptMessage, Placed, GoodEntries, Covered, SyntheticIDs, KeptOf, CallIDs;
    if messages == [] {
      NothingAnswered(existing);
    } else {
      var last := |messages| - 1;
      var before := PatchFrom(messages[..last], existing, n);
      PatchAnswers(messages[..last], existing, n);
      PatchRepairs(messages[..last], existing, n);
      PatchKeeps(messages[..last], existing, n);
      PatchMessageAnswers(before, messages[last], existing);
      PatchMessagePlaces(before, messages[last], existing);
    }
  }

  lemma NothingAnswered(existing: set<string>)
    ensures SyntheticIDs([]) == CallIDs(KeptOf([])) - existing
  {
  }

  /** The original messages come through in order, changed only by normalising their calls.
      Results are made up for exactly the call IDs that had none, once for each, and stand right
      after the message whose call they answer. */
  lemma RepairKeepsTheConversation(messages: seq<Message>, n: nat)
    ensures var existing := ResultIDs(messages);
      var entries := PatchFrom(messages, existing, n).entries;
      var kept := KeptOf(entries);
      && |kept| == |messages|
      && (forall i | 0 <= i < |messages| ::
            kept[i] == KeptMessage(messages[i], PatchFrom(messages[..i], existing, n).next))
      && SyntheticIDs(entries) == CallIDs(kept) - existing
      && Placed(entries)
      && (forall i, j | 0 <= i < j < |entries| && entries[i].Synthetic? && entries[j].Synthetic? ::
            entries[i].callID != entries[j].callID)
      && (forall e | e in entries && e.Synthetic? :: HasResult(e.message) && ResultID(e.message) == e.callID)
  {
    hide HasResult, ResultID, ResultIDs, SameButCalls, Covered, Placed, KeptMessage, CallIDs, SyntheticIDs, KeptOf;
    PatchRepairs(messages, ResultIDs(messages), n);
    PatchKeeps(messages, ResultIDs(messages), n);
    PatchAnswers(messages, ResultIDs(messages), n);
  }

  /** The results of the repaired conversation: those there were and those made up. */
  lemma RepairedResults(messages: seq<Message>, n: nat)
    ensures var entries := PatchFrom(messages, ResultIDs(messages), n).entries;
            ResultIDs(messages) + SyntheticIDs(entries) <= ResultIDs(Messages(entries))
  {
    hide Covered;
    var existing := ResultIDs(messages);
    var entries := PatchFrom(messages, existing, n).entries;
    PatchRepairs(messages, existing, n);
    KeptIsAnEntry(entries);
    var out := Messages(entries);
    forall id | id in existing + SyntheticIDs(entries) ensures id in ResultIDs(out) {
      if id in existing {
        var i :| 0 <= i < |messages| && HasResult(messages[i]) && ResultID(messages[i]) == id;
        StillAResult(KeptOf(entries)[i], messages[i]);
        assert Kept(KeptOf(entries)[i]) in entries;
        EntryResult(entries, Kept(KeptOf(entries)[i]), id);
      } else {
        var e :| e in entries && e.Synthetic? && e.callID == id;
        EntryResult(entries, e, id);
      }
    }
  }

  lemma StillAResult(m: Message, original: Message)
    requires SameButCalls(m, original) && HasResult(original)
    ensures m == original
  {
    hide NormalizeToolResult;
  }

  lemma EntryResult(entries: seq<Entry>, e: Entry, id: string)
    requires e in entries && HasResult(e.message) && ResultID(e.message) == id
    ensures id in ResultIDs(Messages(entries))
  {
    hide NormalizeToolResult;
    var i :| 0 <= i < |entries| && entries[i] == e;
    assert Messages(entries)[i] in Messages(entries);
  }

  lemma CoveredIsSettled(calls: seq<ToolCall>, results: set<string>)
    requires CoveredCalls(calls, results)
    ensures SettledCalls(calls, results)
  {
    hide NormalCall, Usable, TrimSpace, Seen;
    forall i | 0 <= i < |calls| ensures SettledCall(calls[i], results) && TrimSpace(calls[i].id) == calls[i].id {
      assert calls[i] in calls;
      NormalID(calls[i]);
      SeenHas(calls, calls[i]);
    }
  }

  lemma SettledWithMore(calls: seq<ToolCall>, results: set<string>, more: set<string>)
    requires SettledCalls(calls, results) && results <= more
    ensures SettledCalls(calls, more)
  {
    hide Usable, TrimSpace;
  }

  lemma RepairedIsSettled(messages: seq<Message>, n: nat)
    ensures Settled(Messages(PatchFrom(messages, ResultIDs(messages), n).entries))
  {
    hide SettledCalls, CoveredCalls, ResultIDs, SyntheticIDs, GoodEntries, SameButCalls;
    var existing := ResultIDs(messages);
    var entries := PatchFrom(messages, existing, n).entries;
    PatchRepairs(messages, existing, n);
    RepairedResults(messages, n);
    KeptIsAnEntry(entries);
    var out := Messages(entries);
    forall i | 0 <= i < |out| && HasCalls(out[i]) ensures SettledCalls(out[i].toolCalls, ResultIDs(out)) {
      if entries[i].Synthetic? {
        NotAnAIMessage(entries, existing, i);
      } else {
        var kept := KeptOf(entries);
        var j :| 0 <= j < |kept| && kept[j] == out[i];
        CoveredIsSettled(out[i].toolCalls, existing + SyntheticIDs(entries));
        SettledWithMore(out[i].toolCalls, existing + SyntheticIDs(entries), ResultIDs(out));
      }
    }
  }

  lemma NotAnAIMessage(entries: seq<Entry>, existing: set<string>, i: nat)
    requires GoodEntries(entries, existing) && i < |entries| && entries[i].Synthetic?
    ensures !HasCalls(entries[i].message)
  {
    hide NormalizeToolResult;
    assert entries[i] in entries;
  }

  // ---- settled conversations are the fixed points ---------------------------------------------

  lemma {:induction false} AnsweredCallsAddNothing(entries: seq<Entry>, m: Message, calls: seq<ToolCall>,
                                                   existing: set<string>)
    requires forall i | 0 <= i < |calls| :: TrimSpace(calls[i].id) in existing
    ensures WithResults(entries, m, calls, existing) == entries
    decreases |calls|
  {
    hide TrimSpace, SyntheticIDs, SyntheticEntry;
    if calls != [] {
      AnsweredCallsAddNothing(entries, m, calls[..|calls| - 1], existing);
    }
  }

  lemma {:induction false} SettledNeedsNothing(messages: seq<Message>, existing: set<string>, n: nat)
    requires forall i | 0 <= i < |messages| && HasCalls(messages[i]) :: SettledCalls(messages[i].toolCalls, existing)
    ensures !PatchFrom(messages, existing, n).needed
    decreases |messages|
  {
    hide SettledCalls, NormalizedCalls, WithResults, TrimSpace;
    if messages != [] {
      var last := |messages| - 1;
      SettledNeedsNothing(messages[..last], existing, n);
      var before, m := PatchFrom(messages[..last], existing, n), messages[last];
      if HasCalls(m) {
        SettledMessageNeedsNothing(before, m, existing);
      }
    }
  }

  lemma SettledMessageNeedsNothing(before: Patch, m: Message, existing: set<string>)
    requires !before.needed && HasCalls(m) && SettledCalls(m.toolCalls, existing)
    ensures !PatchMessage(before, m, existing).needed
  {
    hide NormalizedCalls, WithResults, TrimSpace, Usable;
    var r := NormalizedCalls(m.toolCalls, before.next);
    SettledCallsStay(m.toolCalls, existing, before.next);
    forall i | 0 <= i < |r.calls| ensures TrimSpace(r.calls[i].id) in existing {
      TrimSpaceFixed(m.toolCalls[i].id);
      assert SettledCall(m.toolCalls[i], existing);
    }
    var kept := m.(toolCalls := r.calls);
    AnsweredCallsAddNothing(before.entries + [Kept(kept)], kept, r.calls, existing);
  }

  lemma {:induction false} NothingMadeUp(messages: seq<Message>, existing: set<string>, n: nat)
    requires !PatchFrom(messages, existing, n).needed
    ensures SyntheticIDs(PatchFrom(messages, existing, n).entries) == {}
    ensures UnusedIDs(existing, n) ==>
      forall i | 0 <= i < |messages| && HasCalls(messages[i]) :: SettledCalls(messages[i].toolCalls, existing)
    decreases |messages|
  {
    hide SettledCalls, NormalizedCalls, UnusedIDs, SyntheticIDs, WithResults;
    if messages == [] {
      assert SyntheticIDs([]) == {} by { NoEntries(); }
    } else {
      var last := |messages| - 1;
      NothingMadeUp(messages[..last], existing, n);
      PatchRepairs(messages[..last], existing, n);
      MessageMadeNothingUp(messages[..last], PatchFrom(messages[..last], existing, n), messages[last], existing, n);
    }
  }

  lemma NoEntries()
    ensures SyntheticIDs([]) == {}
  {
  }

  lemma MessageMadeNothingUp(messages: seq<Message>, before: Patch, m: Message, existing: set<string>, n: nat)
    requires Repairs(messages, before, existing, n) && SyntheticIDs(before.entries) == {}
    requires !PatchMessage(before, m, existing).needed
    ensures SyntheticIDs(PatchMessage(before, m, existing).entries) == {}
    ensures UnusedIDs(existing, n) && HasCalls(m) ==> SettledCalls(m.toolCalls, existing)
  {
    hide SettledCalls, NormalizedCalls, UnusedIDs, SyntheticIDs, WithResults, GoodEntries, Covered, KeptOf, Seen,
         NormalCall, DistinctIDs, SameButCalls;
    if HasCalls(m) {
      var r := NormalizedCalls(m.toolCalls, before.next);
      NormalizedCallsFacts(m.toolCalls, before.next);
      var kept := m.(toolCalls := r.calls);
      var start := before.entries + [Kept(kept)];
      GoodEntriesGrow(before.entries, Kept(kept), existing);
      SyntheticIDsGrow(before.entries, Kept(kept));
      WithResultsFacts(start, kept, r.calls, existing);
      WithResultsAnswer(start, kept, r.calls, existing);
      assert WithResults(start, kept, r.calls, existing) == start;
      assert Seen(r.calls) <= existing;
      if UnusedIDs(existing, n) {
        LaterIDsUnused(existing, n, before.next);
        KeptCallsAreSettled(m.toolCalls, before.next, existing);
      }
    } else {
      SyntheticIDsGrow(before.entries, Kept(m));
    }
  }

  lemma LaterIDsUnused(results: set<string>, n: nat, next: nat)
    requires UnusedIDs(results, n) && n <= next
    ensures UnusedIDs(results, next)
  {
    hide NewCallID;
  }

  lemma KeptCallsAreSettled(calls: seq<ToolCall>, n: nat, existing: set<string>)
    requires |NormalizedCalls(calls, n).calls| == |calls| && Seen(NormalizedCalls(calls, n).calls) <= existing
    requires UnusedIDs(existing, n)
    ensures SettledCalls(calls, existing)
  {
    hide NormalizedCalls, Usable, TrimSpace, NewCallID, Seen, NormalCall;
    var r := NormalizedCalls(calls, n).calls;
    AllKeptMeansUsable(calls, n);
    NormalizedCallsFacts(calls, n);
    forall i | 0 <= i < |calls| ensures SettledCall(calls[i], existing) && r[i].id == TrimSpace(calls[i].id) {
      SeenHas(r, r[i]);
      assert !Blank(calls[i].id);
    }
  }

  /** A conversation is left alone exactly when every call in it is usable and has a result. */
  lemma SettledIsLeftAlone(messages: seq<Message>, n: nat)
    requires UnusedIDs(ResultIDs(messages), n)
    ensures !PatchFrom(messages, ResultIDs(messages), n).needed <==> Settled(messages)
  {
    hide SettledCalls, UnusedIDs, ResultIDs, SyntheticIDs;
    if Settled(messages) {
      SettledNeedsNothing(messages, ResultIDs(messages), n);
    }
    if !PatchFrom(messages, ResultIDs(messages), n).needed {
      NothingMadeUp(messages, ResultIDs(messages), n);
    }
  }

  /** After the repair every call is usable and has a result. */
  lemma RepairSettles(messages: seq<Message>, n: nat)
    requires UnusedIDs(ResultIDs(messages), n)
    ensures Settled(Patched(messages, n))
  {
    hide Settled, UnusedIDs, ResultIDs;
    SettledIsLeftAlone(messages, n);
    RepairedIsSettled(messages, n);
  }

  /** Repairing again changes nothing, wherever the counter has got to. */
  lemma RepairIsIdempotent(messages: seq<Message>, n: nat, later: nat)
    requires UnusedIDs(ResultIDs(messages), n)
    ensures Patched(Patched(messages, n), later) == Patched(messages, n)
  {
    hide UnusedIDs, ResultIDs, SettledCalls;
    RepairSettles(messages, n);
    SettledNeedsNothing(Patched(messages, n), ResultIDs(Patched(messages, n)), later);
  }
}
