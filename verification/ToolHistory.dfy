/** Repairing a conversation in which some tool calls never got a result
    (pkg/agent/react.go). */
module ToolHistory {
  import opened GoStrings
  import opened ToolCalls
  import opened Wrappers

  datatype Role = Human | AI | System | Tool

  datatype Message = Message(
    sessionID: string, role: Role, content: string, toolCalls: seq<ToolCall>, toolResult: Option<ToolResult>)

  const INTERRUPTED := "[Tool call was interrupted and did not return a result.]"

  // ---- normalising the calls of one message -----------------------------------------------

  datatype Calls = Calls(calls: seq<ToolCall>, next: nat)

  function Seen(calls: seq<ToolCall>): set<string> {
    set c | c in calls :: c.id
  }

  /** The normalised calls, the first of each ID, with the counter for new IDs starting at `n`. */
  function NormalizedCalls(calls: seq<ToolCall>, n: nat): Calls {
    if calls == [] then Calls([], n)
    else
      var before, call := NormalizedCalls(calls[..|calls| - 1], n), calls[|calls| - 1];
      var next := before.next + if NeedsID(call) then 1 else 0;
      match NormalizeToolCall(call, before.next)
      case None => Calls(before.calls, next)
      case Some(c) => Calls(if c.id in Seen(before.calls) then before.calls else before.calls + [c], next)
  }

  method NormalizeToolCalls(calls: seq<ToolCall>, n: nat) returns (out: seq<ToolCall>, next: nat)
    ensures Calls(out, next) == NormalizedCalls(calls, n)
  {
    hide NormalizeToolCall, NeedsID;
    out, next := [], n;
    var seen: set<string> := {};
    for i := 0 to |calls|
      invariant Calls(out, next) == NormalizedCalls(calls[..i], n) && seen == Seen(out)
    {
      assert calls[..i + 1][..i] == calls[..i];
      var normalized := NormalizeToolCall(calls[i], next);
      if NeedsID(calls[i]) {
        next := next + 1;
      }
      if normalized.Some? {
        var c := normalized.value;
        if c.id !in seen {
          seen := seen + {c.id};
          out := out + [c];
          assert Seen(out) == seen;
        }
      }
    }
    assert calls[..|calls|] == calls;
  }

  // ---- the repair ---------------------------------------------------------------------------

  /** An original message, or a result made up for the call `callID`. */
  datatype Entry = Kept(message: Message) | Synthetic(callID: string, message: Message)

  function Messages(entries: seq<Entry>): (messages: seq<Message>)
    ensures |messages| == |entries| && forall i | 0 <= i < |entries| :: messages[i] == entries[i].message
  {
    seq(|entries|, i requires 0 <= i < |entries| => entries[i].message)
  }

  function InterruptedResult(call: ToolCall): ToolResult {
    ToolResult(TrimSpace(call.id), call.name, FAILED, "", INTERRUPTED, 0)
  }

  /** What the model is shown for a failed call. */
  function FailureText(name: string, error: string): string {
    "Error: Tool '" + (if Blank(name) then "unknown_tool" else TrimSpace(name)) + "' failed: " + TrimSpace(error) +
    ". Continue with available context, or choose an alternative tool."
  }

  function SyntheticEntry(m: Message, call: ToolCall): Entry {
    Synthetic(TrimSpace(call.id),
              Message(m.sessionID, Tool, FailureText(call.name, INTERRUPTED), [], Some(InterruptedResult(call))))
  }

  /** The IDs of the results in a conversation. */
  function ResultIDs(messages: seq<Message>): set<string> {
    set m | m in messages && HasResult(m) :: ResultID(m)
  }

  predicate HasResult(m: Message) {
    m.role == Tool && m.toolResult.Some? && NormalizeToolResult(m.toolResult.value).Some?
  }

  function ResultID(m: Message): string
    requires HasResult(m)
  {
    NormalizeToolResult(m.toolResult.value).value.callID
  }

  function SyntheticIDs(entries: seq<Entry>): set<string> {
    set e | e in entries && e.Synthetic? :: e.callID
  }

  /** The entries after one message's calls: each call with neither a result nor a made-up one
      gets one. */
  function WithResults(entries: seq<Entry>, m: Message, calls: seq<ToolCall>, existing: set<string>): seq<Entry> {
    if calls == [] then entries
    else
      WithAnswer(WithResults(entries, m, calls[..|calls| - 1], existing), m, calls[|calls| - 1], existing)
  }

  function WithAnswer(entries: seq<Entry>, m: Message, call: ToolCall, existing: set<string>): seq<Entry> {
    var id := TrimSpace(call.id);
    if id == "" || id in existing || id in SyntheticIDs(entries) then entries
    else entries + [SyntheticEntry(m, call)]
  }

  datatype Patch = Patch(entries: seq<Entry>, next: nat, needed: bool)

  function HasCalls(m: Message): bool {
    m.role == AI && m.toolCalls != []
  }

  function PatchMessage(before: Patch, m: Message, existing: set<string>): Patch {
    if !HasCalls(m) then before.(entries := before.entries + [Kept(m)])
    else
      var normalized := NormalizedCalls(m.toolCalls, before.next);
      var kept := m.(toolCalls := normalized.calls);
      var entries := WithResults(before.entries + [Kept(kept)], kept, normalized.calls, existing);
      Patch(entries, normalized.next,
            before.needed || |normalized.calls| != |m.toolCalls| || |entries| > |before.entries| + 1)
  }

  function PatchFrom(messages: seq<Message>, existing: set<string>, n: nat): Patch {
    if messages == [] then Patch([], n, false)
    else PatchMessage(PatchFrom(messages[..|messages| - 1], existing, n), messages[|messages| - 1], existing)
  }

  /** The repaired conversation; one that needs no repair is returned as it came. */
  function Patched(messages: seq<Message>, n: nat): seq<Message> {
    var patch := PatchFrom(messages, ResultIDs(messages), n);
    if patch.needed then Messages(patch.entries) else messages
  }

  method PatchDanglingToolCalls(messages: seq<Message>, n: nat) returns (out: seq<Message>)
    ensures out == Patched(messages, n)
  {
    hide NormalizedCalls, HasCalls, NormalizeToolResult, TrimSpace, FailureText;
    if |messages| == 0 {
      return messages;
    }
    var existing: set<string> := {};
    for i := 0 to |messages|
      invariant existing == ResultIDs(messages[..i])
    {
      assert messages[..i + 1] == messages[..i] + [messages[i]];
      if HasResult(messages[i]) {
        existing := existing + {ResultID(messages[i])};
      }
    }
    assert messages[..|messages|] == messages;
    ghost var patch := Patch([], n, false);
    var patched: seq<Entry>, next, needed := [], n, false;
    for i := 0 to |messages|
      invariant Patch(patched, next, needed) == PatchFrom(messages[..i], existing, n)
    {
      assert messages[..i + 1][..i] == messages[..i];
      patched, next, needed := PatchOne(patched, next, needed, messages[i], existing);
    }
    assert messages[..|messages|] == messages;
    return if needed then Messages(patched) else messages;
  }

  method PatchOne(patched: seq<Entry>, next: nat, needed: bool, m: Message, existing: set<string>)
    returns (patched': seq<Entry>, next': nat, needed': bool)
    ensures Patch(patched', next', needed') == PatchMessage(Patch(patched, next, needed), m, existing)
  {
    hide NormalizedCalls, TrimSpace, FailureText;
    patched', next', needed' := patched, next, needed;
    var message := m;
    if HasCalls(m) {
      var calls, after := NormalizeToolCalls(m.toolCalls, next);
      next' := after;
      if |calls| != |m.toolCalls| {
        needed' := true;
      }
      message := m.(toolCalls := calls);
    }
    patched' := patched + [Kept(message)];
    if !HasCalls(m) {
      return;
    }
    ghost var start := patched';
    for i := 0 to |message.toolCalls|
      invariant patched' == WithResults(start, message, message.toolCalls[..i], existing)
      invariant |patched'| >= |start|
      invariant needed' == (needed || |message.toolCalls| != |m.toolCalls| || |patched'| > |start|)
    {
      var call := message.toolCalls[i];
      assert message.toolCalls[..i + 1][..i] == message.toolCalls[..i];
      var id := TrimSpace(call.id);
      if id != "" && id !in existing && id !in SyntheticIDs(patched') {
        needed' := true;
        patched' := patched' + [SyntheticEntry(message, call)];
      }
    }
    assert message.toolCalls[..|message.toolCalls|] == message.toolCalls;
  }
}
