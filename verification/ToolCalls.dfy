/** Tool calls and results, and the repairs that make them fit to keep
    (pkg/models/message.go, tool_normalize.go). */
module ToolCalls {
  import opened GoStrings
  import opened Wrappers

  const PENDING := "pending"
  const RUNNING := "running"
  const COMPLETED := "completed"
  const FAILED := "failed"

  predicate ValidStatus(status: string) {
    status == PENDING || status == RUNNING || status == COMPLETED || status == FAILED
  }

  /** `arguments` stands for the normalised arguments' canonical text; times are instants, 0 is
      Go's zero time. */
  datatype ToolCall = ToolCall(
    id: string, name: string, arguments: string, status: string, requestedAt: int, startedAt: int, completedAt: int)

  datatype ToolResult = ToolResult(callID: string, toolName: string, status: string, content: string, error: string,
    duration: int)

  predicate ValidCall(c: ToolCall) {
    !Blank(c.id) && !Blank(c.name) && ValidStatus(c.status) &&
    !(c.startedAt != 0 && c.startedAt < c.requestedAt) && !(c.completedAt != 0 && c.completedAt < c.startedAt)
  }

  predicate ValidResult(r: ToolResult) {
    !Blank(r.callID) && !Blank(r.toolName) && ValidStatus(r.status) &&
    (r.status == COMPLETED ==> Blank(r.error)) && (r.status == FAILED ==> !Blank(r.error)) && r.duration >= 0
  }

  /** The ID given to a call without one: its name and the next number of a counter. */
  function NewCallID(name: string, n: nat): string {
    name + "_norm_" + NatToDecimal(n)
  }

  predicate NeedsID(c: ToolCall) {
    !Blank(c.name) && Blank(c.id)
  }

  /** `NormalizeToolCall` when the counter stands at `n`; a call that needs an ID advances it. */
  function NormalizeToolCall(c: ToolCall, n: nat): Option<ToolCall> {
    var name := TrimSpace(c.name);
    if name == "" then None
    else
      var r := c.(name := name,
                  id := if Blank(c.id) then NewCallID(name, n) else TrimSpace(c.id),
                  status := if c.status == "" then PENDING else c.status);
      if ValidCall(r) then Some(r) else None
  }

  function NormalizeToolResult(result: ToolResult): Option<ToolResult> {
    var r := result.(callID := TrimSpace(result.callID), toolName := TrimSpace(result.toolName));
    if r.callID == "" || r.toolName == "" then None
    else
      var s := r.(status := if r.status != "" then r.status else if !Blank(r.error) then FAILED else COMPLETED);
      if ValidResult(s) then Some(s) else None
  }

  /** Normalisation would keep the call, whatever ID it may be given. */
  predicate Usable(c: ToolCall) {
    !Blank(c.name) && (c.status == "" || ValidStatus(c.status)) &&
    !(c.startedAt != 0 && c.startedAt < c.requestedAt) && !(c.completedAt != 0 && c.completedAt < c.startedAt)
  }

  /** What normalisation gives: trimmed, complete and valid. */
  predicate NormalCall(c: ToolCall) {
    Trimmed(c.id) && Trimmed(c.name) && ValidCall(c)
  }

  lemma TrimmedIsNotBlank(s: string)
    requires Trimmed(s)
    ensures Blank(s) <==> s == ""
  {
    hide TrimSpace, Trimmed;
    TrimSpaceFixed(s);
  }

  lemma NewCallIDIsTrimmed(name: string, n: nat)
    requires Trimmed(name) && name != ""
    ensures Trimmed(NewCallID(name, n)) && !Blank(NewCallID(name, n))
  {
    hide TrimSpace, NatToDecimal;
    var id := NewCallID(name, n);
    var number := NatToDecimal(n);
    assert number != "" && IsDigit(number[|number| - 1]);
    assert id[0] == name[0] && id[|id| - 1] == number[|number| - 1];
    TrimmedIsNotBlank(id);
  }

  lemma StatusIsKept(status: string)
    ensures var s := if status == "" then PENDING else status;
            ValidStatus(s) <==> status == "" || ValidStatus(status)
  {
  }

  /** Exactly the usable calls are kept, in normal form, under their own trimmed ID if they have
      one. */
  lemma NormalizeCallFacts(c: ToolCall, n: nat)
    ensures NormalizeToolCall(c, n).Some? <==> Usable(c)
    ensures Usable(c) ==>
      var r := NormalizeToolCall(c, n).value;
      NormalCall(r) && r.id == if Blank(c.id) then NewCallID(TrimSpace(c.name), n) else TrimSpace(c.id)
  {
    hide TrimSpace, ValidStatus, NewCallID, Trimmed;
    TrimSpaceIsTrimmed(c.id);
    TrimSpaceIsTrimmed(c.name);
    TrimSpaceFixed(c.id);
    TrimSpaceFixed(c.name);
    StatusIsKept(c.status);
    if !Blank(c.name) {
      NewCallIDIsTrimmed(TrimSpace(c.name), n);
    }
  }

  /** A kept call has its name trimmed, is pending if it had no status, and keeps the rest. */
  lemma NormalizeCallKeeps(c: ToolCall, n: nat)
    requires Usable(c)
    ensures NormalizeToolCall(c, n).Some?
    ensures var r := NormalizeToolCall(c, n).value;
      && r.name == TrimSpace(c.name) && r.arguments == c.arguments
      && r.status == (if c.status == "" then PENDING else c.status)
      && r.requestedAt == c.requestedAt && r.startedAt == c.startedAt && r.completedAt == c.completedAt
      && (Blank(c.id) ==> r.id == TrimSpace(c.name) + "_norm_" + NatToDecimal(n))
  {
    hide TrimSpace, NormalCall, Usable, ValidCall;
    NormalizeCallFacts(c, n);
  }

  /** A call is usable exactly when it has a name, its status is unset or one of four words, and its
      times are in order. */
  lemma UsableExactly(c: ToolCall)
    ensures Usable(c) <==>
            && TrimSpace(c.name) != ""
            && c.status in {"", "pending", "running", "completed", "failed"}
            && (c.startedAt == 0 || c.requestedAt <= c.startedAt)
            && (c.completedAt == 0 || c.startedAt <= c.completedAt)
  {
    hide TrimSpace;
  }

  /** A result is kept exactly when it names its call and its tool and its status agrees with its
      error.  Only names and an unset status change: with an error the call failed, without one it
      completed. */
  lemma NormalizeResultFacts(result: ToolResult)
    ensures NormalizeToolResult(result).Some? <==>
            && TrimSpace(result.callID) != "" && TrimSpace(result.toolName) != "" && result.duration >= 0
            && (result.status in {"", "pending", "running"} || (result.status == "completed" && Blank(result.error)) ||
                (result.status == "failed" && !Blank(result.error)))
    ensures NormalizeToolResult(result).Some? ==>
            var r := NormalizeToolResult(result).value;
            && r.callID == TrimSpace(result.callID) && r.toolName == TrimSpace(result.toolName)
            && r.content == result.content && r.error == result.error && r.duration == result.duration
            && (result.status != "" ==> r.status == result.status)
            && (result.status == "" ==> r.status == if Blank(result.error) then "completed" else "failed")
  {
    hide TrimSpace;
    TrimSpaceFixed(result.callID);
    TrimSpaceFixed(result.toolName);
  }

  /** Normal calls are fixed points, so normalising again changes nothing. */
  lemma NormalCallIsFixed(c: ToolCall, n: nat)
    ensures NormalizeToolCall(c, n) == Some(c) <==> NormalCall(c)
  {
    hide TrimSpace, ValidStatus, NewCallID, Trimmed;
    NormalizeCallFacts(c, n);
    TrimSpaceFixed(c.id);
    TrimSpaceFixed(c.name);
    assert ValidStatus("") == false by { EmptyIsNoStatus(); }
  }

  lemma EmptyIsNoStatus()
    ensures !ValidStatus("")
  {
  }

  /** Normalising a result twice is the same as once. */
  lemma NormalResultIsFixed(r: ToolResult)
    ensures NormalizeToolResult(r).Some? ==> NormalizeToolResult(NormalizeToolResult(r).value) == NormalizeToolResult(r)
  {
    hide TrimSpace, ValidStatus;
    TrimSpaceFixed(r.callID);
    TrimSpaceFixed(r.toolName);
    EmptyIsNoStatus();
  }
}
