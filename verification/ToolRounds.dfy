/** Running the tool calls of one round: consecutive `task` calls run in parallel and finish in
    any order, everything else runs one call at a time (pkg/agent/react.go). */
module ToolRounds {
  import opened ToolCalls

  const TASK := "task"

  /** A finished task, tagged with its place in its group. */
  datatype Arrival<R> = Arrival(index: nat, record: R)

  /** Every place of a group of `n` tasks arrives, once, with the record of its own call. */
  ghost predicate Completes<R>(arrivals: seq<Arrival<R>>, records: seq<R>) {
    && (forall k | 0 <= k < |arrivals| ::
          arrivals[k].index < |records| && arrivals[k].record == records[arrivals[k].index])
    && (forall i | 0 <= i < |records| :: HasArrived(arrivals, i))
  }

  predicate HasArrived<R>(arrivals: seq<Arrival<R>>, i: nat) {
    exists k :: 0 <= k < |arrivals| && arrivals[k].index == i
  }

  /** The records as they arrived, put back in call order. */
  method CollectInOrder<R(0)>(n: nat, arrivals: seq<Arrival<R>>, ghost records: seq<R>) returns (results: seq<R>)
    requires n == |records| && Completes(arrivals, records)
    ensures results == records
  {
    var slots := new R[n];
    for k := 0 to |arrivals|
      invariant forall j | 0 <= j < k :: slots[arrivals[j].index] == arrivals[j].record
    {
      slots[arrivals[k].index] := arrivals[k].record;
    }
    forall i | 0 <= i < n ensures slots[i] == records[i] {
      assert HasArrived(arrivals, i);
      var k :| 0 <= k < |arrivals| && arrivals[k].index == i;
    }
    return slots[..];
  }

  /** What happens after a call that runs on its own: the round goes on, is paused, or is given
      up because the run's context has ended. */
  datatype Verdict = GoOn | Pause | Abort

  datatype RoundEnd = Finished | Paused | Aborted

  /** Call `i` is the first that does not let the round go on; a task always does. */
  predicate FirstStop(calls: seq<ToolCall>, verdicts: seq<Verdict>, i: nat)
    requires |calls| == |verdicts|
  {
    && i < |calls| && Stops(calls[i], verdicts[i])
    && forall k | 0 <= k < i :: !Stops(calls[k], verdicts[k])
  }

  predicate Stops(call: ToolCall, verdict: Verdict) {
    call.name != TASK && verdict != GoOn
  }

  /** However the parallel tasks interleave (`schedule` gives, for the group starting at a call,
      the order in which its tasks finish), the records of the round come out in call order: all
      of them, or those up to and including the first call that pauses the run, or none when that
      call aborts it. */
  method ExecuteToolCalls<R(0)>(calls: seq<ToolCall>, records: seq<R>, verdicts: seq<Verdict>,
                                schedule: map<nat, seq<Arrival<R>>>)
    returns (out: seq<R>, end: RoundEnd)
    requires |calls| == |records| == |verdicts|
    requires forall i, j | 0 <= i < j <= |calls| && i in schedule && IsGroup(calls, i, j) ::
      Completes(schedule[i], records[i..j])
    requires forall i | 0 <= i < |calls| && StartsGroup(calls, i) :: i in schedule
    ensures end == Finished <==> forall i | 0 <= i < |calls| :: !Stops(calls[i], verdicts[i])
    ensures end == Finished ==> out == records
    ensures end == Paused ==>
      |out| > 0 && out <= records && FirstStop(calls, verdicts, |out| - 1) && verdicts[|out| - 1] == Pause
    ensures end == Aborted ==>
      out == [] && exists i: nat :: FirstStop(calls, verdicts, i) && verdicts[i] == Abort
  {
    out, end := [], Finished;
    var i := 0;
    while i < |calls|
      invariant i <= |calls| && end == Finished && out == records[..i]
      invariant forall k | 0 <= k < i :: !Stops(calls[k], verdicts[k])
      invariant 0 < i < |calls| && calls[i].name == TASK ==> calls[i - 1].name != TASK
    {
      if calls[i].name != TASK {
        if verdicts[i] == Abort {
          assert FirstStop(calls, verdicts, i);
          return [], Aborted;
        }
        out := out + [records[i]];
        if verdicts[i] == Pause {
          return out, Paused;
        }
        i := i + 1;
      } else {
        var j := i;
        while j < |calls| && calls[j].name == TASK
          invariant i <= j <= |calls| && forall k | i <= k < j :: calls[k].name == TASK
        {
          j := j + 1;
        }
        assert StartsGroup(calls, i) && IsGroup(calls, i, j);
        var results := CollectInOrder(j - i, schedule[i], records[i..j]);
        assert records[..j] == records[..i] + records[i..j];
        out := out + results;
        i := j;
      }
    }
    assert records[..i] == records;
  }

  predicate StartsGroup(calls: seq<ToolCall>, i: nat)
    requires i < |calls|
  {
    calls[i].name == TASK && (i > 0 ==> calls[i - 1].name != TASK)
  }

  /** The calls from `i` up to `j` are a whole run of tasks. */
  predicate IsGroup(calls: seq<ToolCall>, i: nat, j: nat)
    requires i < j <= |calls|
  {
    StartsGroup(calls, i) && (forall k | i <= k < j :: calls[k].name == TASK) && (j < |calls| ==> calls[j].name != TASK)
  }

  // ---- the limit on parallel tasks ----------------------------------------------------------

  const DEFAULT_TASKS := 3
  const MIN_TASKS := 2
  const MAX_TASKS := 4

  /** `clampMaxConcurrentSubagents`. */
  function Clamped(value: int): (limit: nat)
    ensures MIN_TASKS <= limit <= MAX_TASKS && (MIN_TASKS <= value <= MAX_TASKS ==> limit == value)
  {
    if value <= 0 then DEFAULT_TASKS
    else if value < MIN_TASKS then MIN_TASKS
    else if value > MAX_TASKS then MAX_TASKS
    else value
  }

  /** Limits from two to four are used, others are moved to the nearest of them, and three stands for
      none. */
  lemma ClampedLimits(value: int)
    ensures Clamped(value) == if value <= 0 then 3 else if value == 1 then 2 else if value >= 4 then 4 else value
  {
  }

  function Others(calls: seq<ToolCall>): seq<ToolCall> {
    if calls == [] then []
    else Others(calls[..|calls| - 1]) + if calls[|calls| - 1].name == TASK then [] else [calls[|calls| - 1]]
  }

  function JustTasks(calls: seq<ToolCall>): seq<ToolCall> {
    if calls == [] then []
    else JustTasks(calls[..|calls| - 1]) + if calls[|calls| - 1].name == TASK then [calls[|calls| - 1]] else []
  }

  /** What truncation keeps: every other call, and the first `limit` tasks. */
  ghost predicate KeepsFirst(calls: seq<ToolCall>, out: seq<ToolCall>, limit: nat) {
    var tasks := JustTasks(calls);
    Others(out) == Others(calls) && JustTasks(out) == if |tasks| <= limit then tasks else tasks[..limit]
  }

  /** The tasks and the other calls make up the round. */
  lemma {:induction false} TasksAndOthers(calls: seq<ToolCall>)
    ensures multiset(calls) == multiset(Others(calls)) + multiset(JustTasks(calls))
    decreases |calls|
  {
    hide Others, JustTasks;
    if calls == [] {
      assert Others([]) == [] && JustTasks([]) == [] by { NothingSplits(); }
    } else {
      var before, last := calls[..|calls| - 1], calls[|calls| - 1];
      TasksAndOthers(before);
      assert calls == before + [last];
      JustTasksAppend(before, last);
      OthersAppend(before, last);
    }
  }

  lemma NothingSplits()
    ensures Others([]) == [] && JustTasks([]) == []
  {
  }

  lemma {:induction false} TasksAreTasks(calls: seq<ToolCall>)
    ensures forall c | c in Others(calls) :: c.name != TASK
    ensures forall c | c in JustTasks(calls) :: c.name == TASK
    decreases |calls|
  {
    if calls != [] {
      TasksAreTasks(calls[..|calls| - 1]);
    }
  }

  /** Call `i` is kept: it is no task, or fewer than `limit` tasks come before it. */
  predicate Stays(calls: seq<ToolCall>, i: nat, limit: nat)
    requires i < |calls|
  {
    calls[i].name != TASK || |JustTasks(calls[..i])| < limit
  }

  /** The calls that stay, in their order. */
  function Staying(calls: seq<ToolCall>, limit: nat): seq<ToolCall> {
    if calls == [] then []
    else
      var last := |calls| - 1;
      Staying(calls[..last], limit) + if Stays(calls, last, limit) then [calls[last]] else []
  }

  lemma {:induction false} AllStay(calls: seq<ToolCall>, limit: nat)
    requires |JustTasks(calls)| <= limit
    ensures Staying(calls, limit) == calls
    decreases |calls|
  {
    if calls != [] {
      AllStay(calls[..|calls| - 1], limit);
      assert calls == calls[..|calls| - 1] + [calls[|calls| - 1]];
    }
  }

  lemma {:induction false} TasksStaying(calls: seq<ToolCall>, limit: nat)
    ensures |JustTasks(Staying(calls, limit))| ==
            if |JustTasks(calls)| <= limit then |JustTasks(calls)| else limit
    decreases |calls|
  {
    hide JustTasks;
    if calls == [] {
      NothingSplits();
    } else {
      var before, last := calls[..|calls| - 1], calls[|calls| - 1];
      TasksStaying(before, limit);
      assert calls == before + [last];
      JustTasksAppend(before, last);
      assert Staying(before, limit) + [] == Staying(before, limit);
      JustTasksAppend(Staying(before, limit), last);
    }
  }

  lemma StayingStep(calls: seq<ToolCall>, call: ToolCall, limit: nat)
    ensures Staying(calls + [call], limit) ==
            if call.name == TASK && |JustTasks(Staying(calls, limit))| >= limit then Staying(calls, limit)
            else Staying(calls, limit) + [call]
  {
    assert (calls + [call])[..|calls|] == calls;
    TasksStaying(calls, limit);
  }

  lemma JustTasksAppend(calls: seq<ToolCall>, call: ToolCall)
    ensures JustTasks(calls + [call]) == JustTasks(calls) + if call.name == TASK then [call] else []
  {
    assert (calls + [call])[..|calls|] == calls;
  }

  lemma OthersAppend(calls: seq<ToolCall>, call: ToolCall)
    ensures Others(calls + [call]) == Others(calls) + if call.name == TASK then [] else [call]
  {
    assert (calls + [call])[..|calls|] == calls;
  }

  lemma KeepsFirstStep(calls: seq<ToolCall>, out: seq<ToolCall>, limit: nat, call: ToolCall)
    requires KeepsFirst(calls, out, limit)
    ensures var kept := if call.name == TASK && |JustTasks(out)| >= limit then out else out + [call];
            KeepsFirst(calls + [call], kept, limit)
  {
    hide JustTasks, Others;
    JustTasksAppend(calls, call);
    JustTasksAppend(out, call);
    OthersAppend(calls, call);
    OthersAppend(out, call);
    if call.name != TASK {
      assert JustTasks(out) + [] == JustTasks(out) && JustTasks(calls) + [] == JustTasks(calls);
    } else {
      assert Others(out) + [] == Others(out) && Others(calls) + [] == Others(calls);
    }
  }

  lemma KeepsAll(calls: seq<ToolCall>, limit: nat)
    requires |JustTasks(calls)| <= limit
    ensures KeepsFirst(calls, calls, limit)
  {
  }

  lemma NothingKept(limit: nat)
    ensures KeepsFirst([], [], limit) && JustTasks([]) == []
  {
  }

  method TruncateTaskToolCalls(calls: seq<ToolCall>, rawLimit: int) returns (out: seq<ToolCall>)
    ensures KeepsFirst(calls, out, Clamped(rawLimit))
    ensures out == Staying(calls, Clamped(rawLimit))
    ensures |JustTasks(calls)| <= Clamped(rawLimit) ==> out == calls
  {
    hide JustTasks, KeepsFirst, Staying, Stays;
    var limit := Clamped(rawLimit);
    NothingKept(limit);
    var taskCount := 0;
    assert calls[..0] == [];
    for i := 0 to |calls|
      invariant taskCount == |JustTasks(calls[..i])|
    {
      assert calls[..i + 1] == calls[..i] + [calls[i]];
      JustTasksAppend(calls[..i], calls[i]);
      if calls[i].name == TASK {
        taskCount := taskCount + 1;
      }
    }
    assert calls[..|calls|] == calls;
    if taskCount <= limit {
      KeepsAll(calls, limit);
      AllStay(calls, limit);
      return calls;
    }
    AllStay([], limit);
    out := [];
    var kept := 0;
    for i := 0 to |calls|
      invariant kept <= limit && kept == |JustTasks(out)| && KeepsFirst(calls[..i], out, limit)
      invariant out == Staying(calls[..i], limit)
    {
      StayingStep(calls[..i], calls[i], limit);
      KeepsFirstStep(calls[..i], out, limit, calls[i]);
      JustTasksAppend(out, calls[i]);
      assert calls[..i + 1] == calls[..i] + [calls[i]];
      if calls[i].name != TASK {
        out := out + [calls[i]];
      } else if kept < limit {
        out := out + [calls[i]];
        kept := kept + 1;
      }
    }
    assert calls[..|calls|] == calls;
  }
}
