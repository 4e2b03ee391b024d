/** What a run reports about itself: its outcome and the progress of its tasks
    (pkg/harnessruntime/outcome_service.go, task_lifecycle.go). */
module Outcomes {
  import opened GoStrings
  import T = TaskState

  datatype TaskLifecycle = TaskLifecycle(
    status: string, pendingTasks: seq<string>, expectedArtifacts: seq<string>, verifiedArtifacts: seq<string>)
  {
    predicate IsZero() {
      status == "" && pendingTasks == [] && expectedArtifacts == [] && verifiedArtifacts == []
    }
  }

  const NO_LIFECYCLE := TaskLifecycle("", [], [], [])

  datatype RunOutcome = RunOutcome(interrupted: bool, runStatus: string)

  datatype Descriptor = Descriptor(
    runStatus: string, interrupted: bool, error: string,
    pendingTasks: seq<string>, expectedArtifacts: seq<string>,
    taskState: T.TaskState, lifecycle: TaskLifecycle,
    attempt: int, resumeFromEvent: int, resumeReason: string)

  const NO_DESCRIPTOR := Descriptor("", false, "", [], [], T.ZERO, NO_LIFECYCLE, 0, 0, "")

  /** The texts of the items not completed, in order. */
  function PendingTexts(items: seq<T.TaskItem>): seq<string> {
    if items == [] then []
    else
      PendingTexts(items[..|items| - 1]) +
      if items[|items| - 1].status == T.COMPLETED then [] else [items[|items| - 1].text]
  }

  function DescribeLifecycle(outcome: RunOutcome, taskState: T.TaskState, paused: bool): TaskLifecycle {
    TaskLifecycle(
      if paused then "paused" else if outcome.runStatus == "" then "success" else outcome.runStatus,
      PendingTexts(taskState.items),
      T.Missing(taskState),
      taskState.verifiedOutputs)
  }

  lemma OneTextPending(item: T.TaskItem)
    ensures PendingTexts([item]) == if item.status == "completed" then [] else [item.text]
  {
    assert [item][..0] == [];
  }

  /** What is pending of two lists is what is pending of each, in order. */
  lemma {:induction false} PendingTextsOfConcat(a: seq<T.TaskItem>, b: seq<T.TaskItem>)
    ensures PendingTexts(a + b) == PendingTexts(a) + PendingTexts(b)
    decreases |b|
  {
    if b == [] {
      assert a + b == a;
    } else {
      assert (a + b)[..|a + b| - 1] == a + b[..|b| - 1];
      PendingTextsOfConcat(a, b[..|b| - 1]);
    }
  }

  lemma {:induction false} PendingTextsAre(items: seq<T.TaskItem>)
    ensures forall t :: t in PendingTexts(items) <==>
              exists i | 0 <= i < |items| :: items[i].text == t && items[i].status != "completed"
    decreases |items|
  {
    if items != [] {
      var n := |items| - 1;
      PendingTextsAre(items[..n]);
      assert forall i | 0 <= i < n :: items[..n][i] == items[i];
    }
  }

  /** The lifecycle reports the progress of a task state: the texts of the items not completed, the
      outputs expected and not verified, and those verified. */
  ghost predicate Progress(l: TaskLifecycle, state: T.TaskState) {
    && (forall t :: t in l.pendingTasks <==>
          exists i | 0 <= i < |state.items| :: state.items[i].text == t && state.items[i].status != "completed")
    && (forall x :: x in l.expectedArtifacts <==> x in state.expectedOutputs && x !in state.verifiedOutputs)
    && l.verifiedArtifacts == state.verifiedOutputs
  }

  /** A described lifecycle reports the progress, under "paused" or the run's status, and "success"
      when that is not set. */
  lemma LifecycleReportsProgress(outcome: RunOutcome, state: T.TaskState, paused: bool)
    ensures var l := DescribeLifecycle(outcome, state, paused);
      && Progress(l, state)
      && (paused ==> l.status == "paused")
      && (!paused && outcome.runStatus != "" ==> l.status == outcome.runStatus)
      && (!paused && outcome.runStatus == "" ==> l.status == "success")
  {
    PendingTextsAre(state.items);
  }

  /** The first list, or the second one when the first is empty. */
  function OrElse(first: seq<string>, second: seq<string>): seq<string> {
    if first == [] then second else first
  }

  // ---- the stored form of a lifecycle ---------------------------------------------------

  function LifecycleValue(l: TaskLifecycle): T.Any {
    if l.IsZero() then T.NilObject
    else
      var status := map["status" := T.Text(l.status)];
      var pending := if l.pendingTasks != [] then status["pending_tasks" := T.TextList(l.pendingTasks)] else status;
      var expected := if l.expectedArtifacts == [] then pending
        else pending["expected_artifacts" := T.TextList(l.expectedArtifacts)];
      T.Object(if l.verifiedArtifacts != [] then expected["verified_artifacts" := T.TextList(l.verifiedArtifacts)]
        else expected)
  }

  function CollapsedTexts(elements: seq<T.Any>): seq<string> {
    if elements == [] then []
    else
      var last := elements[|elements| - 1];
      var text := if last.Text? then Collapse(last.text) else "";
      CollapsedTexts(elements[..|elements| - 1]) + if text != "" then [text] else []
  }

  /** Only texts are read from a list, collapsed, and blank ones are skipped. */
  lemma {:induction false} CollapsedTextsAre(elements: seq<T.Any>)
    ensures forall t :: t in CollapsedTexts(elements) <==>
              t != "" && exists i | 0 <= i < |elements| :: elements[i].Text? && Collapse(elements[i].text) == t
    decreases |elements|
  {
    hide Collapse;
    if elements != [] {
      var n := |elements| - 1;
      CollapsedTextsAre(elements[..n]);
      assert forall i | 0 <= i < n :: elements[..n][i] == elements[i];
    }
  }

  function LifecycleStrings(raw: T.Any): seq<string> {
    match raw
    case TextList(texts) => texts
    case List(elements) => CollapsedTexts(elements)
    case _ => []
  }

  /** The lifecycle stored in `raw`; NO_LIFECYCLE when there is none. */
  function ParseLifecycle(raw: T.Any): TaskLifecycle {
    if !T.IsObject(raw) then NO_LIFECYCLE
    else
      var fields := T.FieldsOf(raw);
      var status := T.Field(fields, "status");
      TaskLifecycle(
        if status.Text? then TrimSpace(status.text) else "",
        LifecycleStrings(T.Field(fields, "pending_tasks")),
        LifecycleStrings(T.Field(fields, "expected_artifacts")),
        LifecycleStrings(T.Field(fields, "verified_artifacts")))
  }

  lemma StoredFields(l: TaskLifecycle)
    ensures l.IsZero() ==> LifecycleValue(l) == T.NilObject
    ensures !l.IsZero() ==>
      LifecycleValue(l).Object? &&
      var fields := LifecycleValue(l).fields;
      && T.Field(fields, "status") == T.Text(l.status)
      && T.Field(fields, "pending_tasks") == T.TextsField(l.pendingTasks)
      && T.Field(fields, "expected_artifacts") == T.TextsField(l.expectedArtifacts)
      && T.Field(fields, "verified_artifacts") == T.TextsField(l.verifiedArtifacts)
  {
    assert "status" != "pending_tasks" && "status" != "expected_artifacts" && "status" != "verified_artifacts";
    assert "pending_tasks" != "expected_artifacts" && "pending_tasks" != "verified_artifacts";
    assert "expected_artifacts" != "verified_artifacts";
  }

  lemma EmptyIsTrimmed()
    ensures TrimSpace("") == "" && Trimmed("")
  {
    TrimSpaceFixed("");
  }

  /** In memory a lifecycle survives being stored exactly when its status carries no surrounding
      space. */
  lemma LifecycleRoundTrips(l: TaskLifecycle)
    ensures ParseLifecycle(LifecycleValue(l)) == l <==> Trimmed(l.status)
  {
    hide TrimSpace, Trimmed, LifecycleValue, Collapse;
    TrimSpaceFixed(l.status);
    EmptyIsTrimmed();
    StoredFields(l);
  }

  /** Not blank and without surplus space. */
  predicate Tidy(texts: seq<string>) {
    forall text | text in texts :: text != "" && T.NormalText(text)
  }

  function Texts(texts: seq<string>): (elements: seq<T.Any>)
    ensures |elements| == |texts| && forall i | 0 <= i < |texts| :: elements[i] == T.Text(texts[i])
  {
    seq(|texts|, i requires 0 <= i < |texts| => T.Text(texts[i]))
  }

  /** The texts collapsed, without the blank ones. */
  function Collapsed(texts: seq<string>): seq<string> {
    if texts == [] then []
    else
      var text := Collapse(texts[|texts| - 1]);
      Collapsed(texts[..|texts| - 1]) + if text != "" then [text] else []
  }

  lemma {:induction false} CollapsedTextsOf(texts: seq<string>)
    ensures CollapsedTexts(Texts(texts)) == Collapsed(texts)
  {
    hide Collapse;
    if texts != [] {
      var n := |texts| - 1;
      CollapsedTextsOf(texts[..n]);
      assert Texts(texts)[..n] == Texts(texts[..n]);
    }
  }

  lemma TidyStep(texts: seq<string>, text: string)
    ensures Tidy(texts + [text]) <==> Tidy(texts) && text != "" && T.NormalText(text)
  {
    hide T.NormalText;
    assert text in texts + [text];
  }

  lemma SameEnds<E>(a: seq<E>, x: E, b: seq<E>, y: E)
    requires a + [x] == b + [y]
    ensures a == b && x == y
  {
    assert a == (a + [x])[..|a|] && b == (b + [y])[..|b|];
    assert (a + [x])[|a|] == x && (b + [y])[|b|] == y;
  }

  /** Collapsing each text and dropping the blank ones leaves exactly the tidy lists alone. */
  lemma {:induction false} CollapsedFixed(texts: seq<string>)
    ensures |Collapsed(texts)| <= |texts|
    ensures Collapsed(texts) == texts <==> Tidy(texts)
  {
    hide Collapse, Tidy;
    if texts == [] {
      NothingIsTidy();
    } else {
      var n := |texts| - 1;
      var before, text := texts[..n], texts[n];
      CollapsedFixed(before);
      TidyStep(before, text);
      assert texts == before + [text];
      if Collapsed(texts) == texts {
        SameEnds(Collapsed(before), Collapse(text), before, text);
      }
    }
  }

  lemma ListThroughJson(texts: seq<string>)
    ensures LifecycleStrings(T.Untyped(T.TextsField(texts))) == texts <==> Tidy(texts)
  {
    hide CollapsedTexts, Collapsed, Tidy;
    CollapsedTextsOf(texts);
    CollapsedFixed(texts);
    NothingIsTidy();
    if texts != [] {
      assert T.Untyped(T.TextsField(texts)).elements == Texts(texts);
    }
  }

  lemma NothingIsTidy()
    ensures Tidy([]) && CollapsedTexts([]) == []
  {
  }

  /** Through JSON the lists come back untyped and their texts collapsed, so there every text must
      be tidy as well. */
  lemma LifecycleRoundTripsThroughJson(l: TaskLifecycle)
    ensures ParseLifecycle(T.ThroughJson(LifecycleValue(l))) == l <==>
            Trimmed(l.status) && Tidy(l.pendingTasks) && Tidy(l.expectedArtifacts) && Tidy(l.verifiedArtifacts)
  {
    hide TrimSpace, Trimmed, LifecycleValue, Collapse, LifecycleStrings, Tidy, T.Untyped, T.ThroughJson, T.TextsField;
    TrimSpaceFixed(l.status);
    EmptyIsTrimmed();
    NothingIsTidy();
    StoredFields(l);
    ListThroughJson(l.pendingTasks);
    ListThroughJson(l.expectedArtifacts);
    ListThroughJson(l.verifiedArtifacts);
    T.StoredNull();
    if !l.IsZero() {
      var raw := LifecycleValue(l);
      T.JsonFields(raw, "status");
      T.JsonFields(raw, "pending_tasks");
      T.JsonFields(raw, "expected_artifacts");
      T.JsonFields(raw, "verified_artifacts");
      assert T.Untyped(T.Text(l.status)) == T.Text(l.status) by { TextIsTyped(l.status); }
    }
  }

  lemma TextIsTyped(text: string)
    ensures T.Untyped(T.Text(text)) == T.Text(text)
  {
  }
}
