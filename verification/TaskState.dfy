/** The task-progress record an agent run carries, and its normal form
    (pkg/harness/task_state.go). */
module TaskState {
  import opened GoStrings
  import opened Wrappers

  const PENDING := "pending"
  const IN_PROGRESS := "in_progress"
  const COMPLETED := "completed"

  datatype TaskItem = TaskItem(id: string, text: string, status: string)

  datatype TaskState = TaskState(items: seq<TaskItem>, expectedOutputs: seq<string>, verifiedOutputs: seq<string>) {
    predicate IsZero() {
      items == [] && expectedOutputs == [] && verifiedOutputs == []
    }
  }

  const ZERO := TaskState([], [], [])

  datatype TaskError = EmptyText | InvalidStatus(status: string) | SeveralInProgress

  predicate IsStatus(status: string) {
    status == PENDING || status == IN_PROGRESS || status == COMPLETED
  }

  function NormalizeTaskStatus(status: string): (r: string)
    ensures r == "" || IsStatus(r)
  {
    var word := ToLower(TrimSpace(status));
    if IsStatus(word) then word else ""
  }

  lemma StatusesAreFixed(status: string)
    requires IsStatus(status)
    ensures NormalizeTaskStatus(status) == status
  {
    PlainWordIsFixed(status);
  }

  // ---- what normalisation computes ------------------------------------------------------

  function NormalizedItem(item: TaskItem): TaskItem {
    TaskItem(Collapse(item.id), Collapse(item.text), NormalizeTaskStatus(item.status))
  }

  function ItemError(item: TaskItem): Option<TaskError> {
    if Collapse(item.text) == "" then Some(EmptyText)
    else if NormalizeTaskStatus(item.status) == "" then Some(InvalidStatus(item.status))
    else None
  }

  /** Every item normalised, or the complaint about the first item that cannot be. */
  function NormalizedItems(items: seq<TaskItem>): Result<seq<TaskItem>, TaskError> {
    if items == [] then Ok([])
    else
      match ItemError(items[0])
      case Some(e) => Err(e)
      case None =>
        match NormalizedItems(items[1..])
        case Err(e) => Err(e)
        case Ok(rest) => Ok([NormalizedItem(items[0])] + rest)
  }

  function CountInProgress(items: seq<TaskItem>): nat {
    if items == [] then 0
    else CountInProgress(items[..|items| - 1]) + if items[|items| - 1].status == IN_PROGRESS then 1 else 0
  }

  /** The non-blank texts in normal form, each at its first occurrence. */
  function NormalizedStrings(items: seq<string>): seq<string> {
    if items == [] then []
    else
      var done := NormalizedStrings(items[..|items| - 1]);
      var text := Collapse(items[|items| - 1]);
      if text == "" || text in done then done else done + [text]
  }

  function Normalized(state: TaskState): Result<TaskState, TaskError> {
    match NormalizedItems(state.items)
    case Err(e) => Err(e)
    case Ok(items) =>
      if CountInProgress(items) > 1 then Err(SeveralInProgress)
      else Ok(TaskState(items, NormalizedStrings(state.expectedOutputs), NormalizedStrings(state.verifiedOutputs)))
  }

  // ---- the source's loops ---------------------------------------------------------------

  method NormalizeTaskStrings(items: seq<string>) returns (out: seq<string>)
    ensures out == NormalizedStrings(items)
  {
    hide Collapse;
    out := [];
    var seen: set<string> := {};
    for i := 0 to |items|
      invariant out == NormalizedStrings(items[..i])
      invariant forall t :: t in seen <==> t in out
    {
      assert items[..i + 1][..i] == items[..i];
      var text := Collapse(items[i]);
      if text != "" && text !in seen {
        seen := seen + {text};
        out := out + [text];
      }
    }
    assert items[..|items|] == items;
  }

  /** `done` is what the first `i` items normalise to, and the rest decides the outcome. */
  ghost predicate Continues(items: seq<TaskItem>, done: seq<TaskItem>, i: nat)
    requires i <= |items|
  {
    match NormalizedItems(items[i..])
    case Ok(rest) => NormalizedItems(items) == Ok(done + rest)
    case Err(e) => NormalizedItems(items) == Err(e)
  }

  lemma ContinuesFromStart(items: seq<TaskItem>)
    ensures Continues(items, [], 0)
  {
    hide NormalizedItems;
    assert items[0..] == items;
    assert forall rest: seq<TaskItem> :: [] + rest == rest;
  }

  lemma ContinuesStep(items: seq<TaskItem>, done: seq<TaskItem>, i: nat)
    requires i < |items| && Continues(items, done, i)
    ensures match ItemError(items[i])
            case Some(e) => NormalizedItems(items) == Err(e)
            case None => Continues(items, done + [NormalizedItem(items[i])], i + 1)
  {
    hide ItemError, NormalizedItem;
    assert items[i..][1..] == items[i + 1..];
    if ItemError(items[i]) == None && NormalizedItems(items[i + 1..]).Ok? {
      var rest := NormalizedItems(items[i + 1..]).value;
      var item := NormalizedItem(items[i]);
      assert done + ([item] + rest) == (done + [item]) + rest;
    }
  }

  lemma ContinuesToTheEnd(items: seq<TaskItem>, done: seq<TaskItem>)
    requires Continues(items, done, |items|)
    ensures NormalizedItems(items) == Ok(done)
  {
    hide NormalizedItems;
    NothingNormalizes();
    assert items[|items|..] == [] && done + [] == done;
  }

  lemma NothingNormalizes()
    ensures NormalizedItems([]) == Ok([])
  {
  }

  lemma NothingInProgress()
    ensures CountInProgress([]) == 0
  {
  }

  lemma CountStep(items: seq<TaskItem>, item: TaskItem)
    ensures CountInProgress(items + [item]) == CountInProgress(items) + if item.status == IN_PROGRESS then 1 else 0
  {
    assert (items + [item])[..|items|] == items;
  }

  method NormalizeTaskState(state: TaskState) returns (r: Result<TaskState, TaskError>)
    ensures r == Normalized(state)
  {
    hide Collapse, NormalizeTaskStatus, Continues, NormalizedItems, NormalizedStrings, CountInProgress;
    var expected := NormalizeTaskStrings(state.expectedOutputs);
    var verified := NormalizeTaskStrings(state.verifiedOutputs);
    var items: seq<TaskItem> := [];
    var inProgress := 0;
    NothingInProgress();
    ContinuesFromStart(state.items);
    for i := 0 to |state.items|
      invariant inProgress == CountInProgress(items)
      invariant Continues(state.items, items, i)
    {
      var item := state.items[i];
      ContinuesStep(state.items, items, i);
      var id := Collapse(item.id);
      var text := Collapse(item.text);
      var status := NormalizeTaskStatus(item.status);
      if text == "" {
        return Err(EmptyText);
      }
      if status == "" {
        return Err(InvalidStatus(item.status));
      }
      if status == IN_PROGRESS {
        inProgress := inProgress + 1;
      }
      CountStep(items, TaskItem(id, text, status));
      items := items + [TaskItem(id, text, status)];
    }
    ContinuesToTheEnd(state.items, items);
    if inProgress > 1 {
      return Err(SeveralInProgress);
    }
    return Ok(TaskState(items, expected, verified));
  }

  /** The expected outputs that were not verified, in their order. */
  function Missing(state: TaskState): seq<string> {
    MissingFrom(state.expectedOutputs, state.verifiedOutputs)
  }

  function MissingFrom(expected: seq<string>, verified: seq<string>): (missing: seq<string>)
    ensures forall x :: x in missing <==> x in expected && x !in verified
  {
    if expected == [] then []
    else
      var last := expected[|expected| - 1];
      MissingFrom(expected[..|expected| - 1], verified) + if last in verified then [] else [last]
  }

  /** What is missing of two lists is what is missing of each, in order. */
  lemma {:induction false} MissingOfConcat(a: seq<string>, b: seq<string>, verified: seq<string>)
    ensures MissingFrom(a + b, verified) == MissingFrom(a, verified) + MissingFrom(b, verified)
    decreases |b|
  {
    if b == [] {
      assert a + b == a;
    } else {
      assert (a + b)[..|a + b| - 1] == a + b[..|b| - 1];
      MissingOfConcat(a, b[..|b| - 1], verified);
    }
  }

  method MissingExpectedOutputs(state: TaskState) returns (out: seq<string>)
    ensures out == Missing(state)
  {
    var verified: set<string> := {};
    for i := 0 to |state.verifiedOutputs|
      invariant forall v :: v in verified <==> v in state.verifiedOutputs[..i]
    {
      verified := verified + {state.verifiedOutputs[i]};
    }
    out := [];
    for i := 0 to |state.expectedOutputs|
      invariant out == MissingFrom(state.expectedOutputs[..i], state.verifiedOutputs)
    {
      assert state.expectedOutputs[..i + 1][..i] == state.expectedOutputs[..i];
      if state.expectedOutputs[i] !in verified {
        out := out + [state.expectedOutputs[i]];
      }
    }
    assert state.expectedOutputs[..|state.expectedOutputs|] == state.expectedOutputs;
  }

  function MergeInput(base: TaskState, overlay: TaskState): TaskState {
    if base.IsZero() then overlay
    else if overlay.IsZero() then base
    else
      TaskState(
        if overlay.items != [] then overlay.items else base.items,
        if overlay.expectedOutputs != [] then overlay.expectedOutputs else base.expectedOutputs,
        base.verifiedOutputs + overlay.verifiedOutputs)
  }

  function Merged(base: TaskState, overlay: TaskState): Result<TaskState, TaskError> {
    Normalized(MergeInput(base, overlay))
  }

  // ---- the normal form ------------------------------------------------------------------

  predicate NormalText(text: string) {
    Collapse(text) == text
  }

  predicate NormalItem(item: TaskItem) {
    NormalText(item.id) && NormalText(item.text) && item.text != "" && IsStatus(item.status)
  }

  predicate NormalStrings(items: seq<string>) {
    && (forall i | 0 <= i < |items| :: items[i] != "" && NormalText(items[i]))
    && (forall i, j | 0 <= i < j < |items| :: items[i] != items[j])
  }

  /** Tidy texts, valid statuses, at most one item in progress, no output listed twice. */
  predicate NormalForm(state: TaskState) {
    && (forall item | item in state.items :: NormalItem(item))
    && (forall i, j | 0 <= i < j < |state.items| ::
          state.items[i].status != IN_PROGRESS || state.items[j].status != IN_PROGRESS)
    && NormalStrings(state.expectedOutputs)
    && NormalStrings(state.verifiedOutputs)
  }

  lemma {:induction false} CountInProgressAtMostOne(items: seq<TaskItem>)
    ensures CountInProgress(items) == 0 <==> forall i | 0 <= i < |items| :: items[i].status != IN_PROGRESS
    ensures CountInProgress(items) <= 1 <==>
            forall i, j | 0 <= i < j < |items| :: items[i].status != IN_PROGRESS || items[j].status != IN_PROGRESS
  {
    if items != [] {
      var n := |items| - 1;
      CountInProgressAtMostOne(items[..n]);
      assert forall i | 0 <= i < n :: items[..n][i] == items[i];
    }
  }

  lemma {:induction false} NormalizedItemsAreNormal(items: seq<TaskItem>)
    ensures NormalizedItems(items).Ok? <==> forall item | item in items :: ItemError(item) == None
    ensures NormalizedItems(items).Ok? ==>
              var out := NormalizedItems(items).value;
              |out| == |items| && (forall i | 0 <= i < |items| :: out[i] == NormalizedItem(items[i])) &&
              forall item | item in out :: NormalItem(item)
  {
    hide NormalizedItem, ItemError, NormalItem;
    if items != [] {
      NormalizedItemsAreNormal(items[1..]);
      HeadAndTail(items);
      if ItemError(items[0]) == None {
        NormalizedItemIsNormal(items[0]);
      }
    }
  }

  lemma HeadAndTail<E>(s: seq<E>)
    requires s != []
    ensures s[0] in s && forall x :: x in s <==> x == s[0] || x in s[1..]
  {
    assert s == [s[0]] + s[1..];
  }

  lemma NormalizedItemIsNormal(item: TaskItem)
    requires ItemError(item) == None
    ensures NormalItem(NormalizedItem(item))
  {
    hide Collapse, NormalizeTaskStatus;
    CollapseIdempotent(item.id);
    CollapseIdempotent(item.text);
  }

  lemma NormalItemIsFixed(item: TaskItem)
    requires NormalItem(item)
    ensures NormalizedItem(item) == item && ItemError(item) == None
  {
    StatusesAreFixed(item.status);
  }

  lemma {:induction false} NormalItemsAreFixed(items: seq<TaskItem>)
    requires forall item | item in items :: NormalItem(item)
    ensures NormalizedItems(items) == Ok(items)
  {
    hide NormalizedItem, ItemError, NormalItem;
    if items != [] {
      assert items[0] in items;
      NormalItemIsFixed(items[0]);
      NormalItemsAreFixed(items[1..]);
      assert items == [items[0]] + items[1..];
    }
  }

  lemma {:induction false} NormalizedStringsAreNormal(items: seq<string>)
    ensures NormalStrings(NormalizedStrings(items))
    ensures forall t :: t in NormalizedStrings(items) <==>
            t != "" && exists i | 0 <= i < |items| :: Collapse(items[i]) == t
  {
    hide Collapse;
    if items != [] {
      var n := |items| - 1;
      NormalizedStringsAreNormal(items[..n]);
      CollapseIdempotent(items[n]);
      assert forall i | 0 <= i < n :: items[..n][i] == items[i];
    }
  }

  lemma {:induction false} NormalStringsAreFixed(items: seq<string>)
    requires NormalStrings(items)
    ensures NormalizedStrings(items) == items
  {
    if items != [] {
      var n := |items| - 1;
      NormalStringsAreFixed(items[..n]);
      assert items == items[..n] + [items[n]];
    }
  }

  /** Normalising succeeds exactly when every item has text and a known status and at most one
      is in progress; the result is in normal form, and normalising it again changes nothing. */
  lemma NormalizeIntoNormalForm(state: TaskState)
    ensures Normalized(state).Ok? <==>
              && (forall item | item in state.items :: ItemError(item) == None)
              && (forall i, j | 0 <= i < j < |state.items| ::
                    NormalizedItem(state.items[i]).status != IN_PROGRESS ||
                      NormalizedItem(state.items[j]).status != IN_PROGRESS)
    ensures Normalized(state).Ok? ==>
              NormalForm(Normalized(state).value) && Normalized(Normalized(state).value) == Normalized(state)
  {
    NormalizedItemsAreNormal(state.items);
    if NormalizedItems(state.items).Ok? {
      CountInProgressAtMostOne(NormalizedItems(state.items).value);
    }
    if Normalized(state).Ok? {
      NormalizedStringsAreNormal(state.expectedOutputs);
      NormalizedStringsAreNormal(state.verifiedOutputs);
      NormalFormIsFixed(Normalized(state).value);
    }
  }

  /** The error is about the first item that has no text or no known status; only when there is no
      such item is it that several are in progress. */
  lemma NormalizeReportsTheFirst(state: TaskState)
    requires Normalized(state).Err?
    ensures match Normalized(state).error
            case SeveralInProgress => forall item | item in state.items :: ItemError(item) == None
            case EmptyText => exists i: nat :: FirstError(state.items, i) && Collapse(state.items[i].text) == ""
            case InvalidStatus(status) =>
              exists i: nat :: FirstError(state.items, i) && Collapse(state.items[i].text) != "" &&
                          state.items[i].status == status && NormalizeTaskStatus(status) == ""
  {
    hide Collapse, NormalizeTaskStatus, NormalizedItem;
    NormalizedItemsAreNormal(state.items);
    if NormalizedItems(state.items).Err? {
      var i := FirstItemError(state.items);
      assert FirstError(state.items, i);
    }
  }

  predicate FirstError(items: seq<TaskItem>, i: nat) {
    i < |items| && ItemError(items[i]).Some? && forall j | 0 <= j < i :: ItemError(items[j]) == None
  }

  lemma {:induction false} FirstItemError(items: seq<TaskItem>) returns (i: nat)
    requires NormalizedItems(items).Err?
    ensures FirstError(items, i) && ItemError(items[i]) == Some(NormalizedItems(items).error)
  {
    hide ItemError, NormalizedItem;
    if ItemError(items[0]).Some? {
      i := 0;
    } else {
      var k := FirstItemError(items[1..]);
      i := k + 1;
    }
  }

  /** The normal forms are exactly the states that normalising leaves alone. */
  lemma NormalFormIsFixed(state: TaskState)
    ensures NormalForm(state) <==> Normalized(state) == Ok(state)
  {
    if NormalForm(state) {
      NormalItemsAreFixed(state.items);
      CountInProgressAtMostOne(state.items);
      NormalStringsAreFixed(state.expectedOutputs);
      NormalStringsAreFixed(state.verifiedOutputs);
    } else if Normalized(state) == Ok(state) {
      NormalizedItemsAreNormal(state.items);
      CountInProgressAtMostOne(state.items);
      NormalizedStringsAreNormal(state.expectedOutputs);
      NormalizedStringsAreNormal(state.verifiedOutputs);
    }
  }

  // ---- merging --------------------------------------------------------------------------

  /** A successful merge verifies exactly what either side verified. */
  lemma MergeVerifiesTheUnion(base: TaskState, overlay: TaskState)
    requires Merged(base, overlay).Ok?
    ensures NormalForm(Merged(base, overlay).value)
    ensures forall t :: t in Merged(base, overlay).value.verifiedOutputs <==>
                        t in NormalizedStrings(base.verifiedOutputs) || t in NormalizedStrings(overlay.verifiedOutputs)
  {
    hide NormalForm, NormalizedItems, NormalizedStrings, CountInProgress, ItemError, NormalizedItem, Collapse;
    NormalizeIntoNormalForm(MergeInput(base, overlay));
    NormalizedStringsOfConcat(base.verifiedOutputs, overlay.verifiedOutputs);
    assert base.verifiedOutputs == [] ==> base.verifiedOutputs + overlay.verifiedOutputs == overlay.verifiedOutputs;
    assert overlay.verifiedOutputs == [] ==> base.verifiedOutputs + overlay.verifiedOutputs == base.verifiedOutputs;
  }

  /** A successful merge has the overlay's items and expectations where it has any, else the base's,
      each in normal form. */
  lemma MergePrefersTheOverlay(base: TaskState, overlay: TaskState)
    requires Merged(base, overlay).Ok?
    ensures var items := if overlay.items != [] then overlay.items else base.items;
      var merged := Merged(base, overlay).value;
      && |merged.items| == |items|
      && forall i | 0 <= i < |items| ::
           merged.items[i] ==
           TaskItem(Collapse(items[i].id), Collapse(items[i].text), NormalizeTaskStatus(items[i].status))
    ensures Merged(base, overlay).value.expectedOutputs ==
            NormalizedStrings(if overlay.expectedOutputs != [] then overlay.expectedOutputs else base.expectedOutputs)
  {
    hide NormalForm, NormalizedItems, NormalizedStrings, CountInProgress, ItemError, NormalItem, Collapse,
         NormalizeTaskStatus;
    NormalizedItemsAreNormal(MergeInput(base, overlay).items);
  }

  lemma NormalizedStringsOfConcat(a: seq<string>, b: seq<string>)
    ensures forall t :: t in NormalizedStrings(a + b) <==> t in NormalizedStrings(a) || t in NormalizedStrings(b)
  {
    NormalizedStringsAreNormal(a);
    NormalizedStringsAreNormal(b);
    NormalizedStringsAreNormal(a + b);
    forall t
      ensures t in NormalizedStrings(a + b) <==> t in NormalizedStrings(a) || t in NormalizedStrings(b)
    {
      if i :| 0 <= i < |a| && Collapse(a[i]) == t {
        assert (a + b)[i] == a[i];
      }
      if i :| 0 <= i < |b| && Collapse(b[i]) == t {
        assert (a + b)[|a| + i] == b[i];
      }
    }
  }

  /** Unless the overlay sets new expectations, a merge never makes an output go missing: each
      output missing afterwards was already missing before, up to spelling. */
  lemma MergeNeverLosesProgress(base: TaskState, overlay: TaskState, output: string)
    requires Merged(base, overlay).Ok? && overlay.expectedOutputs == []
    requires output in Missing(Merged(base, overlay).value)
    ensures exists x :: x in Missing(base) && Collapse(x) == output
  {
    MergeVerifiesTheUnion(base, overlay);
    NormalizedStringsAreNormal(base.expectedOutputs);
    NormalizedStringsAreNormal(base.verifiedOutputs);
    var i :| 0 <= i < |base.expectedOutputs| && Collapse(base.expectedOutputs[i]) == output;
    assert base.expectedOutputs[i] in Missing(base);
  }

  // ---- the stored form ------------------------------------------------------------------

  /** The dynamically typed values that thread metadata holds.  `NilObject` is a nil map: it reads
      as an object without fields, unlike `Null`, but JSON writes it as null. */
  datatype Any =
    | Null
    | Text(text: string)
    | TextList(texts: seq<string>)
    | List(elements: seq<Any>)
    | NilObject
    | Object(fields: map<string, Any>)
    | ObjectList(objects: seq<map<string, Any>>)

  predicate IsObject(raw: Any) {
    raw.Object? || raw.NilObject?
  }

  function FieldsOf(raw: Any): map<string, Any>
    requires IsObject(raw)
  {
    if raw.Object? then raw.fields else map[]
  }

  function Field(fields: map<string, Any>, key: string): Any {
    if key in fields then fields[key] else Null
  }

  function StringFromAny(raw: Any): string {
    if raw.Text? then TrimSpace(raw.text) else ""
  }

  function ItemObject(item: TaskItem): map<string, Any> {
    var fields := map["text" := Text(item.text), "status" := Text(item.status)];
    if item.id != "" then fields["id" := Text(item.id)] else fields
  }

  /** Only an item that has an ID is stored with one. */
  lemma ItemObjectFields(item: TaskItem)
    ensures var fields := ItemObject(item);
      && ("id" in fields <==> item.id != "") && (item.id != "" ==> fields["id"] == Text(item.id))
      && "text" in fields && fields["text"] == Text(item.text)
      && "status" in fields && fields["status"] == Text(item.status)
  {
  }

  function ItemObjects(items: seq<TaskItem>): (objects: seq<map<string, Any>>)
    ensures |objects| == |items| && forall i | 0 <= i < |items| :: objects[i] == ItemObject(items[i])
  {
    seq(|items|, i requires 0 <= i < |items| => ItemObject(items[i]))
  }

  /** The metadata form of a task state. */
  function Value(state: TaskState): Any {
    if state.IsZero() then NilObject
    else
      var items := map["items" := ObjectList(ItemObjects(state.items))];
      var expected := if state.expectedOutputs != [] then items["expected_outputs" := TextList(state.expectedOutputs)]
        else items;
      Object(if state.verifiedOutputs != [] then expected["verified_outputs" := TextList(state.verifiedOutputs)]
        else expected)
  }

  /** The same form after a trip through JSON, which forgets the element types of lists. */
  function ThroughJson(raw: Any): Any {
    match raw
    case NilObject => Null
    case Object(fields) => Object(map k | k in fields :: Untyped(fields[k]))
    case _ => raw
  }

  function Untyped(raw: Any): Any {
    match raw
    case TextList(texts) => List(seq(|texts|, i requires 0 <= i < |texts| => Text(texts[i])))
    case ObjectList(objects) => List(seq(|objects|, i requires 0 <= i < |objects| => Object(objects[i])))
    case NilObject => Null
    case _ => raw
  }

  function ItemFromObject(fields: map<string, Any>): TaskItem {
    TaskItem(StringFromAny(Field(fields, "id")), StringFromAny(Field(fields, "text")),
      StringFromAny(Field(fields, "status")))
  }

  /** The listed objects as items; None when an element is not an object. */
  function ItemsFromAny(raw: Any): Option<seq<TaskItem>> {
    match raw
    case List(elements) =>
      if forall e | e in elements :: IsObject(e) then
        Some(seq(|elements|, i requires 0 <= i < |elements| =>
          if IsObject(elements[i]) then ItemFromObject(FieldsOf(elements[i])) else TaskItem("", "", "")))
      else None
    case ObjectList(objects) =>
      Some(seq(|objects|, i requires 0 <= i < |objects| => ItemFromObject(objects[i])))
    case _ => Some([])
  }

  /** The strings of a list, trimmed; elements of another type and blank ones are skipped. */
  function TextsOf(elements: seq<Any>): seq<string> {
    if elements == [] then []
    else
      var text := StringFromAny(elements[|elements| - 1]);
      TextsOf(elements[..|elements| - 1]) + if text != "" then [text] else []
  }

  function StringsFromAny(raw: Any): seq<string> {
    match raw
    case TextList(texts) => texts
    case List(elements) => TextsOf(elements)
    case _ => []
  }

  /** `taskStateFromMap`. */
  function FromFields(fields: map<string, Any>): Option<TaskState> {
    match ItemsFromAny(Field(fields, "items"))
    case None => None
    case Some(items) =>
      var expected := StringsFromAny(Field(fields, "expected_outputs"));
      var verified := StringsFromAny(Field(fields, "verified_outputs"));
      match Normalized(TaskState(items, expected, verified))
      case Ok(state) => Some(state)
      case Err(_) => None
  }

  function ParseTaskState(raw: Any): Option<TaskState> {
    if IsObject(raw) then FromFields(FieldsOf(raw)) else None
  }

  lemma TrimKeepsNormalForms(s: string)
    ensures Collapse(TrimSpace(s)) == Collapse(s)
    ensures NormalizeTaskStatus(TrimSpace(s)) == NormalizeTaskStatus(s)
  {
    TrimSpaceFixed(s);
  }

  lemma BlankCollapses(s: string)
    requires TrimSpace(s) == ""
    ensures Collapse(s) == ""
  {
  }

  lemma ItemObjectRoundTrip(item: TaskItem)
    ensures var back := ItemFromObject(ItemObject(item));
            NormalizedItem(back) == NormalizedItem(item) && ItemError(back).Some? == ItemError(item).Some?
  {
    TrimKeepsNormalForms(item.id);
    TrimKeepsNormalForms(item.text);
    TrimKeepsNormalForms(item.status);
    TrimSpaceFixed("");
  }

  lemma SameNormalizedItems(a: seq<TaskItem>, b: seq<TaskItem>)
    requires |a| == |b|
    requires forall i | 0 <= i < |a| ::
             NormalizedItem(a[i]) == NormalizedItem(b[i]) && ItemError(a[i]).Some? == ItemError(b[i]).Some?
    ensures NormalizedItems(a).Ok? == NormalizedItems(b).Ok?
    ensures NormalizedItems(a).Ok? ==> NormalizedItems(a) == NormalizedItems(b)
  {
    hide NormalizedItem, ItemError, NormalizedItems, NormalItem;
    NormalizedItemsAreNormal(a);
    NormalizedItemsAreNormal(b);
    assert (forall x | x in a :: ItemError(x) == None) <==> forall i | 0 <= i < |a| :: ItemError(a[i]) == None;
    assert (forall x | x in b :: ItemError(x) == None) <==> forall i | 0 <= i < |b| :: ItemError(b[i]) == None;
    if NormalizedItems(a).Ok? {
      assert NormalizedItems(a).value == NormalizedItems(b).value;
    }
  }

  lemma NormalizedStringsStep(before: seq<string>, after: seq<string>, text: string)
    requires NormalizedStrings(before) == NormalizedStrings(after)
    ensures NormalizedStrings(before + if TrimSpace(text) != "" then [TrimSpace(text)] else []) ==
            NormalizedStrings(after + [text])
  {
    hide Collapse, TrimSpace;
    TrimKeepsNormalForms(text);
    assert (after + [text])[..|after|] == after;
    if TrimSpace(text) != "" {
      assert (before + [TrimSpace(text)])[..|before|] == before;
    } else {
      assert before + [] == before;
      BlankCollapses(text);
    }
  }

  /** A task state does not parse when its items are a list with an element that is no object. */
  lemma OddItemsDoNotParse(fields: map<string, Any>, elements: seq<Any>, e: Any)
    requires Field(fields, "items") == List(elements) && e in elements && !e.Object? && !e.NilObject?
    ensures ParseTaskState(Object(fields)) == None
  {
  }

  lemma {:induction false} TextsOfUntyped(texts: seq<string>)
    ensures NormalizedStrings(StringsFromAny(Untyped(TextList(texts)))) == NormalizedStrings(texts)
  {
    hide Collapse, TrimSpace, NormalizeTaskStatus, NormalizedStrings;
    if texts != [] {
      var n := |texts| - 1;
      var elements := Untyped(TextList(texts)).elements;
      assert elements[..n] == Untyped(TextList(texts[..n])).elements;
      TextsOfUntyped(texts[..n]);
      NormalizedStringsStep(TextsOf(elements[..n]), texts[..n], texts[n]);
      assert texts == texts[..n] + [texts[n]];
    }
  }

  lemma StoredItemsNormalize(items: seq<TaskItem>)
    ensures var objects := ObjectList(ItemObjects(items));
            && ItemsFromAny(objects).Some?
            && ItemsFromAny(Untyped(objects)) == ItemsFromAny(objects)
            && NormalizedItems(ItemsFromAny(objects).value).Ok? == NormalizedItems(items).Ok?
            && (NormalizedItems(items).Ok? ==> NormalizedItems(ItemsFromAny(objects).value) == NormalizedItems(items))
  {
    var objects := ObjectList(ItemObjects(items));
    var plain := ItemsFromAny(objects).value;
    assert ItemsFromAny(Untyped(objects)).value == plain;
    forall i | 0 <= i < |plain|
      ensures NormalizedItem(plain[i]) == NormalizedItem(items[i]) &&
              ItemError(plain[i]).Some? == ItemError(items[i]).Some?
    {
      ItemObjectRoundTrip(items[i]);
    }
    SameNormalizedItems(plain, items);
  }

  lemma ValueFields(state: TaskState)
    ensures state.IsZero() ==> Value(state) == NilObject
    ensures !state.IsZero() ==> Value(state).Object?
    ensures !state.IsZero() ==>
            var fields := Value(state).fields;
            && Field(fields, "items") == ObjectList(ItemObjects(state.items))
            && Field(fields, "expected_outputs") == TextsField(state.expectedOutputs)
            && Field(fields, "verified_outputs") == TextsField(state.verifiedOutputs)
  {
    assert "items" != "expected_outputs" && "items" != "verified_outputs" && "expected_outputs" != "verified_outputs";
  }

  lemma JsonFields(raw: Any, key: string)
    requires raw.Object?
    ensures ThroughJson(raw).Object? && Field(ThroughJson(raw).fields, key) == Untyped(Field(raw.fields, key))
  {
  }

  lemma StoredNull()
    ensures ThroughJson(NilObject) == Null && ParseTaskState(Null) == None
  {
  }

  function ParseResult(state: TaskState): Option<TaskState> {
    match Normalized(state) case Ok(n) => Some(n) case Err(_) => None
  }

  /** Parsing depends only on what the three fields normalise to. */
  lemma ParseByFields(fields: map<string, Any>, state: TaskState)
    requires ItemsFromAny(Field(fields, "items")).Some?
    requires var items := NormalizedItems(ItemsFromAny(Field(fields, "items")).value);
             items.Ok? == NormalizedItems(state.items).Ok? && (items.Ok? ==> items == NormalizedItems(state.items))
    requires NormalizedStrings(StringsFromAny(Field(fields, "expected_outputs"))) ==
             NormalizedStrings(state.expectedOutputs)
    requires NormalizedStrings(StringsFromAny(Field(fields, "verified_outputs"))) ==
             NormalizedStrings(state.verifiedOutputs)
    ensures FromFields(fields) == ParseResult(state)
  {
    hide NormalizedItems, NormalizedStrings, ItemsFromAny, StringsFromAny;
  }

  function TextsField(texts: seq<string>): Any {
    if texts == [] then Null else TextList(texts)
  }

  lemma TextsFieldNormalizes(texts: seq<string>)
    ensures NormalizedStrings(StringsFromAny(TextsField(texts))) == NormalizedStrings(texts)
    ensures NormalizedStrings(StringsFromAny(Untyped(TextsField(texts)))) == NormalizedStrings(texts)
  {
    TextsOfUntyped(texts);
  }

  /** The zero state is stored as a nil map, which parses as the zero state again. */
  lemma ZeroInMemory()
    ensures ParseTaskState(Value(ZERO)) == ParseResult(ZERO) == Some(ZERO)
  {
  }

  lemma StoredInMemory(state: TaskState)
    requires !state.IsZero()
    ensures ParseTaskState(Value(state)) == ParseResult(state)
  {
    hide NormalizedItems, NormalizedStrings, Value, ItemObject, FromFields, ParseResult, StringsFromAny;
    ValueFields(state);
    StoredItemsNormalize(state.items);
    TextsFieldNormalizes(state.expectedOutputs);
    TextsFieldNormalizes(state.verifiedOutputs);
    ParseByFields(Value(state).fields, state);
  }

  lemma StoredAsJson(state: TaskState)
    requires !state.IsZero()
    ensures ParseTaskState(ThroughJson(Value(state))) == ParseResult(state)
  {
    hide NormalizedItems, NormalizedStrings, Value, ItemObject, FromFields, ParseResult, StringsFromAny, ThroughJson,
         Untyped;
    ValueFields(state);
    StoredItemsNormalize(state.items);
    TextsFieldNormalizes(state.expectedOutputs);
    TextsFieldNormalizes(state.verifiedOutputs);
    JsonFields(Value(state), "items");
    JsonFields(Value(state), "expected_outputs");
    JsonFields(Value(state), "verified_outputs");
    ParseByFields(ThroughJson(Value(state)).fields, state);
  }

  /** Parsing a stored task state gives what normalising it gives.  Only JSON loses the zero
      state: it turns the nil map stored for it into null, which does not parse. */
  lemma StoredStateParsesToNormalForm(state: TaskState)
    ensures ParseTaskState(Value(state)) == ParseResult(state)
    ensures ParseTaskState(ThroughJson(Value(state))) == if state.IsZero() then None else ParseResult(state)
  {
    hide Normalized, ParseResult, Value, FromFields;
    if state.IsZero() {
      assert state == ZERO;
      ZeroInMemory();
      ValueFields(ZERO);
      StoredNull();
    } else {
      StoredInMemory(state);
      StoredAsJson(state);
    }
  }

  /** In memory the stored form round-trips exactly for the normal forms, through JSON exactly for
      those that are not zero. */
  lemma StoredStateRoundTrips(state: TaskState)
    ensures ParseTaskState(Value(state)) == Some(state) <==> NormalForm(state)
    ensures ParseTaskState(ThroughJson(Value(state))) == Some(state) <==> NormalForm(state) && !state.IsZero()
  {
    hide NormalForm, Normalized, Value, FromFields;
    StoredStateParsesToNormalForm(state);
    NormalFormIsFixed(state);
  }
}
