/** Which tasks a finished run leaves on its thread: the items of the task state it resolved,
    merged task by task into those stored before (pkg/harnessruntime/completion_service.go,
    task_state.go). */
module FinishedTasks {
  import opened GoStrings
  import opened RunState
  import opened RunOwnership
  import opened RunCompletion
  import opened Wrappers
  import T = TaskState
  import P = TaskProgress

  // ---- one item for each task -----------------------------------------------------------------

  /** Two items are the same task by their IDs, or by their texts when neither has one. */
  predicate Same(a: T.TaskItem, b: T.TaskItem) {
    if Collapse(a.id) != "" || Collapse(b.id) != "" then Collapse(a.id) == Collapse(b.id)
    else Collapse(a.text) == Collapse(b.text)
  }

  lemma KeysTellTasks(a: T.TaskItem, b: T.TaskItem)
    ensures TaskItemKey(a) == TaskItemKey(b) <==> Same(a, b)
  {
    hide Collapse;
    PrefixedKeys(Collapse(a.id), Collapse(b.id), Collapse(b.text));
    PrefixedKeys(Collapse(b.id), Collapse(a.id), Collapse(a.text));
    PrefixedTexts(Collapse(a.text), Collapse(b.text));
  }

  lemma PrefixedKeys(id: string, other: string, text: string)
    ensures "id:" + id == "id:" + other <==> id == other
    ensures "id:" + id != "text:" + text
  {
    assert ("id:" + id)[3..] == id && ("id:" + other)[3..] == other;
    assert ("id:" + id)[0] != ("text:" + text)[0];
  }

  lemma PrefixedTexts(text: string, other: string)
    ensures "text:" + text == "text:" + other <==> text == other
  {
    assert ("text:" + text)[5..] == text && ("text:" + other)[5..] == other;
  }

  predicate Has(items: seq<T.TaskItem>, item: T.TaskItem) {
    exists i | 0 <= i < |items| :: Same(items[i], item)
  }

  /** The place of the last item for the task of `item`; -1 when there is none. */
  function LastFor(items: seq<T.TaskItem>, item: T.TaskItem): (k: int)
    ensures -1 <= k < |items|
  {
    if items == [] then -1
    else if Same(items[|items| - 1], item) then |items| - 1
    else LastFor(items[..|items| - 1], item)
  }

  lemma {:induction false} LastForIsLast(items: seq<T.TaskItem>, item: T.TaskItem)
    ensures var k := LastFor(items, item);
            (k >= 0 ==> Same(items[k], item)) && forall j | k < j < |items| :: !Same(items[j], item)
    decreases |items|
  {
    hide Same;
    if items != [] {
      LastForIsLast(items[..|items| - 1], item);
    }
  }

  predicate IsFirst(items: seq<T.TaskItem>, i: nat)
    requires i < |items|
  {
    forall j | 0 <= j < i :: !Same(items[j], items[i])
  }

  /** Update `k` is the first for a task that has no item yet. */
  predicate Adds(items: seq<T.TaskItem>, updates: seq<T.TaskItem>, k: nat)
    requires k < |updates|
  {
    !Has(items, updates[k]) && IsFirst(updates, k)
  }

  /** The updates that add an item, in order. */
  function Added(items: seq<T.TaskItem>, updates: seq<T.TaskItem>): (ks: seq<nat>)
    ensures forall j | 0 <= j < |ks| :: ks[j] < |updates|
  {
    if updates == [] then []
    else Added(items, updates[..|updates| - 1]) + if Adds(items, updates, |updates| - 1) then [|updates| - 1] else []
  }

  lemma AddsEarlier(items: seq<T.TaskItem>, updates: seq<T.TaskItem>, n: nat, k: nat)
    requires k < n <= |updates|
    ensures Adds(items, updates[..n], k) <==> Adds(items, updates, k)
  {
    hide Same, Has;
  }

  predicate Ascending(ks: seq<nat>) {
    forall i, j | 0 <= i < j < |ks| :: ks[i] < ks[j]
  }

  lemma NothingAscends()
    ensures Ascending([])
  {
  }

  lemma AscendingSnoc(ks: seq<nat>, n: nat)
    requires Ascending(ks) && forall i | 0 <= i < |ks| :: ks[i] < n
    ensures Ascending(ks + [n])
  {
  }

  lemma {:induction false} AddedInOrder(items: seq<T.TaskItem>, updates: seq<T.TaskItem>)
    ensures Ascending(Added(items, updates))
    ensures forall k | 0 <= k < |updates| :: k in Added(items, updates) <==> Adds(items, updates, k)
    decreases |updates|
  {
    hide Adds, Ascending;
    if updates == [] {
      assert Ascending([]) by { NothingAscends(); }
    } else {
      var n := |updates| - 1;
      AddedInOrder(items, updates[..n]);
      var before := Added(items, updates[..n]);
      AscendingSnoc(before, n);
      assert before + [] == before;
      forall k | 0 <= k < n ensures Adds(items, updates[..n], k) <==> Adds(items, updates, k) {
        AddsEarlier(items, updates, n, k);
      }
    }
  }

  /** What becomes of item `i`: the first item of a task shows the status of the task's last update,
      and everything else stays. */
  predicate Kept(items: seq<T.TaskItem>, updates: seq<T.TaskItem>, i: nat, after: T.TaskItem)
    requires i < |items|
  {
    var last := LastFor(updates, items[i]);
    if IsFirst(items, i) && last >= 0 then
      after.text == items[i].text && Same(after, items[i]) && after.status == updates[last].status
    else after == items[i]
  }

  /** An item added by update `k`, with the status of the task's last update. */
  predicate New(updates: seq<T.TaskItem>, k: nat, after: T.TaskItem)
    requires k < |updates|
  {
    after.text == updates[k].text && Same(after, updates[k]) && LastFor(updates, updates[k]) >= 0 &&
    after.status == updates[LastFor(updates, updates[k])].status
  }

  /** `out` holds the items in their places, and after them one for each new task, in order. */
  predicate Merges(items: seq<T.TaskItem>, updates: seq<T.TaskItem>, out: seq<T.TaskItem>) {
    var added := Added(items, updates);
    && |out| == |items| + |added|
    && (forall i | 0 <= i < |items| :: Kept(items, updates, i, out[i]))
    && (forall j | 0 <= j < |added| :: New(updates, added[j], out[|items| + j]))
  }

  // ---- upserting merges -----------------------------------------------------------------------

  lemma KeptIsSame(items: seq<T.TaskItem>, updates: seq<T.TaskItem>, i: nat, after: T.TaskItem)
    requires i < |items| && Kept(items, updates, i, after)
    ensures Same(after, items[i])
  {
    hide Collapse;
  }

  lemma {:induction false} UpsertItemsSnoc(items: seq<T.TaskItem>, updates: seq<T.TaskItem>, u: T.TaskItem)
    ensures UpsertItems(items, updates + [u]) == UpsertItem(UpsertItems(items, updates), u)
    decreases |updates|
  {
    hide UpsertItem;
    if updates == [] {
      assert UpsertItems(UpsertItem(items, u), []) == UpsertItem(items, u);
      assert [] + [u] == [u] && [u][1..] == [];
    } else {
      assert (updates + [u])[1..] == updates[1..] + [u];
      UpsertItemsSnoc(UpsertItem(items, updates[0]), updates[1..], u);
    }
  }

  lemma LastForSnoc(updates: seq<T.TaskItem>, u: T.TaskItem, item: T.TaskItem)
    ensures LastFor(updates + [u], item) == if Same(u, item) then |updates| else LastFor(updates, item)
  {
    assert (updates + [u])[..|updates|] == updates;
  }

  lemma AddedSnoc(items: seq<T.TaskItem>, updates: seq<T.TaskItem>, u: T.TaskItem)
    ensures Added(items, updates + [u]) ==
            Added(items, updates) + if Has(items, u) || Has(updates, u) then [] else [|updates|]
  {
    hide Collapse, Same;
    var more := updates + [u];
    assert more[..|updates|] == updates;
    assert Adds(items, more, |updates|) <==> !Has(items, u) && !Has(updates, u);
  }

  /** Every update has an item in a merge. */
  lemma MergeCovers(items: seq<T.TaskItem>, updates: seq<T.TaskItem>, out: seq<T.TaskItem>, k: nat)
    requires Merges(items, updates, out) && k < |updates|
    ensures Has(out, updates[k])
    decreases k
  {
    hide Collapse, LastFor, Added;
    AddedInOrder(items, updates);
    if Has(items, updates[k]) {
      var i :| 0 <= i < |items| && Same(items[i], updates[k]);
      KeptIsSame(items, updates, i, out[i]);
      assert Same(out[i], updates[k]);
    } else if !IsFirst(updates, k) {
      var j :| 0 <= j < k && Same(updates[j], updates[k]);
      MergeCovers(items, updates, out, j);
      var i :| 0 <= i < |out| && Same(out[i], updates[j]);
      assert Same(out[i], updates[k]);
    } else {
      var added := Added(items, updates);
      assert Adds(items, updates, k) && k in added;
      var j :| 0 <= j < |added| && added[j] == k;
      assert Same(out[|items| + j], updates[k]);
    }
  }

  /** The item the next update goes to, and what the update does to it. */
  lemma UpsertOne(out: seq<T.TaskItem>, u: T.TaskItem) returns (i: nat)
    ensures i <= |out| && (forall j | 0 <= j < i :: !Same(out[j], u)) && (i < |out| ==> Same(out[i], u))
    ensures var after := UpsertItem(out, u);
            && |after| == (if i < |out| then |out| else |out| + 1)
            && forall j | 0 <= j < |out| && j != i :: after[j] == out[j]
    ensures var after := UpsertItem(out, u)[i];
            after.status == u.status && Same(after, u) && after.text == if i < |out| then out[i].text else u.text
  {
    hide Collapse, TaskItemKey, UpsertItem, Same;
    i := P.FirstMatch(out, u);
    P.UpsertAt(out, i, u);
    forall j | 0 <= j < |out| ensures TaskItemKey(out[j]) == TaskItemKey(u) <==> Same(out[j], u) {
      KeysTellTasks(out[j], u);
    }
    if i < |out| {
      P.KeyOfUpdated(out[i], u);
      KeysTellTasks(UpsertItem(out, u)[i], u);
    } else {
      KeysTellTasks(u, u);
    }
  }

  lemma KeptStep(items: seq<T.TaskItem>, updates: seq<T.TaskItem>, out: seq<T.TaskItem>, u: T.TaskItem, at: nat,
                 after: seq<T.TaskItem>, i: nat)
    requires Merges(items, updates, out) && at <= |out| && |out| <= |after| && i < |items|
    requires (forall j | 0 <= j < at :: !Same(out[j], u)) && (at < |out| ==> Same(out[at], u))
    requires forall j | 0 <= j < |out| && j != at :: after[j] == out[j]
    requires at < |out| ==> after[at].status == u.status && Same(after[at], u) && after[at].text == out[at].text
    ensures Kept(items, updates + [u], i, after[i])
  {
    hide Collapse, LastFor, Added, New;
    LastForSnoc(updates, u, items[i]);
    KeptIsSame(items, updates, i, out[i]);
    if i == at {
      forall j | 0 <= j < i ensures !Same(items[j], items[i]) {
        KeptIsSame(items, updates, j, out[j]);
      }
    } else if Same(u, items[i]) && IsFirst(items, i) {
      if at < i {
        KeptIsSame(items, updates, at, out[at]);
      }
      assert false;
    }
  }

  lemma OneItemEach(items: seq<T.TaskItem>, updates: seq<T.TaskItem>, out: seq<T.TaskItem>, i: nat, j: nat)
    requires Merges(items, updates, out) && i < j < |Added(items, updates)|
    ensures !Same(out[|items| + i], out[|items| + j])
  {
    hide Collapse, LastFor, Added;
    AddedInOrder(items, updates);
    var added := Added(items, updates);
    assert New(updates, added[i], out[|items| + i]) && New(updates, added[j], out[|items| + j]);
    assert Adds(items, updates, added[j]);
  }

  lemma NewStep(items: seq<T.TaskItem>, updates: seq<T.TaskItem>, out: seq<T.TaskItem>, u: T.TaskItem, at: nat,
                after: seq<T.TaskItem>, j: nat)
    requires Merges(items, updates, out) && at <= |out| && |out| <= |after| && j < |Added(items, updates)|
    requires (forall j | 0 <= j < at :: !Same(out[j], u)) && (at < |out| ==> Same(out[at], u))
    requires forall j | 0 <= j < |out| && j != at :: after[j] == out[j]
    requires at < |out| ==> after[at].status == u.status && Same(after[at], u) && after[at].text == out[at].text
    ensures New(updates + [u], Added(items, updates)[j], after[|items| + j])
  {
    hide Collapse, LastFor, Added;
    AddedInOrder(items, updates);
    var added := Added(items, updates);
    var k, p := added[j], |items| + j;
    assert (updates + [u])[k] == updates[k];
    LastForSnoc(updates, u, updates[k]);
    assert New(updates, k, out[p]);
    assert k in added && Adds(items, updates, k);
    if p != at && Same(u, updates[k]) {
      assert Same(out[p], u);
      if at < |items| {
        KeptIsSame(items, updates, at, out[at]);
      } else {
        OneItemEach(items, updates, out, at - |items|, j);
      }
      assert false;
    }
  }

  lemma {:induction false} UpsertMerges(items: seq<T.TaskItem>, updates: seq<T.TaskItem>)
    ensures Merges(items, updates, UpsertItems(items, updates))
    decreases |updates|
  {
    hide Collapse, Same, LastFor, Kept, New, UpsertItem, UpsertItems, Merges;
    if updates == [] {
      NothingMerges(items);
    } else {
      var n := |updates| - 1;
      var before, u := updates[..n], updates[n];
      assert updates == before + [u];
      UpsertMerges(items, before);
      UpsertItemsSnoc(items, before, u);
      MergeOne(items, before, UpsertItems(items, before), u);
    }
  }

  lemma NothingMerges(items: seq<T.TaskItem>)
    ensures Merges(items, [], UpsertItems(items, []))
  {
  }

  lemma MergeOne(items: seq<T.TaskItem>, updates: seq<T.TaskItem>, out: seq<T.TaskItem>, u: T.TaskItem)
    requires Merges(items, updates, out)
    ensures Merges(items, updates + [u], UpsertItem(out, u))
  {
    hide Collapse, LastFor, Kept, New, UpsertItem, Same;
    var at := UpsertOne(out, u);
    var after := UpsertItem(out, u);
    AddedSnoc(items, updates, u);
    WhereUpdatesGo(items, updates, out, u, at);
    forall i | 0 <= i < |items| ensures Kept(items, updates + [u], i, after[i]) {
      KeptStep(items, updates, out, u, at, after, i);
    }
    var added := Added(items, updates);
    forall j | 0 <= j < |added| ensures New(updates + [u], added[j], after[|items| + j]) {
      NewStep(items, updates, out, u, at, after, j);
    }
    if at == |out| {
      NewAtTheEnd(updates, u, after[at]);
    }
  }

  lemma NewAtTheEnd(updates: seq<T.TaskItem>, u: T.TaskItem, after: T.TaskItem)
    requires after.text == u.text && Same(after, u) && after.status == u.status
    ensures New(updates + [u], |updates|, after)
  {
    hide Collapse;
    LastForSnoc(updates, u, u);
  }

  /** An update finds its task in a merge exactly when an item or an earlier update is for it. */
  lemma WhereUpdatesGo(items: seq<T.TaskItem>, updates: seq<T.TaskItem>, out: seq<T.TaskItem>, u: T.TaskItem, at: nat)
    requires Merges(items, updates, out) && at <= |out|
    requires (forall j | 0 <= j < at :: !Same(out[j], u)) && (at < |out| ==> Same(out[at], u))
    ensures at < |out| <==> Has(items, u) || Has(updates, u)
  {
    hide Collapse, LastFor, Added;
    if at < |items| {
      KeptIsSame(items, updates, at, out[at]);
      assert Same(items[at], u);
    } else if at < |out| {
      var k := Added(items, updates)[at - |items|];
      assert New(updates, k, out[at]);
      assert Same(updates[k], u);
    } else if Has(items, u) {
      var i :| 0 <= i < |items| && Same(items[i], u);
      KeptIsSame(items, updates, i, out[i]);
    } else if Has(updates, u) {
      var k :| 0 <= k < |updates| && Same(updates[k], u);
      MergeCovers(items, updates, out, k);
    }
  }

  // ---- what a finish leaves -------------------------------------------------------------------

  /** Every item has text and a known status, and at most one is in progress. */
  predicate Acceptable(items: seq<T.TaskItem>) {
    && (forall item | item in items :: Collapse(item.text) != "" && T.NormalizeTaskStatus(item.status) != "")
    && (forall i, j | 0 <= i < j < |items| ::
          T.NormalizeTaskStatus(items[i].status) != T.IN_PROGRESS ||
            T.NormalizeTaskStatus(items[j].status) != T.IN_PROGRESS)
  }

  lemma AcceptableNormalizes(state: T.TaskState)
    ensures T.Normalized(state).Ok? <==> Acceptable(state.items)
    ensures T.Normalized(state).Ok? ==>
      var out := T.Normalized(state).value;
      && |out.items| == |state.items|
      && (forall i | 0 <= i < |out.items| ::
            Tidied(state.items[i], out.items[i]))
      && out.expectedOutputs == T.NormalizedStrings(state.expectedOutputs)
      && out.verifiedOutputs == T.NormalizedStrings(state.verifiedOutputs)
  {
    hide Collapse, T.NormalizeTaskStatus, T.NormalizedItems, T.NormalizedStrings, T.NormalForm, T.CountInProgress;
    T.NormalizeIntoNormalForm(state);
    T.NormalizedItemsAreNormal(state.items);
  }

  /** `after` is `item` with its texts tidied and its status in normal spelling. */
  predicate Tidied(item: T.TaskItem, after: T.TaskItem) {
    after.id == Collapse(item.id) && after.text == Collapse(item.text) &&
    after.status == T.NormalizeTaskStatus(item.status)
  }

  /** `after` is the merge of the stored state and the resolved one: `merged` tidied, the resolved
      expectations if there are any, and what either side verified. */
  predicate ShowsMerge(stored: T.TaskState, resolved: T.TaskState, merged: seq<T.TaskItem>, after: T.TaskState) {
    && |after.items| == |merged| && (forall i | 0 <= i < |merged| :: Tidied(merged[i], after.items[i]))
    && after.expectedOutputs ==
         (if resolved.expectedOutputs != [] then T.NormalizedStrings(resolved.expectedOutputs)
          else stored.expectedOutputs)
    && after.verifiedOutputs == T.NormalizedStrings(stored.verifiedOutputs + resolved.verifiedOutputs)
  }

  /** The task state of a finish as the next load reads it: with nothing stored the resolved one,
      with nothing resolved the stored or else the carried one; otherwise the two merged, or just
      the resolved one when the merge is not acceptable. */
  ghost predicate LeavesTasks(stored: T.TaskState, f: Finish, after: T.TaskState) {
    match f.resolved
    case None => after == if stored.IsZero() && f.carried.Some? then Reloaded(f.carried.value) else stored
    case Some(resolved) =>
      if stored.IsZero() then after == Reloaded(resolved)
      else if resolved.IsZero() then after == stored
      else
        exists merged ::
          Merges(stored.items, resolved.items, merged) &&
          if Acceptable(merged) then ShowsMerge(stored, resolved, merged, after) else after == Reloaded(resolved)
  }

  lemma ReloadedTwice(state: T.TaskState)
    ensures T.Normalized(state).Ok? ==> Reloaded(T.Normalized(state).value) == Reloaded(state)
    ensures T.NormalForm(state) ==> Reloaded(state) == state
  {
    hide T.Normalized, T.NormalForm;
    T.NormalizeIntoNormalForm(state);
    T.NormalFormIsFixed(state);
  }

  lemma FinishedLeavesTasks(stored: T.TaskState, f: Finish)
    requires T.NormalForm(stored)
    ensures LeavesTasks(stored, f, Reloaded(FinishedTaskState(stored, f)))
  {
    hide T.Normalized, T.NormalForm, Merges, Acceptable, ShowsMerge, UpsertItems, Reloaded;
    ReloadedTwice(stored);
    T.NormalFormIsFixed(stored);
    if f.resolved.Some? {
      var resolved := f.resolved.value;
      ReloadedTwice(resolved);
      if stored.IsZero() {
        ReloadedResult(stored, f);
      } else if !resolved.IsZero() {
        MergedTasks(stored, resolved, f);
      } else {
        ReloadedResult(stored, f);
      }
    }
  }

  /** With one side empty there is nothing to merge. */
  lemma ReloadedResult(stored: T.TaskState, f: Finish)
    requires T.NormalForm(stored) && f.resolved.Some? && (stored.IsZero() || f.resolved.value.IsZero())
    ensures Reloaded(FinishedTaskState(stored, f)) ==
            if stored.IsZero() then Reloaded(f.resolved.value) else stored
  {
    hide T.Normalized, T.NormalForm;
    ReloadedTwice(stored);
    ReloadedTwice(f.resolved.value);
    T.NormalFormIsFixed(stored);
  }

  lemma MergedTasks(stored: T.TaskState, resolved: T.TaskState, f: Finish)
    requires T.NormalForm(stored) && f.resolved == Some(resolved) && !stored.IsZero() && !resolved.IsZero()
    ensures var merged := UpsertItems(stored.items, resolved.items);
      Merges(stored.items, resolved.items, merged) &&
      var after := Reloaded(FinishedTaskState(stored, f));
      if Acceptable(merged) then ShowsMerge(stored, resolved, merged, after) else after == Reloaded(resolved)
  {
    hide T.Normalized, T.NormalForm, Merges, Acceptable, UpsertItems, T.NormalizedStrings, Tidied;
    var merged := UpsertItems(stored.items, resolved.items);
    UpsertMerges(stored.items, resolved.items);
    var state := T.TaskState(merged,
      if resolved.expectedOutputs != [] then resolved.expectedOutputs else stored.expectedOutputs,
      stored.verifiedOutputs + resolved.verifiedOutputs);
    AcceptableNormalizes(state);
    ReloadedTwice(state);
    StoredOutputsAreNormal(stored);
  }

  lemma StoredOutputsAreNormal(stored: T.TaskState)
    requires T.NormalForm(stored)
    ensures T.NormalizedStrings(stored.expectedOutputs) == stored.expectedOutputs
  {
    hide T.NormalStrings;
    T.NormalStringsAreFixed(stored.expectedOutputs);
  }

  /** The end of a run on a thread it may touch leaves the tasks it should: nothing the run resolved
      is lost, and no task stored before is lost to it. */
  lemma FinishLeavesTasks(w: World, record: RunRecord, f: Finish, now: int)
    requires WellKeyed(w.threads) && Canonical(record.threadID) && Canonical(record.runID) &&
             CanMutate(w.threads, record)
    ensures var id := record.threadID;
            LeavesTasks(StoredTaskState(w.threads, id), f,
              StoredTaskState(Finalize(w, id, record, f, now).threads, id))
  {
    hide LeavesTasks, Finalize, StoredTaskState, FinishedTaskState, Reloaded, T.NormalForm, CanMutate, Canonical,
         WellKeyed, MetaOf, LoadOrNew, ActiveOf, OthersKept;
    P.StoredIsNormal(w.threads, record.threadID);
    FinishSettlesThread(w, record, f, now);
    FinishedLeavesTasks(StoredTaskState(w.threads, record.threadID), f);
  }

  /** The end of a run inside a worker leaves the same tasks, whoever owns the thread. */
  lemma WorkerFinishLeavesTasks(w: World, record: RunRecord, f: Finish, now: int)
    requires WellKeyed(w.threads) && Canonical(record.threadID) && Canonical(record.runID)
    ensures var id := record.threadID;
            LeavesTasks(StoredTaskState(w.threads, id), f,
              StoredTaskState(WorkerFinish(w, record, f, now).threads, id))
  {
    hide LeavesTasks, Finalize, WorkerFinish, StoredTaskState, FinishedTaskState, Reloaded, T.NormalForm, CanMutate,
         Canonical, WellKeyed, MetaOf, LoadOrNew, ActiveOf, OthersKept, CompletionDescriptor, AlreadyShows;
    if CanMutate(w.threads, record) {
      WorkerFinishOfOwner(w, record, f, now);
      FinishLeavesTasks(w, record, f, now);
    } else {
      P.StoredIsNormal(w.threads, record.threadID);
      WorkerFinishIgnoresOwner(w, record, f, now);
      FinishedLeavesTasks(StoredTaskState(w.threads, record.threadID), f);
    }
  }

  /** In an accepted merge each resolved task shows, with the status of the last item resolved for
      it, and each stored task that was not resolved shows as it was. */
  lemma MergeShowsTasks(stored: T.TaskState, resolved: T.TaskState, merged: seq<T.TaskItem>, after: T.TaskState)
    requires T.NormalForm(stored) && Merges(stored.items, resolved.items, merged)
    requires ShowsMerge(stored, resolved, merged, after)
    ensures forall k | 0 <= k < |resolved.items| :: ShowsTask(resolved.items, k, after)
    ensures forall i | 0 <= i < |stored.items| && !Has(resolved.items, stored.items[i]) ::
      i < |after.items| && after.items[i] == stored.items[i]
    ensures forall t :: t in after.verifiedOutputs <==>
                        t in stored.verifiedOutputs || t in T.NormalizedStrings(resolved.verifiedOutputs)
  {
    hide Collapse, T.NormalizeTaskStatus, Added, Kept, New, LastFor, Merges, T.NormalizedStrings, Same, Tidied,
         ShowsTask;
    forall k | 0 <= k < |resolved.items| ensures ShowsTask(resolved.items, k, after) {
      TaskShows(stored, resolved, merged, after, k);
    }
    forall i | 0 <= i < |stored.items| && !Has(resolved.items, stored.items[i])
      ensures i < |after.items| && after.items[i] == stored.items[i]
    {
      StoredStays(stored, resolved, merged, after, i);
    }
    T.NormalizedStringsOfConcat(stored.verifiedOutputs, resolved.verifiedOutputs);
    StoredVerified(stored);
  }

  lemma StoredVerified(stored: T.TaskState)
    requires T.NormalForm(stored)
    ensures T.NormalizedStrings(stored.verifiedOutputs) == stored.verifiedOutputs
  {
    hide T.NormalStrings;
    T.NormalStringsAreFixed(stored.verifiedOutputs);
  }

  /** Some item of `after` is for the task of update `k` and has the status of its last update. */
  predicate ShowsTask(updates: seq<T.TaskItem>, k: nat, after: T.TaskState)
    requires k < |updates|
  {
    var last := LastFor(updates, updates[k]);
    last >= 0 && exists i | 0 <= i < |after.items| ::
      Same(after.items[i], updates[k]) && after.items[i].status == T.NormalizeTaskStatus(updates[last].status)
  }

  lemma StoredStays(stored: T.TaskState, resolved: T.TaskState, merged: seq<T.TaskItem>, after: T.TaskState, i: nat)
    requires T.NormalForm(stored) && Merges(stored.items, resolved.items, merged)
    requires ShowsMerge(stored, resolved, merged, after)
    requires i < |stored.items| && !Has(resolved.items, stored.items[i])
    ensures i < |after.items| && after.items[i] == stored.items[i]
  {
    hide Collapse, T.NormalizeTaskStatus, Added, New, LastFor, T.NormalizedStrings, Same;
    LastForIsLast(resolved.items, stored.items[i]);
    assert Kept(stored.items, resolved.items, i, merged[i]);
    assert stored.items[i] in stored.items;
    T.StatusesAreFixed(stored.items[i].status);
  }

  lemma TaskShows(stored: T.TaskState, resolved: T.TaskState, merged: seq<T.TaskItem>, after: T.TaskState, k: nat)
    requires Merges(stored.items, resolved.items, merged) && ShowsMerge(stored, resolved, merged, after)
    requires k < |resolved.items|
    ensures ShowsTask(resolved.items, k, after)
  {
    hide Collapse, T.NormalizeTaskStatus, Added, LastFor, T.NormalizedStrings, Merges;
    var i := TaskInMerge(stored.items, resolved.items, merged, k);
    var last := LastFor(resolved.items, resolved.items[k]);
    CollapseIdempotent(merged[i].id);
    CollapseIdempotent(merged[i].text);
    assert Same(after.items[i], resolved.items[k]);
  }

  lemma TaskInMerge(items: seq<T.TaskItem>, updates: seq<T.TaskItem>, merged: seq<T.TaskItem>, k: nat)
    returns (i: nat)
    requires Merges(items, updates, merged) && k < |updates|
    ensures i < |merged| && Same(merged[i], updates[k])
    ensures LastFor(updates, updates[k]) >= 0 && merged[i].status == updates[LastFor(updates, updates[k])].status
  {
    hide Collapse, LastFor, Added;
    i := P.FirstMatch(merged, updates[k]);
    MergeCovers(items, updates, merged, k);
    FirstIsSame(merged, updates[k], i);
    if i < |items| {
      KeptIsSame(items, updates, i, merged[i]);
      forall j | 0 <= j < i ensures !Same(items[j], items[i]) {
        KeptIsSame(items, updates, j, merged[j]);
      }
      SameLast(updates, items[i], updates[k]);
      LastForIsLast(updates, updates[k]);
    } else {
      var added := Added(items, updates)[i - |items|];
      assert New(updates, added, merged[i]);
      SameLast(updates, updates[added], updates[k]);
    }
  }

  lemma FirstIsSame(merged: seq<T.TaskItem>, item: T.TaskItem, i: nat)
    requires Has(merged, item) && i <= |merged|
    requires forall j | 0 <= j < i :: TaskItemKey(merged[j]) != TaskItemKey(item)
    requires i < |merged| ==> TaskItemKey(merged[i]) == TaskItemKey(item)
    ensures i < |merged| && Same(merged[i], item) && forall j | 0 <= j < i :: !Same(merged[j], item)
  {
    hide Same, TaskItemKey;
    forall j | 0 <= j < |merged| ensures TaskItemKey(merged[j]) == TaskItemKey(item) <==> Same(merged[j], item) {
      KeysTellTasks(merged[j], item);
    }
  }

  lemma {:induction false} SameLast(updates: seq<T.TaskItem>, a: T.TaskItem, b: T.TaskItem)
    requires Same(a, b)
    ensures LastFor(updates, a) == LastFor(updates, b)
    decreases |updates|
  {
    hide Collapse;
    if updates != [] {
      SameLast(updates[..|updates| - 1], a, b);
    }
  }
}
