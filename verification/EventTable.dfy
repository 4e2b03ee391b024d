/** One run's rows in the `run_events` table: insertion at the next index and the ordered
    select, which together behave like a sequence
    (pkg/harnessruntime/sqlite_state_store.go). */
module EventTable {
  import opened Sets

  /** The rows of one run: event index to event. */
  type Rows<E> = map<int, E>

  predicate IsMax(m: int, keys: set<int>) {
    m in keys && forall k | k in keys :: k <= m
  }

  lemma {:induction false} MaxExists(keys: set<int>)
    requires keys != {}
    ensures exists m :: IsMax(m, keys)
    decreases |keys|
  {
    var k := SomeElement(keys);
    if keys == {k} {
      assert IsMax(k, keys);
    } else {
      assert keys - {k} != {};
      MaxExists(keys - {k});
      var m :| IsMax(m, keys - {k});
      var top := if k > m then k else m;
      assert forall j | j in keys :: j == k || j in keys - {k};
      assert IsMax(top, keys);
    }
  }

  /** `select max(event_index)`. */
  function MaxIndex(keys: set<int>): (m: int)
    requires keys != {}
    ensures IsMax(m, keys)
  {
    MaxExists(keys);
    MaxIsUnique(keys);
    var m :| IsMax(m, keys);
    m
  }

  lemma MaxIsUnique(keys: set<int>)
    ensures forall m, n | IsMax(m, keys) && IsMax(n, keys) :: m == n
  {
  }

  /** `select ... order by event_index`. */
  function Ordered<E>(rows: Rows<E>): seq<E>
    decreases |rows.Keys|
  {
    if rows == map[] then []
    else
      var last := MaxIndex(rows.Keys);
      assert last in rows.Keys;
      Ordered(rows - {last}) + [rows[last]]
  }

  /** `coalesce(max(event_index) + 1, 1)`. */
  function NextIndex<E>(rows: Rows<E>): int {
    if rows == map[] then 1 else MaxIndex(rows.Keys) + 1
  }

  /** A row inserted at the next index comes last. */
  lemma InsertAppends<E>(rows: Rows<E>, event: E)
    ensures Ordered(rows[NextIndex(rows) := event]) == Ordered(rows) + [event]
  {
    var i := NextIndex(rows);
    var after := rows[i := event];
    assert i in after;
    assert IsMax(i, after.Keys);
    assert after - {i} == rows;
  }

  /** The indices run from 1 without a gap. */
  ghost predicate Contiguous<E>(rows: Rows<E>) {
    forall i :: i in rows <==> 1 <= i <= |rows.Keys|
  }

  lemma EmptyRows<E>()
    ensures Contiguous<E>(map[]) && Ordered<E>(map[]) == []
  {
  }

  lemma ContiguousNext<E>(rows: Rows<E>, event: E)
    requires Contiguous(rows)
    ensures NextIndex(rows) == |rows.Keys| + 1
    ensures Contiguous(rows[NextIndex(rows) := event])
    ensures |rows[NextIndex(rows) := event].Keys| == |rows.Keys| + 1
  {
    var n := |rows.Keys|;
    if rows != map[] {
      assert n in rows.Keys && IsMax(n, rows.Keys);
      MaxIsUnique(rows.Keys);
    }
    assert NextIndex(rows) == n + 1;
    assert n + 1 !in rows.Keys;
    assert rows[n + 1 := event].Keys == rows.Keys + {n + 1};
  }

  lemma {:induction false} OrderedLength<E>(rows: Rows<E>)
    ensures |Ordered(rows)| == |rows.Keys|
    decreases |rows.Keys|
  {
    if rows != map[] {
      var last := MaxIndex(rows.Keys);
      assert (rows - {last}).Keys == rows.Keys - {last};
      OrderedLength(rows - {last});
    }
  }

  /** The rows inserted for a whole log, at the indices 1, 2, ... */
  method RowsFor<E>(log: seq<E>) returns (rows: Rows<E>)
    ensures Contiguous(rows) && Ordered(rows) == log
  {
    hide Ordered, NextIndex, Contiguous;
    rows := map[];
    EmptyRows<E>();
    for i := 0 to |log|
      invariant Contiguous(rows) && |rows.Keys| == i
      invariant Ordered(rows) == log[..i]
    {
      ContiguousNext(rows, log[i]);
      InsertAppends(rows, log[i]);
      rows := rows[i + 1 := log[i]];
      assert log[..i + 1] == log[..i] + [log[i]];
    }
    assert log[..|log|] == log;
  }
}
