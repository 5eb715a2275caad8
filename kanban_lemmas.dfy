/**
 * Properties of the board edits: the positional swap is its own inverse,
 * the filters keep order and compose, deleteTasks is a filter on a board
 * with unique ids, the cascade of deleteColumn empties exactly one column,
 * and every mutation keeps a well-formed board well-formed (moveTask only
 * when its columnId names a column).
 */
module KanbanLemmas {
  import opened Kanban

  // ---------------------------------------------------------------------
  // Ids under the sequence edits

  lemma ColumnIdsSwap(columns: seq<Column>, i: nat, j: nat)
    requires i < |columns| && j < |columns|
    ensures ColumnIds(Swap(columns, i, j)) == Swap(ColumnIds(columns), i, j)
  {
  }

  lemma TaskIdsSwap(tasks: seq<Task>, i: nat, j: nat)
    requires i < |tasks| && j < |tasks|
    ensures TaskIds(Swap(tasks, i, j)) == Swap(TaskIds(tasks), i, j)
  {
  }

  lemma SwapMembers<T>(s: seq<T>, i: nat, j: nat)
    requires i < |s| && j < |s|
    ensures forall x :: x in Swap(s, i, j) <==> x in s
  {
    var r := Swap(s, i, j);
    forall x | x in s ensures x in r {
      var k :| 0 <= k < |s| && s[k] == x;
      if k == i { assert r[j] == x; } else if k == j { assert r[i] == x; } else { assert r[k] == x; }
    }
    forall x | x in r ensures x in s {
      var k :| 0 <= k < |r| && r[k] == x;
      if k == i { assert s[j] == x; } else if k == j { assert s[i] == x; } else { assert s[k] == x; }
    }
  }

  lemma DistinctSwap(ids: seq<Id>, i: nat, j: nat)
    requires Distinct(ids) && i < |ids| && j < |ids|
    ensures Distinct(Swap(ids, i, j))
  {
    var r := Swap(ids, i, j);
    forall p, q | 0 <= p < q < |r| ensures r[p] != r[q] {
      var p' := if p == i then j else if p == j then i else p;
      var q' := if q == i then j else if q == j then i else q;
      assert r[p] == ids[p'] && r[q] == ids[q'];
      assert p' != q';
      if p' < q' { assert ids[p'] != ids[q']; } else { assert ids[q'] != ids[p']; }
    }
  }

  lemma DistinctRemoveAt(ids: seq<Id>, i: nat)
    requires Distinct(ids) && i < |ids|
    ensures Distinct(RemoveAt(ids, i))
    ensures forall x :: x in RemoveAt(ids, i) <==> x in ids && x != ids[i]
  {
    var r := RemoveAt(ids, i);
    forall p, q | 0 <= p < q < |r| ensures r[p] != r[q] {
      var p' := if p < i then p else p + 1;
      var q' := if q < i then q else q + 1;
      assert r[p] == ids[p'] && r[q] == ids[q'] && p' < q';
    }
    forall x | x in ids && x != ids[i] ensures x in r {
      var k :| 0 <= k < |ids| && ids[k] == x;
      if k < i { assert r[k] == x; } else { assert r[k - 1] == x; }
    }
    forall x | x in r ensures x in ids && x != ids[i] {
      var k :| 0 <= k < |r| && r[k] == x;
      var k' := if k < i then k else k + 1;
      assert ids[k'] == x && k' != i;
      if k' < i { assert ids[k'] != ids[i]; } else { assert ids[i] != ids[k']; }
    }
  }

  lemma DistinctTail(tasks: seq<Task>)
    requires tasks != [] && Distinct(TaskIds(tasks))
    ensures Distinct(TaskIds(tasks[1..]))
    ensures forall t :: t in tasks[1..] ==> t.id != tasks[0].id
  {
    assert TaskIds(tasks[1..]) == TaskIds(tasks)[1..];
    forall t | t in tasks[1..] ensures t.id != tasks[0].id {
      var m :| 0 <= m < |tasks[1..]| && tasks[1..][m] == t;
      assert TaskIds(tasks)[0] != TaskIds(tasks)[m + 1];
    }
  }

  // ---------------------------------------------------------------------
  // The positional swap undoes itself

  /** With unique ids, swapping slots i and j moves ids[i] to j and ids[j] to i. */
  lemma SwapRelocates(ids: seq<Id>, i: nat, j: nat)
    requires Distinct(ids) && i < |ids| && j < |ids|
    ensures FindIndex(Swap(ids, i, j), ids[i]) == j
    ensures FindIndex(Swap(ids, i, j), ids[j]) == i
  {
    DistinctSwap(ids, i, j);
    FindIndexOfDistinct(Swap(ids, i, j), j);
    FindIndexOfDistinct(Swap(ids, i, j), i);
  }

  /** swapColumns(a, b) applied twice restores the column order. */
  lemma {:induction false} SwapColumnsInvolution(columns: seq<Column>, activeId: Id, overId: Id)
    requires Distinct(ColumnIds(columns))
    ensures SwapColumns(SwapColumns(columns, activeId, overId), activeId, overId) == columns
  {
    var ids := ColumnIds(columns);
    var i, j := FindIndex(ids, activeId), FindIndex(ids, overId);
    if i != -1 && j != -1 {
      var once := Swap(columns, i, j);
      ColumnIdsSwap(columns, i, j);
      SwapRelocates(ids, i, j);
      assert FindIndex(ColumnIds(once), activeId) == j;
      assert FindIndex(ColumnIds(once), overId) == i;
      assert Swap(once, j, i) == columns;
    }
  }

  /** moveTask(a, b, "") applied twice restores the task order. */
  lemma {:induction false} MoveTasksInvolution(tasks: seq<Task>, activeId: Id, overId: Id)
    requires Distinct(TaskIds(tasks))
    ensures MoveTasks(MoveTasks(tasks, activeId, overId, ""), activeId, overId, "") == tasks
  {
    var ids := TaskIds(tasks);
    var i, j := FindIndex(ids, activeId), FindIndex(ids, overId);
    if i != -1 && j != -1 {
      var once := Swap(tasks, i, j);
      assert MoveTasks(tasks, activeId, overId, "") == once;
      TaskIdsSwap(tasks, i, j);
      SwapRelocates(ids, i, j);
      assert FindIndex(TaskIds(once), activeId) == j;
      assert FindIndex(TaskIds(once), overId) == i;
      assert Swap(once, j, i) == tasks;
    }
  }

  // ---------------------------------------------------------------------
  // Filters

  lemma FilterCons(s: seq<Task>, sel: Selector)
    requires s != []
    ensures Filter(s, sel) == (if Keeps(sel, s[0]) then [s[0]] else []) + Filter(s[1..], sel)
  {
  }

  /** A filter keeps exactly the tasks the selector keeps. */
  lemma {:induction false} FilterMembers(s: seq<Task>, sel: Selector)
    ensures forall t :: t in Filter(s, sel) <==> t in s && Keeps(sel, t)
  {
    if s != [] {
      FilterMembers(s[1..], sel);
      FilterCons(s, sel);
      assert s == [s[0]] + s[1..];
    }
  }

  lemma {:induction false} FilterConcat(a: seq<Task>, b: seq<Task>, sel: Selector)
    ensures Filter(a + b, sel) == Filter(a, sel) + Filter(b, sel)
  {
    if a == [] {
      assert a + b == b;
    } else {
      var head: seq<Task> := if Keeps(sel, a[0]) then [a[0]] else [];
      FilterConcat(a[1..], b, sel);
      assert (a + b)[0] == a[0] && (a + b)[1..] == a[1..] + b;
      calc {
        Filter(a + b, sel);
        head + Filter(a[1..] + b, sel);
        head + (Filter(a[1..], sel) + Filter(b, sel));
        (head + Filter(a[1..], sel)) + Filter(b, sel);
        Filter(a, sel) + Filter(b, sel);
      }
    }
  }

  lemma {:induction false} FilterKeepsAll(s: seq<Task>, sel: Selector)
    requires forall k :: 0 <= k < |s| ==> Keeps(sel, s[k])
    ensures Filter(s, sel) == s
  {
    if s != [] {
      FilterKeepsAll(s[1..], sel);
    }
  }

  lemma {:induction false} FilterDropsAll(s: seq<Task>, sel: Selector)
    requires forall k :: 0 <= k < |s| ==> !Keeps(sel, s[k])
    ensures Filter(s, sel) == []
  {
    if s != [] {
      FilterDropsAll(s[1..], sel);
    }
  }

  /** Filtering twice is filtering once by both conditions. */
  lemma {:induction false} FilterFilter(s: seq<Task>, p: Selector, q: Selector)
    ensures Filter(Filter(s, p), q) == Filter(s, Both(p, q))
  {
    if s != [] {
      FilterFilter(s[1..], p, q);
      var head: seq<Task> := if Keeps(p, s[0]) then [s[0]] else [];
      FilterConcat(head, Filter(s[1..], p), q);
    }
  }

  /** Selectors that agree on every task filter alike. */
  lemma {:induction false} FilterSame(s: seq<Task>, p: Selector, q: Selector)
    requires forall t :: Keeps(p, t) == Keeps(q, t)
    ensures Filter(s, p) == Filter(s, q)
  {
    if s != [] {
      FilterSame(s[1..], p, q);
    }
  }

  lemma FilterCommute(s: seq<Task>, p: Selector, q: Selector)
    ensures Filter(Filter(s, p), q) == Filter(Filter(s, q), p)
  {
    FilterFilter(s, p, q);
    FilterFilter(s, q, p);
    FilterSame(s, Both(p, q), Both(q, p));
  }

  /** A filter of a board with unique task ids still has unique task ids. */
  lemma {:induction false} FilterKeepsDistinctIds(s: seq<Task>, sel: Selector)
    requires Distinct(TaskIds(s))
    ensures Distinct(TaskIds(Filter(s, sel)))
  {
    if s != [] {
      DistinctTail(s);
      FilterKeepsDistinctIds(s[1..], sel);
      FilterCons(s, sel);
      if Keeps(sel, s[0]) {
        FilterMembers(s[1..], sel);
        DistinctCons(s[0], Filter(s[1..], sel));
        assert Filter(s, sel) == [s[0]] + Filter(s[1..], sel);
      } else {
        assert Filter(s, sel) == Filter(s[1..], sel);
      }
    }
  }

  /** Putting a task before tasks of other ids keeps the ids unique. */
  lemma DistinctCons(x: Task, rest: seq<Task>)
    requires Distinct(TaskIds(rest))
    requires forall t :: t in rest ==> t.id != x.id
    ensures Distinct(TaskIds([x] + rest))
  {
    var r := [x] + rest;
    forall p, q | 0 <= p < q < |r| ensures TaskIds(r)[p] != TaskIds(r)[q] {
      if p == 0 {
        assert r[q] == rest[q - 1] && rest[q - 1] in rest;
      } else {
        assert TaskIds(rest)[p - 1] != TaskIds(rest)[q - 1];
      }
    }
  }

  // ---------------------------------------------------------------------
  // deleteColumn's cascade, seen column by column

  /**
   * After the cascade of deleting column `id`, that column shows no task and
   * every other column shows the same tasks in the same order as before.
   */
  lemma CascadeKeepsOtherColumns(tasks: seq<Task>, id: Id, c: Id)
    ensures Filter(Filter(tasks, OutsideColumn(id)), InColumn(c))
         == if c == id then [] else Filter(tasks, InColumn(c))
  {
    if c == id {
      var kept := Filter(tasks, OutsideColumn(id));
      FilterDropsAll(kept, InColumn(c));
    } else {
      FilterCommute(tasks, OutsideColumn(id), InColumn(c));
      FilterKeepsAll(Filter(tasks, InColumn(c)), OutsideColumn(id));
    }
  }

  // ---------------------------------------------------------------------
  // deleteTasks

  lemma FilterSingle(t: Task, sel: Selector)
    ensures Filter([t], sel) == if Keeps(sel, t) then [t] else []
  {
    FilterCons([t], sel);
    assert [t][1..] == [];
  }

  lemma FilterAround(s: seq<Task>, i: nat, sel: Selector)
    requires i < |s|
    ensures Filter(s, sel) == Filter(s[..i], sel) + Filter([s[i]], sel) + Filter(s[i + 1..], sel)
  {
    assert s == s[..i] + [s[i]] + s[i + 1..];
    FilterConcat(s[..i] + [s[i]], s[i + 1..], sel);
    FilterConcat(s[..i], [s[i]], sel);
  }

  lemma SpliceOut(s: seq<Task>, i: nat, sel: Selector)
    requires i < |s| && !Keeps(sel, s[i])
    requires Filter(s[..i], sel) == s[..i] && Filter(s[i + 1..], sel) == s[i + 1..]
    ensures Filter(s, sel) == RemoveAt(s, i)
  {
    FilterAround(s, i, sel);
    FilterSingle(s[i], sel);
  }

  lemma FilterOutFound(tasks: seq<Task>, i: nat)
    requires i < |tasks|
    requires forall k :: 0 <= k < |tasks| && k != i ==> tasks[k].id != tasks[i].id
    ensures Filter(tasks, Unlisted({tasks[i].id})) == RemoveAt(tasks, i)
  {
    var sel := Unlisted({tasks[i].id});
    FilterKeepsAll(tasks[..i], sel);
    FilterKeepsAll(tasks[i + 1..], sel);
    SpliceOut(tasks, i, sel);
  }

  /** With unique ids, splicing out the first task with id x filters out id x. */
  lemma RemoveTaskIsFilter(tasks: seq<Task>, x: Id)
    requires Distinct(TaskIds(tasks))
    ensures RemoveTask(tasks, x) == Filter(tasks, Unlisted({x}))
  {
    var ids := TaskIds(tasks);
    var i := FindIndex(ids, x);
    if i == -1 {
      assert forall k :: 0 <= k < |tasks| ==> ids[k] == tasks[k].id;
      FilterKeepsAll(tasks, Unlisted({x}));
    } else {
      forall k | 0 <= k < |tasks| && k != i ensures tasks[k].id != x {
        if k < i { assert ids[k] != ids[i]; } else { assert ids[i] != ids[k]; }
      }
      FilterOutFound(tasks, i);
    }
  }

  /**
   * On a board with unique task ids, deleteTasks(ids) keeps exactly the tasks
   * whose id is not listed, in their order, whatever the order or repetition
   * of the ids.
   */
  lemma {:induction false} DeleteAllIsFilter(tasks: seq<Task>, ids: seq<Id>)
    requires Distinct(TaskIds(tasks))
    ensures DeleteAll(tasks, ids) == Filter(tasks, Unlisted(set x | x in ids))
    decreases |ids|
  {
    if ids == [] {
      assert (set x | x in ids) == {};
      FilterKeepsAll(tasks, Unlisted({}));
    } else {
      var front, last := ids[..|ids| - 1], ids[|ids| - 1];
      var listed := set x | x in front;
      assert (set x | x in ids) == listed + {last} by {
        assert ids == front + [last];
      }
      DeleteAllIsFilter(tasks, front);
      FilterKeepsDistinctIds(tasks, Unlisted(listed));
      RemoveTaskIsFilter(Filter(tasks, Unlisted(listed)), last);
      FilterFilter(tasks, Unlisted(listed), Unlisted({last}));
      FilterSame(tasks, Both(Unlisted(listed), Unlisted({last})), Unlisted(listed + {last}));
    }
  }

  /** One more id visited by deleteTasks: one more splice, one more entry if found. */
  lemma DeleteAllStep(tasks: seq<Task>, ids: seq<Id>, k: nat)
    requires k < |ids|
    ensures DeleteAll(tasks, ids[..k + 1]) == RemoveTask(DeleteAll(tasks, ids[..k]), ids[k])
    ensures var rest := DeleteAll(tasks, ids[..k]);
      var i := FindIndex(TaskIds(rest), ids[k]);
      DeletedTasks(tasks, ids[..k + 1]) == DeletedTasks(tasks, ids[..k]) + (if i == -1 then [] else [rest[i]])
  {
    assert ids[..k + 1][..k] == ids[..k];
  }

  /** The listed and the unlisted tasks together are all the tasks. */
  lemma {:induction false} FilterPartition(s: seq<Task>, listed: set<Id>)
    ensures multiset(Filter(s, Listed(listed))) + multiset(Filter(s, Unlisted(listed))) == multiset(s)
  {
    if s != [] {
      var kept, dropped := Filter(s[1..], Listed(listed)), Filter(s[1..], Unlisted(listed));
      FilterPartition(s[1..], listed);
      FilterCons(s, Listed(listed));
      FilterCons(s, Unlisted(listed));
      if s[0].id in listed {
        assert Filter(s, Listed(listed)) == [s[0]] + kept && Filter(s, Unlisted(listed)) == dropped;
      } else {
        assert Filter(s, Listed(listed)) == kept && Filter(s, Unlisted(listed)) == [s[0]] + dropped;
      }
      assert s == [s[0]] + s[1..];
    }
  }

  /**
   * On a board with unique task ids, the tasks deleteTasks reports as
   * deleted are exactly the tasks whose id is listed.
   */
  lemma DeletedAreListed(tasks: seq<Task>, ids: seq<Id>)
    requires Distinct(TaskIds(tasks))
    ensures multiset(DeletedTasks(tasks, ids)) == multiset(Filter(tasks, Listed(set x | x in ids)))
  {
    var listed := set x | x in ids;
    var deleted, kept := DeletedTasks(tasks, ids), DeleteAll(tasks, ids);
    DeleteAllIsFilter(tasks, ids);
    FilterPartition(tasks, listed);
    Cancel(multiset(deleted), multiset(Filter(tasks, Listed(listed))), multiset(kept));
  }

  lemma Cancel(a: multiset<Task>, b: multiset<Task>, c: multiset<Task>)
    requires a + c == b + c
    ensures a == b
  {
    forall t ensures a[t] == b[t] {
      assert (a + c)[t] == (b + c)[t];
    }
  }

  /** deleteTasks leaves every column's remaining tasks in their order. */
  lemma DeleteTasksKeepsColumnOrder(tasks: seq<Task>, ids: seq<Id>, c: Id)
    requires Distinct(TaskIds(tasks))
    ensures Filter(DeleteAll(tasks, ids), InColumn(c))
         == Filter(Filter(tasks, InColumn(c)), Unlisted(set x | x in ids))
  {
    DeleteAllIsFilter(tasks, ids);
    FilterCommute(tasks, Unlisted(set x | x in ids), InColumn(c));
  }

  // ---------------------------------------------------------------------
  // The mutations keep the board well-formed

  /** addColumn with a fresh, non-empty id keeps the board well-formed. */
  lemma AddColumnKeepsWellFormed(d: Data, title: string, freshId: Id)
    requires WellFormed(d.columns, d.tasks)
    requires freshId != "" && freshId !in ColumnIds(d.columns)
    ensures var o := AddColumnOutcome(d, title, freshId);
      WellFormed(o.data.columns, o.data.tasks) && freshId in ColumnIds(o.data.columns)
  {
    assert ColumnIds(d.columns + [Column(freshId, title)]) == ColumnIds(d.columns) + [freshId];
  }

  /** deleteColumn undoes addColumn: the fresh column holds no task of a well-formed board. */
  lemma AddThenDeleteColumn(d: Data, title: string, freshId: Id)
    requires WellFormed(d.columns, d.tasks)
    requires freshId !in ColumnIds(d.columns)
    ensures DeleteColumnOutcome(AddColumnOutcome(d, title, freshId).data, freshId).data == d
  {
    var columns := d.columns + [Column(freshId, title)];
    var n := |d.columns|;
    assert ColumnIds(columns) == ColumnIds(d.columns) + [freshId];
    var i := FindIndex(ColumnIds(columns), freshId);
    assert i == n;
    assert RemoveAt(columns, n) == d.columns;
    forall k | 0 <= k < |d.tasks| ensures Keeps(OutsideColumn(freshId), d.tasks[k]) {
      assert d.tasks[k] in d.tasks;
    }
    FilterKeepsAll(d.tasks, OutsideColumn(freshId));
  }

  /** Renaming a column keeps the board well-formed. */
  lemma RenameColumnKeepsWellFormed(columns: seq<Column>, tasks: seq<Task>, i: nat, title: string)
    requires WellFormed(columns, tasks) && i < |columns|
    ensures WellFormed(columns[i := columns[i].(title := title)], tasks)
  {
    assert ColumnIds(columns[i := columns[i].(title := title)]) == ColumnIds(columns);
  }

  /**
   * deleteColumn keeps the board well-formed (the cascade leaves no task
   * behind in the deleted column) and the id is gone.
   */
  lemma DeleteColumnKeepsWellFormed(d: Data, id: Id)
    requires WellFormed(d.columns, d.tasks)
    ensures var o := DeleteColumnOutcome(d, id);
      WellFormed(o.data.columns, o.data.tasks) && id !in ColumnIds(o.data.columns)
  {
    var ids := ColumnIds(d.columns);
    var i := FindIndex(ids, id);
    if i != -1 {
      assert ColumnIds(RemoveAt(d.columns, i)) == RemoveAt(ids, i);
      DistinctRemoveAt(ids, i);
      FilterKeepsDistinctIds(d.tasks, OutsideColumn(id));
      FilterMembers(d.tasks, OutsideColumn(id));
    }
  }

  /** addTask with a fresh id keeps the board well-formed. */
  lemma AddTaskKeepsWellFormed(d: Data, columnId: Id, content: string, freshId: Id)
    requires WellFormed(d.columns, d.tasks) && freshId !in TaskIds(d.tasks)
    ensures var o := AddTaskOutcome(d, columnId, content, freshId);
      WellFormed(o.data.columns, o.data.tasks)
  {
    var t := Task(freshId, columnId, content);
    assert TaskIds(d.tasks + [t]) == TaskIds(d.tasks) + [t.id];
  }

  /** Replacing a task by one with the same id, in a column of the board. */
  lemma ReplaceTaskKeepsWellFormed(columns: seq<Column>, tasks: seq<Task>, i: nat, t: Task)
    requires WellFormed(columns, tasks) && i < |tasks|
    requires t.id == tasks[i].id && t.columnId in ColumnIds(columns)
    ensures WellFormed(columns, tasks[i := t])
  {
    assert TaskIds(tasks[i := t]) == TaskIds(tasks);
  }

  /** Splicing out one task keeps the board well-formed, and its id is gone. */
  lemma TaskIdsRemoveAt(tasks: seq<Task>, i: nat)
    requires i < |tasks|
    ensures TaskIds(RemoveAt(tasks, i)) == RemoveAt(TaskIds(tasks), i)
  {
  }

  lemma RemoveTaskAtKeepsWellFormed(columns: seq<Column>, tasks: seq<Task>, i: nat)
    requires WellFormed(columns, tasks) && i < |tasks|
    ensures WellFormed(columns, RemoveAt(tasks, i))
    ensures tasks[i].id !in TaskIds(RemoveAt(tasks, i))
  {
    var ids := TaskIds(tasks);
    TaskIdsRemoveAt(tasks, i);
    DistinctRemoveAt(ids, i);
    forall t | t in RemoveAt(tasks, i) ensures t in tasks {
      var k :| 0 <= k < |tasks| - 1 && RemoveAt(tasks, i)[k] == t;
      if k < i { assert tasks[k] == t; } else { assert tasks[k + 1] == t; }
    }
  }
}
